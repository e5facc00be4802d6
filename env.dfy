// `${NAME}` expansion of internal/config/env.go. The regular expression
// \$\{([A-Z_][A-Z0-9_]*)\} is matched left to right without overlaps, as
// ReplaceAllStringFunc does; the process environment is a map where an
// absent key reads as the empty string, as os.Getenv does.
module Env {

  type Environment = map<string, string>

  predicate IsNameStart(c: char) { ('A' <= c <= 'Z') || c == '_' }
  predicate IsNameChar(c: char) { IsNameStart(c) || ('0' <= c <= '9') }

  /** A name the pattern accepts: [A-Z_][A-Z0-9_]*. */
  predicate IsVarName(n: string) {
    |n| > 0 && IsNameStart(n[0]) && forall i :: 0 <= i < |n| ==> IsNameChar(n[i])
  }

  /** os.Getenv: the value, or "" when unset. */
  function Getenv(env: Environment, name: string): string {
    if name in env then env[name] else ""
  }

  /** Length of the longest prefix of `s` made of name characters. */
  function NameRun(s: string): (k: nat)
    ensures k <= |s|
    ensures forall i :: 0 <= i < k ==> IsNameChar(s[i])
    ensures k < |s| ==> !IsNameChar(s[k])
  {
    if s != [] && IsNameChar(s[0]) then 1 + NameRun(s[1..]) else 0
  }

  /** If a match of the pattern starts at the beginning of `s`, the name's length. */
  function MatchAt(s: string): (k: nat)
    ensures k > 0 ==> 2 + k + 1 <= |s| && s[..2] == "${" && IsVarName(s[2..2 + k]) && s[2 + k] == '}'
  {
    if |s| >= 2 && s[0] == '$' && s[1] == '{' && |s| > 2 && IsNameStart(s[2]) then
      var k := NameRun(s[2..]);
      if 2 + k < |s| && s[2 + k] == '}' then k else 0
    else 0
  }

  /** ExpandEnvVars as a left-to-right scanner. */
  function ExpandEnvVars(s: string, env: Environment): string
    decreases |s|
  {
    if s == [] then []
    else
      var k := MatchAt(s);
      if k > 0 then
        var name := s[2..2 + k];
        var value := Getenv(env, name);
        (if value != "" then value else s[..3 + k]) + ExpandEnvVars(s[3 + k..], env)
      else [s[0]] + ExpandEnvVars(s[1..], env)
  }

  /** No match starts at a `$`-free position, and a `$`-free tail is untouched. */
  lemma {:induction false} NoDollarUnchanged(s: string, env: Environment)
    requires forall i :: 0 <= i < |s| ==> s[i] != '$'
    ensures ExpandEnvVars(s, env) == s
  {
    if s != [] {
      ExpandPlainChar(s, env);
      NoDollarUnchanged(s[1..], env);
    }
  }

  /** True when no match of the pattern starts anywhere in `s`. */
  predicate NoPlaceholder(s: string) {
    forall i :: 0 <= i < |s| ==> MatchAt(s[i..]) == 0
  }

  /** Input in which the pattern finds no match is returned unchanged. */
  lemma {:induction false} NoPlaceholderUnchanged(s: string, env: Environment)
    requires NoPlaceholder(s)
    ensures ExpandEnvVars(s, env) == s
  {
    if s != [] {
      assert s[0..] == s;
      assert MatchAt(s) == 0;
      forall i | 0 <= i < |s[1..]| ensures MatchAt(s[1..][i..]) == 0 {
        assert s[1..][i..] == s[i + 1..];
      }
      NoPlaceholderUnchanged(s[1..], env);
      assert [s[0]] + s[1..] == s;
    }
  }

  /** Text without `$` in front of the rest is copied through unchanged. */
  lemma {:induction false} PlainPrefixKept(p: string, rest: string, env: Environment)
    requires forall i :: 0 <= i < |p| ==> p[i] != '$'
    ensures ExpandEnvVars(p + rest, env) == p + ExpandEnvVars(rest, env)
  {
    if p != [] {
      var s := p + rest;
      assert s[0] == p[0];
      assert s[1..] == p[1..] + rest;
      ExpandPlainChar(s, env);
      PlainPrefixKept(p[1..], rest, env);
      var t := ExpandEnvVars(rest, env);
      assert ExpandEnvVars(s, env) == [p[0]] + (p[1..] + t);
      assert [p[0]] + (p[1..] + t) == ([p[0]] + p[1..]) + t;
      assert [p[0]] + p[1..] == p;
    } else {
      assert p + rest == rest;
    }
  }

  /** A character that cannot start a match is copied and the scan moves on. */
  lemma ExpandPlainChar(s: string, env: Environment)
    requires s != [] && s[0] != '$'
    ensures ExpandEnvVars(s, env) == [s[0]] + ExpandEnvVars(s[1..], env)
  {
    assert MatchAt(s) == 0;
  }

  /** A placeholder of the accepted shape is one match, whatever follows it. */
  lemma PlaceholderMatches(name: string, rest: string)
    requires IsVarName(name)
    ensures MatchAt("${" + name + "}" + rest) == |name|
  {
    var s := "${" + name + "}" + rest;
    assert s[0] == '$' && s[1] == '{' && s[2] == name[0];
    assert s[2..] == name + ("}" + rest);
    NameRunOfName(name, "}" + rest);
    assert s[2 + |name|] == '}';
  }

  lemma {:induction false} NameRunOfName(name: string, rest: string)
    requires forall i :: 0 <= i < |name| ==> IsNameChar(name[i])
    requires rest != [] && !IsNameChar(rest[0])
    ensures NameRun(name + rest) == |name|
  {
    if name != [] {
      assert (name + rest)[1..] == name[1..] + rest;
      NameRunOfName(name[1..], rest);
    }
  }

  /**
   * Each placeholder is replaced independently: a set, non-empty variable
   * by its value, an unset or empty one left verbatim; the expansion then
   * goes on after the placeholder.
   */
  lemma PlaceholderExpansion(name: string, rest: string, env: Environment)
    requires IsVarName(name)
    ensures ExpandEnvVars("${" + name + "}" + rest, env) ==
      (if Getenv(env, name) != "" then Getenv(env, name) else "${" + name + "}") + ExpandEnvVars(rest, env)
  {
    var s := "${" + name + "}" + rest;
    PlaceholderMatches(name, rest);
    var k := |name|;
    assert s[2..2 + k] == name;
    assert s[..3 + k] == "${" + name + "}";
    assert s[3 + k..] == rest;
  }

  /** A non-empty input never expands to the empty string. */
  lemma ExpandNonEmpty(s: string, env: Environment)
    requires s != ""
    ensures ExpandEnvVars(s, env) != ""
  {
    var k := MatchAt(s);
    if k > 0 {
      var value := Getenv(env, s[2..2 + k]);
      var head := if value != "" then value else s[..3 + k];
      assert ExpandEnvVars(s, env) == head + ExpandEnvVars(s[3 + k..], env);
      assert |head| > 0;
    }
  }

  /** The empty string expands to itself. */
  lemma ExpandEmpty(env: Environment)
    ensures ExpandEnvVars("", env) == ""
  {
  }

  /**
   * A brace-delimited name the pattern rejects (lower case, a leading digit,
   * empty) is never replaced, whatever the environment holds.
   */
  lemma RejectedNameKept(name: string, env: Environment)
    requires !IsVarName(name)
    requires forall i :: 0 <= i < |name| ==> name[i] != '$' && name[i] != '}'
    ensures ExpandEnvVars("${" + name + "}", env) == "${" + name + "}"
  {
    var s := "${" + name + "}";
    assert s[2..] == name + "}";
    if |name| > 0 && IsNameStart(name[0]) {
      var k := NameRun(s[2..]);
      // the run stops inside the name at a character that is neither a name character nor '}'
      var j :| 0 <= j < |name| && !IsNameChar(name[j]);
      assert s[2..][j] == name[j];
      assert k <= j;
      assert s[2 + k] == name[k];
    }
    assert MatchAt(s) == 0;
    assert s[1..] == "{" + name + "}";
    NoDollarUnchanged(s[1..], env);
  }
}
