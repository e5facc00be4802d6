// The simplified HTML stripping of stripHTML in internal/feed/fetcher.go:
// four break/paragraph tags replaced by a space, a character scan with an
// inTag flag, then strings.Fields / strings.Join / strings.TrimSpace.
module HtmlText {

  /** Go's unicode.IsSpace. */
  predicate IsSpace(c: char) {
    c == ' ' || ('\t' <= c <= '\r') || c == '\U{85}' || c == '\U{A0}' || c == '\U{1680}' ||
    ('\U{2000}' <= c <= '\U{200A}') || c == '\U{2028}' || c == '\U{2029}' || c == '\U{202F}' ||
    c == '\U{205F}' || c == '\U{3000}'
  }

  /** strings.ReplaceAll for a non-empty pattern: left to right, without overlaps. */
  function ReplaceAll(s: string, pat: string, rep: string): string
    requires pat != []
    decreases |s|
  {
    if s == [] then []
    else if |pat| <= |s| && s[..|pat|] == pat then rep + ReplaceAll(s[|pat|..], pat, rep)
    else [s[0]] + ReplaceAll(s[1..], pat, rep)
  }

  /** The four replacements that open stripHTML. */
  function ReplaceBreaks(s: string): string {
    ReplaceAll(ReplaceAll(ReplaceAll(ReplaceAll(s, "<br>", " "), "<br/>", " "), "<br />", " "), "</p>", " ")
  }

  /** The tag scan: '<' writes a space and opens a tag, '>' closes it, other characters are kept outside tags. */
  function StripTags(s: string, inTag: bool): string
    decreases |s|
  {
    if s == [] then []
    else if s[0] == '<' then " " + StripTags(s[1..], true)
    else if s[0] == '>' then StripTags(s[1..], false)
    else if !inTag then [s[0]] + StripTags(s[1..], inTag)
    else StripTags(s[1..], inTag)
  }

  /** The suffix of `s` after its leading white space. */
  function TrimLeft(s: string): (t: string)
    ensures |t| <= |s| && t == s[|s| - |t|..]
    ensures t != [] ==> !IsSpace(t[0])
    ensures forall i :: 0 <= i < |s| - |t| ==> IsSpace(s[i])
  {
    if s != [] && IsSpace(s[0]) then TrimLeft(s[1..]) else s
  }

  /** The prefix of `s` before its trailing white space. */
  function TrimRight(s: string): (t: string)
    ensures |t| <= |s| && t == s[..|t|]
    ensures t != [] ==> !IsSpace(t[|t| - 1])
    ensures forall i :: |t| <= i < |s| ==> IsSpace(s[i])
  {
    if s != [] && IsSpace(s[|s| - 1]) then TrimRight(s[..|s| - 1]) else s
  }

  /** strings.TrimSpace: neither end of the result is white space. */
  function TrimSpace(s: string): (t: string)
    ensures t != [] ==> !IsSpace(t[0]) && !IsSpace(t[|t| - 1])
  {
    TrimRight(TrimLeft(s))
  }

  /**
   * TrimSpace returns one contiguous piece of `s`: what TrimLeft skipped is
   * before it, and TrimRight's white space after it.
   */
  lemma TrimSpaceSpec(s: string)
    ensures var t, k := TrimSpace(s), |s| - |TrimLeft(s)|;
      k + |t| <= |s| && t == s[k..k + |t|]
  {
  }

  /** Length of the leading run of non-space characters. */
  function WordLength(s: string): (k: nat)
    ensures k <= |s|
    ensures forall i :: 0 <= i < k ==> !IsSpace(s[i])
    ensures k < |s| ==> IsSpace(s[k])
  {
    if s != [] && !IsSpace(s[0]) then 1 + WordLength(s[1..]) else 0
  }

  /** strings.Fields: the maximal runs of non-space characters. */
  function Fields(s: string): (words: seq<string>)
    ensures forall w :: w in words ==> IsWord(w)
    ensures forall w, c :: w in words && c in w ==> c in s
    decreases |s|
  {
    if s == [] then []
    else if IsSpace(s[0]) then Fields(s[1..])
    else
      var k := WordLength(s);
      [s[..k]] + Fields(s[k..])
  }

  /** strings.Join. */
  function Join(words: seq<string>, sep: string): string {
    if words == [] then []
    else if |words| == 1 then words[0]
    else words[0] + sep + Join(words[1..], sep)
  }

  /** The pure specification of stripHTML. */
  function StrippedText(s: string): string {
    TrimSpace(Join(Fields(StripTags(ReplaceBreaks(s), false)), " "))
  }

  /** A word as Fields produces it: not empty and without white space. */
  predicate IsWord(w: string) {
    w != [] && forall i :: 0 <= i < |w| ==> !IsSpace(w[i])
  }

  /**
   * Plain text in canonical spacing: the only white space is ' ', never
   * at either end and never twice in a row.
   */
  predicate SingleSpaced(s: string) {
    && (forall i :: 0 <= i < |s| && IsSpace(s[i]) ==> s[i] == ' ')
    && (s != [] ==> !IsSpace(s[0]) && !IsSpace(s[|s| - 1]))
    && (forall i :: 0 <= i < |s| - 1 && s[i] == ' ' ==> s[i + 1] != ' ')
  }

  /** Joining words with one space gives canonically spaced text. */
  lemma {:induction false} JoinSingleSpaced(words: seq<string>)
    requires forall w :: w in words ==> IsWord(w)
    ensures SingleSpaced(Join(words, " "))
    ensures forall c :: c in Join(words, " ") ==> c == ' ' || exists w :: w in words && c in w
  {
    if |words| > 1 {
      JoinSingleSpaced(words[1..]);
      var w, r := words[0], Join(words[1..], " ");
      var j := w + " " + r;
      assert IsWord(w);
      assert r != [] by { assert words[1] in words; assert |r| >= |words[1]| by { JoinFirst(words[1..]); } }
      forall i | 0 <= i < |j| && IsSpace(j[i]) ensures j[i] == ' ' {
        if i > |w| { assert j[i] == r[i - |w| - 1]; }
      }
      forall i | 0 <= i < |j| - 1 && j[i] == ' ' ensures j[i + 1] != ' ' {
        if i == |w| { assert j[i + 1] == r[0]; }
        else if i > |w| { assert j[i] == r[i - |w| - 1]; assert j[i + 1] == r[i - |w|]; }
      }
      assert j[|j| - 1] == r[|r| - 1];
      forall c | c in j ensures c == ' ' || exists v :: v in words && c in v {
        if c in w { assert words[0] in words; }
        else if c != ' ' {
          assert c in r;
          var v :| v in words[1..] && c in v;
          assert v in words;
        }
      }
    } else if |words| == 1 {
      assert words[0] in words;
    }
  }

  /** A joined list starts with its first word. */
  lemma JoinFirst(words: seq<string>)
    requires words != []
    ensures |Join(words, " ")| >= |words[0]|
    ensures Join(words, " ")[..|words[0]|] == words[0]
  {
  }

  /** Fields of text that starts with a word: that word, then the fields of the rest. */
  lemma FieldsOfWord(s: string)
    requires s != [] && !IsSpace(s[0])
    ensures Fields(s) == [s[..WordLength(s)]] + Fields(s[WordLength(s)..])
  {
  }

  /** A single separating space contributes no field. */
  lemma FieldsAfterSpace(s: string)
    requires |s| >= 2 && s[0] == ' ' && !IsSpace(s[1])
    ensures Fields(s) == Fields(s[1..])
  {
  }

  /** Join of a word in front of a non-empty list. */
  lemma JoinCons(w: string, ws: seq<string>)
    requires ws != []
    ensures Join([w] + ws, " ") == w + " " + Join(ws, " ")
  {
    assert ([w] + ws)[1..] == ws;
  }

  /** What follows a space in canonically spaced text is canonically spaced and not empty. */
  lemma SingleSpacedTail(s: string, k: nat)
    requires SingleSpaced(s) && k < |s| && s[k] == ' '
    ensures k + 1 < |s| && !IsSpace(s[k + 1])
    ensures SingleSpaced(s[k + 1..])
  {
    var rest := s[k + 1..];
    assert k + 1 < |s|;
    forall i | 0 <= i < |rest| && IsSpace(rest[i]) ensures rest[i] == ' ' {
      assert rest[i] == s[k + 1 + i];
    }
    forall i | 0 <= i < |rest| - 1 && rest[i] == ' ' ensures rest[i + 1] != ' ' {
      assert rest[i] == s[k + 1 + i] && rest[i + 1] == s[k + 2 + i];
    }
    assert rest[|rest| - 1] == s[|s| - 1];
  }

  lemma SplitAtSpace(s: string, k: nat)
    requires k < |s| && s[k] == ' '
    ensures s == s[..k] + " " + s[k + 1..]
  {
    assert s[k..] == " " + s[k + 1..];
    assert s == s[..k] + s[k..];
  }

  /** One word, one space, then text that is already a fixpoint. */
  lemma FixpointStep(s: string, k: nat)
    requires s != [] && !IsSpace(s[0]) && k == WordLength(s)
    requires k + 1 < |s| && s[k] == ' ' && !IsSpace(s[k + 1])
    requires Join(Fields(s[k + 1..]), " ") == s[k + 1..]
    ensures Join(Fields(s), " ") == s
  {
    var rest := s[k + 1..];
    FieldsOfWord(s);
    assert s[k..][1..] == rest;
    FieldsAfterSpace(s[k..]);
    FieldsOfWord(rest);
    JoinCons(s[..k], Fields(rest));
    SplitAtSpace(s, k);
  }

  /** Canonically spaced text is a fixpoint of Join(Fields(_), " "). */
  lemma {:induction false} NormalizeFixpoint(s: string)
    requires SingleSpaced(s)
    ensures Join(Fields(s), " ") == s
    decreases |s|
  {
    if s != [] {
      var k := WordLength(s);
      if k < |s| {
        SingleSpacedTail(s, k);
        NormalizeFixpoint(s[k + 1..]);
        FixpointStep(s, k);
      } else {
        FieldsOfWord(s);
        assert s[k..] == [];
        assert Fields(s[k..]) == [];
        assert s[..k] == s;
      }
    }
  }

  /** TrimSpace leaves canonically spaced text alone. */
  lemma TrimSpaceSingleSpaced(s: string)
    requires SingleSpaced(s)
    ensures TrimSpace(s) == s
  {
  }

  /** The scan never outputs an angle bracket. */
  lemma {:induction false} StripTagsNoBrackets(s: string, inTag: bool)
    ensures forall c :: c in StripTags(s, inTag) ==> c != '<' && c != '>' && (c in s || c == ' ')
    decreases |s|
  {
    if s != [] {
      var next := if s[0] == '<' then true else if s[0] == '>' then false else inTag;
      StripTagsNoBrackets(s[1..], next);
    }
  }

  /** Text without angle brackets passes the scan unchanged outside a tag. */
  lemma {:induction false} StripTagsPlain(s: string)
    requires forall i :: 0 <= i < |s| ==> s[i] != '<' && s[i] != '>'
    ensures StripTags(s, false) == s
    decreases |s|
  {
    if s != [] {
      StripTagsPlain(s[1..]);
      assert s == [s[0]] + s[1..];
    }
  }

  /** A replacement whose pattern starts with '<' changes nothing in text without '<'. */
  lemma {:induction false} ReplaceAllPlain(s: string, pat: string, rep: string)
    requires pat != [] && pat[0] == '<'
    requires forall i :: 0 <= i < |s| ==> s[i] != '<'
    ensures ReplaceAll(s, pat, rep) == s
    decreases |s|
  {
    if s != [] {
      assert s[0] != pat[0];
      ReplaceAllPlain(s[1..], pat, rep);
      assert s == [s[0]] + s[1..];
    }
  }

  /**
   * stripHTML's result is canonically spaced (no leading or trailing white
   * space, words separated by exactly one space) and holds no '<' or '>'.
   */
  lemma StrippedTextClean(s: string)
    ensures SingleSpaced(StrippedText(s))
    ensures forall c :: c in StrippedText(s) ==> c != '<' && c != '>'
  {
    var t := StripTags(ReplaceBreaks(s), false);
    StripTagsNoBrackets(ReplaceBreaks(s), false);
    JoinSingleSpaced(Fields(t));
    var j := Join(Fields(t), " ");
    TrimSpaceSingleSpaced(j);
    forall c | c in j ensures c != '<' && c != '>' {
      if c != ' ' {
        var w :| w in Fields(t) && c in w;
      }
    }
  }

  /** Plain single-spaced text without angle brackets (including "") maps to itself. */
  lemma StrippedTextPlain(s: string)
    requires SingleSpaced(s)
    requires forall i :: 0 <= i < |s| ==> s[i] != '<' && s[i] != '>'
    ensures StrippedText(s) == s
  {
    ReplaceAllPlain(s, "<br>", " ");
    ReplaceAllPlain(s, "<br/>", " ");
    ReplaceAllPlain(s, "<br />", " ");
    ReplaceAllPlain(s, "</p>", " ");
    StripTagsPlain(s);
    NormalizeFixpoint(s);
    TrimSpaceSingleSpaced(s);
  }

  /** The rune loop of stripHTML, followed by the whitespace normalisation. */
  method StripHTML(s: string) returns (r: string)
    ensures r == StrippedText(s)
  {
    var text := ReplaceBreaks(s);
    var inTag := false;
    var out := "";
    var i := 0;
    while i < |text|
      invariant 0 <= i <= |text|
      invariant out + StripTags(text[i..], inTag) == StripTags(text, false)
    {
      var c := text[i];
      assert text[i..] == [c] + text[i + 1..];
      if c == '<' {
        inTag := true;
        out := out + " ";
      } else if c == '>' {
        inTag := false;
      } else if !inTag {
        out := out + [c];
      }
      i := i + 1;
    }
    assert text[i..] == [];
    assert out == StripTags(ReplaceBreaks(s), false);
    var words := Fields(out);
    assert words == Fields(StripTags(ReplaceBreaks(s), false));
    r := TrimSpace(Join(words, " "));
  }
}
