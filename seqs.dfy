// Sequence vocabulary shared by the filters of the model.
module Seqs {

  /** `s` appears in `t` in order, possibly with gaps. */
  predicate IsSubsequence<T(==)>(s: seq<T>, t: seq<T>)
    decreases |t|
  {
    if s == [] then true
    else if t == [] then false
    else if s[0] == t[0] then IsSubsequence(s[1..], t[1..])
    else IsSubsequence(s, t[1..])
  }
}
