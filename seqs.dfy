/** Order-preserving subsequences, shared by the tag filter and the reading-list toggle. */
module Seqs {

  /** `sub` is obtained from `s` by deleting elements, keeping the rest in order. */
  predicate Subsequence<T(==)>(sub: seq<T>, s: seq<T>)
    decreases |s|
  {
    if sub == [] then true
    else if s == [] then false
    else if sub[|sub| - 1] == s[|s| - 1] then Subsequence(sub[..|sub| - 1], s[..|s| - 1])
    else Subsequence(sub, s[..|s| - 1])
  }

  /** Every sequence is a subsequence of itself. */
  lemma {:induction false} SubsequenceRefl<T>(s: seq<T>)
    ensures Subsequence(s, s)
  {
    if s != [] { SubsequenceRefl(s[..|s| - 1]); }
  }

  /** A subsequence stays one when the longer sequence grows at the end. */
  lemma {:induction false} SubsequenceExtend<T>(sub: seq<T>, s: seq<T>, x: T)
    requires Subsequence(sub, s)
    ensures Subsequence(sub, s + [x])
    decreases |s|, 1
  {
    assert (s + [x])[..|s|] == s;
    if sub != [] && sub[|sub| - 1] == x {
      SubsequenceDropLast(sub, s);
    }
  }

  /** Dropping the last element of a subsequence keeps it a subsequence. */
  lemma {:induction false} SubsequenceDropLast<T>(sub: seq<T>, s: seq<T>)
    requires sub != [] && Subsequence(sub, s)
    ensures Subsequence(sub[..|sub| - 1], s)
    decreases |s|, 0
  {
    var sub', s' := sub[..|sub| - 1], s[..|s| - 1];
    assert s == s' + [s[|s| - 1]];
    if sub[|sub| - 1] == s[|s| - 1] {
      SubsequenceExtend(sub', s', s[|s| - 1]);
    } else {
      SubsequenceDropLast(sub, s');
      SubsequenceExtend(sub', s', s[|s| - 1]);
    }
  }

  /** Every element of a subsequence is an element of the sequence. */
  lemma {:induction false} SubsequenceMembers<T>(sub: seq<T>, s: seq<T>, x: T)
    requires Subsequence(sub, s) && x in sub
    ensures x in s
    decreases |s|
  {
    var s' := s[..|s| - 1];
    if sub[|sub| - 1] == s[|s| - 1] {
      if x != sub[|sub| - 1] {
        assert sub == sub[..|sub| - 1] + [sub[|sub| - 1]];
        SubsequenceMembers(sub[..|sub| - 1], s', x);
      }
    } else {
      SubsequenceMembers(sub, s', x);
    }
  }
}
