/** Order-preserving selection of elements of a sequence. */
module Seqs {

  /** `t` is obtained from `s` by deleting some elements, keeping the order of the rest. */
  predicate IsSubsequence<T(==)>(t: seq<T>, s: seq<T>)
    decreases |s|
  {
    t == [] ||
    (s != [] && ((t[0] == s[0] && IsSubsequence(t[1..], s[1..])) || IsSubsequence(t, s[1..])))
  }

  lemma {:induction false} SubsequenceReflexive<T>(s: seq<T>)
    ensures IsSubsequence(s, s)
    decreases |s|
  {
    if s != [] {
      SubsequenceReflexive(s[1..]);
    }
  }

  lemma {:induction false} SubsequenceLength<T>(t: seq<T>, s: seq<T>)
    requires IsSubsequence(t, s)
    ensures |t| <= |s|
    decreases |s|
  {
    if t != [] {
      if t[0] == s[0] && IsSubsequence(t[1..], s[1..]) {
        SubsequenceLength(t[1..], s[1..]);
      } else {
        SubsequenceLength(t, s[1..]);
      }
    }
  }

  lemma {:induction false} SubsequenceMembers<T>(t: seq<T>, s: seq<T>, x: T)
    requires IsSubsequence(t, s)
    requires x in t
    ensures x in s
    decreases |s|
  {
    if t[0] == s[0] && IsSubsequence(t[1..], s[1..]) {
      if x != t[0] {
        SubsequenceMembers(t[1..], s[1..], x);
      }
    } else {
      SubsequenceMembers(t, s[1..], x);
    }
  }

  /** Elements in front of the larger sequence may always be skipped. */
  lemma {:induction false} SubsequenceOfLonger<T>(t: seq<T>, v: seq<T>, s: seq<T>)
    requires IsSubsequence(t, s)
    ensures IsSubsequence(t, v + s)
    decreases |v|
  {
    if v != [] && t != [] {
      assert (v + s)[1..] == v[1..] + s;
      SubsequenceOfLonger(t, v[1..], s);
      assert IsSubsequence(t, (v + s)[1..]);
    } else if v == [] {
      assert v + s == s;
    }
  }

  /** A shared first element may always be kept. */
  lemma SubsequenceCons<T>(x: T, t: seq<T>, s: seq<T>)
    requires IsSubsequence(t, s)
    ensures IsSubsequence([x] + t, [x] + s)
  {
    assert ([x] + t)[1..] == t;
    assert ([x] + s)[1..] == s;
  }
}
