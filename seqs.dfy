/** Order-preserving filtering, subsequences and duplicate-freedom. */
module Seqs {

  /** Keeps, in order, the elements satisfying `keep`. */
  function Filter<T>(s: seq<T>, keep: T -> bool): (r: seq<T>)
    ensures |r| <= |s|
  {
    if s == [] then [] else
      Filter(s[..|s| - 1], keep) + (if keep(s[|s| - 1]) then [s[|s| - 1]] else [])
  }

  /** `a` is `b` with some elements deleted, the rest kept in order. */
  ghost predicate IsSubsequence<T>(a: seq<T>, b: seq<T>)
  {
    if a == [] then true
    else if b == [] then false
    else if a[|a| - 1] == b[|b| - 1] then IsSubsequence(a[..|a| - 1], b[..|b| - 1])
    else IsSubsequence(a, b[..|b| - 1])
  }

  ghost predicate NoDuplicates<T>(s: seq<T>)
  {
    forall i, j :: 0 <= i < j < |s| ==> s[i] != s[j]
  }

  lemma {:induction false} FilterMembers<T>(s: seq<T>, keep: T -> bool, x: T)
    ensures x in Filter(s, keep) <==> x in s && keep(x)
  {
    if s != [] {
      FilterMembers(s[..|s| - 1], keep, x);
      assert s == s[..|s| - 1] + [s[|s| - 1]];
    }
  }

  lemma {:induction false} FilterIsSubsequence<T>(s: seq<T>, keep: T -> bool)
    ensures IsSubsequence(Filter(s, keep), s)
  {
    if s != [] {
      var pre := s[..|s| - 1];
      FilterIsSubsequence(pre, keep);
      if keep(s[|s| - 1]) {
        var r := Filter(s, keep);
        assert r[..|r| - 1] == Filter(pre, keep);
      } else {
        assert Filter(s, keep) == Filter(pre, keep);
        SubsequenceOfPrefix(Filter(pre, keep), pre, s);
      }
    }
  }

  /** A subsequence of a prefix of `b` is a subsequence of `b`. */
  lemma {:induction false} SubsequenceOfPrefix<T>(a: seq<T>, pre: seq<T>, b: seq<T>)
    requires IsSubsequence(a, pre)
    requires |b| == |pre| + 1 && b[..|pre|] == pre
    ensures IsSubsequence(a, b)
    decreases |b|, 0
  {
    assert b[..|b| - 1] == pre;
    if a != [] && a[|a| - 1] == b[|b| - 1] {
      SubsequenceDropLast(a, pre);
    }
  }

  /** Dropping the last element of a subsequence leaves a subsequence. */
  lemma {:induction false} SubsequenceDropLast<T>(a: seq<T>, b: seq<T>)
    requires a != [] && IsSubsequence(a, b)
    ensures IsSubsequence(a[..|a| - 1], b)
    decreases |b|, 1
  {
    var b' := b[..|b| - 1];
    if a[|a| - 1] == b[|b| - 1] {
      SubsequenceOfPrefix(a[..|a| - 1], b', b);
    } else {
      SubsequenceDropLast(a, b');
      SubsequenceOfPrefix(a[..|a| - 1], b', b);
    }
  }

  lemma {:induction false} FilterIdempotent<T>(s: seq<T>, keep: T -> bool)
    ensures Filter(Filter(s, keep), keep) == Filter(s, keep)
  {
    if s != [] {
      var pre := s[..|s| - 1];
      FilterIdempotent(pre, keep);
      var r := Filter(s, keep);
      if keep(s[|s| - 1]) {
        assert r[..|r| - 1] == Filter(pre, keep);
      } else {
        assert r == Filter(pre, keep);
      }
    }
  }

  /** Every element of a filtered sequence satisfies the filter. */
  lemma {:induction false} FilterAllKept<T>(s: seq<T>, keep: T -> bool)
    ensures forall i :: 0 <= i < |Filter(s, keep)| ==> keep(Filter(s, keep)[i])
  {
    forall i | 0 <= i < |Filter(s, keep)| ensures keep(Filter(s, keep)[i]) {
      FilterMembers(s, keep, Filter(s, keep)[i]);
    }
  }

  /** A filter that keeps everything is the identity. */
  lemma {:induction false} FilterKeepsAll<T>(s: seq<T>, keep: T -> bool)
    requires forall i :: 0 <= i < |s| ==> keep(s[i])
    ensures Filter(s, keep) == s
  {
    if s != [] {
      FilterKeepsAll(s[..|s| - 1], keep);
    }
  }

  lemma {:induction false} FilterEmpty<T>(s: seq<T>, keep: T -> bool)
    ensures Filter(s, keep) == [] <==> forall i :: 0 <= i < |s| ==> !keep(s[i])
  {
    if Filter(s, keep) == [] {
      forall i | 0 <= i < |s| ensures !keep(s[i]) {
        FilterMembers(s, keep, s[i]);
      }
    } else {
      var x := Filter(s, keep)[0];
      FilterMembers(s, keep, x);
    }
  }
}
