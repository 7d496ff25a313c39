/** Order-related predicates on sequences. */
module Seqs {

  /** `a` is `b` with some elements removed, the rest kept in order. */
  predicate IsSubsequence<T(==)>(a: seq<T>, b: seq<T>)
    decreases |b|
  {
    if b == [] then a == []
    else
      || (a != [] && a[|a| - 1] == b[|b| - 1] && IsSubsequence(a[..|a| - 1], b[..|b| - 1]))
      || IsSubsequence(a, b[..|b| - 1])
  }

  /** Putting an element in front of the longer sequence keeps a subsequence one. */
  lemma {:induction false} SubsequenceExtendFront<T>(a: seq<T>, x: T, b: seq<T>)
    requires IsSubsequence(a, b)
    ensures IsSubsequence(a, [x] + b)
    decreases |b|
  {
    if b == [] {
      assert ([x] + b)[..0] == [];
    } else {
      assert ([x] + b)[..|[x] + b| - 1] == [x] + b[..|b| - 1];
      if a != [] && a[|a| - 1] == b[|b| - 1] && IsSubsequence(a[..|a| - 1], b[..|b| - 1]) {
        SubsequenceExtendFront(a[..|a| - 1], x, b[..|b| - 1]);
      } else {
        SubsequenceExtendFront(a, x, b[..|b| - 1]);
      }
    }
  }

  /** Putting the same element in front of both sequences keeps a subsequence one. */
  lemma {:induction false} SubsequenceConsBoth<T>(a: seq<T>, x: T, b: seq<T>)
    requires IsSubsequence(a, b)
    ensures IsSubsequence([x] + a, [x] + b)
    decreases |b|
  {
    if b == [] {
      assert a == [];
      assert ([x] + a)[..0] == [] && ([x] + b)[..0] == [];
    } else {
      assert ([x] + b)[..|[x] + b| - 1] == [x] + b[..|b| - 1];
      if a != [] && a[|a| - 1] == b[|b| - 1] && IsSubsequence(a[..|a| - 1], b[..|b| - 1]) {
        assert ([x] + a)[..|[x] + a| - 1] == [x] + a[..|a| - 1];
        SubsequenceConsBoth(a[..|a| - 1], x, b[..|b| - 1]);
      } else {
        SubsequenceConsBoth(a, x, b[..|b| - 1]);
      }
    }
  }

  predicate NoDuplicates<T(==)>(s: seq<T>) {
    forall i, j :: 0 <= i < j < |s| ==> s[i] != s[j]
  }
}
