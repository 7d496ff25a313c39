/**
 * Greedy proximity deduplication of approximate roots (app.py:139-144).
 * Roots are scanned in discovery order and a root is kept unless an
 * already kept root lies within `Tolerance` of it.
 */
module Proximity {
  import opened Complexes
  import opened Seqs

  /** Clustering radius for approximate roots (1e-3). */
  const Tolerance: real := 0.001

  /** The square of `Tolerance`. */
  const ToleranceSq: real := 0.000001

  /** |p - q| < Tolerance, decided on squares. */
  predicate Near(p: Complex, q: Complex) {
    SqModulus(Sub(p, q)) < ToleranceSq
  }

  /** Python's `any(abs(r - u) < tolerancia for u in unicas)`. */
  predicate NearAny(kept: seq<Complex>, r: Complex) {
    exists u :: u in kept && Near(r, u)
  }

  /** Every element is outside the tolerance of every element before it. */
  predicate Separated(s: seq<Complex>) {
    forall i, j :: 0 <= i < j < |s| ==> !Near(s[j], s[i])
  }

  /** The kept roots after scanning all of `roots`, one root at a time. */
  function Dedup(roots: seq<Complex>): (kept: seq<Complex>)
    ensures |kept| <= |roots|
    ensures forall u :: u in kept ==> u in roots
    ensures Separated(kept)
    ensures |roots| > 0 ==> |kept| > 0 && kept[0] == roots[0]
    decreases |roots|
  {
    if roots == [] then []
    else
      var prev := Dedup(roots[..|roots| - 1]);
      var r := roots[|roots| - 1];
      if NearAny(prev, r) then prev
      else
        assert forall i :: 0 <= i < |prev| ==> !Near(r, prev[i]) by {
          forall i | 0 <= i < |prev| ensures !Near(r, prev[i]) {
            assert prev[i] in prev;
          }
        }
        prev + [r]
  }

  /** The scan keeps roots in discovery order. */
  lemma {:induction false} DedupIsSubsequence(roots: seq<Complex>)
    ensures IsSubsequence(Dedup(roots), roots)
    decreases |roots|
  {
    if roots != [] {
      var pre := roots[..|roots| - 1];
      DedupIsSubsequence(pre);
      var kept := Dedup(roots);
      if kept == Dedup(pre) {
        assert roots[..|roots| - 1] == pre;
      } else {
        assert kept == Dedup(pre) + [roots[|roots| - 1]];
        assert kept[..|kept| - 1] == Dedup(pre);
      }
    }
  }

  /** Any two kept roots are at least `Tolerance` apart, in either order of subtraction. */
  lemma DedupPairwiseApart(roots: seq<Complex>)
    ensures forall i, j :: 0 <= i < |Dedup(roots)| && 0 <= j < |Dedup(roots)| && i != j ==>
      SqModulus(Sub(Dedup(roots)[i], Dedup(roots)[j])) >= ToleranceSq
  {
    var kept := Dedup(roots);
    forall i, j | 0 <= i < |kept| && 0 <= j < |kept| && i != j
      ensures SqModulus(Sub(kept[i], kept[j])) >= ToleranceSq
    {
      SqDistanceSymmetric(kept[i], kept[j]);
    }
  }

  /** Nothing is lost beyond the tolerance: each root is near some kept root. */
  lemma {:induction false} DedupCovers(roots: seq<Complex>)
    ensures forall i :: 0 <= i < |roots| ==> NearAny(Dedup(roots), roots[i])
    decreases |roots|
  {
    if roots != [] {
      var pre := roots[..|roots| - 1];
      var r := roots[|roots| - 1];
      var prev, kept := Dedup(pre), Dedup(roots);
      DedupCovers(pre);
      forall i | 0 <= i < |roots|
        ensures NearAny(kept, roots[i])
      {
        if i < |roots| - 1 {
          assert roots[i] == pre[i];
          assert forall u :: u in prev ==> u in kept;
          NearAnyGrows(prev, kept, roots[i]);
        } else {
          DedupCoversLast(roots);
        }
      }
    }
  }

  /** A root near one kept root stays near it as more roots are kept. */
  lemma NearAnyGrows(prev: seq<Complex>, kept: seq<Complex>, x: Complex)
    requires NearAny(prev, x)
    requires forall u :: u in prev ==> u in kept
    ensures NearAny(kept, x)
  {
    var u :| u in prev && Near(x, u);
    assert u in kept;
  }

  /** The root scanned last is either dropped for a near kept root or kept itself. */
  lemma DedupCoversLast(roots: seq<Complex>)
    requires roots != []
    ensures NearAny(Dedup(roots), roots[|roots| - 1])
  {
    var r := roots[|roots| - 1];
    var prev := Dedup(roots[..|roots| - 1]);
    if !NearAny(prev, r) {
      assert Dedup(roots) == prev + [r];
      SelfNear(prev + [r], r);
    }
  }

  lemma SelfNear(kept: seq<Complex>, r: Complex)
    requires r in kept
    ensures NearAny(kept, r)
  {
    NearReflexive(r);
  }

  lemma NearReflexive(r: Complex)
    ensures Near(r, r)
  {
    SqDistanceSelf(r);
  }

  /** A separated sequence passes through the scan unchanged. */
  lemma {:induction false} DedupOfSeparated(s: seq<Complex>)
    requires Separated(s)
    ensures Dedup(s) == s
    decreases |s|
  {
    if s != [] {
      var pre := s[..|s| - 1];
      var r := s[|s| - 1];
      assert Separated(pre);
      DedupOfSeparated(pre);
      assert !NearAny(pre, r) by {
        forall u | u in pre ensures !Near(r, u) {
          var i :| 0 <= i < |pre| && pre[i] == u;
        }
      }
      assert pre + [r] == s;
    }
  }

  /** Deduplicating twice gives the same roots as deduplicating once. */
  lemma {:induction false} DedupIdempotent(roots: seq<Complex>)
    ensures Dedup(Dedup(roots)) == Dedup(roots)
  {
    DedupOfSeparated(Dedup(roots));
  }

  /** The scan as written: an outer loop over roots, an inner `any` over the kept ones. */
  method DedupScan(roots: seq<Complex>) returns (unique: seq<Complex>)
    ensures unique == Dedup(roots)
  {
    unique := [];
    for n := 0 to |roots|
      invariant unique == Dedup(roots[..n])
    {
      var r := roots[n];
      var found := false;
      for k := 0 to |unique|
        invariant found <==> exists m :: 0 <= m < k && Near(r, unique[m])
      {
        if Near(r, unique[k]) {
          found := true;
        }
      }
      assert found <==> NearAny(unique, r) by {
        if NearAny(unique, r) {
          var u :| u in unique && Near(r, u);
          var m :| 0 <= m < |unique| && unique[m] == u;
        }
      }
      assert roots[..n + 1][..n] == roots[..n];
      if !found {
        unique := unique + [r];
      }
    }
    assert roots[..|roots|] == roots;
  }
}
