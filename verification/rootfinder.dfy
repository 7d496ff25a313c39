/**
 * Collecting critical points for local analysis (app.py:125-144): the
 * symbolic solver's roots when it returns, the multi-start numeric fallback
 * when it raises.
 */
module RootFinder {
  import opened Options
  import opened Complexes
  import opened Proximity

  /** Number of seed points of the fallback grid. */
  const SeedCount: nat := 20

  /** The roots the numeric solver returns, one per successful seed, in seed order (app.py:131-137). */
  function NumericRoots(solver: real -> Option<Complex>, seeds: seq<real>): (found: seq<Complex>)
    ensures |found| <= |seeds|
    ensures forall z :: z in found ==> exists i :: 0 <= i < |seeds| && solver(seeds[i]) == Some(z)
    ensures forall i :: 0 <= i < |seeds| && solver(seeds[i]).Some? ==> solver(seeds[i]).value in found
    ensures (forall i :: 0 <= i < |seeds| ==> solver(seeds[i]).None?) <==> found == []
  {
    if seeds == [] then []
    else
      var rest := NumericRoots(solver, seeds[1..]);
      match solver(seeds[0])
      case None => rest
      case Some(z) => [z] + rest
  }

  /** Roots of an earlier run of seeds come before those of a later run. */
  lemma {:induction false} NumericRootsInSeedOrder(solver: real -> Option<Complex>, s1: seq<real>, s2: seq<real>)
    ensures NumericRoots(solver, s1 + s2) == NumericRoots(solver, s1) + NumericRoots(solver, s2)
    decreases |s1|
  {
    if s1 == [] {
      assert s1 + s2 == s2;
    } else {
      assert (s1 + s2)[0] == s1[0];
      assert (s1 + s2)[1..] == s1[1..] + s2;
      NumericRootsInSeedOrder(solver, s1[1..], s2);
    }
  }

  /** When every seed converges, the i-th root is the one found from the i-th seed. */
  lemma {:induction false} NumericRootsAllConverge(solver: real -> Option<Complex>, seeds: seq<real>)
    requires forall i :: 0 <= i < |seeds| ==> solver(seeds[i]).Some?
    ensures |NumericRoots(solver, seeds)| == |seeds|
    ensures forall i :: 0 <= i < |seeds| ==> NumericRoots(solver, seeds)[i] == solver(seeds[i]).value
    decreases |seeds|
  {
    if seeds != [] {
      NumericRootsAllConverge(solver, seeds[1..]);
    }
  }

  /**
   * The critical points of local analysis. `symbolic` is the outcome of the
   * symbolic solver (None when it raised). Only a raise switches to the
   * numeric fallback; an empty list of symbolic roots is kept as it is.
   */
  function CriticalPoints(symbolic: Option<seq<Complex>>, solver: real -> Option<Complex>, seeds: seq<real>): (points: seq<Complex>)
    requires |seeds| == SeedCount
    ensures symbolic.Some? ==> points == symbolic.value
    ensures symbolic.None? ==> |points| <= SeedCount
    ensures symbolic.None? ==> Separated(points)
    ensures symbolic.None? ==>
      forall z :: z in points ==> exists i :: 0 <= i < |seeds| && solver(seeds[i]) == Some(z)
    ensures symbolic.None? ==>
      forall i :: 0 <= i < |seeds| && solver(seeds[i]).Some? ==> NearAny(points, solver(seeds[i]).value)
  {
    match symbolic
    case Some(roots) => roots
    case None =>
      var raw := NumericRoots(solver, seeds);
      DedupCovers(raw);
      Dedup(raw)
  }
}
