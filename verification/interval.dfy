/**
 * Candidate points of global analysis on [a, b] (app.py:201-218) and their
 * evaluation (app.py:220-226).
 */
module Interval {
  import opened Options
  import opened Complexes
  import opened Seqs

  /** Rounding to a fixed number of decimals (`round(x, 8)`), abstracted as an idempotent map on reals. */
  ghost predicate IsRounding(rnd: real -> real) {
    forall x :: rnd(rnd(x)) == rnd(x)
  }

  /** `round(p.real, 8) + 1j*round(p.imag, 8)`. */
  function RoundPoint(rnd: real -> real, p: Complex): Complex {
    Complex(rnd(p.re), rnd(p.im))
  }

  /**
   * The numeric values of the symbolic roots whose real part lies in [a, b],
   * in solver order (app.py:207-214). `evalf` is the conversion
   * `complex(pc.evalf())`; a root whose conversion raises is skipped.
   * The imaginary part is not filtered.
   */
  function RootsInInterval<R>(roots: seq<R>, evalf: R -> Option<Complex>, a: real, b: real): (inside: seq<Complex>)
    ensures |inside| <= |roots|
    ensures forall z :: z in inside <==>
      exists i :: 0 <= i < |roots| && evalf(roots[i]) == Some(z) && a <= z.re <= b
  {
    if roots == [] then []
    else
      var rest := RootsInInterval(roots[1..], evalf, a, b);
      match evalf(roots[0])
      case Some(z) =>
        if a <= z.re <= b then [z] + rest else rest
      case None => rest
  }

  /** The set of rounded points; equal points after rounding collapse into one. */
  function RoundedSet(rnd: real -> real, ps: seq<Complex>): (s: set<Complex>)
    ensures |s| <= |ps|
    ensures forall p :: p in ps ==> RoundPoint(rnd, p) in s
    ensures forall c :: c in s ==> exists p :: p in ps && c == RoundPoint(rnd, p)
  {
    if ps == [] then {}
    else {RoundPoint(rnd, ps[0])} + RoundedSet(rnd, ps[1..])
  }

  /**
   * The candidate set (app.py:207-218): the in-interval roots, then both
   * endpoints, all rounded and collected into a set.
   */
  function Candidates<R>(roots: seq<R>, evalf: R -> Option<Complex>, a: real, b: real, rnd: real -> real): set<Complex> {
    RoundedSet(rnd, RootsInInterval(roots, evalf, a, b) + [OfReal(a), OfReal(b)])
  }

  /**
   * What the candidate set holds: both rounded endpoints, the rounding of
   * every root with a <= re <= b, and nothing else; at most two more
   * candidates than roots; and, for an idempotent rounding, points that
   * rounding leaves unchanged.
   */
  lemma CandidatesSpec<R>(roots: seq<R>, evalf: R -> Option<Complex>, a: real, b: real, rnd: real -> real)
    ensures RoundPoint(rnd, OfReal(a)) in Candidates(roots, evalf, a, b, rnd)
    ensures RoundPoint(rnd, OfReal(b)) in Candidates(roots, evalf, a, b, rnd)
    ensures forall i :: 0 <= i < |roots| && evalf(roots[i]).Some? && a <= evalf(roots[i]).value.re <= b ==>
      RoundPoint(rnd, evalf(roots[i]).value) in Candidates(roots, evalf, a, b, rnd)
    ensures forall c :: c in Candidates(roots, evalf, a, b, rnd) ==>
      || c == RoundPoint(rnd, OfReal(a))
      || c == RoundPoint(rnd, OfReal(b))
      || exists i :: 0 <= i < |roots| && evalf(roots[i]).Some? && a <= evalf(roots[i]).value.re <= b
           && c == RoundPoint(rnd, evalf(roots[i]).value)
    ensures |Candidates(roots, evalf, a, b, rnd)| <= |roots| + 2
    ensures IsRounding(rnd) ==> forall c :: c in Candidates(roots, evalf, a, b, rnd) ==> RoundPoint(rnd, c) == c
  {
  }

  /**
   * On a one-point interval where every root with that real part has an
   * imaginary part that rounds like 0, the point itself is the only candidate.
   */
  lemma SinglePointInterval<R>(roots: seq<R>, evalf: R -> Option<Complex>, a: real, rnd: real -> real)
    requires forall i :: 0 <= i < |roots| && evalf(roots[i]).Some? && evalf(roots[i]).value.re == a ==>
      rnd(evalf(roots[i]).value.im) == rnd(0.0)
    ensures Candidates(roots, evalf, a, a, rnd) == {RoundPoint(rnd, OfReal(a))}
  {
    CandidatesSpec(roots, evalf, a, a, rnd);
  }

  /**
   * On a one-point interval a root z with real part a whose imaginary part
   * does not round like 0 is a second candidate next to the point itself.
   */
  lemma SinglePointWithComplexRoot<R>(roots: seq<R>, evalf: R -> Option<Complex>, a: real, rnd: real -> real,
                                      k: nat, z: Complex)
    requires k < |roots| && evalf(roots[k]) == Some(z) && z.re == a
    requires forall i :: 0 <= i < |roots| && evalf(roots[i]).Some? && evalf(roots[i]).value.re == a ==>
      evalf(roots[i]).value == z
    requires rnd(z.im) != rnd(0.0)
    ensures Candidates(roots, evalf, a, a, rnd) == {RoundPoint(rnd, OfReal(a)), RoundPoint(rnd, z)}
    ensures RoundPoint(rnd, OfReal(a)) != RoundPoint(rnd, z)
  {
    CandidatesSpec(roots, evalf, a, a, rnd);
    var cands := Candidates(roots, evalf, a, a, rnd);
    assert RoundPoint(rnd, z) in cands;
    forall c | c in cands ensures c == RoundPoint(rnd, OfReal(a)) || c == RoundPoint(rnd, z) {
      if c != RoundPoint(rnd, OfReal(a)) {
        var i :| 0 <= i < |roots| && evalf(roots[i]).Some? && a <= evalf(roots[i]).value.re <= a
          && c == RoundPoint(rnd, evalf(roots[i]).value);
      }
    }
  }

  /** A candidate whose evaluation succeeded, with the value f took there. */
  datatype Evaluation = Evaluation(point: Complex, value: Complex)

  /** The points of a list of evaluations, in order. */
  function Points(evals: seq<Evaluation>): (ps: seq<Complex>)
    ensures |ps| == |evals|
    ensures forall k :: 0 <= k < |evals| ==> ps[k] == evals[k].point
  {
    seq(|evals|, k requires 0 <= k < |evals| => evals[k].point)
  }

  /** `evaluaciones` (app.py:220-226): candidates whose evaluation raised are dropped. */
  function Evaluate(cands: seq<Complex>, f: Complex -> Option<Complex>): (evals: seq<Evaluation>)
    ensures |evals| <= |cands|
    ensures forall k :: 0 <= k < |evals| ==> evals[k].point in cands && f(evals[k].point) == Some(evals[k].value)
    ensures forall p :: p in cands && f(p).Some? ==> Evaluation(p, f(p).value) in evals
    ensures evals == [] <==> forall p :: p in cands ==> f(p).None?
    ensures NoDuplicates(cands) ==> forall i, j :: 0 <= i < j < |evals| ==> evals[i].point != evals[j].point
  {
    if cands == [] then []
    else
      var rest := Evaluate(cands[1..], f);
      assert NoDuplicates(cands) ==> NoDuplicates(cands[1..]) && cands[0] !in cands[1..];
      match f(cands[0])
      case None => rest
      case Some(v) => [Evaluation(cands[0], v)] + rest
  }

  /** The evaluations keep the order of the candidates they come from. */
  lemma {:induction false} EvaluateInOrder(cands: seq<Complex>, f: Complex -> Option<Complex>)
    ensures IsSubsequence(Points(Evaluate(cands, f)), cands)
    decreases |cands|
  {
    if cands == [] {
      assert Points(Evaluate(cands, f)) == [];
    } else {
      EvaluateInOrder(cands[1..], f);
      if f(cands[0]).None? {
        EvaluateInOrderSkip(cands, f);
      } else {
        EvaluateInOrderKeep(cands, f);
      }
    }
  }

  /** Step of `EvaluateInOrder` for a first candidate whose evaluation fails. */
  lemma EvaluateInOrderSkip(cands: seq<Complex>, f: Complex -> Option<Complex>)
    requires cands != [] && f(cands[0]).None?
    requires IsSubsequence(Points(Evaluate(cands[1..], f)), cands[1..])
    ensures IsSubsequence(Points(Evaluate(cands, f)), cands)
  {
    assert Evaluate(cands, f) == Evaluate(cands[1..], f);
    assert cands == [cands[0]] + cands[1..];
    SubsequenceExtendFront(Points(Evaluate(cands[1..], f)), cands[0], cands[1..]);
  }

  /** Step of `EvaluateInOrder` for a first candidate whose evaluation succeeds. */
  lemma EvaluateInOrderKeep(cands: seq<Complex>, f: Complex -> Option<Complex>)
    requires cands != [] && f(cands[0]).Some?
    requires IsSubsequence(Points(Evaluate(cands[1..], f)), cands[1..])
    ensures IsSubsequence(Points(Evaluate(cands, f)), cands)
  {
    var rest := Evaluate(cands[1..], f);
    var first := Evaluation(cands[0], f(cands[0]).value);
    assert Evaluate(cands, f) == [first] + rest;
    PointsCons(first, rest);
    assert cands == [cands[0]] + cands[1..];
    SubsequenceConsBoth(Points(rest), cands[0], cands[1..]);
  }

  /** The points of a list with one more evaluation in front. */
  lemma PointsCons(e: Evaluation, evals: seq<Evaluation>)
    ensures Points([e] + evals) == [e.point] + Points(evals)
  {
    assert forall k :: 0 <= k < |evals| + 1 ==> Points([e] + evals)[k] == ([e.point] + Points(evals))[k];
  }
}
