/**
 * The two critical-point requests end to end: local classification
 * (app.py:121-168) and global extremum search on an interval
 * (app.py:197-254, 279-280). The symbolic and numeric engines are
 * parameters: `None` from any of them stands for a call that raised.
 */
module Analysis {
  import opened Options
  import opened Complexes
  import opened Seqs
  import opened Proximity
  import opened RootFinder
  import opened Classifier
  import opened Interval
  import opened Selection
  import Display

  datatype LocalReport = LocalReport(points: seq<Complex>, lines: seq<LocalLine>)

  /**
   * Local analysis: the critical points, then one line per point. A failed
   * evaluation produces an error line for that point and the loop goes on.
   */
  function LocalAnalysis(symbolic: Option<seq<Complex>>, solver: real -> Option<Complex>, seeds: seq<real>,
                         f: Complex -> Option<Complex>, f2: Complex -> Option<Complex>,
                         show: Complex -> Option<Display.Shown>): (report: LocalReport)
    requires |seeds| == SeedCount
    ensures report.points == CriticalPoints(symbolic, solver, seeds)
    ensures symbolic.Some? ==> report.points == symbolic.value
    ensures symbolic.None? ==> |report.points| <= SeedCount && Separated(report.points)
    ensures |report.lines| == |report.points|
    ensures forall i :: 0 <= i < |report.lines| ==>
      && report.lines[i].point == report.points[i]
      && (report.lines[i].EvaluationError? <==>
            f(report.points[i]).None? || f2(report.points[i]).None? || show(report.points[i]).None?)
      && (report.lines[i].Classified? ==>
            f(report.points[i]) == Some(report.lines[i].value)
            && report.lines[i].kind == Classify(f2(report.points[i]).value))
  {
    var points := CriticalPoints(symbolic, solver, seeds);
    LocalReport(points, seq(|points|, i requires 0 <= i < |points| => ClassifyLocal(points[i], f, f2, show)))
  }

  /**
   * Errors stay local: two evaluators that agree away from one critical
   * point give the same lines for every other critical point.
   */
  lemma LocalErrorsIsolated(symbolic: Option<seq<Complex>>, solver: real -> Option<Complex>, seeds: seq<real>,
                            f: Complex -> Option<Complex>, f2: Complex -> Option<Complex>,
                            g: Complex -> Option<Complex>, g2: Complex -> Option<Complex>,
                            show: Complex -> Option<Display.Shown>, bad: Complex)
    requires |seeds| == SeedCount
    requires forall z :: z != bad ==> f(z) == g(z) && f2(z) == g2(z)
    ensures LocalAnalysis(symbolic, solver, seeds, f, f2, show).points == LocalAnalysis(symbolic, solver, seeds, g, g2, show).points
    ensures forall i :: 0 <= i < |LocalAnalysis(symbolic, solver, seeds, f, f2, show).points| &&
                        LocalAnalysis(symbolic, solver, seeds, f, f2, show).points[i] != bad ==>
      LocalAnalysis(symbolic, solver, seeds, f, f2, show).lines[i] == LocalAnalysis(symbolic, solver, seeds, g, g2, show).lines[i]
  {
  }

  /** Roots of the global path: a symbolic solve that raised contributes none (app.py:201-205). */
  function GlobalRoots<R>(symbolic: Option<seq<R>>): (roots: seq<R>)
    ensures symbolic.Some? ==> roots == symbolic.value
    ensures symbolic.None? ==> roots == []
  {
    match symbolic
    case Some(roots) => roots
    case None => []
  }

  /** Without symbolic roots the only candidates are the rounded endpoints; there is no numeric fallback here. */
  lemma RaisedSolveLeavesEndpoints<R>(evalf: R -> Option<Complex>, a: real, b: real, rnd: real -> real)
    ensures Candidates(GlobalRoots<R>(None), evalf, a, b, rnd) == {RoundPoint(rnd, OfReal(a)), RoundPoint(rnd, OfReal(b))}
  {
    CandidatesSpec(GlobalRoots<R>(None), evalf, a, b, rnd);
  }

  /** `order` lists every element of `s` exactly once: `list(...)` of a set, in an unspecified order. */
  predicate Enumerates(order: seq<Complex>, s: set<Complex>) {
    NoDuplicates(order) && (forall c :: c in order ==> c in s) && (forall c :: c in s ==> c in order)
  }

  datatype GlobalReport =
    | NoEvaluableExtrema
    | Extrema(evaluations: seq<Evaluation>, minimum: Evaluation, maximum: Evaluation, kinds: seq<Kind>)

  /**
   * Selection over a non-empty list of evaluations (app.py:233-254): the
   * first minimal and the first maximal key, and the kind of each
   * evaluated candidate.
   */
  function Select(evals: seq<Evaluation>, f2: Complex -> Option<Complex>): (report: GlobalReport)
    requires evals != []
    ensures report.Extrema? && report.evaluations == evals
    ensures report.minimum in evals && report.maximum in evals
    ensures forall e :: e in evals ==> !KeyLess(e.value, report.minimum.value) && !KeyLess(report.maximum.value, e.value)
    ensures
      exists k :: 0 <= k < |evals| && evals[k] == report.minimum
        && forall j :: 0 <= j < k ==> KeyLess(report.minimum.value, evals[j].value)
    ensures
      exists k :: 0 <= k < |evals| && evals[k] == report.maximum
        && forall j :: 0 <= j < k ==> KeyLess(evals[j].value, report.maximum.value)
    ensures |report.kinds| == |evals|
    ensures forall i :: 0 <= i < |evals| ==> report.kinds[i] == ClassifyAt(f2(evals[i].point))
  {
    var lo, hi := MinIndex(evals), MaxIndex(evals);
    assert forall e :: e in evals ==> !KeyLess(e.value, evals[lo].value) && !KeyLess(evals[hi].value, e.value) by {
      forall e | e in evals ensures !KeyLess(e.value, evals[lo].value) && !KeyLess(evals[hi].value, e.value) {
        var k :| 0 <= k < |evals| && evals[k] == e;
      }
    }
    Extrema(evals, evals[lo], evals[hi], seq(|evals|, i requires 0 <= i < |evals| => ClassifyAt(f2(evals[i].point))))
  }

  /**
   * Evaluation and selection over the candidates in iteration order
   * (app.py:220-254): the evaluable candidates, the first minimal and the
   * first maximal key, and the kind of each evaluated candidate.
   */
  function Search(order: seq<Complex>, f: Complex -> Option<Complex>, f2: Complex -> Option<Complex>): (report: GlobalReport)
    ensures report.NoEvaluableExtrema? <==> forall c :: c in order ==> f(c).None?
    ensures report.Extrema? ==>
      && (forall e :: e in report.evaluations ==> e.point in order && f(e.point) == Some(e.value))
      && (forall c :: c in order && f(c).Some? ==> Evaluation(c, f(c).value) in report.evaluations)
      && (NoDuplicates(order) ==> forall i, j :: 0 <= i < j < |report.evaluations| ==>
            report.evaluations[i].point != report.evaluations[j].point)
    ensures report.Extrema? ==>
      && report.minimum in report.evaluations
      && report.maximum in report.evaluations
      && (forall e :: e in report.evaluations ==> !KeyLess(e.value, report.minimum.value))
      && (forall e :: e in report.evaluations ==> !KeyLess(report.maximum.value, e.value))
    ensures report.Extrema? ==>
      exists k :: 0 <= k < |report.evaluations| && report.evaluations[k] == report.minimum
        && forall j :: 0 <= j < k ==> KeyLess(report.minimum.value, report.evaluations[j].value)
    ensures report.Extrema? ==>
      exists k :: 0 <= k < |report.evaluations| && report.evaluations[k] == report.maximum
        && forall j :: 0 <= j < k ==> KeyLess(report.evaluations[j].value, report.maximum.value)
    ensures report.Extrema? ==>
      && |report.kinds| == |report.evaluations|
      && forall i :: 0 <= i < |report.kinds| ==> report.kinds[i] == ClassifyAt(f2(report.evaluations[i].point))
  {
    var evals := Evaluate(order, f);
    if evals == [] then NoEvaluableExtrema else Select(evals, f2)
  }

  /**
   * Global analysis on [a, b]. `order` is the order in which the candidate
   * set is iterated; it decides which of several equal keys is reported.
   */
  function GlobalAnalysis<R>(symbolic: Option<seq<R>>, evalf: R -> Option<Complex>, a: real, b: real,
                             rnd: real -> real, order: seq<Complex>,
                             f: Complex -> Option<Complex>, f2: Complex -> Option<Complex>): (report: GlobalReport)
    requires Enumerates(order, Candidates(GlobalRoots(symbolic), evalf, a, b, rnd))
    ensures report.NoEvaluableExtrema? <==>
      forall c :: c in Candidates(GlobalRoots(symbolic), evalf, a, b, rnd) ==> f(c).None?
    ensures report.Extrema? ==>
      && (forall e :: e in report.evaluations ==>
            e.point in Candidates(GlobalRoots(symbolic), evalf, a, b, rnd) && f(e.point) == Some(e.value))
      && (forall c :: c in Candidates(GlobalRoots(symbolic), evalf, a, b, rnd) && f(c).Some? ==>
            Evaluation(c, f(c).value) in report.evaluations)
      && (forall i, j :: 0 <= i < j < |report.evaluations| ==>
            report.evaluations[i].point != report.evaluations[j].point)
  {
    Search(order, f, f2)
  }
}
