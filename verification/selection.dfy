/**
 * Choosing the estimated global minimum and maximum among the evaluations
 * (app.py:233-234): Python's `min` and `max` with the key
 * `(v.real, abs(v.imag))`, each returning the first element that attains
 * its extreme key.
 */
module Selection {
  import opened Complexes
  import opened Interval

  /** Lexicographic comparison of the keys (re(u), |im(u)|) and (re(v), |im(v)|). */
  predicate KeyLess(u: Complex, v: Complex) {
    u.re < v.re || (u.re == v.re && Abs(u.im) < Abs(v.im))
  }

  /**
   * The position `min` picks: a scan that replaces the current best only
   * when a later key is strictly smaller.
   */
  function MinIndex(evals: seq<Evaluation>): (k: nat)
    requires evals != []
    ensures k < |evals|
    ensures forall j :: 0 <= j < |evals| ==> !KeyLess(evals[j].value, evals[k].value)
    ensures forall j :: 0 <= j < k ==> KeyLess(evals[k].value, evals[j].value)
    decreases |evals|
  {
    if |evals| == 1 then 0
    else
      var k := MinIndex(evals[..|evals| - 1]);
      if KeyLess(evals[|evals| - 1].value, evals[k].value) then |evals| - 1 else k
  }

  /**
   * The position `max` picks: a scan that replaces the current best only
   * when a later key is strictly larger.
   */
  function MaxIndex(evals: seq<Evaluation>): (k: nat)
    requires evals != []
    ensures k < |evals|
    ensures forall j :: 0 <= j < |evals| ==> !KeyLess(evals[k].value, evals[j].value)
    ensures forall j :: 0 <= j < k ==> KeyLess(evals[j].value, evals[k].value)
    decreases |evals|
  {
    if |evals| == 1 then 0
    else
      var k := MaxIndex(evals[..|evals| - 1]);
      if KeyLess(evals[k].value, evals[|evals| - 1].value) then |evals| - 1 else k
  }

  /**
   * The same key serves both selections, so among values with equal real
   * parts the minimum avoids the larger |im| and the maximum avoids the smaller one.
   */
  lemma TieBreakByImaginaryMagnitude(evals: seq<Evaluation>, i: nat, j: nat)
    requires i < |evals| && j < |evals|
    requires evals[i].value.re == evals[j].value.re
    requires Abs(evals[i].value.im) < Abs(evals[j].value.im)
    ensures MinIndex(evals) != j
    ensures MaxIndex(evals) != i
  {
  }
}
