/** Worked instances for f(x) = x^2 on [-2, 3] and for f(x) = x^3. */
module Examples {
  import opened Complexes
  import opened Classifier
  import opened Interval
  import opened Selection

  /** x^2 has f''(0) = 2, a local minimum; x^3 has f''(0) = 0, an inflection point. */
  lemma SecondDerivativeExamples()
    ensures Classify(OfReal(2.0)) == Minimum
    ensures Classify(OfReal(0.0)) == Inflection
  {
  }

  /**
   * The evaluations of x^2 at the candidates 3, -2, 0 of [-2, 3]: the
   * minimum is f(0) = 0 and the maximum f(3) = 9.
   */
  lemma SquareSelection()
    ensures
      var evals := [Evaluation(OfReal(3.0), OfReal(9.0)), Evaluation(OfReal(-2.0), OfReal(4.0)), Evaluation(OfReal(0.0), OfReal(0.0))];
      evals[MinIndex(evals)].point == OfReal(0.0) && evals[MaxIndex(evals)].point == OfReal(3.0)
  {
    var evals := [Evaluation(OfReal(3.0), OfReal(9.0)), Evaluation(OfReal(-2.0), OfReal(4.0)), Evaluation(OfReal(0.0), OfReal(0.0))];
    assert KeyLess(evals[2].value, evals[0].value) && KeyLess(evals[2].value, evals[1].value);
    assert KeyLess(evals[1].value, evals[0].value);
  }
}
