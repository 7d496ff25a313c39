/**
 * The second-derivative test (app.py:157-168 for local analysis,
 * app.py:241-254 for global analysis), applied to the complex value of f''(c).
 */
module Classifier {
  import opened Options
  import opened Complexes
  import Display

  datatype Kind = Minimum | Maximum | Inflection | Indeterminate

  /** The sign test: only an effectively real f''(c) is classified by the sign of its real part. */
  function Classify(second: Complex): (k: Kind)
    ensures k == Indeterminate <==> Abs(second.im) >= ImagTolerance
    ensures k == Minimum <==> Abs(second.im) < ImagTolerance && second.re > 0.0
    ensures k == Maximum <==> Abs(second.im) < ImagTolerance && second.re < 0.0
    ensures k == Inflection <==> Abs(second.im) < ImagTolerance && second.re == 0.0
  {
    if !EffectivelyReal(second) then Indeterminate
    else if second.re > 0.0 then Minimum
    else if second.re < 0.0 then Maximum
    else Inflection
  }

  /** The kind a point gets with the sign of f'' reversed, that is, for -f. */
  function Mirror(k: Kind): Kind {
    match k
    case Minimum => Maximum
    case Maximum => Minimum
    case _ => k
  }

  /** Negating f swaps local minima and maxima and leaves the other kinds alone. */
  lemma ClassifyNegated(second: Complex)
    ensures Classify(Neg(second)) == Mirror(Classify(second))
  {
    assert Abs(Neg(second).im) == Abs(second.im);
  }

  /** The test is decided exactly when the value would be displayed as a real number. */
  lemma DecidedIffShownReal(second: Complex)
    ensures Classify(second) != Indeterminate <==> Display.Show(second).RealOnly?
  {
  }

  /** An imaginary part below the threshold does not influence the kind. */
  lemma NegligibleImaginaryIgnored(second: Complex)
    requires EffectivelyReal(second)
    ensures Classify(second) == Classify(OfReal(second.re))
  {
  }

  /**
   * Global analysis (app.py:242-253): the kind starts as Indeterminate and a
   * failed evaluation of f'' leaves it so.
   */
  function ClassifyAt(second: Option<Complex>): (k: Kind)
    ensures second.None? ==> k == Indeterminate
    ensures second.Some? ==> k == Classify(second.value)
  {
    match second
    case None => Indeterminate
    case Some(v) => Classify(v)
  }

  /** One output line of local analysis (app.py:166 and app.py:168). */
  datatype LocalLine =
    | Classified(point: Complex, value: Complex, kind: Kind)
    | EvaluationError(point: Complex)

  /**
   * Local analysis of one critical point: f(c), then f''(c), then the
   * rendering of c for the output line, all inside one `try`. A failure of
   * any of them turns the whole line into an error for that point.
   * `show` is the rendering of a critical point (`mostrar_valor_comp`),
   * which may raise on a symbolic root; rendering the complex value of f(c)
   * cannot fail. Only whether `show` succeeds matters here: the text it
   * renders is not part of the line.
   */
  function ClassifyLocal(pc: Complex, f: Complex -> Option<Complex>, f2: Complex -> Option<Complex>,
                         show: Complex -> Option<Display.Shown>): (line: LocalLine)
    ensures line.point == pc
    ensures line.EvaluationError? <==> f(pc).None? || f2(pc).None? || show(pc).None?
    ensures line.Classified? ==> f(pc) == Some(line.value) && line.kind == Classify(f2(pc).value)
  {
    match f(pc)
    case None => EvaluationError(pc)
    case Some(v) =>
      match f2(pc)
      case None => EvaluationError(pc)
      case Some(s) =>
        if show(pc).None? then EvaluationError(pc) else Classified(pc, v, Classify(s))
  }
}
