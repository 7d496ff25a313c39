/** How a complex value is rendered (app.py:52-56): real parts only when the imaginary part is negligible. */
module Display {
  import opened Complexes

  /** The two shapes of rendered text; the digits (`%.6g`) are not modelled. */
  datatype Shown = RealOnly(re: real) | WithImaginary(re: real, im: real)

  function Show(v: Complex): (s: Shown)
    ensures s.RealOnly? <==> Abs(v.im) < ImagTolerance
    ensures s.re == v.re
    ensures s.WithImaginary? ==> s.im == v.im
  {
    if EffectivelyReal(v) then RealOnly(v.re) else WithImaginary(v.re, v.im)
  }
}
