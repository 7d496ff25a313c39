/** Complex numbers as pairs of reals, with the few operations the analysis needs. */
module Complexes {

  datatype Complex = Complex(re: real, im: real)

  /** The embedding of a real number (Python's `complex(a)`). */
  function OfReal(x: real): (z: Complex)
    ensures z.re == x && z.im == 0.0
  {
    Complex(x, 0.0)
  }

  function Abs(x: real): (r: real)
    ensures r >= 0.0
    ensures r == x || r == -x
    ensures r >= x && r >= -x
  {
    if x < 0.0 then -x else x
  }

  function Sub(p: Complex, q: Complex): Complex {
    Complex(p.re - q.re, p.im - q.im)
  }

  function Neg(p: Complex): Complex {
    Complex(-p.re, -p.im)
  }

  /** |z|^2; comparing squares stands in for comparing moduli, both sides being non-negative. */
  function SqModulus(z: Complex): (r: real)
    ensures r >= 0.0
  {
    z.re * z.re + z.im * z.im
  }

  /** Below this magnitude an imaginary part is treated as zero (1e-8). */
  const ImagTolerance: real := 0.00000001

  /** `abs(v.imag) < 1e-8`: the value is shown and classified as a real number. */
  predicate EffectivelyReal(v: Complex) {
    Abs(v.im) < ImagTolerance
  }

  lemma SqDistanceSymmetric(p: Complex, q: Complex)
    ensures SqModulus(Sub(p, q)) == SqModulus(Sub(q, p))
  {
    var d, e := Sub(p, q), Sub(q, p);
    assert e.re == -d.re && e.im == -d.im;
    assert e.re * e.re == d.re * d.re;
    assert e.im * e.im == d.im * d.im;
  }

  lemma SqDistanceSelf(p: Complex)
    ensures SqModulus(Sub(p, p)) == 0.0
  {
  }
}
