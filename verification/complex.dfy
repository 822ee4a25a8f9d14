/** Exact complex amplitudes. The simulator stores amplitudes as single-precision
    complex numbers; here they are pairs of reals, so every identity is exact. */
module ComplexNumbers {

  datatype Complex = Complex(re: real, im: real)

  const Zero: Complex := Complex(0.0, 0.0)
  const One: Complex := Complex(1.0, 0.0)
  /** The imaginary unit i. */
  const ImagUnit: Complex := Complex(0.0, 1.0)

  function Add(a: Complex, b: Complex): Complex
  {
    Complex(a.re + b.re, a.im + b.im)
  }

  function Neg(a: Complex): Complex
  {
    Complex(-a.re, -a.im)
  }

  function Mul(a: Complex, b: Complex): Complex
  {
    Complex(a.re * b.re - a.im * b.im, a.re * b.im + a.im * b.re)
  }

  /** The squared modulus |a|^2. */
  function ModSq(a: Complex): (r: real)
    ensures r >= 0.0
  {
    Square(a.re);
    Square(a.im);
    a.re * a.re + a.im * a.im
  }

  lemma ModSqZero()
    ensures ModSq(Zero) == 0.0
  {
  }

  lemma ModSqOne()
    ensures ModSq(One) == 1.0
  {
  }

  lemma Square(x: real)
    ensures x * x >= 0.0
  {
    if x < 0.0 {
      var y := -x;
      assert x * x == y * y;
    }
  }

  lemma AddZero(a: Complex)
    ensures Add(Zero, a) == a && Add(a, Zero) == a
  {
  }

  lemma AddAssoc(a: Complex, b: Complex, c: Complex)
    ensures Add(Add(a, b), c) == Add(a, Add(b, c))
  {
  }

  lemma MulZero(a: Complex, b: Complex)
    requires a == Zero || b == Zero
    ensures Mul(a, b) == Zero
  {
  }

  lemma MulOne(a: Complex)
    ensures Mul(One, a) == a && Mul(a, One) == a
  {
  }

  lemma MulAssoc(a: Complex, b: Complex, c: Complex)
    ensures Mul(Mul(a, b), c) == Mul(a, Mul(b, c))
  {
  }

  lemma MulAddDistrib(a: Complex, b: Complex, c: Complex)
    ensures Mul(a, Add(b, c)) == Add(Mul(a, b), Mul(a, c))
    ensures Mul(Add(b, c), a) == Add(Mul(b, a), Mul(c, a))
  {
  }
}
