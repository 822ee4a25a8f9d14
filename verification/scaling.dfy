/** Multiplying a vector by a real number: the squared norm and the sum of squares both scale
    by its square. The source divides its vector by its norm; these facts carry the draw across. */
module Scaling {
  import opened ComplexNumbers
  import opened LinearAlgebra

  /** The squared modulus of a real multiple. */
  lemma ModSqScale(c: real, a: Complex)
    ensures ModSq(Mul(Complex(c, 0.0), a)) == c * c * ModSq(a)
  {
    var m := Mul(Complex(c, 0.0), a);
    assert m.re == c * a.re && m.im == c * a.im;
    assert (c * a.re) * (c * a.re) == c * c * (a.re * a.re);
    assert (c * a.im) * (c * a.im) == c * c * (a.im * a.im);
  }

  /** (k a)(k b) == k^2 (a b) for a real k. */
  lemma MulScaleBoth(c: real, a: Complex, b: Complex)
    ensures Mul(Mul(Complex(c, 0.0), a), Mul(Complex(c, 0.0), b)) == Mul(Complex(c * c, 0.0), Mul(a, b))
  {
    var x, y := Mul(Complex(c, 0.0), a), Mul(Complex(c, 0.0), b);
    assert x == Complex(c * a.re, c * a.im) && y == Complex(c * b.re, c * b.im);
    assert (c * a.re) * (c * b.re) == c * c * (a.re * b.re);
    assert (c * a.im) * (c * b.im) == c * c * (a.im * b.im);
    assert (c * a.re) * (c * b.im) == c * c * (a.re * b.im);
    assert (c * a.im) * (c * b.re) == c * c * (a.im * b.re);
  }

  /** a (k b) == k (a b) for a real k. */
  lemma MulScaleRight(c: real, a: Complex, b: Complex)
    ensures Mul(a, Mul(Complex(c, 0.0), b)) == Mul(Complex(c, 0.0), Mul(a, b))
  {
    var kb := Mul(Complex(c, 0.0), b);
    assert kb == Complex(c * b.re, c * b.im);
    assert a.re * (c * b.re) - a.im * (c * b.im) == c * (a.re * b.re - a.im * b.im);
    assert a.re * (c * b.im) + a.im * (c * b.re) == c * (a.re * b.im + a.im * b.re);
  }

  /** The head and the tail of a multiple. */
  lemma ScaleCons(k: Complex, v: Vector)
    requires v != []
    ensures Scale(k, v) != [] && Scale(k, v)[0] == Mul(k, v[0]) && Scale(k, v)[1..] == Scale(k, v[1..])
  {
  }

  /** The squared norm of a real multiple. */
  lemma {:induction false} NormSqScale(c: real, v: Vector)
    ensures NormSq(Scale(Complex(c, 0.0), v)) == c * c * NormSq(v)
  {
    var k := Complex(c, 0.0);
    if v == [] {
      assert Scale(k, v) == [];
    } else {
      ScaleCons(k, v);
      ModSqScale(c, v[0]);
      NormSqScale(c, v[1..]);
      Distrib(c * c, ModSq(v[0]), NormSq(v[1..]));
    }
  }

  /** Multiplication distributes over a sum. */
  lemma Distrib(cc: real, a: real, b: real)
    ensures cc * (a + b) == cc * a + cc * b
  {
  }

  /** The sum of squares of a real multiple. */
  lemma {:induction false} SquaresScale(c: real, w: Vector)
    ensures Dot(Scale(Complex(c, 0.0), w), Scale(Complex(c, 0.0), w)) == Mul(Complex(c * c, 0.0), Dot(w, w))
  {
    var k, k2 := Complex(c, 0.0), Complex(c * c, 0.0);
    if w == [] {
      MulZero(k2, Zero);
    } else {
      var sw := Scale(k, w);
      assert sw[1..] == Scale(k, w[1..]);
      SquaresScale(c, w[1..]);
      MulScaleBoth(c, w[0], w[0]);
      MulAddDistrib(k2, Mul(w[0], w[0]), Dot(w[1..], w[1..]));
    }
  }

  /** The real part of a real multiple. */
  lemma RealMulRe(cc: real, z: Complex)
    ensures Mul(Complex(cc, 0.0), z).re == cc * z.re
  {
    assert Mul(Complex(cc, 0.0), z).re == cc * z.re - 0.0 * z.im;
  }
}
