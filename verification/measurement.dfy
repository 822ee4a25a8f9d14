/** The outcome draw of a destructive measurement (eqsn/qubit_thread.py:96-109, and
    src/qubit_thread.py:47-60): the weight of outcome 0 as the source computes it, the probability
    it evidently intends, np.random.binomial(1, p) with its random number made a parameter, and
    the draw the worker makes (Draw), which is the one as written. */
module Measurement {
  import opened ComplexNumbers
  import opened LinearAlgebra
  import opened StateVector
  import opened PauliGates
  import opened Outcomes
  import opened Scaling

  // ---------------------------------------------------------------- the draw

  /** np.random.binomial(1, p) driven by a uniform number u in [0, 1): 1 with probability p.
      numpy refuses a p outside [0, 1] with ValueError. */
  function Binomial(p: real, u: real): (r: Result<nat>)
    requires 0.0 <= u < 1.0
    ensures r.Err? <==> p < 0.0 || p > 1.0
    ensures r.Ok? ==> r.value < 2
    ensures r == Ok(1) ==> p > 0.0
    ensures r == Ok(0) ==> p < 1.0
  {
    if p < 0.0 || p > 1.0 then Err(ValueError)
    else if u < p then Ok(1)
    else Ok(0)
  }

  // ---------------------------------------------------------------- as written

  /** np.ones(n) */
  function Ones(n: nat): (r: Vector)
    ensures |r| == n
    ensures forall i :: 0 <= i < n ==> r[i] == One
  {
    seq(n, _ => One)
  }

  /** measure_vec: np.array([1, 0]), widened to the whole register. */
  function MeasureVector(before: nat, after: nat): Vector
  {
    Widen([One, Zero], before, after)
  }

  /** e widened by np.kron with np.ones(2**before) on the left when before > 0 and with
      np.ones(2**after) on the right when after > 0. */
  function Widen(e: Vector, before: nat, after: nat): Vector
  {
    var m := if before > 0 then KronVec(Ones(Pow2(before)), e) else e;
    if after > 0 then KronVec(m, Ones(Pow2(after))) else m
  }

  /** np.multiply: the elementwise product. */
  function Hadamard(u: Vector, v: Vector): (w: Vector)
    requires |u| == |v|
    ensures |w| == |v|
  {
    seq(|v|, i requires 0 <= i < |v| => Mul(u[i], v[i]))
  }

  /** pr_0 as written: np.dot(w, w) for w = np.multiply(measure_vec, qubit), with no complex
      conjugate. */
  function ProbZeroAsWritten(v: Vector, before: nat, after: nat): Complex
    requires |v| == Pow2(before + 1 + after)
  {
    MeasureVectorSize(before, after);
    var w := Hadamard(MeasureVector(before, after), v);
    Dot(w, w)
  }

  /** The draw as written: np.random.binomial(1, 1.0 - pr_0.real). */
  function SampleAsWritten(v: Vector, before: nat, after: nat, u: real): Result<nat>
    requires |v| == Pow2(before + 1 + after) && 0.0 <= u < 1.0
  {
    Binomial(1.0 - ProbZeroAsWritten(v, before, after).re, u)
  }

  /** Skipping np.kron for an empty side is the same as a Kronecker product with [1]. */
  lemma WidenForm(e: Vector, before: nat, after: nat)
    ensures Widen(e, before, after) == KronVec(KronVec(Ones(Pow2(before)), e), Ones(Pow2(after)))
  {
    OnesOne();
    KronVecOne(e);
    KronVecOne(KronVec(Ones(Pow2(before)), e));
  }

  lemma OnesOne()
    ensures Ones(1) == [One]
  {
  }

  /** A widened pair is one of its two entries, chosen by the bit of weight 2**after. */
  lemma WidenAt(e: Vector, before: nat, after: nat, i: nat)
    requires |e| == 2 && i < Pow2(before + 1 + after)
    ensures |Widen(e, before, after)| == Pow2(before + 1 + after)
    ensures Widen(e, before, after)[i] == e[Bit(i, Pow2(after))]
  {
    var nb, a := Pow2(before), Pow2(after);
    WidenForm(e, before, after);
    Pow2Split(before, after);
    var h, b, l := SplitIndex(i, a, nb);
    var u := KronVec(Ones(nb), e);
    KronVecAt(Ones(nb), e, h, b);
    DigitsBound(h, b, 0, nb, 2, 1);
    KronVecAt(u, Ones(a), h * 2 + b, l);
    BitDigits(h, b, l, a);
    MulOne(e[b]);
  }

  lemma MeasureVectorSize(before: nat, after: nat)
    ensures |MeasureVector(before, after)| == Pow2(before + 1 + after)
  {
    WidenForm([One, Zero], before, after);
    Pow2Split(before, after);
  }

  /** measure_vec is 1 exactly where the measured bit is 0. */
  lemma MeasureVectorAt(before: nat, after: nat, i: nat)
    requires i < Pow2(before + 1 + after)
    ensures |MeasureVector(before, after)| == Pow2(before + 1 + after)
    ensures MeasureVector(before, after)[i] == if Bit(i, Pow2(after)) == 0 then One else Zero
  {
    WidenAt([One, Zero], before, after, i);
  }

  /** The vector with the amplitudes whose bit of weight a is 1 replaced by zero. */
  function Masked(v: Vector, a: nat): (r: Vector)
    requires Blocks(|v|, 2 * a)
    ensures |r| == |v|
    decreases |v|
  {
    if |v| == 0 then [] else v[..a] + Zeros(a) + Masked(v[2 * a..], a)
  }

  function Zeros(n: nat): (r: Vector)
    ensures |r| == n
    ensures forall i :: 0 <= i < n ==> r[i] == Zero
  {
    seq(n, _ => Zero)
  }

  lemma {:induction false} MaskedAt(v: Vector, a: nat, i: nat)
    requires Blocks(|v|, 2 * a) && i < |v|
    ensures a > 0
    ensures Masked(v, a)[i] == if Bit(i, a) == 0 then v[i] else Zero
    decreases |v|
  {
    var rest := v[2 * a..];
    assert Masked(v, a) == v[..a] + Zeros(a) + Masked(rest, a);
    if i >= 2 * a {
      MaskedAt(rest, a, i - 2 * a);
    }
  }

  /** np.multiply(measure_vec, qubit) zeroes the amplitudes whose measured bit is 1. */
  lemma HadamardMasked(v: Vector, before: nat, after: nat)
    requires |v| == Pow2(before + 1 + after)
    ensures Blocks(|v|, 2 * Pow2(after))
    ensures |MeasureVector(before, after)| == |v|
    ensures Hadamard(MeasureVector(before, after), v) == Masked(v, Pow2(after))
  {
    RegisterBlocks(before, after);
    MeasureVectorSize(before, after);
    forall i | 0 <= i < |v|
      ensures Hadamard(MeasureVector(before, after), v)[i] == Masked(v, Pow2(after))[i]
    {
      HadamardMaskedAt(v, before, after, i);
    }
  }

  lemma HadamardMaskedAt(v: Vector, before: nat, after: nat, i: nat)
    requires |v| == Pow2(before + 1 + after) && Blocks(|v|, 2 * Pow2(after)) && i < |v|
    ensures |MeasureVector(before, after)| == |v|
    ensures Hadamard(MeasureVector(before, after), v)[i] == Masked(v, Pow2(after))[i]
  {
    MeasureVectorAt(before, after, i);
    MaskedAt(v, Pow2(after), i);
    MulOne(v[i]);
    MulZero(Zero, v[i]);
  }

  /** The squares of the masked vector add up to the squares of the kept amplitudes. */
  lemma {:induction false} MaskedSquares(v: Vector, a: nat)
    requires Blocks(|v|, 2 * a)
    ensures Dot(Masked(v, a), Masked(v, a)) == Dot(Collapse(v, a, 0), Collapse(v, a, 0))
    decreases |v|
  {
    if |v| > 0 {
      var lo, z, rest := v[..a], Zeros(a), v[2 * a..];
      var mr, cr := Masked(rest, a), Collapse(rest, a, 0);
      assert Masked(v, a) == lo + (z + mr);
      ZerosDot(lo, z, mr);
      assert Collapse(v, a, 0) == lo + cr;
      SelfDotAppend(lo, cr);
      MaskedSquares(rest, a);
    }
  }

  /** Zeros in the middle add nothing to the sum of squares. */
  lemma ZerosDot(x: Vector, z: Vector, y: Vector)
    requires forall i :: 0 <= i < |z| ==> z[i] == Zero
    ensures Dot(x + (z + y), x + (z + y)) == Add(Dot(x, x), Dot(y, y))
  {
    SelfDotAppend(x, z + y);
    SelfDotAppend(z, y);
    DotAllZero(z, z);
    AddZero(Dot(y, y));
  }

  /** The sum of squares of a concatenation. */
  lemma SelfDotAppend(x: Vector, y: Vector)
    ensures Dot(x + y, x + y) == Add(Dot(x, x), Dot(y, y))
  {
    DotAppend(x, y, x + y);
    assert (x + y)[..|x|] == x && (x + y)[|x|..] == y;
  }

  /** pr_0 as written is the sum of the squares, not of the squared moduli, of the amplitudes
      that outcome 0 keeps. */
  lemma ProbZeroAsWrittenSquares(v: Vector, before: nat, after: nat)
    requires |v| == Pow2(before + 1 + after)
    ensures Blocks(|v|, 2 * Pow2(after))
    ensures ProbZeroAsWritten(v, before, after) ==
      Dot(Collapse(v, Pow2(after), 0), Collapse(v, Pow2(after), 0))
  {
    HadamardMasked(v, before, after);
    MaskedSquares(v, Pow2(after));
  }

  /** A vector of real amplitudes. */
  ghost predicate Real(v: Vector)
  {
    forall i :: 0 <= i < |v| ==> v[i].im == 0.0
  }

  /** For real amplitudes the sum of squares is the squared norm. */
  lemma {:induction false} RealSquares(u: Vector)
    requires Real(u)
    ensures Dot(u, u) == Complex(NormSq(u), 0.0)
  {
    if u != [] {
      assert Real(u[1..]) by {
        forall i | 0 <= i < |u[1..]|
          ensures u[1..][i].im == 0.0
        {
          assert u[1..][i] == u[i + 1];
        }
      }
      RealSquares(u[1..]);
    }
  }

  lemma CollapseReal(v: Vector, a: nat, b: nat)
    requires b < 2 && Blocks(|v|, 2 * a) && Real(v)
    ensures Real(Collapse(v, a, b))
  {
    forall k | 0 <= k < |Collapse(v, a, b)|
      ensures Collapse(v, a, b)[k].im == 0.0
    {
      CollapseAt(v, a, b, k);
    }
  }

  // ---------------------------------------------------------------- evidently intended

  /** The probability of outcome 1: its weight over the weight of the whole vector. Because it
      is a ratio it does not depend on the vector's scale. */
  function OneProbability(v: Vector, a: nat): (p: real)
    requires Blocks(|v|, 2 * a) && NormSq(v) > 0.0
    ensures 0.0 <= p <= 1.0
    ensures p == ProbOfBit(v, a, 1) / NormSq(v)
    ensures 1.0 - p == ProbOfBit(v, a, 0) / NormSq(v)
    ensures p > 0.0 <==> ProbOfBit(v, a, 1) > 0.0
    ensures p < 1.0 <==> ProbOfBit(v, a, 0) > 0.0
  {
    ProbOfBitSum(v, a);
    Ratio(ProbOfBit(v, a, 0), ProbOfBit(v, a, 1), NormSq(v));
    ProbOfBit(v, a, 1) / NormSq(v)
  }

  /** Two non-negative weights over their positive sum. */
  lemma Ratio(p0: real, p1: real, n: real)
    requires p0 >= 0.0 && p1 >= 0.0 && p0 + p1 == n && n > 0.0
    ensures 0.0 <= p1 / n <= 1.0
    ensures 1.0 - p1 / n == p0 / n
    ensures p1 / n > 0.0 <==> p1 > 0.0
    ensures p1 / n < 1.0 <==> p0 > 0.0
  {
    assert p0 / n + p1 / n == (p0 + p1) / n;
    assert (p0 + p1) / n == 1.0;
  }

  /** The draw as intended: outcome 1 with probability OneProbability. A zero vector has no
      probability, and the draw raises ValueError on it as Draw does. A drawn outcome always
      has positive weight, so the collapsed vector is never zero. */
  function Sample(v: Vector, a: nat, u: real): (r: Result<nat>)
    requires Blocks(|v|, 2 * a) && 0.0 <= u < 1.0
    ensures r.Err? <==> NormSq(v) == 0.0
    ensures r.Ok? ==> r.value < 2 && ProbOfBit(v, a, r.value) > 0.0
  {
    if NormSq(v) == 0.0 then Err(ValueError) else Binomial(OneProbability(v, a), u)
  }

  /** On normalised real amplitudes, the only ones the source's tests use, the draw as written
      and the intended draw agree. */
  lemma AsWrittenAgreesOnReal(v: Vector, before: nat, after: nat, u: real)
    requires |v| == Pow2(before + 1 + after) && Real(v) && NormSq(v) == 1.0 && 0.0 <= u < 1.0
    ensures Blocks(|v|, 2 * Pow2(after))
    ensures SampleAsWritten(v, before, after, u) == Sample(v, Pow2(after), u)
  {
    var a := Pow2(after);
    ProbZeroAsWrittenSquares(v, before, after);
    CollapseReal(v, a, 0);
    RealSquares(Collapse(v, a, 0));
    assert ProbZeroAsWritten(v, before, after).re == ProbOfBit(v, a, 0);
  }

  /** X then Y on a fresh qubit gives [-i, 0]. */
  lemma FreshXY()
    ensures Blocks(2, 2)
    ensures ApplyGate(PauliY, ApplyGate(PauliX, [One, Zero], 1), 1) == [Complex(0.0, -1.0), Zero]
  {
    FlipFresh();
    PairGate(PauliY, Zero, One);
    YRows(Zero, One);
    MulOne(Neg(ImagUnit));
    MulZero(ImagUnit, Zero);
  }

  /** Y sends the pair (lo, hi) to (-i hi, i lo). */
  lemma YRows(lo: Complex, hi: Complex)
    ensures GateRow(PauliY, 0, lo, hi) == Mul(Neg(ImagUnit), hi)
    ensures GateRow(PauliY, 1, lo, hi) == Mul(ImagUnit, lo)
  {
    MulZero(Zero, lo);
    MulZero(Zero, hi);
    AddZero(Mul(Neg(ImagUnit), hi));
    AddZero(Mul(ImagUnit, lo));
  }

  /** The two outcomes of a single qubit keep one amplitude each. */
  lemma PairCollapse(lo: Complex, hi: Complex)
    ensures Blocks(2, 2)
    ensures Collapse([lo, hi], 1, 0) == [lo] && Collapse([lo, hi], 1, 1) == [hi]
    ensures ProbOfBit([lo, hi], 1, 0) == ModSq(lo) && ProbOfBit([lo, hi], 1, 1) == ModSq(hi)
  {
    var v := [lo, hi];
    assert Blocks(2, 2) by { assert Blocks(0, 2); }
    assert Collapse(v, 1, 0) == [lo] + Collapse([], 1, 0);
    assert Collapse(v, 1, 1) == [hi] + Collapse([], 1, 1);
    NormSqSingle(lo);
    NormSqSingle(hi);
  }

  lemma NormSqSingle(c: Complex)
    ensures NormSq([c]) == ModSq(c)
  {
    assert [c][1..] == [];
  }

  /** A single qubit whose only amplitude is on |0>: pr_0 as written is the square c * c of
      that amplitude rather than its squared modulus. */
  lemma GroundAsWritten(c: Complex)
    ensures Pow2(0 + 1 + 0) == 2
    ensures ProbZeroAsWritten([c, Zero], 0, 0) == Mul(c, c)
  {
    assert Pow2(1) == 2;
    ProbZeroAsWrittenSquares([c, Zero], 0, 0);
    PairCollapse(c, Zero);
    AddZero(Mul(c, c));
  }

  /** On the same state the intended draw gives outcome 0 whatever the random number. */
  lemma GroundSample(c: Complex, u: real)
    requires ModSq(c) > 0.0 && 0.0 <= u < 1.0
    ensures Blocks(2, 2)
    ensures Sample([c, Zero], 1, u) == Ok(0)
  {
    GroundWeights(c);
    CertainOutcome([c, Zero], 1, 0, u);
  }

  /** All of the weight of that state is on outcome 0. */
  lemma GroundWeights(c: Complex)
    requires ModSq(c) > 0.0
    ensures Blocks(2, 2)
    ensures ProbOfBit([c, Zero], 1, 1) == 0.0 && ProbOfBit([c, Zero], 1, 0) > 0.0
  {
    PairCollapse(c, Zero);
    ModSqZero();
  }

  /** When only outcome b has weight, the intended draw gives b whatever the random number. */
  lemma CertainOutcome(v: Vector, a: nat, b: nat, u: real)
    requires b < 2 && Blocks(|v|, 2 * a) && 0.0 <= u < 1.0
    requires ProbOfBit(v, a, 1 - b) == 0.0 && ProbOfBit(v, a, b) > 0.0
    ensures Sample(v, a, u) == Ok(b)
  {
    ProbOfBitSum(v, a);
  }

  /** The draw as written on a single qubit whose only amplitude c is on |0>: when the real
      part of c * c is negative (c purely imaginary, say), binomial gets p = 1 - re(c * c) > 1
      and raises ValueError whatever the random number. */
  lemma NegativeSquareAsWritten(c: Complex, u: real)
    requires Mul(c, c).re < 0.0 && 0.0 <= u < 1.0
    ensures Pow2(0 + 1 + 0) == 2
    ensures SampleAsWritten([c, Zero], 0, 0, u) == Err(ValueError)
  {
    GroundAsWritten(c);
  }

  /** -i squares to -1 and has squared modulus 1. */
  lemma MinusImagUnit()
    ensures Mul(Complex(0.0, -1.0), Complex(0.0, -1.0)).re == -1.0
    ensures ModSq(Complex(0.0, -1.0)) == 1.0
  {
  }

  /** On [-i, 0], the state X then Y make of a fresh qubit (FreshXY), the draw as written fails
      while the state is |0> up to a phase. */
  lemma AsWrittenCounterexample(u: real)
    requires 0.0 <= u < 1.0
    ensures Blocks(2, 2) && Pow2(0 + 1 + 0) == 2
    ensures SampleAsWritten([Complex(0.0, -1.0), Zero], 0, 0, u) == Err(ValueError)
    ensures Sample([Complex(0.0, -1.0), Zero], 1, u) == Ok(0)
  {
    MinusImagUnit();
    NegativeSquareAsWritten(Complex(0.0, -1.0), u);
    GroundSample(Complex(0.0, -1.0), u);
  }

  // ---------------------------------------------------------------- the worker's draw

  /** The draw a worker makes on the vector this model keeps for it. The source divides its
      vector by its norm after every measurement (eqsn/qubit_thread.py:130-131); this model does
      not, so pr_0 as written is divided here by the squared norm, which is what dividing the
      vector by its real norm does to pr_0 (DrawRenormalised). A zero vector is what a collapse
      onto an outcome of no weight leaves behind; the source's division turns that vector into
      NaNs, and numpy's draw refuses a NaN probability with ValueError. pr_0 as written is taken
      here in the form ProbZeroAsWrittenSquares gives it, the sum of the squares of the
      amplitudes of outcome 0; DrawAsWritten restates the draw with measure_vec. */
  function Draw(v: Vector, before: nat, after: nat, u: real): (r: Result<nat>)
    requires |v| == Pow2(before + 1 + after) && 0.0 <= u < 1.0
    ensures r.Err? ==> r.error == ValueError
    ensures r.Ok? ==> r.value < 2
    ensures NormSq(v) == 0.0 ==> r.Err?
  {
    RegisterBlocks(before, after);
    var kept := Collapse(v, Pow2(after), 0);
    DrawFrom(Dot(kept, kept).re, NormSq(v), u)
  }

  /** The draw from pr_0 and the squared norm: ValueError when the norm is zero (the NaN case),
      otherwise binomial(1, 1 - pr_0 / norm). */
  function DrawFrom(pr0: real, norm: real, u: real): (r: Result<nat>)
    requires 0.0 <= u < 1.0
    ensures r.Err? ==> r.error == ValueError
    ensures r.Ok? ==> r.value < 2
    ensures norm == 0.0 ==> r.Err?
  {
    if norm == 0.0 then Err(ValueError) else Binomial(1.0 - pr0 / norm, u)
  }

  /** The worker's draw is binomial(1, 1 - pr_0 / |v|^2) with pr_0 computed from measure_vec
      exactly as measure does, and ValueError on a vector of no weight. */
  lemma DrawAsWritten(v: Vector, before: nat, after: nat, u: real)
    requires |v| == Pow2(before + 1 + after) && 0.0 <= u < 1.0
    ensures Draw(v, before, after, u) == DrawFrom(ProbZeroAsWritten(v, before, after).re, NormSq(v), u)
  {
    ProbZeroAsWrittenSquares(v, before, after);
  }

  /** On a vector of norm 1, which is what the source holds whenever only unitary gates have
      acted since its last renormalisation, the worker's draw is the source's draw. */
  lemma DrawOnUnitVector(v: Vector, before: nat, after: nat, u: real)
    requires |v| == Pow2(before + 1 + after) && NormSq(v) == 1.0 && 0.0 <= u < 1.0
    ensures Draw(v, before, after, u) == SampleAsWritten(v, before, after, u)
  {
    DrawAsWritten(v, before, after, u);
    assert ProbZeroAsWritten(v, before, after).re / 1.0 == ProbZeroAsWritten(v, before, after).re;
  }

  /** np.multiply with a real multiple of the vector. */
  lemma HadamardScale(m: Vector, v: Vector, c: real)
    requires |m| == |v|
    ensures |Scale(Complex(c, 0.0), v)| == |v|
    ensures Hadamard(m, Scale(Complex(c, 0.0), v)) == Scale(Complex(c, 0.0), Hadamard(m, v))
  {
    var k := Complex(c, 0.0);
    forall i | 0 <= i < |v|
      ensures Hadamard(m, Scale(k, v))[i] == Scale(k, Hadamard(m, v))[i]
    {
      MulScaleRight(c, m[i], v[i]);
    }
  }

  /** pr_0 as written of a real multiple: c^2 times that of the vector. */
  lemma ProbZeroScale(c: real, v: Vector, before: nat, after: nat)
    requires |v| == Pow2(before + 1 + after)
    ensures |Scale(Complex(c, 0.0), v)| == |v|
    ensures ProbZeroAsWritten(Scale(Complex(c, 0.0), v), before, after) ==
      Mul(Complex(c * c, 0.0), ProbZeroAsWritten(v, before, after))
  {
    MeasureVectorSize(before, after);
    MaskedScale(MeasureVector(before, after), v, c);
  }

  /** The sum of squares of a masked real multiple. */
  lemma MaskedScale(m: Vector, v: Vector, c: real)
    requires |m| == |v|
    ensures |Scale(Complex(c, 0.0), v)| == |v|
    ensures Dot(Hadamard(m, Scale(Complex(c, 0.0), v)), Hadamard(m, Scale(Complex(c, 0.0), v))) ==
      Mul(Complex(c * c, 0.0), Dot(Hadamard(m, v), Hadamard(m, v)))
  {
    HadamardScale(m, v, c);
    SquaresScale(c, Hadamard(m, v));
  }

  /** p / n == p' when the source's vector is the model's times c, rescaled to norm 1. */
  lemma UnitRatio(cc: real, p: real, n: real, p': real, n': real)
    requires p' == cc * p && n' == cc * n && n' == 1.0
    ensures n != 0.0 && p / n == p'
  {
    var q := p / n;
    assert q * n == p;
    assert cc * (q * n) == q * (cc * n);
  }

  lemma DrawFromUnit(cc: real, p: real, n: real, p': real, n': real, u: real)
    requires p' == cc * p && n' == cc * n && n' == 1.0 && 0.0 <= u < 1.0
    ensures DrawFrom(p, n, u) == Binomial(1.0 - p', u)
  {
    UnitRatio(cc, p, n, p', n');
  }

  /** Wherever the source has renormalised the vector to norm 1 by dividing it by a real
      number, the source's draw on its vector is the worker's draw on the model's. */
  lemma DrawRenormalised(v: Vector, c: real, before: nat, after: nat, u: real)
    requires |v| == Pow2(before + 1 + after) && 0.0 <= u < 1.0
    requires NormSq(Scale(Complex(c, 0.0), v)) == 1.0
    ensures |Scale(Complex(c, 0.0), v)| == |v|
    ensures Draw(v, before, after, u) == SampleAsWritten(Scale(Complex(c, 0.0), v), before, after, u)
  {
    var sv := Scale(Complex(c, 0.0), v);
    var n, p := NormSq(v), ProbZeroAsWritten(v, before, after).re;
    var n', p' := NormSq(sv), ProbZeroAsWritten(sv, before, after).re;
    assert Draw(v, before, after, u) == DrawFrom(p, n, u) by {
      DrawAsWritten(v, before, after, u);
    }
    assert DrawFrom(p, n, u) == Binomial(1.0 - p', u) by {
      NormSqScale(c, v);
      ProbZeroScale(c, v, before, after);
      RealMulRe(c * c, ProbZeroAsWritten(v, before, after));
      DrawFromUnit(c * c, p, n, p', n', u);
    }
  }

  /** On real amplitudes, whatever their norm, the worker's draw is the intended one. */
  lemma DrawAgreesOnReal(v: Vector, before: nat, after: nat, u: real)
    requires |v| == Pow2(before + 1 + after) && Real(v) && 0.0 <= u < 1.0
    ensures Blocks(|v|, 2 * Pow2(after))
    ensures Draw(v, before, after, u) == Sample(v, Pow2(after), u)
  {
    var a := Pow2(after);
    RegisterBlocks(before, after);
    var kept := Collapse(v, a, 0);
    CollapseReal(v, a, 0);
    RealSquares(kept);
    assert Dot(kept, kept).re == ProbOfBit(v, a, 0);
    if NormSq(v) != 0.0 {
      var p := OneProbability(v, a);
      assert 1.0 - Dot(kept, kept).re / NormSq(v) == p;
    }
  }

  /** On real amplitudes the worker's draw fails exactly on a vector of no weight. */
  lemma DrawOnReal(v: Vector, before: nat, after: nat, u: real)
    requires |v| == Pow2(before + 1 + after) && Real(v) && 0.0 <= u < 1.0
    ensures Draw(v, before, after, u).Err? <==> NormSq(v) == 0.0
  {
    DrawAgreesOnReal(v, before, after, u);
  }

  /** On [-i, 0] the worker's draw is the failing draw as written. */
  lemma DrawCounterexample(u: real)
    requires 0.0 <= u < 1.0
    ensures Pow2(0 + 1 + 0) == 2
    ensures Draw([Complex(0.0, -1.0), Zero], 0, 0, u) == Err(ValueError)
  {
    var v := [Complex(0.0, -1.0), Zero];
    MinusImagUnit();
    assert v[1..] == [Zero] && [Zero][1..] == [];
    assert NormSq([Zero]) == 0.0 by { ModSqZero(); }
    assert NormSq(v) == ModSq(v[0]) + NormSq([Zero]);
    DrawOnUnitVector(v, 0, 0, u);
    AsWrittenCounterexample(u);
  }
}
