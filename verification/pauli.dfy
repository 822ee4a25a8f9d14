/** The exact Pauli matrices of X_gate, Y_gate and Z_gate (eqsn/gates.py:29-53), and what applying
    one of them twice does to a state; and the matrix of cphase_gate, which is not unitary. */
module PauliGates {
  import opened ComplexNumbers
  import opened LinearAlgebra
  import opened StateVector

  /** np.array([[0, 1], [1, 0]]) */
  const PauliX: Gate := Gate(Zero, One, One, Zero)
  /** np.array([[0, -1j], [1j, 0]]) */
  const PauliY: Gate := Gate(Zero, Neg(ImagUnit), ImagUnit, Zero)
  /** np.array([[1, 0], [0, -1]]) */
  const PauliZ: Gate := Gate(One, Zero, Zero, Neg(One))
  /** np.array([[0, 1], [0, -1]]), the matrix cphase_gate applies under control. */
  const CphaseMatrix: Gate := Gate(Zero, One, Zero, Neg(One))

  /** g times g is the identity, entry by entry. */
  ghost predicate SelfInverse(g: Gate)
  {
    MatMul2(GateMatrix(g), GateMatrix(g)) == Identity(2)
  }

  /** The four entries of g * g when g is self-inverse. */
  lemma SelfInverseEntries(g: Gate)
    requires SelfInverse(g)
    ensures Add(Mul(g.m00, g.m00), Mul(g.m01, g.m10)) == One
    ensures Add(Mul(g.m00, g.m01), Mul(g.m01, g.m11)) == Zero
    ensures Add(Mul(g.m10, g.m00), Mul(g.m11, g.m10)) == Zero
    ensures Add(Mul(g.m10, g.m01), Mul(g.m11, g.m11)) == One
  {
    var m := MatMul2(GateMatrix(g), GateMatrix(g));
    assert m[0][0] == Identity(2)[0][0] && m[0][1] == Identity(2)[0][1];
    assert m[1][0] == Identity(2)[1][0] && m[1][1] == Identity(2)[1][1];
  }

  /** A gate whose square has the identity's four entries is self-inverse. */
  lemma SelfInverseOf(g: Gate)
    requires Add(Mul(g.m00, g.m00), Mul(g.m01, g.m10)) == One
    requires Add(Mul(g.m00, g.m01), Mul(g.m01, g.m11)) == Zero
    requires Add(Mul(g.m10, g.m00), Mul(g.m11, g.m10)) == Zero
    requires Add(Mul(g.m10, g.m01), Mul(g.m11, g.m11)) == One
    ensures SelfInverse(g)
  {
    var m, i2 := MatMul2(GateMatrix(g), GateMatrix(g)), Identity(2);
    assert m[0] == [m[0][0], m[0][1]] && m[1] == [m[1][0], m[1][1]];
    assert i2[0] == [One, Zero] && i2[1] == [Zero, One];
  }

  lemma PauliXSelfInverse()
    ensures SelfInverse(PauliX)
  {
    assert Mul(Zero, Zero) == Zero && Mul(One, One) == One;
    assert Mul(Zero, One) == Zero && Mul(One, Zero) == Zero;
    AddZero(One);
    AddZero(Zero);
    SelfInverseOf(PauliX);
  }

  lemma PauliYSelfInverse()
    ensures SelfInverse(PauliY)
  {
    assert Mul(Neg(ImagUnit), ImagUnit) == One;
    assert Mul(ImagUnit, Neg(ImagUnit)) == One;
    SelfInverseOf(PauliY);
  }

  lemma PauliZSelfInverse()
    ensures SelfInverse(PauliZ)
  {
    assert Mul(Neg(One), Neg(One)) == One && Mul(One, One) == One;
    assert Mul(Zero, Zero) == Zero && Mul(Zero, One) == Zero && Mul(One, Zero) == Zero;
    assert Mul(Zero, Neg(One)) == Zero && Mul(Neg(One), Zero) == Zero;
    AddZero(One);
    AddZero(Zero);
    SelfInverseOf(PauliZ);
  }

  /** X, Y and Z each square to the identity. */
  lemma PauliSelfInverse()
    ensures SelfInverse(PauliX) && SelfInverse(PauliY) && SelfInverse(PauliZ)
  {
    PauliXSelfInverse();
    PauliYSelfInverse();
    PauliZSelfInverse();
  }

  /** Row b of g applied to the pair that g itself produced gives back the original entry. */
  lemma RowTwice(g: Gate, b: nat, lo: Complex, hi: Complex)
    requires SelfInverse(g) && b < 2
    ensures GateRow(g, b, GateRow(g, 0, lo, hi), GateRow(g, 1, lo, hi)) == if b == 0 then lo else hi
  {
    SelfInverseEntries(g);
    var x0, x1 := GateRow(g, 0, lo, hi), GateRow(g, 1, lo, hi);
    var r, s := if b == 0 then g.m00 else g.m10, if b == 0 then g.m01 else g.m11;
    assert GateRow(g, b, x0, x1) == Add(Mul(r, x0), Mul(s, x1));
    MulAddDistrib(r, Mul(g.m00, lo), Mul(g.m01, hi));
    MulAddDistrib(s, Mul(g.m10, lo), Mul(g.m11, hi));
    MulAssoc(r, g.m00, lo);
    MulAssoc(r, g.m01, hi);
    MulAssoc(s, g.m10, lo);
    MulAssoc(s, g.m11, hi);
    MulAddDistrib(lo, Mul(r, g.m00), Mul(s, g.m10));
    MulAddDistrib(hi, Mul(r, g.m01), Mul(s, g.m11));
    CollectPairs(Mul(Mul(r, g.m00), lo), Mul(Mul(r, g.m01), hi), Mul(Mul(s, g.m10), lo), Mul(Mul(s, g.m11), hi));
    MulOne(lo);
    MulOne(hi);
    MulZero(Zero, lo);
    MulZero(Zero, hi);
    AddZero(lo);
    AddZero(hi);
  }

  /** (p + q) + (u + w) == (p + u) + (q + w). */
  lemma CollectPairs(p: Complex, q: Complex, u: Complex, w: Complex)
    ensures Add(Add(p, q), Add(u, w)) == Add(Add(p, u), Add(q, w))
  {
  }

  /** The pair through i and its partner after one application of g. */
  lemma PairTwice(g: Gate, v: Vector, a: nat, i: nat)
    requires Blocks(|v|, 2 * a) && a > 0 && i < |v|
    ensures Low(i, a) + a < |v|
    ensures ApplyGate(g, v, a)[Low(i, a)] == GateRow(g, 0, v[Low(i, a)], v[Low(i, a) + a])
    ensures ApplyGate(g, v, a)[Low(i, a) + a] == GateRow(g, 1, v[Low(i, a)], v[Low(i, a) + a])
  {
    var j := Low(i, a);
    PairInRange(|v|, a, i);
    ApplyGateAt(g, v, a, j, 0, j);
    LowSet(j, a);
    ApplyGateAt(g, v, a, j + a, 1, j);
  }

  /** Entry i after applying a self-inverse gate twice. */
  lemma TwiceAt(g: Gate, v: Vector, a: nat, i: nat)
    requires SelfInverse(g) && Blocks(|v|, 2 * a) && a > 0 && i < |v|
    ensures ApplyGate(g, ApplyGate(g, v, a), a)[i] == v[i]
  {
    var w := ApplyGate(g, v, a);
    var j := Low(i, a);
    PairTwice(g, v, a, i);
    ApplyGateAt(g, w, a, i, Bit(i, a), j);
    RowTwice(g, Bit(i, a), v[j], v[j + a]);
    LowPartner(i, a);
  }

  /** Applying a self-inverse gate twice to the same qubit restores the state. */
  lemma ApplyTwice(g: Gate, v: Vector, a: nat)
    requires SelfInverse(g) && Blocks(|v|, 2 * a) && a > 0
    ensures ApplyGate(g, ApplyGate(g, v, a), a) == v
  {
    forall i | 0 <= i < |v|
      ensures ApplyGate(g, ApplyGate(g, v, a), a)[i] == v[i]
    {
      TwiceAt(g, v, a, i);
    }
  }

  /** X on a fresh qubit |0> gives |1>. */
  lemma FlipFresh()
    ensures Blocks(2, 2) && ApplyGate(PauliX, [One, Zero], 1) == [Zero, One]
  {
    PairGate(PauliX, One, Zero);
    XSwaps(One, Zero);
  }

  /** A gate on the only qubit of a one-qubit state. */
  lemma PairGate(g: Gate, lo: Complex, hi: Complex)
    ensures Blocks(2, 2)
    ensures ApplyGate(g, [lo, hi], 1) == [GateRow(g, 0, lo, hi), GateRow(g, 1, lo, hi)]
  {
    var v := [lo, hi];
    assert Blocks(2, 2) by { assert Blocks(0, 2); }
    assert Bit(0, 1) == 0 && Low(0, 1) == 0;
    assert Bit(1, 1) == 1 && Low(1, 1) == 0;
    var w := ApplyGate(g, v, 1);
    ApplyGateAt(g, v, 1, 0, 0, 0);
    ApplyGateAt(g, v, 1, 1, 1, 0);
    TwoEntries(w);
  }

  /** X swaps the two amplitudes of a pair. */
  lemma XSwaps(lo: Complex, hi: Complex)
    ensures GateRow(PauliX, 0, lo, hi) == hi && GateRow(PauliX, 1, lo, hi) == lo
  {
    MulZero(Zero, lo);
    MulZero(Zero, hi);
    MulOne(lo);
    MulOne(hi);
    AddZero(lo);
    AddZero(hi);
  }

  /** The cphase matrix keeps only hi: the pair (lo, hi) goes to (hi, -hi), whatever lo is. */
  lemma CphaseRows(lo: Complex, hi: Complex)
    ensures GateRow(CphaseMatrix, 0, lo, hi) == hi && GateRow(CphaseMatrix, 1, lo, hi) == Neg(hi)
  {
    MulZero(Zero, lo);
    MulOne(hi);
    AddZero(hi);
    assert Mul(Neg(One), hi) == Neg(hi);
    AddZero(Neg(hi));
  }

  /** So the cphase matrix loses norm: it sends |0>, of norm 1, to the zero vector, and two
      states that differ only in their |0> amplitude to the same state. */
  lemma CphaseSingular(lo1: Complex, lo2: Complex, hi: Complex)
    ensures Blocks(2, 2)
    ensures ApplyGate(CphaseMatrix, [One, Zero], 1) == [Zero, Zero]
    ensures ApplyGate(CphaseMatrix, [lo1, hi], 1) == ApplyGate(CphaseMatrix, [lo2, hi], 1)
  {
    PairGate(CphaseMatrix, One, Zero);
    CphaseRows(One, Zero);
    PairGate(CphaseMatrix, lo1, hi);
    CphaseRows(lo1, hi);
    PairGate(CphaseMatrix, lo2, hi);
    CphaseRows(lo2, hi);
  }

  lemma TwoEntries(w: Vector)
    requires |w| == 2
    ensures w == [w[0], w[1]]
  {
  }
}
