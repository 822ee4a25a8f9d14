/** The matrices the group actor builds with np.kron and np.eye (eqsn/qubit_thread.py), written
    as the source writes them, and the proofs that multiplying by them is the reference
    semantics of StateVector. The scalar 1 the source starts some products from is the 1x1
    identity: np.kron(1, x) is x. */
module ThreadMatrices {
  import opened ComplexNumbers
  import opened LinearAlgebra
  import opened StateVector

  // ---------------------------------------------------------------- one row of an embedded gate

  /** Sizes and indices of (d ⊗ x) ⊗ I(a) with the row count 2 of x written out. */
  lemma TwoRows(x: Matrix, n: nat, h: nat, b: nat, l: nat, a: nat)
    requires IsSquare(x, 2)
    ensures (h * |x| + b) * a + l == (h * 2 + b) * a + l
    ensures n * |x| * a == n * 2 * a && n * Cols(x) * a == n * 2 * a
  {
  }

  lemma RowLength(d: Matrix, x: Matrix, h: nat, b: nat)
    requires Shaped(d) && Cols(d) == |d| && IsSquare(x, 2) && h < |d| && b < 2
    ensures |KronVec(d[h], x[b])| == |d| * 2
  {
    assert |d[h]| == |d| && |x[b]| == 2;
  }

  /** The shape of (d ⊗ x) ⊗ I(a) for a 2x2 matrix x: it multiplies a vector of |d| * 2 * a. */
  lemma EmbedSize(d: Matrix, x: Matrix, a: nat, n: nat)
    requires Shaped(d) && Cols(d) == |d| && IsSquare(x, 2) && a > 0 && n == |d| * 2 * a
    ensures Shaped(KronMat(KronMat(d, x), Identity(a)))
    ensures Cols(KronMat(KronMat(d, x), Identity(a))) == n
    ensures |KronMat(KronMat(d, x), Identity(a))| == n
  {
    EmbedShape(d, x, a);
    TwoRows(x, |d|, 0, 0, 0, a);
  }

  /** Row i = (h * 2 + b) * a + l of (d ⊗ x) ⊗ I(a) dotted with v. */
  lemma EmbedDot(d: Matrix, x: Matrix, a: nat, v: Vector, h: nat, b: nat, l: nat, i: nat)
    requires Shaped(d) && Cols(d) == |d| && IsSquare(x, 2) && a > 0
    requires h < |d| && b < 2 && l < a
    requires Shaped(KronMat(KronMat(d, x), Identity(a)))
    requires Cols(KronMat(KronMat(d, x), Identity(a))) == |v|
    requires |KronMat(KronMat(d, x), Identity(a))| == |v|
    requires i == (h * 2 + b) * a + l && i < |v|
    ensures MatVec(KronMat(KronMat(d, x), Identity(a)), v)[i] ==
      Dot(KronVec(KronVec(d[h], x[b]), Identity(a)[l]), v)
  {
    EmbedRow(d, x, a, h, b, l, 2, i);
  }

  /** For a row of d vanishing off h, that dot product meets v only at the pair of indices
      (h * 2) * a + l and (h * 2 + 1) * a + l. */
  lemma PairDot(dh: Vector, xb: Vector, a: nat, v: Vector, h: nat, l: nat)
    requires |xb| == 2 && h < |dh| && l < a && |v| == |dh| * 2 * a
    requires forall c :: 0 <= c < |dh| && c != h ==> dh[c] == Zero
    ensures (h * 2 + 1) * a + l < |v|
    ensures Dot(KronVec(dh, xb), BlockDots(Identity(a)[l], v, |dh| * 2)) ==
      Mul(dh[h], Add(Mul(xb[0], v[(h * 2) * a + l]), Mul(xb[1], v[(h * 2 + 1) * a + l])))
  {
    var s := BlockDots(Identity(a)[l], v, |dh| * 2);
    DotKronPair(dh, xb, s, h);
    DigitsBound(h, 1, l, |dh|, 2, a);
    StrideDots(a, l, v, |dh| * 2, h * 2);
    StrideDots(a, l, v, |dh| * 2, h * 2 + 1);
  }

  /** Row b of g times [lo, hi] is GateRow. */
  lemma GateRowOf(g: Gate, b: nat, lo: Complex, hi: Complex)
    requires b < 2
    ensures Add(Mul(GateMatrix(g)[b][0], lo), Mul(GateMatrix(g)[b][1], hi)) == GateRow(g, b, lo, hi)
  {
  }

  // ---------------------------------------------------------------- single-qubit gates

  /** np.kron(np.eye(2**before), mat) when before > 0, then np.kron(., np.eye(2**after)) when
      after > 0 (eqsn/qubit_thread.py:27-37). */
  function SingleGateMatrix(g: Gate, before: nat, after: nat): Matrix
  {
    var m := if before > 0 then KronMat(Identity(Pow2(before)), GateMatrix(g)) else GateMatrix(g);
    if after > 0 then KronMat(m, Identity(Pow2(after))) else m
  }

  /** Whatever the two ifs decide, the matrix is I(2^before) ⊗ mat ⊗ I(2^after). */
  lemma SingleGateEmbedding(g: Gate, before: nat, after: nat)
    ensures SingleGateMatrix(g, before, after) ==
      KronMat(KronMat(Identity(Pow2(before)), GateMatrix(g)), Identity(Pow2(after)))
  {
    KronIdentityOneLeft(GateMatrix(g));
    KronIdentityOneRight(KronMat(Identity(Pow2(before)), GateMatrix(g)));
  }

  /** Row i = (h * 2 + b) * a + l of (d ⊗ x) ⊗ I(a), for a diagonal d, times v: d[h][h] times
      row b of x applied to the pair of amplitudes that differ from i only in the bit of weight a. */
  lemma EmbeddedAt(d: Matrix, x: Matrix, a: nat, v: Vector, i: nat, h: nat, b: nat, l: nat)
    requires Diagonal(d) && IsSquare(x, 2) && a > 0
    requires h < |d| && b < 2 && l < a && i == (h * 2 + b) * a + l && i < |v|
    requires Shaped(KronMat(KronMat(d, x), Identity(a)))
    requires Cols(KronMat(KronMat(d, x), Identity(a))) == |v|
    requires |KronMat(KronMat(d, x), Identity(a))| == |v|
    ensures Bit(i, a) == b && Low(i, a) + a < |v|
    ensures MatVec(KronMat(KronMat(d, x), Identity(a)), v)[i] ==
      Mul(d[h][h], Add(Mul(x[b][0], v[Low(i, a)]), Mul(x[b][1], v[Low(i, a) + a])))
  {
    EmbedDot(d, x, a, v, h, b, l, i);
    var row := KronVec(d[h], x[b]);
    RowLength(d, x, h, b);
    DotKron(row, Identity(a)[l], v);
    PairDot(d[h], x[b], a, v, h, l);
    Digits(h, b, l, a);
  }

  lemma IdentityDiagonal(n: nat)
    requires n > 0
    ensures Diagonal(Identity(n))
  {
  }

  /** Row i of I(nb) ⊗ mat ⊗ I(a) times v is entry i of the reference gate application. */
  lemma SingleGateAt(g: Gate, nb: nat, a: nat, v: Vector, i: nat)
    requires nb > 0 && a > 0 && |v| == nb * 2 * a && i < |v| && Blocks(|v|, 2 * a)
    requires Shaped(KronMat(KronMat(Identity(nb), GateMatrix(g)), Identity(a)))
    requires Cols(KronMat(KronMat(Identity(nb), GateMatrix(g)), Identity(a))) == |v|
    requires |KronMat(KronMat(Identity(nb), GateMatrix(g)), Identity(a))| == |v|
    ensures MatVec(KronMat(KronMat(Identity(nb), GateMatrix(g)), Identity(a)), v)[i] == ApplyGate(g, v, a)[i]
  {
    var d, x := Identity(nb), GateMatrix(g);
    var h, b, l := SplitIndex(i, a, nb);
    IdentityDiagonal(nb);
    EmbeddedAt(d, x, a, v, i, h, b, l);
    var j := Low(i, a);
    ApplyGateAt(g, v, a, i, b, j);
    MulOne(Add(Mul(x[b][0], v[j]), Mul(x[b][1], v[j + a])));
    GateRowOf(g, b, v[j], v[j + a]);
  }

  /** np.dot(apply_mat, qubit) in apply_single_gate is the gate applied to the qubit at
      position before, of weight 2^after. */
  lemma SingleGateCorrect(g: Gate, before: nat, after: nat, v: Vector)
    requires |v| == Pow2(before + 1 + after)
    ensures Blocks(|v|, 2 * Pow2(after))
    ensures Shaped(SingleGateMatrix(g, before, after)) && Cols(SingleGateMatrix(g, before, after)) == |v|
    ensures MatVec(SingleGateMatrix(g, before, after), v) == ApplyGate(g, v, Pow2(after))
  {
    var nb, a := Pow2(before), Pow2(after);
    Pow2Split(before, after);
    BlocksOf(nb, 2 * a);
    SingleGateEmbedding(g, before, after);
    EmbedSize(Identity(nb), GateMatrix(g), a, |v|);
    forall i | 0 <= i < |v|
      ensures MatVec(SingleGateMatrix(g, before, after), v)[i] == ApplyGate(g, v, a)[i]
    {
      SingleGateAt(g, nb, a, v, i);
    }
  }

  // ---------------------------------------------------------------- controlled gates

  /** np.array([[1, 0], [0, 0]]) and np.array([[0, 0], [0, 1]]): the projectors on control 0 and 1. */
  function Projector(cb: nat): (p: Matrix)
    requires cb < 2
    ensures IsSquare(p, 2) && Diagonal(p)
    ensures forall r :: 0 <= r < 2 ==> p[r][r] == if r == cb then One else Zero
  {
    if cb == 0 then [[One, Zero], [Zero, Zero]] else [[Zero, Zero], [Zero, One]]
  }

  /** first_mat or second_mat of apply_controlled_gate when the control comes first: the
      (scalar 1 or) np.eye(2**before), then the projector, np.eye(2**mid) when mid > 0, the
      target's matrix, and np.eye(2**after) when after > 0 (eqsn/qubit_thread.py:49-76). */
  function ControlledFactor(before: nat, proj: Matrix, mid: nat, target: Matrix, after: nat): Matrix
  {
    var m0 := if before > 0 then Identity(Pow2(before)) else Identity(1);
    var m1 := KronMat(m0, proj);
    var m2 := if mid > 0 then KronMat(m1, Identity(Pow2(mid))) else m1;
    var m3 := KronMat(m2, target);
    if after > 0 then KronMat(m3, Identity(Pow2(after))) else m3
  }

  /** The control part I(2^before) ⊗ proj ⊗ I(2^mid), a diagonal matrix. */
  function ControlPart(before: nat, proj: Matrix, mid: nat): Matrix
  {
    KronMat(KronMat(Identity(Pow2(before)), proj), Identity(Pow2(mid)))
  }

  /** Whatever the ifs decide, a factor is ControlPart ⊗ target ⊗ I(2^after). */
  lemma ControlledFactorForm(before: nat, proj: Matrix, mid: nat, target: Matrix, after: nat)
    ensures ControlledFactor(before, proj, mid, target, after) ==
      KronMat(KronMat(ControlPart(before, proj, mid), target), Identity(Pow2(after)))
  {
    KronIdentityOneLeft(proj);
    var m1 := KronMat(Identity(Pow2(before)), proj);
    KronIdentityOneRight(m1);
    KronIdentityOneRight(KronMat(KronMat(m1, Identity(Pow2(mid))), target));
  }

  lemma ControlPartDiagonal(before: nat, cb: nat, mid: nat)
    requires cb < 2
    ensures Diagonal(ControlPart(before, Projector(cb), mid))
    ensures |ControlPart(before, Projector(cb), mid)| == Pow2(before) * 2 * Pow2(mid)
  {
    IdentityDiagonal(Pow2(before));
    IdentityDiagonal(Pow2(mid));
    KronDiagonal(Identity(Pow2(before)), Projector(cb));
    KronDiagonal(KronMat(Identity(Pow2(before)), Projector(cb)), Identity(Pow2(mid)));
  }

  /** The diagonal entry of ControlPart at h = (hb * 2 + c) * 2^mid + m is the projector's
      entry for the control bit c. */
  lemma ControlPartEntry(before: nat, cb: nat, mid: nat, h: nat, hb: nat, c: nat, m: nat)
    requires cb < 2 && hb < Pow2(before) && c < 2 && m < Pow2(mid)
    requires h == (hb * 2 + c) * Pow2(mid) + m
    ensures h < |ControlPart(before, Projector(cb), mid)|
    ensures |ControlPart(before, Projector(cb), mid)[h]| > h
    ensures ControlPart(before, Projector(cb), mid)[h][h] == if c == cb then One else Zero
  {
    var ib, p, im := Identity(Pow2(before)), Projector(cb), Identity(Pow2(mid));
    var bp := KronMat(ib, p);
    KronShaped(ib, p);
    KronDiagEntry(ib, p, 2, hb, c);
    KronDiagEntry(bp, im, Pow2(mid), hb * 2 + c, m);
    MulOne(p[c][c]);
    MulOne(Mul(ib[hb][hb], p[c][c]));
  }

  /** The matrix apply_controlled_gate builds when the control (position before) comes first
      and the target follows mid positions later: first_mat + second_mat. */
  function ControlledMatrix(g: Gate, before: nat, mid: nat, after: nat): (m: Matrix)
    ensures Shaped(m) && |m| == Pow2(before) * 2 * Pow2(mid) * 2 * Pow2(after)
    ensures Cols(m) == |m|
  {
    var first := ControlledFactor(before, Projector(0), mid, Identity(2), after);
    var second := ControlledFactor(before, Projector(1), mid, GateMatrix(g), after);
    ControlledFactorSize(before, 0, mid, Identity(2), after);
    ControlledFactorSize(before, 1, mid, GateMatrix(g), after);
    MatAdd(first, second)
  }

  lemma ControlledFactorSize(before: nat, cb: nat, mid: nat, target: Matrix, after: nat)
    requires cb < 2 && IsSquare(target, 2)
    ensures Shaped(ControlledFactor(before, Projector(cb), mid, target, after))
    ensures |ControlledFactor(before, Projector(cb), mid, target, after)| == Pow2(before) * 2 * Pow2(mid) * 2 * Pow2(after)
    ensures Cols(ControlledFactor(before, Projector(cb), mid, target, after)) == Pow2(before) * 2 * Pow2(mid) * 2 * Pow2(after)
  {
    ControlledFactorForm(before, Projector(cb), mid, target, after);
    ControlPartDiagonal(before, cb, mid);
    var d := ControlPart(before, Projector(cb), mid);
    EmbedSize(d, target, Pow2(after), Pow2(before) * 2 * Pow2(mid) * 2 * Pow2(after));
  }

  /** Row b of np.eye(2) applied to [lo, hi] picks entry b. */
  lemma IdentityRowOf(b: nat, lo: Complex, hi: Complex)
    requires b < 2
    ensures Add(Mul(Identity(2)[b][0], lo), Mul(Identity(2)[b][1], hi)) == if b == 0 then lo else hi
  {
    MulOne(lo);
    MulOne(hi);
    MulZero(Zero, lo);
    MulZero(Zero, hi);
    AddZero(lo);
    AddZero(hi);
  }

  /** Row i of first_mat (cb' = 0) or second_mat (cb' = 1) times v: zero unless the control
      bit of i is cb', and otherwise row Bit(i, 2^after) of the target matrix applied to the pair
      through i. */
  lemma FactorAt(before: nat, cb': nat, mid: nat, after: nat, target: Matrix, v: Vector, i: nat)
    requires cb' < 2 && IsSquare(target, 2)
    requires |v| == Pow2(before) * 2 * Pow2(mid) * 2 * Pow2(after) && i < |v|
    ensures Shaped(ControlledFactor(before, Projector(cb'), mid, target, after))
    ensures Cols(ControlledFactor(before, Projector(cb'), mid, target, after)) == |v|
    ensures Low(i, Pow2(after)) + Pow2(after) < |v|
    ensures MatVec(ControlledFactor(before, Projector(cb'), mid, target, after), v)[i] ==
      Mul(if Bit(i, Pow2(mid + 1 + after)) == cb' then One else Zero,
          Add(Mul(target[Bit(i, Pow2(after))][0], v[Low(i, Pow2(after))]),
              Mul(target[Bit(i, Pow2(after))][1], v[Low(i, Pow2(after)) + Pow2(after)])))
  {
    ControlledFactorSize(before, cb', mid, target, after);
    ControlledFactorForm(before, Projector(cb'), mid, target, after);
    ControlEmbeddedBits(before, cb', mid, after, target, v, i);
  }

  /** FactorAt for the factor written as ControlPart ⊗ target ⊗ I(2^after). */
  lemma ControlEmbeddedBits(before: nat, cb': nat, mid: nat, after: nat, target: Matrix, v: Vector, i: nat)
    requires cb' < 2 && IsSquare(target, 2)
    requires |v| == Pow2(before) * 2 * Pow2(mid) * 2 * Pow2(after) && i < |v|
    ensures Shaped(KronMat(KronMat(ControlPart(before, Projector(cb'), mid), target), Identity(Pow2(after))))
    ensures Cols(KronMat(KronMat(ControlPart(before, Projector(cb'), mid), target), Identity(Pow2(after)))) == |v|
    ensures Low(i, Pow2(after)) + Pow2(after) < |v|
    ensures MatVec(KronMat(KronMat(ControlPart(before, Projector(cb'), mid), target), Identity(Pow2(after))), v)[i] ==
      Mul(if Bit(i, Pow2(mid + 1 + after)) == cb' then One else Zero,
          Add(Mul(target[Bit(i, Pow2(after))][0], v[Low(i, Pow2(after))]),
              Mul(target[Bit(i, Pow2(after))][1], v[Low(i, Pow2(after)) + Pow2(after)])))
  {
    var nb, nm, a := Pow2(before), Pow2(mid), Pow2(after);
    var h, b, l := SplitIndex(i, a, nb * 2 * nm);
    var hb, cb, m := SplitIndex(h, nm, nb);
    ControlBitDigits(i, h, hb, cb, m, b, l, nm, a);
    Pow2Split(mid, after);
    ControlEmbeddedAt(before, cb', mid, a, target, v, i, h, b, l, hb, cb, m);
  }

  /** ControlEmbeddedBits for an index given by its digits. */
  lemma ControlEmbeddedAt(before: nat, cb': nat, mid: nat, a: nat, target: Matrix, v: Vector,
                          i: nat, h: nat, b: nat, l: nat, hb: nat, cb: nat, m: nat)
    requires cb' < 2 && IsSquare(target, 2) && a > 0
    requires |v| == Pow2(before) * 2 * Pow2(mid) * 2 * a && i < |v|
    requires hb < Pow2(before) && cb < 2 && m < Pow2(mid) && b < 2 && l < a
    requires h == (hb * 2 + cb) * Pow2(mid) + m && i == (h * 2 + b) * a + l
    ensures Shaped(KronMat(KronMat(ControlPart(before, Projector(cb'), mid), target), Identity(a)))
    ensures Cols(KronMat(KronMat(ControlPart(before, Projector(cb'), mid), target), Identity(a))) == |v|
    ensures Bit(i, a) == b && Low(i, a) + a < |v|
    ensures MatVec(KronMat(KronMat(ControlPart(before, Projector(cb'), mid), target), Identity(a)), v)[i] ==
      Mul(if cb == cb' then One else Zero,
          Add(Mul(target[b][0], v[Low(i, a)]), Mul(target[b][1], v[Low(i, a) + a])))
  {
    var d := ControlPart(before, Projector(cb'), mid);
    ControlPartDiagonal(before, cb', mid);
    ControlPartEntry(before, cb', mid, h, hb, cb, m);
    EmbedSize(d, target, a, |v|);
    EmbeddedAt(d, target, a, v, i, h, b, l);
  }

  /** One * x + Zero * y, or Zero * x + One * y. */
  lemma Select(c: nat, x: Complex, y: Complex)
    requires c < 2
    ensures Add(Mul(if c == 0 then One else Zero, x), Mul(if c == 1 then One else Zero, y)) ==
      if c == 0 then x else y
  {
    MulOne(x);
    MulOne(y);
    MulZero(Zero, x);
    MulZero(Zero, y);
    AddZero(x);
    AddZero(y);
  }

  /** np.dot distributes over first_mat + second_mat. */
  lemma ControlledSum(g: Gate, before: nat, mid: nat, after: nat, v: Vector, i: nat)
    requires |v| == Pow2(before) * 2 * Pow2(mid) * 2 * Pow2(after) && i < |v|
    ensures Shaped(ControlledFactor(before, Projector(0), mid, Identity(2), after))
    ensures Cols(ControlledFactor(before, Projector(0), mid, Identity(2), after)) == |v|
    ensures Shaped(ControlledFactor(before, Projector(1), mid, GateMatrix(g), after))
    ensures Cols(ControlledFactor(before, Projector(1), mid, GateMatrix(g), after)) == |v|
    ensures MatVec(ControlledMatrix(g, before, mid, after), v)[i] ==
      Add(MatVec(ControlledFactor(before, Projector(0), mid, Identity(2), after), v)[i],
          MatVec(ControlledFactor(before, Projector(1), mid, GateMatrix(g), after), v)[i])
  {
    var first := ControlledFactor(before, Projector(0), mid, Identity(2), after);
    var second := ControlledFactor(before, Projector(1), mid, GateMatrix(g), after);
    ControlledFactorSize(before, 0, mid, Identity(2), after);
    ControlledFactorSize(before, 1, mid, GateMatrix(g), after);
    MatVecAdd(first, second, v, i);
  }

  /** Row i of the controlled matrix times v: the amplitude itself when the control bit is 0,
      row Bit(i, a) of the gate applied to the target pair when it is 1. */
  lemma ControlledAt(g: Gate, before: nat, mid: nat, after: nat, v: Vector, i: nat)
    requires |v| == Pow2(before) * 2 * Pow2(mid) * 2 * Pow2(after) && i < |v|
    ensures Low(i, Pow2(after)) + Pow2(after) < |v|
    ensures MatVec(ControlledMatrix(g, before, mid, after), v)[i] ==
      if Bit(i, Pow2(mid + 1 + after)) == 0 then v[i]
      else GateRow(g, Bit(i, Pow2(after)), v[Low(i, Pow2(after))], v[Low(i, Pow2(after)) + Pow2(after)])
  {
    var a, c := Pow2(after), Pow2(mid + 1 + after);
    var first := ControlledFactor(before, Projector(0), mid, Identity(2), after);
    var second := ControlledFactor(before, Projector(1), mid, GateMatrix(g), after);
    ControlledSum(g, before, mid, after, v, i);
    FactorAt(before, 0, mid, after, Identity(2), v, i);
    FactorAt(before, 1, mid, after, GateMatrix(g), v, i);
    var j := Low(i, a);
    LowPartner(i, a);
    ControlledCombine(g, Bit(i, a), Bit(i, c), v[j], v[j + a], v[i], MatVec(ControlledMatrix(g, before, mid, after), v)[i],
                      MatVec(first, v)[i], MatVec(second, v)[i]);
  }

  /** first_mat's row gives the kept amplitude and second_mat's row the gate's, and the
      projectors keep exactly one of the two. */
  lemma ControlledCombine(g: Gate, b: nat, cb: nat, lo: Complex, hi: Complex, vi: Complex,
                          x: Complex, x0: Complex, x1: Complex)
    requires b < 2 && cb < 2 && vi == (if b == 0 then lo else hi)
    requires x == Add(x0, x1)
    requires x0 == Mul(if cb == 0 then One else Zero, Add(Mul(Identity(2)[b][0], lo), Mul(Identity(2)[b][1], hi)))
    requires x1 == Mul(if cb == 1 then One else Zero, Add(Mul(GateMatrix(g)[b][0], lo), Mul(GateMatrix(g)[b][1], hi)))
    ensures x == if cb == 0 then vi else GateRow(g, b, lo, hi)
  {
    IdentityRowOf(b, lo, hi);
    GateRowOf(g, b, lo, hi);
    Select(cb, vi, GateRow(g, b, lo, hi));
  }

  /** The sizes of the three identity blocks around the control and target qubits. */
  lemma Pow2Split3(before: nat, mid: nat, after: nat)
    ensures Pow2(mid + 1 + after) == Pow2(mid) * 2 * Pow2(after)
    ensures Pow2(before + 1 + mid + 1 + after) == Pow2(before) * 2 * Pow2(mid) * 2 * Pow2(after)
    ensures Pow2(before) * 2 * Pow2(mid) * 2 * Pow2(after) == (Pow2(before) * 2 * Pow2(mid)) * (2 * Pow2(after))
  {
    var nb, nm, a := Pow2(before), Pow2(mid), Pow2(after);
    Pow2Split(mid, after);
    Pow2Split(before, mid + 1 + after);
    assert before + 1 + mid + 1 + after == before + 1 + (mid + 1 + after);
    MulShuffle(nb, nm, a);
  }

  lemma MulShuffle(x: nat, y: nat, z: nat)
    ensures x * 2 * (y * 2 * z) == x * 2 * y * 2 * z == (x * 2 * y) * (2 * z)
  {
  }

  /** One amplitude of the controlled product against the reference controlled gate. */
  lemma ControlledEntry(g: Gate, before: nat, mid: nat, after: nat, v: Vector, i: nat, c: nat)
    requires |v| == Pow2(before) * 2 * Pow2(mid) * 2 * Pow2(after) && i < |v|
    requires Blocks(|v|, 2 * Pow2(after)) && c == Pow2(mid + 1 + after)
    ensures MatVec(ControlledMatrix(g, before, mid, after), v)[i] == ApplyControlled(g, v, Pow2(after), c)[i]
  {
    ControlledAt(g, before, mid, after, v, i);
    ControlledValueAt(g, before, mid, after, v, i, c, MatVec(ControlledMatrix(g, before, mid, after), v)[i]);
  }

  /** A value equal to the reference formula for amplitude i is amplitude i of ApplyControlled. */
  lemma ControlledValueAt(g: Gate, before: nat, mid: nat, after: nat, v: Vector, i: nat, c: nat, x: Complex)
    requires |v| == Pow2(before) * 2 * Pow2(mid) * 2 * Pow2(after) && i < |v|
    requires Blocks(|v|, 2 * Pow2(after)) && c == Pow2(mid + 1 + after)
    requires Low(i, Pow2(after)) + Pow2(after) < |v|
    requires x ==
      if Bit(i, Pow2(mid + 1 + after)) == 0 then v[i]
      else GateRow(g, Bit(i, Pow2(after)), v[Low(i, Pow2(after))], v[Low(i, Pow2(after)) + Pow2(after)])
    ensures x == ApplyControlled(g, v, Pow2(after), c)[i]
  {
    ApplyControlledAt(g, v, Pow2(after), c, i);
  }

  /** The matrix apply_controlled_gate builds acts on the state exactly as the reference
      controlled gate: amplitudes whose control bit is 0 are kept, the others get the gate
      applied to their target pair. */
  lemma ControlledCorrect(g: Gate, before: nat, mid: nat, after: nat, v: Vector)
    requires |v| == Pow2(before + 1 + mid + 1 + after)
    ensures Blocks(|v|, 2 * Pow2(after))
    ensures Shaped(ControlledMatrix(g, before, mid, after)) && Cols(ControlledMatrix(g, before, mid, after)) == |v|
    ensures MatVec(ControlledMatrix(g, before, mid, after), v) ==
      ApplyControlled(g, v, Pow2(after), Pow2(mid + 1 + after))
  {
    var nb, nm, a := Pow2(before), Pow2(mid), Pow2(after);
    Pow2Split3(before, mid, after);
    BlocksOf(nb * 2 * nm, 2 * a);
    ControlledEntries(g, before, mid, after, v);
  }

  lemma ControlledEntries(g: Gate, before: nat, mid: nat, after: nat, v: Vector)
    requires |v| == Pow2(before) * 2 * Pow2(mid) * 2 * Pow2(after)
    requires Blocks(|v|, 2 * Pow2(after))
    ensures MatVec(ControlledMatrix(g, before, mid, after), v) ==
      ApplyControlled(g, v, Pow2(after), Pow2(mid + 1 + after))
  {
    var c := Pow2(mid + 1 + after);
    forall i | 0 <= i < |v|
      ensures MatVec(ControlledMatrix(g, before, mid, after), v)[i] == ApplyControlled(g, v, Pow2(after), c)[i]
    {
      ControlledEntry(g, before, mid, after, v, i, c);
    }
  }

  // ---------------------------------------------------------------- measurement

  /** np.array([1, 0]) or np.array([0, 1]): the row that keeps outcome b. np.kron treats the
      one-dimensional array as a matrix of one row. */
  function OutcomeRow(b: nat): (m: Matrix)
    requires b < 2
    ensures Shaped(m) && |m| == 1 && Cols(m) == 2
  {
    if b == 0 then [[One, Zero]] else [[Zero, One]]
  }

  lemma OutcomeRowSelects(b: nat)
    requires b < 2
    ensures Selector(OutcomeRow(b), b)
  {
  }

  /** x is a single row of two entries that picks entry b. */
  ghost predicate Selector(x: Matrix, b: nat)
  {
    b < 2 && Shaped(x) && |x| == 1 && Cols(x) == 2 && x[0][b] == One && x[0][1 - b] == Zero
  }

  /** reduction_mat, widened by np.kron with np.eye(2**before) on the left when before > 0 and
      with np.eye(2**after) on the right when after > 0. */
  function ReductionMatrix(b: nat, before: nat, after: nat): Matrix
    requires b < 2
  {
    var m := if before > 0 then KronMat(Identity(Pow2(before)), OutcomeRow(b)) else OutcomeRow(b);
    if after > 0 then KronMat(m, Identity(Pow2(after))) else m
  }

  lemma ReductionEmbedding(b: nat, before: nat, after: nat)
    requires b < 2
    ensures ReductionMatrix(b, before, after) ==
      KronMat(KronMat(Identity(Pow2(before)), OutcomeRow(b)), Identity(Pow2(after)))
  {
    KronIdentityOneLeft(OutcomeRow(b));
    KronIdentityOneRight(KronMat(Identity(Pow2(before)), OutcomeRow(b)));
  }

  /** Sizes and indices of (d ⊗ x) ⊗ I(a) with the single row of x written out. */
  lemma OneRow(x: Matrix, n: nat, h: nat, l: nat, a: nat)
    requires |x| == 1 && Cols(x) == 2
    ensures (h * |x| + 0) * a + l == h * a + l
    ensures n * |x| * a == n * a && n * Cols(x) * a == n * 2 * a
  {
  }

  /** The shape of I(nb) ⊗ x ⊗ I(a) for a matrix x of one row and two columns. */
  lemma OneRowShape(x: Matrix, nb: nat, a: nat)
    requires Shaped(x) && |x| == 1 && Cols(x) == 2 && nb > 0 && a > 0
    ensures Shaped(KronMat(KronMat(Identity(nb), x), Identity(a)))
    ensures Cols(KronMat(KronMat(Identity(nb), x), Identity(a))) == nb * 2 * a
    ensures |KronMat(KronMat(Identity(nb), x), Identity(a))| == nb * a
  {
    EmbedShape(Identity(nb), x, a);
    OneRow(x, nb, 0, 0, a);
  }

  /** Row h * a + l of I(nb) ⊗ x ⊗ I(a) for a matrix x of one row. */
  lemma OneRowEmbed(x: Matrix, nb: nat, a: nat, h: nat, l: nat)
    requires Shaped(x) && |x| == 1 && a > 0 && h < nb && l < a
    ensures h * a + l < |KronMat(KronMat(Identity(nb), x), Identity(a))|
    ensures KronMat(KronMat(Identity(nb), x), Identity(a))[h * a + l] ==
      KronVec(KronVec(Identity(nb)[h], x[0]), Identity(a)[l])
  {
    EmbedRow(Identity(nb), x, a, h, 0, l, 1, h * a + l);
  }

  lemma MatVecRow(m: Matrix, v: Vector, k: nat, row: Vector)
    requires Shaped(m) && Cols(m) == |v| && k < |m| && m[k] == row
    ensures MatVec(m, v)[k] == Dot(row, v)
  {
  }

  /** The selector picks the amplitude of its outcome. */
  lemma SelectorOf(x: Matrix, b: nat, lo: Complex, hi: Complex)
    requires Selector(x, b)
    ensures Add(Mul(x[0][0], lo), Mul(x[0][1], hi)) == if b == 0 then lo else hi
  {
  }

  lemma PickIndex(h: nat, b: nat, l: nat, a: nat, j: nat)
    requires b < 2 && j == (h * 2 + b) * a + l
    ensures j == if b == 0 then (h * 2) * a + l else (h * 2 + 1) * a + l
  {
  }

  /** Row k = h * a + l of I(nb) ⊗ x ⊗ I(a) dotted with v. */
  lemma ReductionDot(x: Matrix, nb: nat, a: nat, v: Vector, k: nat, h: nat, l: nat)
    requires Shaped(x) && |x| == 1 && a > 0 && h < nb && l < a && k == h * a + l && k < nb * a
    requires Shaped(KronMat(KronMat(Identity(nb), x), Identity(a)))
    requires Cols(KronMat(KronMat(Identity(nb), x), Identity(a))) == |v|
    requires |KronMat(KronMat(Identity(nb), x), Identity(a))| == nb * a
    ensures MatVec(KronMat(KronMat(Identity(nb), x), Identity(a)), v)[k] ==
      Dot(KronVec(KronVec(Identity(nb)[h], x[0]), Identity(a)[l]), v)
  {
    OneRowEmbed(x, nb, a, h, l);
    MatVecRow(KronMat(KronMat(Identity(nb), x), Identity(a)), v, k,
      KronVec(KronVec(Identity(nb)[h], x[0]), Identity(a)[l]));
  }

  /** That dot product is the amplitude j = (h * 2 + b) * a + l. */
  lemma ReductionPick(b: nat, nb: nat, a: nat, v: Vector, h: nat, l: nat, j: nat)
    requires b < 2 && a > 0 && h < nb && l < a && |v| == nb * 2 * a
    requires j == (h * 2 + b) * a + l && j < |v|
    ensures |KronVec(KronVec(Identity(nb)[h], OutcomeRow(b)[0]), Identity(a)[l])| == |v|
    ensures Dot(KronVec(KronVec(Identity(nb)[h], OutcomeRow(b)[0]), Identity(a)[l]), v) == v[j]
  {
    var d, x := Identity(nb), OutcomeRow(b);
    var row := KronVec(d[h], x[0]);
    assert |row| == nb * 2;
    DotKron(row, Identity(a)[l], v);
    PairDot(d[h], x[0], a, v, h, l);
    Digits(h, 1, l, a);
    var lo, hi := v[(h * 2) * a + l], v[(h * 2 + 1) * a + l];
    PickIndex(h, b, l, a, j);
    OutcomeRowSelects(b);
    SelectorOf(x, b, lo, hi);
    MulOne(Add(Mul(x[0][0], lo), Mul(x[0][1], hi)));
  }

  lemma Double(nb: nat, a: nat)
    ensures nb * 2 * a == 2 * (nb * a)
  {
  }

  /** Entry k = h * a + l of a collapsed vector comes from the amplitude (h * 2 + b) * a + l. */
  lemma CollapseIndex(b: nat, nb: nat, a: nat, k: nat) returns (h: nat, l: nat)
    requires b < 2 && a > 0 && k < nb * a
    ensures h < nb && l < a && k == h * a + l
    ensures Spread(k, a, b) == (h * 2 + b) * a + l && Spread(k, a, b) < nb * 2 * a
  {
    h, l := QuotRem(k, a, nb);
    DigitsBound(h, b, l, nb, 2, a);
    SpreadDigits(h, b, l, a);
  }

  /** Entry k of the reduced vector. */
  lemma ReductionEntry(b: nat, nb: nat, a: nat, v: Vector, k: nat)
    requires b < 2 && nb > 0 && a > 0 && |v| == nb * 2 * a && Blocks(|v|, 2 * a)
    requires k < nb * a && 2 * k < |v|
    requires Shaped(KronMat(KronMat(Identity(nb), OutcomeRow(b)), Identity(a)))
    requires Cols(KronMat(KronMat(Identity(nb), OutcomeRow(b)), Identity(a))) == |v|
    requires |KronMat(KronMat(Identity(nb), OutcomeRow(b)), Identity(a))| == nb * a
    ensures MatVec(KronMat(KronMat(Identity(nb), OutcomeRow(b)), Identity(a)), v)[k] == Collapse(v, a, b)[k]
  {
    var h, l := CollapseIndex(b, nb, a, k);
    ReductionDot(OutcomeRow(b), nb, a, v, k, h, l);
    ReductionPick(b, nb, a, v, h, l, Spread(k, a, b));
    CollapseAt(v, a, b, k);
  }

  /** np.dot(reduction_mat, qubit) keeps exactly the amplitudes whose measured bit is the
      outcome, in order: the reference collapse. */
  lemma ReductionCorrect(b: nat, before: nat, after: nat, v: Vector)
    requires b < 2 && |v| == Pow2(before + 1 + after)
    ensures Blocks(|v|, 2 * Pow2(after))
    ensures Shaped(ReductionMatrix(b, before, after)) && Cols(ReductionMatrix(b, before, after)) == |v|
    ensures MatVec(ReductionMatrix(b, before, after), v) == Collapse(v, Pow2(after), b)
  {
    var nb, a := Pow2(before), Pow2(after);
    Pow2Split(before, after);
    BlocksOf(nb, 2 * a);
    ReductionEmbedding(b, before, after);
    OneRowShape(OutcomeRow(b), nb, a);
    Double(nb, a);
    forall k | 0 <= k < nb * a
      ensures MatVec(ReductionMatrix(b, before, after), v)[k] == Collapse(v, a, b)[k]
    {
      ReductionEntry(b, nb, a, v, k);
    }
  }
}
