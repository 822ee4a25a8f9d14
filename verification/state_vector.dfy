/** What the group actor does to its state vector, twice over: once as the source builds it
    (explicit np.kron / np.eye / np.dot matrices) and once as a reference semantics that says
    which amplitudes a gate mixes, and the proofs that the two agree.

    Qubit p of n is the bit of weight a = 2^(n-p-1) in the basis index, so position 0 is the
    most significant bit. The reference semantics walks the vector in blocks of 2a amplitudes:
    in each block the first a have that bit 0 and the last a have it 1. */
module StateVector {
  import opened ComplexNumbers
  import opened LinearAlgebra

  /** A one-qubit gate [[m00, m01], [m10, m11]]. */
  datatype Gate = Gate(m00: Complex, m01: Complex, m10: Complex, m11: Complex)

  function GateMatrix(g: Gate): (m: Matrix)
    ensures IsSquare(m, 2)
    ensures m[0] == [g.m00, g.m01] && m[1] == [g.m10, g.m11]
  {
    [[g.m00, g.m01], [g.m10, g.m11]]
  }

  /** Entry b of g · [lo, hi]. */
  function GateRow(g: Gate, b: nat, lo: Complex, hi: Complex): Complex
    requires b < 2
  {
    if b == 0 then Add(Mul(g.m00, lo), Mul(g.m01, hi)) else Add(Mul(g.m10, lo), Mul(g.m11, hi))
  }

  // ---------------------------------------------------------------- basis indices

  /** n is a whole number of blocks of w amplitudes. */
  ghost predicate Blocks(n: nat, w: nat)
    decreases n
  {
    n == 0 || (w > 0 && n >= w && Blocks(n - w, w))
  }

  lemma {:induction false} BlocksOf(nb: nat, w: nat)
    requires w > 0
    ensures Blocks(nb * w, w)
  {
    if nb > 0 {
      assert nb * w == w + (nb - 1) * w;
      BlocksOf(nb - 1, w);
    }
  }

  lemma {:induction false} BlocksAdd(x: nat, y: nat, w: nat)
    requires Blocks(x, w) && Blocks(y, w)
    ensures Blocks(x + y, w)
    decreases x
  {
    if x > 0 {
      BlocksAdd(x - w, y, w);
    }
  }

  /** Blocks of 2c, each a whole number of blocks of 2a, are themselves blocks of 2a. */
  lemma {:induction false} BlocksNested(n: nat, c: nat, a: nat)
    requires Blocks(n, 2 * c) && Blocks(c, 2 * a)
    ensures Blocks(n, 2 * a)
    decreases n
  {
    if n > 0 {
      BlocksAdd(c, c, 2 * a);
      BlocksNested(n - 2 * c, c, a);
      BlocksAdd(2 * c, n - 2 * c, 2 * a);
    }
  }

  /** The size of a register of before + 1 + after qubits, split around one qubit. */
  lemma Pow2Split(before: nat, after: nat)
    ensures Pow2(before + 1 + after) == Pow2(before) * 2 * Pow2(after)
    ensures Pow2(before) * 2 * Pow2(after) == Pow2(before) * (2 * Pow2(after))
  {
    Pow2Add(before, 1 + after);
    Pow2Add(1, after);
  }

  /** Such a register is a whole number of blocks of the qubit's pairs. */
  lemma RegisterBlocks(before: nat, after: nat)
    ensures Blocks(Pow2(before + 1 + after), 2 * Pow2(after))
  {
    Pow2Split(before, after);
    BlocksOf(Pow2(before), 2 * Pow2(after));
  }

  /** The bit of weight w of the basis index i. */
  function Bit(i: nat, w: nat): (r: nat)
    requires w > 0
    ensures r < 2
    ensures r == 1 ==> i >= w
    decreases i
  {
    if i < w then 0 else if i < 2 * w then 1 else Bit(i - 2 * w, w)
  }

  /** The bit of weight a of (h * 2 + b) * a + l is b. */
  lemma {:induction false} BitDigits(h: nat, b: nat, l: nat, a: nat)
    requires b < 2 && l < a
    ensures Bit((h * 2 + b) * a + l, a) == b
  {
    if h > 0 {
      BitDigits(h - 1, b, l, a);
      assert (h * 2 + b) * a + l == 2 * a + (((h - 1) * 2 + b) * a + l);
    }
  }

  /** Setting the bit of weight a in an index whose bit is 0 adds a and sets it to 1. */
  lemma {:induction false} BitSet(i: nat, a: nat)
    requires a > 0 && Bit(i, a) == 0
    ensures Bit(i + a, a) == 1
    decreases i
  {
    if i >= 2 * a {
      BitSet(i - 2 * a, a);
    }
  }

  /** The index i with its bit of weight a cleared: the partner amplitude of bit 0. */
  function Low(i: nat, a: nat): (r: nat)
    requires a > 0
    ensures Bit(r, a) == 0
  {
    if Bit(i, a) == 0 then i else BitSetInverse(i, a); i - a
  }

  lemma {:induction false} BitSetInverse(i: nat, a: nat)
    requires a > 0 && Bit(i, a) == 1
    ensures Bit(i - a, a) == 0
    decreases i
  {
    if i >= 2 * a {
      BitSetInverse(i - 2 * a, a);
    }
  }

  /** Setting the clear bit of j and clearing it again gives j back. */
  lemma LowSet(j: nat, a: nat)
    requires a > 0 && Bit(j, a) == 0
    ensures Bit(j + a, a) == 1 && Low(j + a, a) == j
  {
    BitSet(j, a);
  }

  /** i is its Low index, or that index plus a, according to its bit. */
  lemma LowPartner(i: nat, a: nat)
    requires a > 0
    ensures i == if Bit(i, a) == 0 then Low(i, a) else Low(i, a) + a
  {
  }

  /** In a vector of whole blocks of 2a, both amplitudes of the pair that index i belongs to
      are in range. */
  lemma {:induction false} PairInRange(n: nat, a: nat, i: nat)
    requires Blocks(n, 2 * a) && i < n
    ensures a > 0 && Low(i, a) + a < n
    decreases n
  {
    if i >= 2 * a {
      PairInRange(n - 2 * a, a, i - 2 * a);
    }
  }

  /** Writes an index as (h * 2 + b) * a + l: the bits before, at and after weight a. */
  lemma SplitIndex(i: nat, a: nat, nb: nat) returns (h: nat, b: nat, l: nat)
    requires a > 0 && i < nb * 2 * a
    ensures h < nb && b < 2 && l < a && i == (h * 2 + b) * a + l
  {
    var q;
    q, l := QuotRem(i, a, nb * 2);
    h, b := QuotRem(q, 2, nb);
  }

  /** The control bit of weight c = nm * 2 * a of the index (h * 2 + b) * a + l, where
      h = (hb * 2 + cb) * nm + m, is cb. */
  lemma ControlBitDigits(i: nat, h: nat, hb: nat, cb: nat, m: nat, b: nat, l: nat, nm: nat, a: nat)
    requires cb < 2 && b < 2 && m < nm && l < a
    requires h == (hb * 2 + cb) * nm + m && i == (h * 2 + b) * a + l
    ensures Bit(i, nm * 2 * a) == cb
  {
    var j := (m * 2 + b) * a + l;
    DigitsBound(m, b, l, nm, 2, a);
    assert i == (hb * 2 + cb) * (nm * 2 * a) + j by {
      assert h * 2 + b == (hb * 2 + cb) * (nm * 2) + (m * 2 + b);
    }
    BitDigits(hb, cb, j, nm * 2 * a);
  }

  /** Low of the index (h * 2 + b) * a + l is (h * 2) * a + l. */
  lemma LowDigits(h: nat, b: nat, l: nat, a: nat)
    requires b < 2 && l < a
    ensures Low((h * 2 + b) * a + l, a) == (h * 2) * a + l
  {
    BitDigits(h, b, l, a);
    if b == 1 {
      assert (h * 2 + b) * a + l - a == (h * 2) * a + l;
    }
  }

  // ---------------------------------------------------------------- one-qubit gates

  /** g applied to the qubit of weight a: the amplitude at index i becomes row Bit(i, a) of g
      applied to the pair of amplitudes that differ from i only in that bit. */
  function ApplyGate(g: Gate, v: Vector, a: nat): (r: Vector)
    requires Blocks(|v|, 2 * a)
    ensures |r| == |v|
  {
    seq(|v|, i requires 0 <= i < |v| =>
      PairInRange(|v|, a, i);
      GateRow(g, Bit(i, a), v[Low(i, a)], v[Low(i, a) + a]))
  }

  /** The amplitude at index i after the gate, for an index whose bit is b and whose
      bit-0 partner is j. */
  lemma ApplyGateAt(g: Gate, v: Vector, a: nat, i: nat, b: nat, j: nat)
    requires Blocks(|v|, 2 * a) && i < |v| && a > 0 && Bit(i, a) == b && Low(i, a) == j
    ensures b < 2 && j + a < |v|
    ensures ApplyGate(g, v, a)[i] == GateRow(g, b, v[j], v[j + a])
  {
    PairInRange(|v|, a, i);
  }

  /** The index (h * 2 + b) * a + l has bit b and bit-0 partner (h * 2) * a + l. */
  lemma Digits(h: nat, b: nat, l: nat, a: nat)
    requires b < 2 && l < a
    ensures Bit((h * 2 + b) * a + l, a) == b
    ensures Low((h * 2 + b) * a + l, a) == (h * 2) * a + l
    ensures (h * 2) * a + l + a == (h * 2 + 1) * a + l
  {
    LowDigits(h, b, l, a);
  }

  // ---------------------------------------------------------------- controlled gates

  /** g applied to the target of weight a where the control bit of weight c is 1; the
      amplitudes whose control bit is 0 are kept. */
  function ApplyControlled(g: Gate, v: Vector, a: nat, c: nat): (r: Vector)
    requires Blocks(|v|, 2 * a) && c > 0
    ensures |r| == |v|
  {
    var w := ApplyGate(g, v, a);
    seq(|v|, i requires 0 <= i < |v| => if Bit(i, c) == 0 then v[i] else w[i])
  }

  /** Amplitude i after a controlled gate: unchanged when the control bit is 0, otherwise
      row Bit(i, a) of the gate applied to the pair through i. */
  lemma ApplyControlledAt(g: Gate, v: Vector, a: nat, c: nat, i: nat)
    requires Blocks(|v|, 2 * a) && a > 0 && c > 0 && i < |v|
    ensures Low(i, a) + a < |v|
    ensures ApplyControlled(g, v, a, c)[i] ==
      if Bit(i, c) == 0 then v[i] else GateRow(g, Bit(i, a), v[Low(i, a)], v[Low(i, a) + a])
  {
    ApplyGateAt(g, v, a, i, Bit(i, a), Low(i, a));
  }

  // ---------------------------------------------------------------- measurement

  /** The index of the k-th amplitude whose bit of weight a is b. */
  function Spread(k: nat, a: nat, b: nat): (i: nat)
    requires a > 0 && b < 2
    ensures Bit(i, a) == b
    decreases k
  {
    if k < a then (if b == 0 then k else k + a) else 2 * a + Spread(k - a, a, b)
  }

  /** The position of the amplitude with index i among those that share its bit of weight a. */
  function Squeeze(i: nat, a: nat): (k: nat)
    requires a > 0
    decreases i
  {
    if i < a then i else if i < 2 * a then i - a else a + Squeeze(i - 2 * a, a)
  }

  /** Spread and Squeeze are inverse: every index with bit b is reached exactly once. */
  lemma {:induction false} SqueezeSpread(k: nat, a: nat, b: nat)
    requires a > 0 && b < 2
    ensures Squeeze(Spread(k, a, b), a) == k
    decreases k
  {
    if k >= a {
      SqueezeSpread(k - a, a, b);
    }
  }

  lemma {:induction false} SpreadSqueeze(i: nat, a: nat)
    requires a > 0
    ensures Spread(Squeeze(i, a), a, Bit(i, a)) == i
    decreases i
  {
    if i >= 2 * a {
      SpreadSqueeze(i - 2 * a, a);
    }
  }

  /** Spread keeps the order of the indices. */
  lemma {:induction false} SpreadMonotone(k: nat, k': nat, a: nat, b: nat)
    requires a > 0 && b < 2 && k < k'
    ensures Spread(k, a, b) < Spread(k', a, b)
    decreases k
  {
    if k >= a {
      SpreadMonotone(k - a, k' - a, a, b);
    }
  }

  /** The amplitudes whose bit of weight a is b, in index order: what a measurement with
      outcome b keeps. */
  function Collapse(v: Vector, a: nat, b: nat): (r: Vector)
    requires b < 2 && Blocks(|v|, 2 * a)
    ensures 2 * |r| == |v|
    decreases |v|
  {
    if |v| == 0 then []
    else (if b == 0 then v[..a] else v[a..2 * a]) + Collapse(v[2 * a..], a, b)
  }

  lemma {:induction false} CollapseAt(v: Vector, a: nat, b: nat, k: nat)
    requires b < 2 && Blocks(|v|, 2 * a) && 2 * k < |v|
    ensures a > 0 && Spread(k, a, b) < |v|
    ensures Collapse(v, a, b)[k] == v[Spread(k, a, b)]
    decreases |v|, 1
  {
    CollapseUnfold(v, a, b);
    if k >= a {
      CollapseAtLater(v, a, b, k);
    } else {
      PrefixAt(if b == 0 then v[..a] else v[a..2 * a], Collapse(v[2 * a..], a, b), k);
    }
  }

  /** CollapseAt past the first block: the k-th kept amplitude is the (k - a)-th of the rest. */
  lemma {:induction false} CollapseAtLater(v: Vector, a: nat, b: nat, k: nat)
    requires b < 2 && Blocks(|v|, 2 * a) && 2 * k < |v| && a > 0 && k >= a
    ensures Spread(k, a, b) < |v|
    ensures Collapse(v, a, b)[k] == v[Spread(k, a, b)]
    decreases |v|, 0
  {
    CollapseUnfold(v, a, b);
    var rest := v[2 * a..];
    SpreadStep(k, a, b);
    CollapseAt(rest, a, b, k - a);
    SuffixAt(if b == 0 then v[..a] else v[a..2 * a], Collapse(rest, a, b), k);
    assert rest[Spread(k - a, a, b)] == v[2 * a + Spread(k - a, a, b)];
  }

  lemma PrefixAt(x: Vector, y: Vector, k: nat)
    requires k < |x|
    ensures (x + y)[k] == x[k]
  {
  }

  lemma SuffixAt(x: Vector, y: Vector, k: nat)
    requires |x| <= k < |x| + |y|
    ensures (x + y)[k] == y[k - |x|]
  {
  }

  /** One step of Collapse: the half block of the first 2a amplitudes that has bit b, then
      the rest. */
  lemma CollapseUnfold(v: Vector, a: nat, b: nat)
    requires b < 2 && Blocks(|v|, 2 * a) && |v| > 0
    ensures a > 0 && 2 * a <= |v| && Blocks(|v| - 2 * a, 2 * a)
    ensures Collapse(v, a, b) == (if b == 0 then v[..a] else v[a..2 * a]) + Collapse(v[2 * a..], a, b)
    ensures |if b == 0 then v[..a] else v[a..2 * a]| == a
  {
  }

  /** Moving one block of 2a to the left lowers the block digit h by one. */
  lemma BlockShift(h: nat, b: nat, l: nat, a: nat)
    requires h > 0
    ensures h * a + l == a + ((h - 1) * a + l)
    ensures (h * 2 + b) * a + l == 2 * a + (((h - 1) * 2 + b) * a + l)
  {
  }

  lemma SpreadStep(k: nat, a: nat, b: nat)
    requires a > 0 && b < 2 && k >= a
    ensures Spread(k, a, b) == 2 * a + Spread(k - a, a, b)
  {
  }

  /** Spread of h * a + l is (h * 2 + b) * a + l. */
  lemma {:induction false} SpreadDigits(h: nat, b: nat, l: nat, a: nat)
    requires b < 2 && l < a
    ensures Spread(h * a + l, a, b) == (h * 2 + b) * a + l
  {
    if h > 0 {
      BlockShift(h, b, l, a);
      SpreadDigits(h - 1, b, l, a);
      SpreadStep(h * a + l, a, b);
    }
  }

  /** The probability weight of outcome b: the squared norm of the amplitudes with that bit. */
  function ProbOfBit(v: Vector, a: nat, b: nat): (p: real)
    requires b < 2 && Blocks(|v|, 2 * a)
    ensures p >= 0.0
  {
    NormSq(Collapse(v, a, b))
  }

  /** The weights of the two outcomes add up to the squared norm of the whole vector. */
  lemma {:induction false} ProbOfBitSum(v: Vector, a: nat)
    requires Blocks(|v|, 2 * a)
    ensures ProbOfBit(v, a, 0) + ProbOfBit(v, a, 1) == NormSq(v)
    decreases |v|
  {
    if |v| > 0 {
      var lo, hi, rest := v[..a], v[a..2 * a], v[2 * a..];
      assert v == lo + hi + rest;
      NormSqAppend(lo + hi, rest);
      NormSqAppend(lo, hi);
      assert Collapse(v, a, 0) == lo + Collapse(rest, a, 0);
      assert Collapse(v, a, 1) == hi + Collapse(rest, a, 1);
      NormSqAppend(lo, Collapse(rest, a, 0));
      NormSqAppend(hi, Collapse(rest, a, 1));
      ProbOfBitSum(rest, a);
    }
  }
}
