/** Dense complex vectors and matrices with the numpy operations the simulator uses:
    np.dot (matrix times vector), np.kron (Kronecker product of matrices and of
    one-dimensional arrays), np.eye and elementwise sums. */
module LinearAlgebra {
  import opened ComplexNumbers

  type Vector = seq<Complex>
  type Matrix = seq<seq<Complex>>

  function Pow2(n: nat): (r: nat)
    ensures r > 0
  {
    if n == 0 then 1 else 2 * Pow2(n - 1)
  }

  lemma {:induction false} Pow2Add(a: nat, b: nat)
    ensures Pow2(a + b) == Pow2(a) * Pow2(b)
  {
    if a > 0 {
      Pow2Add(a - 1, b);
      assert Pow2(a + b) == 2 * Pow2(a - 1 + b);
    }
  }

  // ---------------------------------------------------------------- arithmetic

  lemma MulLe(a: int, b: int, c: int)
    requires a <= b && c >= 0
    ensures a * c <= b * c
  {
    assert (b - a) * c >= 0;
  }

  /** Writes x as q * a + l with l < a; q stays below n when x is below n * a. */
  lemma QuotRem(x: nat, a: nat, n: nat) returns (q: nat, l: nat)
    requires a > 0
    ensures l < a && x == q * a + l
    ensures x < n * a ==> q < n
  {
    q, l := x / a, x % a;
    if x < n * a && q >= n {
      MulLe(n, q, a);
    }
  }

  /** A mixed-radix number is below the product of its radices when its leading digit is. */
  lemma DigitsBound(h: nat, b: nat, l: nat, n: nat, m: nat, a: nat)
    requires h < n && b < m && l < a
    ensures h * m + b < n * m
    ensures (h * m + b) * a + l < n * m * a
  {
    MulLe(h + 1, n, m);
    MulLe(h * m + b + 1, n * m, a);
  }

  // ---------------------------------------------------------------- vectors

  /** The squared Euclidean norm of a vector: the sum of the squared moduli of its entries. */
  function NormSq(v: Vector): (r: real)
    ensures r >= 0.0
  {
    if v == [] then 0.0 else ModSq(v[0]) + NormSq(v[1..])
  }

  lemma {:induction false} NormSqAppend(v: Vector, w: Vector)
    ensures NormSq(v + w) == NormSq(v) + NormSq(w)
  {
    if v == [] {
      assert v + w == w;
    } else {
      assert (v + w)[1..] == v[1..] + w;
      NormSqAppend(v[1..], w);
    }
  }

  // ---------------------------------------------------------------- matrices

  /** A matrix with at least one row and one column whose rows all have the same length. */
  ghost predicate Shaped(m: Matrix)
  {
    |m| > 0 && |m[0]| > 0 && forall r :: 0 <= r < |m| ==> |m[r]| == |m[0]|
  }

  function Cols(m: Matrix): nat
  {
    if |m| == 0 then 0 else |m[0]|
  }

  ghost predicate IsSquare(m: Matrix, n: nat)
  {
    Shaped(m) && |m| == n && Cols(m) == n
  }

  /** np.eye(n). */
  function Identity(n: nat): (m: Matrix)
    requires n > 0
    ensures IsSquare(m, n)
    ensures forall r, c :: 0 <= r < n && 0 <= c < n ==> m[r][c] == if r == c then One else Zero
  {
    seq(n, r requires 0 <= r < n => seq(n, c requires 0 <= c < n => if r == c then One else Zero))
  }

  /** np.dot(row, v): the sum of the products of corresponding entries. */
  function Dot(row: Vector, v: Vector): Complex
    requires |row| == |v|
  {
    if row == [] then Zero else Add(Mul(row[0], v[0]), Dot(row[1..], v[1..]))
  }

  /** np.dot(m, v) for a matrix and a vector. */
  function MatVec(m: Matrix, v: Vector): (w: Vector)
    requires Shaped(m) && Cols(m) == |v|
    ensures |w| == |m|
  {
    seq(|m|, r requires 0 <= r < |m| => Dot(m[r], v))
  }

  /** Elementwise sum of two matrices of equal shape. */
  function MatAdd(a: Matrix, b: Matrix): (m: Matrix)
    requires Shaped(a) && Shaped(b) && |a| == |b| && Cols(a) == Cols(b)
    ensures Shaped(m) && |m| == |a| && Cols(m) == Cols(a)
  {
    seq(|a|, r requires 0 <= r < |a| =>
      seq(Cols(a), c requires 0 <= c < Cols(a) => Add(a[r][c], b[r][c])))
  }

  /** The vector c * v. */
  function Scale(c: Complex, v: Vector): (w: Vector)
    ensures |w| == |v|
  {
    seq(|v|, k requires 0 <= k < |v| => Mul(c, v[k]))
  }

  /** np.kron(u, v) for two one-dimensional arrays: a copy of v scaled by each entry of u in turn. */
  function KronVec(u: Vector, v: Vector): (w: Vector)
    ensures |w| == |u| * |v|
  {
    if u == [] then [] else Scale(u[0], v) + KronVec(u[1..], v)
  }

  /** np.kron(x, y) for two matrices: each row of x yields one row per row of y,
      the Kronecker product of the two rows. */
  function KronMat(x: Matrix, y: Matrix): (m: Matrix)
    ensures |m| == |x| * |y|
  {
    if x == [] then [] else seq(|y|, k requires 0 <= k < |y| => KronVec(x[0], y[k])) + KronMat(x[1..], y)
  }

  /** Product of two 2x2 matrices. */
  function MatMul2(a: Matrix, b: Matrix): (m: Matrix)
    requires IsSquare(a, 2) && IsSquare(b, 2)
    ensures IsSquare(m, 2)
  {
    seq(2, r requires 0 <= r < 2 =>
      seq(2, c requires 0 <= c < 2 => Add(Mul(a[r][0], b[0][c]), Mul(a[r][1], b[1][c]))))
  }

  // ---------------------------------------------------------------- Kronecker facts

  /** np.kron(u, v) places u[i] * v[j] at index i * |v| + j. */
  lemma {:induction false} KronVecAt(u: Vector, v: Vector, i: nat, j: nat)
    requires i < |u| && j < |v|
    ensures i * |v| + j < |u| * |v|
    ensures KronVec(u, v)[i * |v| + j] == Mul(u[i], v[j])
  {
    DigitsBound(0, i, j, 1, |u|, |v|);
    if i > 0 {
      KronVecAt(u[1..], v, i - 1, j);
      assert i * |v| + j == |v| + ((i - 1) * |v| + j);
    }
  }

  /** Row i * rows(y) + k of np.kron(x, y) is np.kron(x[i], y[k]). */
  lemma {:induction false} KronMatRow(x: Matrix, y: Matrix, i: nat, k: nat)
    requires i < |x| && k < |y|
    ensures i * |y| + k < |x| * |y|
    ensures KronMat(x, y)[i * |y| + k] == KronVec(x[i], y[k])
  {
    DigitsBound(0, i, k, 1, |x|, |y|);
    if i > 0 {
      KronMatRow(x[1..], y, i - 1, k);
      assert i * |y| + k == |y| + ((i - 1) * |y| + k);
    }
  }

  /** Entry (i * rows(y) + k, j * cols(y) + l) of np.kron(x, y) is x[i][j] * y[k][l]. */
  lemma KronEntry(x: Matrix, y: Matrix, i: nat, k: nat, j: nat, l: nat)
    requires Shaped(x) && Shaped(y)
    requires i < |x| && k < |y| && j < Cols(x) && l < Cols(y)
    ensures i * |y| + k < |x| * |y| && j * Cols(y) + l < Cols(x) * Cols(y)
    ensures |KronMat(x, y)[i * |y| + k]| == Cols(x) * Cols(y)
    ensures KronMat(x, y)[i * |y| + k][j * Cols(y) + l] == Mul(x[i][j], y[k][l])
  {
    KronMatRow(x, y, i, k);
    KronVecAt(x[i], y[k], j, l);
  }

  /** KronEntry for a square right factor of size n, on the diagonal of the left factor. */
  lemma KronDiagEntry(x: Matrix, y: Matrix, n: nat, i: nat, k: nat)
    requires IsSquare(x, |x|) && IsSquare(y, n) && i < |x| && k < n
    ensures i * n + k < |KronMat(x, y)| && i * n + k < |KronMat(x, y)[i * n + k]|
    ensures KronMat(x, y)[i * n + k][i * n + k] == Mul(x[i][i], y[k][k])
  {
    KronEntry(x, y, i, k, i, k);
  }

  /** The Kronecker product of two well-shaped matrices is well shaped, with the products of their sizes. */
  lemma KronShaped(x: Matrix, y: Matrix)
    requires Shaped(x) && Shaped(y)
    ensures Shaped(KronMat(x, y)) && Cols(KronMat(x, y)) == Cols(x) * Cols(y)
  {
    var m := KronMat(x, y);
    forall r | 0 <= r < |m|
      ensures |m[r]| == Cols(x) * Cols(y)
    {
      var i, k := QuotRem(r, |y|, |x|);
      KronMatRow(x, y, i, k);
    }
    assert |m[0]| == Cols(x) * Cols(y);
  }

  /** np.kron with the one-entry vector [1] on either side is the identity. */
  lemma KronVecOne(x: Vector)
    ensures KronVec([One], x) == x && KronVec(x, [One]) == x
  {
    assert KronVec([One], x) == Scale(One, x) + KronVec([], x);
    forall k | 0 <= k < |x|
      ensures Scale(One, x)[k] == x[k]
    {
      MulOne(x[k]);
    }
    forall k | 0 <= k < |x|
      ensures KronVec(x, [One])[k] == x[k]
    {
      KronVecAt(x, [One], k, 0);
      MulOne(x[k]);
    }
  }

  lemma KronIdentityOneLeft(x: Matrix)
    ensures KronMat(Identity(1), x) == x
  {
    var m := KronMat(Identity(1), x);
    forall k | 0 <= k < |x|
      ensures m[k] == x[k]
    {
      KronMatRow(Identity(1), x, 0, k);
      forall j | 0 <= j < |x[k]|
        ensures m[k][j] == x[k][j]
      {
        KronVecAt([One], x[k], 0, j);
        MulOne(x[k][j]);
      }
    }
  }

  lemma KronIdentityOneRight(x: Matrix)
    ensures KronMat(x, Identity(1)) == x
  {
    var m := KronMat(x, Identity(1));
    forall i | 0 <= i < |x|
      ensures m[i] == x[i]
    {
      KronMatRow(x, Identity(1), i, 0);
      assert Identity(1)[0] == [One];
      assert |m[i]| == |x[i]| * 1;
      forall j | 0 <= j < |x[i]|
        ensures m[i][j] == x[i][j]
      {
        KronVecAt(x[i], [One], j, 0);
        MulOne(x[i][j]);
      }
    }
  }

  /** A square matrix that vanishes off its diagonal. */
  ghost predicate Diagonal(d: Matrix)
  {
    IsSquare(d, |d|) && forall i, j :: 0 <= i < |d| && 0 <= j < |d| && i != j ==> d[i][j] == Zero
  }

  /** An entry of np.kron(x, y) vanishes when either factor's entry does. */
  lemma KronEntryZero(x: Matrix, y: Matrix, i: nat, k: nat, j: nat, l: nat)
    requires Shaped(x) && Shaped(y)
    requires i < |x| && k < |y| && j < Cols(x) && l < Cols(y)
    requires x[i][j] == Zero || y[k][l] == Zero
    ensures i * |y| + k < |KronMat(x, y)|
    ensures j * Cols(y) + l < |KronMat(x, y)[i * |y| + k]|
    ensures KronMat(x, y)[i * |y| + k][j * Cols(y) + l] == Zero
  {
    KronEntry(x, y, i, k, j, l);
    MulZero(x[i][j], y[k][l]);
  }

  /** The Kronecker product of diagonal matrices is diagonal. */
  lemma KronDiagonal(x: Matrix, y: Matrix)
    requires Diagonal(x) && Diagonal(y)
    ensures Diagonal(KronMat(x, y))
  {
    var m := KronMat(x, y);
    KronShaped(x, y);
    forall r, c | 0 <= r < |m| && 0 <= c < |m| && r != c
      ensures m[r][c] == Zero
    {
      var i, k := QuotRem(r, |y|, |x|);
      var j, l := QuotRem(c, |y|, |x|);
      KronEntryZero(x, y, i, k, j, l);
    }
  }

  // ---------------------------------------------------------------- dot products

  /** The elementwise sum of two vectors. */
  function VecAdd(u: Vector, w: Vector): (r: Vector)
    requires |u| == |w|
    ensures |r| == |u|
  {
    seq(|u|, k requires 0 <= k < |u| => Add(u[k], w[k]))
  }

  lemma {:induction false} DotAdd(u: Vector, w: Vector, v: Vector)
    requires |u| == |w| == |v|
    ensures Dot(VecAdd(u, w), v) == Add(Dot(u, v), Dot(w, v))
  {
    if u != [] {
      assert VecAdd(u, w)[1..] == VecAdd(u[1..], w[1..]);
      DotAdd(u[1..], w[1..], v[1..]);
      MulAddDistrib(v[0], u[0], w[0]);
      var p, q, r, t := Mul(u[0], v[0]), Mul(w[0], v[0]), Dot(u[1..], v[1..]), Dot(w[1..], v[1..]);
      assert Add(Add(p, q), Add(r, t)) == Add(Add(p, r), Add(q, t));
    } else {
      AddZero(Zero);
    }
  }

  /** np.dot over a concatenated row splits at the seam. */
  lemma {:induction false} DotAppend(r1: Vector, r2: Vector, v: Vector)
    requires |r1| + |r2| == |v|
    ensures Dot(r1 + r2, v) == Add(Dot(r1, v[..|r1|]), Dot(r2, v[|r1|..]))
  {
    if r1 == [] {
      assert r1 + r2 == r2 && v[|r1|..] == v;
      AddZero(Dot(r2, v));
    } else {
      assert (r1 + r2)[1..] == r1[1..] + r2;
      DotAppend(r1[1..], r2, v[1..]);
      assert v[1..][..|r1| - 1] == v[..|r1|][1..];
      assert v[1..][|r1| - 1..] == v[|r1|..];
      AddAssoc(Mul(r1[0], v[0]), Dot(r1[1..], v[..|r1|][1..]), Dot(r2, v[|r1|..]));
    }
  }

  lemma {:induction false} DotScale(c: Complex, x: Vector, w: Vector)
    requires |x| == |w|
    ensures Dot(Scale(c, x), w) == Mul(c, Dot(x, w))
  {
    if x == [] {
      MulZero(c, Zero);
    } else {
      assert Scale(c, x)[1..] == Scale(c, x[1..]);
      DotScale(c, x[1..], w[1..]);
      MulAssoc(c, x[0], w[0]);
      MulAddDistrib(c, Mul(x[0], w[0]), Dot(x[1..], w[1..]));
    }
  }

  /** A dot product whose row vanishes outside index h is that one product. */
  lemma {:induction false} DotOnePoint(u: Vector, w: Vector, h: nat)
    requires |u| == |w| && h < |u|
    requires forall c :: 0 <= c < |u| && c != h ==> u[c] == Zero
    ensures Dot(u, w) == Mul(u[h], w[h])
  {
    if h == 0 {
      DotAllZero(u[1..], w[1..]);
      AddZero(Mul(u[0], w[0]));
    } else {
      DotOnePoint(u[1..], w[1..], h - 1);
      MulZero(u[0], w[0]);
      AddZero(Mul(u[h], w[h]));
    }
  }

  lemma {:induction false} DotAllZero(u: Vector, w: Vector)
    requires |u| == |w|
    requires forall c :: 0 <= c < |u| ==> u[c] == Zero
    ensures Dot(u, w) == Zero
  {
    if u != [] {
      DotAllZero(u[1..], w[1..]);
      MulZero(u[0], w[0]);
      AddZero(Zero);
    }
  }

  lemma Dot2(x: Vector, w: Vector)
    requires |x| == |w| == 2
    ensures Dot(x, w) == Add(Mul(x[0], w[0]), Mul(x[1], w[1]))
  {
    assert Dot(x[1..][1..], w[1..][1..]) == Zero;
    assert Dot(x[1..], w[1..]) == Add(Mul(x[1], w[1]), Zero);
    AddZero(Mul(x[1], w[1]));
  }

  /** The dot products of x with the consecutive blocks of |x| entries of w. */
  function BlockDots(x: Vector, w: Vector, n: nat): (r: Vector)
    requires |w| == n * |x|
    ensures |r| == n
  {
    if n == 0 then []
    else
      assert |w[|x|..]| == (n - 1) * |x|;
      [Dot(x, w[..|x|])] + BlockDots(x, w[|x|..], n - 1)
  }

  /** np.dot(np.kron(u, x), w) == np.dot(u, the block products of x with w). */
  lemma {:induction false} DotKron(u: Vector, x: Vector, w: Vector)
    requires |w| == |u| * |x|
    ensures Dot(KronVec(u, x), w) == Dot(u, BlockDots(x, w, |u|))
  {
    if u != [] {
      assert |w[|x|..]| == (|u| - 1) * |x|;
      DotAppend(Scale(u[0], x), KronVec(u[1..], x), w);
      DotScale(u[0], x, w[..|x|]);
      DotKron(u[1..], x, w[|x|..]);
    }
  }

  lemma {:induction false} BlockDotsAt(x: Vector, w: Vector, n: nat, j: nat)
    requires |w| == n * |x| && j < n
    ensures j * |x| + |x| <= |w|
    ensures BlockDots(x, w, n)[j] == Dot(x, w[j * |x| .. j * |x| + |x|])
  {
    var k := |x|;
    MulLe(j + 1, n, k);
    if j > 0 {
      var rest := w[k..];
      var s := (j - 1) * k;
      MulPred(n, k);
      MulPred(j, k);
      BlockDotsAt(x, rest, n - 1, j - 1);
      SliceOfSuffix(w, k, s, k);
    }
  }

  lemma SliceOfSuffix(w: Vector, k: nat, s: nat, len: nat)
    requires k + s + len <= |w|
    ensures w[k..][s .. s + len] == w[k + s .. k + s + len]
  {
  }

  lemma MulPred(n: nat, k: nat)
    requires n > 0
    ensures (n - 1) * k + k == n * k
  {
  }

  /** Dotting a row of np.eye(a) picks one entry. */
  lemma DotUnit(a: nat, l: nat, w: Vector)
    requires l < a && |w| == a
    ensures Dot(Identity(a)[l], w) == w[l]
  {
    DotOnePoint(Identity(a)[l], w, l);
    MulOne(w[l]);
  }

  /** The block products of a row of np.eye(a) with w take every a-th entry of w, starting at l. */
  lemma StrideDots(a: nat, l: nat, w: Vector, n: nat, j: nat)
    requires l < a && |w| == n * a && j < n
    ensures j * a + l < |w|
    ensures BlockDots(Identity(a)[l], w, n)[j] == w[j * a + l]
  {
    BlockDotsAt(Identity(a)[l], w, n, j);
    DotUnit(a, l, w[j * a .. j * a + a]);
  }

  /** np.dot distributes over a matrix sum. */
  lemma MatVecAdd(a: Matrix, b: Matrix, v: Vector, r: nat)
    requires Shaped(a) && Shaped(b) && |a| == |b| && Cols(a) == Cols(b) == |v| && r < |a|
    ensures MatVec(MatAdd(a, b), v)[r] == Add(MatVec(a, v)[r], MatVec(b, v)[r])
  {
    assert MatAdd(a, b)[r] == VecAdd(a[r], b[r]);
    DotAdd(a[r], b[r], v);
  }

  // ---------------------------------------------------------------- embedding a gate

  /** The shape of (d ⊗ x) ⊗ I(a). */
  lemma EmbedShape(d: Matrix, x: Matrix, a: nat)
    requires Shaped(d) && Shaped(x) && a > 0
    ensures Shaped(KronMat(KronMat(d, x), Identity(a)))
    ensures Cols(KronMat(KronMat(d, x), Identity(a))) == Cols(d) * Cols(x) * a
    ensures |KronMat(KronMat(d, x), Identity(a))| == |d| * |x| * a
  {
    KronShaped(d, x);
    KronShaped(KronMat(d, x), Identity(a));
  }

  /** Row r = (h * rows(x) + xr) * a + l of (d ⊗ x) ⊗ I(a) is np.kron(np.kron(d[h], x[xr]), row l
      of I(a)). */
  lemma EmbedRow(d: Matrix, x: Matrix, a: nat, h: nat, xr: nat, l: nat, n: nat, r: nat)
    requires a > 0 && h < |d| && xr < |x| && l < a && |x| == n && r == (h * n + xr) * a + l
    ensures r < |KronMat(KronMat(d, x), Identity(a))|
    ensures KronMat(KronMat(d, x), Identity(a))[r] == KronVec(KronVec(d[h], x[xr]), Identity(a)[l])
  {
    var q := h * n + xr;
    KronMatRowAt(d, x, h, xr, n, q);
    KronMatRowAt(KronMat(d, x), Identity(a), q, l, a, r);
  }

  /** KronMatRow for a row index r given with the row count n of y. */
  lemma KronMatRowAt(x: Matrix, y: Matrix, i: nat, k: nat, n: nat, r: nat)
    requires i < |x| && k < |y| && |y| == n && r == i * n + k
    ensures r < |KronMat(x, y)| && KronMat(x, y)[r] == KronVec(x[i], y[k])
  {
    KronMatRow(x, y, i, k);
  }

  /** For a row dh vanishing outside h and a two-entry row xrow, np.dot(np.kron(dh, xrow), s)
      meets s only at entries 2h and 2h + 1. */
  lemma DotKronPair(dh: Vector, xrow: Vector, s: Vector, h: nat)
    requires |xrow| == 2 && |s| == |dh| * 2 && h < |dh|
    requires forall c :: 0 <= c < |dh| && c != h ==> dh[c] == Zero
    ensures h * 2 + 1 < |s|
    ensures Dot(KronVec(dh, xrow), s) == Mul(dh[h], Add(Mul(xrow[0], s[h * 2]), Mul(xrow[1], s[h * 2 + 1])))
  {
    var C := BlockDots(xrow, s, |dh|);
    DotKron(dh, xrow, s);
    DotOnePoint(dh, C, h);
    BlockDotsAt(xrow, s, |dh|, h);
    Dot2(xrow, s[h * 2 .. h * 2 + 2]);
  }
}
