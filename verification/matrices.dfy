/** Dense integer matrices stored row by row, with the elementwise and
    block operations the two multiplication algorithms are built from:
    elementwise sum and difference, extraction of a square block (a numpy
    slice such as `A[:mid, mid:]`), writing a block into a matrix (a slice
    assignment such as `C[mid:, :mid] = C21`), and the reference product
    `C[i][j] = Σ_k A[i][k]·B[k][j]`.  Entries are unbounded integers, so
    every identity below is exact. */
module Matrices {

  type Vector = seq<int>
  type Matrix = seq<Vector>

  /** M has `rows` rows, each holding `cols` entries. */
  predicate IsMatrix(M: Matrix, rows: nat, cols: nat) {
    |M| == rows && forall i :: 0 <= i < rows ==> |M[i]| == cols
  }

  /** M is an n×n matrix. */
  predicate IsSquare(M: Matrix, n: nat) {
    IsMatrix(M, n, n)
  }

  /** X and Y have the same number of rows and matching row lengths. */
  predicate SameShape(X: Matrix, Y: Matrix) {
    |X| == |Y| && forall i :: 0 <= i < |X| ==> |X[i]| == |Y[i]|
  }

  /** The n×n zero matrix (`np.zeros((n, n))`). */
  function Zeros(n: nat): (Z: Matrix)
    ensures IsSquare(Z, n)
    ensures forall i, j :: 0 <= i < n && 0 <= j < n ==> Z[i][j] == 0
  {
    seq(n, _ => seq(n, _ => 0))
  }

  // ---------------------------------------------------------------------
  // Vectors

  function VAdd(u: Vector, v: Vector): (w: Vector)
    requires |u| == |v|
    ensures |w| == |u|
    ensures forall k :: 0 <= k < |w| ==> w[k] == u[k] + v[k]
  {
    seq(|u|, k requires 0 <= k < |u| => u[k] + v[k])
  }

  function VSub(u: Vector, v: Vector): (w: Vector)
    requires |u| == |v|
    ensures |w| == |u|
    ensures forall k :: 0 <= k < |w| ==> w[k] == u[k] - v[k]
  {
    seq(|u|, k requires 0 <= k < |u| => u[k] - v[k])
  }

  /** The sum of the first k terms u[t]·v[t], accumulated from t = 0
      upwards, the way the naive triple loop accumulates `C[i, j]`. */
  function PartialDot(u: Vector, v: Vector, k: nat): int
    requires k <= |u| && k <= |v|
  {
    if k == 0 then 0 else PartialDot(u, v, k - 1) + u[k - 1] * v[k - 1]
  }

  /** The inner product of two vectors of equal length. */
  function Dot(u: Vector, v: Vector): int
    requires |u| == |v|
  {
    PartialDot(u, v, |u|)
  }

  /** The first k terms of an inner product over concatenations only see
      the first parts, as long as k stays within them. */
  lemma {:induction false} PartialDotPrefix(u1: Vector, u2: Vector, v1: Vector, v2: Vector, k: nat)
    requires k <= |u1| && k <= |v1|
    ensures PartialDot(u1 + u2, v1 + v2, k) == PartialDot(u1, v1, k)
  {
    if k > 0 {
      PartialDotPrefix(u1, u2, v1, v2, k - 1);
    }
  }

  lemma {:induction false} PartialDotAppend(u1: Vector, u2: Vector, v1: Vector, v2: Vector, k: nat)
    requires |u1| == |v1| && k <= |u2| && k <= |v2|
    ensures PartialDot(u1 + u2, v1 + v2, |u1| + k) == Dot(u1, v1) + PartialDot(u2, v2, k)
  {
    if k == 0 {
      PartialDotPrefix(u1, u2, v1, v2, |u1|);
    } else {
      PartialDotAppend(u1, u2, v1, v2, k - 1);
    }
  }

  /** An inner product over a concatenation is the sum of the inner
      products over the two parts; this is what splitting a row of `A` at
      `mid` and a column of `B` at `mid` relies on. */
  lemma DotAppend(u1: Vector, u2: Vector, v1: Vector, v2: Vector)
    requires |u1| == |v1| && |u2| == |v2|
    ensures Dot(u1 + u2, v1 + v2) == Dot(u1, v1) + Dot(u2, v2)
  {
    PartialDotAppend(u1, u2, v1, v2, |u2|);
  }

  // The inner product is linear in each argument.

  lemma {:induction false} DotAddLeft(u: Vector, v: Vector, w: Vector, k: nat)
    requires |u| == |v| == |w| && k <= |u|
    ensures PartialDot(VAdd(u, v), w, k) == PartialDot(u, w, k) + PartialDot(v, w, k)
  {
    if k > 0 {
      DotAddLeft(u, v, w, k - 1);
    }
  }

  lemma {:induction false} DotSubLeft(u: Vector, v: Vector, w: Vector, k: nat)
    requires |u| == |v| == |w| && k <= |u|
    ensures PartialDot(VSub(u, v), w, k) == PartialDot(u, w, k) - PartialDot(v, w, k)
  {
    if k > 0 {
      DotSubLeft(u, v, w, k - 1);
    }
  }

  lemma {:induction false} DotAddRight(u: Vector, v: Vector, w: Vector, k: nat)
    requires |u| == |v| == |w| && k <= |u|
    ensures PartialDot(u, VAdd(v, w), k) == PartialDot(u, v, k) + PartialDot(u, w, k)
  {
    if k > 0 {
      DotAddRight(u, v, w, k - 1);
    }
  }

  lemma {:induction false} DotSubRight(u: Vector, v: Vector, w: Vector, k: nat)
    requires |u| == |v| == |w| && k <= |u|
    ensures PartialDot(u, VSub(v, w), k) == PartialDot(u, v, k) - PartialDot(u, w, k)
  {
    if k > 0 {
      DotSubRight(u, v, w, k - 1);
    }
  }

  // ---------------------------------------------------------------------
  // Elementwise arithmetic (numpy `X + Y` and `X - Y` on equal shapes)

  function Add(X: Matrix, Y: Matrix): (Z: Matrix)
    requires SameShape(X, Y)
    ensures SameShape(Z, X)
    ensures forall i, j :: 0 <= i < |X| && 0 <= j < |X[i]| ==> Z[i][j] == X[i][j] + Y[i][j]
  {
    seq(|X|, i requires 0 <= i < |X| => VAdd(X[i], Y[i]))
  }

  function Sub(X: Matrix, Y: Matrix): (Z: Matrix)
    requires SameShape(X, Y)
    ensures SameShape(Z, X)
    ensures forall i, j :: 0 <= i < |X| && 0 <= j < |X[i]| ==> Z[i][j] == X[i][j] - Y[i][j]
  {
    seq(|X|, i requires 0 <= i < |X| => VSub(X[i], Y[i]))
  }

  // ---------------------------------------------------------------------
  // The reference product

  /** Column j of M. */
  function Col(M: Matrix, j: nat): (c: Vector)
    requires forall i :: 0 <= i < |M| ==> j < |M[i]|
    ensures |c| == |M|
    ensures forall i :: 0 <= i < |M| ==> c[i] == M[i][j]
  {
    seq(|M|, i requires 0 <= i < |M| => M[i][j])
  }

  /** The matrix product of two n×n matrices, entry (i, j) being the inner
      product of row i of A with column j of B. */
  function Mul(A: Matrix, B: Matrix): (C: Matrix)
    requires IsSquare(A, |A|) && IsSquare(B, |A|)
    ensures IsSquare(C, |A|)
  {
    var n := |A|;
    seq(n, i requires 0 <= i < n => seq(n, j requires 0 <= j < n => Dot(A[i], Col(B, j))))
  }

  lemma MulEntry(A: Matrix, B: Matrix, i: nat, j: nat)
    requires IsSquare(A, |A|) && IsSquare(B, |A|)
    requires i < |A| && j < |A|
    ensures Mul(A, B)[i][j] == Dot(A[i], Col(B, j))
  {
  }

  // Distributivity, entry by entry: each product entry of a sum or a
  // difference splits into the two product entries.

  lemma MulAddLeftAt(X: Matrix, Y: Matrix, Z: Matrix, i: nat, j: nat)
    requires IsSquare(X, |X|) && IsSquare(Y, |X|) && IsSquare(Z, |X|)
    requires i < |X| && j < |X|
    ensures Mul(Add(X, Y), Z)[i][j] == Mul(X, Z)[i][j] + Mul(Y, Z)[i][j]
  {
    assert Add(X, Y)[i] == VAdd(X[i], Y[i]);
    DotAddLeft(X[i], Y[i], Col(Z, j), |X|);
  }

  lemma MulSubLeftAt(X: Matrix, Y: Matrix, Z: Matrix, i: nat, j: nat)
    requires IsSquare(X, |X|) && IsSquare(Y, |X|) && IsSquare(Z, |X|)
    requires i < |X| && j < |X|
    ensures Mul(Sub(X, Y), Z)[i][j] == Mul(X, Z)[i][j] - Mul(Y, Z)[i][j]
  {
    assert Sub(X, Y)[i] == VSub(X[i], Y[i]);
    DotSubLeft(X[i], Y[i], Col(Z, j), |X|);
  }

  lemma MulAddRightAt(X: Matrix, Y: Matrix, Z: Matrix, i: nat, j: nat)
    requires IsSquare(X, |X|) && IsSquare(Y, |X|) && IsSquare(Z, |X|)
    requires i < |X| && j < |X|
    ensures Mul(X, Add(Y, Z))[i][j] == Mul(X, Y)[i][j] + Mul(X, Z)[i][j]
  {
    assert Col(Add(Y, Z), j) == VAdd(Col(Y, j), Col(Z, j));
    DotAddRight(X[i], Col(Y, j), Col(Z, j), |X|);
  }

  lemma MulSubRightAt(X: Matrix, Y: Matrix, Z: Matrix, i: nat, j: nat)
    requires IsSquare(X, |X|) && IsSquare(Y, |X|) && IsSquare(Z, |X|)
    requires i < |X| && j < |X|
    ensures Mul(X, Sub(Y, Z))[i][j] == Mul(X, Y)[i][j] - Mul(X, Z)[i][j]
  {
    assert Col(Sub(Y, Z), j) == VSub(Col(Y, j), Col(Z, j));
    DotSubRight(X[i], Col(Y, j), Col(Z, j), |X|);
  }

  /** An entry of the product of two sums expands into four terms. */
  lemma MulSumSumAt(X: Matrix, Y: Matrix, Z: Matrix, W: Matrix, i: nat, j: nat)
    requires IsSquare(X, |X|) && IsSquare(Y, |X|) && IsSquare(Z, |X|) && IsSquare(W, |X|)
    requires i < |X| && j < |X|
    ensures Mul(Add(X, Y), Add(Z, W))[i][j]
         == Mul(X, Z)[i][j] + Mul(X, W)[i][j] + (Mul(Y, Z)[i][j] + Mul(Y, W)[i][j])
  {
    MulAddLeftAt(X, Y, Add(Z, W), i, j);
    MulAddRightAt(X, Z, W, i, j);
    MulAddRightAt(Y, Z, W, i, j);
  }

  /** An entry of the product of a difference and a sum expands into four
      terms. */
  lemma MulDiffSumAt(X: Matrix, Y: Matrix, Z: Matrix, W: Matrix, i: nat, j: nat)
    requires IsSquare(X, |X|) && IsSquare(Y, |X|) && IsSquare(Z, |X|) && IsSquare(W, |X|)
    requires i < |X| && j < |X|
    ensures Mul(Sub(X, Y), Add(Z, W))[i][j]
         == Mul(X, Z)[i][j] + Mul(X, W)[i][j] - (Mul(Y, Z)[i][j] + Mul(Y, W)[i][j])
  {
    MulSubLeftAt(X, Y, Add(Z, W), i, j);
    MulAddRightAt(X, Z, W, i, j);
    MulAddRightAt(Y, Z, W, i, j);
  }

  // ---------------------------------------------------------------------
  // Blocks: extraction, writing and assembly of quadrants

  /** The m×m block of M whose top-left corner is (r0, c0): the slice
      `M[r0:r0+m, c0:c0+m]`, copied. */
  function Block(M: Matrix, r0: nat, c0: nat, m: nat): (Q: Matrix)
    requires r0 + m <= |M|
    requires forall i :: r0 <= i < r0 + m ==> c0 + m <= |M[i]|
    ensures IsSquare(Q, m)
    ensures forall i, j :: 0 <= i < m && 0 <= j < m ==> Q[i][j] == M[r0 + i][c0 + j]
  {
    seq(m, i requires 0 <= i < m => M[r0 + i][c0..c0 + m])
  }

  /** Slice assignment `M[r0:r0+q, c0:c0+q] = Q` for a q×q block Q: the
      entries under the block take Q's values and every other entry keeps
      its value. */
  function WriteBlock(M: Matrix, r0: nat, c0: nat, Q: Matrix): (R: Matrix)
    requires IsSquare(Q, |Q|)
    requires r0 + |Q| <= |M|
    requires forall i :: r0 <= i < r0 + |Q| ==> c0 + |Q| <= |M[i]|
    ensures SameShape(R, M)
    ensures forall i, j :: 0 <= i < |M| && 0 <= j < |M[i]| ==>
      R[i][j] == if r0 <= i < r0 + |Q| && c0 <= j < c0 + |Q| then Q[i - r0][j - c0] else M[i][j]
  {
    seq(|M|, i requires 0 <= i < |M| =>
      seq(|M[i]|, j requires 0 <= j < |M[i]| =>
        if r0 <= i < r0 + |Q| && c0 <= j < c0 + |Q| then Q[i - r0][j - c0] else M[i][j]))
  }

  /** Builds a 2m×2m matrix from four m×m quadrants the way
      `strassen_method` does: start from zeros and write the four corners in
      turn. */
  function Assemble(C11: Matrix, C12: Matrix, C21: Matrix, C22: Matrix): (C: Matrix)
    requires IsSquare(C11, |C11|)
    requires IsSquare(C12, |C11|) && IsSquare(C21, |C11|) && IsSquare(C22, |C11|)
    ensures IsSquare(C, 2 * |C11|)
    ensures forall i, j :: 0 <= i < 2 * |C11| && 0 <= j < 2 * |C11| ==>
      C[i][j] == if i < |C11| then (if j < |C11| then C11[i][j] else C12[i][j - |C11|])
                 else (if j < |C11| then C21[i - |C11|][j] else C22[i - |C11|][j - |C11|])
  {
    var m := |C11|;
    var Z := Zeros(2 * m);
    var W1 := WriteBlock(Z, 0, 0, C11);
    var W2 := WriteBlock(W1, 0, m, C12);
    var W3 := WriteBlock(W2, m, 0, C21);
    WriteBlock(W3, m, m, C22)
  }

  /** Splitting an assembled matrix gives back its four quadrants. */
  lemma SplitAssemble(C11: Matrix, C12: Matrix, C21: Matrix, C22: Matrix)
    requires IsSquare(C11, |C11|)
    requires IsSquare(C12, |C11|) && IsSquare(C21, |C11|) && IsSquare(C22, |C11|)
    ensures var m, C := |C11|, Assemble(C11, C12, C21, C22);
      && Block(C, 0, 0, m) == C11 && Block(C, 0, m, m) == C12
      && Block(C, m, 0, m) == C21 && Block(C, m, m, m) == C22
  {
    var m, C := |C11|, Assemble(C11, C12, C21, C22);
    assert Block(C, 0, 0, m) == C11 by { MatrixExt(Block(C, 0, 0, m), C11); }
    assert Block(C, 0, m, m) == C12 by { MatrixExt(Block(C, 0, m, m), C12); }
    assert Block(C, m, 0, m) == C21 by { MatrixExt(Block(C, m, 0, m), C21); }
    assert Block(C, m, m, m) == C22 by { MatrixExt(Block(C, m, m, m), C22); }
  }

  lemma AssembleAt(C11: Matrix, C12: Matrix, C21: Matrix, C22: Matrix, i: nat, j: nat)
    requires IsSquare(C11, |C11|)
    requires IsSquare(C12, |C11|) && IsSquare(C21, |C11|) && IsSquare(C22, |C11|)
    requires i < 2 * |C11| && j < 2 * |C11|
    ensures Assemble(C11, C12, C21, C22)[i][j]
         == if i < |C11| then (if j < |C11| then C11[i][j] else C12[i][j - |C11|])
            else (if j < |C11| then C21[i - |C11|][j] else C22[i - |C11|][j - |C11|])
  {
  }

  lemma BlockAt(M: Matrix, r0: nat, c0: nat, m: nat, i: nat, j: nat)
    requires r0 + m <= |M|
    requires forall i :: r0 <= i < r0 + m ==> c0 + m <= |M[i]|
    requires i < m && j < m
    ensures Block(M, r0, c0, m)[i][j] == M[r0 + i][c0 + j]
  {
  }

  /** Assembling the four quadrants of an even-sized square matrix gives
      back the matrix. */
  lemma AssembleSplit(M: Matrix, m: nat)
    requires IsSquare(M, 2 * m)
    ensures Assemble(Block(M, 0, 0, m), Block(M, 0, m, m), Block(M, m, 0, m), Block(M, m, m, m)) == M
  {
    var C := Assemble(Block(M, 0, 0, m), Block(M, 0, m, m), Block(M, m, 0, m), Block(M, m, m, m));
    forall i, j | 0 <= i < 2 * m && 0 <= j < 2 * m
      ensures C[i][j] == M[i][j]
    {
      AssembleSplitAt(M, m, i, j);
    }
    MatrixExt(C, M);
  }

  /** One entry of `AssembleSplit`: whichever quadrant (i, j) falls in, the
      block written there holds M's entry. */
  lemma AssembleSplitAt(M: Matrix, m: nat, i: nat, j: nat)
    requires IsSquare(M, 2 * m) && i < 2 * m && j < 2 * m
    ensures Assemble(Block(M, 0, 0, m), Block(M, 0, m, m), Block(M, m, 0, m), Block(M, m, m, m))[i][j] == M[i][j]
  {
    AssembleAt(Block(M, 0, 0, m), Block(M, 0, m, m), Block(M, m, 0, m), Block(M, m, m, m), i, j);
    if i < m && j < m {
      BlockAt(M, 0, 0, m, i, j);
    } else if i < m {
      BlockAt(M, 0, m, m, i, j - m);
    } else if j < m {
      BlockAt(M, m, 0, m, i - m, j);
    } else {
      BlockAt(M, m, m, m, i - m, j - m);
    }
  }

  /** Two matrices of the same square shape with equal entries are equal. */
  lemma MatrixExt(X: Matrix, Y: Matrix)
    requires IsSquare(X, |X|) && IsSquare(Y, |X|)
    requires forall i, j :: 0 <= i < |X| && 0 <= j < |X| ==> X[i][j] == Y[i][j]
    ensures X == Y
  {
    forall i | 0 <= i < |X|
      ensures X[i] == Y[i]
    {
    }
  }

  /** An inner product splits at any index m into the inner products of
      the two prefixes and the two suffixes. */
  lemma DotSplitAt(u: Vector, v: Vector, m: nat)
    requires |u| == |v| && m <= |u|
    ensures Dot(u, v) == Dot(u[..m], v[..m]) + Dot(u[m..], v[m..])
  {
    assert u == u[..m] + u[m..];
    assert v == v[..m] + v[m..];
    DotAppend(u[..m], u[m..], v[..m], v[m..]);
  }

  /** An inner product of length 2m is the sum of the inner products of
      the two halves. */
  lemma DotHalves(u: Vector, v: Vector, m: nat)
    requires |u| == 2 * m && |v| == 2 * m
    ensures Dot(u, v) == Dot(u[0..m], v[0..m]) + Dot(u[m..m + m], v[m..m + m])
  {
    assert u[0..m] == u[..m] && v[0..m] == v[..m];
    assert u[m..m + m] == u[m..] && v[m..m + m] == v[m..];
    DotSplitAt(u, v, m);
  }

  /** A column of a block is the matching stretch of a column of M. */
  lemma ColBlock(M: Matrix, m: nat, r0: nat, c0: nat, j: nat)
    requires IsSquare(M, 2 * m)
    requires r0 + m <= 2 * m && c0 + m <= 2 * m && j < m
    ensures Col(Block(M, r0, c0, m), j) == Col(M, c0 + j)[r0..r0 + m]
  {
    var Q := Block(M, r0, c0, m);
    forall k | 0 <= k < m
      ensures Col(Q, j)[k] == Col(M, c0 + j)[r0..r0 + m][k]
    {
      assert Col(Q, j)[k] == Q[k][j];
    }
  }

  /** An entry of the product of the blocks at (r0, k0) of A and (k0, c0)
      of B is the inner product of the matching stretches of a row of A and
      a column of B. */
  lemma MulBlockEntry(A: Matrix, B: Matrix, m: nat, r0: nat, c0: nat, k0: nat, i: nat, j: nat)
    requires IsSquare(A, 2 * m) && IsSquare(B, 2 * m)
    requires r0 + m <= 2 * m && c0 + m <= 2 * m && k0 + m <= 2 * m
    requires i < m && j < m
    ensures Mul(Block(A, r0, k0, m), Block(B, k0, c0, m))[i][j]
         == Dot(A[r0 + i][k0..k0 + m], Col(B, c0 + j)[k0..k0 + m])
  {
    var L, U := Block(A, r0, k0, m), Block(B, k0, c0, m);
    assert L[i] == A[r0 + i][k0..k0 + m];
    ColBlock(B, m, k0, c0, j);
    MulEntry(L, U, i, j);
  }

  /** Entry (r0 + i, c0 + j) of A·B, for a quadrant with top-left corner
      (r0, c0), is the sum of the two products of blocks that meet there. */
  lemma MulQuadrantEntry(A: Matrix, B: Matrix, m: nat, r0: nat, c0: nat, i: nat, j: nat)
    requires IsSquare(A, 2 * m) && IsSquare(B, 2 * m)
    requires r0 + m <= 2 * m && c0 + m <= 2 * m
    requires i < m && j < m
    ensures Mul(A, B)[r0 + i][c0 + j]
         == Mul(Block(A, r0, 0, m), Block(B, 0, c0, m))[i][j] + Mul(Block(A, r0, m, m), Block(B, m, c0, m))[i][j]
  {
    MulEntry(A, B, r0 + i, c0 + j);
    MulBlockEntry(A, B, m, r0, c0, 0, i, j);
    MulBlockEntry(A, B, m, r0, c0, m, i, j);
    DotHalves(A[r0 + i], Col(B, c0 + j), m);
  }

  /** The quadrant of A·B with top-left corner (r0, c0) is the sum of the
      two products of blocks that meet there. */
  lemma MulQuadrant(A: Matrix, B: Matrix, m: nat, r0: nat, c0: nat)
    requires IsSquare(A, 2 * m) && IsSquare(B, 2 * m)
    requires r0 + m <= 2 * m && c0 + m <= 2 * m
    ensures Block(Mul(A, B), r0, c0, m)
         == Add(Mul(Block(A, r0, 0, m), Block(B, 0, c0, m)), Mul(Block(A, r0, m, m), Block(B, m, c0, m)))
  {
    var Q := Block(Mul(A, B), r0, c0, m);
    var S := Add(Mul(Block(A, r0, 0, m), Block(B, 0, c0, m)), Mul(Block(A, r0, m, m), Block(B, m, c0, m)));
    forall i, j | 0 <= i < m && 0 <= j < m
      ensures Q[i][j] == S[i][j]
    {
      MulQuadrantEntry(A, B, m, r0, c0, i, j);
    }
    MatrixExt(Q, S);
  }

  /** The block form of the product: the quadrants of A·B are
      A11·B11 + A12·B21, A11·B12 + A12·B22, A21·B11 + A22·B21 and
      A21·B12 + A22·B22. */
  lemma BlockMul(A: Matrix, B: Matrix, m: nat)
    requires IsSquare(A, 2 * m) && IsSquare(B, 2 * m)
    ensures var A11, A12, A21, A22 := Block(A, 0, 0, m), Block(A, 0, m, m), Block(A, m, 0, m), Block(A, m, m, m);
      var B11, B12, B21, B22 := Block(B, 0, 0, m), Block(B, 0, m, m), Block(B, m, 0, m), Block(B, m, m, m);
      Mul(A, B) == Assemble(Add(Mul(A11, B11), Mul(A12, B21)), Add(Mul(A11, B12), Mul(A12, B22)),
                            Add(Mul(A21, B11), Mul(A22, B21)), Add(Mul(A21, B12), Mul(A22, B22)))
  {
    var P := Mul(A, B);
    MulQuadrant(A, B, m, 0, 0);
    MulQuadrant(A, B, m, 0, m);
    MulQuadrant(A, B, m, m, 0);
    MulQuadrant(A, B, m, m, m);
    AssembleSplit(P, m);
  }
}
