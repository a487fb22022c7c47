/** The naive cubic multiplication `naive_method`: a triple loop that
    accumulates `C[i, j] += A[i, k] * B[k, j]` into a zero matrix and
    counts two floating-point operations (one multiply, one add) per
    innermost step. */
module Naive {
  import opened Matrices

  /** What one multiplication returns: the product and its operation
      count. */
  datatype Product = Product(c: Matrix, flops: nat)

  /** The operation count of the triple loop on n×n operands. */
  function NaiveCost(n: nat): nat {
    2 * n * n * n
  }

  /** `naive_method` as a value: the product together with its count; the
      loop below computes exactly this. */
  function NaiveProduct(A: Matrix, B: Matrix): (r: Product)
    requires IsSquare(A, |A|) && IsSquare(B, |A|)
    ensures IsSquare(r.c, |A|)
    ensures forall i, j :: 0 <= i < |A| && 0 <= j < |A| ==> r.c[i][j] == Dot(A[i], Col(B, j))
    ensures r.flops == 2 * |A| * |A| * |A|
  {
    Product(Mul(A, B), NaiveCost(|A|))
  }

  /** The triple loop itself.  Rows before i are finished, row i is
      finished before column j, entry (i, j) holds the first k terms of its
      inner product, and every entry not yet reached is still zero. */
  method NaiveMethod(A: Matrix, B: Matrix) returns (C: Matrix, flops: nat)
    requires IsSquare(A, |A|) && IsSquare(B, |A|)
    ensures IsSquare(C, |A|)
    ensures forall i, j :: 0 <= i < |A| && 0 <= j < |A| ==> C[i][j] == Dot(A[i], Col(B, j))
    ensures flops == 2 * |A| * |A| * |A|
    ensures Product(C, flops) == NaiveProduct(A, B)
  {
    var n := |A|;
    C := Zeros(n);
    flops := 0;
    var i := 0;
    while i < n
      invariant 0 <= i <= n
      invariant IsSquare(C, n)
      invariant forall r, c :: 0 <= r < i && 0 <= c < n ==> C[r][c] == Dot(A[r], Col(B, c))
      invariant forall r, c :: i <= r < n && 0 <= c < n ==> C[r][c] == 0
      invariant flops == 2 * n * n * i
    {
      var j := 0;
      while j < n
        invariant 0 <= j <= n
        invariant IsSquare(C, n)
        invariant forall r, c :: 0 <= r < i && 0 <= c < n ==> C[r][c] == Dot(A[r], Col(B, c))
        invariant forall c :: 0 <= c < j ==> C[i][c] == Dot(A[i], Col(B, c))
        invariant forall c :: j <= c < n ==> C[i][c] == 0
        invariant forall r, c :: i < r < n && 0 <= c < n ==> C[r][c] == 0
        invariant flops == 2 * n * n * i + 2 * n * j
      {
        ghost var col := Col(B, j);
        ghost var before := C;
        var k := 0;
        while k < n
          invariant 0 <= k <= n
          invariant |C| == n
          invariant forall r :: 0 <= r < n && r != i ==> C[r] == before[r]
          invariant |C[i]| == n
          invariant forall c :: 0 <= c < n && c != j ==> C[i][c] == before[i][c]
          invariant C[i][j] == PartialDot(A[i], col, k)
          invariant flops == 2 * n * n * i + 2 * n * j + 2 * k
        {
          C := C[i := C[i][j := C[i][j] + A[i][k] * B[k][j]]];
          flops := flops + 2;
          k := k + 1;
        }
        assert 2 * n * j + 2 * n == 2 * n * (j + 1);
        j := j + 1;
      }
      assert 2 * n * n * i + 2 * n * n == 2 * n * n * (i + 1);
      i := i + 1;
    }
    forall r | 0 <= r < n
      ensures C[r] == Mul(A, B)[r]
    {
    }
  }
}
