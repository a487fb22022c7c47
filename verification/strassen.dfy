/** Strassen's divide-and-conquer product `strassen_method`.  Operands of
    size at most 2 go to the naive triple loop; larger operands are cut into
    four quadrants each, ten sums and differences S1..S10 of quadrants are
    formed, seven half-size products P1..P7 are computed recursively, and
    the four quadrants of the result are recombined from them and written
    into a fresh zero matrix. */
module Strassen {
  import opened Matrices
  import opened Naive

  /** Sizes on which the recursion is well defined: every size the
      recursion reaches above the base case is even, so that the four
      quadrants are all mid×mid. */
  predicate Splittable(n: nat)
    decreases n
  {
    n <= 2 || (n % 2 == 0 && Splittable(n / 2))
  }

  function Pow(b: nat, k: nat): nat
  {
    if k == 0 then 1 else b * Pow(b, k - 1)
  }

  ghost predicate IsPowerOfTwo(n: nat) {
    exists k: nat :: Pow(2, k) == n
  }

  /** The sizes the recursion accepts are exactly zero and the powers of
      two. */
  lemma {:induction false} SplittableIffPowerOfTwo(n: nat)
    ensures Splittable(n) <==> n == 0 || IsPowerOfTwo(n)
    decreases n
  {
    if n == 1 {
      assert Pow(2, 0) == 1;
    } else if n == 2 {
      assert Pow(2, 1) == 2;
    } else if n > 2 {
      if Splittable(n) {
        SplittableIffPowerOfTwo(n / 2);
        var k: nat :| Pow(2, k) == n / 2;
        assert Pow(2, k + 1) == n;
      }
      if IsPowerOfTwo(n) {
        var k: nat :| Pow(2, k) == n;
        assert k > 0;
        assert Pow(2, k - 1) == n / 2;
        SplittableIffPowerOfTwo(n / 2);
      }
    }
  }

  /** `x ** 2` on a non-negative integer. */
  function Square(x: nat): nat {
    x * x
  }

  /** The operation count `strassen_method` reports on n×n operands: the
      naive count at the base case, otherwise the seven recursive counts
      plus one operation per entry of each of the ten mid×mid matrices
      S1..S10.  The four recombination sums are not counted. */
  function StrassenCost(n: nat): nat
    decreases n
  {
    if n <= 2 then NaiveCost(n)
    else 7 * StrassenCost(n / 2) + 10 * Square(n / 2)
  }

  /** The four quadrants of a matrix, or of a result under construction. */
  datatype Quad = Quad(q11: Matrix, q12: Matrix, q21: Matrix, q22: Matrix)

  /** All four quadrants are m×m. */
  predicate QuadOf(q: Quad, m: nat) {
    IsSquare(q.q11, m) && IsSquare(q.q12, m) && IsSquare(q.q21, m) && IsSquare(q.q22, m)
  }

  /** The two operands of one of the seven recursive products. */
  datatype Operands = Operands(left: Matrix, right: Matrix)

  /** The quadrant split `M[:mid, :mid]`, `M[:mid, mid:]`, `M[mid:, :mid]`,
      `M[mid:, mid:]` of a 2m×2m matrix. */
  function Split(M: Matrix, m: nat): (q: Quad)
    requires IsSquare(M, 2 * m)
    ensures QuadOf(q, m)
  {
    Quad(Block(M, 0, 0, m), Block(M, 0, m, m), Block(M, m, 0, m), Block(M, m, m, m))
  }

  /** The ten sums and differences S1..S10 and the operand pairs of the
      seven recursive products P1..P7, in the order P1..P7. */
  function Schedule(a: Quad, b: Quad, m: nat): (ops: seq<Operands>)
    requires QuadOf(a, m) && QuadOf(b, m)
    ensures |ops| == 7
    ensures forall k :: 0 <= k < 7 ==> IsSquare(ops[k].left, m) && IsSquare(ops[k].right, m)
  {
    var S1, S2, S3, S4, S5 := Sub(b.q12, b.q22), Add(a.q11, a.q12), Add(a.q21, a.q22), Sub(b.q21, b.q11), Add(a.q11, a.q22);
    var S6, S7, S8, S9, S10 := Add(b.q11, b.q22), Sub(a.q12, a.q22), Add(b.q21, b.q22), Sub(a.q11, a.q21), Add(b.q11, b.q12);
    [Operands(a.q11, S1), Operands(S2, b.q22), Operands(S3, b.q11), Operands(a.q22, S4),
     Operands(S5, S6), Operands(S7, S8), Operands(S9, S10)]
  }

  /** The recombination C11 = P5 + P4 - P2 + P6, C12 = P1 + P2,
      C21 = P3 + P4, C22 = P5 + P1 - P3 - P7, each evaluated left to
      right. */
  function Recombine(P1: Matrix, P2: Matrix, P3: Matrix, P4: Matrix, P5: Matrix, P6: Matrix, P7: Matrix, m: nat): (c: Quad)
    requires IsSquare(P1, m) && IsSquare(P2, m) && IsSquare(P3, m) && IsSquare(P4, m)
    requires IsSquare(P5, m) && IsSquare(P6, m) && IsSquare(P7, m)
    ensures QuadOf(c, m)
  {
    Quad(Add(Sub(Add(P5, P4), P2), P6), Add(P1, P2), Add(P3, P4), Sub(Sub(Add(P5, P1), P3), P7))
  }

  /** The total of the counts of a list of results. */
  function SumFlops(ps: seq<Product>): nat {
    if ps == [] then 0 else ps[0].flops + SumFlops(ps[1..])
  }

  /** Results that all report the same count f total |ps|·f. */
  lemma {:induction false} SumFlopsUniform(ps: seq<Product>, f: nat)
    requires forall k :: 0 <= k < |ps| ==> ps[k].flops == f
    ensures SumFlops(ps) == |ps| * f
  {
    if ps != [] {
      SumFlopsUniform(ps[1..], f);
    }
  }

  /** One level's matrix from the seven recursive results: the recombined
      quadrants written into a zero matrix. */
  function Combine(ps: seq<Product>, m: nat): (C: Matrix)
    requires |ps| == 7 && forall k :: 0 <= k < 7 ==> IsSquare(ps[k].c, m)
    ensures IsSquare(C, 2 * m)
  {
    var c := Recombine(ps[0].c, ps[1].c, ps[2].c, ps[3].c, ps[4].c, ps[5].c, ps[6].c, m);
    Assemble(c.q11, c.q12, c.q21, c.q22)
  }

  /** The operands `strassen_method` accepts: two n×n matrices whose size
      the recursion can halve down to the base case. */
  predicate Multipliable(A: Matrix, B: Matrix) {
    IsSquare(A, |A|) && IsSquare(B, |A|) && Splittable(|A|)
  }

  /** `strassen_method`: the product of A and B with its operation count. */
  function Strassen(A: Matrix, B: Matrix): (r: Product)
    requires Multipliable(A, B)
    ensures IsSquare(r.c, |A|)
    ensures r.c == Mul(A, B)
    ensures r.flops == StrassenCost(|A|)
    ensures |A| <= 2 ==> r == NaiveProduct(A, B)
    decreases |A|
  {
    var n := |A|;
    if n <= 2 then NaiveProduct(A, B)
    else
      var mid := n / 2;
      ScheduleOperands(A, B);
      var a, b := Split(A, mid), Split(B, mid);
      var ops := Schedule(a, b, mid);
      var ps := seq(7, k requires 0 <= k < 7 => Strassen(ops[k].left, ops[k].right));
      SumFlopsUniform(ps, StrassenCost(mid));
      CostStep(mid);
      CombineCorrect(ps, a, b, mid);
      BlockMul(A, B, mid);
      Product(Combine(ps, mid), SumFlops(ps) + 10 * Square(mid))
  }

  /** Above the base case the size is even and each of the seven operand
      pairs is again an acceptable input, of half the size. */
  lemma ScheduleOperands(A: Matrix, B: Matrix)
    requires Multipliable(A, B) && |A| > 2
    ensures |A| == 2 * (|A| / 2)
    ensures var mid := |A| / 2;
            var ops := Schedule(Split(A, mid), Split(B, mid), mid);
            forall k :: 0 <= k < 7 ==> Multipliable(ops[k].left, ops[k].right) && |ops[k].left| == mid
  {
    var mid := |A| / 2;
    assert |A| == 2 * mid && Splittable(mid);
  }

  // ---------------------------------------------------------------------
  // The recombination identities: with exact arithmetic, each quadrant
  // recombined from P1..P7 equals the corresponding quadrant of the block
  // product.

  /** C11 = P5 + P4 - P2 + P6 = A11·B11 + A12·B21. */
  lemma C11Identity(A11: Matrix, A12: Matrix, A22: Matrix, B11: Matrix, B21: Matrix, B22: Matrix, m: nat)
    requires IsSquare(A11, m) && IsSquare(A12, m) && IsSquare(A22, m)
    requires IsSquare(B11, m) && IsSquare(B21, m) && IsSquare(B22, m)
    ensures Add(Sub(Add(Mul(Add(A11, A22), Add(B11, B22)), Mul(A22, Sub(B21, B11))), Mul(Add(A11, A12), B22)),
                Mul(Sub(A12, A22), Add(B21, B22)))
         == Add(Mul(A11, B11), Mul(A12, B21))
  {
    var L := Add(Sub(Add(Mul(Add(A11, A22), Add(B11, B22)), Mul(A22, Sub(B21, B11))), Mul(Add(A11, A12), B22)),
                 Mul(Sub(A12, A22), Add(B21, B22)));
    var R := Add(Mul(A11, B11), Mul(A12, B21));
    forall i, j | 0 <= i < m && 0 <= j < m
      ensures L[i][j] == R[i][j]
    {
      MulSumSumAt(A11, A22, B11, B22, i, j);
      MulSubRightAt(A22, B21, B11, i, j);
      MulAddLeftAt(A11, A12, B22, i, j);
      MulDiffSumAt(A12, A22, B21, B22, i, j);
    }
    MatrixExt(L, R);
  }

  /** C12 = P1 + P2 = A11·B12 + A12·B22. */
  lemma C12Identity(A11: Matrix, A12: Matrix, B12: Matrix, B22: Matrix, m: nat)
    requires IsSquare(A11, m) && IsSquare(A12, m) && IsSquare(B12, m) && IsSquare(B22, m)
    ensures Add(Mul(A11, Sub(B12, B22)), Mul(Add(A11, A12), B22)) == Add(Mul(A11, B12), Mul(A12, B22))
  {
    var L := Add(Mul(A11, Sub(B12, B22)), Mul(Add(A11, A12), B22));
    var R := Add(Mul(A11, B12), Mul(A12, B22));
    forall i, j | 0 <= i < m && 0 <= j < m
      ensures L[i][j] == R[i][j]
    {
      MulSubRightAt(A11, B12, B22, i, j);
      MulAddLeftAt(A11, A12, B22, i, j);
    }
    MatrixExt(L, R);
  }

  /** C21 = P3 + P4 = A21·B11 + A22·B21. */
  lemma C21Identity(A21: Matrix, A22: Matrix, B11: Matrix, B21: Matrix, m: nat)
    requires IsSquare(A21, m) && IsSquare(A22, m) && IsSquare(B11, m) && IsSquare(B21, m)
    ensures Add(Mul(Add(A21, A22), B11), Mul(A22, Sub(B21, B11))) == Add(Mul(A21, B11), Mul(A22, B21))
  {
    var L := Add(Mul(Add(A21, A22), B11), Mul(A22, Sub(B21, B11)));
    var R := Add(Mul(A21, B11), Mul(A22, B21));
    forall i, j | 0 <= i < m && 0 <= j < m
      ensures L[i][j] == R[i][j]
    {
      MulAddLeftAt(A21, A22, B11, i, j);
      MulSubRightAt(A22, B21, B11, i, j);
    }
    MatrixExt(L, R);
  }

  /** C22 = P5 + P1 - P3 - P7 = A21·B12 + A22·B22. */
  lemma C22Identity(A11: Matrix, A21: Matrix, A22: Matrix, B11: Matrix, B12: Matrix, B22: Matrix, m: nat)
    requires IsSquare(A11, m) && IsSquare(A21, m) && IsSquare(A22, m)
    requires IsSquare(B11, m) && IsSquare(B12, m) && IsSquare(B22, m)
    ensures Sub(Sub(Add(Mul(Add(A11, A22), Add(B11, B22)), Mul(A11, Sub(B12, B22))), Mul(Add(A21, A22), B11)),
                Mul(Sub(A11, A21), Add(B11, B12)))
         == Add(Mul(A21, B12), Mul(A22, B22))
  {
    var L := Sub(Sub(Add(Mul(Add(A11, A22), Add(B11, B22)), Mul(A11, Sub(B12, B22))), Mul(Add(A21, A22), B11)),
                 Mul(Sub(A11, A21), Add(B11, B12)));
    var R := Add(Mul(A21, B12), Mul(A22, B22));
    forall i, j | 0 <= i < m && 0 <= j < m
      ensures L[i][j] == R[i][j]
    {
      MulSumSumAt(A11, A22, B11, B22, i, j);
      MulSubRightAt(A11, B12, B22, i, j);
      MulAddLeftAt(A21, A22, B11, i, j);
      MulDiffSumAt(A11, A21, B11, B12, i, j);
    }
    MatrixExt(L, R);
  }

  /** Recombining the exact products of the seven operand pairs of the
      schedule gives the block product. */
  lemma CombineCorrect(ps: seq<Product>, a: Quad, b: Quad, m: nat)
    requires QuadOf(a, m) && QuadOf(b, m) && |ps| == 7
    requires var ops := Schedule(a, b, m);
             forall k :: 0 <= k < 7 ==> ps[k].c == Mul(ops[k].left, ops[k].right)
    ensures Combine(ps, m)
         == Assemble(Add(Mul(a.q11, b.q11), Mul(a.q12, b.q21)), Add(Mul(a.q11, b.q12), Mul(a.q12, b.q22)),
                     Add(Mul(a.q21, b.q11), Mul(a.q22, b.q21)), Add(Mul(a.q21, b.q12), Mul(a.q22, b.q22)))
  {
    C11Identity(a.q11, a.q12, a.q22, b.q11, b.q21, b.q22, m);
    C12Identity(a.q11, a.q12, b.q12, b.q22, m);
    C21Identity(a.q21, a.q22, b.q11, b.q21, m);
    C22Identity(a.q11, a.q21, a.q22, b.q11, b.q12, b.q22, m);
  }

  /** One level of the count's recurrence, on an even size 2h above the
      base case: f(2h) = 7·f(h) + 10·h². */
  lemma CostStep(h: nat)
    requires h >= 2
    ensures StrassenCost(2 * h) == 7 * StrassenCost(h) + 10 * Square(h)
  {
    assert (2 * h) / 2 == h;
  }
}
