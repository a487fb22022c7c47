/** The operation-count model of the two methods on power-of-two sizes:
    a closed form for Strassen's count, and where it falls below the naive
    count 2n³.  These are facts about the costing convention alone (ten
    combinations counted per level, the four recombination sums not
    counted). */
module CostModel {
  import opened Naive
  import opened Strassen

  /** (2^k)² = 4^k. */
  lemma {:induction false} SquarePowTwo(k: nat)
    ensures Square(Pow(2, k)) == Pow(4, k)
  {
    if k > 0 {
      SquarePowTwo(k - 1);
      var p := Pow(2, k - 1);
      assert Pow(2, k) == 2 * p;
      assert Square(2 * p) == 4 * Square(p);
    }
  }

  /** Halving 2^(k+1) gives 2^k, and 2^(k+1) is above the base case once
      k >= 1. */
  lemma PowTwoHalf(k: nat)
    ensures Pow(2, k + 1) / 2 == Pow(2, k)
    ensures k >= 1 ==> Pow(2, k + 1) > 2
  {
    if k >= 1 {
      assert Pow(2, k) == 2 * Pow(2, k - 1);
      PowPositive(2, k - 1);
    }
  }

  /** A power of a positive base is positive. */
  lemma {:induction false} PowPositive(b: nat, k: nat)
    requires b > 0
    ensures Pow(b, k) > 0
  {
    if k > 0 {
      PowPositive(b, k - 1);
    }
  }

  /** Closed form of the recurrence: 3·f(2^(k+1)) = 88·7^k - 40·4^k.
      In particular f grows like 7^k = n^(log2 7) up to a constant. */
  lemma {:induction false} StrassenCostClosedForm(k: nat)
    ensures 3 * StrassenCost(Pow(2, k + 1)) == 88 * Pow(7, k) - 40 * Pow(4, k)
  {
    if k == 0 {
      assert Pow(2, 1) == 2;
    } else {
      StrassenCostClosedForm(k - 1);
      PowTwoHalf(k);
      SquarePowTwo(k);
      assert StrassenCost(Pow(2, k + 1)) == 7 * StrassenCost(Pow(2, k)) + 10 * Pow(4, k);
    }
  }

  /** Doubling the size multiplies the naive count by eight. */
  lemma NaiveCostDouble(h: nat)
    ensures NaiveCost(2 * h) == 8 * NaiveCost(h)
  {
    assert (2 * h) * (2 * h) * (2 * h) == 8 * (h * h * h);
  }

  /** From size 5 on, the ten combinations of one level cost no more than a
      naive product of the halves. */
  lemma CombinationsBelowNaive(h: nat)
    requires h >= 5
    ensures 10 * Square(h) <= NaiveCost(h)
  {
    assert NaiveCost(h) == (2 * h) * (h * h);
    assert 10 * (h * h) <= (2 * h) * (h * h);
  }

  /** From 64 upwards Strassen's count is strictly below the naive count. */
  lemma {:induction false} StrassenCheaperFrom64(k: nat)
    requires k >= 6
    ensures StrassenCost(Pow(2, k)) < NaiveCost(Pow(2, k))
  {
    if k == 6 {
      assert Pow(2, 6) == 64;
      CostTable();
    } else {
      StrassenCheaperFrom64(k - 1);
      var h := Pow(2, k - 1);
      assert h >= 64 by { PowMonotone(k - 1, 6); }
      assert Pow(2, k) == 2 * h;
      CostStep(h);
      NaiveCostDouble(h);
      CombinationsBelowNaive(h);
    }
  }

  /** Powers of two grow with the exponent. */
  lemma {:induction false} PowMonotone(k: nat, j: nat)
    requires j <= k
    ensures Pow(2, j) <= Pow(2, k)
  {
    if j < k {
      PowMonotone(k - 1, j);
      PowPositive(2, k - 1);
    }
  }

  /** Strassen's count at the sizes 4 to 64. */
  lemma CostTable()
    ensures StrassenCost(4) == 152 && StrassenCost(8) == 1224 && StrassenCost(16) == 9208
    ensures StrassenCost(32) == 67016 && StrassenCost(64) == 479352
  {
    CostStep(2);
    CostStep(4);
    CostStep(8);
    CostStep(16);
    CostStep(32);
  }

  /** At the sizes 4, 8, 16 and 32 Strassen's count exceeds the naive
      count: 152 > 128, 1224 > 1024, 9208 > 8192, 67016 > 65536. */
  lemma StrassenDearerBelow64(k: nat)
    requires 2 <= k <= 5
    ensures StrassenCost(Pow(2, k)) > NaiveCost(Pow(2, k))
  {
    CostTable();
    assert Pow(2, 2) == 4 && Pow(2, 3) == 8 && Pow(2, 4) == 16 && Pow(2, 5) == 32;
  }

  /** The powers of two at most 2 are 2^0 and 2^1. */
  lemma PowTwoAtMostTwo(k: nat)
    ensures k <= 1 <==> Pow(2, k) <= 2
  {
    if k >= 2 {
      PowMonotone(k, 2);
      assert Pow(2, 2) == 4;
    }
  }

  /** On every size the recursion accepts, the two counts coincide exactly
      at the base case, where Strassen defers to the naive method. */
  lemma CostsAgreeOnlyAtBaseCase(n: nat)
    requires Splittable(n)
    ensures StrassenCost(n) == NaiveCost(n) <==> n <= 2
  {
    if n > 2 {
      SplittableIffPowerOfTwo(n);
      var k: nat :| Pow(2, k) == n;
      PowTwoAtMostTwo(k);
      if k <= 5 {
        StrassenDearerBelow64(k);
      } else {
        StrassenCheaperFrom64(k);
      }
    }
  }
}
