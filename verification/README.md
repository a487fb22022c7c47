# Naive and Strassen matrix multiplication, with operation counts

The repository compares two ways of multiplying square matrices:

- `naive_method` is the triple loop. It adds `A[i, k] * B[k, j]` into a zero matrix and counts two floating-point operations (flops) per innermost step.
- `strassen_method` is Strassen's recursion:
  - Operands of size at most 2 go to the naive method.
  - Larger operands are cut into quadrants, and the ten sums and differences S1..S10 are formed.
  - The seven half-size products P1..P7 are computed recursively.
  - The four result quadrants are recombined from them and written into a zero matrix.
  - The count is the seven recursive counts plus `10 * (n // 2) ** 2`.

The two files `matrixmult.py` and `ex2.py` hold the same two functions; `ex2.py` drops the docstrings.

The model uses exact integers for the entries. It consists of:

- `matrices.dfy`: matrices as `seq<seq<int>>`, the reference product `Mul` as row-by-column inner products, quadrant extraction (`Block`), slice assignment (`WriteBlock`) and assembly from four corners (`Assemble`).
- `naive.dfy`: the triple loop as a method (`NaiveMethod`) and as a value (`NaiveProduct`).
- `strassen.dfy`: the recursion as a total function `Strassen` on the sizes it accepts, together with its count `StrassenCost`.
- `cost.dfy`: consequences of the count recurrence.

Dafny sequences are values, so no operation can change its operands. The operands are therefore only read, as in the source, where every quadrant and S-matrix is a fresh array or a view that is never written.

## Model

| member | source | states |
|---|---|---|
| Naive.NaiveMethod | matrixmult.py:20-44 | the loop returns an n×n matrix whose entry (i, j) is the inner product of row i of A and column j of B; the count is 2n³; and the pair equals `NaiveProduct` |
| Strassen.Strassen | matrixmult.py:46-106 | on n×n operands with n zero or a power of two: terminates; returns exactly the product `Mul(A, B)`; its count satisfies f(n) = 2n³ for n ≤ 2 and f(n) = 7·f(n/2) + 10·(n/2)² above; for n ≤ 2 returns the naive result unchanged |
| Strassen.SplittableIffPowerOfTwo | matrixmult.py:53-54 | the sizes on which every halving stays even down to the base case are exactly 0 and the powers of two |
| Strassen.ScheduleOperands | ex2.py:32-60 | above the base case n is even, and each of the seven recursive calls gets two (n/2)×(n/2) operands of an accepted size, which is strictly smaller |
| Strassen.C11Identity | matrixmult.py:96 | P5 + P4 - P2 + P6, with P's built from S1..S10, equals A11·B11 + A12·B21 |
| Strassen.C12Identity | ex2.py:65 | P1 + P2 equals A11·B12 + A12·B22 |
| Strassen.C21Identity | matrixmult.py:98 | P3 + P4 equals A21·B11 + A22·B21 |
| Strassen.C22Identity | ex2.py:67 | P5 + P1 - P3 - P7 equals A21·B12 + A22·B22 |
| Strassen.CombineCorrect | ex2.py:43-73 | writing the four recombinations of the seven exact products into a zero matrix gives the block form of A·B |
| Strassen.CostStep | ex2.py:62 | one level of the count recurrence: f(2h) = 7·f(h) + 10·h² for h ≥ 2 |
| Strassen.SumFlopsUniform | matrixmult.py:94 | seven recursive results that each report f total 7·f |
| Matrices.Assemble | matrixmult.py:101-105 | the zero matrix with the four corners written is 2m×2m, and each entry comes from exactly the quadrant it falls in, so the four writes partition the result |
| Matrices.SplitAssemble | ex2.py:69-73 | splitting an assembled matrix gives back its four quadrants |
| Matrices.AssembleSplit | ex2.py:32-40 | assembling the four quadrants of an even-sized square matrix gives back the matrix |
| Matrices.BlockMul | ex2.py:33-40 | the quadrants of A·B are A11·B11 + A12·B21, A11·B12 + A12·B22, A21·B11 + A22·B21 and A21·B12 + A22·B22 |
| Matrices.MulAddLeftAt | matrixmult.py:75-84 | the entrywise sum used for S2, S3, S5, S6, S8 and S10 distributes over the product from the left: entry (i, j) of (X + Y)·Z is that of X·Z plus that of Y·Z |
| Matrices.MulSubRightAt | ex2.py:43-52 | the entrywise difference used for S1, S4, S7 and S9 distributes over the product from the right: entry (i, j) of X·(Y − Z) is that of X·Y minus that of X·Z |
| CostModel.StrassenCostClosedForm | matrixmult.py:94 | the count on 2^(k+1)×2^(k+1) operands is (88·7^k − 40·4^k)/3, i.e. of order n^(log2 7) |
| CostModel.CostTable | ex2.py:62 | the count is 152, 1224, 9208, 67016 and 479352 at the sizes 4, 8, 16, 32 and 64 |
| CostModel.StrassenCheaperFrom64 | matrixmult.py:86-94 | from size 64 upwards Strassen reports strictly fewer flops than 2n³ |
| CostModel.StrassenDearerBelow64 | ex2.py:54-62 | at the sizes 4, 8, 16 and 32 Strassen reports more flops than 2n³ |
| CostModel.CostsAgreeOnlyAtBaseCase | matrixmult.py:61-62 | on every accepted size, the two counts are equal exactly when n ≤ 2, where Strassen defers to the naive method |

## Left out

- `generate_matrices` (matrixmult.py:5-18) draws seeded random floats; randomness is outside the model, and any integer operands may be supplied.
- The driver (matrixmult.py:108-126) times both methods and prints the results. It is I/O and clock reading only.
- Floating-point arithmetic: entries are exact integers, so the model proves the algebraic identity Strassen's method relies on, not agreement up to rounding of float64 results.
- Operands whose size is not zero or a power of two are excluded by `Multipliable`, following the docstring's requirement at matrixmult.py:53-54. On every such size above 2, `strassen_method` raises instead of returning, and the exception is not modelled:
  - For odd n ≥ 5, `S1 = B12 - B22` (matrixmult.py:75) combines shapes (n//2, n//2+1) and (n//2+1, n//2+1), which do not broadcast, so NumPy raises `ValueError`.
  - For n = 3, lines 75-84 do broadcast. Then `strassen_method(S3, B11)` (line 88) hands a 2×2 `S3` and a 1×1 `B11` to `naive_method`, and `B[k, j]` at line 41 raises `IndexError`.
  - Every other such n halves (line 64) down to an odd size of at least 3, and then one of the two cases above applies.
  - So on square operands of equal size, `Multipliable` accepts exactly the sizes on which the source returns a result.
- Non-square operands, or operands of different sizes, are not accepted either. The source does not check dimensions; it relies on the same docstring requirement, so no mismatch error is modelled.
- The count ignores the four recombination sums and the final writes into the result, exactly as matrixmult.py:94 does; the model reproduces that count and does not add the missing operations.
