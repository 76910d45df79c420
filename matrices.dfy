/** Dense real matrices stored as sequences of rows, with the products,
    elementwise operations, sums and norms the update rules are built from.
    Entries are reals: rounding, overflow and NaN are not modelled. Sums run
    over the first n entries of a vector, so that proofs by induction go
    through the count rather than through shorter and shorter copies. */
module Matrices {

  type Vector = seq<real>
  type Matrix = seq<seq<real>>

  /** The additive floor used against division by zero (2^-52, the spacing of
      doubles at 1.0). Every proof below uses only that it is positive. */
  const EPS: real := 1.0 / 4503599627370496.0

  predicate IsMatrix(A: Matrix, rows: nat, cols: nat) {
    |A| == rows && forall i :: 0 <= i < |A| ==> |A[i]| == cols
  }

  predicate SameShape(A: Matrix, B: Matrix) {
    |A| == |B| && forall i :: 0 <= i < |A| ==> |A[i]| == |B[i]|
  }

  lemma SameShapeOf(A: Matrix, B: Matrix, rows: nat, cols: nat)
    requires IsMatrix(A, rows, cols) && IsMatrix(B, rows, cols)
    ensures SameShape(A, B)
  {
  }

  predicate NonNeg(A: Matrix) {
    forall i, j :: 0 <= i < |A| && 0 <= j < |A[i]| ==> 0.0 <= A[i][j]
  }

  predicate NonNegVector(v: Vector) {
    forall i :: 0 <= i < |v| ==> 0.0 <= v[i]
  }

  // ---------------------------------------------------------------------------
  // Scalars

  /** Division as the engine performs it. Under the engine's preconditions the
      divisor is never zero (see UpdateRules.MulStepExact); a zero divisor,
      which only negative inputs can produce, yields 0 instead of an IEEE
      infinity. */
  function Quot(a: real, b: real): (q: real)
    ensures 0.0 <= a && 0.0 <= b ==> 0.0 <= q
  {
    if b == 0.0 then 0.0 else a / b
  }

  /** With a non-zero divisor Quot is the exact real quotient. */
  lemma QuotTimes(a: real, b: real)
    requires b != 0.0
    ensures Quot(a, b) * b == a
  {
  }

  /** Dividing by d is multiplying by 1/d. */
  lemma QuotAsScale(x: real, d: real)
    ensures Quot(x, d) == x * Quot(1.0, d)
  {
  }

  /** x to the natural power n. */
  function Power(x: real, n: nat): (y: real)
    ensures 0.0 <= x ==> 0.0 <= y
    ensures 0.0 < x ==> 0.0 < y
  {
    if n == 0 then 1.0 else x * Power(x, n - 1)
  }

  /** One step of distributivity, stated on named values so that callers
      never need nonlinear reasoning themselves. */
  lemma Distribute(s: real, x: real, y: real, c: real, xc: real, yc: real)
    requires s == x + y && xc == x * c && yc == y * c
    ensures xc + yc == s * c
  {
  }

  /** s / (EPS + s) lies in [0, 1) for every non-negative s. */
  lemma FractionBelowOne(s: real)
    requires 0.0 <= s
    ensures 0.0 <= Quot(s, EPS + s) < 1.0
  {
    QuotTimes(s, EPS + s);
  }

  // ---------------------------------------------------------------------------
  // Vectors

  /** The sum of the first n entries of v. */
  function Sum(v: Vector, n: nat): real
    requires n <= |v|
  {
    if n == 0 then 0.0 else Sum(v, n - 1) + v[n - 1]
  }

  lemma {:induction false} SumNonNeg(v: Vector, n: nat)
    requires n <= |v| && NonNegVector(v)
    ensures 0.0 <= Sum(v, n)
  {
    if n > 0 {
      SumNonNeg(v, n - 1);
    }
  }

  /** The inner product of the first n entries of a and b. */
  function Dot(a: Vector, b: Vector, n: nat): real
    requires n <= |a| && n <= |b|
  {
    if n == 0 then 0.0 else Dot(a, b, n - 1) + a[n - 1] * b[n - 1]
  }

  lemma {:induction false} DotNonNeg(a: Vector, b: Vector, n: nat)
    requires n <= |a| && n <= |b| && NonNegVector(a) && NonNegVector(b)
    ensures 0.0 <= Dot(a, b, n)
  {
    if n > 0 {
      DotNonNeg(a, b, n - 1);
      assert 0.0 <= a[n - 1] && 0.0 <= b[n - 1];
    }
  }

  /** The sum of the squares of the first n entries of v. */
  function SumSq(v: Vector, n: nat): (s: real)
    requires n <= |v|
    ensures 0.0 <= s
  {
    if n == 0 then 0.0 else SumSq(v, n - 1) + v[n - 1] * v[n - 1]
  }

  lemma {:induction false} SumSqOfZero(v: Vector, n: nat)
    requires n <= |v|
    requires forall i :: 0 <= i < |v| ==> v[i] == 0.0
    ensures SumSq(v, n) == 0.0
  {
    if n > 0 {
      SumSqOfZero(v, n - 1);
    }
  }

  /** v·c, every entry multiplied by the scalar c. */
  function ScaleVec(v: Vector, c: real): (w: Vector)
    ensures |w| == |v|
  {
    seq(|v|, i requires 0 <= i < |v| => v[i] * c)
  }

  /** Scaling commutes with summation. */
  lemma {:induction false} SumScale(v: Vector, c: real, n: nat)
    requires n <= |v|
    ensures Sum(ScaleVec(v, c), n) == Sum(v, n) * c
  {
    if n > 0 {
      SumScale(v, c, n - 1);
      Distribute(Sum(v, n), Sum(v, n - 1), v[n - 1], c,
                 Sum(ScaleVec(v, c), n - 1), ScaleVec(v, c)[n - 1]);
    }
  }

  // ---------------------------------------------------------------------------
  // Shapes, transposes and products

  /** Column j of A. */
  function Column(A: Matrix, j: nat): (c: Vector)
    requires forall i :: 0 <= i < |A| ==> j < |A[i]|
    ensures |c| == |A|
  {
    seq(|A|, i requires 0 <= i < |A| => A[i][j])
  }

  function Transpose(A: Matrix, cols: nat): (T: Matrix)
    requires IsMatrix(A, |A|, cols)
    ensures IsMatrix(T, cols, |A|)
    ensures forall i, j :: 0 <= i < |A| && 0 <= j < cols ==> T[j][i] == A[i][j]
  {
    seq(cols, j requires 0 <= j < cols => Column(A, j))
  }

  /** The matrix product A·B, where B has m columns. */
  function MatMul(A: Matrix, B: Matrix, m: nat): (C: Matrix)
    requires IsMatrix(B, |B|, m)
    requires forall i :: 0 <= i < |A| ==> |A[i]| == |B|
    ensures IsMatrix(C, |A|, m)
    ensures NonNeg(A) && NonNeg(B) ==> NonNeg(C)
  {
    var C := seq(|A|, i requires 0 <= i < |A| =>
                   seq(m, j requires 0 <= j < m => Dot(A[i], Column(B, j), |B|)));
    assert NonNeg(A) && NonNeg(B) ==> NonNeg(C) by {
      if NonNeg(A) && NonNeg(B) {
        forall i, j | 0 <= i < |A| && 0 <= j < m
          ensures 0.0 <= C[i][j]
        {
          DotNonNeg(A[i], Column(B, j), |B|);
        }
      }
    }
    C
  }

  /** The outer product u·vᵗ. */
  function Outer(u: Vector, v: Vector): (P: Matrix)
    ensures IsMatrix(P, |u|, |v|)
  {
    seq(|u|, i requires 0 <= i < |u| => seq(|v|, j requires 0 <= j < |v| => u[i] * v[j]))
  }

  // ---------------------------------------------------------------------------
  // Elementwise operations

  function Zeros(rows: nat, cols: nat): (Z: Matrix)
    ensures IsMatrix(Z, rows, cols)
  {
    seq(rows, i requires 0 <= i < rows => seq(cols, j requires 0 <= j < cols => 0.0))
  }

  function Ones(rows: nat, cols: nat): (U: Matrix)
    ensures IsMatrix(U, rows, cols) && NonNeg(U)
  {
    seq(rows, i requires 0 <= i < rows => seq(cols, j requires 0 <= j < cols => 1.0))
  }

  /** Elementwise product A ⊙ B. */
  function Hadamard(A: Matrix, B: Matrix): (C: Matrix)
    requires SameShape(A, B)
    ensures SameShape(C, A)
    ensures NonNeg(A) && NonNeg(B) ==> NonNeg(C)
  {
    seq(|A|, i requires 0 <= i < |A| =>
      seq(|A[i]|, j requires 0 <= j < |A[i]| => A[i][j] * B[i][j]))
  }

  /** Elementwise quotient A ⊘ B. */
  function Divide(A: Matrix, B: Matrix): (C: Matrix)
    requires SameShape(A, B)
    ensures SameShape(C, A)
    ensures NonNeg(A) && NonNeg(B) ==> NonNeg(C)
  {
    seq(|A|, i requires 0 <= i < |A| =>
      seq(|A[i]|, j requires 0 <= j < |A[i]| => Quot(A[i][j], B[i][j])))
  }

  /** Elementwise sum A + B. */
  function Add(A: Matrix, B: Matrix): (C: Matrix)
    requires SameShape(A, B)
    ensures SameShape(C, A)
    ensures NonNeg(A) && NonNeg(B) ==> NonNeg(C)
  {
    seq(|A|, i requires 0 <= i < |A| =>
      seq(|A[i]|, j requires 0 <= j < |A[i]| => A[i][j] + B[i][j]))
  }

  /** Elementwise difference A - B. */
  function Sub(A: Matrix, B: Matrix): (C: Matrix)
    requires SameShape(A, B)
    ensures SameShape(C, A)
  {
    seq(|A|, i requires 0 <= i < |A| =>
      seq(|A[i]|, j requires 0 <= j < |A[i]| => A[i][j] - B[i][j]))
  }

  /** A + c, the scalar broadcast to every entry. */
  function AddScalar(A: Matrix, c: real): (C: Matrix)
    ensures SameShape(C, A)
    ensures NonNeg(A) && 0.0 <= c ==> NonNeg(C)
  {
    seq(|A|, i requires 0 <= i < |A| =>
      seq(|A[i]|, j requires 0 <= j < |A[i]| => A[i][j] + c))
  }

  /** c·A. */
  function Scale(c: real, A: Matrix): (C: Matrix)
    ensures SameShape(C, A)
    ensures NonNeg(A) && 0.0 <= c ==> NonNeg(C)
  {
    seq(|A|, i requires 0 <= i < |A| =>
      seq(|A[i]|, j requires 0 <= j < |A[i]| => c * A[i][j]))
  }

  /** The elementwise power A ** -n. */
  function NegPower(A: Matrix, n: nat): (C: Matrix)
    ensures SameShape(C, A)
    ensures NonNeg(A) ==> NonNeg(C)
  {
    seq(|A|, i requires 0 <= i < |A| =>
      seq(|A[i]|, j requires 0 <= j < |A[i]| => Quot(1.0, Power(A[i][j], n))))
  }

  /** Every row of A scaled by c. */
  function ScaleRows(A: Matrix, c: real): (B: Matrix)
    ensures |B| == |A|
  {
    seq(|A|, i requires 0 <= i < |A| => ScaleVec(A[i], c))
  }

  // ---------------------------------------------------------------------------
  // Sums and norms

  /** The sum of every row. */
  function RowSums(A: Matrix): (v: Vector)
    ensures |v| == |A|
  {
    seq(|A|, i requires 0 <= i < |A| => Sum(A[i], |A[i]|))
  }

  /** The sum of all entries. */
  function TotalSum(A: Matrix): real {
    Sum(RowSums(A), |A|)
  }

  lemma TotalSumNonNeg(A: Matrix)
    requires NonNeg(A)
    ensures 0.0 <= TotalSum(A)
  {
    forall i | 0 <= i < |A|
      ensures 0.0 <= RowSums(A)[i]
    {
      SumNonNeg(A[i], |A[i]|);
    }
    SumNonNeg(RowSums(A), |A|);
  }

  lemma RowSumsScale(A: Matrix, c: real)
    ensures RowSums(ScaleRows(A, c)) == ScaleVec(RowSums(A), c)
  {
    var B := ScaleRows(A, c);
    forall i | 0 <= i < |A|
      ensures RowSums(B)[i] == ScaleVec(RowSums(A), c)[i]
    {
      SumScale(A[i], c, |A[i]|);
    }
  }

  /** Scaling every entry scales the total. */
  lemma TotalSumScale(A: Matrix, c: real)
    ensures TotalSum(ScaleRows(A, c)) == TotalSum(A) * c
  {
    RowSumsScale(A, c);
    SumScale(RowSums(A), c, |A|);
  }

  /** The sum of every column, a row vector of length cols. */
  function ColumnSums(A: Matrix, cols: nat): (v: Vector)
    requires IsMatrix(A, |A|, cols)
    ensures |v| == cols
  {
    seq(cols, j requires 0 <= j < cols => Sum(Column(A, j), |A|))
  }

  /** The squared Frobenius norm of the first n rows of A. */
  function FrobSq(A: Matrix, n: nat): (s: real)
    requires n <= |A|
    ensures 0.0 <= s
  {
    if n == 0 then 0.0 else FrobSq(A, n - 1) + SumSq(A[n - 1], |A[n - 1]|)
  }

  /** A matrix whose entries are all zero has squared norm zero. */
  lemma {:induction false} FrobSqOfZero(Z: Matrix, n: nat)
    requires n <= |Z|
    requires forall i, j :: 0 <= i < |Z| && 0 <= j < |Z[i]| ==> Z[i][j] == 0.0
    ensures FrobSq(Z, n) == 0.0
  {
    if n > 0 {
      FrobSqOfZero(Z, n - 1);
      SumSqOfZero(Z[n - 1], |Z[n - 1]|);
    }
  }

  lemma SubSelfIsZero(A: Matrix)
    ensures FrobSq(Sub(A, A), |A|) == 0.0
  {
    FrobSqOfZero(Sub(A, A), |A|);
  }

  /** The squared distance between the first n entries of u and v. */
  function DiffSq(u: Vector, v: Vector, n: nat): (s: real)
    requires n <= |u| && n <= |v|
    ensures 0.0 <= s
  {
    if n == 0 then 0.0 else DiffSq(u, v, n - 1) + (u[n - 1] - v[n - 1]) * (u[n - 1] - v[n - 1])
  }

  /** ‖A − B‖² over the first n rows, summed entry by entry without forming
      A − B. */
  function DistSq(A: Matrix, B: Matrix, n: nat): (s: real)
    requires SameShape(A, B) && n <= |A|
    ensures 0.0 <= s
  {
    if n == 0 then 0.0 else DistSq(A, B, n - 1) + DiffSq(A[n - 1], B[n - 1], |A[n - 1]|)
  }

  lemma {:induction false} DiffSqAsSumSq(u: Vector, v: Vector, d: Vector, n: nat)
    requires n <= |u| && n <= |v| && n <= |d|
    requires forall j :: 0 <= j < n ==> d[j] == u[j] - v[j]
    ensures DiffSq(u, v, n) == SumSq(d, n)
  {
    if n > 0 {
      DiffSqAsSumSq(u, v, d, n - 1);
    }
  }

  /** DistSq is the squared Frobenius norm of the difference. */
  lemma {:induction false} DistSqAsFrobSq(A: Matrix, B: Matrix, n: nat)
    requires SameShape(A, B) && n <= |A|
    ensures DistSq(A, B, n) == FrobSq(Sub(A, B), n)
  {
    if n > 0 {
      DistSqAsFrobSq(A, B, n - 1);
      DiffSqAsSumSq(A[n - 1], B[n - 1], Sub(A, B)[n - 1], |A[n - 1]|);
    }
  }

  /** A matrix is at distance zero from itself. */
  lemma {:induction false} DistSqSelf(A: Matrix, n: nat)
    requires n <= |A|
    ensures DistSq(A, A, n) == 0.0
  {
    if n > 0 {
      DistSqSelf(A, n - 1);
      DiffSqSelf(A[n - 1], |A[n - 1]|);
    }
  }

  lemma {:induction false} DiffSqSelf(u: Vector, n: nat)
    requires n <= |u|
    ensures DiffSq(u, u, n) == 0.0
  {
    if n > 0 {
      DiffSqSelf(u, n - 1);
    }
  }

  /** Entry j of the row vector u·B, over the first n entries of u. */
  function RowTimesColumn(u: Vector, B: Matrix, j: nat, n: nat): real
    requires n <= |u| && n <= |B| && forall r :: 0 <= r < |B| ==> j < |B[r]|
  {
    if n == 0 then 0.0 else RowTimesColumn(u, B, j, n - 1) + u[n - 1] * B[n - 1][j]
  }

  lemma {:induction false} RowTimesColumnIsDot(u: Vector, B: Matrix, j: nat, n: nat)
    requires n <= |u| && n <= |B| && forall r :: 0 <= r < |B| ==> j < |B[r]|
    ensures RowTimesColumn(u, B, j, n) == Dot(u, Column(B, j), n)
  {
    if n > 0 {
      RowTimesColumnIsDot(u, B, j, n - 1);
    }
  }

  /** Σ over the first m columns j of (a[j] − (u·B)[j])²: how far row a is
      from the row u·B. */
  function RowResidualSq(a: Vector, u: Vector, B: Matrix, m: nat): (s: real)
    requires m <= |a| && |u| == |B| && forall r :: 0 <= r < |B| ==> m <= |B[r]|
    ensures 0.0 <= s
  {
    if m == 0 then 0.0
    else
      var e := a[m - 1] - RowTimesColumn(u, B, m - 1, |B|);
      RowResidualSq(a, u, B, m - 1) + e * e
  }

  /** ‖V − W·H‖² over the first k rows, summed entry by entry without forming
      W·H. */
  function ResidualSq(V: Matrix, W: Matrix, H: Matrix, k: nat, m: nat): (s: real)
    requires k <= |V| && |V| == |W| && IsMatrix(V, |V|, m) && IsMatrix(H, |H|, m)
    requires forall i :: 0 <= i < |W| ==> |W[i]| == |H|
    ensures 0.0 <= s
  {
    if k == 0 then 0.0 else ResidualSq(V, W, H, k - 1, m) + RowResidualSq(V[k - 1], W[k - 1], H, m)
  }

  lemma {:induction false} RowResidualSqAsSumSq(a: Vector, u: Vector, B: Matrix, d: Vector, m: nat)
    requires m <= |a| && m <= |d| && |u| == |B| && forall r :: 0 <= r < |B| ==> m <= |B[r]|
    requires forall j :: 0 <= j < m ==> d[j] == a[j] - RowTimesColumn(u, B, j, |B|)
    ensures RowResidualSq(a, u, B, m) == SumSq(d, m)
  {
    if m > 0 {
      RowResidualSqAsSumSq(a, u, B, d, m - 1);
    }
  }

  /** ResidualSq is the squared Frobenius norm of V − W·H. */
  lemma {:induction false} ResidualSqAsFrobSq(V: Matrix, W: Matrix, H: Matrix, k: nat, m: nat)
    requires k <= |V| && |V| == |W| && IsMatrix(V, |V|, m) && IsMatrix(H, |H|, m)
    requires forall i :: 0 <= i < |W| ==> |W[i]| == |H|
    ensures SameShape(V, MatMul(W, H, m))
    ensures ResidualSq(V, W, H, k, m) == FrobSq(Sub(V, MatMul(W, H, m)), k)
  {
    var P := MatMul(W, H, m);
    SameShapeOf(V, P, |V|, m);
    if k > 0 {
      ResidualSqAsFrobSq(V, W, H, k - 1, m);
      var d := Sub(V, P)[k - 1];
      forall j | 0 <= j < m
        ensures d[j] == V[k - 1][j] - RowTimesColumn(W[k - 1], H, j, |H|)
      {
        RowTimesColumnIsDot(W[k - 1], H, j, |H|);
      }
      RowResidualSqAsSumSq(V[k - 1], W[k - 1], H, d, m);
    }
  }

  /** The elementwise sum of the first n of a list of rows × cols matrices. */
  function AddAll(Ms: seq<Matrix>, n: nat, rows: nat, cols: nat): (S: Matrix)
    requires n <= |Ms|
    requires forall t :: 0 <= t < |Ms| ==> IsMatrix(Ms[t], rows, cols)
    ensures IsMatrix(S, rows, cols)
  {
    if n == 0 then Zeros(rows, cols)
    else
      var S := AddAll(Ms, n - 1, rows, cols);
      SameShapeOf(S, Ms[n - 1], rows, cols);
      Add(S, Ms[n - 1])
  }
}
