/** The final output of NMF: one K × M matrix per component, the outer
    product of column r of W with row r of H. */
module Reconstruction {
  import opened Results
  import opened Matrices
  import opened Ranges

  /** Component r: entry (k, m) is W[k][r]·H[r][m]. */
  function Component(W: Matrix, H: Matrix, r: nat): (C: Matrix)
    requires r < |H| && forall k :: 0 <= k < |W| ==> r < |W[k]|
    ensures IsMatrix(C, |W|, |H[r]|)
    ensures forall k, m :: 0 <= k < |W| && 0 <= m < |H[r]| ==> C[k][m] == W[k][r] * H[r][m]
  {
    Outer(Column(W, r), H[r])
  }

  /** The first n components of W (K × R) and H (R × M). */
  function Components(W: Matrix, H: Matrix, n: nat, K: nat, R: nat, M: nat): (cs: seq<Matrix>)
    requires IsMatrix(W, K, R) && IsMatrix(H, R, M) && n <= R
    ensures |cs| == n
    ensures forall r :: 0 <= r < n ==> IsMatrix(cs[r], K, M)
    ensures forall r :: 0 <= r < n ==> cs[r] == Component(W, H, r)
  {
    seq(n, r requires 0 <= r < n => Component(W, H, r))
  }

  /** Adding up matrices whose entry (k, m) is W[k][r]·H[r][m], for r below
      n, gives entry (k, m) of the product of the first n columns of W with
      the first n rows of H. */
  lemma {:induction false} SumOfOuterProducts(cs: seq<Matrix>, W: Matrix, H: Matrix, n: nat, K: nat, M: nat, k: nat, m: nat)
    requires n <= |cs| && forall r :: 0 <= r < |cs| ==> IsMatrix(cs[r], K, M)
    requires k < K && m < M && k < |W|
    requires n <= |W[k]| && n <= |H| && forall r :: 0 <= r < |H| ==> m < |H[r]|
    requires forall r :: 0 <= r < n ==> IsMatrix(cs[r], K, M) && cs[r][k][m] == W[k][r] * H[r][m]
    ensures AddAll(cs, n, K, M)[k][m] == RowTimesColumn(W[k], H, m, n)
  {
    if n > 0 {
      SumOfOuterProducts(cs, W, H, n - 1, K, M, k, m);
    }
  }

  /** With n equal to the rank R, the components add up to W·H. */
  lemma ComponentsSum(W: Matrix, H: Matrix, K: nat, R: nat, M: nat)
    requires IsMatrix(W, K, R) && IsMatrix(H, R, M)
    ensures AddAll(Components(W, H, R, K, R, M), R, K, M) == MatMul(W, H, M)
  {
    var cs := Components(W, H, R, K, R, M);
    var S, P := AddAll(cs, R, K, M), MatMul(W, H, M);
    forall k | 0 <= k < K
      ensures S[k] == P[k]
    {
      forall m | 0 <= m < M
        ensures S[k][m] == P[k][m]
      {
        SumOfOuterProducts(cs, W, H, R, K, M, k, m);
        RowTimesColumnIsDot(W[k], H, m, R);
      }
    }
  }

  /** The loop over `range(numComp)`: appends component r for r = 0, 1, …;
      indexing a column past the rank R raises, so numComp > R fails. */
  method Reconstruct(W: Matrix, H: Matrix, numComp: int, K: nat, R: nat, M: nat)
    returns (res: Result<seq<Matrix>, NmfError>)
    requires IsMatrix(W, K, R) && IsMatrix(H, R, M)
    ensures RangeLength(numComp) <= R ==> res == Success(Components(W, H, RangeLength(numComp), K, R, M))
    ensures R < RangeLength(numComp) ==> res == Failure(ComponentIndexOutOfRange)
  {
    var nmfV: seq<Matrix> := [];
    var r := 0;
    while r < numComp
      invariant 0 <= r <= RangeLength(numComp) && r <= R
      invariant |nmfV| == r && forall t :: 0 <= t < r ==> nmfV[t] == Component(W, H, t)
    {
      if r >= R {
        return Failure(ComponentIndexOutOfRange);
      }
      nmfV := nmfV + [Component(W, H, r)];
      r := r + 1;
    }
    assert nmfV == Components(W, H, r, K, R, M);
    return Success(nmfV);
  }
}
