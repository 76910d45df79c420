/** The rescaling of V to unit sum. V is the caller's own two-dimensional
    array and is divided in place, so the caller sees the rescaled V after
    the call. */
module Normalization {
  import opened Matrices

  /** The entries of a two-dimensional array as a matrix of rows. */
  function Contents(V: array2<real>): (A: Matrix)
    reads V
    ensures IsMatrix(A, V.Length0, V.Length1)
    ensures forall i, j :: 0 <= i < V.Length0 && 0 <= j < V.Length1 ==> A[i][j] == V[i, j]
  {
    seq(V.Length0, i requires 0 <= i < V.Length0 reads V =>
      seq(V.Length1, j requires 0 <= j < V.Length1 reads V => V[i, j]))
  }

  /** V divided by EPS plus its total. */
  function NormalizeV(A: Matrix): (B: Matrix)
    ensures SameShape(B, A)
    ensures NonNeg(A) ==> NonNeg(B)
  {
    var d := EPS + TotalSum(A);
    assert NonNeg(A) ==> 0.0 <= d by {
      if NonNeg(A) {
        TotalSumNonNeg(A);
      }
    }
    seq(|A|, i requires 0 <= i < |A| =>
      seq(|A[i]|, j requires 0 <= j < |A[i]| => Quot(A[i][j], d)))
  }

  /** Dividing by EPS + S is scaling every entry by 1 / (EPS + S). */
  lemma NormalizeVAsScale(A: Matrix)
    ensures NormalizeV(A) == ScaleRows(A, Quot(1.0, EPS + TotalSum(A)))
  {
    var d := EPS + TotalSum(A);
    var B, C := NormalizeV(A), ScaleRows(A, Quot(1.0, d));
    forall i | 0 <= i < |A|
      ensures B[i] == C[i]
    {
      forall j | 0 <= j < |A[i]|
        ensures B[i][j] == C[i][j]
      {
        QuotAsScale(A[i][j], d);
      }
    }
  }

  /** After rescaling, V sums to S / (EPS + S), S its total before; for a
      non-negative V that lies in [0, 1). */
  lemma NormalizedTotal(A: Matrix)
    ensures TotalSum(NormalizeV(A)) == Quot(TotalSum(A), EPS + TotalSum(A))
    ensures NonNeg(A) ==> 0.0 <= TotalSum(NormalizeV(A)) < 1.0
  {
    var S := TotalSum(A);
    NormalizeVAsScale(A);
    TotalSumScale(A, Quot(1.0, EPS + S));
    QuotAsScale(S, EPS + S);
    if NonNeg(A) {
      TotalSumNonNeg(A);
      FractionBelowOne(S);
    }
  }

  /** Rescales V in place to unit sum: the total is taken first, then every
      entry is divided by EPS plus that total. */
  method NormalizeInPlace(V: array2<real>)
    modifies V
    ensures Contents(V) == NormalizeV(old(Contents(V)))
  {
    ghost var A := Contents(V);
    var d := EPS + TotalSum(Contents(V));
    var i := 0;
    while i < V.Length0
      invariant 0 <= i <= V.Length0
      invariant forall a, b :: 0 <= a < i && 0 <= b < V.Length1 ==> V[a, b] == Quot(A[a][b], d)
      invariant forall a, b :: i <= a < V.Length0 && 0 <= b < V.Length1 ==> V[a, b] == A[a][b]
    {
      var j := 0;
      while j < V.Length1
        invariant 0 <= j <= V.Length1
        invariant forall a, b :: 0 <= a < i && 0 <= b < V.Length1 ==> V[a, b] == Quot(A[a][b], d)
        invariant forall b :: 0 <= b < j ==> V[i, b] == Quot(A[i][b], d)
        invariant forall a, b :: i <= a < V.Length0 && 0 <= b < V.Length1 && (a != i || j <= b) ==> V[a, b] == A[a][b]
      {
        V[i, j] := Quot(V[i, j], d);
        j := j + 1;
      }
      i := i + 1;
    }
    ghost var B := NormalizeV(A);
    forall a | 0 <= a < V.Length0
      ensures Contents(V)[a] == B[a]
    {
    }
  }
}
