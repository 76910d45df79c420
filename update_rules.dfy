/** The multiplicative update rules of one NMF iteration (Lee and Seung,
    "Algorithms for Non-negative Matrix Factorization"): the choice of rule
    from the cost function and regulariser tags, the W and H updates of each
    rule, and the renormalisation of the columns of W. */
module UpdateRules {
  import opened Results
  import opened Matrices
  import opened Parameters

  /** The regularisation variants of the Euclidean rule. `Unrecognised` is any
      reg value other than the five tags: no update applies to it. */
  datatype Penalty = NoPenalty | FrobW | FrobH | L1W | L1H | Unrecognised

  /** The update-rule family chosen by the cost function tag. */
  datatype Rule = EucDist(reg: Penalty) | KLDiv | ISDiv

  /** The sizes K (rows of V and W), R (rank) and M (columns of V and H). */
  datatype Dims = Dims(K: nat, R: nat, M: nat)

  /** What stays fixed during the iterations: the sizes, the rescaled V, the
      fixW flag and the regularising constant p. */
  datatype Problem = Problem(d: Dims, V: Matrix, fixW: bool, p: real)

  /** V is K × M, W is K × R and H is R × M. */
  predicate Shaped(pb: Problem, W: Matrix, H: Matrix) {
    IsMatrix(pb.V, pb.d.K, pb.d.M) && IsMatrix(W, pb.d.K, pb.d.R) && IsMatrix(H, pb.d.R, pb.d.M)
  }

  /** Every update rule keeps W and H non-negative when V, W, H and p are. */
  predicate NonNegInputs(pb: Problem, W: Matrix, H: Matrix) {
    NonNeg(pb.V) && NonNeg(W) && NonNeg(H) && 0.0 <= pb.p
  }

  /** The dispatch on the reg tag inside the Euclidean branch: each of the
      five tags selects its own variant. */
  function SelectPenalty(reg: Value): (pen: Penalty)
    ensures pen == NoPenalty <==> reg == Str("None")
    ensures pen == FrobW <==> reg == Str("FrobW")
    ensures pen == FrobH <==> reg == Str("FrobH")
    ensures pen == L1W <==> reg == Str("1W")
    ensures pen == L1H <==> reg == Str("1H")
    ensures pen == Unrecognised <==>
              reg !in {Str("None"), Str("FrobW"), Str("FrobH"), Str("1W"), Str("1H")}
  {
    if reg == Str("None") then NoPenalty
    else if reg == Str("FrobW") then FrobW
    else if reg == Str("FrobH") then FrobH
    else if reg == Str("1W") then L1W
    else if reg == Str("1H") then L1H
    else Unrecognised
  }

  /** The dispatch on the cost function tag; None stands for the
      'Unknown cost function' error. */
  function SelectRule(costFunc: Value, reg: Value): (rule: Option<Rule>)
    ensures rule.Some? <==> costFunc in {Str("EucDist"), Str("KLDiv"), Str("ISDiv")}
    ensures rule == Some(KLDiv) <==> costFunc == Str("KLDiv")
    ensures rule == Some(ISDiv) <==> costFunc == Str("ISDiv")
    ensures costFunc == Str("EucDist") ==> rule == Some(EucDist(SelectPenalty(reg)))
    ensures rule == Some(EucDist(Unrecognised)) <==>
              costFunc == Str("EucDist") && reg !in {Str("None"), Str("FrobW"), Str("FrobH"), Str("1W"), Str("1H")}
  {
    if costFunc == Str("EucDist") then Some(EucDist(SelectPenalty(reg)))
    else if costFunc == Str("KLDiv") then Some(KLDiv)
    else if costFunc == Str("ISDiv") then Some(ISDiv)
    else None
  }

  /** Λ = EPS + W·H, the model estimate with the numeric floor. */
  function Lambda(d: Dims, W: Matrix, H: Matrix): (lam: Matrix)
    requires IsMatrix(W, d.K, d.R) && IsMatrix(H, d.R, d.M)
    ensures IsMatrix(lam, d.K, d.M)
    ensures NonNeg(W) && NonNeg(H) ==> NonNeg(lam)
  {
    AddScalar(MatMul(W, H, d.M), EPS)
  }

  /** For non-negative W and H every entry of Λ is at least EPS, so the
      divisions by Λ in the KL and IS rules never divide by zero. */
  lemma LambdaFloor(d: Dims, W: Matrix, H: Matrix)
    requires IsMatrix(W, d.K, d.R) && IsMatrix(H, d.R, d.M) && NonNeg(W) && NonNeg(H)
    ensures forall k, m :: 0 <= k < d.K && 0 <= m < d.M ==> EPS <= Lambda(d, W, H)[k][m]
  {
  }

  /** X ⊙ (Num ⊘ (Den + EPS)), the common form of every multiplicative
      update. */
  function MulStep(X: Matrix, Num: Matrix, Den: Matrix, rows: nat, cols: nat): (Y: Matrix)
    requires IsMatrix(X, rows, cols) && IsMatrix(Num, rows, cols) && IsMatrix(Den, rows, cols)
    ensures IsMatrix(Y, rows, cols)
    ensures NonNeg(X) && NonNeg(Num) && NonNeg(Den) ==> NonNeg(Y)
  {
    SameShapeOf(Num, Den, rows, cols);
    var ratio := Divide(Num, AddScalar(Den, EPS));
    SameShapeOf(X, ratio, rows, cols);
    Hadamard(X, ratio)
  }

  /** With a non-negative denominator the divisor is at least EPS, so every
      entry of the update is the exact real quotient. */
  lemma MulStepExact(X: Matrix, Num: Matrix, Den: Matrix, rows: nat, cols: nat, i: nat, j: nat)
    requires IsMatrix(X, rows, cols) && IsMatrix(Num, rows, cols) && IsMatrix(Den, rows, cols)
    requires NonNeg(Den) && i < rows && j < cols
    ensures EPS <= Den[i][j] + EPS
    ensures MulStep(X, Num, Den, rows, cols)[i][j] == X[i][j] * (Num[i][j] / (Den[i][j] + EPS))
  {
  }

  /** The numerator the W update multiplies by: V·Hᵗ (Euclidean),
      (V ⊘ Λ)·Hᵗ (KL) or (Λ^-2 ⊙ V)·Hᵗ (IS). */
  function WNumerator(rule: Rule, pb: Problem, H: Matrix, lam: Matrix): (N: Matrix)
    requires IsMatrix(pb.V, pb.d.K, pb.d.M) && IsMatrix(H, pb.d.R, pb.d.M)
    requires IsMatrix(lam, pb.d.K, pb.d.M)
    ensures IsMatrix(N, pb.d.K, pb.d.R)
    ensures NonNeg(pb.V) && NonNeg(H) && NonNeg(lam) ==> NonNeg(N)
  {
    var d, V := pb.d, pb.V;
    var Ht := Transpose(H, d.M);
    SameShapeOf(V, lam, d.K, d.M);
    match rule
    case EucDist(_) => MatMul(V, Ht, d.R)
    case KLDiv => MatMul(Divide(V, lam), Ht, d.R)
    case ISDiv => MatMul(Hadamard(NegPower(lam, 2), V), Ht, d.R)
  }

  /** The denominator of the W update, before EPS is added: Λ·Hᵗ, plus p·W
      for FrobW or plus p for 1W (Euclidean), 1·Hᵗ (KL) or Λ^-1·Hᵗ (IS). */
  function WDenominator(rule: Rule, pb: Problem, W: Matrix, H: Matrix, lam: Matrix): (D: Matrix)
    requires Shaped(pb, W, H) && IsMatrix(lam, pb.d.K, pb.d.M)
    ensures IsMatrix(D, pb.d.K, pb.d.R)
    ensures NonNeg(W) && NonNeg(H) && NonNeg(lam) && 0.0 <= pb.p ==> NonNeg(D)
  {
    var d, p := pb.d, pb.p;
    var Ht := Transpose(H, d.M);
    match rule
    case EucDist(reg) =>
      var den := MatMul(lam, Ht, d.R);
      SameShapeOf(den, W, d.K, d.R);
      if reg == FrobW then Add(den, Scale(p, W))
      else if reg == L1W then AddScalar(den, p)
      else den
    case KLDiv => MatMul(Ones(d.K, d.M), Ht, d.R)
    case ISDiv => MatMul(NegPower(lam, 1), Ht, d.R)
  }

  /** The update of W (templates) for a rule, from the current V, W, H and
      the Λ of this iteration. An unrecognised regulariser leaves W as is. */
  function WUpdate(rule: Rule, pb: Problem, W: Matrix, H: Matrix, lam: Matrix): (W': Matrix)
    requires Shaped(pb, W, H) && IsMatrix(lam, pb.d.K, pb.d.M)
    ensures IsMatrix(W', pb.d.K, pb.d.R)
    ensures NonNegInputs(pb, W, H) && NonNeg(lam) ==> NonNeg(W')
  {
    if rule == EucDist(Unrecognised) then W
    else MulStep(W, WNumerator(rule, pb, H, lam), WDenominator(rule, pb, W, H, lam), pb.d.K, pb.d.R)
  }

  /** The numerator the H update multiplies by: Wᵗ·V (Euclidean),
      Wᵗ·(V ⊘ Λ) (KL) or Wᵗ·(Λ^-2 ⊙ V) (IS). */
  function HNumerator(rule: Rule, pb: Problem, W: Matrix, lam: Matrix): (N: Matrix)
    requires IsMatrix(pb.V, pb.d.K, pb.d.M) && IsMatrix(W, pb.d.K, pb.d.R)
    requires IsMatrix(lam, pb.d.K, pb.d.M)
    ensures IsMatrix(N, pb.d.R, pb.d.M)
    ensures NonNeg(pb.V) && NonNeg(W) && NonNeg(lam) ==> NonNeg(N)
  {
    var d, V := pb.d, pb.V;
    var Wt := Transpose(W, d.R);
    SameShapeOf(V, lam, d.K, d.M);
    match rule
    case EucDist(_) => MatMul(Wt, V, d.M)
    case KLDiv => MatMul(Wt, Divide(V, lam), d.M)
    case ISDiv => MatMul(Wt, Hadamard(NegPower(lam, 2), V), d.M)
  }

  /** The denominator of the H update, before EPS is added: Wᵗ·Λ, plus p·H
      for FrobH or plus p for 1H (Euclidean), Wᵗ·1 (KL) or Wᵗ·Λ^-1 (IS). */
  function HDenominator(rule: Rule, pb: Problem, W: Matrix, H: Matrix, lam: Matrix): (D: Matrix)
    requires Shaped(pb, W, H) && IsMatrix(lam, pb.d.K, pb.d.M)
    ensures IsMatrix(D, pb.d.R, pb.d.M)
    ensures NonNeg(W) && NonNeg(H) && NonNeg(lam) && 0.0 <= pb.p ==> NonNeg(D)
  {
    var d, p := pb.d, pb.p;
    var Wt := Transpose(W, d.R);
    match rule
    case EucDist(reg) =>
      var den := MatMul(Wt, lam, d.M);
      SameShapeOf(den, H, d.R, d.M);
      if reg == FrobH then Add(den, Scale(p, H))
      else if reg == L1H then AddScalar(den, p)
      else den
    case KLDiv => MatMul(Wt, Ones(d.K, d.M), d.M)
    case ISDiv => MatMul(Wt, NegPower(lam, 1), d.M)
  }

  /** The update of H (activations) for a rule. W here is the already updated
      W of this iteration, while lam is still the Λ computed before that
      update. An unrecognised regulariser leaves H as is. */
  function HUpdate(rule: Rule, pb: Problem, W: Matrix, H: Matrix, lam: Matrix): (H': Matrix)
    requires Shaped(pb, W, H) && IsMatrix(lam, pb.d.K, pb.d.M)
    ensures IsMatrix(H', pb.d.R, pb.d.M)
    ensures NonNegInputs(pb, W, H) && NonNeg(lam) ==> NonNeg(H')
  {
    if rule == EucDist(Unrecognised) then H
    else MulStep(H, HNumerator(rule, pb, W, lam), HDenominator(rule, pb, W, H, lam), pb.d.R, pb.d.M)
  }

  /** Multiplies every column of W by 1 / (EPS + its sum). */
  function NormalizeColumns(W: Matrix, R: nat): (N: Matrix)
    requires IsMatrix(W, |W|, R)
    ensures IsMatrix(N, |W|, R)
    ensures NonNeg(W) ==> NonNeg(N)
  {
    var norm := ColumnSums(W, R);
    var N := seq(|W|, i requires 0 <= i < |W| =>
               seq(R, j requires 0 <= j < R => W[i][j] * Quot(1.0, EPS + norm[j])));
    assert NonNeg(W) ==> NonNeg(N) by {
      if NonNeg(W) {
        forall j | 0 <= j < R
          ensures 0.0 <= norm[j]
        {
          SumNonNeg(Column(W, j), |W|);
        }
      }
    }
    N
  }

  /** Column j of the renormalised W is column j of W scaled by
      1 / (EPS + its sum). */
  lemma ColumnOfNormalized(W: Matrix, R: nat, j: nat)
    requires IsMatrix(W, |W|, R) && j < R
    ensures Column(NormalizeColumns(W, R), j)
              == ScaleVec(Column(W, j), Quot(1.0, EPS + ColumnSums(W, R)[j]))
  {
    var c := Quot(1.0, EPS + ColumnSums(W, R)[j]);
    forall i | 0 <= i < |W|
      ensures Column(NormalizeColumns(W, R), j)[i] == ScaleVec(Column(W, j), c)[i]
    {
    }
  }

  /** After renormalisation column j of W sums to s / (EPS + s), where s is
      its sum before; for a non-negative W that lies in [0, 1). */
  lemma NormalizedColumnSums(W: Matrix, R: nat, j: nat)
    requires IsMatrix(W, |W|, R) && j < R
    ensures ColumnSums(NormalizeColumns(W, R), R)[j]
              == Quot(ColumnSums(W, R)[j], EPS + ColumnSums(W, R)[j])
    ensures NonNeg(W) ==> 0.0 <= ColumnSums(NormalizeColumns(W, R), R)[j] < 1.0
  {
    var s := ColumnSums(W, R)[j];
    ColumnOfNormalized(W, R, j);
    SumScale(Column(W, j), Quot(1.0, EPS + s), |W|);
    QuotAsScale(s, EPS + s);
    if NonNeg(W) {
      SumNonNeg(Column(W, j), |W|);
      FractionBelowOne(s);
    }
  }

  /** W and H after one iteration. */
  datatype Factors = Factors(W: Matrix, H: Matrix)

  /** One iteration of the loop body: Λ from the current W and H, then W
      (unless fixW), then H from the new W and that same Λ, then, unless
      fixW, the columns of W renormalised. */
  function Iteration(rule: Rule, pb: Problem, W: Matrix, H: Matrix): (next: Factors)
    requires Shaped(pb, W, H)
    ensures Shaped(pb, next.W, next.H)
    ensures NonNegInputs(pb, W, H) ==> NonNeg(next.W) && NonNeg(next.H)
    ensures pb.fixW ==> next.W == W
  {
    var lam := Lambda(pb.d, W, H);
    var W1 := if pb.fixW then W else WUpdate(rule, pb, W, H, lam);
    var H1 := HUpdate(rule, pb, W1, H, lam);
    var W2 := if pb.fixW then W1 else NormalizeColumns(W1, pb.d.R);
    Factors(W2, H1)
  }

  /** The order inside an iteration: without fixW, W is updated first; H is
      then updated from that new, not yet renormalised W and from the Λ
      computed before W changed; only then are the columns of W rescaled. */
  lemma IterationOrder(rule: Rule, pb: Problem, W: Matrix, H: Matrix)
    requires Shaped(pb, W, H) && !pb.fixW
    ensures var lam := Lambda(pb.d, W, H);
            var W1 := WUpdate(rule, pb, W, H, lam);
            Iteration(rule, pb, W, H) == Factors(NormalizeColumns(W1, pb.d.R), HUpdate(rule, pb, W1, H, lam))
  {
  }

  /** Under EucDist with an unrecognised reg neither factor is multiplied:
      H is unchanged and W is only renormalised (unless fixW). */
  lemma IterationUnrecognisedReg(pb: Problem, W: Matrix, H: Matrix)
    requires Shaped(pb, W, H)
    ensures Iteration(EucDist(Unrecognised), pb, W, H).H == H
    ensures Iteration(EucDist(Unrecognised), pb, W, H).W
              == if pb.fixW then W else NormalizeColumns(W, pb.d.R)
  {
  }
}
