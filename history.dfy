/** The main loop, for any one-pass step: a fixed number of passes from
    initW and initH, recording after each one the objective and how far W and
    H moved. The functions here say what the loop holds after n passes; the
    lemmas say what it keeps, given what a single pass keeps. */
module History {
  import opened Matrices
  import opened UpdateRules

  /** One pass of the loop, as a function of W and H. */
  type Step = (Matrix, Matrix) -> Factors

  /** A pass maps factors of the right shapes to factors of the same shapes. */
  ghost predicate KeepsShape(pb: Problem, step: Step) {
    forall W, H {:trigger step(W, H)} :: Shaped(pb, W, H) ==> Shaped(pb, step(W, H).W, step(W, H).H)
  }

  /** A pass keeps W and H non-negative. */
  ghost predicate KeepsNonNeg(pb: Problem, step: Step) {
    forall W, H {:trigger step(W, H)} :: Shaped(pb, W, H) && NonNegInputs(pb, W, H) ==>
      NonNeg(step(W, H).W) && NonNeg(step(W, H).H)
  }

  /** A pass never changes W. */
  ghost predicate FreezesW(step: Step) {
    forall W, H :: step(W, H).W == W
  }

  /** A pass never changes H. */
  ghost predicate FreezesH(step: Step) {
    forall W, H :: step(W, H).H == H
  }

  /** A pass on non-negative input leaves every column sum of W in [0, 1). */
  ghost predicate BoundsColumnSums(pb: Problem, step: Step) {
    && KeepsShape(pb, step)
    && forall W, H, j :: Shaped(pb, W, H) && NonNegInputs(pb, W, H) && 0 <= j < pb.d.R ==>
      0.0 <= ColumnSums(step(W, H).W, pb.d.R)[j] < 1.0
  }

  /** The objective 0.5·‖V − W·H‖², with the squared Frobenius norm, summed
      entry by entry. */
  function Objective(pb: Problem, W: Matrix, H: Matrix): (obj: real)
    requires Shaped(pb, W, H)
    ensures 0.0 <= obj
  {
    0.5 * ResidualSq(pb.V, W, H, pb.d.K, pb.d.M)
  }

  /** The objective is half the squared norm of the residual V − W·H. */
  lemma ObjectiveAsNorm(pb: Problem, W: Matrix, H: Matrix)
    requires Shaped(pb, W, H)
    ensures SameShape(pb.V, MatMul(W, H, pb.d.M))
    ensures Objective(pb, W, H) == 0.5 * FrobSq(Sub(pb.V, MatMul(W, H, pb.d.M)), pb.d.K)
  {
    ResidualSqAsFrobSq(pb.V, W, H, pb.d.K, pb.d.M);
  }

  /** An exact factorisation V = W·H has objective 0. */
  lemma ObjectiveExact(pb: Problem, W: Matrix, H: Matrix)
    requires Shaped(pb, W, H) && pb.V == MatMul(W, H, pb.d.M)
    ensures Objective(pb, W, H) == 0.0
  {
    ObjectiveAsNorm(pb, W, H);
    SubSelfIsZero(pb.V);
  }

  /** How far a factor moved in one pass: ‖Next − Prev‖², the squared
      Frobenius norm of the difference. */
  function Change(Prev: Matrix, Next: Matrix, rows: nat, cols: nat): (c: real)
    requires IsMatrix(Prev, rows, cols) && IsMatrix(Next, rows, cols)
    ensures 0.0 <= c
  {
    SameShapeOf(Next, Prev, rows, cols);
    DistSq(Next, Prev, rows)
  }

  /** The change is the squared norm of Next − Prev. */
  lemma ChangeAsNorm(Prev: Matrix, Next: Matrix, rows: nat, cols: nat)
    requires IsMatrix(Prev, rows, cols) && IsMatrix(Next, rows, cols)
    ensures SameShape(Next, Prev)
    ensures Change(Prev, Next, rows, cols) == FrobSq(Sub(Next, Prev), rows)
  {
    SameShapeOf(Next, Prev, rows, cols);
    DistSqAsFrobSq(Next, Prev, rows);
  }

  /** A factor that did not move has change 0. */
  lemma ChangeSelf(A: Matrix, rows: nat, cols: nat)
    requires IsMatrix(A, rows, cols)
    ensures Change(A, A, rows, cols) == 0.0
  {
    DistSqSelf(A, rows);
  }

  /** The factors and the three histories the loop holds. */
  datatype Trace = Trace(W: Matrix, H: Matrix, f: seq<real>, wChange: seq<real>, hChange: seq<real>)

  /** What the loop holds before the first pass: W0, H0 and the objective
      for them. */
  function Start(pb: Problem, W0: Matrix, H0: Matrix): (t: Trace)
    requires Shaped(pb, W0, H0)
    ensures Shaped(pb, t.W, t.H)
    ensures t.W == W0 && t.H == H0 && |t.f| == 1 && t.wChange == [] && t.hChange == []
  {
    Trace(W0, H0, [Objective(pb, W0, H0)], [], [])
  }

  /** One more pass: the step moves W and H, and one value is appended to
      each history. */
  function Extend(pb: Problem, step: Step, t: Trace): (u: Trace)
    requires Shaped(pb, t.W, t.H) && KeepsShape(pb, step)
    ensures Shaped(pb, u.W, u.H)
    ensures |u.f| == |t.f| + 1 && |u.wChange| == |t.wChange| + 1 && |u.hChange| == |t.hChange| + 1
  {
    var s := step(t.W, t.H);
    Trace(s.W, s.H, t.f + [Objective(pb, s.W, s.H)],
          t.wChange + [Change(t.W, s.W, pb.d.K, pb.d.R)],
          t.hChange + [Change(t.H, s.H, pb.d.R, pb.d.M)])
  }

  /** What the loop holds after n passes: one more objective value than
      passes, and one change of W and of H per pass. */
  function Recorded(pb: Problem, step: Step, W0: Matrix, H0: Matrix, n: nat): (t: Trace)
    requires Shaped(pb, W0, H0) && KeepsShape(pb, step)
    ensures Shaped(pb, t.W, t.H)
    ensures |t.f| == n + 1 && |t.wChange| == n && |t.hChange| == n
  {
    if n == 0 then Start(pb, W0, H0)
    else Extend(pb, step, Recorded(pb, step, W0, H0, n - 1))
  }

  /** The first objective value is the one for W0 and H0, whatever the
      number of passes. */
  lemma {:induction false} FirstObjective(pb: Problem, step: Step, W0: Matrix, H0: Matrix, n: nat)
    requires Shaped(pb, W0, H0) && KeepsShape(pb, step)
    ensures Recorded(pb, step, W0, H0, n).f[0] == Objective(pb, W0, H0)
  {
    if n > 0 {
      FirstObjective(pb, step, W0, H0, n - 1);
    }
  }

  /** Later passes only append: after n passes, entry k of the objective
      history is the objective of W and H after k passes, and entry k of each
      change history is how far that factor moved in pass k + 1. */
  lemma {:induction false} RecordedEntry(pb: Problem, step: Step, W0: Matrix, H0: Matrix, n: nat, k: nat)
    requires Shaped(pb, W0, H0) && KeepsShape(pb, step) && k <= n
    ensures var t, a := Recorded(pb, step, W0, H0, n), Recorded(pb, step, W0, H0, k);
            t.f[k] == Objective(pb, a.W, a.H)
    ensures k < n ==>
            var t, a, b := Recorded(pb, step, W0, H0, n), Recorded(pb, step, W0, H0, k), Recorded(pb, step, W0, H0, k + 1);
            && t.wChange[k] == Change(a.W, b.W, pb.d.K, pb.d.R)
            && t.hChange[k] == Change(a.H, b.H, pb.d.R, pb.d.M)
  {
    if k < n {
      RecordedEntry(pb, step, W0, H0, n - 1, k);
      var t, t' := Recorded(pb, step, W0, H0, n), Recorded(pb, step, W0, H0, n - 1);
      assert t.f[k] == t'.f[k];
      if k < n - 1 {
        assert t.wChange[k] == t'.wChange[k] && t.hChange[k] == t'.hChange[k];
      }
    } else if n > 0 {
      var t := Recorded(pb, step, W0, H0, n);
      assert t.f[n] == Objective(pb, t.W, t.H);
    }
  }

  /** With a pass that keeps them non-negative, W and H stay non-negative
      after every number of passes. */
  lemma {:induction false} RecordedNonNeg(pb: Problem, step: Step, W0: Matrix, H0: Matrix, n: nat)
    requires Shaped(pb, W0, H0) && KeepsShape(pb, step)
    requires NonNegInputs(pb, W0, H0) && KeepsNonNeg(pb, step)
    ensures NonNeg(Recorded(pb, step, W0, H0, n).W) && NonNeg(Recorded(pb, step, W0, H0, n).H)
  {
    if n > 0 {
      RecordedNonNeg(pb, step, W0, H0, n - 1);
    }
  }

  /** With a pass that never changes W, W is still W0 after every number of
      passes and every recorded change of W is 0. */
  lemma {:induction false} RecordedFreezesW(pb: Problem, step: Step, W0: Matrix, H0: Matrix, n: nat)
    requires Shaped(pb, W0, H0) && KeepsShape(pb, step) && FreezesW(step)
    ensures var t := Recorded(pb, step, W0, H0, n);
            t.W == W0 && forall k :: 0 <= k < n ==> t.wChange[k] == 0.0
  {
    if n > 0 {
      RecordedFreezesW(pb, step, W0, H0, n - 1);
      ChangeSelf(W0, pb.d.K, pb.d.R);
    }
  }

  /** With a pass that never changes H, H is still H0 after every number of
      passes and every recorded change of H is 0. */
  lemma {:induction false} RecordedFreezesH(pb: Problem, step: Step, W0: Matrix, H0: Matrix, n: nat)
    requires Shaped(pb, W0, H0) && KeepsShape(pb, step) && FreezesH(step)
    ensures var t := Recorded(pb, step, W0, H0, n);
            t.H == H0 && forall k :: 0 <= k < n ==> t.hChange[k] == 0.0
  {
    if n > 0 {
      RecordedFreezesH(pb, step, W0, H0, n - 1);
      ChangeSelf(H0, pb.d.R, pb.d.M);
    }
  }

  /** With a pass that bounds the column sums of W, after at least one pass on
      non-negative input every column of W sums to a value in [0, 1). */
  lemma RecordedColumnSums(pb: Problem, step: Step, W0: Matrix, H0: Matrix, n: nat, j: nat)
    requires Shaped(pb, W0, H0) && KeepsShape(pb, step)
    requires NonNegInputs(pb, W0, H0) && KeepsNonNeg(pb, step) && BoundsColumnSums(pb, step)
    requires 0 < n && j < pb.d.R
    ensures 0.0 <= ColumnSums(Recorded(pb, step, W0, H0, n).W, pb.d.R)[j] < 1.0
  {
    RecordedNonNeg(pb, step, W0, H0, n - 1);
  }
}
