/** The loop of NMF with its actual pass: the update rules of one cost
    function, applied to W and H in the order the source gives. */
module Loop {
  import opened Results
  import opened Matrices
  import opened UpdateRules
  import opened History

  /** One pass under a rule, as a step of the loop. The loop only ever takes
      it on factors of the shapes it was set up with; on any other pair it
      leaves them alone. */
  function Pass(rule: Rule, pb: Problem): (step: Step)
  {
    (W: Matrix, H: Matrix) => if Shaped(pb, W, H) then Iteration(rule, pb, W, H) else Factors(W, H)
  }

  /** A pass keeps the shapes of W and H. */
  lemma PassKeepsShape(rule: Rule, pb: Problem)
    ensures KeepsShape(pb, Pass(rule, pb))
  {
  }

  /** Every rule keeps W and H non-negative when V, W, H and p are. */
  lemma PassKeepsNonNeg(rule: Rule, pb: Problem)
    ensures KeepsNonNeg(pb, Pass(rule, pb))
  {
  }

  /** With fixW set, a pass never changes W. */
  lemma PassFixW(rule: Rule, pb: Problem)
    requires pb.fixW
    ensures FreezesW(Pass(rule, pb))
  {
  }

  /** Under EucDist with an unrecognised reg, a pass never changes H, and W
      is only renormalised (unless fixW). */
  lemma PassUnrecognisedReg(pb: Problem)
    ensures FreezesH(Pass(EucDist(Unrecognised), pb))
    ensures forall W, H :: Shaped(pb, W, H) ==>
              Pass(EucDist(Unrecognised), pb)(W, H).W
                == if pb.fixW then W else NormalizeColumns(W, pb.d.R)
  {
    forall W, H
      ensures Pass(EucDist(Unrecognised), pb)(W, H).H == H
    {
      if Shaped(pb, W, H) {
        IterationUnrecognisedReg(pb, W, H);
      }
    }
    forall W, H | Shaped(pb, W, H)
      ensures Pass(EucDist(Unrecognised), pb)(W, H).W
                == if pb.fixW then W else NormalizeColumns(W, pb.d.R)
    {
      IterationUnrecognisedReg(pb, W, H);
    }
  }

  /** Without fixW, a pass on non-negative input leaves every column of W
      summing to a value in [0, 1). */
  lemma PassBoundsColumnSums(rule: Rule, pb: Problem)
    requires !pb.fixW
    ensures BoundsColumnSums(pb, Pass(rule, pb))
  {
    forall W, H, j | Shaped(pb, W, H) && NonNegInputs(pb, W, H) && 0 <= j < pb.d.R
      ensures 0.0 <= ColumnSums(Pass(rule, pb)(W, H).W, pb.d.R)[j] < 1.0
    {
      var lam := Lambda(pb.d, W, H);
      var W1 := WUpdate(rule, pb, W, H, lam);
      IterationOrder(rule, pb, W, H);
      NormalizedColumnSums(W1, pb.d.R, j);
    }
  }

  /** The main loop. `pass` is the pass of the cost function, or None when
      the cost function is unknown: then the first pass raises, so only a
      run of zero passes succeeds. Each pass snapshots W and H, moves them,
      and appends the objective for the new W and H and how far each of them
      moved. */
  method Iterate(pb: Problem, pass: Option<Step>, W0: Matrix, H0: Matrix, L: nat)
    returns (res: Result<Trace, NmfError>)
    requires Shaped(pb, W0, H0) && (pass.Some? ==> KeepsShape(pb, pass.value))
    ensures pass.None? ==> res == if 0 < L then Failure(UnknownCostFunction) else Success(Start(pb, W0, H0))
    ensures pass.Some? ==> res == Success(Recorded(pb, pass.value, W0, H0, L))
  {
    var W, H := W0, H0;
    var f := [Objective(pb, W, H)];
    var wChange: seq<real>, hChange: seq<real> := [], [];
    var i := 0;
    while i < L
      invariant i <= L && (pass.None? ==> i == 0) && Shaped(pb, W, H)
      invariant pass.None? ==> Trace(W, H, f, wChange, hChange) == Start(pb, W0, H0)
      invariant pass.Some? ==> Trace(W, H, f, wChange, hChange) == Recorded(pb, pass.value, W0, H0, i)
    {
      if pass.None? {
        return Failure(UnknownCostFunction);
      }
      var wPrev, hPrev := W, H;
      var next := pass.value(W, H);
      W, H := next.W, next.H;
      f := f + [Objective(pb, W, H)];
      wChange := wChange + [Change(wPrev, W, pb.d.K, pb.d.R)];
      hChange := hChange + [Change(hPrev, H, pb.d.R, pb.d.M)];
      i := i + 1;
    }
    res := Success(Trace(W, H, f, wChange, hChange));
  }
}
