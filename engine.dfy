/** The NMF call as a whole: fill in the defaults of the caller's dictionary,
    read the options, rescale the caller's V in place, run the main loop
    under the chosen cost function, and split W·H into one matrix per
    component. */
module Engine {
  import opened Results
  import opened Matrices
  import opened Parameters
  import opened Ranges
  import opened UpdateRules
  import opened History
  import opened Loop
  import opened Normalization
  import opened Reconstruction

  /** The options NMF reads from the dictionary. */
  datatype Config = Config(
    numComp: int, numIter: int, reg: Value, p: real,
    initW: Matrix, initH: Matrix, costFunc: Value, fixW: bool)

  /** Everything NMF returns: W, H, the component matrices, and the three
      histories. */
  datatype NmfOutput = NmfOutput(
    W: Matrix, H: Matrix, nmfV: seq<Matrix>,
    f: seq<real>, wChange: seq<real>, hChange: seq<real>)

  /** Whether v can serve as the option `key`: numComp and numIter are
      integers, p a number, initW and initH matrices, fixW a flag. Python's
      bools are integers, so True and False count as 1 and 0 wherever a
      number is read. */
  predicate OfKind(key: string, v: Value) {
    if key == "numComp" || key == "numIter" then v.Int? || v.Bool?
    else if key == "p" then v.Int? || v.Real? || v.Bool?
    else if key == "initW" || key == "initH" then v.Mat?
    else if key == "fixW" then v.Bool?
    else true
  }

  /** Every option NMF reads is present and of its kind. */
  predicate Readable(m: map<string, Value>) {
    && "numComp" in m && OfKind("numComp", m["numComp"])
    && "numIter" in m && OfKind("numIter", m["numIter"])
    && "reg" in m
    && "p" in m && OfKind("p", m["p"])
    && "initW" in m && OfKind("initW", m["initW"])
    && "initH" in m && OfKind("initH", m["initH"])
    && "costFunc" in m
    && "fixW" in m && OfKind("fixW", m["fixW"])
  }

  /** An integer option, with a bool read as 1 or 0. */
  function IntegerValue(v: Value): int
    requires v.Int? || v.Bool?
  {
    if v.Int? then v.i else if v.b then 1 else 0
  }

  /** A numeric option, with a bool read as 1 or 0. */
  function NumberValue(v: Value): real
    requires v.Int? || v.Real? || v.Bool?
  {
    if v.Int? then v.i as real else if v.Real? then v.r else if v.b then 1.0 else 0.0
  }

  /** Reads the options in the order NMF looks them up: numComp, numIter,
      reg, p, initW, initH, then costFunc and fixW. A missing key is a
      KeyError; a value of the wrong kind is reported as a bad parameter. */
  function ReadConfig(m: map<string, Value>): (r: Result<Config, NmfError>)
    ensures r.Success? <==> Readable(m)
    ensures "numComp" !in m ==> r == Failure(MissingKey("numComp"))
    ensures r.Failure? ==> r.error.MissingKey? || r.error.BadParameter?
    ensures r.Failure? && r.error.MissingKey? ==> r.error.key !in m
    ensures r.Failure? && r.error.BadParameter? ==>
              r.error.key in m && !OfKind(r.error.key, m[r.error.key])
    ensures r.Success? ==>
              && IntegerValue(m["numComp"]) == r.value.numComp
              && IntegerValue(m["numIter"]) == r.value.numIter
              && m["reg"] == r.value.reg && m["costFunc"] == r.value.costFunc
              && m["fixW"] == Bool(r.value.fixW)
              && m["initW"] == Mat(r.value.initW) && m["initH"] == Mat(r.value.initH)
              && NumberValue(m["p"]) == r.value.p
  {
    if "numComp" !in m then Failure(MissingKey("numComp"))
    else if !OfKind("numComp", m["numComp"]) then Failure(BadParameter("numComp"))
    else if "numIter" !in m then Failure(MissingKey("numIter"))
    else if !OfKind("numIter", m["numIter"]) then Failure(BadParameter("numIter"))
    else if "reg" !in m then Failure(MissingKey("reg"))
    else if "p" !in m then Failure(MissingKey("p"))
    else if !OfKind("p", m["p"]) then Failure(BadParameter("p"))
    else if "initW" !in m then Failure(MissingKey("initW"))
    else if !OfKind("initW", m["initW"]) then Failure(BadParameter("initW"))
    else if "initH" !in m then Failure(MissingKey("initH"))
    else if !OfKind("initH", m["initH"]) then Failure(BadParameter("initH"))
    else if "costFunc" !in m then Failure(MissingKey("costFunc"))
    else if "fixW" !in m then Failure(MissingKey("fixW"))
    else if !OfKind("fixW", m["fixW"]) then Failure(BadParameter("fixW"))
    else Success(Config(IntegerValue(m["numComp"]), IntegerValue(m["numIter"]), m["reg"],
                        NumberValue(m["p"]), m["initW"].m, m["initH"].m, m["costFunc"], m["fixW"].b))
  }

  /** After the defaults are filled in, a dictionary holding numComp, initW
      and initH of the right kinds, and in which any numIter, p and fixW the
      caller supplied are of their kinds, always yields a configuration, with 30
      iterations, the KL rule and fixW off unless the caller chose
      otherwise. */
  lemma DefaultsSufficeForConfig(m: map<string, Value>)
    requires "numComp" in m && OfKind("numComp", m["numComp"])
    requires "initW" in m && OfKind("initW", m["initW"]) && "initH" in m && OfKind("initH", m["initH"])
    requires "numIter" in m ==> OfKind("numIter", m["numIter"])
    requires "p" in m ==> OfKind("p", m["p"])
    requires "fixW" in m ==> OfKind("fixW", m["fixW"])
    ensures ReadConfig(WithDefaults(m)).Success?
    ensures "numIter" !in m ==> ReadConfig(WithDefaults(m)).value.numIter == 30
    ensures "costFunc" !in m ==> SelectRule(ReadConfig(WithDefaults(m)).value.costFunc, Str("None")) == Some(KLDiv)
    ensures "fixW" !in m ==> !ReadConfig(WithDefaults(m)).value.fixW
    ensures "p" !in m ==> ReadConfig(WithDefaults(m)).value.p == 0.0
  {
    WithDefaultsKeeps(m);
    WithDefaultsValues(m);
  }

  /** initW (K × R) and initH (R × M) fit V (K × M), R being the number of
      rows of initH. A factor with no rows carries no column count, so it
      fits any width. */
  predicate Fits(cfg: Config, K: nat, M: nat) {
    IsMatrix(cfg.initW, K, |cfg.initH|) && IsMatrix(cfg.initH, |cfg.initH|, M)
  }

  /** What stays fixed during the loop, for a configuration and the rescaled
      V. */
  function ProblemOf(cfg: Config, V: Matrix, K: nat, M: nat): (pb: Problem)
    requires IsMatrix(V, K, M) && Fits(cfg, K, M)
    ensures Shaped(pb, cfg.initW, cfg.initH)
    ensures pb.V == V && pb.fixW == cfg.fixW && pb.p == cfg.p && pb.d == Dims(K, |cfg.initH|, M)
  {
    Problem(Dims(K, |cfg.initH|, M), V, cfg.fixW, cfg.p)
  }

  /** The pass of the configured cost function, or None when it is not one
      of EucDist, KLDiv and ISDiv. */
  function PassOf(cfg: Config, pb: Problem): (pass: Option<Step>)
    ensures pass.None? <==> SelectRule(cfg.costFunc, cfg.reg).None?
    ensures pass.Some? ==> pass.value == Pass(SelectRule(cfg.costFunc, cfg.reg).value, pb)
    ensures pass.Some? ==> KeepsShape(pb, pass.value) && KeepsNonNeg(pb, pass.value)
  {
    match SelectRule(cfg.costFunc, cfg.reg)
    case None => None
    case Some(rule) =>
      PassKeepsShape(rule, pb);
      PassKeepsNonNeg(rule, pb);
      Some(Pass(rule, pb))
  }

  /** The loop's result before the components: L passes of the known rule,
      or no pass at all. */
  function Run(pb: Problem, pass: Option<Step>, W0: Matrix, H0: Matrix, L: nat): (t: Trace)
    requires Shaped(pb, W0, H0) && (pass.Some? ==> KeepsShape(pb, pass.value))
    requires pass.None? ==> L == 0
    ensures Shaped(pb, t.W, t.H)
    ensures |t.f| == L + 1 && |t.wChange| == L && |t.hChange| == L
    ensures t.f[0] == Objective(pb, W0, H0)
  {
    if pass.Some? then
      FirstObjective(pb, pass.value, W0, H0, L);
      Recorded(pb, pass.value, W0, H0, L)
    else Start(pb, W0, H0)
  }

  /** What NMF returns for a configuration and the rescaled V (K × M). It
      fails when the factors do not fit V, when the cost function is unknown
      and at least one pass is to run, and when numComp exceeds the rank. */
  function Factorize(cfg: Config, V: Matrix, K: nat, M: nat): (r: Result<NmfOutput, NmfError>)
    requires IsMatrix(V, K, M)
    ensures r.Failure? ==> r.error in {ShapeMismatch, UnknownCostFunction, ComponentIndexOutOfRange}
    ensures r == Failure(ShapeMismatch) <==> !Fits(cfg, K, M)
    ensures r == Failure(UnknownCostFunction) <==>
              Fits(cfg, K, M) && SelectRule(cfg.costFunc, cfg.reg).None? && 0 < cfg.numIter
    ensures r == Failure(ComponentIndexOutOfRange) <==>
              && Fits(cfg, K, M)
              && (SelectRule(cfg.costFunc, cfg.reg).Some? || cfg.numIter <= 0)
              && |cfg.initH| < RangeLength(cfg.numComp)
    ensures r.Success? ==>
              && |r.value.f| == RangeLength(cfg.numIter) + 1
              && |r.value.wChange| == RangeLength(cfg.numIter)
              && |r.value.hChange| == RangeLength(cfg.numIter)
              && Fits(cfg, K, M)
              && r.value.f[0] == Objective(ProblemOf(cfg, V, K, M), cfg.initW, cfg.initH)
              && IsMatrix(r.value.W, K, |cfg.initH|) && IsMatrix(r.value.H, |cfg.initH|, M)
              && RangeLength(cfg.numComp) <= |cfg.initH|
              && r.value.nmfV == Components(r.value.W, r.value.H, RangeLength(cfg.numComp), K, |cfg.initH|, M)
  {
    if !Fits(cfg, K, M) then Failure(ShapeMismatch)
    else
      var pb := ProblemOf(cfg, V, K, M);
      var pass := PassOf(cfg, pb);
      var L := RangeLength(cfg.numIter);
      if pass.None? && 0 < L then Failure(UnknownCostFunction)
      else
        var t := Run(pb, pass, cfg.initW, cfg.initH, L);
        var n := RangeLength(cfg.numComp);
        if pb.d.R < n then Failure(ComponentIndexOutOfRange)
        else Success(NmfOutput(t.W, t.H, Components(t.W, t.H, n, K, pb.d.R, M), t.f, t.wChange, t.hChange))
  }

  /** When numComp equals the rank, the returned components add up to W·H. */
  lemma FactorizeReconstruction(cfg: Config, V: Matrix, K: nat, M: nat)
    requires IsMatrix(V, K, M) && cfg.numComp == |cfg.initH|
    requires Factorize(cfg, V, K, M).Success?
    ensures var out := Factorize(cfg, V, K, M).value;
            AddAll(out.nmfV, |cfg.initH|, K, M) == MatMul(out.W, out.H, M)
  {
    var pb := ProblemOf(cfg, V, K, M);
    var t := Run(pb, PassOf(cfg, pb), cfg.initW, cfg.initH, RangeLength(cfg.numIter));
    ComponentsSum(t.W, t.H, K, pb.d.R, M);
  }

  /** Non-negative V, initW, initH and p give non-negative W and H, whatever
      the cost function and reg. */
  lemma FactorizeNonNeg(cfg: Config, V: Matrix, K: nat, M: nat)
    requires IsMatrix(V, K, M)
    requires NonNeg(V) && NonNeg(cfg.initW) && NonNeg(cfg.initH) && 0.0 <= cfg.p
    requires Factorize(cfg, V, K, M).Success?
    ensures NonNeg(Factorize(cfg, V, K, M).value.W) && NonNeg(Factorize(cfg, V, K, M).value.H)
  {
    var pb := ProblemOf(cfg, V, K, M);
    var pass := PassOf(cfg, pb);
    if pass.Some? {
      RecordedNonNeg(pb, pass.value, cfg.initW, cfg.initH, RangeLength(cfg.numIter));
    }
  }

  /** With fixW set, the returned W is initW and every w_change entry is 0. */
  lemma FactorizeFixW(cfg: Config, V: Matrix, K: nat, M: nat)
    requires IsMatrix(V, K, M) && cfg.fixW
    requires Factorize(cfg, V, K, M).Success?
    ensures var out := Factorize(cfg, V, K, M).value;
            out.W == cfg.initW && forall t :: 0 <= t < |out.wChange| ==> out.wChange[t] == 0.0
  {
    var pb := ProblemOf(cfg, V, K, M);
    var pass := PassOf(cfg, pb);
    if pass.Some? {
      PassFixW(SelectRule(cfg.costFunc, cfg.reg).value, pb);
      RecordedFreezesW(pb, pass.value, cfg.initW, cfg.initH, RangeLength(cfg.numIter));
    }
  }

  /** Under EucDist with a reg that is none of the five tags, H is never
      multiplied: the returned H is initH and every h_change entry is 0. */
  lemma FactorizeUnrecognisedReg(cfg: Config, V: Matrix, K: nat, M: nat)
    requires IsMatrix(V, K, M)
    requires cfg.costFunc == Str("EucDist")
    requires cfg.reg !in {Str("None"), Str("FrobW"), Str("FrobH"), Str("1W"), Str("1H")}
    requires Factorize(cfg, V, K, M).Success?
    ensures var out := Factorize(cfg, V, K, M).value;
            out.H == cfg.initH && forall t :: 0 <= t < |out.hChange| ==> out.hChange[t] == 0.0
  {
    var pb := ProblemOf(cfg, V, K, M);
    assert PassOf(cfg, pb) == Some(Pass(EucDist(Unrecognised), pb));
    PassUnrecognisedReg(pb);
    RecordedFreezesH(pb, Pass(EucDist(Unrecognised), pb), cfg.initW, cfg.initH, RangeLength(cfg.numIter));
  }

  /** Without fixW, after at least one pass on non-negative input, every
      column of the returned W sums to a value in [0, 1). */
  lemma FactorizeColumnSums(cfg: Config, V: Matrix, K: nat, M: nat, j: nat)
    requires IsMatrix(V, K, M) && !cfg.fixW && 0 < cfg.numIter
    requires NonNeg(V) && NonNeg(cfg.initW) && NonNeg(cfg.initH) && 0.0 <= cfg.p
    requires Factorize(cfg, V, K, M).Success? && j < |cfg.initH|
    ensures var out := Factorize(cfg, V, K, M).value;
            IsMatrix(out.W, K, |cfg.initH|) && 0.0 <= ColumnSums(out.W, |cfg.initH|)[j] < 1.0
  {
    var pb := ProblemOf(cfg, V, K, M);
    var rule := SelectRule(cfg.costFunc, cfg.reg).value;
    PassBoundsColumnSums(rule, pb);
    PassKeepsNonNeg(rule, pb);
    RecordedColumnSums(pb, Pass(rule, pb), cfg.initW, cfg.initH, cfg.numIter, j);
  }

  /** With no pass to run, nothing is raised for the cost function, W and H
      come back as given, and the objective history holds the initial value
      alone. */
  lemma FactorizeZeroIterations(cfg: Config, V: Matrix, K: nat, M: nat)
    requires IsMatrix(V, K, M) && cfg.numIter <= 0 && Fits(cfg, K, M)
    ensures Factorize(cfg, V, K, M) != Failure(UnknownCostFunction)
    ensures Factorize(cfg, V, K, M).Success? ==>
              var out := Factorize(cfg, V, K, M).value;
              && out.W == cfg.initW && out.H == cfg.initH
              && out.f == [Objective(ProblemOf(cfg, V, K, M), cfg.initW, cfg.initH)]
              && out.wChange == [] && out.hChange == []
  {
  }

  /** Everything NMF does once V is rescaled: check that initW and initH
      fit V, run the loop, and build the components. */
  method Solve(cfg: Config, V: Matrix, K: nat, M: nat) returns (res: Result<NmfOutput, NmfError>)
    requires IsMatrix(V, K, M)
    ensures res == Factorize(cfg, V, K, M)
  {
    if !Fits(cfg, K, M) {
      return Failure(ShapeMismatch);
    }
    var pb := ProblemOf(cfg, V, K, M);
    var pass := PassOf(cfg, pb);
    var loop := Iterate(pb, pass, cfg.initW, cfg.initH, RangeLength(cfg.numIter));
    if loop.Failure? {
      return Failure(loop.error);
    }
    var t := loop.value;
    var nmfV := Reconstruct(t.W, t.H, cfg.numComp, K, pb.d.R, M);
    if nmfV.Failure? {
      return Failure(nmfV.error);
    }
    res := Success(NmfOutput(t.W, t.H, nmfV.value, t.f, t.wChange, t.hChange));
  }

  /** NMF: fills in the defaults of the caller's dictionary, reads the
      options, rescales the caller's V in place, and solves. A missing or
      ill-typed option fails before V is touched; every later failure
      leaves V rescaled. */
  method Nmf(V: array2<real>, param: ParamDict) returns (res: Result<NmfOutput, NmfError>)
    modifies V, param
    ensures param.entries == WithDefaults(old(param.entries))
    ensures ReadConfig(param.entries).Failure? ==>
              res == Failure(ReadConfig(param.entries).error) && Contents(V) == old(Contents(V))
    ensures ReadConfig(param.entries).Success? ==>
              && Contents(V) == NormalizeV(old(Contents(V)))
              && res == Factorize(ReadConfig(param.entries).value, Contents(V), V.Length0, V.Length1)
  {
    InitParameters(param);
    var config := ReadConfig(param.entries);
    if config.Failure? {
      return Failure(config.error);
    }
    NormalizeInPlace(V);
    res := Solve(config.value, Contents(V), V.Length0, V.Length1);
  }
}
