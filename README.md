# NMF toolbox: the multiplicative-update engine, in Dafny

This project models `NMF(V, parameter)` and `init_parameters(parameter)` from
`NMFtoolbox/NMF.py`. `NMF` factorises a non-negative K × M matrix V into
templates W (K × R) and activations H (R × M). The steps it models are:

- The caller's parameter dictionary gets its defaults. Missing keys become
  costFunc 'KLDiv', numIter 30, fixW False, reg 'None' and p 0.
- numComp, numIter, reg, p, initW and initH are read from the dictionary.
- The caller's V is rescaled in place to nearly unit sum: V ← V / (EPS + ΣV),
  so its total S becomes S/(EPS + S).
- The objective 0.5·‖V − W·H‖² is seeded.
- The loop runs exactly numIter passes. Each pass:
  - snapshots W and H;
  - computes Λ = EPS + W·H;
  - updates W (unless fixW), then H from the new W and the same Λ, under the
    Euclidean (with one of five regularisers), Kullback–Leibler or
    Itakura–Saito rule;
  - renormalises the columns of W (unless fixW);
  - appends the new objective and how far W and H moved.
- At the end, `NMF` returns one outer-product matrix per component, for r in
  `range(numComp)`.

Modules, one per file:

- `results.dfy` — `Results`: the Option and Result types, and the errors a
  call can raise.
- `ranges.dfy` — `Ranges`: how many passes a loop over `range(n)` makes.
- `matrices.dfy` — `Matrices`: matrices as sequences of rows; products,
  elementwise operations, index-bounded sums, and the squared Frobenius
  norm; EPS = 2⁻⁵².
- `parameters.dfy` — `Parameters`: the dictionary, a class whose map field
  `InitParameters` updates in place, and the default values.
- `update_rules.dfy` — `UpdateRules`: the choice of rule from costFunc and
  reg, and Λ. Also the W and H updates of every rule, the renormalisation of
  W, and one pass of the loop body as a function of W and H.
- `normalization.dfy` — `Normalization`: the in-place rescaling of the
  caller's `array2` V.
- `history.dfy` — `History`: what the loop holds after n passes of any pass
  function: the factors, the objective history and the two change
  histories. Also what the histories keep when a single pass keeps it.
- `loop.dfy` — `Loop`: the pass of each rule, what it keeps, and the loop
  itself as a method.
- `reconstruction.dfy` — `Reconstruction`: the component matrices and the
  loop that builds them.
- `engine.dfy` — `Engine`: reading the options, the whole call as a
  function (`Factorize`) and as a method (`Nmf`), and the end-to-end
  properties.

## Model

| member | source | states |
|---|---|---|
| Parameters.SetDefault | NMFtoolbox/NMF.py:200 | the key is present afterwards; existing entries are kept; an absent key gets the default |
| Parameters.WithDefaults | NMFtoolbox/NMF.py:200-204 | the resulting keys are the caller's keys plus costFunc, numIter, fixW, reg and p |
| Parameters.WithDefaultsKeeps | NMFtoolbox/NMF.py:200-204 | every entry the caller supplied is kept unchanged |
| Parameters.WithDefaultsValues | NMFtoolbox/NMF.py:200-204 | each missing option gets its default: 'KLDiv', 30, False, 'None', 0 |
| Parameters.WithDefaultsIdempotent | NMFtoolbox/NMF.py:188-206 | filling in the defaults a second time changes nothing |
| Parameters.Default | NMFtoolbox/NMF.py:200 | one line of `init_parameters`: the caller's dictionary becomes SetDefault of its old contents |
| Parameters.InitParameters | NMFtoolbox/NMF.py:188-206 | the caller's own dictionary is updated in place to WithDefaults of its old contents |
| Matrices.ResidualSqAsFrobSq | NMFtoolbox/NMF.py:105 | the entry-by-entry sum of (V − W·H)² equals the squared Frobenius norm of V − W·H |
| Matrices.DistSqAsFrobSq | NMFtoolbox/NMF.py:175-176 | the entry-by-entry sum of (A − B)² equals the squared Frobenius norm of A − B |
| Matrices.DistSqSelf | NMFtoolbox/NMF.py:175-176 | a matrix is at squared distance 0 from itself |
| UpdateRules.SelectPenalty | NMFtoolbox/NMF.py:119-150 | each of 'None', 'FrobW', 'FrobH', '1W' and '1H' selects its own variant and is the only tag that does; a reg value is Unrecognised exactly when it is none of the five |
| UpdateRules.SelectRule | NMFtoolbox/NMF.py:117-167 | a rule is chosen exactly when costFunc is 'EucDist', 'KLDiv' or 'ISDiv'; each tag selects its own rule; 'EucDist' selects the Euclidean variant of the reg tag; EucDist with an unrecognised reg selects the do-nothing Euclidean variant |
| UpdateRules.Lambda | NMFtoolbox/NMF.py:114 | Λ = EPS + W·H is K × M, and non-negative for non-negative W and H |
| UpdateRules.LambdaFloor | NMFtoolbox/NMF.py:114 | for non-negative W and H every entry of Λ is at least EPS, so the KL and IS divisions by Λ are exact |
| UpdateRules.MulStep | NMFtoolbox/NMF.py:121 | X ⊙ (Num ⊘ (Den + EPS)) keeps the shape of X and keeps non-negative inputs non-negative |
| UpdateRules.MulStepExact | NMFtoolbox/NMF.py:121 | with a non-negative denominator, each entry is X·Num/(Den + EPS) as a true quotient |
| UpdateRules.WNumerator | NMFtoolbox/NMF.py:117-164 | the W-update numerator of each rule is K × R, and non-negative for non-negative V, H and Λ |
| UpdateRules.WDenominator | NMFtoolbox/NMF.py:117-164 | the W-update denominator of each rule, including p·W for FrobW and p for 1W, is K × R, and non-negative for non-negative inputs and p ≥ 0 |
| UpdateRules.WUpdate | NMFtoolbox/NMF.py:117-164 | the W update is K × R and keeps W non-negative |
| UpdateRules.HNumerator | NMFtoolbox/NMF.py:117-164 | the H-update numerator of each rule is R × M, and non-negative for non-negative inputs |
| UpdateRules.HDenominator | NMFtoolbox/NMF.py:117-164 | the H-update denominator of each rule, including p·H for FrobH and p for 1H, is R × M, and non-negative for non-negative inputs and p ≥ 0 |
| UpdateRules.HUpdate | NMFtoolbox/NMF.py:117-164 | the H update is R × M and keeps H non-negative |
| UpdateRules.NormalizeColumns | NMFtoolbox/NMF.py:170-172 | renormalising keeps the shape of W and keeps it non-negative |
| UpdateRules.ColumnOfNormalized | NMFtoolbox/NMF.py:171-172 | column j of the result is column j of W times 1/(EPS + its sum) |
| UpdateRules.NormalizedColumnSums | NMFtoolbox/NMF.py:170-172 | column j then sums to s/(EPS + s), s being its old sum, which lies in [0, 1) for non-negative W |
| UpdateRules.Iteration | NMFtoolbox/NMF.py:110-172 | one pass keeps the shapes and non-negativity of W and H; with fixW, W is unchanged |
| UpdateRules.IterationOrder | NMFtoolbox/NMF.py:114-172 | W is updated first; H is updated from that new W and the Λ computed before it; then W is renormalised |
| UpdateRules.IterationUnrecognisedReg | NMFtoolbox/NMF.py:117-150 | under EucDist with an unrecognised reg, H is not multiplied and W is only renormalised (or unchanged with fixW) |
| Normalization.NormalizeV | NMFtoolbox/NMF.py:100 | the rescaled V has V's shape and is non-negative when V is |
| Normalization.NormalizeVAsScale | NMFtoolbox/NMF.py:100 | dividing by EPS + S equals scaling every entry by 1/(EPS + S) |
| Normalization.NormalizedTotal | NMFtoolbox/NMF.py:100 | the rescaled V sums to S/(EPS + S), S its old total, which lies in [0, 1) for non-negative V |
| Normalization.NormalizeInPlace | NMFtoolbox/NMF.py:100 | the caller's array holds NormalizeV of its old contents afterwards |
| History.Objective | NMFtoolbox/NMF.py:105 | the objective is non-negative |
| History.ObjectiveAsNorm | NMFtoolbox/NMF.py:105 | the objective is 0.5·‖V − W·H‖²_F |
| History.ObjectiveExact | NMFtoolbox/NMF.py:105 | an exact factorisation V = W·H has objective 0 |
| History.Change | NMFtoolbox/NMF.py:175-176 | the change of a factor is non-negative |
| History.ChangeAsNorm | NMFtoolbox/NMF.py:175-176 | the change is ‖Next − Prev‖²_F |
| History.ChangeSelf | NMFtoolbox/NMF.py:175-176 | a factor that did not move has change 0 |
| History.Start | NMFtoolbox/NMF.py:103-107 | before the loop: W0 and H0, one objective value, empty change histories |
| History.Extend | NMFtoolbox/NMF.py:108-177 | one more pass keeps the shapes and grows each history by one entry |
| History.Recorded | NMFtoolbox/NMF.py:103-177 | after n passes the histories have lengths n + 1, n and n, and W and H keep their shapes |
| History.FirstObjective | NMFtoolbox/NMF.py:105 | f[0] is the objective of the initial W and H, whatever the number of passes |
| History.RecordedEntry | NMFtoolbox/NMF.py:174-176 | the loop only appends: f[k] is the objective after k passes, and w_change[k] and h_change[k] measure the move in pass k + 1 |
| History.RecordedNonNeg | NMFtoolbox/NMF.py:108-177 | a pass that keeps factors non-negative keeps them non-negative for every number of passes |
| History.RecordedFreezesW | NMFtoolbox/NMF.py:170-175 | a pass that never changes W leaves W at W0 and every w_change entry at 0 |
| History.RecordedFreezesH | NMFtoolbox/NMF.py:117-176 | a pass that never changes H leaves H at H0 and every h_change entry at 0 |
| History.RecordedColumnSums | NMFtoolbox/NMF.py:170-172 | after at least one column-bounding pass on non-negative input, every column of W sums to a value in [0, 1) |
| Loop.PassKeepsShape | NMFtoolbox/NMF.py:110-172 | the pass of every rule keeps the shapes of W and H |
| Loop.PassKeepsNonNeg | NMFtoolbox/NMF.py:110-172 | the pass of every rule keeps non-negative W and H non-negative, for non-negative V and p ≥ 0 |
| Loop.PassFixW | NMFtoolbox/NMF.py:120 | with fixW, the pass of every rule leaves W unchanged |
| Loop.PassUnrecognisedReg | NMFtoolbox/NMF.py:117-150 | under EucDist with an unrecognised reg, the pass never changes H and only renormalises W |
| Loop.PassBoundsColumnSums | NMFtoolbox/NMF.py:170-172 | without fixW, the pass of every rule leaves each column sum of W in [0, 1) on non-negative input |
| Loop.Iterate | NMFtoolbox/NMF.py:103-177 | the loop fails with 'Unknown cost function' in its first pass when there is no rule, returns the seeded state when there are no passes, and otherwise returns Recorded after L passes |
| Reconstruction.Component | NMFtoolbox/NMF.py:183 | entry (k, m) of component r is W[k][r]·H[r][m] |
| Reconstruction.Components | NMFtoolbox/NMF.py:179-183 | there are n components, each K × M |
| Reconstruction.SumOfOuterProducts | NMFtoolbox/NMF.py:182-183 | the first n components add up, entry by entry, to the product of the first n columns of W with the first n rows of H |
| Reconstruction.ComponentsSum | NMFtoolbox/NMF.py:179-183 | the R components add up to W·H |
| Reconstruction.Reconstruct | NMFtoolbox/NMF.py:179-183 | the loop over `range(numComp)` returns the components, or fails once r reaches the rank |
| Engine.ReadConfig | NMFtoolbox/NMF.py:82-94 | the options are read exactly when all eight are present and of their kinds (a bool counting as 1 or 0 where a number is read); a missing numComp is a KeyError; a MissingKey failure names an absent key and a BadParameter failure names a present key holding a value of the wrong kind; on success the configuration holds exactly the dictionary's values |
| Engine.DefaultsSufficeForConfig | NMFtoolbox/NMF.py:200-204 | after the defaults, numComp, initW and initH of the right kinds suffice, provided any numIter, p and fixW the caller supplied are of their kinds; the defaults give 30 passes, the KL rule, fixW off and p = 0 |
| Engine.PassOf | NMFtoolbox/NMF.py:117-167 | there is a pass exactly when the cost function is known; it is the pass of the selected rule and keeps shapes and non-negativity |
| Engine.Run | NMFtoolbox/NMF.py:103-177 | the loop's result has histories of lengths L + 1, L and L, with f[0] the objective of initW and initH |
| Engine.Factorize | NMFtoolbox/NMF.py:79-185 | fails only with one of three errors: with a shape mismatch exactly when the factors do not fit V; with 'Unknown cost function' exactly when costFunc is unknown and numIter > 0; with an index error exactly when numComp exceeds the rank and nothing failed before. On success the histories have lengths L + 1, L and L, f[0] is computed from initW, initH and the rescaled V, and nmfV holds the numComp components of the final W and H |
| Engine.FactorizeReconstruction | NMFtoolbox/NMF.py:179-183 | when numComp equals the rank, the returned components add up to W·H |
| Engine.FactorizeNonNeg | NMFtoolbox/NMF.py:108-177 | non-negative V, initW, initH and p ≥ 0 give non-negative W and H under every cost function and reg |
| Engine.FactorizeFixW | NMFtoolbox/NMF.py:120-172 | with fixW, the returned W is initW and every w_change entry is 0 |
| Engine.FactorizeUnrecognisedReg | NMFtoolbox/NMF.py:117-150 | under EucDist with an unrecognised reg, the returned H is initH and every h_change entry is 0 |
| Engine.FactorizeColumnSums | NMFtoolbox/NMF.py:170-172 | without fixW, after at least one pass on non-negative input, every column of the returned W sums to a value in [0, 1) |
| Engine.FactorizeZeroIterations | NMFtoolbox/NMF.py:104-108 | with numIter ≤ 0 nothing is raised for the cost function, and W and H come back as given with f holding the initial objective alone |
| Engine.Solve | NMFtoolbox/NMF.py:97-185 | everything after the rescaling returns exactly Factorize of the rescaled V |
| Engine.Nmf | NMFtoolbox/NMF.py:39-185 | the caller's dictionary gets its defaults. A bad dictionary fails with V untouched. Otherwise the caller's V is rescaled in place, even when a later step fails, and the result is Factorize of the rescaled V |

## Left out

- Floating point: entries are exact reals. Rounding, overflow, NaN and the
  convergence behaviour of the updates are not modelled.
- EPS is fixed at 2⁻⁵² as a constant. `NMFtoolbox/python/NMFtoolbox/utils.py`,
  which defines it, is not part of this model; the proofs use only EPS > 0.
- Division is total (`Quot`, 0 for a zero divisor). Every divisor the updates
  use is positive for non-negative input: Den + EPS and Λ are at least EPS,
  and the Λ² of the Itakura–Saito rule is at least EPS²
  (`UpdateRules.LambdaFloor`, `UpdateRules.MulStepExact`). So this only
  matters for negative input, which NMF does not expect.
- History.Change: w_change and h_change are the squared Frobenius norms of the
  moves, not the norms themselves, because square roots are not modelled. The
  objective is 0.5·‖·‖² in the source, so it is exact.
- Engine.ReadConfig: a value of the wrong kind fails up front, before V is
  rescaled. This applies to numComp, numIter, p, initW, initH and fixW, and
  the model is stricter than the source in these cases:
  - p is read at `NMFtoolbox/NMF.py:86` but used only by the FrobW, FrobH, 1W
    and 1H updates (lines 127, 136, 141 and 150). Under KLDiv, ISDiv, EucDist
    with 'None' or an unrecognised reg, or with no pass at all, a
    non-numeric p never fails in the source; the model fails with
    BadParameter("p").
  - A p that is a numpy array is used elementwise by the regularised updates
    wherever its shape broadcasts against W or H; the model accepts only a
    number (int, float or bool) and fails with BadParameter("p").
  - fixW of another kind is used by the source through its truthiness; the
    model fails with BadParameter("fixW").
  - Otherwise a value of the wrong kind makes the source fail later, with a
    TypeError in `range` or in numpy, after V is rescaled. Bools are not
    among these: as in Python, the model reads True and False as 1 and 0
    for numComp, numIter and p.
- An initW given as a Python list (converted with `np.array`) and numpy
  broadcasting between mismatched shapes are not modelled. initW and initH are
  matrices, and a shape mismatch between factors that have rows fails with
  ShapeMismatch where the first objective is computed, after V is rescaled.
- Engine.Factorize: a matrix is a sequence of rows, so a factor with no rows
  carries no column count. A rank-0 initH (no rows) fits V for any number of
  columns, and when V has no rows an initW with no rows fits any rank. In
  both cases numpy would reject a hidden dimension that does not match at
  `W @ H` on `NMFtoolbox/NMF.py:105`; the model accepts it and succeeds.
- Engine.Nmf: when costFunc is unknown, the source computes Λ before it
  raises. Λ has no visible effect, so the model raises without computing it.
- The progress bar (`tnrange`), the onesMatrix allocation and the driver
  scripts are not modelled. Updating W and H by whole-matrix reassignment
  stands in for numpy's in-place `*=`. W and H are private deep copies, so
  no caller can observe the difference.
- Behaviour of the code worth noting, which the model follows:
  - the caller's V is rescaled in place and stays rescaled, even when a later
    step raises;
  - the caller's dictionary is changed by `init_parameters`;
  - a missing numComp, initW or initH and a numComp above the rank are
    failures of their own;
  - the docstring names the Euclidean tag 'EucDdist', but the code compares
    against 'EucDist'.
