# Orthogonal factor rotation (Varimax, Equimax, Quartimax)

This project models the rotation engine of statsample's factor analysis. The
engine is the `Rotation` class with its subclasses `Varimax`, `Equimax` and
`Quartimax`.

- **Construction.** A rotation object is built from an n×m loading matrix:
  n variables, m factors. It computes the communalities h2, one per
  variable, as the row sums of squared loadings.
- **`iterate(max_i)`.** It normalises the rows, bh = H⁻¹B with H = diag(√h2),
  and starts from t = I. It then sweeps over every factor pair (i, j), i < j,
  in lexicographic order. For each pair it:
  - computes the column sums a, b, c, d;
  - asks the subclass for x(a,b,c,d) and y(a,b,c,d);
  - takes φ = atan2(x, y)/4;
  - if sin|φ| ≥ 1e-15, rotates columns i and j of bh and t by φ; otherwise
    counts the pair as converged.
- **Stopping.** A sweep in which every pair was converged clears the
  not-converged flag. The loop also stops before a sweep once more than max_i
  sweeps have been counted, so after at most max_i + 1 (26 for the default
  max_i = 25).
- **Result.** The rotated loadings H·bh and the transformation t are stored.

Files:

- `matrices.dfy` (module `Matrices`): vectors and matrices as sequences of
  reals. It covers sums of squares, column dot products, the matrix product
  `Times`, the two-column write done row by row (`WriteColumns`) and its
  specification `SetColumns`, the pair rotation `RotateColumns`, and
  orthonormality of t.
- `criteria.dfy` (module `Criteria`): the x and y of the three subclasses.
  Each is proved to be the orthomax criterion with weight 1, m/2 or 0.
- `pairs.dfy` (module `PairOrder`): the pairs a sweep visits and their
  order, and generic folds for the nested `each` loops. These are proved to
  fold over exactly those pairs.
- `sweep.dfy` (module `Sweeps`): the run as values. `PairStep` handles one
  pair, `Sweep` all pairs, and `Run` the outer `while`. Around them sit the
  lemmas on what a run keeps and when it stops.
- `rotation.dfy` (module `FactorRotation`): the class `Rotation` with the
  constructor and the imperative `Iterate`, built on the methods
  `SweepPairs`, `SweepRow` and `UpdatePair`. Their loops are proved equal to
  the value model, so every lemma in `Sweeps` applies to what `Iterate`
  stores.

Two behaviours of the code that the model keeps as written:

- Fewer than two factors are not rejected. Such a run visits no pair, never
  converges and ends on the iteration bound (`FewFactorsRunToTheBound`).
- Every call to `iterate` restarts from t = I and the original matrix.

## Model

| member | source | states |
|---|---|---|
| FactorRotation.Rotation.constructor | lib/statsample/factor/rotation.rb:21-27 | records the matrix, n = rows and m = columns; h2 has one entry per row, each the row's sum of squares and ≥ 0; no rotated matrix or transformation yet |
| Sweeps.Communalities | lib/statsample/factor/rotation.rb:26 | h2 as the squared matrix times a column of m ones; that each entry is the row's sum of squares is stated by CommunalitiesAreRowSumsOfSquares |
| Sweeps.CommunalitiesAreRowSumsOfSquares | lib/statsample/factor/rotation.rb:26 | the product of the squared matrix with a column of m ones gives each row's sum of squares, which is ≥ 0, and 0 for an all-zero row |
| Matrices.SquaresTimesOnes | lib/statsample/factor/rotation.rb:26 | a row of squares dotted with m ones is the row's sum of squares |
| Sweeps.Roots | lib/statsample/factor/rotation.rb:34 | the diagonal of H, √h2 through `root`; StartIsNormalised and IteratedIsProduct state what H and H⁻¹ do to the rows |
| Sweeps.Inverses | lib/statsample/factor/rotation.rb:35 | the diagonal of H⁻¹: 1/h, and 0 where h is 0; StartIsNormalised states that H⁻¹B has unit or zero rows, ScaledBack that H undoes it |
| Sweeps.StartIsNormalised | lib/statsample/factor/rotation.rb:32-36 | after bh = H⁻¹B each row of bh has sum of squares 1, or is all zero where h2 is 0 (1/√h2, or 0 where √h2 = 0); t = I is orthonormal |
| Sweeps.Start | lib/statsample/factor/rotation.rb:32-38 | the start state has bh n×m, t m×m and the flag set |
| Matrices.IdentityIsOrthonormal | lib/statsample/factor/rotation.rb:32 | the identity has orthonormal columns |
| Sweeps.Uu | lib/statsample/factor/rotation.rb:52 | uu[k] = xx[k]² − yy[k]²; its sum is stated by SumOfUu |
| Sweeps.Vv | lib/statsample/factor/rotation.rb:53 | vv[k] = 2·xx[k]·yy[k]; its sum is stated by SumOfVv |
| Sweeps.SumOfUu | lib/statsample/factor/rotation.rb:52-55 | the sum of uu is ‖xx‖² − ‖yy‖² |
| Sweeps.SumOfVv | lib/statsample/factor/rotation.rb:53-56 | the sum of vv is 2 xx·yy |
| Sweeps.Reduce | lib/statsample/factor/rotation.rb:52-58 | the four sums a, b, c, d of one pair; their closed forms are stated by ReduceSums |
| Sweeps.ReduceSums | lib/statsample/factor/rotation.rb:52-58 | a = ‖xx‖² − ‖yy‖², b = 2 xx·yy, and c and d are the same two quantities for uu and vv |
| Sweeps.HooksAreOrthomax | lib/statsample/factor/rotation.rb:59-60 | the x and y a run calls for the pair sums are the orthomax numerator and denominator with the subclass's weight (1, m/2, 0); Quartimax's are d and c whatever a, b and n, so it is defined with no variables |
| Criteria.X | lib/statsample/factor/rotation.rb:100-119 | the subclass numerators d − 2ab/n (Varimax), d − m·ab/n (Equimax) and d (Quartimax), with n as a float; what they mean is stated by CriteriaAreOrthomax |
| Criteria.Y | lib/statsample/factor/rotation.rb:104-122 | the subclass denominators c − (a² − b²)/n, c − m·(a² − b²)/(2n) and c; what they mean is stated by CriteriaAreOrthomax |
| Criteria.CriteriaAreOrthomax | lib/statsample/factor/rotation.rb:99-122 | Varimax, Equimax and Quartimax x and y are the orthomax numerator and denominator with weight 1, m/2 and 0 |
| Criteria.EquimaxIsVarimaxForTwoFactors | lib/statsample/factor/rotation.rb:107-114 | with m = 2, Equimax's x and y equal Varimax's |
| Sweeps.PairAngle | lib/statsample/factor/rotation.rb:59-61 | the angle from `turn` of the subclass's x and y at the pair's sums; HooksAreOrthomax states which x and y, PairStepKeepsInvariant uses that it is a unit angle |
| Sweeps.Significant | lib/statsample/factor/rotation.rb:64 | the test sin(abs φ) ≥ 1e-15, taken as abs(sin φ) ≥ 1e-15; PairStepEffect states what each outcome does |
| Sweeps.PairStep | lib/statsample/factor/rotation.rb:47-90 | one pair keeps bh n×m and t m×m |
| Sweeps.PairStepEffect | lib/statsample/factor/rotation.rb:64-89 | only columns i and j of bh and t can change; a rotated pair keeps the counter and flag; a skipped pair keeps both matrices, decrements the counter and clears the flag exactly when the counter reaches 0 |
| Matrices.SetColumnsFrame | lib/statsample/factor/rotation.rb:73-86 | the two-column write puts the rotated vectors in columns i and j, keeps the shape and changes no other entry |
| Matrices.WriteColumns | lib/statsample/factor/rotation.rb:73-86 | the row-by-row write loop produces exactly the matrix with columns i and j replaced |
| Matrices.RotateColumns | lib/statsample/factor/rotation.rb:65-86 | columns i and j replaced by cos φ·x + sin φ·y and −sin φ·x + cos φ·y; RotateColumnsKeepsRows, RotateColumnsKeepsOrthonormal and TimesRotateColumns state what it keeps |
| Matrices.RowRotationKeepsNorm | lib/statsample/factor/rotation.rb:65-66 | rotating entries i and j of one row by a unit angle keeps its sum of squares |
| Matrices.RotateColumnsKeepsRows | lib/statsample/factor/rotation.rb:65-78 | a pair rotation keeps each row's sum of squares, keeps zero rows zero and changes only columns i and j |
| Matrices.RotateColumnsKeepsOrthonormal | lib/statsample/factor/rotation.rb:69-83 | rotating two columns of an orthonormal t by a unit angle keeps tᵀt = I |
| Matrices.PairDots | lib/statsample/factor/rotation.rb:69-70 | the two rotated columns of an orthonormal pair are unit vectors and orthogonal |
| Matrices.TimesIdentity | lib/statsample/factor/rotation.rb:32-36 | a matrix times the identity is itself, so bh = H⁻¹B is H⁻¹B·t at the start |
| Matrices.TimesRotateColumns | lib/statsample/factor/rotation.rb:65-86 | rotating columns i and j of t by φ rotates the same columns of a·t by φ, which is why bh and t are rotated together |
| Sweeps.StartTracks | lib/statsample/factor/rotation.rb:32-36 | the start state satisfies bh = bh₀·t with bh₀ = H⁻¹B and t = I |
| Sweeps.PairStepTracks | lib/statsample/factor/rotation.rb:64-89 | a pair step keeps bh = bh₀·t |
| Sweeps.PairStepKeepsInvariant | lib/statsample/factor/rotation.rb:64-89 | a pair step keeps the unit (or zero) rows of bh and the orthonormal columns of t |
| FactorRotation.UpdatePair | lib/statsample/factor/rotation.rb:47-89 | the body of the inner loop for pair (i, j) yields exactly the pair step of the value model |
| FactorRotation.SweepRow | lib/statsample/factor/rotation.rb:45-91 | the inner loop applies the pair step to (i, i+1), …, (i, m−1) in order and keeps the shapes |
| FactorRotation.SweepPairs | lib/statsample/factor/rotation.rb:44-92 | the two nested loops apply the pair step to exactly the pairs of one sweep, in lexicographic order |
| Sweeps.Sweep | lib/statsample/factor/rotation.rb:44-92 | sweeping any valid pairs keeps bh n×m and t m×m |
| Sweeps.SweepIsFold | lib/statsample/factor/rotation.rb:44-92 | (proof helper) a sweep is the fold of the pair step over its pairs |
| Sweeps.RowStep | lib/statsample/factor/rotation.rb:45-47 | (proof helper) pair (i, j) of the inner loop continues the fold of the pairs before it in the row |
| PairOrder.PairsOfSweep | lib/statsample/factor/rotation.rb:43-45 | a sweep visits m(m−1)/2 pairs, exactly those with i < j < m, each once, in strictly increasing lexicographic order |
| PairOrder.RowPairsShape | lib/statsample/factor/rotation.rb:45 | the inner loop's k-th pair is (i, lo + k), and there are hi − lo of them |
| PairOrder.RowPairsMembers | lib/statsample/factor/rotation.rb:45 | the inner loop visits exactly the pairs (i, j) with lo ≤ j < hi |
| PairOrder.PairsBelowLength | lib/statsample/factor/rotation.rb:44-45 | the rows before i hold i(2m − i − 1)/2 pairs |
| PairOrder.PairsBelowMembers | lib/statsample/factor/rotation.rb:44-45 | the rows before i hold exactly the pairs with first index below i |
| PairOrder.PairsBelowIncreasing | lib/statsample/factor/rotation.rb:44-45 | the pairs of the rows before i are in strictly increasing lexicographic order |
| PairOrder.RowPairsIncreasing | lib/statsample/factor/rotation.rb:45 | the inner loop visits its pairs in strictly increasing order |
| PairOrder.RowFollowsBelow | lib/statsample/factor/rotation.rb:44-45 | every pair of row i comes after every pair of the rows before it |
| PairOrder.IncreasingAppend | lib/statsample/factor/rotation.rb:44-45 | (proof helper) two increasing runs, the first wholly below the second, form one increasing run |
| PairOrder.RowFoldIsFold | lib/statsample/factor/rotation.rb:45 | the inner loop's fold is the fold over that row's pairs |
| PairOrder.NestedFoldIsFold | lib/statsample/factor/rotation.rb:44-45 | the outer loop's fold up to row i is the fold over the pairs of the rows before i |
| PairOrder.NestedLoopsFoldPairs | lib/statsample/factor/rotation.rb:44-45 | the two nested loops fold over exactly the pairs of a sweep |
| PairOrder.FoldAppend | lib/statsample/factor/rotation.rb:44-45 | (proof helper) folding over a + b is folding over a, then over b from where a ended |
| Sweeps.Skips | lib/statsample/factor/rotation.rb:87-88 | the number of skipped pairs never exceeds the number of pairs swept |
| Sweeps.SweepCounter | lib/statsample/factor/rotation.rb:43-89 | after a sweep the counter is its start value minus the skipped pairs; the flag is cleared exactly when a positive start count was all skipped |
| Sweeps.SweepConvergesIffAllPairsSkip | lib/statsample/factor/rotation.rb:43-89 | starting from m(m−1)/2 with the flag set, a sweep clears the flag if and only if m ≥ 2 and every pair was skipped |
| Sweeps.SweepSkippingAllKeepsMatrices | lib/statsample/factor/rotation.rb:64-89 | a sweep that skips every pair leaves bh and t unchanged |
| Sweeps.SweepDependsOnMatrices | lib/statsample/factor/rotation.rb:47-86 | the matrices a sweep produces and the pairs it skips depend only on bh and t, not on the counter or the flag |
| Sweeps.SweepKeepsInvariant | lib/statsample/factor/rotation.rb:44-92 | a sweep keeps the unit (or zero) rows of bh and the orthonormal columns of t |
| Sweeps.SweepTracks | lib/statsample/factor/rotation.rb:44-92 | a sweep keeps bh = bh₀·t |
| Sweeps.Run | lib/statsample/factor/rotation.rb:39-93 | the outer loop counts between the starting count and max(start, max_i + 1) sweeps; it counts at least one more when entered unconverged within the bound; and it ends unconverged only at max(start, max_i + 1) |
| Sweeps.RunSweeps | lib/statsample/factor/rotation.rb:39-43 | (proof helper) an unconverged turn within the bound counts one sweep, resets the counter to m(m−1)/2 and sweeps all pairs |
| Sweeps.RunStops | lib/statsample/factor/rotation.rb:39-40 | (proof helper) the loop stops once converged or past the bound |
| Sweeps.RunKeepsInvariant | lib/statsample/factor/rotation.rb:39-93 | the whole run keeps the unit (or zero) rows of bh and the orthonormal t |
| Sweeps.RunTracks | lib/statsample/factor/rotation.rb:39-93 | the whole run keeps bh = bh₀·t |
| Sweeps.ConvergedRunIsFixedPoint | lib/statsample/factor/rotation.rb:39-89 | a run that ends converged has m ≥ 2, and one more sweep from its final bh and t would skip every pair |
| Sweeps.FewFactorsRunToTheBound | lib/statsample/factor/rotation.rb:39-45 | with m < 2 nothing rotates, the flag stays set and the run counts max(start, max_i + 1) sweeps |
| Sweeps.Rescaled | lib/statsample/factor/rotation.rb:94 | multiplying a normalised row by √h2 gives sum of squares h2, and a zero row back when h2 = 0 |
| Sweeps.Rotated | lib/statsample/factor/rotation.rb:94 | H·bh; IteratedKeepsCommunalities and IteratedIsProduct state what it is after a run |
| Sweeps.IteratedKeepsCommunalities | lib/statsample/factor/rotation.rb:31-96 | H·bh is n×m; each row keeps its sum of squares, which is its communality, so total variance is kept; zero rows stay zero; t is orthonormal; iterations ≤ max(0, max_i + 1), ≥ 1 when max_i ≥ 0, and equal to the bound when unconverged |
| Sweeps.ScaledBack | lib/statsample/factor/rotation.rb:34-35 | multiplying a row by 1/h and then by h ≠ 0 gives the row back |
| Sweeps.IteratedIsProduct | lib/statsample/factor/rotation.rb:31-96 | the stored rotated loadings H·bh are exactly the input loadings times the stored transformation, B·t, rows with h2 = 0 included |
| FactorRotation.Rotation.Iterate | lib/statsample/factor/rotation.rb:31-97 | max_i defaults to 25; each call restarts from t = I and bh = H⁻¹B; it stores the run's iteration count, flag, H·bh (also returned) and t; the result is n×m, the result is the input matrix times the stored t, each row's sum of squares equals h2, zero rows stay zero, t is orthonormal, and the iteration count meets the bounds |

## Left out

- Floating point is not modelled. The arithmetic is over exact reals, and `MAX_PRECISION` = 1e-15 is the exact real 10⁻¹⁵. Rounding, NaN and the last-bit behaviour of the convergence test are not captured.
- `Math.sqrt` is the parameter `root`, constrained only to be a square root on the non-negative reals.
- `Math.atan2`, `Math.sin` and `Math.cos` are replaced by the parameter `turn(num, den)`. It returns the cosine and sine of φ = atan2(num, den)/4 as an `Angle` with cos² + sin² = 1. The test sin|φ| ≥ 1e-15 is modelled as |sin φ| ≥ 1e-15, which is the same because φ lies in [−π/4, π/4].
- Nothing is proved about the angle being the one that improves the criterion, or that the sweeps converge. The model states only what every run keeps and how it stops.
- FactorRotation.Rotation.Iterate: requires n > 0 unless the criterion is Quartimax. Varimax and Equimax divide by n as a float, and with no rows Ruby computes with NaN there. Quartimax never divides, so its run with no rows is modelled.
- Sweeps.ForCriterion: requires n > 0 unless the criterion is Quartimax, for the same reason.
- The base class `Rotation` defines no x and y. Calling `iterate` on it fails with NoMethodError as soon as a pair is visited, that is when m ≥ 2; with m < 2 it returns normally. The model only has the three subclasses, as the `Criterion` values.
- The constructor's `opts` hash is unused by the code and is not modelled. The readers and the aliases `communalities` and `rotated_component_matrix` (lines 20, 28-29) are the class's public fields.
- Before the first `iterate`, `@iterations` and `@not_converged` are nil in Ruby. They are 0 and false in the model, and `@rotated` is `None`.
- Ruby `Matrix` values and the copies made by `to_a` and `Matrix.rows` are modelled as sequence values. The write of two columns is a loop over the rows of such a value.
- The counter `num_pairs` starts at `@m*(@m-1).quo(2)`, a Rational. The model uses the integer m(m−1)/2, which is the same number because m(m−1) is even.
- FactorRotation.SweepPairs: during a sweep Ruby clears `@not_converged` on the object itself. The model carries the flag in the returned state, and `Iterate` writes it to the field after each sweep. Nothing reads the field inside a sweep, so the stored values are the same.
