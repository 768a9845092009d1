/** The rotation run as values: the communalities, the normalised start, one
    pair step, one sweep over all pairs, and the outer loop with its
    iteration bound. The class in rotation.dfy runs the same steps with
    loops and is proved equal to these functions; the lemmas here say what
    the run keeps and when it stops. */
module Sweeps {
  import opened Matrices
  import opened Criteria
  import opened PairOrder

  /** MAX_PRECISION: a pair whose rotation sine is below this is converged. */
  const MaxPrecision: real := 0.000000000000001

  /** The four column sums of one pair. */
  datatype Reductions = Reductions(a: real, b: real, c: real, d: real)

  /** What one run depends on besides the matrices: the dimensions, the
      criterion's x and y (the subclass hooks) as functions of the column
      sums, and the angle atan2(num, den) / 4 as its cosine and sine. */
  datatype Setup = Setup(n: nat, m: nat, x: Reductions -> real, y: Reductions -> real, turn: (real, real) -> Angle)

  /** The state the sweep updates: bh, t, the per-sweep counter of pairs not
      yet found converged, and the not-converged flag. */
  datatype Work = Work(bh: Matrix, t: Matrix, numPairs: int, notConverged: bool)

  /** The setup of a rotation object of the given criterion: the subclass's
      x and y for n variables and m factors. */
  function ForCriterion(criterion: Criterion, n: nat, m: nat, turn: (real, real) -> Angle): (s: Setup)
    requires n > 0 || criterion == Quartimax
    ensures s.n == n && s.m == m && s.turn == turn
  {
    Setup(n, m, (r: Reductions) => X(criterion, r.a, r.b, r.c, r.d, n, m), (r: Reductions) => Y(criterion, r.a, r.b, r.c, r.d, n, m), turn)
  }

  /** The hooks a run calls are the orthomax numerator and denominator with
      the criterion's weight; Quartimax's ignore a, b and n, so it needs no
      variables. */
  lemma {:induction false} HooksAreOrthomax(criterion: Criterion, n: nat, m: nat, turn: (real, real) -> Angle)
    requires n > 0 || criterion == Quartimax
    ensures var s := ForCriterion(criterion, n, m, turn);
      n > 0 ==> forall r: Reductions ::
        s.x(r) == OrthomaxX(Weight(criterion, m), r.a, r.b, r.d, n) &&
        s.y(r) == OrthomaxY(Weight(criterion, m), r.a, r.b, r.c, n)
    ensures var s := ForCriterion(criterion, n, m, turn);
      criterion == Quartimax ==> forall r: Reductions :: s.x(r) == r.d && s.y(r) == r.c
  {
    var s := ForCriterion(criterion, n, m, turn);
    if n > 0 {
      forall r: Reductions
        ensures s.x(r) == OrthomaxX(Weight(criterion, m), r.a, r.b, r.d, n)
        ensures s.y(r) == OrthomaxY(Weight(criterion, m), r.a, r.b, r.c, n)
      {
        CriteriaAreOrthomax(criterion, r.a, r.b, r.c, r.d, n, m);
      }
    }
  }

  function Abs(x: real): real
  {
    if x < 0.0 then -x else x
  }

  function Max(x: int, y: int): int
  {
    if x < y then y else x
  }

  /** `root` is a square root on the non-negative reals. */
  ghost predicate SquareRoot(root: real -> real)
  {
    forall x :: 0.0 <= x ==> 0.0 <= root(x) && root(x) * root(x) == x
  }

  /** Every angle `turn` produces has cos^2 + sin^2 = 1. */
  ghost predicate UnitTurns(turn: (real, real) -> Angle)
  {
    forall num, den :: IsUnit(turn(num, den))
  }

  predicate Shaped(s: Setup, w: Work)
  {
    IsMatrix(w.bh, s.n, s.m) && IsMatrix(w.t, s.m, s.m)
  }

  /** h2: the squared loadings times a column of m ones. */
  function Communalities(matrix: Matrix, m: nat): seq<real>
    requires IsMatrix(matrix, |matrix|, m)
  {
    seq(|matrix|, k requires 0 <= k < |matrix| => Dot(Squares(matrix[k]), Ones(m)))
  }

  /** Each communality is its row's sum of squared loadings, so it is never
      negative, and an all-zero row has communality 0. */
  lemma {:induction false} CommunalitiesAreRowSumsOfSquares(matrix: Matrix, m: nat)
    requires IsMatrix(matrix, |matrix|, m)
    ensures |Communalities(matrix, m)| == |matrix|
    ensures forall k :: 0 <= k < |matrix| ==>
      Communalities(matrix, m)[k] == SumSq(matrix[k]) && Communalities(matrix, m)[k] >= 0.0
    ensures forall k :: 0 <= k < |matrix| && IsZero(matrix[k]) ==> Communalities(matrix, m)[k] == 0.0
  {
    forall k | 0 <= k < |matrix|
      ensures Communalities(matrix, m)[k] == SumSq(matrix[k])
    {
      SquaresTimesOnes(matrix[k]);
    }
    forall k | 0 <= k < |matrix| && IsZero(matrix[k])
      ensures SumSq(matrix[k]) == 0.0
    {
      SumSqOfZero(matrix[k]);
    }
  }

  /** The diagonal of H: the square roots of the communalities. */
  function Roots(h2: seq<real>, root: real -> real): Vector
  {
    seq(|h2|, k requires 0 <= k < |h2| => root(h2[k]))
  }

  /** The diagonal of H^-1, with 0 where the root is 0. */
  function Inverses(h: Vector): Vector
  {
    seq(|h|, k requires 0 <= k < |h| => if h[k] != 0.0 then 1.0 / h[k] else 0.0)
  }

  /** bh = H^-1 B and t = I, from which every run starts. */
  function Start(s: Setup, matrix: Matrix, root: real -> real): (w: Work)
    requires IsMatrix(matrix, s.n, s.m)
    ensures Shaped(s, w) && w.notConverged
  {
    Work(ScaleRows(Inverses(Roots(Communalities(matrix, s.m), root)), matrix), Identity(s.m), 0, true)
  }

  ghost predicate Normalised(bh: Matrix, h2: seq<real>)
  {
    |bh| == |h2| &&
    forall k :: 0 <= k < |bh| ==>
      (h2[k] == 0.0 ==> IsZero(bh[k])) && (h2[k] != 0.0 ==> SumSq(bh[k]) == 1.0)
  }

  /** What every state of a run satisfies: the dimensions, unit rows in bh
      (zero rows where the communality is 0), orthonormal columns in t. */
  ghost predicate Invariant(s: Setup, w: Work, h2: seq<real>)
  {
    Shaped(s, w) && Normalised(w.bh, h2) && Orthonormal(w.t, s.m)
  }

  /** Dividing each row by the root of its communality makes it a unit row;
      a row with communality 0 is scaled by 0. */
  lemma {:induction false} StartIsNormalised(s: Setup, matrix: Matrix, root: real -> real)
    requires IsMatrix(matrix, s.n, s.m) && SquareRoot(root)
    ensures Invariant(s, Start(s, matrix, root), Communalities(matrix, s.m))
  {
    var h2 := Communalities(matrix, s.m);
    var h := Roots(h2, root);
    var hInverse := Inverses(h);
    var bh := Start(s, matrix, root).bh;
    CommunalitiesAreRowSumsOfSquares(matrix, s.m);
    forall k | 0 <= k < s.n
      ensures h2[k] == 0.0 ==> IsZero(bh[k])
      ensures h2[k] != 0.0 ==> SumSq(bh[k]) == 1.0
    {
      assert h[k] * h[k] == h2[k];
      assert bh[k] == Scale(hInverse[k], matrix[k]);
      SumSqScale(hInverse[k], matrix[k]);
      if h2[k] != 0.0 {
        assert h[k] != 0.0;
        assert hInverse[k] * h[k] == 1.0;
        assert hInverse[k] * hInverse[k] * (h[k] * h[k]) == (hInverse[k] * h[k]) * (hInverse[k] * h[k]);
      } else {
        assert h[k] == 0.0;
      }
    }
    IdentityIsOrthonormal(s.m);
  }

  /** Multiplying a normalised row by the root of its communality gives a
      row whose sum of squares is the communality, and a zero row back. */
  lemma {:induction false} Rescaled(hk: real, h2k: real, row: Vector)
    requires hk * hk == h2k
    requires h2k == 0.0 ==> IsZero(row)
    requires h2k != 0.0 ==> SumSq(row) == 1.0
    ensures SumSq(Scale(hk, row)) == h2k
    ensures h2k == 0.0 ==> IsZero(Scale(hk, row))
  {
    SumSqScale(hk, row);
    if h2k == 0.0 {
      SumSqOfZero(row);
    }
  }

  /** uu[k] = xx[k]^2 - yy[k]^2. */
  function Uu(xx: Vector, yy: Vector): Vector
    requires |xx| == |yy|
  {
    seq(|xx|, k requires 0 <= k < |xx| => xx[k] * xx[k] - yy[k] * yy[k])
  }

  /** vv[k] = 2 xx[k] yy[k]. */
  function Vv(xx: Vector, yy: Vector): Vector
    requires |xx| == |yy|
  {
    seq(|xx|, k requires 0 <= k < |xx| => 2.0 * xx[k] * yy[k])
  }

  lemma {:induction false} SumOfUu(xx: Vector, yy: Vector)
    requires |xx| == |yy|
    ensures Sum(Uu(xx, yy)) == SumSq(xx) - SumSq(yy)
  {
    var n := |xx|;
    if n > 0 {
      var u, u' := Uu(xx, yy), Uu(xx[..n - 1], yy[..n - 1]);
      assert forall k :: 0 <= k < n - 1 ==> u[..n - 1][k] == u'[k];
      assert u[..n - 1] == u';
      SumOfUu(xx[..n - 1], yy[..n - 1]);
    }
  }

  lemma {:induction false} SumOfVv(xx: Vector, yy: Vector)
    requires |xx| == |yy|
    ensures Sum(Vv(xx, yy)) == 2.0 * Dot(xx, yy)
  {
    var n := |xx|;
    if n > 0 {
      var v, v' := Vv(xx, yy), Vv(xx[..n - 1], yy[..n - 1]);
      assert forall k :: 0 <= k < n - 1 ==> v[..n - 1][k] == v'[k];
      assert v[..n - 1] == v';
      SumOfVv(xx[..n - 1], yy[..n - 1]);
    }
  }

  /** a = sum uu, b = sum vv, c = sum (uu^2 - vv^2), d = sum 2 uu vv. */
  function Reduce(xx: Vector, yy: Vector): Reductions
    requires |xx| == |yy|
  {
    var uu, vv := Uu(xx, yy), Vv(xx, yy);
    Reductions(Sum(uu), Sum(vv), Sum(Uu(uu, vv)), Sum(Vv(uu, vv)))
  }

  /** Since (uu, vv) is (xx, yy) mapped through (x, y) -> (x^2 - y^2, 2xy),
      a is the difference of the columns' sums of squares, b twice their dot
      product, and c, d are the same two quantities one level up. */
  lemma {:induction false} ReduceSums(xx: Vector, yy: Vector)
    requires |xx| == |yy|
    ensures var r := Reduce(xx, yy);
      r.a == SumSq(xx) - SumSq(yy) && r.b == 2.0 * Dot(xx, yy) &&
      r.c == SumSq(Uu(xx, yy)) - SumSq(Vv(xx, yy)) && r.d == 2.0 * Dot(Uu(xx, yy), Vv(xx, yy))
  {
    var uu, vv := Uu(xx, yy), Vv(xx, yy);
    SumOfUu(xx, yy);
    SumOfVv(xx, yy);
    SumOfUu(uu, vv);
    SumOfVv(uu, vv);
  }

  /** The angle for pair (i, j): the column sums, the criterion's x and y,
      and the cosine and sine of atan2(x, y) / 4. */
  function PairAngle(s: Setup, bh: Matrix, i: nat, j: nat): Angle
    requires IsMatrix(bh, s.n, s.m) && i < s.m && j < s.m
  {
    var r := Reduce(Col(bh, i), Col(bh, j));
    s.turn(s.x(r), s.y(r))
  }

  /** sin(|phi|) >= MAX_PRECISION. As phi = atan2(num, den) / 4 lies in
      [-pi/4, pi/4], sin(|phi|) is |sin(phi)|. */
  predicate Significant(g: Angle)
  {
    Abs(g.si) >= MaxPrecision
  }

  /** One pair: rotate columns i and j of bh and t, or count the pair as
      converged and clear the flag when the counter reaches 0. */
  function PairStep(s: Setup, w: Work, p: Pair): (r: Work)
    requires Shaped(s, w) && p.0 < p.1 < s.m
    ensures Shaped(s, r)
  {
    var g := PairAngle(s, w.bh, p.0, p.1);
    if Significant(g) then
      w.(bh := RotateColumns(w.bh, p.0, p.1, g), t := RotateColumns(w.t, p.0, p.1, g))
    else
      w.(numPairs := w.numPairs - 1, notConverged := if w.numPairs - 1 == 0 then false else w.notConverged)
  }

  /** Only columns i and j of bh and t can change; a rotated pair leaves
      the counter and the flag alone, and a skipped pair changes neither
      matrix, decrements the counter and clears the flag when it hits 0. */
  lemma {:induction false} PairStepEffect(s: Setup, w: Work, p: Pair)
    requires Shaped(s, w) && p.0 < p.1 < s.m
    ensures var r := PairStep(s, w, p);
      (forall k, c :: 0 <= k < s.n && 0 <= c < s.m && c != p.0 && c != p.1 ==> r.bh[k][c] == w.bh[k][c]) &&
      (forall k, c :: 0 <= k < s.m && 0 <= c < s.m && c != p.0 && c != p.1 ==> r.t[k][c] == w.t[k][c])
    ensures var r := PairStep(s, w, p);
      Significant(PairAngle(s, w.bh, p.0, p.1)) ==> r.numPairs == w.numPairs && r.notConverged == w.notConverged
    ensures var r := PairStep(s, w, p);
      !Significant(PairAngle(s, w.bh, p.0, p.1)) ==>
        r.bh == w.bh && r.t == w.t && r.numPairs == w.numPairs - 1 &&
        r.notConverged == (w.notConverged && w.numPairs != 1)
  {
  }

  /** The pairs `ps` applied in order, each seeing the columns the earlier
      ones rotated. */
  function Sweep(s: Setup, w: Work, ps: seq<Pair>): (r: Work)
    requires Shaped(s, w) && ValidPairs(ps, s.m)
    ensures Shaped(s, r)
    decreases |ps|
  {
    if ps == [] then w
    else
      var prefix := ps[..|ps| - 1];
      assert forall q :: q in prefix ==> q in ps;
      PairStep(s, Sweep(s, w, prefix), ps[|ps| - 1])
  }

  /** How many of the pairs `ps` a sweep finds converged. */
  function Skips(s: Setup, w: Work, ps: seq<Pair>): (k: nat)
    requires Shaped(s, w) && ValidPairs(ps, s.m)
    ensures k <= |ps|
    decreases |ps|
  {
    if ps == [] then 0
    else
      var prefix, last := ps[..|ps| - 1], ps[|ps| - 1];
      assert forall q :: q in prefix ==> q in ps;
      Skips(s, w, prefix) + if Significant(PairAngle(s, Sweep(s, w, prefix).bh, last.0, last.1)) then 0 else 1
  }

  /** The outer loop from `iterations` sweeps done: stop when converged or
      when the count exceeds maxI, otherwise count one more sweep, reset the
      counter to m(m-1)/2 and sweep all pairs. */
  function Run(s: Setup, w: Work, iterations: nat, maxI: int): (r: (nat, Work))
    requires Shaped(s, w)
    ensures Shaped(s, r.1)
    ensures iterations <= r.0 <= Max(iterations, maxI + 1)
    ensures w.notConverged && iterations <= maxI ==> iterations < r.0
    ensures r.1.notConverged ==> r.0 == Max(iterations, maxI + 1)
    decreases if iterations > maxI then 0 else maxI - iterations + 1
  {
    if !w.notConverged || iterations > maxI then (iterations, w)
    else
      PairsOfSweep(s.m);
      Run(s, Sweep(s, w.(numPairs := Total(s.m)), Pairs(s.m)), iterations + 1, maxI)
  }

  /** One pair step as a total function, so that the loops of a sweep can
      be stated as folds over the pairs. */
  function Step(s: Setup): (Work, Pair) -> Work
  {
    (w: Work, p: Pair) => if Shaped(s, w) && p.0 < p.1 < s.m then PairStep(s, w, p) else w
  }

  /** A sweep is the fold of the pair step over its pairs. */
  lemma {:induction false} SweepIsFold(s: Setup, w: Work, ps: seq<Pair>)
    requires Shaped(s, w) && ValidPairs(ps, s.m)
    ensures Sweep(s, w, ps) == Fold(Step(s), w, ps)
    decreases |ps|
  {
    if ps != [] {
      var prefix := ps[..|ps| - 1];
      assert forall q :: q in prefix ==> q in ps;
      SweepIsFold(s, w, prefix);
    }
  }

  /** The inner loop's step: pair (i, j) follows the pairs (i, i + 1), ...,
      (i, j - 1). */
  lemma {:induction false} RowStep(s: Setup, w0: Work, w: Work, next: Work, i: nat, j: nat)
    requires Shaped(s, w) && i < j < s.m && w == RowFold(Step(s), w0, i, j)
    requires next == PairStep(s, w, (i, j))
    ensures next == RowFold(Step(s), w0, i, j + 1)
  {
  }

  /** The outer loop, one turn: a sweep when not converged and within the bound. */
  lemma {:induction false} RunSweeps(s: Setup, w: Work, iterations: nat, maxI: int)
    requires Shaped(s, w) && w.notConverged && iterations <= maxI
    ensures ValidPairs(Pairs(s.m), s.m)
    ensures Run(s, w, iterations, maxI) == Run(s, Sweep(s, w.(numPairs := Total(s.m)), Pairs(s.m)), iterations + 1, maxI)
  {
    PairsOfSweep(s.m);
  }

  /** The outer loop ends once converged or beyond the bound. */
  lemma {:induction false} RunStops(s: Setup, w: Work, iterations: nat, maxI: int)
    requires Shaped(s, w) && (!w.notConverged || iterations > maxI)
    ensures Run(s, w, iterations, maxI) == (iterations, w)
  {
  }

  /** A run from the normalised start of `matrix`. */
  function Iterated(s: Setup, matrix: Matrix, root: real -> real, maxI: int): (nat, Work)
    requires IsMatrix(matrix, s.n, s.m)
  {
    Run(s, Start(s, matrix, root), 0, maxI)
  }

  /** H bh: the rotated loadings. */
  function Rotated(s: Setup, matrix: Matrix, root: real -> real, bh: Matrix): Matrix
    requires IsMatrix(matrix, |matrix|, s.m) && |bh| == |matrix|
  {
    ScaleRows(Roots(Communalities(matrix, s.m), root), bh)
  }

  function RowSumSqs(a: Matrix): Vector
  {
    seq(|a|, k requires 0 <= k < |a| => SumSq(a[k]))
  }

  lemma {:induction false} PairStepKeepsInvariant(s: Setup, w: Work, h2: seq<real>, p: Pair)
    requires Invariant(s, w, h2) && p.0 < p.1 < s.m && UnitTurns(s.turn)
    ensures Invariant(s, PairStep(s, w, p), h2)
  {
    var r := Reduce(Col(w.bh, p.0), Col(w.bh, p.1));
    var g := PairAngle(s, w.bh, p.0, p.1);
    if Significant(g) {
      var num, den := s.x(r), s.y(r);
      assert g == s.turn(num, den);
      assert IsUnit(s.turn(num, den));
      RotateColumnsKeepsRows(w.bh, p.0, p.1, g);
      RotateColumnsKeepsOrthonormal(w.t, s.m, p.0, p.1, g);
    }
  }

  lemma {:induction false} SweepKeepsInvariant(s: Setup, w: Work, h2: seq<real>, ps: seq<Pair>)
    requires Invariant(s, w, h2) && ValidPairs(ps, s.m) && UnitTurns(s.turn)
    ensures Invariant(s, Sweep(s, w, ps), h2)
    decreases |ps|
  {
    if ps != [] {
      var prefix := ps[..|ps| - 1];
      assert forall q :: q in prefix ==> q in ps;
      SweepKeepsInvariant(s, w, h2, prefix);
      PairStepKeepsInvariant(s, Sweep(s, w, prefix), h2, ps[|ps| - 1]);
    }
  }

  lemma {:induction false} RunKeepsInvariant(s: Setup, w: Work, h2: seq<real>, iterations: nat, maxI: int)
    requires Invariant(s, w, h2) && UnitTurns(s.turn)
    ensures Invariant(s, Run(s, w, iterations, maxI).1, h2)
    decreases if iterations > maxI then 0 else maxI - iterations + 1
  {
    if w.notConverged && iterations <= maxI {
      PairsOfSweep(s.m);
      var w0 := w.(numPairs := Total(s.m));
      SweepKeepsInvariant(s, w0, h2, Pairs(s.m));
      RunKeepsInvariant(s, Sweep(s, w0, Pairs(s.m)), h2, iterations + 1, maxI);
    }
  }

  /** What a run from the normalised start gives: H bh has the input's
      dimensions, each of its rows has the input row's sum of squares, its
      communality (so the total variance is the same), an all-zero input row
      stays zero, t is orthogonal, and at most maxI + 1 sweeps are counted, at
      least one when maxI >= 0 and all of them when the run did not
      converge. */
  lemma {:induction false} IteratedKeepsCommunalities(s: Setup, matrix: Matrix, root: real -> real, maxI: int,
                                                      iterations: nat, w: Work, rotated: Matrix)
    requires IsMatrix(matrix, s.n, s.m) && SquareRoot(root) && UnitTurns(s.turn)
    requires (iterations, w) == Iterated(s, matrix, root, maxI)
    requires rotated == Rotated(s, matrix, root, w.bh)
    ensures IsMatrix(rotated, s.n, s.m)
    ensures forall k :: 0 <= k < s.n ==> SumSq(rotated[k]) == Communalities(matrix, s.m)[k] == SumSq(matrix[k])
    ensures forall k :: 0 <= k < s.n && IsZero(matrix[k]) ==> IsZero(rotated[k])
    ensures Sum(RowSumSqs(rotated)) == Sum(RowSumSqs(matrix))
    ensures Orthonormal(w.t, s.m)
    ensures iterations <= Max(0, maxI + 1) && (maxI >= 0 ==> iterations >= 1)
    ensures w.notConverged ==> iterations == Max(0, maxI + 1)
  {
    var h2 := Communalities(matrix, s.m);
    var h := Roots(h2, root);
    StartIsNormalised(s, matrix, root);
    RunKeepsInvariant(s, Start(s, matrix, root), h2, 0, maxI);
    CommunalitiesAreRowSumsOfSquares(matrix, s.m);
    forall k | 0 <= k < s.n
      ensures SumSq(rotated[k]) == SumSq(matrix[k])
      ensures h2[k] == 0.0 ==> IsZero(rotated[k])
    {
      assert rotated[k] == Scale(h[k], w.bh[k]);
      Rescaled(h[k], h2[k], w.bh[k]);
    }
    assert RowSumSqs(rotated) == RowSumSqs(matrix);
  }

  /** bh = bh0 t: the loadings a run started from, times the transformation
      accumulated since. */
  predicate Tracks(s: Setup, w: Work, start: Matrix)
  {
    Shaped(s, w) && IsMatrix(start, s.n, s.m) && w.bh == Times(start, w.t, s.m)
  }

  /** The start state is its own loadings times t = I. */
  lemma {:induction false} StartTracks(s: Setup, matrix: Matrix, root: real -> real)
    requires IsMatrix(matrix, s.n, s.m)
    ensures Tracks(s, Start(s, matrix, root), Start(s, matrix, root).bh)
  {
    TimesIdentity(Start(s, matrix, root).bh, s.m);
  }

  /** A pair step rotates the same two columns of bh and t, so bh stays
      bh0 t. */
  lemma {:induction false} PairStepTracks(s: Setup, w: Work, start: Matrix, p: Pair)
    requires Tracks(s, w, start) && p.0 < p.1 < s.m
    ensures Tracks(s, PairStep(s, w, p), start)
  {
    var g := PairAngle(s, w.bh, p.0, p.1);
    if Significant(g) {
      TimesRotateColumns(start, w.t, s.m, p.0, p.1, g);
    }
  }

  lemma {:induction false} SweepTracks(s: Setup, w: Work, start: Matrix, ps: seq<Pair>)
    requires Tracks(s, w, start) && ValidPairs(ps, s.m)
    ensures Tracks(s, Sweep(s, w, ps), start)
    decreases |ps|
  {
    if ps != [] {
      var prefix := ps[..|ps| - 1];
      assert forall q :: q in prefix ==> q in ps;
      SweepTracks(s, w, start, prefix);
      PairStepTracks(s, Sweep(s, w, prefix), start, ps[|ps| - 1]);
    }
  }

  lemma {:induction false} RunTracks(s: Setup, w: Work, start: Matrix, iterations: nat, maxI: int)
    requires Tracks(s, w, start)
    ensures Tracks(s, Run(s, w, iterations, maxI).1, start)
    decreases if iterations > maxI then 0 else maxI - iterations + 1
  {
    if w.notConverged && iterations <= maxI {
      PairsOfSweep(s.m);
      var w0 := w.(numPairs := Total(s.m));
      SweepTracks(s, w0, start, Pairs(s.m));
      RunTracks(s, Sweep(s, w0, Pairs(s.m)), start, iterations + 1, maxI);
    }
  }

  /** The rotated loadings are the input loadings times the transformation
      the run accumulated: H bh = H H^-1 B t = B t, rows of communality 0
      included. */
  lemma {:induction false} IteratedIsProduct(s: Setup, matrix: Matrix, root: real -> real, maxI: int,
                                             iterations: nat, w: Work, rotated: Matrix)
    requires IsMatrix(matrix, s.n, s.m) && SquareRoot(root)
    requires (iterations, w) == Iterated(s, matrix, root, maxI)
    requires rotated == Rotated(s, matrix, root, w.bh)
    ensures IsMatrix(w.t, s.m, s.m)
    ensures rotated == Times(matrix, w.t, s.m)
  {
    var h2 := Communalities(matrix, s.m);
    var h := Roots(h2, root);
    var hInverse := Inverses(h);
    StartTracks(s, matrix, root);
    RunTracks(s, Start(s, matrix, root), Start(s, matrix, root).bh, 0, maxI);
    var product := Times(matrix, w.t, s.m);
    CommunalitiesAreRowSumsOfSquares(matrix, s.m);
    forall k | 0 <= k < s.n
      ensures rotated[k] == product[k]
    {
      TimesScaleRows(hInverse, matrix, w.t, s.m, k);
      assert rotated[k] == Scale(h[k], Scale(hInverse[k], product[k]));
      if h[k] != 0.0 {
        ScaledBack(h[k], hInverse[k], product[k]);
      } else {
        assert h[k] * h[k] == h2[k] == 0.0;
        SumSqOfZero(matrix[k]);
        TimesZeroRow(matrix, w.t, s.m, k);
        forall c | 0 <= c < s.m
          ensures rotated[k][c] == product[k][c]
        {
        }
      }
    }
  }

  /** Scaling by 1/h and then by h gives the row back. */
  lemma {:induction false} ScaledBack(hk: real, hInverseK: real, v: Vector)
    requires hk != 0.0 && hInverseK == 1.0 / hk
    ensures Scale(hk, Scale(hInverseK, v)) == v
  {
    assert hk * hInverseK == 1.0;
    var back := Scale(hk, Scale(hInverseK, v));
    forall c | 0 <= c < |v|
      ensures back[c] == v[c]
    {
      assert back[c] == hk * (hInverseK * v[c]) == (hk * hInverseK) * v[c];
    }
  }

  /** The counter after a sweep is its start value minus the skipped pairs,
      and the flag is cleared exactly when the counter reached 0 on a skip. */
  lemma {:induction false} SweepCounter(s: Setup, w: Work, ps: seq<Pair>)
    requires Shaped(s, w) && ValidPairs(ps, s.m) && |ps| <= w.numPairs
    ensures Sweep(s, w, ps).numPairs == w.numPairs - Skips(s, w, ps)
    ensures Sweep(s, w, ps).notConverged ==
      (w.notConverged && !(w.numPairs > 0 && Skips(s, w, ps) == w.numPairs))
    decreases |ps|
  {
    if ps != [] {
      var prefix := ps[..|ps| - 1];
      assert forall q :: q in prefix ==> q in ps;
      SweepCounter(s, w, prefix);
    }
  }

  /** A sweep that starts with the flag set and the counter at m(m-1)/2
      clears the flag if and only if there is at least one pair and every
      pair of the sweep was found converged. */
  lemma {:induction false} SweepConvergesIffAllPairsSkip(s: Setup, w: Work)
    requires Shaped(s, w) && w.notConverged && w.numPairs == Total(s.m)
    ensures ValidPairs(Pairs(s.m), s.m)
    ensures !Sweep(s, w, Pairs(s.m)).notConverged <==>
      s.m >= 2 && Skips(s, w, Pairs(s.m)) == |Pairs(s.m)|
  {
    PairsOfSweep(s.m);
    SweepCounter(s, w, Pairs(s.m));
  }

  /** A sweep in which every pair was skipped leaves bh and t as they were. */
  lemma {:induction false} SweepSkippingAllKeepsMatrices(s: Setup, w: Work, ps: seq<Pair>)
    requires Shaped(s, w) && ValidPairs(ps, s.m) && Skips(s, w, ps) == |ps|
    ensures Sweep(s, w, ps).bh == w.bh && Sweep(s, w, ps).t == w.t
    decreases |ps|
  {
    if ps != [] {
      var prefix := ps[..|ps| - 1];
      assert forall q :: q in prefix ==> q in ps;
      SweepSkippingAllKeepsMatrices(s, w, prefix);
    }
  }

  /** What a sweep does to bh and t, and which pairs it skips, depends only
      on bh and t, not on the counter or the flag. */
  lemma {:induction false} SweepDependsOnMatrices(s: Setup, w1: Work, w2: Work, ps: seq<Pair>)
    requires Shaped(s, w1) && Shaped(s, w2) && ValidPairs(ps, s.m)
    requires w1.bh == w2.bh && w1.t == w2.t
    ensures Sweep(s, w1, ps).bh == Sweep(s, w2, ps).bh && Sweep(s, w1, ps).t == Sweep(s, w2, ps).t
    ensures Skips(s, w1, ps) == Skips(s, w2, ps)
    decreases |ps|
  {
    if ps != [] {
      var prefix := ps[..|ps| - 1];
      assert forall q :: q in prefix ==> q in ps;
      SweepDependsOnMatrices(s, w1, w2, prefix);
    }
  }

  /** A run that ends converged ends on a fixed point: there are at least two
      factors, and one more sweep from the final bh and t would find every
      pair converged again. */
  lemma {:induction false} ConvergedRunIsFixedPoint(s: Setup, w: Work, iterations: nat, maxI: int)
    requires Shaped(s, w) && w.notConverged
    ensures ValidPairs(Pairs(s.m), s.m)
    ensures var last := Run(s, w, iterations, maxI).1;
      !last.notConverged ==>
        s.m >= 2 &&
        Skips(s, last.(numPairs := Total(s.m), notConverged := true), Pairs(s.m)) == |Pairs(s.m)|
    decreases if iterations > maxI then 0 else maxI - iterations + 1
  {
    PairsOfSweep(s.m);
    if iterations <= maxI {
      var w0 := w.(numPairs := Total(s.m));
      var w1 := Sweep(s, w0, Pairs(s.m));
      SweepConvergesIffAllPairsSkip(s, w0);
      if !w1.notConverged {
        SweepSkippingAllKeepsMatrices(s, w0, Pairs(s.m));
        SweepDependsOnMatrices(s, w0, w1.(numPairs := Total(s.m), notConverged := true), Pairs(s.m));
      } else {
        ConvergedRunIsFixedPoint(s, w1, iterations + 1, maxI);
      }
    }
  }

  /** With fewer than two factors there is no pair: nothing rotates, the
      flag is never cleared, and only the bound ends the run. */
  lemma {:induction false} FewFactorsRunToTheBound(s: Setup, w: Work, iterations: nat, maxI: int)
    requires Shaped(s, w) && w.notConverged && s.m < 2
    ensures var r := Run(s, w, iterations, maxI);
      r.0 == Max(iterations, maxI + 1) && r.1.notConverged && r.1.bh == w.bh && r.1.t == w.t
    decreases if iterations > maxI then 0 else maxI - iterations + 1
  {
    if iterations <= maxI {
      assert Pairs(s.m) == [];
      FewFactorsRunToTheBound(s, w.(numPairs := Total(s.m)), iterations + 1, maxI);
    }
  }
}
