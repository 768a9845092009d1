/** The rotation engine object: built from a loading matrix and a criterion,
    it computes the communalities at once, and `Iterate` runs the pairwise
    sweeps with loops and counters, storing the rotated loadings, the
    transformation matrix and the number of sweeps. */
module FactorRotation {
  import opened Matrices
  import opened Criteria
  import opened PairOrder
  import opened Sweeps

  datatype Option<T> = None | Some(value: T)

  /** One pair (i, j): the columns and their sums, the criterion's x and y,
      the angle, then either the rotation of columns i and j of bh and t,
      written row by row, or one more pair counted as converged. */
  method UpdatePair(s: Setup, w: Work, i: nat, j: nat) returns (w': Work)
    requires Shaped(s, w) && i < j < s.m
    ensures w' == PairStep(s, w, (i, j))
  {
    w' := w;
    var xx, yy := Col(w.bh, i), Col(w.bh, j);
    var tx, ty := Col(w.t, i), Col(w.t, j);
    var sums := Reduce(xx, yy);
    var num := s.x(sums);
    var den := s.y(sums);
    var g := s.turn(num, den);
    if Significant(g) {
      var xxRot, yyRot := Lin(g.co, xx, g.si, yy), Lin(-g.si, xx, g.co, yy);
      var txRot, tyRot := Lin(g.co, tx, g.si, ty), Lin(-g.si, tx, g.co, ty);
      var bh := WriteColumns(w.bh, i, j, xxRot, yyRot);
      var t := WriteColumns(w.t, i, j, txRot, tyRot);
      w' := w'.(bh := bh, t := t);
    } else {
      w' := w'.(numPairs := w.numPairs - 1);
      if w'.numPairs == 0 {
        w' := w'.(notConverged := false);
      }
    }
  }

  /** The inner loop for row i: the pairs (i, j), j = i + 1, ..., m - 1. */
  method SweepRow(s: Setup, w: Work, i: nat) returns (w': Work)
    requires Shaped(s, w) && i < s.m
    ensures Shaped(s, w') && w' == RowFold(Step(s), w, i, s.m)
  {
    w' := w;
    var j := i + 1;
    while j < s.m
      invariant i < j <= s.m
      invariant Shaped(s, w') && w' == RowFold(Step(s), w, i, j)
    {
      var next := UpdatePair(s, w', i, j);
      RowStep(s, w, w', next, i, j);
      w', j := next, j + 1;
    }
  }

  /** One sweep: the rows i = 0, ..., m - 2, each over its pairs (i, j),
      which visits the pairs of the sweep in their lexicographic order. */
  method SweepPairs(s: Setup, w: Work) returns (w': Work)
    requires Shaped(s, w)
    ensures ValidPairs(Pairs(s.m), s.m)
    ensures w' == Sweep(s, w, Pairs(s.m))
  {
    w' := w;
    var i := 0;
    while i + 1 < s.m
      invariant 0 <= i <= Rows(s.m)
      invariant Shaped(s, w') && w' == NestedFold(Step(s), w, s.m, i)
    {
      w' := SweepRow(s, w', i);
      i := i + 1;
    }
    NestedLoopsFoldPairs(Step(s), w, s.m);
    PairsOfSweep(s.m);
    SweepIsFold(s, w, Pairs(s.m));
  }

  class Rotation {
    const matrix: Matrix
    /** Variables (rows). */
    const n: nat
    /** Factors (columns). */
    const m: nat
    /** The subclass: which x and y the sweeps use. */
    const criterion: Criterion
    const h2: seq<real>
    var iterations: nat
    var notConverged: bool
    var rotated: Option<Matrix>
    var transformation: Option<Matrix>

    ghost predicate Valid()
    {
      IsMatrix(matrix, n, m) && h2 == Communalities(matrix, m)
    }

    /** Records the matrix and its dimensions and computes h2; the rotated
        matrix and the transformation do not exist yet. */
    constructor (matrix: Matrix, columns: nat, criterion: Criterion)
      requires IsMatrix(matrix, |matrix|, columns)
      ensures Valid()
      ensures this.matrix == matrix && n == |matrix| && m == columns && this.criterion == criterion
      ensures |h2| == n && forall k :: 0 <= k < n ==> h2[k] == SumSq(matrix[k]) && h2[k] >= 0.0
      ensures rotated == None && transformation == None && iterations == 0
    {
      this.matrix := matrix;
      n := |matrix|;
      m := columns;
      this.criterion := criterion;
      h2 := Communalities(matrix, columns);
      rotated := None;
      transformation := None;
      iterations := 0;
      notConverged := false;
      CommunalitiesAreRowSumsOfSquares(matrix, columns);
    }

    /** Runs the sweeps from t = I and bh = H^-1 B until a whole sweep finds
        every pair converged or more than maxI sweeps were counted, then
        stores H bh and t. `root` stands for Math.sqrt and `turn` for the
        cosine and sine of atan2(num, den) / 4. */
    method Iterate(root: real -> real, turn: (real, real) -> Angle, maxI: int := 25) returns (r: Matrix)
      requires Valid() && (n > 0 || criterion == Quartimax) && SquareRoot(root) && UnitTurns(turn)
      modifies this
      ensures var out := Iterated(ForCriterion(criterion, n, m, turn), matrix, root, maxI);
        iterations == out.0 && notConverged == out.1.notConverged &&
        r == Rotated(ForCriterion(criterion, n, m, turn), matrix, root, out.1.bh) &&
        rotated == Some(r) && transformation == Some(out.1.t)
      ensures IsMatrix(r, n, m)
      ensures forall k :: 0 <= k < n ==> SumSq(r[k]) == h2[k]
      ensures forall k :: 0 <= k < n && IsZero(matrix[k]) ==> IsZero(r[k])
      ensures Orthonormal(transformation.value, m)
      ensures r == Times(matrix, transformation.value, m)
      ensures iterations <= Max(0, maxI + 1) && (maxI >= 0 ==> iterations >= 1)
      ensures notConverged ==> iterations == Max(0, maxI + 1)
    {
      var s := ForCriterion(criterion, n, m, turn);
      var t := Identity(m);
      var h := Roots(h2, root);
      var hInverse := Inverses(h);
      var bh := ScaleRows(hInverse, matrix);
      notConverged := true;
      iterations := 0;
      var numPairs := 0;
      ghost var start := Work(bh, t, numPairs, notConverged);
      assert start == Start(s, matrix, root);
      while notConverged
        invariant Shaped(s, Work(bh, t, numPairs, notConverged))
        invariant Run(s, Work(bh, t, numPairs, notConverged), iterations, maxI) == Run(s, start, 0, maxI)
        decreases if iterations > maxI then 0 else maxI - iterations + 1
      {
        if iterations > maxI {
          break;
        }
        RunSweeps(s, Work(bh, t, numPairs, notConverged), iterations, maxI);
        iterations := iterations + 1;
        numPairs := Total(m);
        var w := SweepPairs(s, Work(bh, t, numPairs, notConverged));
        bh, t, numPairs, notConverged := w.bh, w.t, w.numPairs, w.notConverged;
      }
      RunStops(s, Work(bh, t, numPairs, notConverged), iterations, maxI);
      r := ScaleRows(h, bh);
      IteratedKeepsCommunalities(s, matrix, root, maxI, iterations, Work(bh, t, numPairs, notConverged), r);
      IteratedIsProduct(s, matrix, root, maxI, iterations, Work(bh, t, numPairs, notConverged), r);
      rotated := Some(r);
      transformation := Some(t);
    }
  }
}
