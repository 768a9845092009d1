/** Real vectors and dense matrices as sequences, with the operations the
    rotation engine performs on them: sums of squares, dot products of
    columns, the two-column write of a plane rotation, and orthonormality. */
module Matrices {

  type Vector = seq<real>
  type Matrix = seq<seq<real>>

  /** `a` has `rows` rows of `cols` entries each. */
  predicate IsMatrix(a: Matrix, rows: nat, cols: nat)
  {
    |a| == rows && forall k :: 0 <= k < |a| ==> |a[k]| == cols
  }

  /** Left-to-right sum, the `inject(0)` over indices 0, 1, ... */
  function Sum(s: Vector): real
  {
    if |s| == 0 then 0.0 else Sum(s[..|s| - 1]) + s[|s| - 1]
  }

  function Dot(x: Vector, y: Vector): real
    requires |x| == |y|
  {
    if |x| == 0 then 0.0 else Dot(x[..|x| - 1], y[..|y| - 1]) + x[|x| - 1] * y[|y| - 1]
  }

  /** Sum of the squared entries: the squared Euclidean norm. */
  function SumSq(x: Vector): (r: real)
    ensures r >= 0.0
  {
    DotSelfNonNegative(x);
    Dot(x, x)
  }

  function Squares(x: Vector): Vector
  {
    seq(|x|, k requires 0 <= k < |x| => x[k] * x[k])
  }

  function Ones(len: nat): Vector
  {
    seq(len, _ => 1.0)
  }

  function Scale(c: real, x: Vector): Vector
  {
    seq(|x|, k requires 0 <= k < |x| => c * x[k])
  }

  /** The vector alpha * x + beta * y. */
  function Lin(alpha: real, x: Vector, beta: real, y: Vector): Vector
    requires |x| == |y|
  {
    seq(|x|, k requires 0 <= k < |x| => alpha * x[k] + beta * y[k])
  }

  predicate IsZero(x: Vector)
  {
    forall k :: 0 <= k < |x| ==> x[k] == 0.0
  }

  lemma {:induction false} DotSelfNonNegative(x: Vector)
    ensures Dot(x, x) >= 0.0
  {
    if |x| > 0 {
      DotSelfNonNegative(x[..|x| - 1]);
    }
  }

  lemma {:induction false} DotSymmetric(x: Vector, y: Vector)
    requires |x| == |y|
    ensures Dot(x, y) == Dot(y, x)
  {
    if |x| > 0 {
      DotSymmetric(x[..|x| - 1], y[..|y| - 1]);
    }
  }

  /** The dot product is linear in its first argument. */
  lemma {:induction false} DotLinear(alpha: real, x: Vector, beta: real, y: Vector, z: Vector)
    requires |x| == |y| == |z|
    ensures Dot(Lin(alpha, x, beta, y), z) == alpha * Dot(x, z) + beta * Dot(y, z)
  {
    var n := |x|;
    if n > 0 {
      var l := Lin(alpha, x, beta, y);
      var l' := Lin(alpha, x[..n - 1], beta, y[..n - 1]);
      assert forall k :: 0 <= k < n - 1 ==> l[..n - 1][k] == l'[k];
      assert l[..n - 1] == l';
      DotLinear(alpha, x[..n - 1], beta, y[..n - 1], z[..n - 1]);
      var a, b, c := x[n - 1], y[n - 1], z[n - 1];
      assert l[n - 1] == alpha * a + beta * b;
      assert (alpha * a + beta * b) * c == alpha * (a * c) + beta * (b * c);
    }
  }

  /** Multiplying the squared entries by a column of ones sums them. */
  lemma {:induction false} SquaresTimesOnes(x: Vector)
    ensures Dot(Squares(x), Ones(|x|)) == SumSq(x)
  {
    var n := |x|;
    if n > 0 {
      var q, q' := Squares(x), Squares(x[..n - 1]);
      forall k | 0 <= k < n - 1
        ensures q[..n - 1][k] == q'[k]
      {
        assert x[..n - 1][k] == x[k];
      }
      assert q[..n - 1] == q';
      assert Ones(n)[..n - 1] == Ones(n - 1);
      SquaresTimesOnes(x[..n - 1]);
    }
  }

  /** Replacing one entry changes the sum of squares by the difference of its squares. */
  lemma {:induction false} SumSqUpdate(x: Vector, p: nat, v: real)
    requires p < |x|
    ensures SumSq(x[p := v]) == SumSq(x) - x[p] * x[p] + v * v
  {
    var n := |x|;
    var y := x[p := v];
    if p == n - 1 {
      assert y[..n - 1] == x[..n - 1];
    } else {
      assert y[..n - 1] == x[..n - 1][p := v];
      SumSqUpdate(x[..n - 1], p, v);
    }
  }

  lemma {:induction false} SumSqScale(c: real, x: Vector)
    ensures SumSq(Scale(c, x)) == c * c * SumSq(x)
  {
    var n := |x|;
    if n > 0 {
      var s, s' := Scale(c, x), Scale(c, x[..n - 1]);
      assert forall k :: 0 <= k < n - 1 ==> s[..n - 1][k] == s'[k];
      assert s[..n - 1] == s';
      SumSqScale(c, x[..n - 1]);
      var a := x[n - 1];
      assert Scale(c, x)[n - 1] == c * a;
      assert (c * a) * (c * a) == c * c * (a * a);
    }
  }

  lemma ProductPositive(a: real, b: real)
    requires (a > 0.0 && b > 0.0) || (a < 0.0 && b < 0.0)
    ensures a * b > 0.0
  {
  }

  /** The dot product of a vector with an equal one is 0 only when the
      vector is zero. The two copies are kept apart so that each product of
      entries stays a product of two terms. */
  lemma {:induction false} DotOfEqualZero(x: Vector, y: Vector)
    requires |x| == |y| && forall k :: 0 <= k < |x| ==> x[k] == y[k]
    ensures Dot(x, y) >= 0.0
    ensures Dot(x, y) == 0.0 ==> IsZero(x)
  {
    if |x| > 0 {
      var px, py, a, b := x[..|x| - 1], y[..|y| - 1], x[|x| - 1], y[|y| - 1];
      assert forall k :: 0 <= k < |px| ==> px[k] == py[k] by {
        forall k | 0 <= k < |px| ensures px[k] == py[k] { assert px[k] == x[k] && py[k] == y[k]; }
      }
      DotOfEqualZero(px, py);
      assert Dot(x, y) == Dot(px, py) + a * b;
      if a != 0.0 {
        ProductPositive(a, b);
      } else {
        assert a * b == 0.0;
        if Dot(x, y) == 0.0 {
          forall k | 0 <= k < |x| ensures x[k] == 0.0 {
            if k < |x| - 1 { assert x[k] == px[k]; }
          }
        }
      }
    }
  }

  /** A vector has sum of squares 0 exactly when all its entries are 0. */
  lemma {:induction false} SumSqOfZero(x: Vector)
    ensures IsZero(x) <==> SumSq(x) == 0.0
  {
    DotOfEqualZero(x, x);
    if IsZero(x) {
      DotOfZero(x, x);
    }
  }

  /** Dotting with the p-th unit vector picks entry p. */
  lemma {:induction false} DotUnit(e: Vector, y: Vector, p: nat)
    requires |e| == |y|
    requires forall k :: 0 <= k < |e| ==> e[k] == if k == p then 1.0 else 0.0
    ensures Dot(e, y) == if p < |e| then y[p] else 0.0
  {
    var n := |e|;
    if n > 0 {
      DotUnit(e[..n - 1], y[..n - 1], p);
    }
  }

  /** Column p of `a`. */
  function Col(a: Matrix, p: nat): Vector
    requires forall k :: 0 <= k < |a| ==> p < |a[k]|
  {
    seq(|a|, k requires 0 <= k < |a| => a[k][p])
  }

  /** `a` with column i replaced by `xs` and column j by `ys`. */
  function SetColumns(a: Matrix, i: nat, j: nat, xs: Vector, ys: Vector): Matrix
    requires i != j && |xs| == |a| && |ys| == |a|
    requires forall k :: 0 <= k < |a| ==> i < |a[k]| && j < |a[k]|
  {
    seq(|a|, k requires 0 <= k < |a| => a[k][i := xs[k]][j := ys[k]])
  }

  /** Setting two columns keeps the shape, puts `xs` and `ys` in columns
      i and j and changes no other entry. */
  lemma {:induction false} SetColumnsFrame(a: Matrix, i: nat, j: nat, xs: Vector, ys: Vector)
    requires i != j && |xs| == |a| && |ys| == |a|
    requires forall k :: 0 <= k < |a| ==> i < |a[k]| && j < |a[k]|
    ensures var r := SetColumns(a, i, j, xs, ys);
      |r| == |a| &&
      (forall k :: 0 <= k < |r| ==> |r[k]| == |a[k]| && r[k][i] == xs[k] && r[k][j] == ys[k]) &&
      (forall k, c :: 0 <= k < |r| && 0 <= c < |r[k]| && c != i && c != j ==> r[k][c] == a[k][c])
  {
  }

  /** Writes columns i and j row by row, as the engine does after converting
      the matrix to an array of rows. */
  method WriteColumns(a: Matrix, i: nat, j: nat, xs: Vector, ys: Vector) returns (r: Matrix)
    requires i != j && |xs| == |a| && |ys| == |a|
    requires forall k :: 0 <= k < |a| ==> i < |a[k]| && j < |a[k]|
    ensures r == SetColumns(a, i, j, xs, ys)
  {
    r := a;
    var k := 0;
    while k < |a|
      invariant 0 <= k <= |a| && |r| == |a|
      invariant forall q :: 0 <= q < k ==> r[q] == a[q][i := xs[q]][j := ys[q]]
      invariant forall q :: k <= q < |a| ==> r[q] == a[q]
    {
      r := r[k := r[k][i := xs[k]][j := ys[k]]];
      k := k + 1;
    }
  }

  /** A plane rotation by an angle phi, given by its cosine and sine.
      The trigonometric functions themselves are not modelled; an angle is
      any pair with co * co + si * si == 1. */
  datatype Angle = Angle(co: real, si: real)

  predicate IsUnit(g: Angle)
  {
    g.co * g.co + g.si * g.si == 1.0
  }

  /** Columns (i, j) of `a` replaced by (co x + si y, -si x + co y). */
  function RotateColumns(a: Matrix, i: nat, j: nat, g: Angle): Matrix
    requires i != j
    requires forall k :: 0 <= k < |a| ==> i < |a[k]| && j < |a[k]|
  {
    var x, y := Col(a, i), Col(a, j);
    SetColumns(a, i, j, Lin(g.co, x, g.si, y), Lin(-g.si, x, g.co, y))
  }

  /** The rotation of one row keeps its sum of squares. */
  lemma {:induction false} RowRotationKeepsNorm(r: Vector, i: nat, j: nat, g: Angle, u: real, v: real)
    requires i < |r| && j < |r| && i != j && IsUnit(g)
    requires u == g.co * r[i] + g.si * r[j] && v == -g.si * r[i] + g.co * r[j]
    ensures SumSq(r[i := u][j := v]) == SumSq(r)
  {
    var x, y, co, si := r[i], r[j], g.co, g.si;
    SumSqUpdate(r, i, u);
    SumSqUpdate(r[i := u], j, v);
    assert r[i := u][j] == y;
    assert u * u + v * v == (co * co + si * si) * (x * x + y * y);
  }

  /** A pair rotation keeps every row's sum of squares, keeps zero rows zero,
      and changes only columns i and j. */
  lemma {:induction false} RotateColumnsKeepsRows(a: Matrix, i: nat, j: nat, g: Angle)
    requires i != j && IsUnit(g)
    requires forall k :: 0 <= k < |a| ==> i < |a[k]| && j < |a[k]|
    ensures |RotateColumns(a, i, j, g)| == |a|
    ensures forall k :: 0 <= k < |a| ==>
      |RotateColumns(a, i, j, g)[k]| == |a[k]| &&
      SumSq(RotateColumns(a, i, j, g)[k]) == SumSq(a[k]) &&
      (IsZero(a[k]) ==> IsZero(RotateColumns(a, i, j, g)[k])) &&
      forall c :: 0 <= c < |a[k]| && c != i && c != j ==> RotateColumns(a, i, j, g)[k][c] == a[k][c]
  {
    var b := RotateColumns(a, i, j, g);
    var x, y := Col(a, i), Col(a, j);
    var xs, ys := Lin(g.co, x, g.si, y), Lin(-g.si, x, g.co, y);
    assert b == SetColumns(a, i, j, xs, ys);
    forall k | 0 <= k < |a|
      ensures SumSq(b[k]) == SumSq(a[k])
    {
      assert b[k] == a[k][i := xs[k]][j := ys[k]];
      RowRotationKeepsNorm(a[k], i, j, g, xs[k], ys[k]);
    }
  }

  function Identity(m: nat): Matrix
  {
    seq(m, r => seq(m, c => if r == c then 1.0 else 0.0))
  }

  /** The columns of the m x m matrix t are orthonormal: t^T t = I. */
  ghost predicate Orthonormal(t: Matrix, m: nat)
  {
    IsMatrix(t, m, m) &&
    forall p, q :: 0 <= p < m && 0 <= q < m ==>
      Dot(Col(t, p), Col(t, q)) == if p == q then 1.0 else 0.0
  }

  lemma {:induction false} IdentityIsOrthonormal(m: nat)
    ensures Orthonormal(Identity(m), m)
  {
    var t := Identity(m);
    forall p, q | 0 <= p < m && 0 <= q < m
      ensures Dot(Col(t, p), Col(t, q)) == if p == q then 1.0 else 0.0
    {
      DotUnit(Col(t, p), Col(t, q), p);
    }
  }

  /** Two combinations of an orthonormal pair x, y. */
  lemma {:induction false} DotOfCombinations(alpha: real, beta: real, gamma: real, delta: real, x: Vector, y: Vector)
    requires |x| == |y|
    requires Dot(x, x) == 1.0 && Dot(y, y) == 1.0 && Dot(x, y) == 0.0
    ensures Dot(Lin(alpha, x, beta, y), Lin(gamma, x, delta, y)) == alpha * gamma + beta * delta
  {
    var l := Lin(gamma, x, delta, y);
    DotLinear(alpha, x, beta, y, l);
    DotSymmetric(x, l);
    DotSymmetric(y, l);
    DotLinear(gamma, x, delta, y, x);
    DotLinear(gamma, x, delta, y, y);
    DotSymmetric(y, x);
  }

  /** A combination of two vectors orthogonal to z is orthogonal to z. */
  lemma {:induction false} DotOfCombinationOrthogonal(alpha: real, beta: real, x: Vector, y: Vector, z: Vector)
    requires |x| == |y| == |z|
    requires Dot(x, z) == 0.0 && Dot(y, z) == 0.0
    ensures Dot(Lin(alpha, x, beta, y), z) == 0.0
  {
    DotLinear(alpha, x, beta, y, z);
  }

  /** The columns of a pair rotation: i and j are combined, the others kept. */
  lemma {:induction false} ColumnsOfRotation(t: Matrix, m: nat, i: nat, j: nat, g: Angle, p: nat)
    requires IsMatrix(t, m, m) && i < m && j < m && i != j && p < m
    ensures IsMatrix(RotateColumns(t, i, j, g), m, m)
    ensures Col(RotateColumns(t, i, j, g), p) ==
      if p == i then Lin(g.co, Col(t, i), g.si, Col(t, j))
      else if p == j then Lin(-g.si, Col(t, i), g.co, Col(t, j))
      else Col(t, p)
  {
  }

  /** A pair rotation by a unit angle keeps the columns orthonormal. */
  lemma {:induction false} RotateColumnsKeepsOrthonormal(t: Matrix, m: nat, i: nat, j: nat, g: Angle)
    requires Orthonormal(t, m) && i < m && j < m && i != j && IsUnit(g)
    ensures Orthonormal(RotateColumns(t, i, j, g), m)
  {
    var u := RotateColumns(t, i, j, g);
    var ci, cj := Col(t, i), Col(t, j);
    var li, lj := Lin(g.co, ci, g.si, cj), Lin(-g.si, ci, g.co, cj);
    assert Dot(ci, ci) == 1.0 && Dot(cj, cj) == 1.0 && Dot(ci, cj) == 0.0;
    PairDots(g, ci, cj);
    forall q | 0 <= q < m && q != i && q != j
      ensures Dot(li, Col(t, q)) == 0.0 && Dot(Col(t, q), li) == 0.0
      ensures Dot(lj, Col(t, q)) == 0.0 && Dot(Col(t, q), lj) == 0.0
    {
      var cq := Col(t, q);
      assert Dot(cq, ci) == 0.0 && Dot(cq, cj) == 0.0;
      DotSymmetric(ci, cq);
      DotSymmetric(cj, cq);
      DotOfCombinationOrthogonal(g.co, g.si, ci, cj, cq);
      DotOfCombinationOrthogonal(-g.si, g.co, ci, cj, cq);
      DotSymmetric(li, cq);
      DotSymmetric(lj, cq);
    }
    forall p | 0 <= p < m
      ensures IsMatrix(u, m, m)
      ensures Col(u, p) == if p == i then li else if p == j then lj else Col(t, p)
    {
      ColumnsOfRotation(t, m, i, j, g, p);
    }
  }

  /** The two rotated columns of an orthonormal pair are again orthonormal. */
  lemma {:induction false} PairDots(g: Angle, ci: Vector, cj: Vector)
    requires |ci| == |cj| && IsUnit(g)
    requires Dot(ci, ci) == 1.0 && Dot(cj, cj) == 1.0 && Dot(ci, cj) == 0.0
    ensures Dot(Lin(g.co, ci, g.si, cj), Lin(g.co, ci, g.si, cj)) == 1.0
    ensures Dot(Lin(-g.si, ci, g.co, cj), Lin(-g.si, ci, g.co, cj)) == 1.0
    ensures Dot(Lin(g.co, ci, g.si, cj), Lin(-g.si, ci, g.co, cj)) == 0.0
    ensures Dot(Lin(-g.si, ci, g.co, cj), Lin(g.co, ci, g.si, cj)) == 0.0
  {
    DotOfCombinations(g.co, g.si, g.co, g.si, ci, cj);
    DotOfCombinations(-g.si, g.co, -g.si, g.co, ci, cj);
    DotOfCombinations(g.co, g.si, -g.si, g.co, ci, cj);
    DotOfCombinations(-g.si, g.co, g.co, g.si, ci, cj);
  }

  /** The product a t of a matrix with m columns and an m x m matrix. */
  function Times(a: Matrix, t: Matrix, m: nat): (r: Matrix)
    requires IsMatrix(a, |a|, m) && IsMatrix(t, m, m)
    ensures IsMatrix(r, |a|, m)
  {
    seq(|a|, k requires 0 <= k < |a| => seq(m, c requires 0 <= c < m => Dot(a[k], Col(t, c))))
  }

  lemma {:induction false} DotOfZero(x: Vector, y: Vector)
    requires |x| == |y| && IsZero(x)
    ensures Dot(x, y) == 0.0
  {
    if |x| > 0 {
      DotOfZero(x[..|x| - 1], y[..|y| - 1]);
    }
  }

  /** A zero row of a stays a zero row of a t. */
  lemma {:induction false} TimesZeroRow(a: Matrix, t: Matrix, m: nat, k: nat)
    requires IsMatrix(a, |a|, m) && IsMatrix(t, m, m) && k < |a| && IsZero(a[k])
    ensures IsZero(Times(a, t, m)[k])
  {
    forall c | 0 <= c < m
      ensures Times(a, t, m)[k][c] == 0.0
    {
      DotOfZero(a[k], Col(t, c));
    }
  }

  /** Multiplying by the identity changes nothing. */
  lemma {:induction false} TimesIdentity(a: Matrix, m: nat)
    requires IsMatrix(a, |a|, m)
    ensures Times(a, Identity(m), m) == a
  {
    var e := Identity(m);
    var p := Times(a, e, m);
    forall k | 0 <= k < |a|
      ensures p[k] == a[k]
    {
      forall c | 0 <= c < m
        ensures p[k][c] == a[k][c]
      {
        DotSymmetric(a[k], Col(e, c));
        DotUnit(Col(e, c), a[k], c);
      }
    }
  }

  /** One entry of a t' where t' is t with columns i and j rotated: the
      rotation of the entries of a t in those columns. */
  lemma {:induction false} DotRotatedColumn(r: Vector, t: Matrix, m: nat, i: nat, j: nat, g: Angle, c: nat)
    requires |r| == m && IsMatrix(t, m, m) && i < m && j < m && i != j && c < m
    ensures IsMatrix(RotateColumns(t, i, j, g), m, m)
    ensures c == i ==> Dot(r, Col(RotateColumns(t, i, j, g), c)) == g.co * Dot(r, Col(t, i)) + g.si * Dot(r, Col(t, j))
    ensures c == j ==> Dot(r, Col(RotateColumns(t, i, j, g), c)) == -g.si * Dot(r, Col(t, i)) + g.co * Dot(r, Col(t, j))
    ensures c != i && c != j ==> Dot(r, Col(RotateColumns(t, i, j, g), c)) == Dot(r, Col(t, c))
  {
    ColumnsOfRotation(t, m, i, j, g, c);
    if c == i || c == j {
      var ti, tj := Col(t, i), Col(t, j);
      var alpha, beta := if c == i then g.co else -g.si, if c == i then g.si else g.co;
      assert Col(RotateColumns(t, i, j, g), c) == Lin(alpha, ti, beta, tj);
      DotSymmetric(r, Lin(alpha, ti, beta, tj));
      DotLinear(alpha, ti, beta, tj, r);
      DotSymmetric(ti, r);
      DotSymmetric(tj, r);
    }
  }

  /** Row k of a column rotation, written on the row alone. */
  lemma {:induction false} RotatedRow(a: Matrix, i: nat, j: nat, g: Angle, k: nat)
    requires i != j
    requires forall q :: 0 <= q < |a| ==> i < |a[q]| && j < |a[q]|
    ensures |RotateColumns(a, i, j, g)| == |a|
    ensures k < |a| ==> (RotateColumns(a, i, j, g)[k] ==
      a[k][i := g.co * a[k][i] + g.si * a[k][j]][j := -g.si * a[k][i] + g.co * a[k][j]])
  {
    if k < |a| {
      var x, y := Col(a, i), Col(a, j);
      assert Lin(g.co, x, g.si, y)[k] == g.co * a[k][i] + g.si * a[k][j];
      assert Lin(-g.si, x, g.co, y)[k] == -g.si * a[k][i] + g.co * a[k][j];
    }
  }

  /** Rotating two columns of t rotates the same two columns of a t. */
  lemma {:induction false} TimesRotateColumns(a: Matrix, t: Matrix, m: nat, i: nat, j: nat, g: Angle)
    requires IsMatrix(a, |a|, m) && IsMatrix(t, m, m) && i < m && j < m && i != j
    ensures IsMatrix(RotateColumns(t, i, j, g), m, m)
    ensures Times(a, RotateColumns(t, i, j, g), m) == RotateColumns(Times(a, t, m), i, j, g)
  {
    ColumnsOfRotation(t, m, i, j, g, 0);
    var lhs, rhs := Times(a, RotateColumns(t, i, j, g), m), RotateColumns(Times(a, t, m), i, j, g);
    RotatedRow(Times(a, t, m), i, j, g, 0);
    forall k | 0 <= k < |a|
      ensures lhs[k] == rhs[k]
    {
      TimesRotateRow(a, t, m, i, j, g, k);
    }
  }

  lemma {:induction false} TimesRotateRow(a: Matrix, t: Matrix, m: nat, i: nat, j: nat, g: Angle, k: nat)
    requires IsMatrix(a, |a|, m) && IsMatrix(t, m, m) && i < m && j < m && i != j && k < |a|
    ensures IsMatrix(RotateColumns(t, i, j, g), m, m)
    ensures Times(a, RotateColumns(t, i, j, g), m)[k] == RotateColumns(Times(a, t, m), i, j, g)[k]
  {
    ColumnsOfRotation(t, m, i, j, g, 0);
    RotatedRow(Times(a, t, m), i, j, g, k);
    forall c | 0 <= c < m
      ensures Times(a, RotateColumns(t, i, j, g), m)[k][c] == RotateColumns(Times(a, t, m), i, j, g)[k][c]
    {
      TimesRotateEntry(a, t, m, i, j, g, k, c);
    }
  }

  lemma {:induction false} TimesRotateEntry(a: Matrix, t: Matrix, m: nat, i: nat, j: nat, g: Angle, k: nat, c: nat)
    requires IsMatrix(a, |a|, m) && IsMatrix(t, m, m) && i < m && j < m && i != j && k < |a| && c < m
    ensures IsMatrix(RotateColumns(t, i, j, g), m, m)
    ensures Times(a, RotateColumns(t, i, j, g), m)[k][c] == RotateColumns(Times(a, t, m), i, j, g)[k][c]
  {
    DotRotatedColumn(a[k], t, m, i, j, g, c);
    var p := Times(a, t, m);
    RotatedEntry(p, i, j, g, k, c);
    assert p[k][i] == Dot(a[k], Col(t, i)) && p[k][j] == Dot(a[k], Col(t, j)) && p[k][c] == Dot(a[k], Col(t, c));
  }

  /** Entry (k, c) of a column rotation. */
  lemma {:induction false} RotatedEntry(a: Matrix, i: nat, j: nat, g: Angle, k: nat, c: nat)
    requires i != j && k < |a| && c < |a[k]|
    requires forall q :: 0 <= q < |a| ==> i < |a[q]| && j < |a[q]|
    ensures |RotateColumns(a, i, j, g)| == |a| && |RotateColumns(a, i, j, g)[k]| == |a[k]|
    ensures c == i ==> RotateColumns(a, i, j, g)[k][c] == g.co * a[k][i] + g.si * a[k][j]
    ensures c == j ==> RotateColumns(a, i, j, g)[k][c] == -g.si * a[k][i] + g.co * a[k][j]
    ensures c != i && c != j ==> RotateColumns(a, i, j, g)[k][c] == a[k][c]
  {
    RotatedRow(a, i, j, g, k);
  }

  /** diag(h) * a: row k of `a` multiplied by h[k]. */
  function ScaleRows(h: Vector, a: Matrix): Matrix
    requires |h| == |a|
  {
    seq(|a|, k requires 0 <= k < |a| => Scale(h[k], a[k]))
  }

  /** Scaling a vector scales its dot products. */
  lemma {:induction false} DotScale(c: real, x: Vector, z: Vector)
    requires |x| == |z|
    ensures Dot(Scale(c, x), z) == c * Dot(x, z)
  {
    var n := |x|;
    if n > 0 {
      var l := Scale(c, x);
      var front, scaledFront := l[..n - 1], Scale(c, x[..n - 1]);
      forall q | 0 <= q < n - 1
        ensures front[q] == scaledFront[q]
      {
        assert l[q] == c * x[q] && x[..n - 1][q] == x[q];
      }
      assert front == scaledFront;
      DotScale(c, x[..n - 1], z[..n - 1]);
      var a, b := x[n - 1], z[n - 1];
      assert l[n - 1] == c * a;
      assert (c * a) * b == c * (a * b);
    }
  }

  /** Scaling the rows of a scales the rows of a t by the same factors. */
  lemma {:induction false} TimesScaleRows(h: Vector, a: Matrix, t: Matrix, m: nat, k: nat)
    requires |h| == |a| && IsMatrix(a, |a|, m) && IsMatrix(t, m, m) && k < |a|
    ensures IsMatrix(ScaleRows(h, a), |a|, m)
    ensures Times(ScaleRows(h, a), t, m)[k] == Scale(h[k], Times(a, t, m)[k])
  {
    var b := ScaleRows(h, a);
    assert b[k] == Scale(h[k], a[k]);
    forall c | 0 <= c < m
      ensures Times(b, t, m)[k][c] == Scale(h[k], Times(a, t, m)[k])[c]
    {
      DotScale(h[k], a[k], Col(t, c));
    }
  }


}
