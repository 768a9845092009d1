/** The order in which one sweep visits the factor pairs: i from 0 to m - 2
    in the outer loop, j from i + 1 to m - 1 in the inner one. */
module PairOrder {

  type Pair = (nat, nat)

  /** The inner loop's pairs (i, lo), (i, lo + 1), ..., (i, hi - 1). */
  function RowPairs(i: nat, lo: nat, hi: nat): seq<Pair>
    decreases hi
  {
    if hi <= lo then [] else RowPairs(i, lo, hi - 1) + [(i, hi - 1)]
  }

  /** The pairs visited before the outer loop reaches i. */
  function PairsBelow(m: nat, i: nat): seq<Pair>
  {
    if i == 0 then [] else PairsBelow(m, i - 1) + RowPairs(i - 1, i, m)
  }

  /** One whole sweep over m factors. */
  function Pairs(m: nat): seq<Pair>
  {
    PairsBelow(m, Rows(m))
  }

  /** The counter a sweep starts from, m * (m - 1) / 2. */
  function Total(m: nat): int
  {
    m * (m - 1) / 2
  }

  predicate LexLess(p: Pair, q: Pair)
  {
    p.0 < q.0 || (p.0 == q.0 && p.1 < q.1)
  }

  predicate StrictlyIncreasing(ps: seq<Pair>)
  {
    forall a, b :: 0 <= a < b < |ps| ==> LexLess(ps[a], ps[b])
  }

  /** Every pair names two distinct factors below m, the smaller first. */
  predicate ValidPairs(ps: seq<Pair>, m: nat)
  {
    forall q :: q in ps ==> q.0 < q.1 < m
  }

  lemma {:induction false} RowPairsShape(i: nat, lo: nat, hi: nat)
    ensures |RowPairs(i, lo, hi)| == if hi <= lo then 0 else hi - lo
    ensures forall k :: 0 <= k < |RowPairs(i, lo, hi)| ==> RowPairs(i, lo, hi)[k] == (i, lo + k)
  {
    if hi > lo {
      RowPairsShape(i, lo, hi - 1);
    }
  }

  lemma {:induction false} RowPairsMembers(i: nat, lo: nat, hi: nat)
    ensures forall q :: q in RowPairs(i, lo, hi) <==> q.0 == i && lo <= q.1 < hi
  {
    var row := RowPairs(i, lo, hi);
    RowPairsShape(i, lo, hi);
    forall q: Pair | q.0 == i && lo <= q.1 < hi
      ensures q in row
    {
      assert row[q.1 - lo] == q;
    }
  }

  lemma {:induction false} PairsBelowLength(m: nat, i: nat)
    requires i <= m
    ensures 2 * |PairsBelow(m, i)| == i * (2 * m - i - 1)
  {
    if i > 0 {
      PairsBelowLength(m, i - 1);
      RowPairsShape(i - 1, i, m);
      var x, k := i - 1, 2 * m - i;
      assert 2 * |PairsBelow(m, x)| == x * k;
      assert x * k == i * k - k;
      assert i * (2 * m - i - 1) == i * k - i;
    }
  }

  lemma {:induction false} PairsBelowMembers(m: nat, i: nat)
    ensures forall q :: q in PairsBelow(m, i) <==> q.0 < i && q.0 < q.1 < m
  {
    if i > 0 {
      PairsBelowMembers(m, i - 1);
      RowPairsMembers(i - 1, i, m);
    }
  }

  /** Two increasing runs, every pair of the first below every pair of the
      second, make one increasing run. */
  lemma {:induction false} IncreasingAppend(a: seq<Pair>, b: seq<Pair>)
    requires StrictlyIncreasing(a) && StrictlyIncreasing(b)
    requires forall p, q :: p in a && q in b ==> LexLess(p, q)
    ensures StrictlyIncreasing(a + b)
  {
  }

  lemma {:induction false} RowPairsIncreasing(i: nat, lo: nat, hi: nat)
    ensures StrictlyIncreasing(RowPairs(i, lo, hi))
  {
    RowPairsShape(i, lo, hi);
  }

  /** Every pair of row i comes after every pair of the rows before it. */
  lemma {:induction false} RowFollowsBelow(m: nat, i: nat)
    ensures forall p, q :: p in PairsBelow(m, i) && q in RowPairs(i, i + 1, m) ==> LexLess(p, q)
  {
    PairsBelowMembers(m, i);
    RowPairsMembers(i, i + 1, m);
  }

  lemma {:induction false} PairsBelowIncreasing(m: nat, i: nat)
    ensures StrictlyIncreasing(PairsBelow(m, i))
  {
    if i > 0 {
      PairsBelowIncreasing(m, i - 1);
      RowPairsIncreasing(i - 1, i, m);
      RowFollowsBelow(m, i - 1);
      IncreasingAppend(PairsBelow(m, i - 1), RowPairs(i - 1, i, m));
    }
  }

  /** A sweep visits exactly the m * (m - 1) / 2 pairs i < j < m, each once,
      in lexicographic order. */
  lemma {:induction false} PairsOfSweep(m: nat)
    ensures |Pairs(m)| == Total(m)
    ensures forall q :: q in Pairs(m) <==> q.0 < q.1 < m
    ensures StrictlyIncreasing(Pairs(m))
    ensures forall a, b :: 0 <= a < b < |Pairs(m)| ==> Pairs(m)[a] != Pairs(m)[b]
  {
    var i := Rows(m);
    PairsBelowLength(m, i);
    PairsBelowMembers(m, i);
    PairsBelowIncreasing(m, i);
    if m > 0 {
      assert i * (2 * m - i - 1) == m * (m - 1) by { assert i == m - 1; }
    }
    assert 2 * |Pairs(m)| == m * (m - 1);
  }

  /** `f` applied to `x` and the pairs `ps`, first to last. */
  function Fold<T>(f: (T, Pair) -> T, x: T, ps: seq<Pair>): T
    decreases |ps|
  {
    if ps == [] then x else f(Fold(f, x, ps[..|ps| - 1]), ps[|ps| - 1])
  }

  /** The inner loop: `f` applied to `x` and (i, i + 1), ..., (i, j - 1). */
  function RowFold<T>(f: (T, Pair) -> T, x: T, i: nat, j: nat): T
    decreases j
  {
    if j <= i + 1 then x else f(RowFold(f, x, i, j - 1), (i, j - 1))
  }

  /** The outer loop over the rows 0, ..., i - 1, each an inner loop up to m. */
  function NestedFold<T>(f: (T, Pair) -> T, x: T, m: nat, i: nat): T
  {
    if i == 0 then x else RowFold(f, NestedFold(f, x, m, i - 1), i - 1, m)
  }

  /** The last row the outer loop runs to, exclusive: m - 1, or 0 when m = 0. */
  function Rows(m: nat): nat
  {
    if m == 0 then 0 else m - 1
  }

  lemma {:induction false} FoldAppend<T>(f: (T, Pair) -> T, x: T, a: seq<Pair>, b: seq<Pair>)
    ensures Fold(f, x, a + b) == Fold(f, Fold(f, x, a), b)
    decreases |b|
  {
    if b == [] {
      assert a + b == a;
    } else {
      var b' := b[..|b| - 1];
      assert (a + b)[..|a + b| - 1] == a + b';
      FoldAppend(f, x, a, b');
    }
  }

  /** The inner loop folds over the row's pairs in order. */
  lemma {:induction false} RowFoldIsFold<T>(f: (T, Pair) -> T, x: T, i: nat, j: nat)
    requires i < j
    ensures RowFold(f, x, i, j) == Fold(f, x, RowPairs(i, i + 1, j))
    decreases j
  {
    if j > i + 1 {
      RowFoldIsFold(f, x, i, j - 1);
      var before := RowPairs(i, i + 1, j - 1);
      assert (before + [(i, j - 1)])[..|before|] == before;
    }
  }

  lemma {:induction false} NestedFoldIsFold<T>(f: (T, Pair) -> T, x: T, m: nat, i: nat)
    ensures NestedFold(f, x, m, i) == Fold(f, x, PairsBelow(m, i))
  {
    if i > 0 {
      var y, before, row := NestedFold(f, x, m, i - 1), PairsBelow(m, i - 1), RowPairs(i - 1, i, m);
      NestedFoldIsFold(f, x, m, i - 1);
      assert PairsBelow(m, i) == before + row;
      FoldAppend(f, x, before, row);
      assert Fold(f, x, PairsBelow(m, i)) == Fold(f, y, row);
      if i < m {
        RowFoldIsFold(f, y, i - 1, m);
      } else {
        assert row == [];
      }
      assert RowFold(f, y, i - 1, m) == Fold(f, y, row);
    }
  }

  /** The two nested loops of a sweep fold over exactly the pairs of the
      sweep, in their lexicographic order. */
  lemma {:induction false} NestedLoopsFoldPairs<T>(f: (T, Pair) -> T, x: T, m: nat)
    ensures NestedFold(f, x, m, Rows(m)) == Fold(f, x, Pairs(m))
  {
    NestedFoldIsFold(f, x, m, Rows(m));
  }
}
