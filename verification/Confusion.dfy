/** When the nearest-neighbour promise fails, on runs the map really goes through, and exactly when it holds. */
module Confusion {
  import opened Edits
  import opened Geometry
  import opened Heap
  import opened Invariant
  import opened Neighbours
  import opened Rebuilding
  import opened Runs
  import opened Select
  import opened Tree
  import opened Voxels

  /** A map built from the first point, then given the second. */
  function PairRun(a: Point, b: Point): seq<Op> { [Building([a]), Adding([b], false)] }

  /** The map after that run: `a` at the root, `b` in one of its sons. */
  function PairTree(a: Point, b: Point): Tree {
    var r := Fresh(b, 1, Nil, Nil);
    if Below(0, b, a) then Update(Fresh(a, 0, Nil, Nil).(left := r)) else Update(Fresh(a, 0, Nil, Nil).(right := r))
  }

  lemma OneBuilt(a: Point)
    ensures Build([a]) == Fresh(a, 0, Nil, Nil)
  {
    assert Extent([a]) == Spot(a) && DivisionAxis(Spot(a)) == 0;
    var n := NthElement([a], 0, 0);
    NthElementContract([a], 0, 0);
    assert n[0] in multiset(n);
    assert n[0] == a;
    hide NthElement, Fresh, Update, DivisionAxis, Extent;
    assert n[..0] == [] && n[1..] == [];
  }

  lemma {:induction false} PairAdded(a: Point, b: Point)
    ensures AddPoint(Fresh(a, 0, Nil, Nil), b, true, 0) == Edited(PairTree(a, b), [])
  {
    var t := Fresh(a, 0, Nil, Nil);
    var l := AddPoint(Nil, b, true, 0);
    assert l == Edited(Fresh(b, 1, Nil, Nil), []) && PushDown(t) == t;
    hide HalfDiagonalSq, Join, Build, Flatten, Recorded, Hull, Spot;
    assert !Criterion(Update(t.(left := l.tree))) && !Criterion(Update(t.(right := l.tree)));
  }

  lemma {:induction false} PairReached(c: Setup, a: Point, b: Point)
    requires Usable(c)
    ensures AllowedRun(c, EMPTY, PairRun(a, b)) && After(c, EMPTY, PairRun(a, b)).root == PairTree(a, b)
  {
    OneBuilt(a);
    PairAdded(a, b);
    hide Build, AddPoint, PairTree;
    var ops := PairRun(a, b);
    assert ops[..0] == [] && ops[..1] == [Building([a])] && ops[..2] == ops;
    var x := After(c, EMPTY, ops[..1]);
    assert ops[..1][..0] == [];
    assert After(c, EMPTY, []) == EMPTY;
    assert x.root == Fresh(a, 0, Nil, Nil);
    OneInserted(x.root, b);
    assert After(c, EMPTY, ops) == Step(c, x, ops[1]);
  }

  lemma OneInserted(t: Tree, p: Point)
    requires t.Node?
    ensures InsertAll(t, [p]).tree == AddPoint(t, p, true, t.axis).tree
  {
    hide AddPoint;
    assert [p][..0] == [];
  }

  // ---- The query ----

  lemma PairShape(a: Point, b: Point)
    ensures var t, r := PairTree(a, b), Fresh(b, 1, Nil, Nil);
      && t.Node? && t.point == a && !t.pointDel && !t.treeDel && PushDown(t) == t
      && ((t.left == r && t.right.Nil?) || (t.left.Nil? && t.right == r))
      && !r.pointDel && !r.treeDel && PushDown(r) == r
  {
    hide HalfDiagonalSq, Join, Hull, Spot;
  }

  lemma PairHeap(a: Cmp, b: Cmp)
    requires !Less(a, b)
    ensures Push([], 4, a) == [a] && Push([a], 4, b) == [a, b] && Drain([a, b], 2) == [b, a]
  {
    hide Less;
    assert [a] + [b] == [a, b] && [a, b][1 := b] == [a, b];
    assert FloatUp([a, b], 1, b) == [a, b];
    assert [a, b][0 := b][..1] == [b] && Pop([a, b]) == [b];
    assert Drain([b], 1) == Drain([], 0) + [b] == [b];
    assert Drain([a, b], 2) == Drain([b], 1) + [a];
  }

  lemma {:induction false} LeafSearch(r: Tree, q: Point, h: seq<Cmp>)
    requires r.Node? && r.left.Nil? && r.right.Nil? && PushDown(r) == r && !r.pointDel && !r.treeDel && |h| == 1
    ensures Search(r, 2, q, h, Infinity).heap == Push(h, 4, Cmp(r.point, Dist(q, r.point)))
  {
    hide Dist, Push, BoxDist, PushDown;
    SearchStep(r, 2, q, h, Infinity);
  }

  /** A root with a single son, a leaf: both points are offered, root first. */
  lemma {:induction false} PairSearch(t: Tree, r: Tree, q: Point, A: Cmp)
    requires t.Node? && !t.pointDel && !t.treeDel && PushDown(t) == t && A == Cmp(t.point, Dist(q, t.point))
    requires r.Node? && r.left.Nil? && r.right.Nil? && PushDown(r) == r && !r.pointDel && !r.treeDel
    requires (t.left == r && t.right.Nil?) || (t.left.Nil? && t.right == r)
    requires Push([], 4, A) == [A]
    ensures Search(t, 2, q, [], Infinity).heap == Push([A], 4, Cmp(r.point, Dist(q, r.point)))
  {
    hide Dist, Push, BoxDist, PushDown;
    LeafSearch(r, q, [A]);
    assert Offer([], 2, q, t.point, Infinity) == [A];
    SearchStep(t, 2, q, [], Infinity);
    NilSearch(2, q, Push([A], 4, Cmp(r.point, Dist(q, r.point))));
    NilSearch(2, q, [A]);
  }

  lemma NilSearch(k: nat, q: Point, h: seq<Cmp>)
    ensures Search(Nil, k, q, h, Infinity) == Scan(Nil, h)
  {
  }

  /** Two points the comparison confuses come back in the wrong order from a map that one build and one
      insertion lead to. */
  lemma {:induction false} ConfusedPairFails(c: Setup, a: Point, b: Point, q: Point)
    requires Usable(c) && Confused(a, b, q)
    ensures AllowedRun(c, EMPTY, PairRun(a, b))
    ensures var t := After(c, EMPTY, PairRun(a, b)).root;
      Live(t) == multiset{a, b} && !Ascending(NearestSearch(t, q, 2, Infinity).found)
  {
    PairReached(c, a, b);
    PairLive(a, b);
    PairShape(a, b);
    var t, r := PairTree(a, b), Fresh(b, 1, Nil, Nil);
    var A, B := Cmp(a, Dist(q, a)), Cmp(b, Dist(q, b));
    hide *;
    ConfusedIff(a, b, q);
    PairHeap(A, B);
    PairSearch(t, r, q, A);
    PairFound(t, q, A, B);
  }

  lemma PairFound(t: Tree, q: Point, A: Cmp, B: Cmp)
    requires Search(t, 2, q, [], Infinity).heap == [A, B] && Drain([A, B], 2) == [B, A] && A.dist < B.dist
    ensures !Ascending(NearestSearch(t, q, 2, Infinity).found)
  {
    hide Search, Drain;
    var found := NearestSearch(t, q, 2, Infinity).found;
    assert found == [B, A];
    assert found[0].dist > found[1].dist;
  }

  lemma {:induction false} PairLive(a: Point, b: Point)
    ensures Live(PairTree(a, b)) == multiset{a, b}
  {
    var t := Fresh(a, 0, Nil, Nil);
    FreshShape(a, 0, Nil, Nil);
    AddPointExact(t, b, true, 0);
    PairAdded(a, b);
    hide AddPoint, AddForgot, PairTree, Fresh, Inv, Of;
    assert Live(PairTree(a, b)) == Live(t) + multiset{b};
    assert Live(t) == multiset{a};
  }

  const NEAR := Point(0.000001, 0.0, 0.0, 0.0)
  const FAR := Point(0.0, 0.000002, 0.0, 0.0)
  const ORIGIN := Point(0.0, 0.0, 0.0, 0.0)

  lemma NearAndFarConfused()
    ensures Confused(NEAR, FAR, ORIGIN)
  {
  }

  /** A concrete input: one point a micrometre away along x, one two along y. */
  lemma {:induction false} ConfusionExists(c: Setup)
    requires Usable(c)
    ensures AllowedRun(c, EMPTY, PairRun(NEAR, FAR))
    ensures !Ascending(NearestSearch(After(c, EMPTY, PairRun(NEAR, FAR)).root, ORIGIN, 2, Infinity).found)
  {
    hide *;
    UsableVoxel(c);
    NearAndFarConfused();
    ConfusedPairFails(c, NEAR, FAR, ORIGIN);
  }

  // ---- The exact condition ----

  /** The promise over every map that a run leads to and that holds points of `m` alone, every number of
      neighbours and every bound. */
  ghost predicate AlwaysNearest(c: Setup, m: multiset<Point>, q: Point)
    requires c.voxel > 0.0
  {
    forall ops: seq<Op>, k: nat, maxDist: Ext ::
      AllowedRun(c, EMPTY, ops) && Live(After(c, EMPTY, ops).root) <= m && k >= 1 ==>
        Promised(After(c, EMPTY, ops).root, q, k, maxDist)
  }

  ghost predicate Promised(t: Tree, q: Point, k: nat, maxDist: Ext) {
    IsNearest(NearestSearch(t, q, k, maxDist).found, Live(t), q, k, maxDist)
  }

  lemma {:induction false} NearestExactIff(c: Setup, m: multiset<Point>, q: Point)
    requires Usable(c)
    ensures AlwaysNearest(c, m, q) <==> NoneConfused(m, q)
  {
    if NoneConfused(m, q) {
      forall ops: seq<Op>, k: nat, maxDist: Ext
        | AllowedRun(c, EMPTY, ops) && Live(After(c, EMPTY, ops).root) <= m && k >= 1
        ensures Promised(After(c, EMPTY, ops).root, q, k, maxDist)
      {
        RunSound(c, ops);
        FewerConfused(Live(After(c, EMPTY, ops).root), m, q);
        NearestSearchExact(After(c, EMPTY, ops).root, q, k, maxDist);
      }
    } else {
      var a, b :| a in m && b in m && Confused(a, b, q);
      NotAlways(c, m, a, b, q);
    }
  }

  lemma {:induction false} NotAlways(c: Setup, m: multiset<Point>, a: Point, b: Point, q: Point)
    requires Usable(c) && a in m && b in m && Confused(a, b, q)
    ensures !AlwaysNearest(c, m, q)
  {
    ConfusedPairFails(c, a, b, q);
    ConfusedIff(a, b, q);
    hide Live, NearestSearch, Confused, PairRun, AllowedRun, After, Usable, KBest, Ascending;
    var t := After(c, EMPTY, PairRun(a, b)).root;
    assert Live(t) <= m;
    assert !Promised(t, q, 2, Infinity);
  }
}
