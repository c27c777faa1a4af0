/** Building and rebuilding: the new tree holds the live points, balanced and ordered. */
module Rebuilding {
  import opened Geometry
  import opened Select
  import opened Tree
  import opened Invariant

  ghost predicate Ordered(t: Tree) {
    t.Node? ==>
      && Ordered(t.left) && Ordered(t.right)
      && NoneAbove(Points(t.left), t.axis, t.point) && NoneBelow(Points(t.right), t.axis, t.point)
  }

  ghost predicate NoneAbove(m: multiset<Point>, a: Axis, q: Point) {
    forall p :: p in m ==> Coord(p, a) <= Coord(q, a)
  }

  ghost predicate NoneBelow(m: multiset<Point>, a: Axis, q: Point) {
    forall p :: p in m ==> Coord(q, a) <= Coord(p, a)
  }

  /** With more than ten points: the share of each son within 0.4 .. 0.6, and at least half of them live. */
  ghost predicate BalancedNode(t: Tree)
    requires t.Node?
  {
    t.size > 10 ==>
      && 2 * (t.size - 1) <= 5 * Size(t.left) <= 3 * (t.size - 1)
      && 2 * (t.size - 1) <= 5 * Size(t.right) <= 3 * (t.size - 1)
      && (t.treeDel || 2 * t.invalid <= t.size)
  }

  ghost predicate Balanced(t: Tree) {
    t.Node? ==> Balanced(t.left) && Balanced(t.right) && BalancedNode(t)
  }

  /** What `Build` makes of a slice, besides the invariant. */
  ghost predicate BuiltFrom(t: Tree, s: seq<Point>) {
    && Inv(t) && Balanced(t) && Ordered(t)
    && Live(t) == multiset(s) && Points(t) == multiset(s)
    && (t.Nil? <==> s == []) && Size(t) == |s| && Invalid(t) == 0 && (t.Node? ==> !t.treeDel && !t.treeDs)
    && (forall st | st != Alive :: Of(t, st) == multiset{})
  }

  /** Sons whose sizes differ by at most one, at every node. */
  ghost predicate Halved(t: Tree) {
    t.Node? ==> Halved(t.left) && Halved(t.right) && 0 <= Size(t.right) - Size(t.left) <= 1
  }

  /** Each node splits its points on their longest dimension. */
  ghost predicate SplitsLongest(t: Tree) {
    t.Node? ==>
      && SplitsLongest(t.left) && SplitsLongest(t.right)
      && forall a: Axis :: Width(t.range, a) <= Width(t.range, t.axis)
  }

  function Width(r: Box, a: Axis): real {
    if a == 0 then r.maxX - r.minX else if a == 1 then r.maxY - r.minY else r.maxZ - r.minZ
  }

  lemma SlicesAround(n: seq<Point>, m: nat)
    requires m < |n|
    ensures multiset{n[m]} + multiset(n[..m]) + multiset(n[m + 1..]) == multiset(n)
  {
    assert n == n[..m] + [n[m]] + n[m + 1..];
  }

  /** A permutation of the slice, ordered and halved at every node, nothing deleted. */
  lemma {:induction false} BuildCorrect(s: seq<Point>)
    ensures BuiltFrom(Build(s), s) && Halved(Build(s))
    decreases |s|
  {
    if |s| > 0 {
      var m := (|s| - 1) / 2;
      var a := DivisionAxis(Extent(s));
      var n := NthElement(s, a, m);
      NthElementContract(s, a, m);
      BuildCorrect(n[..m]);
      BuildCorrect(n[m + 1..]);
      SlicesAround(n, m);
      FreshCorrect(s, n, a, m, Build(n[..m]), Build(n[m + 1..]));
    }
  }

  /** A new node above two sons that hold nothing deleted. */
  lemma {:induction false} FreshShape(p: Point, a: Axis, l: Tree, r: Tree)
    requires Inv(l) && Inv(r) && Invalid(l) == 0 == Invalid(r)
    requires (l.Node? ==> !l.treeDel) && (r.Node? ==> !r.treeDel)
    ensures var f := Fresh(p, a, l, r);
      && Inv(f) && Live(f) == multiset{p} + Live(l) + Live(r) && Points(f) == multiset{p} + Points(l) + Points(r)
      && f.size == 1 + Size(l) + Size(r) && f.invalid == 0 && !f.treeDel && !f.treeDs
  {
    hide Inv, Live, Points;
    BlankUpdatable(p, a, l, r);
    UpdateInv(Blank(p, a, l, r));
  }

  lemma BlankUpdatable(p: Point, a: Axis, l: Tree, r: Tree)
    requires Inv(l) && Inv(r)
    ensures Updatable(Blank(p, a, l, r))
  {
  }

  lemma {:induction false} FreshClean(p: Point, a: Axis, l: Tree, r: Tree, s: Status)
    requires Inv(l) && Inv(r) && s != Alive && Of(l, s) == multiset{} == Of(r, s)
    ensures Of(Fresh(p, a, l, r), s) == multiset{}
  {
    BlankUpdatable(p, a, l, r);
    hide Inv, Held;
    UpdateHeld(Blank(p, a, l, r), s);
  }

  lemma {:induction false} FreshOrdered(n: seq<Point>, a: Axis, m: nat, l: Tree, r: Tree)
    requires m < |n| && SplitAt(n, a, m) && Ordered(l) && Ordered(r)
    requires Points(l) == multiset(n[..m]) && Points(r) == multiset(n[m + 1..])
    ensures Ordered(Fresh(n[m], a, l, r))
  {
    hide Points, Update;
    assert forall p :: p in Points(l) ==> p in n[..m];
    assert forall p :: p in Points(r) ==> p in n[m + 1..];
  }

  lemma {:induction false} FreshBalanced(p: Point, a: Axis, l: Tree, r: Tree)
    requires Balanced(l) && Balanced(r) && Halved(l) && Halved(r) && 0 <= Size(r) - Size(l) <= 1
    requires var f := Fresh(p, a, l, r); f.size == 1 + Size(l) + Size(r) && f.invalid == 0
    ensures Balanced(Fresh(p, a, l, r)) && Halved(Fresh(p, a, l, r))
  {
    hide Update;
  }

  lemma {:induction false} FreshCorrect(s: seq<Point>, n: seq<Point>, a: Axis, m: nat, l: Tree, r: Tree)
    requires |n| == |s| > 0 && m == (|s| - 1) / 2 && SplitAt(n, a, m)
    requires multiset{n[m]} + multiset(n[..m]) + multiset(n[m + 1..]) == multiset(s)
    requires BuiltFrom(l, n[..m]) && BuiltFrom(r, n[m + 1..]) && Halved(l) && Halved(r)
    ensures BuiltFrom(Fresh(n[m], a, l, r), s) && Halved(Fresh(n[m], a, l, r))
  {
    hide Inv, Live, Held, Points, Update, Ordered, Balanced, Halved;
    FreshShape(n[m], a, l, r);
    forall st | st != Alive ensures Of(Fresh(n[m], a, l, r), st) == multiset{} {
      FreshClean(n[m], a, l, r, st);
    }
    FreshOrdered(n, a, m, l, r);
    FreshBalanced(n[m], a, l, r);
  }

  // ---- The division axis ----

  lemma {:induction false} ExtentInRange(s: seq<Point>, p: Point)
    requires p in s
    ensures InRange(Extent(s), p)
  {
    if |s| > 1 {
      var rest, q := s[..|s| - 1], s[|s| - 1];
      assert s == rest + [q];
      if p in rest { ExtentInRange(rest, p); }
    }
  }

  lemma {:induction false} ExtentAttained(s: seq<Point>, f: Face) returns (p: Point)
    requires |s| > 0
    ensures p in s && FaceOf(Spot(p), f) == FaceOf(Extent(s), f)
  {
    p := s[|s| - 1];
    if |s| > 1 && FaceOf(Spot(p), f) != FaceOf(Extent(s), f) {
      p := ExtentAttained(s[..|s| - 1], f);
    }
  }

  lemma ExtentBounds(s: seq<Point>)
    requires |s| > 0
    ensures IsBoundingBox(Extent(s), multiset(s))
  {
    forall p | p in multiset(s) ensures InRange(Extent(s), p) { ExtentInRange(s, p); }
    forall f ensures exists p :: p in multiset(s) && FaceOf(Spot(p), f) == FaceOf(Extent(s), f) {
      var p := ExtentAttained(s, f);
      assert p in multiset(s);
    }
  }

  /** One bounding box is within another of the same points. */
  lemma NoWider(a: Box, b: Box, m: multiset<Point>)
    requires IsBoundingBox(a, m) && IsBoundingBox(b, m)
    ensures b.minX <= a.minX && a.maxX <= b.maxX && b.minY <= a.minY && a.maxY <= b.maxY
    ensures b.minZ <= a.minZ && a.maxZ <= b.maxZ
  {
    hide IsBoundingBox;
    var p0 := OnFace(a, b, m, MinX);
    var p1 := OnFace(a, b, m, MaxX);
    var p2 := OnFace(a, b, m, MinY);
    var p3 := OnFace(a, b, m, MaxY);
    var p4 := OnFace(a, b, m, MinZ);
    var p5 := OnFace(a, b, m, MaxZ);
  }

  lemma OnFace(a: Box, b: Box, m: multiset<Point>, f: Face) returns (p: Point)
    requires IsBoundingBox(a, m) && IsBoundingBox(b, m)
    ensures FaceOf(Spot(p), f) == FaceOf(a, f) && InRange(b, p)
  {
    hide FaceOf;
    var v := FaceOf(a, f);
    assert exists q :: q in m && FaceOf(Spot(q), f) == v;
    p :| p in m && FaceOf(Spot(p), f) == v;
  }

  lemma LongestAxis(e: Box, a: Axis)
    ensures Width(e, a) <= Width(e, DivisionAxis(e))
  {
  }

  /** Every node of a built tree splits on the longest side of the bounding box of its own points. */
  lemma {:induction false} BuildSplitsLongest(s: seq<Point>)
    ensures SplitsLongest(Build(s))
    decreases |s|
  {
    if |s| > 0 {
      var m := (|s| - 1) / 2;
      var a := DivisionAxis(Extent(s));
      var n := NthElement(s, a, m);
      BuildSplitsLongest(n[..m]);
      BuildSplitsLongest(n[m + 1..]);
      BuildCorrect(s);
      RangeIsExact(Build(s));
      BuildNode(s, a, n, m);
      ExtentBounds(s);
      hide *;
      BuiltGives(Build(s), s);
      SameWidths(Build(s).range, Extent(s), multiset(s), a);
      NodeSplits(Build(s));
    }
  }

  lemma BuildNode(s: seq<Point>, a: Axis, n: seq<Point>, m: nat)
    requires |s| > 0 && m == (|s| - 1) / 2 && a == DivisionAxis(Extent(s)) && n == NthElement(s, a, m)
    ensures var t := Build(s); t.Node? && t.axis == a && t.left == Build(n[..m]) && t.right == Build(n[m + 1..])
  {
    hide NthElement, Extent, DivisionAxis;
  }

  lemma BuiltGives(t: Tree, s: seq<Point>)
    requires BuiltFrom(t, s)
    ensures Inv(t) && Live(t) == multiset(s) && Of(t, Boxed) == multiset{} && (t.Nil? <==> s == [])
    ensures t.Node? ==> !Dead(t)
  {
    hide Inv, Live, Points, Held, Balanced, Ordered;
  }

  lemma SameWidths(r: Box, e: Box, m: multiset<Point>, a: Axis)
    requires IsBoundingBox(r, m) && IsBoundingBox(e, m) && a == DivisionAxis(e)
    ensures forall b: Axis :: Width(r, b) <= Width(r, a)
  {
    NoWider(r, e, m);
    NoWider(e, r, m);
    hide IsBoundingBox;
    forall b: Axis ensures Width(r, b) <= Width(r, a) { LongestAxis(e, b); }
  }

  lemma NodeSplits(t: Tree)
    requires t.Node? && SplitsLongest(t.left) && SplitsLongest(t.right)
    requires forall b: Axis :: Width(t.range, b) <= Width(t.range, t.axis)
    ensures SplitsLongest(t)
  {
  }

  // ---- Flattening ----

  lemma {:induction false} FlattenStep(t: Tree)
    requires t.Node?
    ensures var u := PushDown(t);
      && Flatten(t) == (if u.pointDel then [] else [u.point]) + Flatten(u.left) + Flatten(u.right)
      && Recorded(t) == Recorded(u.left) + Recorded(u.right) + (if u.pointDel && !u.pointDs then [u.point] else [])
  {
  }

  /** `flatten` stores exactly the live points. */
  lemma {:induction false} FlattenExact(t: Tree)
    requires Inv(t)
    ensures multiset(Flatten(t)) == Live(t)
    decreases Nodes(t)
  {
    FlattenNil();
    PushDownInv(t);
    hide Live, Held, Inv, Flatten, Recorded, PushDown;
    if t.Node? {
      var u := PushDown(t);
      FlattenStep(t);
      PushDownLive(t);
      InvSons(u);
      FlattenExact(u.left);
      FlattenExact(u.right);
    }
  }

  /** And it records exactly the points that boxes deleted. */
  lemma {:induction false} RecordedExact(t: Tree)
    requires Inv(t)
    ensures multiset(Recorded(t)) == Of(t, Boxed)
    decreases Nodes(t)
  {
    FlattenNil();
    PushDownInv(t);
    hide Live, Held, Inv, Flatten, Recorded, PushDown;
    if t.Node? {
      var u := PushDown(t);
      FlattenStep(t);
      PushDownHeld(t, Boxed);
      InvSons(u);
      RecordedExact(u.left);
      RecordedExact(u.right);
      var own := if u.pointDel && !u.pointDs then [u.point] else [];
      Three(Recorded(u.left), Recorded(u.right), own);
      assert multiset(own) == Own(Mark(u.pointDel, u.pointDs) == Boxed, u.point);
    }
  }

  lemma Three(a: seq<Point>, b: seq<Point>, c: seq<Point>)
    ensures multiset(a + b + c) == multiset(c) + multiset(a) + multiset(b)
  {
  }

  lemma FlattenNil()
    ensures Flatten(Nil) == [] && Recorded(Nil) == []
    ensures forall s :: Of(Nil, s) == multiset{}
    ensures Live(Nil) == multiset{}
  {
  }

  lemma InvSons(t: Tree)
    requires t.Node? && Inv(t)
    ensures Inv(t.left) && Inv(t.right)
  {
  }

  /** Rebuilding keeps the live points; the boxed ones go to the record, the dropped ones nowhere. */
  lemma {:induction false} RebuildExact(t: Tree)
    requires Inv(t)
    ensures BuiltFrom(Build(Flatten(t)), Flatten(t))
    ensures Live(Build(Flatten(t))) == Live(t) && multiset(Recorded(t)) == Of(t, Boxed)
  {
    BuildCorrect(Flatten(t));
    FlattenExact(t);
    RecordedExact(t);
  }
}
