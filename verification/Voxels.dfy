/** `Add_Points`: plain insertion, and insertion with one point kept per voxel. */
module Voxels {
  import opened Geometry
  import opened Multisets
  import opened Tree
  import opened Invariant
  import opened Rebuilding
  import opened Edits
  import opened Shape
  import opened Searches

  // ---- Voxels ----

  datatype Voxel = Voxel(i: int, j: int, k: int)

  function VoxelOf(p: Point, s: real): Voxel
    requires s > 0.0
  {
    Voxel((p.x / s).Floor, (p.y / s).Floor, (p.z / s).Floor)
  }

  function BoxOf(v: Voxel, s: real): Box {
    Box(v.i as real * s, v.i as real * s + s, v.j as real * s, v.j as real * s + s, v.k as real * s, v.k as real * s + s)
  }

  function Middle(b: Box): Point {
    Point(b.minX + (b.maxX - b.minX) / 2.0, b.minY + (b.maxY - b.minY) / 2.0, b.minZ + (b.maxZ - b.minZ) / 2.0, 0.0)
  }

  /** The centre of a voxel: half a side above its lower faces. */
  function VoxelCentre(v: Voxel, s: real): Point {
    Point((v.i as real + 0.5) * s, (v.j as real + 0.5) * s, (v.k as real + 0.5) * s, 0.0)
  }

  lemma MiddleIsCentre(v: Voxel, s: real)
    ensures Middle(BoxOf(v, s)) == VoxelCentre(v, s)
  {
    HalfCell(v.i as real, s);
    HalfCell(v.j as real, s);
    HalfCell(v.k as real, s);
  }

  lemma HalfCell(i: real, s: real)
    ensures (i + 0.5) * s == i * s + s / 2.0
  {
  }

  lemma FloorCell(x: real, s: real, i: int)
    requires s > 0.0
    ensures (x / s).Floor == i <==> i as real * s <= x < i as real * s + s
  {
    var q := x / s;
    assert q * s == x;
    CellOf(q, x, s, i);
  }

  lemma CellOf(q: real, x: real, s: real, i: int)
    requires s > 0.0 && q * s == x
    ensures q.Floor == i <==> i as real * s <= x < i as real * s + s
  {
    var n := q.Floor;
    if n == i {
      AtLeastCell(i as real, q, x, s);
      BelowCell(i as real + 1.0, q, x, s);
      NextCell(i as real, s);
    } else if n < i {
      BelowCell(i as real, q, x, s);
    } else {
      AtLeastCell(i as real + 1.0, q, x, s);
      NextCell(i as real, s);
    }
  }

  lemma AtLeastCell(c: real, q: real, x: real, s: real)
    requires s > 0.0 && q * s == x && c <= q
    ensures c * s <= x
  {
    Scale(c, q, s);
  }

  lemma BelowCell(c: real, q: real, x: real, s: real)
    requires s > 0.0 && q * s == x && q < c
    ensures x < c * s
  {
    ScaleStrict(q, c, s);
  }

  lemma NextCell(i: real, s: real)
    ensures (i + 1.0) * s == i * s + s
  {
  }

  lemma Scale(a: real, b: real, s: real)
    requires a <= b && s > 0.0
    ensures a * s <= b * s
  {
  }

  lemma ScaleStrict(a: real, b: real, s: real)
    requires a < b && s > 0.0
    ensures a * s < b * s
  {
    Positive(b - a, s);
    assert b * s - a * s == (b - a) * s;
  }

  /** The voxel boxes partition space into cubes of side `s` around the centres. */
  lemma InVoxel(v: Voxel, s: real, p: Point)
    requires s > 0.0
    ensures InBox(BoxOf(v, s), p) <==> VoxelOf(p, s) == v
    ensures InBox(BoxOf(v, s), p) <==> var c := VoxelCentre(v, s);
      && c.x - s / 2.0 <= p.x < c.x + s / 2.0
      && c.y - s / 2.0 <= p.y < c.y + s / 2.0
      && c.z - s / 2.0 <= p.z < c.z + s / 2.0
  {
    HalfCell(v.i as real, s);
    HalfCell(v.j as real, s);
    HalfCell(v.k as real, s);
    FloorCell(p.x, s, v.i);
    FloorCell(p.y, s, v.j);
    FloorCell(p.z, s, v.k);
  }

  // ---- One point ----

  /** The stored point nearest the middle, or `p` if none is strictly nearer. */
  function Best(p: Point, mid: Point, stored: seq<Point>): Point {
    if |stored| == 0 then p
    else
      var b := Best(p, mid, stored[..|stored| - 1]);
      var c := stored[|stored| - 1];
      if Dist(c, mid) < Dist(b, mid) then c else b
  }

  const EPSS := 0.000001

  predicate SamePoint(a: Point, b: Point) {
    Abs(a.x - b.x) < EPSS && Abs(a.y - b.y) < EPSS && Abs(a.z - b.z) < EPSS
  }

  datatype Stored = Stored(tree: Tree, count: nat, recorded: seq<Point>)

  /** Puts `b` in place of everything the box holds. */
  function ReplaceIn(t: Tree, box: Box, held: bool, b: Point): Stored
    requires t.Node?
  {
    var d := if held then DeleteRange(t, box, true, true) else Removal(t, 0, []);
    var a := AddPoint(d.tree, b, true, if d.tree.Nil? then 0 else d.tree.axis);
    Stored(a.tree, 1, d.recorded + a.recorded)
  }

  /** The point that will stand for the voxel of `p`. */
  function Chosen(t: Tree, p: Point, s: real): Point
    requires s > 0.0
  {
    var box := BoxOf(VoxelOf(p, s), s);
    Best(p, Middle(box), SearchRange(t, box).points)
  }

  /** One point of `Add_Points` with downsampling; `s` is `downsample_size`. */
  function StorePoint(t: Tree, p: Point, s: real): Stored
    requires s > 0.0
  {
    var box := BoxOf(VoxelOf(p, s), s);
    var f := SearchRange(t, box);
    var b := Chosen(t, p, s);
    if f.tree.Node? && (|f.points| > 1 || SamePoint(p, b)) then ReplaceIn(f.tree, box, |f.points| > 0, b)
    else Stored(f.tree, 0, [])
  }

  /** `c` of the pool is as near the middle as any. */
  ghost predicate IsNearestTo(c: Point, mid: Point, pool: multiset<Point>) {
    c in pool && forall x :: x in pool ==> Dist(c, mid) <= Dist(x, mid)
  }

  lemma {:induction false} BestIsNearest(p: Point, mid: Point, stored: seq<Point>)
    ensures IsNearestTo(Best(p, mid, stored), mid, multiset(stored) + multiset{p})
    ensures Best(p, mid, stored) == p || Best(p, mid, stored) in stored
  {
    hide Dist;
    if |stored| > 0 {
      var rest, c := stored[..|stored| - 1], stored[|stored| - 1];
      assert stored == rest + [c];
      BestIsNearest(p, mid, rest);
      assert multiset(stored) == multiset(rest) + multiset{c};
    }
  }

  /** The box holds one point, nearest `mid` among its old points and `p`; all else stays. */
  ghost predicate VoxelUpdated(m: multiset<Point>, m': multiset<Point>, box: Box, mid: Point, p: Point) {
    && Outside(m', box) == Outside(m, box)
    && exists r :: Inside(m', box) == multiset{r} && IsNearestTo(r, mid, Inside(m, box) + multiset{p})
  }

  /** What an edit did to the points: live ones deleted by a box (`boxed`) or by downsampling
      (`dropped`), boxed ones that became dropped (`relabelled`), dropped ones that a rebuild left out
      (`forgotten`). */
  datatype Change = Change(boxed: multiset<Point>, dropped: multiset<Point>,
                           relabelled: multiset<Point>, forgotten: multiset<Point>)

  const NONE := Change(multiset{}, multiset{}, multiset{}, multiset{})

  ghost function Both(a: Change, b: Change): Change {
    Change(a.boxed + b.boxed, a.dropped + b.dropped, a.relabelled + b.relabelled, a.forgotten + b.forgotten)
  }

  ghost function AddChange(t: Tree, p: Point, a: Axis): Change {
    Change(multiset{}, multiset{}, multiset{}, AddForgot(t, p, true, a))
  }

  ghost function DeleteChange(t: Tree, box: Box, ds: bool): Change {
    var toll := DeleteToll(t, box, true, ds);
    Change(When(!ds, Inside(Live(t), box)), When(ds, Inside(Live(t), box)), toll.relabelled, toll.forgotten)
  }

  /** An edit keeps the tree sound and accounts for every point by its kind, occurrence by occurrence:
      `added` points become live, live ones stay or are deleted, boxed ones stay, are reported or are
      relabelled, dropped ones stay or are forgotten. */
  ghost predicate Kept(t: Tree, added: multiset<Point>, r: Tree, recorded: seq<Point>, ch: Change) {
    && Inv(r) && r.Node? && (Balanced(t) ==> Balanced(r)) && (Ordered(t) ==> Ordered(r))
    && (ch.boxed + ch.dropped) + Live(r) == Live(t) + added
    && (multiset(recorded) + ch.relabelled) + Of(r, Boxed) == Of(t, Boxed) + ch.boxed
    && ch.forgotten + Of(r, Dropped) == Of(t, Dropped) + (ch.relabelled + ch.dropped)
  }

  lemma {:induction false} AddKept(t: Tree, b: Point, a: Axis)
    requires Inv(t) && t.Node?
    ensures var e := AddPoint(t, b, true, a);
      Kept(t, multiset{b}, e.tree, e.recorded, AddChange(t, b, a)) && Live(e.tree) == Live(t) + multiset{b}
  {
    hide *;
    var e, forgot := AddPoint(t, b, true, a), AddForgot(t, b, true, a);
    AddPointExact(t, b, true, a);
    GrownGives(t, b, e, forgot);
    GrownLiveIs(t, b, e, forgot);
    if Balanced(t) { AddPointBalanced(t, b, a); }
    if Ordered(t) { AddPointOrdered(t, b, true, a); }
    AddChangeIs(t, b, a);
    KeptFrom(t, multiset{b}, e.tree, e.recorded, AddChange(t, b, a));
  }

  lemma AddChangeIs(t: Tree, p: Point, a: Axis)
    ensures AddChange(t, p, a) == Change(multiset{}, multiset{}, multiset{}, AddForgot(t, p, true, a))
  {
  }

  lemma {:induction false} DeleteKept(t: Tree, box: Box, ds: bool)
    requires Inv(t) && t.Node?
    ensures var e := DeleteRange(t, box, true, ds);
      && Kept(t, multiset{}, e.tree, e.recorded, DeleteChange(t, box, ds))
      && Live(e.tree) == Outside(Live(t), box) && e.count == |Inside(Live(t), box)|
  {
    hide *;
    var e, toll := DeleteRange(t, box, true, ds), DeleteToll(t, box, true, ds);
    DeleteRangeExact(t, box, true, ds);
    ShrunkGives(t, box, ds, e, toll);
    if Balanced(t) { DeleteRangeBalanced(t, box, ds); }
    if Ordered(t) { DeleteRangeOrdered(t, box, true, ds); }
    InsideOutside(Live(t), box);
    DeleteFlow(Live(t), Inside(Live(t), box), Outside(Live(t), box), ds);
    DeleteChangeIs(t, box, ds);
    KeptFrom(t, multiset{}, e.tree, e.recorded, DeleteChange(t, box, ds));
  }

  lemma DeleteChangeIs(t: Tree, box: Box, ds: bool)
    ensures var ch, toll := DeleteChange(t, box, ds), DeleteToll(t, box, true, ds);
      && ch.boxed == When(!ds, Inside(Live(t), box)) && ch.dropped == When(ds, Inside(Live(t), box))
      && ch.relabelled == toll.relabelled && ch.forgotten == toll.forgotten
  {
  }

  lemma DeleteFlow(live: multiset<Point>, hit: multiset<Point>, rest: multiset<Point>, ds: bool)
    requires hit + rest == live
    ensures (When(!ds, hit) + When(ds, hit)) + rest == live + multiset{}
  {
  }

  lemma ShrunkGives(t: Tree, b: Box, ds: bool, e: Removal, toll: Toll)
    requires Shrunk(t, b, ds, e, toll)
    ensures Inv(e.tree) && (e.tree.Node? <==> t.Node?) && Live(e.tree) == Outside(Live(t), b)
    ensures e.count == |Inside(Live(t), b)|
    ensures (multiset(e.recorded) + toll.relabelled) + Of(e.tree, Boxed) == Of(t, Boxed) + When(!ds, Inside(Live(t), b))
    ensures toll.forgotten + Of(e.tree, Dropped) == Of(t, Dropped) + (toll.relabelled + When(ds, Inside(Live(t), b)))
  {
  }

  lemma KeptFrom(t: Tree, added: multiset<Point>, r: Tree, rec: seq<Point>, ch: Change)
    requires Inv(r) && r.Node? && (Balanced(t) ==> Balanced(r)) && (Ordered(t) ==> Ordered(r))
    requires (ch.boxed + ch.dropped) + Live(r) == Live(t) + added
    requires (multiset(rec) + ch.relabelled) + Of(r, Boxed) == Of(t, Boxed) + ch.boxed
    requires ch.forgotten + Of(r, Dropped) == Of(t, Dropped) + (ch.relabelled + ch.dropped)
    ensures Kept(t, added, r, rec, ch)
  {
  }

  lemma KeptThen(t: Tree, u: Tree, r: Tree, x: multiset<Point>, y: multiset<Point>, r1: seq<Point>, r2: seq<Point>,
                 c1: Change, c2: Change)
    requires Kept(t, x, u, r1, c1) && Kept(u, y, r, r2, c2)
    ensures Kept(t, x + y, r, r1 + r2, Both(c1, c2))
  {
    hide *;
    KeptGives(t, x, u, r1, c1);
    KeptGives(u, y, r, r2, c2);
    assert multiset(r1 + r2) == multiset(r1) + multiset(r2);
    FlowThen(Live(t), Live(u), Live(r), x, y, c1.boxed + c1.dropped, c2.boxed + c2.dropped);
    FlowThen(Of(t, Boxed), Of(u, Boxed), Of(r, Boxed), c1.boxed, c2.boxed,
             multiset(r1) + c1.relabelled, multiset(r2) + c2.relabelled);
    FlowThen(Of(t, Dropped), Of(u, Dropped), Of(r, Dropped), c1.relabelled + c1.dropped, c2.relabelled + c2.dropped,
             c1.forgotten, c2.forgotten);
    Interchange(c1.boxed, c1.dropped, c2.boxed, c2.dropped);
    Interchange(multiset(r1), c1.relabelled, multiset(r2), c2.relabelled);
    Interchange(c1.relabelled, c1.dropped, c2.relabelled, c2.dropped);
    BothIs(c1, c2);
    KeptFrom(t, x + y, r, r1 + r2, Both(c1, c2));
  }

  lemma BothIs(a: Change, b: Change)
    ensures Both(a, b) == Change(a.boxed + b.boxed, a.dropped + b.dropped, a.relabelled + b.relabelled,
                                 a.forgotten + b.forgotten)
  {
  }

  /** What flows out of two edits in turn, and in. */
  lemma FlowThen(t: multiset<Point>, u: multiset<Point>, r: multiset<Point>, x: multiset<Point>, y: multiset<Point>,
                 o1: multiset<Point>, o2: multiset<Point>)
    requires o1 + u == t + x && o2 + r == u + y
    ensures (o1 + o2) + r == t + (x + y)
  {
    forall q ensures ((o1 + o2) + r)[q] == (t + (x + y))[q] {
      assert (o2 + r)[q] == (u + y)[q];
      assert (o1 + u)[q] == (t + x)[q];
    }
  }

  lemma Interchange(a: multiset<Point>, b: multiset<Point>, c: multiset<Point>, d: multiset<Point>)
    ensures (a + b) + (c + d) == (a + c) + (b + d)
  {
  }

  lemma {:induction false} EasedKept(t: Tree, r: Tree)
    requires Inv(t) && t.Node? && Eased(t, r)
    ensures Kept(t, multiset{}, r, [], NONE) && Live(r) == Live(t)
  {
    EasedUnharmed(t, r);
    hide Inv, Live, Of, Points, Balanced, Ordered, Eased;
  }

  /** What `ReplaceIn` does: perhaps a downsample deletion, then an insertion. */
  ghost function ReplaceChange(t: Tree, box: Box, held: bool, b: Point): Change
    requires t.Node?
  {
    var d := if held then DeleteRange(t, box, true, true) else Removal(t, 0, []);
    Both(if held then DeleteChange(t, box, true) else NONE, AddChange(d.tree, b, if d.tree.Nil? then 0 else d.tree.axis))
  }

  lemma {:induction false} ReplaceInExact(t: Tree, box: Box, held: bool, b: Point)
    requires Inv(t) && t.Node? && (held || Inside(Live(t), box) == multiset{})
    ensures var e := ReplaceIn(t, box, held, b);
      && Kept(t, multiset{b}, e.tree, e.recorded, ReplaceChange(t, box, held, b))
      && Live(e.tree) == Outside(Live(t), box) + multiset{b}
  {
    hide *;
    var d := if held then DeleteRange(t, box, true, true) else Removal(t, 0, []);
    var ch := if held then DeleteChange(t, box, true) else NONE;
    if held {
      DeleteKept(t, box, true);
    } else {
      SelfEased(t);
      EasedKept(t, t);
      InsideOutside(Live(t), box);
    }
    KeptGives(t, multiset{}, d.tree, d.recorded, ch);
    AddKept(d.tree, b, d.tree.axis);
    var a := AddPoint(d.tree, b, true, d.tree.axis);
    KeptThen(t, d.tree, a.tree, multiset{}, multiset{b}, d.recorded, a.recorded, ch, AddChange(d.tree, b, d.tree.axis));
    ReplaceInCases(t, box, held, b);
    assert multiset{} + multiset{b} == multiset{b};
  }

  lemma SelfEased(t: Tree)
    ensures Eased(t, t)
  {
  }

  lemma KeptGives(t: Tree, x: multiset<Point>, r: Tree, rec: seq<Point>, ch: Change)
    requires Kept(t, x, r, rec, ch)
    ensures Inv(r) && r.Node? && (Balanced(t) ==> Balanced(r)) && (Ordered(t) ==> Ordered(r))
    ensures (ch.boxed + ch.dropped) + Live(r) == Live(t) + x
    ensures (multiset(rec) + ch.relabelled) + Of(r, Boxed) == Of(t, Boxed) + ch.boxed
    ensures ch.forgotten + Of(r, Dropped) == Of(t, Dropped) + (ch.relabelled + ch.dropped)
  {
  }

  lemma ReplaceInCases(t: Tree, box: Box, held: bool, b: Point)
    requires t.Node?
    ensures var d := if held then DeleteRange(t, box, true, true) else Removal(t, 0, []);
      d.tree.Node? ==>
        (var a := AddPoint(d.tree, b, true, d.tree.axis);
         && ReplaceIn(t, box, held, b) == Stored(a.tree, 1, d.recorded + a.recorded)
         && ReplaceChange(t, box, held, b)
            == Both(if held then DeleteChange(t, box, true) else NONE, AddChange(d.tree, b, d.tree.axis)))
  {
    hide DeleteRange, AddPoint, DeleteChange, AddChange, Both;
  }

  lemma Replaced(m: multiset<Point>, box: Box, mid: Point, b: Point, p: Point)
    requires InBox(box, b) && IsNearestTo(b, mid, Inside(m, box) + multiset{p})
    ensures VoxelUpdated(m, Outside(m, box) + multiset{b}, box, mid, p)
  {
    hide *;
    var m' := Outside(m, box) + multiset{b};
    assert Inside(m', box) == multiset{b};
    assert Outside(m', box) == Outside(m, box);
    VoxelUpdatedBy(m, m', box, mid, p, b);
  }

  lemma VoxelUpdatedBy(m: multiset<Point>, m': multiset<Point>, box: Box, mid: Point, p: Point, r: Point)
    requires Outside(m', box) == Outside(m, box) && Inside(m', box) == multiset{r}
    requires IsNearestTo(r, mid, Inside(m, box) + multiset{p})
    ensures VoxelUpdated(m, m', box, mid, p)
  {
  }

  lemma OnlyOne(p: Point, b: Point, stored: seq<Point>)
    requires |stored| <= 1 && !SamePoint(p, b) && (b == p || b in stored)
    ensures multiset(stored) == multiset{b}
  {
    assert stored == [b];
  }

  /** The point put into the tree, if one was. */
  ghost function Put(t: Tree, p: Point, s: real): multiset<Point>
    requires s > 0.0
  {
    if StorePoint(t, p, s).count == 1 then multiset{Chosen(t, p, s)} else multiset{}
  }

  ghost function StoreChange(t: Tree, p: Point, s: real): Change
    requires s > 0.0
  {
    var box := BoxOf(VoxelOf(p, s), s);
    var f := SearchRange(t, box);
    var b := Chosen(t, p, s);
    if f.tree.Node? && (|f.points| > 1 || SamePoint(p, b)) then ReplaceChange(f.tree, box, |f.points| > 0, b) else NONE
  }

  /** What the search tells about the voxel before it is touched. */
  lemma {:induction false} ChosenExact(t: Tree, p: Point, s: real)
    requires Inv(t) && t.Node? && s > 0.0
    ensures var box := BoxOf(VoxelOf(p, s), s);
      var f, b := SearchRange(t, box), Chosen(t, p, s);
      && multiset(f.points) == Inside(Live(t), box) && Kept(t, multiset{}, f.tree, [], NONE) && Live(f.tree) == Live(t)
      && f.tree.Node? && InBox(box, b) && IsNearestTo(b, Middle(box), Inside(Live(t), box) + multiset{p})
      && (b == p || b in f.points)
  {
    var box := BoxOf(VoxelOf(p, s), s);
    var f := SearchRange(t, box);
    var b := Chosen(t, p, s);
    hide Inv, Live, SearchRange, Eased, Best, BoxOf, VoxelOf, Dist, Kept;
    SearchRangeExact(t, box);
    EasedKept(t, f.tree);
    KeptGives(t, multiset{}, f.tree, [], NONE);
    BestIsNearest(p, Middle(box), f.points);
    InVoxel(VoxelOf(p, s), s, p);
    if b != p {
      assert b in multiset(f.points);
      assert b in Inside(Live(t), box);
    }
  }

  lemma StorePointCases(t: Tree, p: Point, s: real)
    requires s > 0.0
    ensures var box := BoxOf(VoxelOf(p, s), s);
      var f, b := SearchRange(t, box), Chosen(t, p, s);
      f.tree.Node? ==>
        && StorePoint(t, p, s) == (if |f.points| > 1 || SamePoint(p, b) then ReplaceIn(f.tree, box, |f.points| > 0, b)
                                   else Stored(f.tree, 0, []))
        && StoreChange(t, p, s) == (if |f.points| > 1 || SamePoint(p, b)
                                    then ReplaceChange(f.tree, box, |f.points| > 0, b) else NONE)
  {
    hide SearchRange, ReplaceIn, ReplaceChange, Chosen, BoxOf, VoxelOf, SamePoint;
  }

  lemma PutCases(t: Tree, p: Point, s: real)
    requires s > 0.0
    ensures Put(t, p, s) == if StorePoint(t, p, s).count == 1 then multiset{Chosen(t, p, s)} else multiset{}
  {
  }

  lemma ReplaceInCount(t: Tree, box: Box, held: bool, b: Point)
    requires t.Node?
    ensures ReplaceIn(t, box, held, b).count == 1
  {
  }

  lemma NoneBefore(ch: Change)
    ensures Both(NONE, ch) == ch
  {
    assert multiset{} + ch.boxed == ch.boxed && multiset{} + ch.dropped == ch.dropped;
    assert multiset{} + ch.relabelled == ch.relabelled && multiset{} + ch.forgotten == ch.forgotten;
  }

  /** The voxel of the new point ends with one point, nearest the middle; all else stays. */
  lemma {:induction false} StorePointExact(t: Tree, p: Point, s: real)
    requires Inv(t) && t.Node? && s > 0.0
    ensures var e := StorePoint(t, p, s);
      && VoxelUpdated(Live(t), Live(e.tree), BoxOf(VoxelOf(p, s), s), VoxelCentre(VoxelOf(p, s), s), p)
      && Kept(t, Put(t, p, s), e.tree, e.recorded, StoreChange(t, p, s))
  {
    hide *;
    var box := BoxOf(VoxelOf(p, s), s);
    var f, b, mid := SearchRange(t, box), Chosen(t, p, s), VoxelCentre(VoxelOf(p, s), s);
    MiddleIsCentre(VoxelOf(p, s), s);
    ChosenExact(t, p, s);
    StorePointCases(t, p, s);
    KeptGives(t, multiset{}, f.tree, [], NONE);
    var e := StorePoint(t, p, s);
    PutCases(t, p, s);
    if |f.points| > 1 || SamePoint(p, b) {
      assert e.count == 1 by { ReplaceInCount(f.tree, box, |f.points| > 0, b); }
      assert |f.points| == 0 ==> Inside(Live(f.tree), box) == multiset{};
      ReplaceInExact(f.tree, box, |f.points| > 0, b);
      var ch := ReplaceChange(f.tree, box, |f.points| > 0, b);
      KeptThen(t, f.tree, e.tree, multiset{}, multiset{b}, [], e.recorded, NONE, ch);
      NoneBefore(ch);
      assert [] + e.recorded == e.recorded && multiset{} + multiset{b} == multiset{b};
      Replaced(Live(t), box, mid, b, p);
    } else {
      OnlyOne(p, b, f.points);
      VoxelUpdatedBy(Live(t), Live(t), box, mid, p, b);
    }
  }

  /** `p` is passed over: the box holds one point, which is nearer to `mid` and, on some axis, at least
      1e-6 away from `p`. */
  ghost predicate PassedOver(m: multiset<Point>, box: Box, mid: Point, p: Point) {
    exists c :: Inside(m, box) == multiset{c} && Dist(c, mid) < Dist(p, mid) && Apart(p, c)
  }

  predicate Apart(p: Point, c: Point) {
    Abs(p.x - c.x) >= 0.000001 || Abs(p.y - c.y) >= 0.000001 || Abs(p.z - c.z) >= 0.000001
  }

  /** A point is counted exactly when something is put into the tree for it, and nothing is put for it
      exactly when it is passed over. */
  lemma {:induction false} CountedIff(t: Tree, p: Point, s: real)
    requires Inv(t) && t.Node? && s > 0.0
    ensures var e := StorePoint(t, p, s);
      && e.count == |Put(t, p, s)| && e.count <= 1
      && (e.count == 0 <==> PassedOver(Live(t), BoxOf(VoxelOf(p, s), s), VoxelCentre(VoxelOf(p, s), s), p))
  {
    hide *;
    var box := BoxOf(VoxelOf(p, s), s);
    var f, b := SearchRange(t, box), Chosen(t, p, s);
    MiddleIsCentre(VoxelOf(p, s), s);
    ChosenExact(t, p, s);
    ChosenIs(t, p, s);
    StorePointCases(t, p, s);
    PutCases(t, p, s);
    ReplaceInCount(f.tree, box, |f.points| > 0, b);
    PassedOverIff(Live(t), box, Middle(box), p, f.points);
  }

  lemma ChosenIs(t: Tree, p: Point, s: real)
    requires s > 0.0
    ensures var box := BoxOf(VoxelOf(p, s), s); Chosen(t, p, s) == Best(p, Middle(box), SearchRange(t, box).points)
  {
  }

  lemma PassedOverIff(m: multiset<Point>, box: Box, mid: Point, p: Point, stored: seq<Point>)
    requires multiset(stored) == Inside(m, box)
    ensures PassedOver(m, box, mid, p) <==> !(|stored| > 1 || SamePoint(p, Best(p, mid, stored)))
  {
    hide Dist, Inside;
    assert |multiset(stored)| == |stored|;
    if |stored| == 1 {
      var c := stored[0];
      assert stored == [c] && Best(p, mid, []) == p && [c][..0] == [];
      assert c in multiset(stored);
      assert multiset(stored) == multiset{c};
    }
  }

  // ---- The whole list ----

  /** `Add_Points` over a list, with or without downsampling. */
  function StoreAll(t: Tree, ps: seq<Point>, s: real): Stored
    requires s > 0.0
  {
    if |ps| == 0 then Stored(t, 0, [])
    else
      var a := StoreAll(t, ps[..|ps| - 1], s);
      var e := StorePoint(a.tree, ps[|ps| - 1], s);
      Stored(e.tree, a.count + e.count, a.recorded + e.recorded)
  }

  function InsertAll(t: Tree, ps: seq<Point>): Edited {
    if |ps| == 0 then Edited(t, [])
    else
      var a := InsertAll(t, ps[..|ps| - 1]);
      var e := AddPoint(a.tree, ps[|ps| - 1], true, if a.tree.Nil? then 0 else a.tree.axis);
      Edited(e.tree, a.recorded + e.recorded)
  }

  /** What a voxel holds after the points `newer` fell into it: its old points if there were none,
      otherwise a single point nearest the middle among old and newer. */
  ghost predicate VoxelHolds(before: multiset<Point>, newer: multiset<Point>, now: multiset<Point>, mid: Point) {
    if newer == multiset{} then now == before
    else exists r :: now == multiset{r} && IsNearestTo(r, mid, before + newer)
  }

  lemma VoxelHoldsNext(before: multiset<Point>, newer: multiset<Point>, now: multiset<Point>, mid: Point, p: Point, r: Point)
    requires VoxelHolds(before, newer, now, mid) && IsNearestTo(r, mid, now + multiset{p})
    ensures VoxelHolds(before, newer + multiset{p}, multiset{r}, mid)
  {
    hide Dist;
    if newer == multiset{} {
      assert before + (newer + multiset{p}) == now + multiset{p};
    } else {
      var c :| now == multiset{c} && IsNearestTo(c, mid, before + newer);
      var pool := before + (newer + multiset{p});
      forall x | x in pool ensures Dist(r, mid) <= Dist(x, mid) {
        assert x in before + newer || x == p;
      }
      assert r == c || r == p;
    }
  }

  /** After `Add_Points` with downsampling every voxel touched holds exactly one live point, nearest
      its middle among its old points and the new ones, and every other voxel is as it was. */
  lemma {:induction false} StoreAllExact(t: Tree, ps: seq<Point>, s: real, v: Voxel)
    requires Inv(t) && t.Node? && s > 0.0
    ensures StoredIn(t, ps, s, v)
    decreases |ps|
  {
    if |ps| == 0 {
      NoneInside(multiset(ps), BoxOf(v, s));
    } else {
      StoreAllExact(t, ps[..|ps| - 1], s, v);
      StoreAllNext(t, ps, s, v);
    }
  }

  /** The state of voxel `v` after `Add_Points`. */
  ghost predicate StoredIn(t: Tree, ps: seq<Point>, s: real, v: Voxel)
    requires s > 0.0
  {
    var e := StoreAll(t, ps, s);
    && Inv(e.tree) && e.tree.Node?
    && VoxelHolds(Inside(Live(t), BoxOf(v, s)), Inside(multiset(ps), BoxOf(v, s)), Inside(Live(e.tree), BoxOf(v, s)),
                  VoxelCentre(v, s))
  }

  lemma {:induction false} StoreAllNext(t: Tree, ps: seq<Point>, s: real, v: Voxel)
    requires s > 0.0 && |ps| > 0 && StoredIn(t, ps[..|ps| - 1], s, v)
    ensures StoredIn(t, ps, s, v)
  {
    hide *;
    var rest, p := ps[..|ps| - 1], ps[|ps| - 1];
    assert ps == rest + [p];
    var box := BoxOf(v, s);
    var a := StoreAll(t, rest, s).tree;
    StoredInMeans(t, rest, s, v);
    StoreAllStep(t, ps, s);
    StorePointExact(a, p, s);
    var e := StorePoint(a, p, s);
    KeptGives(a, Put(a, p, s), e.tree, e.recorded, StoreChange(a, p, s));
    FreshInside(rest, p, box);
    InVoxel(v, s, p);
    if VoxelOf(p, s) == v {
      var r := TouchedVoxel(Live(a), Live(e.tree), box, VoxelCentre(v, s), p);
      VoxelHoldsNext(Inside(Live(t), box), Inside(multiset(rest), box), Inside(Live(a), box), VoxelCentre(v, s), p, r);
    } else {
      UntouchedVoxel(Live(a), Live(e.tree), v, VoxelOf(p, s), s, p);
    }
    StoredInMeans(t, ps, s, v);
  }

  lemma StoredInMeans(t: Tree, ps: seq<Point>, s: real, v: Voxel)
    requires s > 0.0
    ensures var e := StoreAll(t, ps, s);
      StoredIn(t, ps, s, v) <==>
        && Inv(e.tree) && e.tree.Node?
        && VoxelHolds(Inside(Live(t), BoxOf(v, s)), Inside(multiset(ps), BoxOf(v, s)),
                      Inside(Live(e.tree), BoxOf(v, s)), VoxelCentre(v, s))
  {
  }

  lemma StoreAllStep(t: Tree, ps: seq<Point>, s: real)
    requires |ps| > 0 && s > 0.0
    ensures StoreAll(t, ps, s).tree == StorePoint(StoreAll(t, ps[..|ps| - 1], s).tree, ps[|ps| - 1], s).tree
  {
  }

  lemma FreshInside(rest: seq<Point>, p: Point, box: Box)
    ensures Inside(multiset(rest + [p]), box)
         == if InBox(box, p) then Inside(multiset(rest), box) + multiset{p} else Inside(multiset(rest), box)
  {
    hide *;
    assert multiset(rest + [p]) == multiset(rest) + multiset{p};
  }

  lemma TouchedVoxel(m: multiset<Point>, m': multiset<Point>, box: Box, mid: Point, p: Point) returns (r: Point)
    requires VoxelUpdated(m, m', box, mid, p)
    ensures Inside(m', box) == multiset{r} && IsNearestTo(r, mid, Inside(m, box) + multiset{p})
  {
    r :| Inside(m', box) == multiset{r} && IsNearestTo(r, mid, Inside(m, box) + multiset{p});
  }

  /** Points outside one voxel's box decide the contents of every other voxel. */
  lemma UntouchedVoxel(m: multiset<Point>, m': multiset<Point>, v: Voxel, w: Voxel, s: real, p: Point)
    requires v != w && s > 0.0 && VoxelUpdated(m, m', BoxOf(w, s), VoxelCentre(w, s), p)
    ensures Inside(m', BoxOf(v, s)) == Inside(m, BoxOf(v, s))
  {
    hide BoxOf, Inside, Outside, InBox;
    assert Outside(m', BoxOf(w, s)) == Outside(m, BoxOf(w, s));
    forall q ensures Inside(m', BoxOf(v, s))[q] == Inside(m, BoxOf(v, s))[q] {
      InVoxel(v, s, q);
      InVoxel(w, s, q);
      assert Outside(m', BoxOf(w, s))[q] == Outside(m, BoxOf(w, s))[q];
    }
  }
}
