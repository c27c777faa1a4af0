/** The cube of map around the lidar: `lasermap_fov_segment`. */
module LocalMap {
  import opened Geometry
  import opened Runs

  /** `MOV_THRESHOLD`. */
  const THRESHOLD := 1.5

  function Lo(b: Box, a: Axis): real { if a == 0 then b.minX else if a == 1 then b.minY else b.minZ }

  function Hi(b: Box, a: Axis): real { if a == 0 then b.maxX else if a == 1 then b.maxY else b.maxZ }

  /** `b` with one pair of `vertex_min` and `vertex_max` replaced. */
  function Put(b: Box, a: Axis, lo: real, hi: real): Box {
    if a == 0 then b.(minX := lo, maxX := hi)
    else if a == 1 then b.(minY := lo, maxY := hi)
    else b.(minZ := lo, maxZ := hi)
  }

  function Centred(p: Point, side: real): Box {
    var h := side / 2.0;
    Box(p.x - h, p.x + h, p.y - h, p.y + h, p.z - h, p.z + h)
  }

  /** `mov_dist`. */
  function Stride(side: real, reach: real): real {
    Max((side - 2.0 * THRESHOLD * reach) * 0.5 * 0.9, reach * (THRESHOLD - 1.0))
  }

  predicate NearLo(c: Box, p: Point, reach: real, a: Axis) { Abs(Coord(p, a) - Lo(c, a)) <= THRESHOLD * reach }

  predicate NearHi(c: Box, p: Point, reach: real, a: Axis) { Abs(Coord(p, a) - Hi(c, a)) <= THRESHOLD * reach }

  predicate NeedsMove(c: Box, p: Point, reach: real) {
    exists a: Axis :: NearLo(c, p, reach, a) || NearHi(c, p, reach, a)
  }

  /** How far one axis is moved; the lower face has precedence. */
  function Shift(c: Box, p: Point, reach: real, m: real, a: Axis): real {
    if NearLo(c, p, reach, a) then -m else if NearHi(c, p, reach, a) then m else 0.0
  }

  /** The cube after the first `n` axes. */
  function ShiftedTo(c: Box, p: Point, reach: real, m: real, n: nat): Box
    requires n <= 3
  {
    if n == 0 then c
    else
      var a: Axis := n - 1;
      var d := Shift(c, p, reach, m, a);
      Put(ShiftedTo(c, p, reach, m, n - 1), a, Lo(c, a) + d, Hi(c, a) + d)
  }

  function NextCube(c: Box, p: Point, side: real, reach: real): Box {
    ShiftedTo(c, p, reach, Stride(side, reach), 3)
  }

  /** The slab one axis leaves behind. */
  function SlabOf(c: Box, p: Point, reach: real, m: real, a: Axis): seq<Box> {
    if NearLo(c, p, reach, a) then [Put(c, a, Hi(c, a) - m, Hi(c, a))]
    else if NearHi(c, p, reach, a) then [Put(c, a, Lo(c, a), Lo(c, a) + m)]
    else []
  }

  function SlabsTo(c: Box, p: Point, reach: real, m: real, n: nat): seq<Box>
    requires n <= 3
  {
    if n == 0 then [] else SlabsTo(c, p, reach, m, n - 1) + SlabOf(c, p, reach, m, n - 1)
  }

  /** `cub_needrm`. */
  function Slabs(c: Box, p: Point, side: real, reach: real): seq<Box> {
    SlabsTo(c, p, reach, Stride(side, reach), 3)
  }

  // ---- The cube stays around the lidar ----

  predicate IsCube(c: Box, side: real) { forall a: Axis :: Hi(c, a) - Lo(c, a) == side }

  /** At least `gap` between `p` and every face. */
  predicate Margin(c: Box, p: Point, gap: real) {
    forall a: Axis :: Lo(c, a) + gap <= Coord(p, a) <= Hi(c, a) - gap
  }

  predicate Near(p: Point, q: Point, step: real) {
    forall a: Axis :: Abs(Coord(p, a) - Coord(q, a)) <= step
  }

  lemma ShiftedAxis(c: Box, p: Point, reach: real, m: real, a: Axis)
    ensures var n := ShiftedTo(c, p, reach, m, 3);
      var d := Shift(c, p, reach, m, a);
      Lo(n, a) == Lo(c, a) + d && Hi(n, a) == Hi(c, a) + d
  {
    hide Shift;
    assert ShiftedTo(c, p, reach, m, 3) == Put(ShiftedTo(c, p, reach, m, 2), 2, Lo(c, 2) + Shift(c, p, reach, m, 2),
                                               Hi(c, 2) + Shift(c, p, reach, m, 2));
  }

  lemma SideKept(c: Box, p: Point, side: real, reach: real)
    requires IsCube(c, side)
    ensures IsCube(NextCube(c, p, side, reach), side)
  {
    forall a: Axis ensures Hi(NextCube(c, p, side, reach), a) - Lo(NextCube(c, p, side, reach), a) == side {
      ShiftedAxis(c, p, reach, Stride(side, reach), a);
      hide Shift, ShiftedTo, Stride;
    }
  }

  /** One axis of the margin argument, `d` being the distance above the lower face. */
  lemma MarginOfAxis(c: Box, p: Point, side: real, reach: real, a: Axis)
    requires reach > 0.0 && side >= 2.5 * reach && Hi(c, a) - Lo(c, a) == side && Lo(c, a) <= Coord(p, a) <= Hi(c, a)
    ensures var d := Shift(c, p, reach, Stride(side, reach), a);
      Lo(c, a) + d + reach / 2.0 <= Coord(p, a) <= Hi(c, a) + d - reach / 2.0
  {
    hide Lo, Hi, Coord;
  }

  /** A lidar inside the cube ends up half the detection range from every face. */
  lemma MarginRestored(c: Box, p: Point, side: real, reach: real)
    requires reach > 0.0 && side >= 2.5 * reach && IsCube(c, side) && Margin(c, p, 0.0)
    ensures Margin(NextCube(c, p, side, reach), p, reach / 2.0)
  {
    forall a: Axis
      ensures var n := NextCube(c, p, side, reach);
        Lo(n, a) + reach / 2.0 <= Coord(p, a) <= Hi(n, a) - reach / 2.0
    {
      MarginOfAxis(c, p, side, reach, a);
      ShiftedAxis(c, p, reach, Stride(side, reach), a);
      hide Shift, ShiftedTo, Stride;
    }
  }

  /** The cube after scan `i`, the scans being taken at `ps`; the first one only centres it. */
  function CubeAt(ps: seq<Point>, side: real, reach: real, i: nat): Box
    requires i < |ps|
  {
    if i == 0 then Centred(ps[0], side) else NextCube(CubeAt(ps, side, reach, i - 1), ps[i], side, reach)
  }

  /** A path that moves at most half the detection range along each axis between scans. */
  predicate Slow(ps: seq<Point>, reach: real) {
    forall i: nat :: 0 < i < |ps| ==> Near(ps[i - 1], ps[i], reach / 2.0)
  }

  lemma {:induction false} SideConstant(ps: seq<Point>, side: real, reach: real, i: nat)
    requires i < |ps|
    ensures IsCube(CubeAt(ps, side, reach, i), side)
  {
    if i > 0 {
      SideConstant(ps, side, reach, i - 1);
      SideKept(CubeAt(ps, side, reach, i - 1), ps[i], side, reach);
      hide NextCube, IsCube;
    }
  }

  /** On a large enough cube the lidar is inside it at every scan, and well inside after it. */
  lemma {:induction false} LidarInside(ps: seq<Point>, side: real, reach: real, i: nat)
    requires reach > 0.0 && side >= 2.5 * reach && Slow(ps, reach) && i < |ps|
    ensures i > 0 ==> Margin(CubeAt(ps, side, reach, i - 1), ps[i], 0.0)
    ensures Margin(CubeAt(ps, side, reach, i), ps[i], reach / 2.0)
  {
    if i > 0 {
      var c := CubeAt(ps, side, reach, i - 1);
      LidarInside(ps, side, reach, i - 1);
      SideConstant(ps, side, reach, i - 1);
      StillInside(c, ps[i - 1], ps[i], reach);
      MarginRestored(c, ps[i], side, reach);
      hide NextCube, Margin, IsCube;
    }
  }

  lemma StillInside(c: Box, p: Point, q: Point, reach: real)
    requires Margin(c, p, reach / 2.0) && Near(p, q, reach / 2.0)
    ensures Margin(c, q, 0.0)
  {
    forall a: Axis ensures Lo(c, a) <= Coord(q, a) <= Hi(c, a) {
      assert Abs(Coord(p, a) - Coord(q, a)) <= reach / 2.0;
      hide Lo, Hi, Coord;
    }
  }

  /** Whether every slow path is followed with the margin after each scan. */
  ghost predicate AlwaysFollows(side: real, reach: real) {
    forall ps: seq<Point>, i: nat :: Slow(ps, reach) && i < |ps| ==> Margin(CubeAt(ps, side, reach, i), ps[i], reach / 2.0)
  }

  /** The exact size the cube needs. */
  lemma FollowsIff(side: real, reach: real)
    requires reach > 0.0
    ensures AlwaysFollows(side, reach) <==> side >= 2.5 * reach
  {
    if side >= 2.5 * reach {
      forall ps: seq<Point>, i: nat | Slow(ps, reach) && i < |ps|
        ensures Margin(CubeAt(ps, side, reach, i), ps[i], reach / 2.0)
      {
        LidarInside(ps, side, reach, i);
      }
    } else if side < reach {
      var ps := [Point(0.0, 0.0, 0.0, 0.0)];
      assert !(Lo(CubeAt(ps, side, reach, 0), 0) + reach / 2.0 <= Coord(ps[0], 0));
      assert Slow(ps, reach);
    } else {
      TooSmall(side, reach);
    }
  }

  /** A path of two scans that a smaller cube does not follow. */
  lemma TooSmall(side: real, reach: real)
    requires reach > 0.0 && reach <= side < 2.5 * reach
    ensures !AlwaysFollows(side, reach)
  {
    var d := if side >= 2.0 * reach then 1.5 * reach - side / 2.0 else reach / 2.0;
    var ps := [Point(0.0, 0.0, 0.0, 0.0), Point(d, 0.0, 0.0, 0.0)];
    assert Slow(ps, reach);
    var c := CubeAt(ps, side, reach, 0);
    assert c == Centred(ps[0], side);
    assert CubeAt(ps, side, reach, 1) == NextCube(c, ps[1], side, reach);
    LosesMargin(c, ps[1], side, reach);
    assert Slow(ps, reach) && 1 < |ps| && !Margin(CubeAt(ps, side, reach, 1), ps[1], reach / 2.0);
  }

  lemma LosesMargin(c: Box, p: Point, side: real, reach: real)
    requires reach > 0.0 && reach <= side < 2.5 * reach && c.minX == -side / 2.0 && c.maxX == side / 2.0
    requires p.x == if side >= 2.0 * reach then 1.5 * reach - side / 2.0 else reach / 2.0
    ensures !Margin(NextCube(c, p, side, reach), p, reach / 2.0)
  {
    assert NearLo(c, p, reach, 0);
    ShiftedAxis(c, p, reach, Stride(side, reach), 0);
    assert !(Coord(p, 0) <= Hi(NextCube(c, p, side, reach), 0) - reach / 2.0);
  }

  // ---- The slabs are what the cube leaves ----

  lemma InByAxis(b: Box, p: Point)
    ensures InBox(b, p) <==> forall a: Axis :: Lo(b, a) <= Coord(p, a) < Hi(b, a)
  {
    if forall a: Axis :: Lo(b, a) <= Coord(p, a) < Hi(b, a) {
      assert Lo(b, 0) <= Coord(p, 0) < Hi(b, 0);
      assert Lo(b, 1) <= Coord(p, 1) < Hi(b, 1);
      assert Lo(b, 2) <= Coord(p, 2) < Hi(b, 2);
    }
  }

  lemma SlabIn(c: Box, lidar: Point, reach: real, m: real, n: nat, a: Axis)
    requires a < n <= 3
    ensures forall b :: b in SlabOf(c, lidar, reach, m, a) ==> b in SlabsTo(c, lidar, reach, m, n)
    decreases n
  {
    if a < n - 1 { SlabIn(c, lidar, reach, m, n - 1, a); }
  }

  /** What the cube leaves behind on one axis is in that axis's slab. */
  lemma LeftInSlab(c: Box, lidar: Point, reach: real, m: real, p: Point, a: Axis) returns (b: Box)
    requires InBox(c, p)
    requires var d := Shift(c, lidar, reach, m, a); !(Lo(c, a) + d <= Coord(p, a) < Hi(c, a) + d)
    requires m >= 0.0
    ensures b in SlabOf(c, lidar, reach, m, a) && InBox(b, p)
  {
    b := SlabOf(c, lidar, reach, m, a)[0];
  }

  /** A slab keeps clear of the new cube and, if the stride is no longer than a side, within the old. */
  lemma SlabClear(c: Box, lidar: Point, reach: real, m: real, p: Point, a: Axis, b: Box)
    requires b in SlabOf(c, lidar, reach, m, a) && InBox(b, p)
    ensures var d := Shift(c, lidar, reach, m, a); !(Lo(c, a) + d <= Coord(p, a) < Hi(c, a) + d)
    ensures m <= Hi(c, a) - Lo(c, a) ==> InBox(c, p)
  {
  }

  lemma SlabAxis(c: Box, lidar: Point, reach: real, m: real, n: nat, b: Box) returns (a: Axis)
    requires n <= 3 && b in SlabsTo(c, lidar, reach, m, n)
    ensures b in SlabOf(c, lidar, reach, m, a)
    decreases n
  {
    if b in SlabOf(c, lidar, reach, m, n - 1) { a := n - 1; }
    else { a := SlabAxis(c, lidar, reach, m, n - 1, b); }
  }

  predicate InSome(bs: seq<Box>, p: Point) { exists b :: b in bs && InBox(b, p) }

  lemma StrideFits(side: real, reach: real)
    requires reach > 0.0
    ensures Stride(side, reach) > 0.0
    ensures Stride(side, reach) <= side <==> side >= reach / 2.0
  {
  }

  /** The slabs hold no point of the new cube, all of the old cube outside the new one and, with the
      side at least half the detection range, nothing else. */
  lemma SlabsExact(c: Box, lidar: Point, side: real, reach: real, p: Point)
    requires reach > 0.0 && IsCube(c, side)
    ensures var n := NextCube(c, lidar, side, reach);
      && (InSome(Slabs(c, lidar, side, reach), p) ==> !InBox(n, p))
      && (InBox(c, p) && !InBox(n, p) ==> InSome(Slabs(c, lidar, side, reach), p))
      && (side >= reach / 2.0 && InSome(Slabs(c, lidar, side, reach), p) ==> InBox(c, p))
  {
    var m, n := Stride(side, reach), NextCube(c, lidar, side, reach);
    StrideFits(side, reach);
    InByAxis(n, p);
    hide Stride, InBox, Shift, SlabOf, ShiftedTo, SlabsTo, Lo, Hi, Coord;
    if InSome(Slabs(c, lidar, side, reach), p) {
      var b :| b in Slabs(c, lidar, side, reach) && InBox(b, p);
      var a := SlabAxis(c, lidar, reach, m, 3, b);
      SlabClear(c, lidar, reach, m, p, a, b);
      ShiftedAxis(c, lidar, reach, m, a);
    } else if InBox(c, p) && !InBox(n, p) {
      var a: Axis :| !(Lo(n, a) <= Coord(p, a) < Hi(n, a));
      ShiftedAxis(c, lidar, reach, m, a);
      var b := LeftInSlab(c, lidar, reach, m, p, a);
      SlabIn(c, lidar, reach, m, 3, a);
    }
  }

  // ---- How far, in numbers ----

  /** The distance an axis moves: nine tenths of what the side has beyond three detection ranges, halved,
      but at least half a detection range. */
  ghost function Travel(side: real, reach: real): real {
    if 9.0 * (side - 3.0 * reach) >= 10.0 * reach then 9.0 * (side - 3.0 * reach) / 20.0 else reach / 2.0
  }

  /** Both faces of an axis from `c` to `n`: down if the lidar is within 1.5 detection ranges of the lower
      face, else up if it is of the upper one, else not at all. */
  ghost predicate AxisMoved(c: Box, n: Box, p: Point, side: real, reach: real, a: Axis) {
    var m := Travel(side, reach);
    if Abs(Coord(p, a) - Lo(c, a)) <= 1.5 * reach then Lo(n, a) == Lo(c, a) - m && Hi(n, a) == Hi(c, a) - m
    else if Abs(Coord(p, a) - Hi(c, a)) <= 1.5 * reach then Lo(n, a) == Lo(c, a) + m && Hi(n, a) == Hi(c, a) + m
    else Lo(n, a) == Lo(c, a) && Hi(n, a) == Hi(c, a)
  }

  /** `q` is in the part of the old cube, as thick as the move, at the face the cube moves away from. */
  ghost predicate Cut(c: Box, p: Point, side: real, reach: real, a: Axis, q: Point) {
    && (forall o: Axis :: o != a ==> Lo(c, o) <= Coord(q, o) < Hi(c, o))
    && if Abs(Coord(p, a) - Lo(c, a)) <= 1.5 * reach
       then Hi(c, a) - Travel(side, reach) <= Coord(q, a) < Hi(c, a)
       else Abs(Coord(p, a) - Hi(c, a)) <= 1.5 * reach && Lo(c, a) <= Coord(q, a) < Lo(c, a) + Travel(side, reach)
  }

  lemma StrideIs(side: real, reach: real)
    ensures Stride(side, reach) == Travel(side, reach)
  {
  }

  lemma CubeMoves(c: Box, p: Point, side: real, reach: real, a: Axis)
    ensures AxisMoved(c, NextCube(c, p, side, reach), p, side, reach, a)
  {
    hide Stride, Travel, ShiftedTo, Lo, Hi, Coord;
    StrideIs(side, reach);
    ShiftedAxis(c, p, reach, Stride(side, reach), a);
  }

  lemma PutAxis(c: Box, a: Axis, lo: real, hi: real, o: Axis)
    ensures Lo(Put(c, a, lo, hi), o) == (if o == a then lo else Lo(c, o))
    ensures Hi(Put(c, a, lo, hi), o) == (if o == a then hi else Hi(c, o))
  {
  }

  lemma InPut(c: Box, a: Axis, lo: real, hi: real, q: Point)
    ensures InBox(Put(c, a, lo, hi), q)
       <==> lo <= Coord(q, a) < hi && forall o: Axis :: o != a ==> Lo(c, o) <= Coord(q, o) < Hi(c, o)
  {
    hide Put, Lo, Hi, Coord, InBox;
    InByAxis(Put(c, a, lo, hi), q);
    forall o: Axis
      ensures Lo(Put(c, a, lo, hi), o) == (if o == a then lo else Lo(c, o))
      ensures Hi(Put(c, a, lo, hi), o) == (if o == a then hi else Hi(c, o))
    {
      PutAxis(c, a, lo, hi, o);
    }
  }

  lemma SlabIsCut(c: Box, p: Point, side: real, reach: real, a: Axis, q: Point)
    ensures InSome(SlabOf(c, p, reach, Stride(side, reach), a), q) <==> Cut(c, p, side, reach, a, q)
  {
    hide Stride, Travel, Put, Lo, Hi, Coord, InBox;
    StrideIs(side, reach);
    var m, s := Stride(side, reach), SlabOf(c, p, reach, Stride(side, reach), a);
    InPut(c, a, Hi(c, a) - m, Hi(c, a), q);
    InPut(c, a, Lo(c, a), Lo(c, a) + m, q);
    assert |s| > 0 ==> s == [s[0]] && s[0] in s;
  }

  /** The slabs are exactly the parts cut off. */
  lemma SlabsAreCuts(c: Box, p: Point, side: real, reach: real, q: Point)
    ensures InSome(Slabs(c, p, side, reach), q) <==> exists a: Axis :: Cut(c, p, side, reach, a, q)
  {
    hide Stride, Cut, InBox, SlabOf, SlabsTo;
    var m := Stride(side, reach);
    if InSome(Slabs(c, p, side, reach), q) {
      var b :| b in Slabs(c, p, side, reach) && InBox(b, q);
      var a := SlabAxis(c, p, reach, m, 3, b);
      assert InSome(SlabOf(c, p, reach, m, a), q);
      SlabIsCut(c, p, side, reach, a, q);
    }
    if a: Axis :| Cut(c, p, side, reach, a, q) {
      SlabIsCut(c, p, side, reach, a, q);
      SlabIn(c, p, reach, m, 3, a);
    }
  }

  lemma {:induction false} OutsideAllCount(m: multiset<Point>, bs: seq<Box>, p: Point)
    ensures OutsideAll(m, bs)[p] == if InSome(bs, p) then 0 else m[p]
  {
    if |bs| > 0 {
      var rest, b := bs[..|bs| - 1], bs[|bs| - 1];
      OutsideAllCount(m, rest, p);
      assert bs == rest + [b];
      assert InSome(bs, p) <==> InSome(rest, p) || InBox(b, p);
    }
  }

  /** A move deletes exactly the live points it should: those of the new cube survive, those of the old
      cube outside the new one go and, unless the cube is tiny, no others. */
  lemma MoveDeletesExactly(live: multiset<Point>, c: Box, lidar: Point, side: real, reach: real, p: Point)
    requires reach > 0.0 && IsCube(c, side)
    ensures var n := NextCube(c, lidar, side, reach);
      var left := OutsideAll(live, Slabs(c, lidar, side, reach));
      && (InBox(n, p) ==> left[p] == live[p])
      && (InBox(c, p) && !InBox(n, p) ==> left[p] == 0)
      && (side >= reach / 2.0 && !InBox(c, p) ==> left[p] == live[p])
  {
    OutsideAllCount(live, Slabs(c, lidar, side, reach), p);
    SlabsExact(c, lidar, side, reach, p);
  }
}
