/** The mapping node's part of the cube move: the globals `lasermap_fov_segment` rewrites. */
module FovSegment {
  import opened Geometry
  import opened Invariant
  import opened Runs
  import opened IkdNode
  import opened IkdTree
  import opened LocalMap

  class LaserMap {
    const ikdtree: KdTree
    const cubeLen: real
    const detRange: real
    var localMapPoints: Box
    var localmapInitialized: bool
    var cubNeedrm: seq<Box>
    var kdtreeDeleteCounter: int
    /** Where the lidar was at every call. */
    ghost var path: seq<Point>

    /** The cube is the one the path leads to. */
    ghost predicate Follows()
      reads this
    {
      if path == [] then !localmapInitialized
      else localmapInitialized && localMapPoints == CubeAt(path, cubeLen, detRange, |path| - 1)
    }

    constructor (tree: KdTree, side: real, reach: real)
      ensures Follows() && path == []
      ensures ikdtree == tree && cubeLen == side && detRange == reach && !localmapInitialized && cubNeedrm == []
    {
      ikdtree, cubeLen, detRange := tree, side, reach;
      localmapInitialized, cubNeedrm, kdtreeDeleteCounter := false, [], 0;
      localMapPoints := Box(0.0, 0.0, 0.0, 0.0, 0.0, 0.0);
      path := [];
    }

    ghost function LivePoints(): multiset<Point>
      reads ikdtree, ikdtree.rootNode
    {
      Live(ikdtree.Model().root)
    }

    /** `points_cache_collect`: what waits is fetched and dropped. */
    method PointsCacheCollect()
      requires ikdtree.Valid()
      modifies ikdtree
      ensures ikdtree.Valid() && ikdtree.rootNode == old(ikdtree.rootNode)
      ensures ikdtree.Model() == Step(ikdtree.setup, old(ikdtree.Model()), Acquiring)
    {
      var history := new PointVector();
      ikdtree.AcquireRemovedPoints(history);
    }

    /** `lasermap_fov_segment` for the lidar at `pos`: the first call centres the cube, a later one moves it
        and deletes what it leaves. */
    method LasermapFovSegment(pos: Point)
      requires ikdtree.Valid() && Follows()
      modifies this, ikdtree, ReprOf(ikdtree.rootNode)
      ensures ikdtree.Valid() && Follows() && path == old(path) + [pos]
      ensures detRange > 0.0 && cubeLen >= 2.5 * detRange && Slow(path, detRange) ==>
        Margin(localMapPoints, pos, detRange / 2.0)
      ensures fresh(ReprOf(ikdtree.rootNode) - old(ReprOf(ikdtree.rootNode)))
      ensures !old(localmapInitialized) ==>
        && Around(localMapPoints, pos, cubeLen / 2.0) && cubNeedrm == [] && ikdtree.Model() == old(ikdtree.Model())
      ensures old(localmapInitialized) ==>
        && localMapPoints == NextCube(old(localMapPoints), pos, cubeLen, detRange)
        && cubNeedrm == Slabs(old(localMapPoints), pos, cubeLen, detRange)
        && LivePoints() == OutsideAll(old(LivePoints()), cubNeedrm)
        && CubeMoved(old(localMapPoints), localMapPoints, cubNeedrm, pos, cubeLen, detRange)
        && ikdtree.Model() == Trimmed(ikdtree.setup, old(ikdtree.Model()), cubNeedrm)
      ensures old(localmapInitialized) && detRange > 0.0 ==>
        MovedClean(old(LivePoints()), LivePoints(), old(localMapPoints), localMapPoints)
      ensures kdtreeDeleteCounter == |old(LivePoints())| - |LivePoints()|
    {
      hide CubeMoved, Around, MovedClean, OutsideAll, Step, NextCube, Slabs, NeedsMove, EdgeOf, Live, KdTree.Valid, Centred, CubeAt, Slow, Margin;
      PathGrows(path, pos, cubeLen, detRange);
      if path != [] && detRange > 0.0 { MoveIsClean(path, LivePoints(), pos, cubeLen, detRange); }
      path := path + [pos];
      cubNeedrm := [];
      kdtreeDeleteCounter := 0;
      if !localmapInitialized {
        localMapPoints := Centred(pos, cubeLen);
        localmapInitialized := true;
        CentredAround(pos, cubeLen);
        return;
      }
      MovesBy(localMapPoints, pos, cubeLen, detRange);
      MoveMap(pos);
    }

    /** The call with the cube in place. */
    method MoveMap(pos: Point)
      requires ikdtree.Valid() && cubNeedrm == [] && kdtreeDeleteCounter == 0
      modifies `localMapPoints, `cubNeedrm, `kdtreeDeleteCounter, ikdtree, ReprOf(ikdtree.rootNode)
      ensures ikdtree.Valid() && fresh(ReprOf(ikdtree.rootNode) - old(ReprOf(ikdtree.rootNode)))
      ensures localMapPoints == NextCube(old(localMapPoints), pos, cubeLen, detRange)
      ensures cubNeedrm == Slabs(old(localMapPoints), pos, cubeLen, detRange)
      ensures LivePoints() == OutsideAll(old(LivePoints()), cubNeedrm)
      ensures ikdtree.Model() == Trimmed(ikdtree.setup, old(ikdtree.Model()), cubNeedrm)
      ensures kdtreeDeleteCounter == |old(LivePoints())| - |LivePoints()|
    {
      hide OutsideAll, Step, NextCube, Slabs, NeedsMove, EdgeOf, Live, KdTree.Valid;
      var edge := Edges(pos);
      var needMove := AnyEdgeNear(edge, pos);
      ghost var c := localMapPoints;
      if !needMove {
        NothingMoves(c, pos, cubeLen, detRange);
        return;
      }
      SomethingMoves(c, pos, cubeLen, detRange);
      MoveCube(pos, edge);
      PointsCacheCollect();
      NoBoxes(LivePoints());
      if |cubNeedrm| > 0 { kdtreeDeleteCounter := ikdtree.DeletePointBoxes(cubNeedrm); }
    }

    /** `dist_to_map_edge`. */
    method Edges(pos: Point) returns (edge: array2<real>)
      ensures fresh(edge) && edge.Length0 == 3 && edge.Length1 == 2
      ensures forall a: Axis :: EdgeOf(edge, localMapPoints, pos, a)
    {
      edge := new real[3, 2];
      for i := 0 to 3
        invariant forall a: Axis :: a < i ==> edge[a, 0] == Abs(Coord(pos, a) - Lo(localMapPoints, a))
        invariant forall a: Axis :: a < i ==> edge[a, 1] == Abs(Coord(pos, a) - Hi(localMapPoints, a))
      {
        var a: Axis := i;
        edge[i, 0] := Abs(Coord(pos, a) - Lo(localMapPoints, a));
        edge[i, 1] := Abs(Coord(pos, a) - Hi(localMapPoints, a));
      }
    }

    method AnyEdgeNear(edge: array2<real>, ghost pos: Point) returns (needMove: bool)
      requires edge.Length0 == 3 && edge.Length1 == 2
      requires forall a: Axis :: EdgeOf(edge, localMapPoints, pos, a)
      ensures needMove <==> NeedsMove(localMapPoints, pos, detRange)
    {
      needMove := false;
      for i := 0 to 3
        invariant needMove <==>
          exists a: Axis :: a < i && (edge[a, 0] <= THRESHOLD * detRange || edge[a, 1] <= THRESHOLD * detRange)
      {
        var a: Axis := i;
        if edge[a, 0] <= THRESHOLD * detRange || edge[a, 1] <= THRESHOLD * detRange { needMove := true; }
      }
      assert forall a: Axis :: EdgeOf(edge, localMapPoints, pos, a) ==>
        (NearLo(localMapPoints, pos, detRange, a) <==> edge[a, 0] <= THRESHOLD * detRange)
        && (NearHi(localMapPoints, pos, detRange, a) <==> edge[a, 1] <= THRESHOLD * detRange);
    }

    /** The loop that moves the cube and lists the slabs; every slab is cut from the cube as it was. */
    method MoveCube(pos: Point, edge: array2<real>)
      requires edge.Length0 == 3 && edge.Length1 == 2 && cubNeedrm == []
      requires forall a: Axis :: EdgeOf(edge, localMapPoints, pos, a)
      modifies `localMapPoints, `cubNeedrm
      ensures localMapPoints == NextCube(old(localMapPoints), pos, cubeLen, detRange)
      ensures cubNeedrm == Slabs(old(localMapPoints), pos, cubeLen, detRange)
      ensures CubeMoved(old(localMapPoints), localMapPoints, cubNeedrm, pos, cubeLen, detRange)
    {
      hide CubeMoved, Stride, Put;
      ghost var c := localMapPoints;
      var next := localMapPoints;
      var movDist := Stride(cubeLen, detRange);
      for i := 0 to 3
        invariant localMapPoints == c && next == ShiftedTo(c, pos, detRange, movDist, i)
        invariant cubNeedrm == SlabsTo(c, pos, detRange, movDist, i)
      {
        var a: Axis := i;
        assert EdgeOf(edge, localMapPoints, pos, a);
        NotYetShifted(c, pos, detRange, movDist, a);
        if edge[i, 0] <= THRESHOLD * detRange {
          next := Put(next, a, Lo(next, a) - movDist, Hi(next, a) - movDist);
          cubNeedrm := cubNeedrm + [Put(localMapPoints, a, Hi(localMapPoints, a) - movDist, Hi(localMapPoints, a))];
        } else if edge[i, 1] <= THRESHOLD * detRange {
          next := Put(next, a, Lo(next, a) + movDist, Hi(next, a) + movDist);
          cubNeedrm := cubNeedrm + [Put(localMapPoints, a, Lo(localMapPoints, a), Lo(localMapPoints, a) + movDist)];
        }
      }
      localMapPoints := next;
      MovesBy(c, pos, cubeLen, detRange);
    }
  }

  /** What a call does to the map: if anything is cut off, what waits is fetched before it is deleted. */
  ghost function Trimmed(c: Setup, x: Index, slabs: seq<Box>): Index
    requires c.voxel > 0.0
  {
    if slabs == [] then x else Step(c, Step(c, x, Acquiring), Deleting(slabs))
  }

  /** Every axis has moved by its distance, and the boxes are the parts cut off. */
  ghost predicate CubeMoved(c: Box, c': Box, slabs: seq<Box>, p: Point, side: real, reach: real) {
    && (forall a: Axis :: AxisMoved(c, c', p, side, reach, a))
    && forall q :: InSome(slabs, q) <==> exists a: Axis :: Cut(c, p, side, reach, a, q)
  }

  lemma MovesBy(c: Box, p: Point, side: real, reach: real)
    ensures CubeMoved(c, NextCube(c, p, side, reach), Slabs(c, p, side, reach), p, side, reach)
  {
    hide AxisMoved, Cut, NextCube, Slabs, InSome;
    forall a: Axis ensures AxisMoved(c, NextCube(c, p, side, reach), p, side, reach, a) { CubeMoves(c, p, side, reach, a); }
    forall q ensures InSome(Slabs(c, p, side, reach), q) <==> exists a: Axis :: Cut(c, p, side, reach, a, q) {
      SlabsAreCuts(c, p, side, reach, q);
    }
  }

  /** Every face is `h` away from `p`. */
  ghost predicate Around(c: Box, p: Point, h: real) {
    forall a: Axis :: Lo(c, a) == Coord(p, a) - h && Hi(c, a) == Coord(p, a) + h
  }

  lemma CentredAround(p: Point, side: real)
    ensures Around(Centred(p, side), p, side / 2.0)
  {
  }

  /** Live points of the new cube stay, none of the old cube is left outside the new one. */
  ghost predicate MovedClean(live: multiset<Point>, live': multiset<Point>, c: Box, c': Box) {
    forall p :: (InBox(c', p) ==> live'[p] == live[p]) && (InBox(c, p) && !InBox(c', p) ==> live'[p] == 0)
  }

  lemma MoveIsClean(ps: seq<Point>, live: multiset<Point>, p: Point, side: real, reach: real)
    requires ps != [] && reach > 0.0
    ensures var c := CubeAt(ps, side, reach, |ps| - 1);
      MovedClean(live, OutsideAll(live, Slabs(c, p, side, reach)), c, NextCube(c, p, side, reach))
  {
    var c := CubeAt(ps, side, reach, |ps| - 1);
    SideConstant(ps, side, reach, |ps| - 1);
    hide Slabs, NextCube, OutsideAll, IsCube, InBox;
    forall q { MoveDeletesExactly(live, c, p, side, reach, q); }
  }

  /** What one more call does to the cube of the path, and what the lidar then finds around it. */
  lemma PathGrows(ps: seq<Point>, p: Point, side: real, reach: real)
    ensures CubeAt(ps + [p], side, reach, |ps|)
         == if ps == [] then Centred(p, side) else NextCube(CubeAt(ps, side, reach, |ps| - 1), p, side, reach)
    ensures reach > 0.0 && side >= 2.5 * reach && Slow(ps + [p], reach) ==>
      Margin(CubeAt(ps + [p], side, reach, |ps|), p, reach / 2.0)
  {
    hide NextCube, Margin, Slow, Centred;
    if ps != [] { SamePrefix(ps, ps + [p], side, reach, |ps| - 1); }
    if reach > 0.0 && side >= 2.5 * reach && Slow(ps + [p], reach) {
      LidarInside(ps + [p], side, reach, |ps|);
    }
  }

  lemma {:induction false} SamePrefix(ps: seq<Point>, qs: seq<Point>, side: real, reach: real, i: nat)
    requires i < |ps| <= |qs| && ps == qs[..|ps|]
    ensures CubeAt(qs, side, reach, i) == CubeAt(ps, side, reach, i)
  {
    hide NextCube, Centred;
    assert qs[i] == ps[i];
    if i > 0 { SamePrefix(ps, qs, side, reach, i - 1); }
  }

  lemma NoBoxes(m: multiset<Point>)
    ensures OutsideAll(m, []) == m
  {
  }

  lemma NotYetShifted(c: Box, p: Point, reach: real, m: real, a: Axis)
    ensures var s := ShiftedTo(c, p, reach, m, a);
      && Lo(s, a) == Lo(c, a) && Hi(s, a) == Hi(c, a) && Put(s, a, Lo(c, a), Hi(c, a)) == s
  {
    hide Shift;
    assert ShiftedTo(c, p, reach, m, 0) == c;
    if a > 0 {
      assert ShiftedTo(c, p, reach, m, 1) == Put(c, 0, Lo(c, 0) + Shift(c, p, reach, m, 0), Hi(c, 0) + Shift(c, p, reach, m, 0));
    }
  }

  /** Row `a` holds the distances to the two faces. */
  predicate EdgeOf(edge: array2<real>, c: Box, pos: Point, a: Axis)
    requires edge.Length0 == 3 && edge.Length1 == 2
    reads edge
  {
    edge[a, 0] == Abs(Coord(pos, a) - Lo(c, a)) && edge[a, 1] == Abs(Coord(pos, a) - Hi(c, a))
  }

  lemma NothingMoves(c: Box, p: Point, side: real, reach: real)
    requires !NeedsMove(c, p, reach)
    ensures NextCube(c, p, side, reach) == c && Slabs(c, p, side, reach) == []
    ensures forall m :: OutsideAll(m, []) == m
  {
    hide Stride;
    NoAxisMoves(c, p, reach, Stride(side, reach), 3);
  }

  lemma SomethingMoves(c: Box, p: Point, side: real, reach: real)
    requires NeedsMove(c, p, reach)
    ensures Slabs(c, p, side, reach) != []
  {
    hide NearLo, NearHi, Stride, Put;
    var a: Axis :| NearLo(c, p, reach, a) || NearHi(c, p, reach, a);
    SlabIn(c, p, reach, Stride(side, reach), 3, a);
    assert SlabOf(c, p, reach, Stride(side, reach), a)[0] in SlabsTo(c, p, reach, Stride(side, reach), 3);
  }

  lemma {:induction false} NoAxisMoves(c: Box, p: Point, reach: real, m: real, n: nat)
    requires n <= 3 && !NeedsMove(c, p, reach)
    ensures ShiftedTo(c, p, reach, m, n) == c && SlabsTo(c, p, reach, m, n) == []
  {
    if n > 0 {
      var a: Axis := n - 1;
      NoAxisMoves(c, p, reach, m, n - 1);
      assert !NearLo(c, p, reach, a) && !NearHi(c, p, reach, a);
      hide NearLo, NearHi;
      assert Shift(c, p, reach, m, a) == 0.0 && SlabOf(c, p, reach, m, a) == [];
      assert Put(c, a, Lo(c, a) + 0.0, Hi(c, a) + 0.0) == c;
    }
  }
}
