/** The ikd-Tree as a value: nodes with their cached statistics and lazy flags, and every
    operation as a function from the old tree to the new one. */
module Tree {
  import opened Geometry
  import opened Select
  import opened Heap

  datatype Tree =
    | Nil
    | Node(point: Point, axis: Axis,
           size: int, invalid: int, downDel: int,
           pointDel: bool, treeDel: bool, pointDs: bool, treeDs: bool,
           pushL: bool, pushR: bool,
           range: Box, radiusSq: real,
           left: Tree, right: Tree)

  /** Number of nodes, the measure every traversal decreases. */
  ghost function Nodes(t: Tree): nat {
    if t.Nil? then 0 else 1 + Nodes(t.left) + Nodes(t.right)
  }

  function Size(t: Tree): int { if t.Nil? then 0 else t.size }

  function Invalid(t: Tree): int { if t.Nil? then 0 else t.invalid }

  function DownDel(t: Tree): int { if t.Nil? then 0 else t.downDel }

  predicate Dead(t: Tree) { t.Nil? || t.treeDel }

  function RangeOf(t: Tree): Option<Box> { if t.Nil? then None else Some(t.range) }

  function LiveRange(t: Tree): Option<Box> { if Dead(t) then None else Some(t.range) }

  function One(b: bool): int { if b then 1 else 0 }

  function HalfDiagonalSq(r: Box): real {
    Sq((r.maxX - r.minX) * 0.5) + Sq((r.maxY - r.minY) * 0.5) + Sq((r.maxZ - r.minZ) * 0.5)
  }

  // ---- Push_Down and Update ----

  /** What a father with the given marks hands to an existing son `s`. */
  function PushMarks(fatherDel: bool, fatherDs: bool, s: Tree): (r: Tree)
    requires s.Node?
    ensures r.Node? && r.left == s.left && r.right == s.right
  {
    var treeDs := s.treeDs || fatherDs;
    var pointDs := s.pointDs || fatherDs;
    var treeDel := fatherDel || treeDs;
    var downDel := if fatherDs then s.size else s.downDel;
    s.(treeDs := treeDs, pointDs := pointDs, treeDel := treeDel, pointDel := treeDel || pointDs,
       downDel := downDel, invalid := if fatherDel then s.size else downDel,
       pushL := true, pushR := true)
  }

  function PushTo(t: Tree, s: Tree): (r: Tree)
    requires t.Node? && s.Node?
    ensures r.Node? && r.left == s.left && r.right == s.right
  {
    PushMarks(t.treeDel, t.treeDs, s)
  }

  /** A son after its father's push-down: told if the flag towards it is up. */
  function Told(t: Tree, s: Tree, pending: bool): (r: Tree)
    requires t.Node?
    ensures r.Node? == s.Node? && Nodes(r) == Nodes(s)
  {
    if pending && s.Node? then PushTo(t, s) else s
  }

  /** A flag towards a missing son stays up. */
  function PushDown(t: Tree): (r: Tree)
    ensures r.Node? == t.Node?
    ensures Nodes(r) == Nodes(t)
    ensures t.Node? ==> Nodes(r.left) == Nodes(t.left) && Nodes(r.right) == Nodes(t.right)
  {
    if t.Nil? then t
    else
      t.(left := Told(t, t.left, t.pushL), right := Told(t, t.right, t.pushR),
         pushL := t.pushL && t.left.Nil?, pushR := t.pushR && t.right.Nil?)
  }

  /** Hull of everything stored under the node, from the sons' cached ranges. */
  function FullHull(t: Tree): (r: Option<Box>)
    requires t.Node?
    ensures r.Some?
  {
    Join(Join(RangeOf(t.left), RangeOf(t.right)), Some(Spot(t.point)))
  }

  /** Hull of what is still alive under the node, from the sons' cached ranges. */
  function LiveHull(t: Tree): Option<Box>
    requires t.Node?
  {
    Join(Join(LiveRange(t.left), LiveRange(t.right)), if t.pointDel then None else Some(Spot(t.point)))
  }

  predicate AllAlive(t: Tree)
    requires t.Node?
  {
    !t.pointDel && (t.left.Nil? || !t.left.treeDel) && (t.right.Nil? || !t.right.treeDel)
  }

  /** Recomputes every cached field of a node from its sons. */
  function Update(t: Tree): (r: Tree)
    requires t.Node?
    ensures r.Node? && r.left == t.left && r.right == t.right && r.point == t.point && r.axis == t.axis
    ensures r.pointDel == t.pointDel && r.pointDs == t.pointDs && r.pushL == t.pushL && r.pushR == t.pushR
  {
    var treeDel := t.pointDel && Dead(t.left) && Dead(t.right);
    var treeDs := t.pointDs && (t.left.Nil? || t.left.treeDs) && (t.right.Nil? || t.right.treeDs);
    var range := (if treeDel || AllAlive(t) then FullHull(t) else LiveHull(t)).value;
    t.(size := 1 + Size(t.left) + Size(t.right),
       invalid := One(t.pointDel) + Invalid(t.left) + Invalid(t.right),
       downDel := One(t.pointDs) + DownDel(t.left) + DownDel(t.right),
       treeDel := treeDel, treeDs := treeDs, range := range, radiusSq := HalfDiagonalSq(range))
  }

  // ---- Building ----

  /** A node as `InitTreeNode` leaves it, with its point, axis and sons set. */
  function Blank(p: Point, a: Axis, l: Tree, r: Tree): Tree {
    Node(p, a, 0, 0, 0, false, false, false, false, false, false,
         Box(0.0, 0.0, 0.0, 0.0, 0.0, 0.0), 0.0, l, r)
  }

  function Fresh(p: Point, a: Axis, l: Tree, r: Tree): (t: Tree)
    ensures t.Node? && t.point == p && t.axis == a && t.left == l && t.right == r
  {
    Update(Blank(p, a, l, r))
  }

  /** Extent of a non-empty slice. */
  function Extent(s: seq<Point>): Box
    requires |s| > 0
  {
    if |s| == 1 then Spot(s[0]) else Hull(Extent(s[..|s| - 1]), Spot(s[|s| - 1]))
  }

  /** The longest dimension; the first one on ties. */
  function DivisionAxis(e: Box): Axis {
    var x, y, z := e.maxX - e.minX, e.maxY - e.minY, e.maxZ - e.minZ;
    var best: Axis := if y > x then 1 else 0;
    if z > (if best == 1 then y else x) then 2 else best
  }

  function Build(s: seq<Point>): Tree
    decreases |s|
  {
    if |s| == 0 then Nil
    else
      var m := (|s| - 1) / 2;
      var a := DivisionAxis(Extent(s));
      var n := NthElement(s, a, m);
      Fresh(n[m], a, Build(n[..m]), Build(n[m + 1..]))
  }

  // ---- Flattening and rebuilding ----

  /** The tree after a complete push-down. */
  function PushAll(t: Tree): Tree
    decreases Nodes(t)
  {
    var u := PushDown(t);
    if u.Nil? then u else u.(left := PushAll(u.left), right := PushAll(u.right))
  }

  /** Live points, node before sons. */
  function Flatten(t: Tree): seq<Point>
    decreases Nodes(t)
  {
    var u := PushDown(t);
    if u.Nil? then []
    else (if u.pointDel then [] else [u.point]) + Flatten(u.left) + Flatten(u.right)
  }

  /** Points deleted by a box, sons before node, as appended to `Points_deleted`. */
  function Recorded(t: Tree): seq<Point>
    decreases Nodes(t)
  {
    var u := PushDown(t);
    if u.Nil? then []
    else Recorded(u.left) + Recorded(u.right) + (if u.pointDel && !u.pointDs then [u.point] else [])
  }

  const MINIMAL_UNBALANCED_TREE_SIZE := 10

  /** True when the node must be rebuilt: more than 0.5 of it deleted, or the ratio of one son
      outside 0.4 .. 0.6. */
  predicate Criterion(t: Tree)
    requires t.Node?
  {
    && t.size > MINIMAL_UNBALANCED_TREE_SIZE
    && var son := if t.left.Nil? then t.right else t.left;
    || 2 * t.invalid > t.size
    || 5 * Size(son) > 3 * (t.size - 1)
    || 5 * Size(son) < 2 * (t.size - 1)
  }

  /** A tree together with the points a rebuild appended to `Points_deleted`. */
  datatype Edited = Edited(tree: Tree, recorded: seq<Point>)

  /** The last step of every edit: rebuild the node if it is allowed and needed. */
  function Settle(t: Tree, allow: bool): Edited
    requires t.Node?
  {
    if allow && Criterion(t) then Edited(Build(Flatten(t)), Recorded(t)) else Edited(t, [])
  }

  // ---- Edits ----

  function AddPoint(t: Tree, p: Point, allow: bool, fatherAxis: Axis): Edited
    decreases Nodes(t)
  {
    if t.Nil? then Edited(Fresh(p, (fatherAxis + 1) % 3, Nil, Nil), [])
    else
      var u := PushDown(t);
      if Below(u.axis, p, u.point) then
        var l := AddPoint(u.left, p, allow, u.axis);
        var f := Settle(Update(u.(left := l.tree)), allow);
        Edited(f.tree, l.recorded + f.recorded)
      else
        var r := AddPoint(u.right, p, allow, u.axis);
        var f := Settle(Update(u.(right := r.tree)), allow);
        Edited(f.tree, r.recorded + f.recorded)
  }

  /** The fully covered shortcut: only this node is marked, its sons are told later. */
  function MarkDeleted(u: Tree, ds: bool): Tree
    requires u.Node?
  {
    u.(treeDel := true, pointDel := true, pushL := true, pushR := true, invalid := u.size,
       treeDs := u.treeDs || ds, pointDs := u.pointDs || ds,
       downDel := if ds then u.size else u.downDel)
  }

  predicate Hit(u: Tree, b: Box)
    requires u.Node?
  {
    !u.pointDel && InBox(b, u.point)
  }

  /** The node with its own point struck out if the box holds it, above its edited sons. */
  function Struck(u: Tree, b: Box, ds: bool, l: Tree, r: Tree): (v: Tree)
    requires u.Node?
    ensures v.Node?
  {
    u.(pointDel := u.pointDel || Hit(u, b), pointDs := u.pointDs || (Hit(u, b) && ds), left := l, right := r)
  }

  datatype Removal = Removal(tree: Tree, count: int, recorded: seq<Point>)

  function DeleteRange(t: Tree, b: Box, allow: bool, ds: bool): Removal
    decreases Nodes(t)
  {
    if Dead(t) then Removal(t, 0, [])
    else
      var u := PushDown(t);
      if Misses(b, u.range) then Removal(u, 0, [])
      else if Covers(b, u.range) then Removal(MarkDeleted(u, ds), u.size - u.invalid, [])
      else
        var l := DeleteRange(u.left, b, allow, ds);
        var r := DeleteRange(u.right, b, allow, ds);
        var f := Settle(Update(Struck(u, b, ds, l.tree, r.tree)), allow);
        Removal(f.tree, One(Hit(u, b)) + l.count + r.count, l.recorded + r.recorded + f.recorded)
  }

  // ---- Range searches ----

  /** A search leaves push-downs behind and yields the points it found. */
  datatype Found = Found(tree: Tree, points: seq<Point>)

  function SearchRange(t: Tree, b: Box): Found
    decreases Nodes(t)
  {
    var u := PushDown(t);
    if u.Nil? || Misses(b, u.range) then Found(u, [])
    else if Covers(b, u.range) then Found(PushAll(u), Flatten(u))
    else
      var l := SearchRange(u.left, b);
      var r := SearchRange(u.right, b);
      Found(u.(left := l.tree, right := r.tree),
            (if Hit(u, b) then [u.point] else []) + l.points + r.points)
  }

  function Centre(r: Box): Point {
    Point((r.minX + r.maxX) * 0.5, (r.minY + r.maxY) * 0.5, (r.minZ + r.maxZ) * 0.5, 0.0)
  }

  /** `sqrt` stands for the library's square root. */
  function SearchRadius(t: Tree, q: Point, radius: real, sqrt: real -> real): Found
    decreases Nodes(t)
  {
    var u := PushDown(t);
    if u.Nil? then Found(u, [])
    else
      var d, h := sqrt(Dist(Centre(u.range), q)), sqrt(u.radiusSq);
      if d > radius + h then Found(u, [])
      else if d <= radius - h then Found(PushAll(u), Flatten(u))
      else
        var l := SearchRadius(u.left, q, radius, sqrt);
        var r := SearchRadius(u.right, q, radius, sqrt);
        Found(u.(left := l.tree, right := r.tree),
              (if !u.pointDel && Dist(u.point, q) <= radius * radius then [u.point] else []) + l.points + r.points)
  }

  // ---- Nearest neighbours ----

  /** A squared distance, or INFINITY. */
  datatype Ext = Fin(v: real) | Infinity

  predicate Nearer(a: Ext, b: Ext) { a.Fin? && (b.Infinity? || a.v < b.v) }

  function Squared(e: Ext): Ext { if e.Fin? then Fin(e.v * e.v) else Infinity }

  /** `calc_box_dist`: INFINITY towards a missing node. */
  function GapTo(t: Tree, q: Point): Ext { if t.Nil? then Infinity else Fin(BoxDist(t.range, q)) }

  /** The distance at the top of the heap, whose unused slots hold INFINITY. */
  function Top(h: seq<Cmp>): Ext { if |h| == 0 then Infinity else Fin(h[0].dist) }

  /** Offers a live point to the heap of the `k` best so far, whose capacity is `2 * k`. */
  function Offer(h: seq<Cmp>, k: nat, q: Point, p: Point, bound: Ext): seq<Cmp> {
    var d := Dist(q, p);
    if !Nearer(bound, Fin(d)) && (|h| < k || Nearer(Fin(d), Top(h))) then
      Push(if |h| >= k then Pop(h) else h, 2 * k, Cmp(p, d))
    else h
  }

  datatype Scan = Scan(tree: Tree, heap: seq<Cmp>)

  /** `Search`; `bound` is the square of `max_dist`. */
  function Search(t: Tree, k: nat, q: Point, h: seq<Cmp>, bound: Ext): Scan
    decreases Nodes(t), 0
  {
    if Dead(t) || Nearer(bound, GapTo(t, q)) then Scan(t, h)
    else
      var u := PushDown(t);
      var h0 := if u.pointDel then h else Offer(h, k, q, u.point, bound);
      var dl, dr := GapTo(u.left, q), GapTo(u.right, q);
      if |h0| < k || (Nearer(dl, Top(h0)) && Nearer(dr, Top(h0))) then
        if !Nearer(dr, dl) then
          var l := Search(u.left, k, q, h0, bound);
          var r := SearchIf(|l.heap| < k || Nearer(dr, Top(l.heap)), u.right, k, q, l.heap, bound);
          Scan(u.(left := l.tree, right := r.tree), r.heap)
        else
          var r := Search(u.right, k, q, h0, bound);
          var l := SearchIf(|r.heap| < k || Nearer(dl, Top(r.heap)), u.left, k, q, r.heap, bound);
          Scan(u.(left := l.tree, right := r.tree), l.heap)
      else
        var l := SearchIf(Nearer(dl, Top(h0)), u.left, k, q, h0, bound);
        var r := SearchIf(Nearer(dr, Top(l.heap)), u.right, k, q, l.heap, bound);
        Scan(u.(left := l.tree, right := r.tree), r.heap)
  }

  /** A son that is searched, or skipped. */
  function SearchIf(go: bool, t: Tree, k: nat, q: Point, h: seq<Cmp>, bound: Ext): Scan
    decreases Nodes(t), 1
  {
    if go then Search(t, k, q, h, bound) else Scan(t, h)
  }

  /** The heap popped `n` times, each candidate put in front of the ones before. */
  function Drain(h: seq<Cmp>, n: nat): seq<Cmp>
    decreases n
  {
    if n == 0 || |h| == 0 then [] else Drain(Pop(h), n - 1) + [h[0]]
  }

  datatype Nearest = Nearest(tree: Tree, found: seq<Cmp>)

  function NearestSearch(t: Tree, q: Point, k: nat, maxDist: Ext): Nearest {
    var s := Search(t, k, q, [], Squared(maxDist));
    Nearest(s.tree, Drain(s.heap, if k < |s.heap| then k else |s.heap|))
  }
}
