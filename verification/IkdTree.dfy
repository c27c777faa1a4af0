/** `KD_TREE` over nodes on the heap; every operation is proved against its value in module Tree. */
module IkdTree {
  import opened Geometry
  import opened Multisets
  import opened Select
  import opened Heap
  import opened ManualHeap
  import opened Tree
  import opened IkdNode
  import opened Invariant
  import opened Rebuilding
  import opened Edits
  import opened Searches
  import opened Neighbours
  import opened Voxels
  import opened Runs

  /** A vector passed by reference. */
  class PointVector {
    var points: seq<Point>

    constructor ()
      ensures points == []
    {
      points := [];
    }

    method PushBack(p: Point)
      modifies this
      ensures points == old(points) + [p]
    {
      points := points + [p];
    }

    /** Every element of a list, one after the other. */
    method PushAll(s: seq<Point>)
      modifies this
      ensures points == old(points) + s
    {
      for i := 0 to |s|
        invariant points == old(points) + s[..i]
      {
        PushBack(s[i]);
      }
    }
  }

  datatype StorageKind = NotRecord | DeletePointsRec | MultiThreadRec

  /** The sons of a node replaced; its cached fields are stale until `Update`. */
  method Adopt(root: KdNode, l: KdNode?, r: KdNode?)
    requires ValidOrNull(l) && ValidOrNull(r) && root !in ReprOf(l) && root !in ReprOf(r) && ReprOf(l) !! ReprOf(r)
    modifies root`left, root`right, root`repr
    ensures root.left == l && root.right == r && root.repr == {root} + ReprOf(l) + ReprOf(r)
    ensures root.Linked() && ValidOrNull(l) && ValidOrNull(r)
    ensures TreeOf(l) == old(TreeOf(l)) && TreeOf(r) == old(TreeOf(r))
  {
    root.left, root.right := l, r;
    root.repr := {root} + ReprOf(l) + ReprOf(r);
  }

  /** The extent of positions `l..r`, from an empty range. */
  method ExtentOf(storage: array<Point>, l: nat, r: nat) returns (e: Box)
    requires l <= r < storage.Length
    ensures e == Extent(storage[l..r + 1])
  {
    var range: Option<Box> := None;
    for i := l to r + 1
      invariant if i == l then range == None else range == Some(Extent(storage[l..i]))
    {
      range := Join(range, Some(Spot(storage[i])));
      assert storage[l..i + 1][..i - l] == storage[l..i];
    }
    e := range.value;
  }

  /** `BuildTree`, permuting positions `l..r` of `storage`. */
  method BuildTree(storage: array<Point>, l: int, r: int) returns (root: KdNode?)
    requires 0 <= l <= r + 1 <= storage.Length
    modifies storage
    ensures ValidOrNull(root) && fresh(ReprOf(root)) && TreeOf(root) == Build(old(storage[l..r + 1]))
    ensures storage[..l] == old(storage[..l]) && storage[r + 1..] == old(storage[r + 1..])
    decreases r - l + 1
  {
    hide Build, NthElement, Extent, DivisionAxis, Fresh;
    if l > r {
      BuildNothing(storage[l..r + 1]);
      return null;
    }
    var mid := (l + r) / 2;
    var e := ExtentOf(storage, l, r);
    var a := DivisionAxis(e);
    ghost var s := storage[l..r + 1];
    NthElementInPlace(storage, l, mid, r, a);
    ghost var n, all := storage[l..r + 1], storage[..];
    var point := storage[mid];
    var left := BuildTree(storage, l, mid - 1);
    ghost var after := storage[..];
    Halves(all, after, l, mid, r);
    var right := BuildTree(storage, mid + 1, r);
    Edges(all, after, storage[..], l, mid, r);
    root := NewNode(point, a, left, right);
    BuildStep(s, n, a, mid - l, TreeOf(left), TreeOf(right));
  }

  lemma BuildNothing(s: seq<Point>)
    requires |s| == 0
    ensures Build(s) == Nil
  {
  }

  /** A new node above two finished sons. */
  method NewNode(p: Point, a: Axis, left: KdNode?, right: KdNode?) returns (node: KdNode)
    requires ValidOrNull(left) && ValidOrNull(right) && ReprOf(left) !! ReprOf(right)
    ensures node.Valid() && fresh(node) && node.repr == {node} + ReprOf(left) + ReprOf(right)
    ensures node.tree == Fresh(p, a, TreeOf(left), TreeOf(right))
  {
    hide Update;
    node := new KdNode(p, a);
    Adopt(node, left, right);
    UpdateNode(node);
  }

  lemma Halves(s: seq<Point>, t: seq<Point>, l: nat, m: nat, r: nat)
    requires l <= m <= r < |s| == |t| && t[..l] == s[..l] && t[m..] == s[m..]
    ensures s[l..m] == s[l..r + 1][..m - l] && s[m] == s[l..r + 1][m - l]
    ensures t[m + 1..r + 1] == s[l..r + 1][m - l + 1..]
  {
    forall k | m < k <= r ensures t[k] == s[k] {
      assert t[k] == t[m..][k - m] && s[k] == s[m..][k - m];
    }
    assert t[m + 1..r + 1] == s[m + 1..r + 1];
  }

  lemma Edges(s: seq<Point>, t: seq<Point>, u: seq<Point>, l: nat, m: nat, r: nat)
    requires l <= m <= r < |s| == |t| == |u| && t[..l] == s[..l] && t[m..] == s[m..]
    requires u[..m + 1] == t[..m + 1] && u[r + 1..] == t[r + 1..]
    ensures u[..l] == s[..l] && u[r + 1..] == s[r + 1..]
  {
    assert u[..l] == u[..m + 1][..l] && t[..l] == t[..m + 1][..l];
    assert t[r + 1..] == t[m..][r + 1 - m..] && s[r + 1..] == s[m..][r + 1 - m..];
  }

  lemma BuildStep(s: seq<Point>, n: seq<Point>, a: Axis, m: nat, l: Tree, r: Tree)
    requires |s| > 0 && m == (|s| - 1) / 2 && a == DivisionAxis(Extent(s)) && n == NthElement(s, a, m)
    requires l == Build(n[..m]) && r == Build(n[m + 1..])
    ensures Build(s) == Fresh(n[m], a, l, r)
  {
  }

  lemma PushAllStep(t: Tree)
    requires t.Node?
    ensures var u := PushDown(t); u.Node? && PushAll(t) == u.(left := PushAll(u.left), right := PushAll(u.right))
    ensures Nodes(PushDown(t).left) < Nodes(t) && Nodes(PushDown(t).right) < Nodes(t)
  {
  }

  /** What a flatten of the given kind adds to one of the two deletion caches. */
  ghost function Cached(kind: StorageKind, cache: StorageKind, recorded: seq<Point>): seq<Point> {
    if kind == cache then recorded else []
  }

  lemma CachedSum(kind: StorageKind, cache: StorageKind, was: seq<Point>, l: seq<Point>, r: seq<Point>, o: seq<Point>)
    ensures was + Cached(kind, cache, l) + Cached(kind, cache, r) + Cached(kind, cache, o)
         == was + Cached(kind, cache, l + r + o)
  {
  }

  /** A pushed-down node with the point added to the son on its side, not yet updated. */
  ghost function AddedSon(u: Tree, p: Point, allow: bool): Edited
    requires u.Node?
  {
    if Below(u.axis, p, u.point) then
      var e := AddPoint(u.left, p, allow, u.axis);
      Edited(u.(left := e.tree), e.recorded)
    else
      var e := AddPoint(u.right, p, allow, u.axis);
      Edited(u.(right := e.tree), e.recorded)
  }

  lemma AddStepSon(t: Tree, p: Point, allow: bool, a: Axis)
    requires t.Node?
    ensures PushDown(t).Node?
    ensures var v := AddedSon(PushDown(t), p, allow);
      v.tree.Node? && var f := Settle(Update(v.tree), allow); AddPoint(t, p, allow, a) == Edited(f.tree, v.recorded + f.recorded)
  {
    hide AddPoint, PushDown, Settle, Update;
    AddStep(t, p, allow, a);
  }

  /** The sons' part of a nearest-neighbour search. */
  ghost function SonsScan(u: Tree, k: nat, q: Point, h0: seq<Cmp>, bound: Ext): Scan
    requires u.Node?
  {
    var dl, dr := GapTo(u.left, q), GapTo(u.right, q);
    if |h0| < k || (Nearer(dl, Top(h0)) && Nearer(dr, Top(h0))) then
      if !Nearer(dr, dl) then
        var l := Search(u.left, k, q, h0, bound);
        var r := SearchIf(|l.heap| < k || Nearer(dr, Top(l.heap)), u.right, k, q, l.heap, bound);
        Scan(u.(left := l.tree, right := r.tree), r.heap)
      else
        var r := Search(u.right, k, q, h0, bound);
        var l := SearchIf(|r.heap| < k || Nearer(dl, Top(r.heap)), u.left, k, q, r.heap, bound);
        Scan(u.(left := l.tree, right := r.tree), l.heap)
    else
      var l := SearchIf(Nearer(dl, Top(h0)), u.left, k, q, h0, bound);
      var r := SearchIf(Nearer(dr, Top(l.heap)), u.right, k, q, l.heap, bound);
      Scan(u.(left := l.tree, right := r.tree), r.heap)
  }

  ghost function LeftFirst(u: Tree, go: bool, lenient: bool, dr: Ext, k: nat, q: Point, h0: seq<Cmp>, bound: Ext): Scan
    requires u.Node?
  {
    var l := SearchIf(go, u.left, k, q, h0, bound);
    var r := SearchIf((lenient && |l.heap| < k) || Nearer(dr, Top(l.heap)), u.right, k, q, l.heap, bound);
    Scan(u.(left := l.tree, right := r.tree), r.heap)
  }

  ghost function RightFirst(u: Tree, dl: Ext, k: nat, q: Point, h0: seq<Cmp>, bound: Ext): Scan
    requires u.Node?
  {
    var r := Search(u.right, k, q, h0, bound);
    var l := SearchIf(|r.heap| < k || Nearer(dl, Top(r.heap)), u.left, k, q, r.heap, bound);
    Scan(u.(left := l.tree, right := r.tree), l.heap)
  }

  lemma LeftFirstMeans(u: Tree, go: bool, lenient: bool, dr: Ext, k: nat, q: Point, h0: seq<Cmp>, bound: Ext)
    requires u.Node?
    ensures var l := SearchIf(go, u.left, k, q, h0, bound);
      var v := u.(left := l.tree);
      var r := SearchIf((lenient && |l.heap| < k) || Nearer(dr, Top(l.heap)), v.right, k, q, l.heap, bound);
      LeftFirst(u, go, lenient, dr, k, q, h0, bound) == Scan(v.(right := r.tree), r.heap)
  {
    hide SearchIf, Nearer;
  }

  lemma RightFirstMeans(u: Tree, dl: Ext, k: nat, q: Point, h0: seq<Cmp>, bound: Ext)
    requires u.Node?
    ensures var r := Search(u.right, k, q, h0, bound);
      var v := u.(right := r.tree);
      var l := SearchIf(|r.heap| < k || Nearer(dl, Top(r.heap)), v.left, k, q, r.heap, bound);
      RightFirst(u, dl, k, q, h0, bound) == Scan(v.(left := l.tree), l.heap)
  {
    hide SearchIf, Search, Nearer;
  }

  lemma SonsScanCases(u: Tree, k: nat, q: Point, h0: seq<Cmp>, bound: Ext)
    requires u.Node?
    ensures var dl, dr := GapTo(u.left, q), GapTo(u.right, q);
      SonsScan(u, k, q, h0, bound) ==
        if |h0| < k || (Nearer(dl, Top(h0)) && Nearer(dr, Top(h0))) then
          if !Nearer(dr, dl) then LeftFirst(u, true, true, dr, k, q, h0, bound)
          else RightFirst(u, dl, k, q, h0, bound)
        else LeftFirst(u, Nearer(dl, Top(h0)), false, dr, k, q, h0, bound)
  {
    hide Search, GapTo;
    SearchIfCases(true, u.left, k, q, h0, bound);
  }

  lemma SearchStepSons(t: Tree, k: nat, q: Point, h: seq<Cmp>, bound: Ext)
    requires t.Node? && !Dead(t) && !Nearer(bound, GapTo(t, q))
    ensures var u := PushDown(t);
      && u.Node?
      && Search(t, k, q, h, bound) == SonsScan(u, k, q, if u.pointDel then h else Offer(h, k, q, u.point, bound), bound)
  {
    hide Search, SearchIf, Offer;
    SearchStep(t, k, q, h, bound);
  }

  lemma NoPush(t: Tree)
    requires t.Node? && !t.pushL && !t.pushR
    ensures PushDown(t) == t
  {
  }

  class KdTree {
    var rootNode: KdNode?
    var pointsDeleted: seq<Point>
    var multithreadPointsDeleted: seq<Point>
    var pclStorage: seq<Point>
    const setup: Setup

    /** `flatten`. */
    method Flat(root: KdNode?, storage: PointVector, kind: StorageKind)
      requires ValidOrNull(root)
      modifies ReprOf(root), storage, `pointsDeleted, `multithreadPointsDeleted
      ensures ValidOrNull(root) && ReprOf(root) == old(ReprOf(root)) && TreeOf(root) == PushAll(old(TreeOf(root)))
      ensures var t := old(TreeOf(root));
        && storage.points == old(storage.points) + Flatten(t)
        && pointsDeleted == old(pointsDeleted) + Cached(kind, DeletePointsRec, Recorded(t))
        && multithreadPointsDeleted == old(multithreadPointsDeleted) + Cached(kind, MultiThreadRec, Recorded(t))
      decreases Nodes(TreeOf(root)), 2
    {
      if root == null {
        FlattenNil();
      } else {
        hide PushAll, Flatten, Recorded, Cached;
        FlatNode(root, storage, kind);
      }
    }

    method FlatNode(root: KdNode, storage: PointVector, kind: StorageKind)
      requires root.Valid()
      modifies root.repr, storage, `pointsDeleted, `multithreadPointsDeleted
      ensures root.Valid() && root.repr == old(root.repr) && root.tree == PushAll(old(root.tree))
      ensures var t := old(root.tree);
        && storage.points == old(storage.points) + Flatten(t)
        && pointsDeleted == old(pointsDeleted) + Cached(kind, DeletePointsRec, Recorded(t))
        && multithreadPointsDeleted == old(multithreadPointsDeleted) + Cached(kind, MultiThreadRec, Recorded(t))
      decreases Nodes(root.tree), 1
    {
      ghost var t, was := root.tree, storage.points;
      hide *;
      root.Open();
      PushAllStep(t);
      FlattenStep(t);
      PushDownNode(root);
      ghost var u := root.tree;
      StoreOwn(root, storage);
      root.Open();
      FlatBelow(root, storage, kind);
      Grouped(was, if u.pointDel then [] else [u.point], Flatten(u.left), Flatten(u.right));
    }

    /** The sons flattened and then the node's own point recorded. */
    method FlatBelow(root: KdNode, storage: PointVector, kind: StorageKind)
      requires root.Valid()
      modifies root.repr, storage, `pointsDeleted, `multithreadPointsDeleted
      ensures root.Valid() && root.repr == old(root.repr)
      ensures var u := old(root.tree);
        && u.Node? && root.tree == u.(left := PushAll(u.left), right := PushAll(u.right))
        && storage.points == old(storage.points) + Flatten(u.left) + Flatten(u.right)
        && (var rec := Recorded(u.left) + Recorded(u.right) + (if u.pointDel && !u.pointDs then [u.point] else []);
            && pointsDeleted == old(pointsDeleted) + Cached(kind, DeletePointsRec, rec)
            && multithreadPointsDeleted == old(multithreadPointsDeleted) + Cached(kind, MultiThreadRec, rec))
      decreases Nodes(root.tree.left) + Nodes(root.tree.right), 4
    {
      hide *;
      ghost var u, del, multi := root.tree, pointsDeleted, multithreadPointsDeleted;
      HereFields(root);
      FlatSons(root, storage, kind);
      HereFields(root);
      Record(root.point, root.pointDel && !root.pointDs, kind);
      ghost var own := if u.pointDel && !u.pointDs then [u.point] else [];
      CachedSum(kind, DeletePointsRec, del, Recorded(u.left), Recorded(u.right), own);
      CachedSum(kind, MultiThreadRec, multi, Recorded(u.left), Recorded(u.right), own);
    }

    /** Both sons of a node flattened. */
    method FlatSons(root: KdNode, storage: PointVector, kind: StorageKind)
      requires root.Valid()
      modifies root.repr, storage, `pointsDeleted, `multithreadPointsDeleted
      ensures root.Valid() && root.repr == old(root.repr)
      ensures var u := old(root.tree);
        && u.Node? && root.tree == u.(left := PushAll(u.left), right := PushAll(u.right))
        && storage.points == old(storage.points) + Flatten(u.left) + Flatten(u.right)
        && pointsDeleted == old(pointsDeleted) + Cached(kind, DeletePointsRec, Recorded(u.left))
                            + Cached(kind, DeletePointsRec, Recorded(u.right))
        && multithreadPointsDeleted == old(multithreadPointsDeleted) + Cached(kind, MultiThreadRec, Recorded(u.left))
                            + Cached(kind, MultiThreadRec, Recorded(u.right))
      decreases Nodes(root.tree.left) + Nodes(root.tree.right), 3
    {
      hide PushAll, Flatten, Recorded, Cached;
      root.Open();
      Flat(root.left, storage, kind);
      Flat(root.right, storage, kind);
      Retie(root);
    }

    method StoreOwn(root: KdNode, storage: PointVector)
      requires root.Valid()
      modifies storage
      ensures storage.points == old(storage.points) + (if root.tree.pointDel then [] else [root.tree.point])
    {
      if !root.pointDel { storage.PushBack(root.point); }
    }

    method Record(p: Point, due: bool, kind: StorageKind)
      modifies `pointsDeleted, `multithreadPointsDeleted
      ensures pointsDeleted == old(pointsDeleted) + Cached(kind, DeletePointsRec, if due then [p] else [])
      ensures multithreadPointsDeleted == old(multithreadPointsDeleted) + Cached(kind, MultiThreadRec, if due then [p] else [])
    {
      if due {
        match kind {
          case NotRecord =>
          case DeletePointsRec => pointsDeleted := pointsDeleted + [p];
          case MultiThreadRec => multithreadPointsDeleted := multithreadPointsDeleted + [p];
        }
      }
    }

    // ---- Rebuilding ----

    /** `Rebuild`, at every size at once. */
    method Rebuild(root: KdNode) returns (r: KdNode?)
      requires root.Valid()
      modifies root.repr, `pointsDeleted, `multithreadPointsDeleted, `pclStorage
      ensures ValidOrNull(r) && fresh(ReprOf(r))
      ensures TreeOf(r) == Build(Flatten(old(root.tree)))
      ensures pointsDeleted == old(pointsDeleted) + Recorded(old(root.tree))
      ensures multithreadPointsDeleted == old(multithreadPointsDeleted)
    {
      hide Build, Flatten, Recorded, PushAll;
      pclStorage := [];
      var storage := new PointVector();
      FlatNode(root, storage, DeletePointsRec);
      pclStorage := storage.points;
      var cells := new Point[|pclStorage|](i requires 0 <= i < |pclStorage| reads this => pclStorage[i]);
      assert cells[0..|pclStorage|] == pclStorage;
      r := BuildTree(cells, 0, |pclStorage| - 1);
      pclStorage := cells[..];
    }

    /** `Criterion_Check`. */
    method CriterionCheck(root: KdNode) returns (b: bool)
      requires root.Valid()
      ensures root.tree.Node? && b == Criterion(root.tree)
    {
      if root.size <= MINIMAL_UNBALANCED_TREE_SIZE { return false; }
      SonFields(root.left);
      SonFields(root.right);
      var sonSize := SizeAt(if root.left == null then root.right else root.left);
      b := 2 * root.invalid > root.size || 5 * sonSize > 3 * (root.size - 1) || 5 * sonSize < 2 * (root.size - 1);
    }

    /** The end of every edit: `Update`, and a rebuild if it is allowed and due. */
    method Finish(root: KdNode, allow: bool) returns (r: KdNode?)
      requires root.Linked() && ValidOrNull(root.left) && ValidOrNull(root.right)
      modifies root.repr, `pointsDeleted, `multithreadPointsDeleted, `pclStorage
      ensures ValidOrNull(r) && fresh(ReprOf(r) - old(root.repr))
      ensures var f := Settle(Update(old(root.Here(TreeOf(root.left), TreeOf(root.right)))), allow);
        TreeOf(r) == f.tree && pointsDeleted == old(pointsDeleted) + f.recorded
      ensures multithreadPointsDeleted == old(multithreadPointsDeleted)
    {
      hide Update, Criterion, Build, Flatten, Recorded;
      UpdateNode(root);
      var need := CriterionCheck(root);
      if allow && need {
        r := Rebuild(root);
      } else {
        r := root;
      }
    }

    // ---- Edits ----

    /** `Add_by_point`. */
    method AddByPoint(root: KdNode?, p: Point, allow: bool, fatherAxis: Axis) returns (r: KdNode?)
      requires ValidOrNull(root)
      modifies ReprOf(root), `pointsDeleted, `multithreadPointsDeleted, `pclStorage
      ensures ValidOrNull(r) && fresh(ReprOf(r) - old(ReprOf(root)))
      ensures var e := AddPoint(old(TreeOf(root)), p, allow, fatherAxis);
        TreeOf(r) == e.tree && pointsDeleted == old(pointsDeleted) + e.recorded
      ensures multithreadPointsDeleted == old(multithreadPointsDeleted)
      decreases Nodes(TreeOf(root)), 1
    {
      if root == null {
        hide Fresh;
        r := NewNode(p, (fatherAxis + 1) % 3, null, null);
      } else {
        hide AddPoint;
        r := AddToNode(root, p, allow, fatherAxis);
      }
    }

    method AddToNode(root: KdNode, p: Point, allow: bool, ghost fatherAxis: Axis) returns (r: KdNode?)
      requires root.Valid()
      modifies root.repr, `pointsDeleted, `multithreadPointsDeleted, `pclStorage
      ensures ValidOrNull(r) && fresh(ReprOf(r) - old(root.repr))
      ensures var e := AddPoint(old(root.tree), p, allow, fatherAxis);
        TreeOf(r) == e.tree && pointsDeleted == old(pointsDeleted) + e.recorded
      ensures multithreadPointsDeleted == old(multithreadPointsDeleted)
      decreases Nodes(root.tree), 0
    {
      ghost var t, was := root.tree, pointsDeleted;
      hide *;
      root.Open();
      AddStepSon(t, p, allow, fatherAxis);
      FewerNodes(t);
      PushDownNode(root);
      root.Open();
      ghost var u := root.tree;
      AddToSon(root, p, allow);
      r := Finish(root, allow);
      ghost var e := AddedSon(u, p, allow);
      Regroup(was, e.recorded, Settle(Update(e.tree), allow).recorded);
    }

    /** The son on the point's side of the node. */
    method AddToSon(root: KdNode, p: Point, allow: bool)
      requires root.Valid()
      modifies root.repr, `pointsDeleted, `multithreadPointsDeleted, `pclStorage
      ensures root.Linked() && ValidOrNull(root.left) && ValidOrNull(root.right) && fresh(root.repr - old(root.repr))
      ensures var u := old(root.tree);
        && u.Node?
        && root.Here(TreeOf(root.left), TreeOf(root.right)) == AddedSon(u, p, allow).tree
        && pointsDeleted == old(pointsDeleted) + AddedSon(u, p, allow).recorded
      ensures multithreadPointsDeleted == old(multithreadPointsDeleted)
      decreases Nodes(root.tree.left) + Nodes(root.tree.right), 3
    {
      HereFields(root);
      hide AddPoint;
      if Below(root.axis, p, root.point) {
        AddToLeft(root, p, allow);
      } else {
        AddToRight(root, p, allow);
      }
    }

    method AddToLeft(root: KdNode, p: Point, allow: bool)
      requires root.Valid()
      modifies root.repr, `pointsDeleted, `multithreadPointsDeleted, `pclStorage
      ensures root.Linked() && ValidOrNull(root.left) && ValidOrNull(root.right) && fresh(root.repr - old(root.repr))
      ensures var u := old(root.tree);
        && u.Node?
        && root.Here(TreeOf(root.left), TreeOf(root.right)) == u.(left := AddPoint(u.left, p, allow, u.axis).tree)
        && pointsDeleted == old(pointsDeleted) + AddPoint(u.left, p, allow, u.axis).recorded
      ensures multithreadPointsDeleted == old(multithreadPointsDeleted)
      decreases Nodes(root.tree.left), 2
    {
      hide AddPoint;
      root.Open();
      var l := AddByPoint(root.left, p, allow, root.axis);
      Adopt(root, l, root.right);
    }

    method AddToRight(root: KdNode, p: Point, allow: bool)
      requires root.Valid()
      modifies root.repr, `pointsDeleted, `multithreadPointsDeleted, `pclStorage
      ensures root.Linked() && ValidOrNull(root.left) && ValidOrNull(root.right) && fresh(root.repr - old(root.repr))
      ensures var u := old(root.tree);
        && u.Node?
        && root.Here(TreeOf(root.left), TreeOf(root.right)) == u.(right := AddPoint(u.right, p, allow, u.axis).tree)
        && pointsDeleted == old(pointsDeleted) + AddPoint(u.right, p, allow, u.axis).recorded
      ensures multithreadPointsDeleted == old(multithreadPointsDeleted)
      decreases Nodes(root.tree.right), 2
    {
      hide AddPoint;
      root.Open();
      var r := AddByPoint(root.right, p, allow, root.axis);
      Adopt(root, root.left, r);
    }

    /** `Delete_by_range`. */
    method DeleteByRange(root: KdNode?, b: Box, allow: bool, ds: bool) returns (r: KdNode?, count: int)
      requires ValidOrNull(root)
      modifies ReprOf(root), `pointsDeleted, `multithreadPointsDeleted, `pclStorage
      ensures ValidOrNull(r) && fresh(ReprOf(r) - old(ReprOf(root)))
      ensures var e := DeleteRange(old(TreeOf(root)), b, allow, ds);
        TreeOf(r) == e.tree && count == e.count && pointsDeleted == old(pointsDeleted) + e.recorded
      ensures multithreadPointsDeleted == old(multithreadPointsDeleted)
      decreases Nodes(TreeOf(root)), 1
    {
      SonFields(root);
      if root == null || root.treeDel {
        r, count := root, 0;
        assert pointsDeleted + [] == pointsDeleted;
      } else {
        hide DeleteRange;
        r, count := DeleteFromNode(root, b, allow, ds);
      }
    }

    method DeleteFromNode(root: KdNode, b: Box, allow: bool, ds: bool) returns (r: KdNode?, count: int)
      requires root.Valid() && !Dead(root.tree)
      modifies root.repr, `pointsDeleted, `multithreadPointsDeleted, `pclStorage
      ensures ValidOrNull(r) && fresh(ReprOf(r) - old(root.repr))
      ensures var e := DeleteRange(old(root.tree), b, allow, ds);
        TreeOf(r) == e.tree && count == e.count && pointsDeleted == old(pointsDeleted) + e.recorded
      ensures multithreadPointsDeleted == old(multithreadPointsDeleted)
      decreases Nodes(root.tree), 0
    {
      hide DeleteRange, PushDown, Misses, Covers, MarkDeleted, Struck, Settle, Update, KdNode.Valid, Hit, One, Dead;
      ghost var t := root.tree;
      assert pointsDeleted + [] == pointsDeleted;
      root.Open();
      DeleteStep(t, b, allow, ds);
      FewerNodes(t);
      PushDownNode(root);
      HereFields(root);
      if Misses(b, root.range) {
        r, count := root, 0;
      } else if Covers(b, root.range) {
        r, count := DeleteCovered(root, ds);
      } else {
        r, count := DeletePartly(root, b, allow, ds);
      }
    }

    /** A node the box covers: everything under it goes at once. */
    method DeleteCovered(root: KdNode, ds: bool) returns (r: KdNode, count: int)
      requires root.Valid()
      modifies root
      ensures old(root.tree).Node? && r == root && root.Valid() && root.repr == old(root.repr)
      ensures root.tree == MarkDeleted(old(root.tree), ds) && count == old(root.tree.size - root.tree.invalid)
    {
      hide MarkDeleted, KdNode.Valid;
      root.Open();
      HereFields(root);
      count := root.size - root.invalid;
      MarkNodeDeleted(root, ds);
      r := root;
    }

    /** A node the box cuts: point and sons, and the end of the edit. */
    method DeletePartly(root: KdNode, b: Box, allow: bool, ds: bool) returns (r: KdNode?, count: int)
      requires root.Valid()
      modifies root.repr, `pointsDeleted, `multithreadPointsDeleted, `pclStorage
      ensures ValidOrNull(r) && fresh(ReprOf(r) - old(root.repr))
      ensures var u := old(root.tree);
        && u.Node?
        && (var l, x := DeleteRange(u.left, b, allow, ds), DeleteRange(u.right, b, allow, ds);
            var f := Settle(Update(Struck(u, b, ds, l.tree, x.tree)), allow);
            && TreeOf(r) == f.tree && count == One(Hit(u, b)) + l.count + x.count
            && pointsDeleted == old(pointsDeleted) + (l.recorded + x.recorded + f.recorded))
      ensures multithreadPointsDeleted == old(multithreadPointsDeleted)
      decreases Nodes(root.tree.left) + Nodes(root.tree.right), 4
    {
      hide DeleteRange, Struck, Settle, Update, KdNode.Valid, Hit, One;
      ghost var u, was := root.tree, pointsDeleted;
      count := DeleteFromSons(root, b, allow, ds);
      r := Finish(root, allow);
      ghost var l, x := DeleteRange(u.left, b, allow, ds), DeleteRange(u.right, b, allow, ds);
      Regroup(was, l.recorded + x.recorded, Settle(Update(Struck(u, b, ds, l.tree, x.tree)), allow).recorded);
    }

    /** The own point struck out if the box holds it, then both sons. */
    method DeleteFromSons(root: KdNode, b: Box, allow: bool, ds: bool) returns (count: int)
      requires root.Valid()
      modifies root.repr, `pointsDeleted, `multithreadPointsDeleted, `pclStorage
      ensures root.Linked() && ValidOrNull(root.left) && ValidOrNull(root.right) && fresh(root.repr - old(root.repr))
      ensures var u := old(root.tree);
        && u.Node?
        && (var l, x := DeleteRange(u.left, b, allow, ds), DeleteRange(u.right, b, allow, ds);
            && root.Here(TreeOf(root.left), TreeOf(root.right)) == Struck(u, b, ds, l.tree, x.tree)
            && count == One(Hit(u, b)) + l.count + x.count
            && pointsDeleted == old(pointsDeleted) + (l.recorded + x.recorded))
      ensures multithreadPointsDeleted == old(multithreadPointsDeleted)
      decreases Nodes(root.tree.left) + Nodes(root.tree.right), 3
    {
      hide DeleteRange, Struck, InBox, Hit, KdNode.Valid;
      root.Open();
      ghost var u, was := root.tree, pointsDeleted;
      HereFields(root);
      var own := StrikeOwn(root, b, ds);
      var n := DeleteLeft(root, b, allow, ds);
      var m := DeleteRight(root, b, allow, ds);
      count := own + n + m;
      Regroup(was, DeleteRange(u.left, b, allow, ds).recorded, DeleteRange(u.right, b, allow, ds).recorded);
      StruckFields(u, b, ds, DeleteRange(u.left, b, allow, ds).tree, DeleteRange(u.right, b, allow, ds).tree);
    }

    method StrikeOwn(root: KdNode, b: Box, ds: bool) returns (count: int)
      modifies root`pointDel, root`pointDs
      ensures count == One(!old(root.pointDel) && InBox(b, root.point))
      ensures root.pointDel == (old(root.pointDel) || count == 1) && root.pointDs == (old(root.pointDs) || (count == 1 && ds))
    {
      count := 0;
      if !root.pointDel && InBox(b, root.point) {
        root.pointDel := true;
        count := 1;
        if ds { root.pointDs := true; }
      }
    }

    method DeleteLeft(root: KdNode, b: Box, allow: bool, ds: bool) returns (count: int)
      requires root.Linked() && ValidOrNull(root.left) && ValidOrNull(root.right)
      modifies ReprOf(root.left), root`left, root`right, root`repr, `pointsDeleted, `multithreadPointsDeleted, `pclStorage
      ensures root.Linked() && ValidOrNull(root.left) && ValidOrNull(root.right) && fresh(root.repr - old(root.repr))
      ensures root.right == old(root.right) && TreeOf(root.right) == old(TreeOf(root.right))
      ensures ReprOf(root.right) == old(ReprOf(root.right))
      ensures var e := DeleteRange(old(TreeOf(root.left)), b, allow, ds);
        && TreeOf(root.left) == e.tree && count == e.count && pointsDeleted == old(pointsDeleted) + e.recorded
      ensures multithreadPointsDeleted == old(multithreadPointsDeleted)
      decreases Nodes(TreeOf(root.left)), 2
    {
      hide DeleteRange;
      var l;
      l, count := DeleteByRange(root.left, b, allow, ds);
      Adopt(root, l, root.right);
    }

    method DeleteRight(root: KdNode, b: Box, allow: bool, ds: bool) returns (count: int)
      requires root.Linked() && ValidOrNull(root.left) && ValidOrNull(root.right)
      modifies ReprOf(root.right), root`left, root`right, root`repr, `pointsDeleted, `multithreadPointsDeleted, `pclStorage
      ensures root.Linked() && ValidOrNull(root.left) && ValidOrNull(root.right) && fresh(root.repr - old(root.repr))
      ensures root.left == old(root.left) && TreeOf(root.left) == old(TreeOf(root.left))
      ensures var e := DeleteRange(old(TreeOf(root.right)), b, allow, ds);
        && TreeOf(root.right) == e.tree && count == e.count && pointsDeleted == old(pointsDeleted) + e.recorded
      ensures multithreadPointsDeleted == old(multithreadPointsDeleted)
      decreases Nodes(TreeOf(root.right)), 2
    {
      hide DeleteRange;
      var r;
      r, count := DeleteByRange(root.right, b, allow, ds);
      Adopt(root, root.left, r);
    }

    // ---- Searches ----

    /** A wholly accepted subtree: flattened, nothing recorded. */
    method Accept(root: KdNode, storage: PointVector)
      requires root.Valid()
      modifies root.repr, storage, `pointsDeleted, `multithreadPointsDeleted
      ensures root.Valid() && root.repr == old(root.repr) && root.tree == PushAll(old(root.tree))
      ensures storage.points == old(storage.points) + Flatten(old(root.tree))
      ensures pointsDeleted == old(pointsDeleted) && multithreadPointsDeleted == old(multithreadPointsDeleted)
    {
      hide PushAll, Flatten, Recorded;
      FlatNode(root, storage, NotRecord);
      assert forall s: seq<Point> :: s + [] == s;
    }

    /** `Search_by_range`. */
    method SearchByRange(root: KdNode?, b: Box, storage: PointVector)
      requires ValidOrNull(root)
      modifies ReprOf(root), storage, `pointsDeleted, `multithreadPointsDeleted
      ensures ValidOrNull(root) && ReprOf(root) == old(ReprOf(root))
      ensures var f := SearchRange(old(TreeOf(root)), b);
        TreeOf(root) == f.tree && storage.points == old(storage.points) + f.points
      ensures pointsDeleted == old(pointsDeleted) && multithreadPointsDeleted == old(multithreadPointsDeleted)
      decreases Nodes(TreeOf(root)), 1
    {
      if root == null {
        assert storage.points + [] == storage.points;
      } else {
        hide SearchRange;
        SearchNodeByRange(root, b, storage);
      }
    }

    method SearchNodeByRange(root: KdNode, b: Box, storage: PointVector)
      requires root.Valid()
      modifies root.repr, storage, `pointsDeleted, `multithreadPointsDeleted
      ensures root.Valid() && root.repr == old(root.repr)
      ensures var f := SearchRange(old(root.tree), b);
        root.tree == f.tree && storage.points == old(storage.points) + f.points
      ensures pointsDeleted == old(pointsDeleted) && multithreadPointsDeleted == old(multithreadPointsDeleted)
      decreases Nodes(root.tree), 0
    {
      ghost var t, was := root.tree, storage.points;
      hide SearchRange, PushDown, Misses, Covers, InBox, PushAll, Flatten, KdNode.Valid;
      root.Open();
      SearchRangeStep(t, b);
      FewerNodes(t);
      PushDownNode(root);
      HereFields(root);
      root.Open();
      ghost var u := root.tree;
      if Misses(b, root.range) {
        assert was + [] == was;
      } else if Covers(b, root.range) {
        Accept(root, storage);
      } else {
        if InBox(b, root.point) && !root.pointDel { storage.PushBack(root.point); }
        SearchSonsByRange(root, b, storage);
        Grouped(was, if Hit(u, b) then [u.point] else [], SearchRange(u.left, b).points, SearchRange(u.right, b).points);
      }
    }

    method SearchSonsByRange(root: KdNode, b: Box, storage: PointVector)
      requires root.Valid()
      modifies root.repr, storage, `pointsDeleted, `multithreadPointsDeleted
      ensures root.Valid() && root.repr == old(root.repr)
      ensures var u := old(root.tree);
        && u.Node?
        && (var l, r := SearchRange(u.left, b), SearchRange(u.right, b);
            && root.tree == u.(left := l.tree, right := r.tree)
            && storage.points == old(storage.points) + l.points + r.points)
      ensures pointsDeleted == old(pointsDeleted) && multithreadPointsDeleted == old(multithreadPointsDeleted)
      decreases Nodes(root.tree.left) + Nodes(root.tree.right), 2
    {
      hide SearchRange;
      root.Open();
      SearchByRange(root.left, b, storage);
      SearchByRange(root.right, b, storage);
      Retie(root);
    }

    /** `Search_by_radius`. */
    method SearchByRadius(root: KdNode?, q: Point, radius: real, sqrt: real -> real, storage: PointVector)
      requires ValidOrNull(root)
      modifies ReprOf(root), storage, `pointsDeleted, `multithreadPointsDeleted
      ensures ValidOrNull(root) && ReprOf(root) == old(ReprOf(root))
      ensures var f := SearchRadius(old(TreeOf(root)), q, radius, sqrt);
        TreeOf(root) == f.tree && storage.points == old(storage.points) + f.points
      ensures pointsDeleted == old(pointsDeleted) && multithreadPointsDeleted == old(multithreadPointsDeleted)
      decreases Nodes(TreeOf(root)), 1
    {
      if root == null {
        assert storage.points + [] == storage.points;
      } else {
        hide SearchRadius;
        SearchNodeByRadius(root, q, radius, sqrt, storage);
      }
    }

    method SearchNodeByRadius(root: KdNode, q: Point, radius: real, sqrt: real -> real, storage: PointVector)
      requires root.Valid()
      modifies root.repr, storage, `pointsDeleted, `multithreadPointsDeleted
      ensures root.Valid() && root.repr == old(root.repr)
      ensures var f := SearchRadius(old(root.tree), q, radius, sqrt);
        root.tree == f.tree && storage.points == old(storage.points) + f.points
      ensures pointsDeleted == old(pointsDeleted) && multithreadPointsDeleted == old(multithreadPointsDeleted)
      decreases Nodes(root.tree), 0
    {
      ghost var t, was := root.tree, storage.points;
      hide SearchRadius, PushDown, PushAll, Flatten, KdNode.Valid, Dist, Centre;
      root.Open();
      SearchRadiusStep(t, q, radius, sqrt);
      FewerNodes(t);
      PushDownNode(root);
      HereFields(root);
      root.Open();
      ghost var u := root.tree;
      var d, h := sqrt(Dist(Centre(root.range), q)), sqrt(root.radiusSq);
      if d > radius + h {
        assert was + [] == was;
      } else if d <= radius - h {
        Accept(root, storage);
      } else {
        if !root.pointDel && Dist(root.point, q) <= radius * radius { storage.PushBack(root.point); }
        SearchSonsByRadius(root, q, radius, sqrt, storage);
        Grouped(was, if !u.pointDel && Dist(u.point, q) <= radius * radius then [u.point] else [],
                SearchRadius(u.left, q, radius, sqrt).points, SearchRadius(u.right, q, radius, sqrt).points);
      }
    }

    method SearchSonsByRadius(root: KdNode, q: Point, radius: real, sqrt: real -> real, storage: PointVector)
      requires root.Valid()
      modifies root.repr, storage, `pointsDeleted, `multithreadPointsDeleted
      ensures root.Valid() && root.repr == old(root.repr)
      ensures var u := old(root.tree);
        && u.Node?
        && (var l, r := SearchRadius(u.left, q, radius, sqrt), SearchRadius(u.right, q, radius, sqrt);
            && root.tree == u.(left := l.tree, right := r.tree)
            && storage.points == old(storage.points) + l.points + r.points)
      ensures pointsDeleted == old(pointsDeleted) && multithreadPointsDeleted == old(multithreadPointsDeleted)
      decreases Nodes(root.tree.left) + Nodes(root.tree.right), 2
    {
      hide SearchRadius;
      root.Open();
      SearchByRadius(root.left, q, radius, sqrt, storage);
      SearchByRadius(root.right, q, radius, sqrt, storage);
      Retie(root);
    }

    /** A live point offered to the heap of the best so far. */
    method OfferPoint(p: Point, k: nat, q: Point, heap: CmpHeap, bound: Ext)
      requires heap.Valid() && heap.cap == 2 * k
      modifies heap, heap.heap
      ensures heap.Valid() && heap.Contents() == Offer(old(heap.Contents()), k, q, p, bound)
    {
      hide Push, Pop, Dist;
      var d := Dist(q, p);
      var top := heap.TopDist();
      if !Nearer(bound, Fin(d)) && (heap.Count() < k || Nearer(Fin(d), top)) {
        if heap.Count() >= k { heap.PopTop(); }
        heap.PushCandidate(Cmp(p, d));
      }
    }

    /** `Search`; `bound` is the square of `max_dist`. */
    method SearchNearest(root: KdNode?, k: nat, q: Point, heap: CmpHeap, bound: Ext)
      requires ValidOrNull(root) && heap.Valid() && heap.cap == 2 * k
      modifies ReprOf(root), heap, heap.heap
      ensures ValidOrNull(root) && ReprOf(root) == old(ReprOf(root)) && heap.Valid()
      ensures var s := Search(old(TreeOf(root)), k, q, old(heap.Contents()), bound);
        TreeOf(root) == s.tree && heap.Contents() == s.heap
      decreases Nodes(TreeOf(root)), 3
    {
      SonFields(root);
      if root != null && !root.treeDel && !Nearer(bound, Fin(BoxDist(root.range, q))) {
        hide Search;
        SearchNodeNearest(root, k, q, heap, bound);
      }
    }

    method SearchIfNearest(go: bool, root: KdNode?, k: nat, q: Point, heap: CmpHeap, bound: Ext)
      requires ValidOrNull(root) && heap.Valid() && heap.cap == 2 * k
      modifies ReprOf(root), heap, heap.heap
      ensures ValidOrNull(root) && ReprOf(root) == old(ReprOf(root)) && heap.Valid()
      ensures var s := SearchIf(go, old(TreeOf(root)), k, q, old(heap.Contents()), bound);
        TreeOf(root) == s.tree && heap.Contents() == s.heap
      decreases Nodes(TreeOf(root)), 4
    {
      hide Search;
      if go { SearchNearest(root, k, q, heap, bound); }
    }

    method SearchNodeNearest(root: KdNode, k: nat, q: Point, heap: CmpHeap, bound: Ext)
      requires root.Valid() && heap.Valid() && heap.cap == 2 * k
      requires !Dead(root.tree) && !Nearer(bound, GapTo(root.tree, q))
      modifies root.repr, heap, heap.heap
      ensures root.Valid() && root.repr == old(root.repr) && heap.Valid()
      ensures var s := Search(old(root.tree), k, q, old(heap.Contents()), bound);
        root.tree == s.tree && heap.Contents() == s.heap
      decreases Nodes(root.tree), 2
    {
      ghost var t, h := root.tree, heap.Contents();
      hide *;
      root.Open();
      HereFields(root);
      SearchStepSons(t, k, q, h, bound);
      FewerNodes(t);
      if root.pushL || root.pushR { PushDownNode(root); } else { NoPush(t); }
      HereFields(root);
      root.Open();
      if !root.pointDel { OfferPoint(root.point, k, q, heap, bound); }
      SearchSonsNearest(root, k, q, heap, bound);
    }

    /** Both sons, the nearer first while the heap may still take from both. */
    method SearchSonsNearest(root: KdNode, k: nat, q: Point, heap: CmpHeap, bound: Ext)
      requires root.Valid() && heap.Valid() && heap.cap == 2 * k
      modifies root.repr, heap, heap.heap
      ensures root.Valid() && root.repr == old(root.repr) && heap.Valid()
      ensures var u := old(root.tree);
        && u.Node?
        && root.tree == SonsScan(u, k, q, old(heap.Contents()), bound).tree
        && heap.Contents() == SonsScan(u, k, q, old(heap.Contents()), bound).heap
      decreases Nodes(root.tree.left) + Nodes(root.tree.right), 7
    {
      hide Search, SearchIf, BoxDist, LeftFirst, RightFirst, KdNode.Valid;
      root.Open();
      SonFields(root.left);
      SonFields(root.right);
      SonsScanCases(root.tree, k, q, heap.Contents(), bound);
      var dl := if root.left == null then Infinity else Fin(BoxDist(root.left.range, q));
      var dr := if root.right == null then Infinity else Fin(BoxDist(root.right.range, q));
      var top := heap.TopDist();
      if heap.Count() < k || (Nearer(dl, top) && Nearer(dr, top)) {
        if !Nearer(dr, dl) {
          SearchLeftFirst(root, true, true, dr, k, q, heap, bound);
        } else {
          SearchRightFirst(root, dl, k, q, heap, bound);
        }
      } else {
        SearchLeftFirst(root, Nearer(dl, top), false, dr, k, q, heap, bound);
      }
    }

    /** The left son if `go`, then the right one if it may still matter. */
    method SearchLeftFirst(root: KdNode, go: bool, lenient: bool, dr: Ext, k: nat, q: Point, heap: CmpHeap, bound: Ext)
      requires root.Valid() && heap.Valid() && heap.cap == 2 * k
      modifies root.repr, heap, heap.heap
      ensures root.Valid() && root.repr == old(root.repr) && heap.Valid() && old(root.tree).Node?
      ensures var s := LeftFirst(old(root.tree), go, lenient, dr, k, q, old(heap.Contents()), bound);
        root.tree == s.tree && heap.Contents() == s.heap
      decreases Nodes(root.tree.left) + Nodes(root.tree.right), 6
    {
      hide *;
      HereFields(root);
      ghost var u, h0 := root.tree, heap.Contents();
      LeftFirstMeans(u, go, lenient, dr, k, q, h0, bound);
      SearchLeftSon(go, root, k, q, heap, bound);
      heap.Counted();
      var top := heap.TopDist();
      SearchRightSon((lenient && heap.Count() < k) || Nearer(dr, top), root, k, q, heap, bound);
    }

    method SearchLeftSon(go: bool, root: KdNode, k: nat, q: Point, heap: CmpHeap, bound: Ext)
      requires root.Valid() && heap.Valid() && heap.cap == 2 * k
      modifies root.repr, heap, heap.heap
      ensures root.Valid() && root.repr == old(root.repr) && heap.Valid() && old(root.tree).Node?
      ensures var s := SearchIf(go, old(root.tree.left), k, q, old(heap.Contents()), bound);
        root.tree == old(root.tree).(left := s.tree) && heap.Contents() == s.heap
      decreases Nodes(root.tree.left), 5
    {
      hide SearchIf;
      root.Open();
      SearchIfNearest(go, root.left, k, q, heap, bound);
      Retie(root);
    }

    method SearchRightSon(go: bool, root: KdNode, k: nat, q: Point, heap: CmpHeap, bound: Ext)
      requires root.Valid() && heap.Valid() && heap.cap == 2 * k
      modifies root.repr, heap, heap.heap
      ensures root.Valid() && root.repr == old(root.repr) && heap.Valid() && old(root.tree).Node?
      ensures var s := SearchIf(go, old(root.tree.right), k, q, old(heap.Contents()), bound);
        root.tree == old(root.tree).(right := s.tree) && heap.Contents() == s.heap
      decreases Nodes(root.tree.right), 5
    {
      hide SearchIf;
      root.Open();
      SearchIfNearest(go, root.right, k, q, heap, bound);
      Retie(root);
    }

    method SearchRightFirst(root: KdNode, dl: Ext, k: nat, q: Point, heap: CmpHeap, bound: Ext)
      requires root.Valid() && heap.Valid() && heap.cap == 2 * k
      modifies root.repr, heap, heap.heap
      ensures root.Valid() && root.repr == old(root.repr) && heap.Valid() && old(root.tree).Node?
      ensures var s := RightFirst(old(root.tree), dl, k, q, old(heap.Contents()), bound);
        root.tree == s.tree && heap.Contents() == s.heap
      decreases Nodes(root.tree.left) + Nodes(root.tree.right), 6
    {
      hide *;
      HereFields(root);
      ghost var u, h0 := root.tree, heap.Contents();
      RightFirstMeans(u, dl, k, q, h0, bound);
      SearchIfCases(true, root.tree.right, k, q, heap.Contents(), bound);
      SearchRightSon(true, root, k, q, heap, bound);
      heap.Counted();
      var top := heap.TopDist();
      SearchLeftSon(heap.Count() < k || Nearer(dl, top), root, k, q, heap, bound);
    }

    // ---- The public operations ----

    /** The index as a value; without the background thread only `pointsDeleted` is ever filled. */
    ghost function Model(): Index
      reads this, rootNode
    {
      Index(TreeOf(rootNode), pointsDeleted)
    }

    ghost predicate Valid()
      reads this, rootNode, ReprOf(rootNode)
    {
      && ValidOrNull(rootNode) && multithreadPointsDeleted == []
      && setup.voxel > 0.0 && Sound(Model())
    }

    constructor (downsampleSize: real, sqrt: real -> real)
      requires downsampleSize > 0.0
      ensures Valid() && Model() == EMPTY && setup == Setup(downsampleSize, sqrt)
    {
      rootNode := null;
      pointsDeleted, multithreadPointsDeleted, pclStorage := [], [], [];
      setup := Setup(downsampleSize, sqrt);
    }

    /** `Build`: whatever was there is discarded; an empty cloud leaves no root. */
    method BuildFromCloud(cloud: seq<Point>)
      requires Valid()
      modifies this
      ensures Valid() && Model() == Step(setup, old(Model()), Building(cloud)) && fresh(ReprOf(rootNode))
      ensures Live(Model().root) == multiset(cloud) && (rootNode != null <==> cloud != [])
    {
      hide Build, Sound, Inv, Live, Step;
      ghost var x := Model();
      LoadCloud(cloud);
      BuiltModel(setup, x, cloud, Model());
    }

    method LoadCloud(cloud: seq<Point>)
      requires Valid()
      modifies this
      ensures ValidOrNull(rootNode) && fresh(ReprOf(rootNode)) && (rootNode != null <==> TreeOf(rootNode).Node?)
      ensures TreeOf(rootNode) == Build(cloud)
      ensures pointsDeleted == old(pointsDeleted) && multithreadPointsDeleted == [] && setup.voxel > 0.0
    {
      hide Build, Sound;
      rootNode := null;
      var cells := new Point[|cloud|](i requires 0 <= i < |cloud| => cloud[i]);
      assert cells[0..|cloud|] == cloud;
      rootNode := BuildTree(cells, 0, |cloud| - 1);
      SonFields(rootNode);
    }

    /** `size` and `validnum`. */
    method CountPoints() returns (size: int, validnum: int)
      requires Valid()
      ensures size == |Points(Model().root)| && validnum == |Live(Model().root)|
    {
      SonFields(rootNode);
      Counts(TreeOf(rootNode));
      size := SizeAt(rootNode);
      validnum := size - InvalidAt(rootNode);
    }

    /** `Delete_Point_Boxes`: the number returned is the exact drop in live points. */
    method DeletePointBoxes(boxes: seq<Box>) returns (count: int)
      requires Valid()
      modifies this, ReprOf(rootNode)
      ensures Valid() && Model() == Step(setup, old(Model()), Deleting(boxes))
      ensures fresh(ReprOf(rootNode) - old(ReprOf(rootNode)))
      ensures Live(Model().root) == OutsideAll(old(Live(Model().root)), boxes)
      ensures count == old(|Live(Model().root)|) - |Live(Model().root)|
    {
      ghost var x := Model();
      count := DeleteEach(boxes);
      DeleteGood(setup, x, boxes);
      hide *;
      GoodGives(setup, x, Deleting(boxes));
      DeletedLive(setup, x, boxes);
    }

    method DeleteEach(boxes: seq<Box>) returns (count: int)
      requires ValidOrNull(rootNode)
      modifies this, ReprOf(rootNode)
      ensures ValidOrNull(rootNode) && fresh(ReprOf(rootNode) - old(ReprOf(rootNode)))
      ensures multithreadPointsDeleted == old(multithreadPointsDeleted)
      ensures var e := DeleteAll(old(TreeOf(rootNode)), boxes);
        TreeOf(rootNode) == e.tree && pointsDeleted == old(pointsDeleted) + e.recorded && count == e.count
    {
      hide DeleteRange;
      ghost var t, was := TreeOf(rootNode), pointsDeleted;
      count := 0;
      for i := 0 to |boxes|
        invariant ValidOrNull(rootNode) && fresh(ReprOf(rootNode) - old(ReprOf(rootNode)))
        invariant multithreadPointsDeleted == old(multithreadPointsDeleted)
        invariant var e := DeleteAll(t, boxes[..i]);
          TreeOf(rootNode) == e.tree && pointsDeleted == was + e.recorded && count == e.count
      {
        var n;
        assert boxes[..i + 1][..i] == boxes[..i];
        rootNode, n := DeleteByRange(rootNode, boxes[i], true, false);
        count := count + n;
      }
      assert boxes[..|boxes|] == boxes;
    }

    /** `Add_Points`; the number returned counts the voxels rewritten. */
    method AddPoints(points: seq<Point>, downsample: bool) returns (count: nat)
      requires Valid() && Allowed(Model(), Adding(points, downsample))
      modifies this, ReprOf(rootNode)
      ensures Valid() && Model() == Step(setup, old(Model()), Adding(points, downsample))
      ensures fresh(ReprOf(rootNode) - old(ReprOf(rootNode)))
      ensures Meaning(setup, old(Live(Model().root)), Adding(points, downsample), Live(Model().root))
      ensures count == (if downsample then |PutAll(old(Model().root), points, setup.voxel)| else 0) <= |points|
    {
      ghost var x := Model();
      if points == [] {
        count := 0;
        NothingAdded(setup, x, downsample);
      } else if downsample {
        count := StoreEach(points);
        StoreAllCounted(x.root, points, setup.voxel);
      } else {
        InsertEach(points);
        count := 0;
      }
      if downsample { StoreGood(setup, x, points); } else { AddGood(setup, x, points); }
      hide *;
      GoodGives(setup, x, Adding(points, downsample));
      AddSteps(setup, x, points, downsample);
    }

    method InsertEach(points: seq<Point>)
      requires ValidOrNull(rootNode) && rootNode != null && Inv(TreeOf(rootNode))
      modifies this, ReprOf(rootNode)
      ensures ValidOrNull(rootNode) && fresh(ReprOf(rootNode) - old(ReprOf(rootNode)))
      ensures multithreadPointsDeleted == old(multithreadPointsDeleted)
      ensures var e := InsertAll(old(TreeOf(rootNode)), points);
        TreeOf(rootNode) == e.tree && pointsDeleted == old(pointsDeleted) + e.recorded
    {
      hide AddPoint, Inv;
      ghost var t, was := TreeOf(rootNode), pointsDeleted;
      for i := 0 to |points|
        invariant ValidOrNull(rootNode) && fresh(ReprOf(rootNode) - old(ReprOf(rootNode)))
        invariant multithreadPointsDeleted == old(multithreadPointsDeleted)
        invariant var e := InsertAll(t, points[..i]);
          TreeOf(rootNode) == e.tree && pointsDeleted == was + e.recorded
      {
        assert points[..i + 1][..i] == points[..i];
        InsertedRoot(t, points[..i]);
        SonFields(rootNode);
        rootNode := AddByPoint(rootNode, points[i], true, rootNode.axis);
      }
      assert points[..|points|] == points;
    }

    method StoreEach(points: seq<Point>) returns (count: nat)
      requires ValidOrNull(rootNode) && rootNode != null && Inv(TreeOf(rootNode)) && setup.voxel > 0.0
      modifies this, ReprOf(rootNode)
      ensures ValidOrNull(rootNode) && fresh(ReprOf(rootNode) - old(ReprOf(rootNode)))
      ensures multithreadPointsDeleted == old(multithreadPointsDeleted)
      ensures var e := StoreAll(old(TreeOf(rootNode)), points, setup.voxel);
        TreeOf(rootNode) == e.tree && pointsDeleted == old(pointsDeleted) + e.recorded && count == e.count
    {
      hide StorePoint, Inv;
      ghost var t, was := TreeOf(rootNode), pointsDeleted;
      count := 0;
      for i := 0 to |points|
        invariant ValidOrNull(rootNode) && fresh(ReprOf(rootNode) - old(ReprOf(rootNode)))
        invariant multithreadPointsDeleted == old(multithreadPointsDeleted)
        invariant var e := StoreAll(t, points[..i], setup.voxel);
          TreeOf(rootNode) == e.tree && pointsDeleted == was + e.recorded && count == e.count
      {
        assert points[..i + 1][..i] == points[..i];
        StoredRoot(t, points[..i], setup.voxel);
        var n := StoreOne(points[i]);
        count := count + n;
      }
      assert points[..|points|] == points;
    }

    /** One point of `Add_Points` with downsampling. */
    method StoreOne(p: Point) returns (count: nat)
      requires ValidOrNull(rootNode) && rootNode != null && Inv(TreeOf(rootNode)) && setup.voxel > 0.0
      modifies this, ReprOf(rootNode)
      ensures ValidOrNull(rootNode) && fresh(ReprOf(rootNode) - old(ReprOf(rootNode)))
      ensures multithreadPointsDeleted == old(multithreadPointsDeleted)
      ensures var e := StorePoint(old(TreeOf(rootNode)), p, setup.voxel);
        TreeOf(rootNode) == e.tree && pointsDeleted == old(pointsDeleted) + e.recorded && count == e.count
    {
      hide SearchRange, ReplaceIn, BoxOf, VoxelOf, Middle, Dist, SamePoint, Inv;
      ghost var t := TreeOf(rootNode);
      var box := BoxOf(VoxelOf(p, setup.voxel), setup.voxel);
      var mid := Middle(box);
      var storage := new PointVector();
      SearchByRange(rootNode, box, storage);
      ghost var f := SearchRange(t, box);
      assert storage.points == f.points;
      var b := BestOf(p, mid, storage.points);
      StoreOneFacts(t, p, setup.voxel);
      if |storage.points| > 1 || SamePoint(p, b) {
        ReplaceRoot(box, |storage.points| > 0, b);
        count := 1;
      } else {
        count := 0;
      }
    }

    /** The loop that looks for the point nearest the middle. */
    method BestOf(p: Point, mid: Point, stored: seq<Point>) returns (b: Point)
      ensures b == Best(p, mid, stored)
    {
      hide Dist;
      var minDist := Dist(p, mid);
      b := p;
      for i := 0 to |stored|
        invariant b == Best(p, mid, stored[..i]) && minDist == Dist(b, mid)
      {
        assert stored[..i + 1][..i] == stored[..i];
        var d := Dist(stored[i], mid);
        if d < minDist {
          minDist := d;
          b := stored[i];
        }
      }
      assert stored[..|stored|] == stored;
    }

    /** Everything in the box deleted, if there was anything, and `b` added. */
    method ReplaceRoot(box: Box, held: bool, b: Point)
      requires ValidOrNull(rootNode) && rootNode != null && Inv(TreeOf(rootNode))
      modifies this, ReprOf(rootNode)
      ensures ValidOrNull(rootNode) && fresh(ReprOf(rootNode) - old(ReprOf(rootNode)))
      ensures multithreadPointsDeleted == old(multithreadPointsDeleted)
      ensures old(TreeOf(rootNode)).Node?
      ensures var e := ReplaceIn(old(TreeOf(rootNode)), box, held, b);
        TreeOf(rootNode) == e.tree && pointsDeleted == old(pointsDeleted) + e.recorded
    {
      hide DeleteRange, AddPoint, Inv, ReplaceIn, ReplaceChange, DeleteChange, AddChange, Both;
      ghost var t, was := TreeOf(rootNode), pointsDeleted;
      SonFields(rootNode);
      DeletedRoot(t, box);
      if held {
        var n;
        rootNode, n := DeleteByRange(rootNode, box, true, true);
      }
      SonFields(rootNode);
      rootNode := AddByPoint(rootNode, b, true, rootNode.axis);
      ghost var d := if held then DeleteRange(t, box, true, true) else Removal(t, 0, []);
      Regroup(was, d.recorded, AddPoint(d.tree, b, true, d.tree.axis).recorded);
      ReplaceInCases(t, box, held, b);
    }

    /** `Nearest_Search`; `found` pairs the two lists it fills. */
    method NearestPoints(q: Point, k: nat, maxDist: Ext) returns (points: seq<Point>, dists: seq<real>, ghost found: seq<Cmp>)
      requires Valid()
      modifies this, ReprOf(rootNode)
      ensures Valid() && Model() == Step(setup, old(Model()), FindingNearest(q, k, maxDist))
      ensures Live(Model().root) == old(Live(Model().root)) && ReprOf(rootNode) == old(ReprOf(rootNode))
      ensures |points| == |dists| == |found| && forall i :: 0 <= i < |found| ==> found[i] == Cmp(points[i], dists[i])
      ensures k == 1 || (k > 1 && NoneConfused(old(Live(Model().root)), q)) ==>
                IsNearest(found, old(Live(Model().root)), q, k, maxDist)
    {
      ghost var x := Model();
      points, dists, found := SearchHeap(q, k, maxDist);
      SearchGood(setup, x, FindingNearest(q, k, maxDist));
      NearestMeans(x.root, q, k, maxDist);
      hide *;
    }

    method SearchHeap(q: Point, k: nat, maxDist: Ext) returns (points: seq<Point>, dists: seq<real>, ghost found: seq<Cmp>)
      requires ValidOrNull(rootNode)
      modifies ReprOf(rootNode)
      ensures ValidOrNull(rootNode) && ReprOf(rootNode) == old(ReprOf(rootNode))
      ensures var n := NearestSearch(old(TreeOf(rootNode)), q, k, maxDist);
        TreeOf(rootNode) == n.tree && found == n.found
      ensures |points| == |dists| == |found| && forall i :: 0 <= i < |found| ==> found[i] == Cmp(points[i], dists[i])
    {
      hide Search, Drain;
      var heap := new CmpHeap(2 * k);
      heap.Clear();
      SearchNearest(rootNode, k, q, heap, Squared(maxDist));
      heap.Counted();
      points, dists, found := EmptyHeap(heap, if k < heap.Count() then k else heap.Count());
    }

    /** The candidates popped, each put in front of the ones before. */
    static method EmptyHeap(heap: CmpHeap, kFound: nat)
      returns (points: seq<Point>, dists: seq<real>, ghost found: seq<Cmp>)
      requires heap.Valid() && kFound <= heap.Count()
      modifies heap, heap.heap
      ensures found == Drain(old(heap.Contents()), kFound)
      ensures |points| == |dists| == |found| && forall i :: 0 <= i < |found| ==> found[i] == Cmp(points[i], dists[i])
    {
      hide Pop;
      points, dists, found := [], [], [];
      ghost var all := Drain(heap.Contents(), kFound);
      for i := 0 to kFound
        invariant heap.Valid() && heap.Count() >= kFound - i
        invariant all == Drain(heap.Contents(), kFound - i) + found
        invariant |points| == |dists| == |found|
        invariant forall j :: 0 <= j < |found| ==> found[j] == Cmp(points[j], dists[j])
      {
        var top := heap.TopCandidate();
        points := [top.point] + points;
        dists := [top.dist] + dists;
        found := [top] + found;
        heap.PopTop();
      }
    }

    /** `Box_Search`. */
    method BoxSearch(box: Box, storage: PointVector)
      requires Valid()
      modifies this, ReprOf(rootNode), storage
      ensures Valid() && Model() == Step(setup, old(Model()), SearchingBox(box))
      ensures Live(Model().root) == old(Live(Model().root)) && ReprOf(rootNode) == old(ReprOf(rootNode))
      ensures multiset(storage.points) == Inside(old(Live(Model().root)), box)
    {
      ghost var x := Model();
      storage.points := [];
      SearchByRange(rootNode, box, storage);
      SearchGood(setup, x, SearchingBox(box));
      SearchRangeExact(x.root, box);
      hide *;
      assert [] + SearchRange(x.root, box).points == SearchRange(x.root, box).points;
    }

    /** `Radius_Search`. */
    method RadiusSearch(q: Point, radius: real, storage: PointVector)
      requires Valid()
      modifies this, ReprOf(rootNode), storage
      ensures Valid() && Model() == Step(setup, old(Model()), SearchingRadius(q, radius))
      ensures Live(Model().root) == old(Live(Model().root)) && ReprOf(rootNode) == old(ReprOf(rootNode))
      ensures IsSqrt(setup.sqrt) && radius >= 0.0 ==> multiset(storage.points) == Ball(old(Live(Model().root)), q, radius)
    {
      ghost var x := Model();
      storage.points := [];
      SearchByRadius(rootNode, q, radius, setup.sqrt, storage);
      SearchGood(setup, x, SearchingRadius(q, radius));
      RadiusMeans(x.root, q, radius, setup.sqrt);
      hide *;
      assert [] + SearchRadius(x.root, q, radius, setup.sqrt).points == SearchRadius(x.root, q, radius, setup.sqrt).points;
    }

    /** `acquire_removed_points`: hands over each waiting point once. */
    method AcquireRemovedPoints(removed: PointVector)
      requires Valid()
      modifies this, removed
      ensures Valid() && Model() == Step(setup, old(Model()), Acquiring)
      ensures removed.points == old(removed.points) + old(Model().waiting) && rootNode == old(rootNode)
    {
      hide Inv, Balanced, Ordered;
      removed.PushAll(pointsDeleted);
      removed.PushAll(multithreadPointsDeleted);
      pointsDeleted := [];
      multithreadPointsDeleted := [];
    }
  }

  lemma Regroup(a: seq<Point>, b: seq<Point>, c: seq<Point>)
    ensures a + b + c == a + (b + c)
  {
  }

  /** The fields of a valid node are those of its tree. */
  lemma HereFields(root: KdNode)
    requires root.Valid()
    ensures var t := root.tree;
      && t.Node? && root.point == t.point && root.axis == t.axis && root.range == t.range && root.size == t.size
      && root.invalid == t.invalid && root.pointDel == t.pointDel && root.treeDel == t.treeDel
      && root.pointDs == t.pointDs && root.radiusSq == t.radiusSq && root.pushL == t.pushL && root.pushR == t.pushR
      && TreeOf(root.left) == t.left && TreeOf(root.right) == t.right
  {
  }

  lemma StruckFields(u: Tree, b: Box, ds: bool, l: Tree, r: Tree)
    requires u.Node?
    ensures Hit(u, b) <==> !u.pointDel && InBox(b, u.point)
    ensures Struck(u, b, ds, l, r)
         == u.(pointDel := u.pointDel || Hit(u, b), pointDs := u.pointDs || (Hit(u, b) && ds), left := l, right := r)
  {
  }

  lemma GoodGives(c: Setup, x: Index, op: Op)
    requires c.voxel > 0.0 && Good(c, x, op, Step(c, x, op))
    ensures Sound(Step(c, x, op)) && Meaning(c, Live(x.root), op, Live(Step(c, x, op).root))
  {
  }

  lemma DeletedLive(c: Setup, x: Index, boxes: seq<Box>)
    requires c.voxel > 0.0 && Sound(x)
    ensures var y := Step(c, x, Deleting(boxes));
      && Live(y.root) == OutsideAll(Live(x.root), boxes)
      && DeleteAll(x.root, boxes).count == |Live(x.root)| - |Live(y.root)|
  {
    SoundGives(x);
    if x.root.Nil? {
      EmptyAll(boxes);
    } else {
      DeleteAllExact(x.root, boxes);
      hide Inv, Live, DeleteAll, OutsideAll, Kept;
    }
  }

  lemma NothingAdded(c: Setup, x: Index, downsample: bool)
    requires c.voxel > 0.0
    ensures Step(c, x, Adding([], downsample)) == x
  {
    assert x.waiting + [] == x.waiting;
  }

  lemma AddSteps(c: Setup, x: Index, points: seq<Point>, downsample: bool)
    requires c.voxel > 0.0
    ensures Step(c, x, Adding(points, downsample)) ==
      if downsample then
        var e := StoreAll(x.root, points, c.voxel); Index(e.tree, x.waiting + e.recorded)
      else
        var e := InsertAll(x.root, points); Index(e.tree, x.waiting + e.recorded)
  {
  }

  lemma InsertedRoot(t: Tree, points: seq<Point>)
    requires Inv(t) && t.Node?
    ensures InsertAll(t, points).tree.Node?
  {
    InsertAllExact(t, points);
  }

  lemma StoredRoot(t: Tree, points: seq<Point>, s: real)
    requires Inv(t) && t.Node? && s > 0.0
    ensures StoreAll(t, points, s).tree.Node? && Inv(StoreAll(t, points, s).tree)
  {
    StoreAllKept(t, points, s);
  }

  lemma DeletedRoot(t: Tree, box: Box)
    requires Inv(t) && t.Node?
    ensures DeleteRange(t, box, true, true).tree.Node?
  {
    DeleteRangeExact(t, box, true, true);
  }

  lemma StoreOneFacts(t: Tree, p: Point, s: real)
    requires Inv(t) && t.Node? && s > 0.0
    ensures var box := BoxOf(VoxelOf(p, s), s);
      var f := SearchRange(t, box);
      var b := Best(p, Middle(box), f.points);
      && f.tree.Node? && Inv(f.tree)
      && StorePoint(t, p, s) == (if |f.points| > 1 || SamePoint(p, b) then ReplaceIn(f.tree, box, |f.points| > 0, b)
                                 else Stored(f.tree, 0, []))
      && (|f.points| > 1 || SamePoint(p, b) ==> ReplaceIn(f.tree, box, |f.points| > 0, b).count == 1)
  {
    ChosenExact(t, p, s);
    StorePointCases(t, p, s);
    var box := BoxOf(VoxelOf(p, s), s);
    var f := SearchRange(t, box);
    KeptGives(t, multiset{}, f.tree, [], NONE);
    ReplaceInCount(f.tree, box, |f.points| > 0, Best(p, Middle(box), f.points));
    hide SearchRange, Inv, Live, Kept, ReplaceIn, Best, SamePoint;
  }

  /** A query's step, with or without a sound square root. */
  lemma {:induction false} SearchGood(c: Setup, x: Index, op: Op)
    requires c.voxel > 0.0 && Sound(x) && (op.FindingNearest? || op.SearchingBox? || op.SearchingRadius?)
    ensures var y := Step(c, x, op);
      && Sound(y) && Live(y.root) == Live(x.root) && y.waiting == x.waiting
      && (op.FindingNearest? ==> y.root == NearestSearch(x.root, op.q, op.k, op.maxDist).tree)
      && (op.SearchingBox? ==> y.root == SearchRange(x.root, op.box).tree)
      && (op.SearchingRadius? ==> y.root == SearchRadius(x.root, op.q, op.radius, c.sqrt).tree)
  {
    SoundGives(x);
    match op {
      case FindingNearest(q, k, maxDist) => SearchEased(x.root, k, q, [], Squared(maxDist));
      case SearchingBox(box) => SearchRangeExact(x.root, box);
      case SearchingRadius(q, radius) => SearchRadiusEased(x.root, q, radius, c.sqrt);
      case _ =>
    }
    var r := Step(c, x, op).root;
    hide Sound, Inv, Eased, Live, Search, SearchRange, SearchRadius, Good, Meaning;
    QueryGood(c, x, op, r);
    GoodGives(c, x, op);
    QueryIsQuiet(c, Live(x.root), op, Live(r));
  }

  lemma QueryIsQuiet(c: Setup, m: multiset<Point>, op: Op, m': multiset<Point>)
    requires Meaning(c, m, op, m') && (op.FindingNearest? || op.SearchingBox? || op.SearchingRadius?)
    ensures m' == m
  {
  }

  lemma {:induction false} NearestMeans(t: Tree, q: Point, k: nat, maxDist: Ext)
    requires Inv(t)
    ensures k == 1 || (k > 1 && NoneConfused(Live(t), q)) ==>
      IsNearest(NearestSearch(t, q, k, maxDist).found, Live(t), q, k, maxDist)
  {
    if k == 1 || (k > 1 && NoneConfused(Live(t), q)) { NearestSearchExact(t, q, k, maxDist); }
  }

  lemma {:induction false} RadiusMeans(t: Tree, q: Point, radius: real, sqrt: real -> real)
    requires Inv(t)
    ensures IsSqrt(sqrt) && radius >= 0.0 ==> multiset(SearchRadius(t, q, radius, sqrt).points) == Ball(Live(t), q, radius)
  {
    if IsSqrt(sqrt) && radius >= 0.0 { SearchRadiusExact(t, q, radius, sqrt); }
  }

  lemma BuiltModel(c: Setup, x: Index, cloud: seq<Point>, y: Index)
    requires c.voxel > 0.0 && y.root == Build(cloud) && y.waiting == x.waiting
    ensures y == Step(c, x, Building(cloud)) && Sound(y) && Live(y.root) == multiset(cloud)
    ensures y.root.Nil? <==> cloud == []
  {
    BuildCorrect(cloud);
    hide Inv, Live, Balanced, Ordered, Build, Points, Of;
  }

  lemma FewerNodes(t: Tree)
    requires t.Node?
    ensures var u := PushDown(t); u.Node? && Nodes(u.left) < Nodes(t) && Nodes(u.right) < Nodes(t)
  {
  }

  lemma Grouped(a: seq<Point>, b: seq<Point>, c: seq<Point>, d: seq<Point>)
    ensures a + b + c + d == a + (b + c + d) && a + [] == a
  {
  }
}
