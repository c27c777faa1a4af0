/** `KD_TREE_NODE` on the heap, and the operations that rewrite one node. */
module IkdNode {
  import opened Geometry
  import opened Tree

  class KdNode {
    var point: Point
    var axis: Axis
    var size: int
    var invalid: int
    var downDel: int
    var pointDel: bool
    var treeDel: bool
    var pointDs: bool
    var treeDs: bool
    var pushL: bool
    var pushR: bool
    var range: Box
    var radiusSq: real
    var left: KdNode?
    var right: KdNode?

    /** The value this node and everything below it stand for. */
    ghost var tree: Tree
    ghost var repr: set<KdNode>

    ghost predicate Valid()
      reads this, repr
      decreases repr
    {
      && this in repr && (left != null ==> left in repr) && (right != null ==> right in repr)
      && Linked()
      && (left != null ==> left.Valid())
      && (right != null ==> right.Valid())
      && tree == Here(TreeOf(left), TreeOf(right))
    }

    /** The node owns its sons' nodes, and they share none. */
    ghost predicate Linked()
      reads this, left, right
    {
      && this in repr
      && (left != null ==> left in repr && left.repr <= repr && this !in left.repr)
      && (right != null ==> right in repr && right.repr <= repr && this !in right.repr)
      && (left != null && right != null ==> left.repr !! right.repr)
    }

    /** The fields of this node above the given sons. */
    ghost function Here(l: Tree, r: Tree): (t: Tree)
      reads this
      ensures t.Node?
    {
      Node(point, axis, size, invalid, downDel, pointDel, treeDel, pointDs, treeDs, pushL, pushR, range, radiusSq, l, r)
    }

    /** `InitTreeNode`, with point and axis set. */
    constructor (p: Point, a: Axis)
      ensures Valid() && repr == {this} && tree == Blank(p, a, Nil, Nil) && left == null && right == null
    {
      point, axis := p, a;
      size, invalid, downDel := 0, 0, 0;
      pointDel, treeDel, pointDs, treeDs, pushL, pushR := false, false, false, false, false, false;
      range, radiusSq := Box(0.0, 0.0, 0.0, 0.0, 0.0, 0.0), 0.0;
      left, right := null, null;
      tree := Blank(p, a, Nil, Nil);
      repr := {this};
    }

    /** What this father hands to the son `s`. */
    method PushInto(s: KdNode)
      requires s.Valid() && this !in s.repr
      modifies s
      ensures s.Valid() && s.tree == PushMarks(treeDel, treeDs, old(s.tree))
      ensures s.repr == old(s.repr) && s.left == old(s.left) && s.right == old(s.right)
    {
      hide *;
      s.Open();
      s.TakeMarks(treeDel, treeDs, TreeOf(s.left), TreeOf(s.right));
      s.Close();
    }

    lemma Open()
      requires Valid()
      ensures Linked() && ValidOrNull(left) && ValidOrNull(right) && tree == Here(TreeOf(left), TreeOf(right))
    {
    }

    lemma Close()
      requires Linked() && ValidOrNull(left) && ValidOrNull(right) && tree == Here(TreeOf(left), TreeOf(right))
      ensures Valid()
    {
    }

    method TakeMarks(fatherDel: bool, fatherDs: bool, ghost l: Tree, ghost r: Tree)
      requires tree == Here(l, r)
      modifies `treeDs, `pointDs, `treeDel, `pointDel, `downDel, `invalid, `pushL, `pushR, `tree
      ensures tree == Here(l, r) == PushMarks(fatherDel, fatherDs, old(tree))
    {
      var ds := treeDs || fatherDs;
      var del := fatherDel || ds;
      var down := if fatherDs then size else downDel;
      StoreMarks(ds, pointDs || fatherDs, del, del || pointDs || fatherDs, down, if fatherDel then size else down, l, r);
    }

    method StoreMarks(treeDs': bool, pointDs': bool, treeDel': bool, pointDel': bool, downDel': int, invalid': int,
                      ghost l: Tree, ghost r: Tree)
      modifies `treeDs, `pointDs, `treeDel, `pointDel, `downDel, `invalid, `pushL, `pushR, `tree
      ensures old(Here(l, r)).Node?
      ensures tree == Here(l, r)
           == old(Here(l, r)).(treeDs := treeDs', pointDs := pointDs', treeDel := treeDel', pointDel := pointDel',
                               downDel := downDel', invalid := invalid', pushL := true, pushR := true)
    {
      treeDs, pointDs, treeDel, pointDel := treeDs', pointDs', treeDel', pointDel';
      downDel, invalid := downDel', invalid';
      pushL, pushR := true, true;
      tree := Here(l, r);
    }

    method LowerLeft(ghost l: Tree, ghost r: Tree)
      modifies `pushL, `tree
      ensures old(Here(l, r)).Node? && tree == Here(l, r) == old(Here(l, r)).(pushL := false)
    {
      pushL := false;
      tree := Here(l, r);
    }

    method LowerRight(ghost l: Tree, ghost r: Tree)
      modifies `pushR, `tree
      ensures old(Here(l, r)).Node? && tree == Here(l, r) == old(Here(l, r)).(pushR := false)
    {
      pushR := false;
      tree := Here(l, r);
    }

    /** The fully covered shortcut of `Delete_by_range`. */
    method TakeDeletion(ds: bool, ghost l: Tree, ghost r: Tree)
      requires tree == Here(l, r)
      modifies `treeDel, `pointDel, `pushL, `pushR, `invalid, `treeDs, `pointDs, `downDel, `tree
      ensures tree == Here(l, r) == MarkDeleted(old(tree), ds)
    {
      treeDel, pointDel, pushL, pushR := true, true, true, true;
      invalid := size;
      if ds {
        treeDs, pointDs := true, true;
        downDel := size;
      }
      tree := Here(l, r);
    }

    method StoreCache(size': int, invalid': int, downDel': int, treeDel': bool, treeDs': bool, range': Box,
                      radiusSq': real, ghost l: Tree, ghost r: Tree)
      modifies `size, `invalid, `downDel, `treeDel, `treeDs, `range, `radiusSq, `tree
      ensures old(Here(l, r)).Node?
      ensures tree == Here(l, r)
           == old(Here(l, r)).(size := size', invalid := invalid', downDel := downDel', treeDel := treeDel',
                               treeDs := treeDs', range := range', radiusSq := radiusSq')
    {
      size, invalid, downDel := size', invalid', downDel';
      treeDel, treeDs, range, radiusSq := treeDel', treeDs', range', radiusSq';
      tree := Here(l, r);
    }
  }

  ghost function TreeOf(n: KdNode?): Tree
    reads n
  {
    if n == null then Nil else n.tree
  }

  ghost function ReprOf(n: KdNode?): set<KdNode>
    reads n
  {
    if n == null then {} else n.repr
  }

  ghost predicate ValidOrNull(n: KdNode?)
    reads n, ReprOf(n)
  {
    n != null ==> n.Valid()
  }

  method PushLeft(root: KdNode)
    requires root.Valid()
    modifies root`pushL, root`tree, root.left
    ensures root.Valid()
    ensures var t := old(root.tree); root.tree == t.(left := Told(t, t.left, t.pushL), pushL := t.pushL && t.left.Nil?)
    ensures root.repr == old(root.repr) && root.left == old(root.left) && root.right == old(root.right)
  {
    hide PushMarks;
    root.Open();
    if root.pushL && root.left != null {
      root.PushInto(root.left);
      root.LowerLeft(TreeOf(root.left), TreeOf(root.right));
      root.Close();
    }
  }

  method PushRight(root: KdNode)
    requires root.Valid()
    modifies root`pushR, root`tree, root.right
    ensures root.Valid()
    ensures var t := old(root.tree); root.tree == t.(right := Told(t, t.right, t.pushR), pushR := t.pushR && t.right.Nil?)
    ensures root.repr == old(root.repr) && root.left == old(root.left) && root.right == old(root.right)
  {
    hide PushMarks;
    root.Open();
    if root.pushR && root.right != null {
      root.PushInto(root.right);
      root.LowerRight(TreeOf(root.left), TreeOf(root.right));
      root.Close();
    }
  }

  /** `Push_Down`. */
  method PushDownNode(root: KdNode)
    requires root.Valid()
    modifies root, root.left, root.right
    ensures root.Valid() && root.tree == PushDown(old(root.tree))
    ensures root.repr == old(root.repr) && root.left == old(root.left) && root.right == old(root.right)
  {
    ghost var t := root.tree;
    PushLeft(root);
    PushRight(root);
    hide *;
    TwoPushes(t, root.tree);
  }

  lemma TwoPushes(t: Tree, r: Tree)
    requires t.Node?
    requires var u := t.(left := Told(t, t.left, t.pushL), pushL := t.pushL && t.left.Nil?);
      r == u.(right := Told(u, u.right, u.pushR), pushR := u.pushR && u.right.Nil?)
    ensures r == PushDown(t)
  {
  }

  // ---- Update ----

  function SizeAt(n: KdNode?): int reads n { if n == null then 0 else n.size }

  function InvalidAt(n: KdNode?): int reads n { if n == null then 0 else n.invalid }

  function DownDelAt(n: KdNode?): int reads n { if n == null then 0 else n.downDel }

  predicate DeadAt(n: KdNode?) reads n { n == null || n.treeDel }

  predicate DsAt(n: KdNode?) reads n { n == null || n.treeDs }

  function RangeAt(n: KdNode?): Option<Box> reads n { if n == null then None else Some(n.range) }

  function LiveRangeAt(n: KdNode?): Option<Box> reads n { if DeadAt(n) then None else Some(n.range) }

  /** The cached fields of a son are those of the tree it stands for. */
  lemma SonFields(n: KdNode?)
    requires ValidOrNull(n)
    ensures var t := TreeOf(n);
      && SizeAt(n) == Size(t) && InvalidAt(n) == Invalid(t) && DownDelAt(n) == DownDel(t)
      && DeadAt(n) == Dead(t) && DsAt(n) == (t.Nil? || t.treeDs)
      && RangeAt(n) == RangeOf(t) && LiveRangeAt(n) == LiveRange(t) && (n == null <==> t.Nil?)
  {
  }

  /** What `Update` stores, read off the sons' own fields. */
  lemma CacheIsUpdate(root: KdNode, treeDel: bool, treeDs: bool, range: Box)
    requires ValidOrNull(root.left) && ValidOrNull(root.right)
    requires treeDel == (root.pointDel && DeadAt(root.left) && DeadAt(root.right))
    requires treeDs == (root.pointDs && DsAt(root.left) && DsAt(root.right))
    requires var t := root.Here(TreeOf(root.left), TreeOf(root.right));
      && (treeDel || AllAlive(t) || LiveHull(t).Some?)
      && range == (if treeDel || AllAlive(t) then FullHull(t) else LiveHull(t)).value
    ensures Update(root.Here(TreeOf(root.left), TreeOf(root.right)))
         == root.Here(TreeOf(root.left), TreeOf(root.right)).(
              size := 1 + SizeAt(root.left) + SizeAt(root.right),
              invalid := One(root.pointDel) + InvalidAt(root.left) + InvalidAt(root.right),
              downDel := One(root.pointDs) + DownDelAt(root.left) + DownDelAt(root.right),
              treeDel := treeDel, treeDs := treeDs, range := range, radiusSq := HalfDiagonalSq(range))
  {
    SonFields(root.left);
    SonFields(root.right);
    hide Join, HalfDiagonalSq, FullHull, LiveHull, AllAlive;
  }

  /** `Update`, on a node whose sons may have been replaced. */
  method UpdateNode(root: KdNode)
    requires root.Linked() && ValidOrNull(root.left) && ValidOrNull(root.right)
    modifies root`size, root`invalid, root`downDel, root`treeDel, root`treeDs, root`range, root`radiusSq, root`tree
    ensures root.Valid() && root.tree == Update(old(root.Here(TreeOf(root.left), TreeOf(root.right))))
  {
    hide Update, HalfDiagonalSq;
    var size, invalid, downDel, treeDel, treeDs, range := NewCache(root);
    root.StoreCache(size, invalid, downDel, treeDel, treeDs, range, HalfDiagonalSq(range),
                    TreeOf(root.left), TreeOf(root.right));
    root.Close();
  }

  method NewCache(root: KdNode)
    returns (size: int, invalid: int, downDel: int, treeDel: bool, treeDs: bool, range: Box)
    requires root.Linked() && ValidOrNull(root.left) && ValidOrNull(root.right)
    ensures Update(root.Here(TreeOf(root.left), TreeOf(root.right)))
         == root.Here(TreeOf(root.left), TreeOf(root.right)).(
              size := size, invalid := invalid, downDel := downDel, treeDel := treeDel, treeDs := treeDs,
              range := range, radiusSq := HalfDiagonalSq(range))
  {
    hide Update, Join, HalfDiagonalSq, FullHull, LiveHull, AllAlive, DeadAt, DsAt, SizeAt, InvalidAt, DownDelAt;
    var l, r := root.left, root.right;
    treeDel := root.pointDel && DeadAt(l) && DeadAt(r);
    treeDs := root.pointDs && DsAt(l) && DsAt(r);
    range := RangeBelow(root, treeDel);
    CacheIsUpdate(root, treeDel, treeDs, range);
    size := 1 + SizeAt(l) + SizeAt(r);
    invalid := One(root.pointDel) + InvalidAt(l) + InvalidAt(r);
    downDel := One(root.pointDs) + DownDelAt(l) + DownDelAt(r);
  }

  /** The new range: everything stored if all of it is dead or all alive, else what is alive. */
  method RangeBelow(root: KdNode, treeDel: bool) returns (range: Box)
    requires ValidOrNull(root.left) && ValidOrNull(root.right)
    requires treeDel == (root.pointDel && DeadAt(root.left) && DeadAt(root.right))
    ensures var t := root.Here(TreeOf(root.left), TreeOf(root.right));
      && (treeDel || AllAlive(t) || LiveHull(t).Some?)
      && range == (if treeDel || AllAlive(t) then FullHull(t) else LiveHull(t)).value
  {
    var l, r := root.left, root.right;
    ghost var t := root.Here(TreeOf(l), TreeOf(r));
    SonFields(l);
    SonFields(r);
    var allAlive := !root.pointDel && (l == null || !l.treeDel) && (r == null || !r.treeDel);
    var full := Join(Join(RangeAt(l), RangeAt(r)), Some(Spot(root.point)));
    var live := Join(Join(LiveRangeAt(l), LiveRangeAt(r)), if root.pointDel then None else Some(Spot(root.point)));
    assert full == FullHull(t) && live == LiveHull(t);
    range := (if treeDel || allAlive then full else live).value;
  }

  /** Takes note of what happened below a node whose own fields stand. */
  ghost method Retie(root: KdNode)
    requires root.Linked() && ValidOrNull(root.left) && ValidOrNull(root.right)
    modifies root`tree
    ensures root.Valid() && root.tree == old(root.Here(TreeOf(root.left), TreeOf(root.right)))
  {
    root.tree := root.Here(TreeOf(root.left), TreeOf(root.right));
    root.Close();
  }

  method MarkNodeDeleted(root: KdNode, ds: bool)
    requires root.Valid()
    modifies root
    ensures root.Valid() && old(root.tree).Node? && root.tree == MarkDeleted(old(root.tree), ds)
    ensures root.repr == old(root.repr)
  {
    hide MarkDeleted;
    root.Open();
    root.TakeDeletion(ds, TreeOf(root.left), TreeOf(root.right));
    root.Close();
  }
}
