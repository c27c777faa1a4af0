/** Edits keep the tree ordered, balanced and mostly live; a balanced tree is shallow. */
module Shape {
  import opened Geometry
  import opened Multisets
  import opened Select
  import opened Tree
  import opened Invariant
  import opened Rebuilding
  import opened Edits

  // ---- Push-downs ----

  lemma {:induction false} ToldShape(t: Tree, s: Tree, pending: bool)
    requires t.Node? && Inv(s) && Local(t)
    requires if t.treeDel then Obeys(t, s, pending) else Harmless(s, pending)
    ensures Balanced(s) ==> Balanced(Told(t, s, pending))
    ensures Ordered(s) ==> Ordered(Told(t, s, pending))
    ensures Size(Told(t, s, pending)) == Size(s) && Points(Told(t, s, pending)) == Points(s)
  {
    if pending && s.Node? { PushToInv(t, s); }
  }

  lemma {:induction false} PushDownBalanced(t: Tree)
    requires Inv(t) && Balanced(t)
    ensures Balanced(PushDown(t))
  {
    if t.Node? {
      ToldShape(t, t.left, t.pushL);
      ToldShape(t, t.right, t.pushR);
      hide Inv, Told, Points, Ordered;
    }
  }

  lemma {:induction false} PushDownOrdered(t: Tree)
    requires Inv(t) && Ordered(t)
    ensures Ordered(PushDown(t))
  {
    if t.Node? {
      ToldShape(t, t.left, t.pushL);
      ToldShape(t, t.right, t.pushR);
      hide Inv, Told, Points, Balanced;
    }
  }

  // ---- The end of an edit ----

  lemma {:induction false} UnruffledIsBalanced(w: Tree)
    requires w.Node? && Inv(w) && Balanced(w.left) && Balanced(w.right) && !Criterion(w)
    ensures Balanced(w)
  {
    Counts(w.left);
    Counts(w.right);
    assert w.size == 1 + Size(w.left) + Size(w.right);
    hide Inv, Points, Live;
  }

  lemma {:induction false} SettleBalanced(v: Tree)
    requires v.Node? && Updatable(v) && Balanced(v.left) && Balanced(v.right)
    ensures Balanced(Settle(Update(v), true).tree)
  {
    hide *;
    UpdateInv(v);
    var w := Update(v);
    BuiltShape(w);
    if !Criterion(w) { UnruffledIsBalanced(w); }
    SettleCases(w, true);
  }

  lemma SettleCases(w: Tree, allow: bool)
    requires w.Node?
    ensures Settle(w, allow).tree == if allow && Criterion(w) then Build(Flatten(w)) else w
  {
  }

  lemma {:induction false} BuiltShape(w: Tree)
    requires Inv(w)
    ensures Balanced(Build(Flatten(w))) && Ordered(Build(Flatten(w)))
  {
    BuildCorrect(Flatten(w));
    hide Balanced, Ordered, Inv, Build, Flatten;
  }

  /** A node whose sons hold only points that were on the right side of it. */
  lemma {:induction false} SettleOrdered(v: Tree, allow: bool, l: multiset<Point>, r: multiset<Point>)
    requires Updatable(v) && Ordered(v.left) && Ordered(v.right)
    requires Points(v.left) <= l && NoneAbove(l, v.axis, v.point)
    requires Points(v.right) <= r && NoneBelow(r, v.axis, v.point)
    ensures Ordered(Settle(Update(v), allow).tree)
  {
    UpdateInv(v);
    var w := Update(v);
    BuiltShape(w);
    SettleCases(w, allow);
    hide Inv, Settle, Points, Update, Build;
  }

  // ---- Stored points ----

  /** Every point stored before an insertion, and the new one, is stored, reported or forgotten after
      it, occurrence by occurrence. */
  lemma {:induction false} GrownPoints(t: Tree, p: Point, e: Edited, forgot: multiset<Point>)
    requires Inv(t) && Grown(t, p, e, forgot)
    ensures forgot + multiset(e.recorded) + Points(e.tree) == Points(t) + multiset{p}
  {
    hide *;
    GrownGives(t, p, e, forgot);
    GrownLiveIs(t, p, e, forgot);
    LiveIsAlive(t);
    LiveIsAlive(e.tree);
    PartitionOf(t);
    PartitionOf(e.tree);
    GrownAccounted(Live(t), Of(t, Boxed), Of(t, Dropped), p, Of(e.tree, Boxed), Of(e.tree, Dropped),
                   multiset(e.recorded), forgot);
  }

  lemma GrownLiveIs(t: Tree, p: Point, e: Edited, forgot: multiset<Point>)
    requires Grown(t, p, e, forgot)
    ensures Live(e.tree) == Live(t) + multiset{p}
  {
  }

  lemma GrownAccounted(live: multiset<Point>, boxed: multiset<Point>, dropped: multiset<Point>, p: Point,
                       boxed': multiset<Point>, dropped': multiset<Point>, recorded: multiset<Point>,
                       forgot: multiset<Point>)
    requires recorded + boxed' == boxed && forgot + dropped' == dropped
    ensures forgot + recorded + (live + multiset{p} + boxed' + dropped') == live + boxed + dropped + multiset{p}
  {
  }

  /** Every point stored before a deletion is stored, reported or forgotten after it. */
  lemma {:induction false} ShrunkPoints(t: Tree, b: Box, ds: bool, e: Removal, toll: Toll)
    requires Inv(t) && Shrunk(t, b, ds, e, toll)
    ensures toll.forgotten + multiset(e.recorded) + Points(e.tree) == Points(t)
  {
    LiveIsAlive(t);
    LiveIsAlive(e.tree);
    PartitionOf(t);
    PartitionOf(e.tree);
    hide Inv, Live, Of, Points, Inside, Outside, Retained;
    InsideOutside(Live(t), b);
    Accounted(Live(t), Of(t, Boxed), Of(t, Dropped), Inside(Live(t), b), Outside(Live(t), b), ds,
              Of(e.tree, Boxed), Of(e.tree, Dropped), multiset(e.recorded), toll);
  }

  lemma Accounted(live: multiset<Point>, boxed: multiset<Point>, dropped: multiset<Point>, hit: multiset<Point>,
                  kept: multiset<Point>, ds: bool, boxed': multiset<Point>, dropped': multiset<Point>,
                  recorded: multiset<Point>, toll: Toll)
    requires live == hit + kept && Retained(boxed, dropped, hit, ds, boxed', dropped', recorded, toll)
    ensures toll.forgotten + recorded + (kept + boxed' + dropped') == live + boxed + dropped
  {
    forall q ensures (toll.forgotten + recorded + (kept + boxed' + dropped'))[q] == (live + boxed + dropped)[q] {
      assert ((recorded + toll.relabelled) + boxed')[q] == (boxed + When(!ds, hit))[q];
      assert (toll.forgotten + dropped')[q] == (dropped + (toll.relabelled + When(ds, hit)))[q];
    }
  }

  lemma OnlyStored(t: Tree, rec: seq<Point>, forgot: multiset<Point>, m: multiset<Point>)
    requires forgot + multiset(rec) + Points(t) == m
    ensures Points(t) <= m
  {
    hide Points;
    assert Points(t) <= forgot + multiset(rec) + Points(t);
  }

  // ---- Insertion ----

  lemma {:induction false} AddPointBalanced(t: Tree, p: Point, a: Axis)
    requires Inv(t) && Balanced(t)
    ensures Balanced(AddPoint(t, p, true, a).tree)
    decreases Nodes(t)
  {
    if t.Nil? {
    } else {
      AddBalancedNode(t, p, a);
    }
  }

  lemma {:induction false} AddBalancedNode(t: Tree, p: Point, a: Axis)
    requires t.Node? && Inv(t) && Balanced(t)
    ensures Balanced(AddPoint(t, p, true, a).tree)
    decreases Nodes(t), 0
  {
    hide *;
    PushDownFacts(t);
    PushDownBalanced(t);
    AddStep(t, p, true, a);
    var u := PushDown(t);
    BalancedSons(u);
    AddUpdatable(u, p, true, a);
    if Below(u.axis, p, u.point) {
      AddPointBalanced(u.left, p, u.axis);
      SettleBalanced(u.(left := AddPoint(u.left, p, true, u.axis).tree));
    } else {
      AddPointBalanced(u.right, p, u.axis);
      SettleBalanced(u.(right := AddPoint(u.right, p, true, u.axis).tree));
    }
  }

  lemma BalancedSons(t: Tree)
    requires t.Node? && Balanced(t)
    ensures Balanced(t.left) && Balanced(t.right)
  {
  }

  lemma OrderedSons(t: Tree)
    requires t.Node? && Ordered(t)
    ensures Ordered(t.left) && Ordered(t.right)
    ensures NoneAbove(Points(t.left), t.axis, t.point) && NoneBelow(Points(t.right), t.axis, t.point)
  {
  }

  lemma {:induction false} AddUpdatable(u: Tree, p: Point, allow: bool, a: Axis)
    requires u.Node? && Inv(u.left) && Inv(u.right) && Settled(u) && (u.pointDs ==> u.pointDel)
    ensures Updatable(u.(left := AddPoint(u.left, p, allow, u.axis).tree))
    ensures Updatable(u.(right := AddPoint(u.right, p, allow, u.axis).tree))
  {
    AddPointExact(u.left, p, allow, u.axis);
    AddPointExact(u.right, p, allow, u.axis);
    hide Inv, AddPoint;
    Reseat(u, AddPoint(u.left, p, allow, u.axis).tree, u.right, u.pointDel, u.pointDs);
    Reseat(u, u.left, AddPoint(u.right, p, allow, u.axis).tree, u.pointDel, u.pointDs);
  }

  lemma {:induction false} AddPointOrdered(t: Tree, p: Point, allow: bool, a: Axis)
    requires Inv(t) && Ordered(t)
    ensures Ordered(AddPoint(t, p, allow, a).tree)
    decreases Nodes(t)
  {
    if t.Node? {
      AddOrderedNode(t, p, allow, a);
    }
  }

  lemma {:induction false} AddOrderedNode(t: Tree, p: Point, allow: bool, a: Axis)
    requires t.Node? && Inv(t) && Ordered(t)
    ensures Ordered(AddPoint(t, p, allow, a).tree)
    decreases Nodes(t), 0
  {
    hide *;
    PushDownFacts(t);
    PushDownOrdered(t);
    AddStep(t, p, allow, a);
    var u := PushDown(t);
    OrderedSons(u);
    AddUpdatable(u, p, allow, a);
    NoneAdded(u, p);
    if Below(u.axis, p, u.point) {
      AddPointOrdered(u.left, p, allow, u.axis);
      AddPointExact(u.left, p, allow, u.axis);
      var l := AddPoint(u.left, p, allow, u.axis);
      GrownPoints(u.left, p, l, AddForgot(u.left, p, allow, u.axis));
      OnlyStored(l.tree, l.recorded, AddForgot(u.left, p, allow, u.axis), Points(u.left) + multiset{p});
      SettleOrdered(u.(left := l.tree), allow, Points(u.left) + multiset{p}, Points(u.right));
    } else {
      AddPointOrdered(u.right, p, allow, u.axis);
      AddPointExact(u.right, p, allow, u.axis);
      var r := AddPoint(u.right, p, allow, u.axis);
      GrownPoints(u.right, p, r, AddForgot(u.right, p, allow, u.axis));
      OnlyStored(r.tree, r.recorded, AddForgot(u.right, p, allow, u.axis), Points(u.right) + multiset{p});
      SettleOrdered(u.(right := r.tree), allow, Points(u.left), Points(u.right) + multiset{p});
    }
  }

  lemma NoneAdded(u: Tree, p: Point)
    requires u.Node?
    requires NoneAbove(Points(u.left), u.axis, u.point) && NoneBelow(Points(u.right), u.axis, u.point)
    ensures if Below(u.axis, p, u.point) then NoneAbove(Points(u.left) + multiset{p}, u.axis, u.point)
            else NoneBelow(Points(u.right) + multiset{p}, u.axis, u.point)
  {
    hide Points;
  }

  // ---- Deletion ----

  lemma {:induction false} MarkDeletedShape(u: Tree, ds: bool)
    requires u.Node?
    ensures Balanced(u) ==> Balanced(MarkDeleted(u, ds))
    ensures Ordered(u) ==> Ordered(MarkDeleted(u, ds))
  {
  }

  lemma {:induction false} DeleteRangeBalanced(t: Tree, b: Box, ds: bool)
    requires Inv(t) && Balanced(t)
    ensures Balanced(DeleteRange(t, b, true, ds).tree)
    decreases Nodes(t), 1
  {
    if !Dead(t) {
      DeleteBalancedNode(t, b, ds);
    }
  }

  lemma {:induction false} DeleteBalancedNode(t: Tree, b: Box, ds: bool)
    requires t.Node? && !Dead(t) && !t.treeDel && Inv(t) && Balanced(t)
    ensures Balanced(DeleteRange(t, b, true, ds).tree)
    decreases Nodes(t), 0
  {
    hide *;
    PushDownFacts(t);
    PushDownBalanced(t);
    DeleteStep(t, b, true, ds);
    var u := PushDown(t);
    MarkDeletedShape(u, ds);
    BalancedSons(u);
    var l, r := DeleteRange(u.left, b, true, ds), DeleteRange(u.right, b, true, ds);
    DeleteRangeBalanced(u.left, b, ds);
    DeleteRangeBalanced(u.right, b, ds);
    DeleteUpdatable(u, b, true, ds);
    StruckSons(u, b, ds, l.tree, r.tree);
    SettleBalanced(Struck(u, b, ds, l.tree, r.tree));
  }

  lemma StruckSons(u: Tree, b: Box, ds: bool, l: Tree, r: Tree)
    requires u.Node?
    ensures var v := Struck(u, b, ds, l, r);
      v.Node? && v.left == l && v.right == r && v.axis == u.axis && v.point == u.point
  {
  }

  lemma {:induction false} DeleteUpdatable(u: Tree, b: Box, allow: bool, ds: bool)
    requires u.Node? && Inv(u.left) && Inv(u.right) && Settled(u) && (u.pointDs ==> u.pointDel)
    ensures Updatable(Struck(u, b, ds, DeleteRange(u.left, b, allow, ds).tree, DeleteRange(u.right, b, allow, ds).tree))
  {
    DeleteRangeExact(u.left, b, allow, ds);
    DeleteRangeExact(u.right, b, allow, ds);
    hide Inv, DeleteRange, Live, Of;
    StruckUpdatable(u, b, ds, DeleteRange(u.left, b, allow, ds), DeleteRange(u.right, b, allow, ds));
  }

  lemma {:induction false} DeleteRangeOrdered(t: Tree, b: Box, allow: bool, ds: bool)
    requires Inv(t) && Ordered(t)
    ensures Ordered(DeleteRange(t, b, allow, ds).tree)
    decreases Nodes(t), 1
  {
    if !Dead(t) {
      DeleteOrderedNode(t, b, allow, ds);
    }
  }

  lemma {:induction false} DeleteOrderedNode(t: Tree, b: Box, allow: bool, ds: bool)
    requires t.Node? && !Dead(t) && !t.treeDel && Inv(t) && Ordered(t)
    ensures Ordered(DeleteRange(t, b, allow, ds).tree)
    decreases Nodes(t), 0
  {
    hide *;
    PushDownFacts(t);
    PushDownOrdered(t);
    DeleteStep(t, b, allow, ds);
    var u := PushDown(t);
    MarkDeletedShape(u, ds);
    OrderedSons(u);
    var l, r := DeleteRange(u.left, b, allow, ds), DeleteRange(u.right, b, allow, ds);
    DeleteRangeOrdered(u.left, b, allow, ds);
    DeleteRangeOrdered(u.right, b, allow, ds);
    DeleteRangeExact(u.left, b, allow, ds);
    DeleteRangeExact(u.right, b, allow, ds);
    ShrunkPoints(u.left, b, ds, l, DeleteToll(u.left, b, allow, ds));
    ShrunkPoints(u.right, b, ds, r, DeleteToll(u.right, b, allow, ds));
    OnlyStored(l.tree, l.recorded, DeleteToll(u.left, b, allow, ds).forgotten, Points(u.left));
    OnlyStored(r.tree, r.recorded, DeleteToll(u.right, b, allow, ds).forgotten, Points(u.right));
    DeleteUpdatable(u, b, allow, ds);
    StruckSons(u, b, ds, l.tree, r.tree);
    SettleOrdered(Struck(u, b, ds, l.tree, r.tree), allow, Points(u.left), Points(u.right));
  }

  // ---- Where a new point goes ----

  lemma PushDownNode(t: Tree)
    requires t.Node?
    ensures var u := PushDown(t);
      && u.Node? && u.point == t.point && u.axis == t.axis
      && (u.left.Nil? <==> t.left.Nil?) && (u.right.Nil? <==> t.right.Nil?)
  {
  }

  /** `s` with `p` in it; below a node of axis `a` a leaf of its own splits on the axis after that. */
  ghost predicate Gained(s: Tree, s': Tree, p: Point, a: Axis) {
    && Points(s') == Points(s) + multiset{p}
    && (s.Nil? ==> s'.Node? && s'.axis == if a == 2 then 0 else a + 1)
  }

  lemma {:induction false} SonGains(s: Tree, p: Point, a: Axis)
    requires Inv(s)
    ensures Gained(s, AddPoint(s, p, false, a).tree, p, a)
  {
    hide Inv, Points, AddPoint, AddForgot, Grown;
    AddPointExact(s, p, false, a);
    AddLeavesNothing(s, p, a);
    GrownPoints(s, p, AddPoint(s, p, false, a), AddForgot(s, p, false, a));
    LeafAxis(p, a);
    var e := AddPoint(s, p, false, a);
    assert multiset{} + multiset(e.recorded) + Points(e.tree) == Points(e.tree);
  }

  lemma LeafAxis(p: Point, a: Axis)
    ensures var l := AddPoint(Nil, p, false, a).tree; l.Node? && l.axis == if a == 2 then 0 else a + 1
  {
  }

  /** A point goes left of a node exactly when it is strictly below it on the node's axis. */
  lemma {:induction false} AddGoes(t: Tree, p: Point, a: Axis)
    requires t.Node? && Inv(t)
    ensures var r := AddPoint(t, p, false, a).tree;
      && r.Node? && r.point == t.point && r.axis == t.axis
      && if Coord(p, t.axis) < Coord(t.point, t.axis)
         then Gained(t.left, r.left, p, t.axis) && Points(r.right) == Points(t.right)
         else Gained(t.right, r.right, p, t.axis) && Points(r.left) == Points(t.left)
  {
    hide Inv, Points, AddPoint, PushDown, Coord, Settle;
    PushDownFacts(t);
    PushDownNode(t);
    PushDownPoints(t);
    AddStep(t, p, false, a);
    var u := PushDown(t);
    SonGains(u.left, p, u.axis);
    SonGains(u.right, p, u.axis);
    UnallowedSettles(Update(u.(left := AddPoint(u.left, p, false, u.axis).tree)));
    UnallowedSettles(Update(u.(right := AddPoint(u.right, p, false, u.axis).tree)));
    hide Update;
  }

  // ---- When an edit rebuilds ----

  /** With a live point under it a node is rebuilt exactly when it is out of balance. */
  lemma {:induction false} RebuiltIff(w: Tree)
    requires w.Node? && Inv(w) && !w.treeDel
    ensures Criterion(w) <==> !BalancedNode(w)
  {
    Counts(w.left);
    Counts(w.right);
    assert w.size == 1 + Size(w.left) + Size(w.right);
    hide Inv, Points, Live;
  }

  /** So a node in balance is left alone. */
  lemma {:induction false} BalancedSettles(w: Tree, allow: bool)
    requires w.Node? && Inv(w) && !w.treeDel && BalancedNode(w)
    ensures Settle(w, allow) == Edited(w, [])
  {
    RebuiltIff(w);
    hide Inv, Criterion, BalancedNode, Build, Flatten, Recorded;
  }

  lemma BalancedSelf(w: Tree)
    requires w.Node? && Balanced(w)
    ensures BalancedNode(w)
  {
  }

  lemma UnallowedSettles(w: Tree)
    requires w.Node?
    ensures Settle(w, false) == Edited(w, [])
  {
  }

  lemma UpdateSons(v: Tree)
    requires v.Node?
    ensures var w := Update(v); w.Node? && w.left == v.left && w.right == v.right
  {
  }

  lemma GrownAlive(t: Tree, p: Point, e: Edited, forgot: multiset<Point>)
    requires Grown(t, p, e, forgot)
    ensures e.tree.Node? && !e.tree.treeDel
  {
  }

  /** An insertion that leaves every node in balance rebuilds nothing. */
  lemma {:induction false} AddIdle(t: Tree, p: Point, a: Axis)
    requires Inv(t) && Balanced(AddPoint(t, p, false, a).tree)
    ensures AddPoint(t, p, true, a) == AddPoint(t, p, false, a)
    decreases Nodes(t), 1
  {
    if t.Node? { AddIdleNode(t, p, a); }
  }

  lemma {:induction false} AddIdleNode(t: Tree, p: Point, a: Axis)
    requires t.Node? && Inv(t) && Balanced(AddPoint(t, p, false, a).tree)
    ensures AddPoint(t, p, true, a) == AddPoint(t, p, false, a)
    decreases Nodes(t), 0
  {
    hide *;
    PushDownFacts(t);
    AddStep(t, p, false, a);
    AddStep(t, p, true, a);
    AddPointExact(t, p, false, a);
    GrownAlive(t, p, AddPoint(t, p, false, a), AddForgot(t, p, false, a));
    var u := PushDown(t);
    AddUpdatable(u, p, false, a);
    var left := Below(u.axis, p, u.point);
    var v := if left then u.(left := AddPoint(u.left, p, false, u.axis).tree)
             else u.(right := AddPoint(u.right, p, false, u.axis).tree);
    var w := Update(v);
    UnallowedSettles(w);
    UpdateSons(v);
    UpdateInv(v);
    BalancedSons(w);
    BalancedSelf(w);
    BalancedSettles(w, true);
    if left { AddIdle(u.left, p, u.axis); } else { AddIdle(u.right, p, u.axis); }
  }

  /** Nor does a deletion. */
  lemma {:induction false} DeleteIdle(t: Tree, b: Box, ds: bool)
    requires Inv(t) && Balanced(DeleteRange(t, b, false, ds).tree)
    ensures DeleteRange(t, b, true, ds) == DeleteRange(t, b, false, ds)
    decreases Nodes(t), 1
  {
    if !Dead(t) { DeleteIdleNode(t, b, ds); }
  }

  lemma {:induction false} DeleteIdleNode(t: Tree, b: Box, ds: bool)
    requires !Dead(t) && Inv(t) && Balanced(DeleteRange(t, b, false, ds).tree)
    ensures DeleteRange(t, b, true, ds) == DeleteRange(t, b, false, ds)
    decreases Nodes(t), 0
  {
    hide *;
    LiveNode(t);
    PushDownFacts(t);
    DeleteStep(t, b, false, ds);
    DeleteStep(t, b, true, ds);
    var u := PushDown(t);
    if !Misses(b, u.range) && !Covers(b, u.range) {
      var l, r := DeleteRange(u.left, b, false, ds), DeleteRange(u.right, b, false, ds);
      var v := Struck(u, b, ds, l.tree, r.tree);
      var w := Update(v);
      DeleteUpdatable(u, b, false, ds);
      StruckSons(u, b, ds, l.tree, r.tree);
      UnallowedSettles(w);
      UpdateSons(v);
      UpdateInv(v);
      SurvivorAlive(t, b, ds);
      BalancedSons(w);
      BalancedSelf(w);
      BalancedSettles(w, true);
      DeleteIdle(u.left, b, ds);
      DeleteIdle(u.right, b, ds);
    }
  }

  lemma LiveNode(t: Tree)
    requires !Dead(t)
    ensures t.Node? && !t.treeDel
  {
  }

  lemma {:induction false} SurvivorAlive(t: Tree, b: Box, ds: bool)
    requires !Dead(t) && Inv(t) && !Covers(b, PushDown(t).range)
    ensures var r := DeleteRange(t, b, false, ds).tree; r.Node? && !r.treeDel
  {
    hide *;
    LiveNode(t);
    PushDownFacts(t);
    var p := LivingSurvivor(PushDown(t), b);
    DeleteRangeExact(t, b, false, ds);
    ShrunkMeans(t, b, ds, DeleteRange(t, b, false, ds), DeleteToll(t, b, false, ds));
    assert p in Outside(Live(t), b);
    RangeIsExact(DeleteRange(t, b, false, ds).tree);
    DeadIs(DeleteRange(t, b, false, ds).tree);
  }

  lemma DeadIs(t: Tree)
    ensures Dead(t) <==> t.Nil? || t.treeDel
  {
  }

  /** An insertion into a balanced tree rebuilds something if and only if, left alone, a node would be
      out of balance; otherwise it records and forgets nothing. */
  lemma {:induction false} AddRebuildsIff(t: Tree, p: Point, a: Axis)
    requires Inv(t) && Balanced(t)
    ensures AddPoint(t, p, true, a) == AddPoint(t, p, false, a) <==> Balanced(AddPoint(t, p, false, a).tree)
  {
    hide *;
    AddPointBalanced(t, p, a);
    if Balanced(AddPoint(t, p, false, a).tree) { AddIdle(t, p, a); }
  }

  /** And so for deletions. */
  lemma {:induction false} DeleteRebuildsIff(t: Tree, b: Box, ds: bool)
    requires Inv(t) && Balanced(t)
    ensures DeleteRange(t, b, true, ds) == DeleteRange(t, b, false, ds) <==> Balanced(DeleteRange(t, b, false, ds).tree)
  {
    hide *;
    DeleteRangeBalanced(t, b, ds);
    if Balanced(DeleteRange(t, b, false, ds).tree) { DeleteIdle(t, b, ds); }
  }

  // ---- Height ----

  ghost function Height(t: Tree): nat {
    if t.Nil? then 0
    else 1 + if Height(t.left) > Height(t.right) then Height(t.left) else Height(t.right)
  }

  ghost function Pow(b: nat, e: nat): (r: nat)
    ensures b > 0 ==> r > 0
  {
    if e == 0 then 1 else b * Pow(b, e - 1)
  }

  lemma {:induction false} HeightBelowSize(t: Tree)
    requires Inv(t)
    ensures Height(t) <= Size(t)
  {
    if t.Node? {
      HeightBelowSize(t.left);
      HeightBelowSize(t.right);
    }
  }

  /** Beyond the first ten levels the size grows by 5/3 a level: the height is logarithmic. */
  lemma {:induction false} HeightIsLogarithmic(t: Tree)
    requires Inv(t) && Balanced(t) && Height(t) > 10
    ensures Pow(5, Height(t) - 10) <= Pow(3, Height(t) - 10) * Size(t)
    decreases Height(t)
  {
    hide *;
    HeightBelowSize(t);
    var s := TallerSon(t);
    var h := Height(s) - 10;
    HeightBelowSize(s);
    if h > 0 {
      HeightIsLogarithmic(s);
    } else {
      PowZero();
    }
    PowStep(h);
    GrowthStep(Pow(5, h), Pow(3, h), Size(s), Size(t));
  }

  lemma PowZero()
    ensures Pow(5, 0) == 1 == Pow(3, 0)
  {
  }

  lemma PowStep(h: nat)
    ensures Pow(5, h + 1) == 5 * Pow(5, h) && Pow(3, h + 1) == 3 * Pow(3, h)
  {
  }

  lemma {:induction false} TallerSon(t: Tree) returns (s: Tree)
    requires Inv(t) && Balanced(t) && Size(t) > 10 && Height(t) > 0
    ensures Inv(s) && Balanced(s) && Height(t) == Height(s) + 1 && 5 * Size(s) <= 3 * (Size(t) - 1)
  {
    s := if Height(t.left) > Height(t.right) then t.left else t.right;
  }

  lemma GrowthStep(p5: int, p3: int, s: int, n: int)
    requires p3 > 0 && p5 <= p3 * s && 5 * s <= 3 * n
    ensures 5 * p5 <= 3 * p3 * n
  {
    assert 5 * p5 <= p3 * (5 * s) <= p3 * (3 * n);
  }
}
