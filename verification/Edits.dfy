/** Insertions and deletions on the lazily flagged tree are insertions and deletions on a multiset. */
module Edits {
  import opened Geometry
  import opened Multisets
  import opened Select
  import opened Tree
  import opened Invariant
  import opened Rebuilding

  /** The sum of a node's own part and its sons', for one status. */
  ghost function Parts(v: Tree, s: Status): multiset<Point>
    requires v.Node?
  {
    Own(Mark(v.pointDel, v.pointDs) == s, v.point) + Of(v.left, s) + Of(v.right, s)
  }

  ghost function LiveParts(v: Tree): multiset<Point>
    requires v.Node?
  {
    Own(!v.pointDel, v.point) + Live(v.left) + Live(v.right)
  }

  // ---- The end of an edit ----

  /** What a rebuild forgets: the points downsampling had deleted below the rebuilt node. */
  ghost function SettleForgot(w: Tree, allow: bool): multiset<Point>
    requires w.Node?
  {
    if allow && Criterion(w) then Of(w, Dropped) else multiset{}
  }

  /** The same live points, the boxed ones reported or kept, the dropped ones forgotten or kept. */
  ghost predicate Preserved(w: Tree, f: Edited, forgot: multiset<Point>) {
    && Inv(f.tree) && f.tree.Node? && !f.tree.treeDel && Live(f.tree) == Live(w)
    && multiset(f.recorded) + Of(f.tree, Boxed) == Of(w, Boxed)
    && forgot + Of(f.tree, Dropped) == Of(w, Dropped)
  }

  lemma {:induction false} RebuildPreserves(w: Tree)
    requires w.Node? && Inv(w) && Live(w) != multiset{}
    ensures Preserved(w, Edited(Build(Flatten(w)), Recorded(w)), Of(w, Dropped))
  {
    hide Inv, Live, Held, Flatten, Recorded, Build, Points, Balanced, Ordered;
    RebuildExact(w);
    assert Flatten(w) != [];
  }

  lemma {:induction false} NothingPreserves(w: Tree)
    requires w.Node? && Inv(w) && Live(w) != multiset{}
    ensures Preserved(w, Edited(w, []), multiset{})
  {
    assert !w.treeDel;
    hide Inv, Live, Held;
  }

  /** The last step of an edit keeps the live points; a rebuild reports the boxed points and forgets
      the dropped ones. */
  lemma {:induction false} SettlePreserves(w: Tree, allow: bool)
    requires w.Node? && Inv(w) && Live(w) != multiset{}
    ensures Preserved(w, Settle(w, allow), SettleForgot(w, allow))
  {
    RebuildPreserves(w);
    NothingPreserves(w);
    hide Preserved;
  }

  /** The end of every edit: the node stands for the sum of its parts. */
  lemma {:induction false} RejoinExact(v: Tree, allow: bool)
    requires Updatable(v) && LiveParts(v) != multiset{}
    ensures var f := Settle(Update(v), allow);
      && Inv(f.tree) && f.tree.Node? && !f.tree.treeDel && Live(f.tree) == LiveParts(v)
      && multiset(f.recorded) + Of(f.tree, Boxed) == Parts(v, Boxed)
      && SettleForgot(Update(v), allow) + Of(f.tree, Dropped) == Parts(v, Dropped)
  {
    hide Inv, Live, Held, Update, Settle, Points, SettleForgot;
    UpdateInv(v);
    UpdateHeld(v, Boxed);
    UpdateHeld(v, Dropped);
    SettlePreserves(Update(v), allow);
  }

  // ---- Insertion ----

  /** What the rebuilds of an insertion forget on the way up. */
  ghost function AddForgot(t: Tree, p: Point, allow: bool, fatherAxis: Axis): multiset<Point>
    decreases Nodes(t)
  {
    if t.Nil? then multiset{}
    else
      var u := PushDown(t);
      if Below(u.axis, p, u.point) then
        var l := AddPoint(u.left, p, allow, u.axis);
        AddForgot(u.left, p, allow, u.axis) + SettleForgot(Update(u.(left := l.tree)), allow)
      else
        var r := AddPoint(u.right, p, allow, u.axis);
        AddForgot(u.right, p, allow, u.axis) + SettleForgot(Update(u.(right := r.tree)), allow)
  }

  /** What an insertion promises of its result: one live point more, the boxed points kept or
      reported, the dropped ones kept or, `forgot`, forgotten. */
  ghost predicate Grown(t: Tree, p: Point, e: Edited, forgot: multiset<Point>) {
    && Inv(e.tree) && e.tree.Node? && !e.tree.treeDel
    && Live(e.tree) == Live(t) + multiset{p}
    && multiset(e.recorded) + Of(e.tree, Boxed) == Of(t, Boxed)
    && forgot + Of(e.tree, Dropped) == Of(t, Dropped)
  }

  lemma {:induction false} GrownLeaf(p: Point, a: Axis)
    ensures Grown(Nil, p, Edited(Fresh(p, a, Nil, Nil), []), multiset{}) && LiveLeaf(Fresh(p, a, Nil, Nil))
  {
    FreshShape(p, a, Nil, Nil);
    FreshClean(p, a, Nil, Nil, Boxed);
    FreshClean(p, a, Nil, Nil, Dropped);
  }

  /** A pushed-down node with its sons replaced by edited ones may be updated. */
  lemma {:induction false} Reseat(u: Tree, l: Tree, r: Tree, pointDel: bool, pointDs: bool)
    requires u.Node? && Settled(u) && Inv(l) && Inv(r) && (pointDs ==> pointDel)
    requires u.left.Nil? ==> l.Nil? || LiveLeaf(l)
    requires u.right.Nil? ==> r.Nil? || LiveLeaf(r)
    ensures Updatable(u.(left := l, right := r, pointDel := pointDel, pointDs := pointDs))
  {
    hide Inv;
  }

  /** `u` with one son grown, as a sum of parts. */
  lemma {:induction false} GrownParts(t: Tree, p: Point, u: Tree, v: Tree, x: Tree, l: Edited, rest: Tree, f: Edited,
                                      lf: multiset<Point>, ff: multiset<Point>)
    requires Grown(x, p, l, lf) && OneSonGrown(u, v, x, l, rest)
    requires Live(t) == LiveParts(u) && Of(t, Boxed) == Parts(u, Boxed) && Of(t, Dropped) == Parts(u, Dropped)
    requires Inv(f.tree) && f.tree.Node? && !f.tree.treeDel && Live(f.tree) == LiveParts(v)
    requires multiset(f.recorded) + Of(f.tree, Boxed) == Parts(v, Boxed) && ff + Of(f.tree, Dropped) == Parts(v, Dropped)
    ensures Grown(t, p, Edited(f.tree, l.recorded + f.recorded), lf + ff)
  {
    hide *;
    GrownLive(t, p, u, v, x, l, rest, f, lf);
    GrownGives(x, p, l, lf);
    GrownStatus(t, u, v, x, l, rest, f, Boxed, multiset(l.recorded), multiset(f.recorded));
    GrownStatus(t, u, v, x, l, rest, f, Dropped, lf, ff);
    GrownIs(t, p, f, l.recorded, lf, ff);
  }

  lemma GrownGives(x: Tree, p: Point, l: Edited, forgot: multiset<Point>)
    requires Grown(x, p, l, forgot)
    ensures multiset(l.recorded) + Of(l.tree, Boxed) == Of(x, Boxed) && forgot + Of(l.tree, Dropped) == Of(x, Dropped)
    ensures Inv(l.tree) && l.tree.Node?
  {
  }

  lemma GrownIs(t: Tree, p: Point, f: Edited, recorded: seq<Point>, lf: multiset<Point>, ff: multiset<Point>)
    requires Inv(f.tree) && f.tree.Node? && !f.tree.treeDel && Live(f.tree) == Live(t) + multiset{p}
    requires multiset(recorded) + (multiset(f.recorded) + Of(f.tree, Boxed)) == Of(t, Boxed)
    requires lf + (ff + Of(f.tree, Dropped)) == Of(t, Dropped)
    ensures Grown(t, p, Edited(f.tree, recorded + f.recorded), lf + ff)
  {
    hide Inv, Live, Held, Of;
  }

  /** `v` is `u` with the son `x` replaced by what it grew to, the other son being `rest`. */
  ghost predicate OneSonGrown(u: Tree, v: Tree, x: Tree, l: Edited, rest: Tree) {
    && u.Node? && v.Node? && v == u.(left := v.left, right := v.right)
    && ((u.left == x && u.right == rest && v.left == l.tree && v.right == rest)
     || (u.left == rest && u.right == x && v.left == rest && v.right == l.tree))
  }

  lemma {:induction false} GrownLive(t: Tree, p: Point, u: Tree, v: Tree, x: Tree, l: Edited, rest: Tree, f: Edited,
                                     lf: multiset<Point>)
    requires Grown(x, p, l, lf) && OneSonGrown(u, v, x, l, rest)
    requires Live(t) == LiveParts(u) && Live(f.tree) == LiveParts(v)
    ensures Live(f.tree) == Live(t) + multiset{p}
  {
    hide Inv, Live, Held, Of;
    var o := Own(!u.pointDel, u.point);
    Shuffle(Live(t), o, Live(x), Live(rest));
    Shuffle(Live(f.tree), o, Live(l.tree), Live(rest));
    Replace(o, Live(x), Live(l.tree), Live(rest), multiset{p}, Live(f.tree));
  }

  /** The boxed or the dropped points: `out` left them below, `out'` at the end of the edit. */
  lemma {:induction false} GrownStatus(t: Tree, u: Tree, v: Tree, x: Tree, l: Edited, rest: Tree, f: Edited,
                                       s: Status, out: multiset<Point>, out': multiset<Point>)
    requires OneSonGrown(u, v, x, l, rest) && out + Of(l.tree, s) == Of(x, s)
    requires Of(t, s) == Parts(u, s) && out' + Of(f.tree, s) == Parts(v, s)
    ensures out + (out' + Of(f.tree, s)) == Of(t, s)
  {
    hide Inv, Live, Held, Of;
    var o := Own(Mark(u.pointDel, u.pointDs) == s, u.point);
    var w := out' + Of(f.tree, s);
    Shuffle(Of(t, s), o, Of(x, s), Of(rest, s));
    Shuffle(w, o, Of(l.tree, s), Of(rest, s));
    Replace(o, Of(x, s), Of(l.tree, s), Of(rest, s), out, w);
  }

  lemma {:induction false} GrownNotEmpty(t: Tree, p: Point, e: Edited, v: Tree, forgot: multiset<Point>)
    requires Grown(t, p, e, forgot) && v.Node? && (v.left == e.tree || v.right == e.tree)
    ensures Inv(e.tree) && LiveParts(v) != multiset{}
  {
    hide Inv, Live, Held;
    assert p in Live(e.tree);
  }

  lemma GrownSonLeft(u: Tree, l: Edited)
    requires u.Node?
    ensures OneSonGrown(u, u.(left := l.tree), u.left, l, u.right)
  {
  }

  lemma GrownSonRight(u: Tree, r: Edited)
    requires u.Node?
    ensures OneSonGrown(u, u.(right := r.tree), u.right, r, u.left)
  {
  }

  lemma {:induction false} AddLeft(t: Tree, p: Point, allow: bool, l: Edited, forgot: multiset<Point>)
    requires t.Node? && Inv(t) && Grown(PushDown(t).left, p, l, forgot)
    requires PushDown(t).left.Nil? ==> LiveLeaf(l.tree)
    ensures var w := Update(PushDown(t).(left := l.tree));
      var f := Settle(w, allow);
      Grown(t, p, Edited(f.tree, l.recorded + f.recorded), forgot + SettleForgot(w, allow))
  {
    hide *;
    var u := PushDown(t);
    var v := u.(left := l.tree);
    PushDownFacts(t);
    GrownNotEmpty(u.left, p, l, v, forgot);
    Reseat(u, l.tree, u.right, u.pointDel, u.pointDs);
    RejoinExact(v, allow);
    GrownSonLeft(u, l);
    GrownParts(t, p, u, v, u.left, l, u.right, Settle(Update(v), allow), forgot, SettleForgot(Update(v), allow));
  }

  lemma {:induction false} AddRight(t: Tree, p: Point, allow: bool, r: Edited, forgot: multiset<Point>)
    requires t.Node? && Inv(t) && Grown(PushDown(t).right, p, r, forgot)
    requires PushDown(t).right.Nil? ==> LiveLeaf(r.tree)
    ensures var w := Update(PushDown(t).(right := r.tree));
      var f := Settle(w, allow);
      Grown(t, p, Edited(f.tree, r.recorded + f.recorded), forgot + SettleForgot(w, allow))
  {
    hide *;
    var u := PushDown(t);
    var v := u.(right := r.tree);
    PushDownFacts(t);
    GrownNotEmpty(u.right, p, r, v, forgot);
    Reseat(u, u.left, r.tree, u.pointDel, u.pointDs);
    RejoinExact(v, allow);
    GrownSonRight(u, r);
    GrownParts(t, p, u, v, u.right, r, u.left, Settle(Update(v), allow), forgot, SettleForgot(Update(v), allow));
  }

  /** All that is known of a node after its push-down. */
  lemma {:induction false} PushDownFacts(t: Tree)
    requires Inv(t) && t.Node?
    ensures var u := PushDown(t);
      && Inv(u) && Inv(u.left) && Inv(u.right) && Settled(u) && (u.pointDs ==> u.pointDel)
      && u.treeDel == t.treeDel && Live(u) == Live(t)
      && Nodes(u.left) < Nodes(t) && Nodes(u.right) < Nodes(t)
      && Of(u, Boxed) == Of(t, Boxed) && Of(u, Dropped) == Of(t, Dropped)
      && Live(t) == LiveParts(u)
      && Of(t, Boxed) == Parts(u, Boxed)
      && Of(t, Dropped) == Parts(u, Dropped)
  {
    hide Inv, Live, Held, Of, PushDown, Nodes, Own, Mark, Settled;
    PushDownInv(t);
    InvSons(PushDown(t));
    PointMarks(PushDown(t));
    PushDownLive(t);
    PushDownMark(t);
    PushDownHeld(t, Boxed);
    PushDownHeld(t, Dropped);
  }

  lemma PushDownMark(t: Tree)
    requires t.Node?
    ensures var u := PushDown(t);
      u.Node? && u.treeDel == t.treeDel && Nodes(u.left) < Nodes(t) && Nodes(u.right) < Nodes(t)
  {
  }

  lemma PointMarks(u: Tree)
    requires u.Node? && Inv(u)
    ensures u.pointDs ==> u.pointDel
  {
  }

  lemma {:induction false} AddStep(t: Tree, p: Point, allow: bool, a: Axis)
    requires t.Node?
    ensures var u := PushDown(t);
      var l, r := AddPoint(u.left, p, allow, u.axis), AddPoint(u.right, p, allow, u.axis);
      var fl, fr := Settle(Update(u.(left := l.tree)), allow), Settle(Update(u.(right := r.tree)), allow);
      AddPoint(t, p, allow, a) ==
        if Below(u.axis, p, u.point) then Edited(fl.tree, l.recorded + fl.recorded)
        else Edited(fr.tree, r.recorded + fr.recorded)
    ensures var u := PushDown(t);
      var l, r := AddPoint(u.left, p, allow, u.axis), AddPoint(u.right, p, allow, u.axis);
      AddForgot(t, p, allow, a) ==
        if Below(u.axis, p, u.point)
        then AddForgot(u.left, p, allow, u.axis) + SettleForgot(Update(u.(left := l.tree)), allow)
        else AddForgot(u.right, p, allow, u.axis) + SettleForgot(Update(u.(right := r.tree)), allow)
  {
    hide Settle, SettleForgot, Update, PushDown;
  }

  /** An insertion adds one live point and nothing else, with or without rebuilding. */
  lemma {:induction false} AddPointExact(t: Tree, p: Point, allow: bool, a: Axis)
    requires Inv(t)
    ensures Grown(t, p, AddPoint(t, p, allow, a), AddForgot(t, p, allow, a))
    ensures t.Nil? ==> LiveLeaf(AddPoint(t, p, allow, a).tree)
    decreases Nodes(t)
  {
    if t.Nil? {
      GrownLeaf(p, (a + 1) % 3);
    } else {
      var u := PushDown(t);
      PushDownInv(t);
      InvSons(u);
      AddStep(t, p, allow, a);
      hide AddPoint, AddForgot, Grown, Inv, PushDown, Settle, SettleForgot, Update;
      if Below(u.axis, p, u.point) {
        AddPointExact(u.left, p, allow, u.axis);
        AddLeft(t, p, allow, AddPoint(u.left, p, allow, u.axis), AddForgot(u.left, p, allow, u.axis));
      } else {
        AddPointExact(u.right, p, allow, u.axis);
        AddRight(t, p, allow, AddPoint(u.right, p, allow, u.axis), AddForgot(u.right, p, allow, u.axis));
      }
    }
  }

  // ---- Deletion ----

  /** What an edit does to deleted points besides reporting them: `relabelled` ones were boxed and are
      dropped now, because downsampling deleted a node over them; `forgotten` ones were dropped below a
      node that was rebuilt. */
  datatype Toll = Toll(relabelled: multiset<Point>, forgotten: multiset<Point>)

  const FREE := Toll(multiset{}, multiset{})

  ghost function DeleteToll(t: Tree, b: Box, allow: bool, ds: bool): Toll
    decreases Nodes(t)
  {
    if Dead(t) then FREE
    else
      var u := PushDown(t);
      if Misses(b, u.range) then FREE
      else if Covers(b, u.range) then CoverToll(u, ds)
      else
        var l, r := DeleteRange(u.left, b, allow, ds), DeleteRange(u.right, b, allow, ds);
        var w := Update(Struck(u, b, ds, l.tree, r.tree));
        BothTolls(DeleteToll(u.left, b, allow, ds), DeleteToll(u.right, b, allow, ds), SettleForgot(w, allow))
  }

  /** Without downsampling nothing is relabelled. */
  lemma {:induction false} PlainToll(t: Tree, b: Box, allow: bool)
    ensures DeleteToll(t, b, allow, false).relabelled == multiset{}
    decreases Nodes(t)
  {
    if !Dead(t) {
      TollStep(t, b, allow, false);
      hide DeleteToll, DeleteRange, Misses, Covers, Struck, Update, SettleForgot, PushDown;
      PlainToll(PushDown(t).left, b, allow);
      PlainToll(PushDown(t).right, b, allow);
    }
  }

  ghost function CoverToll(u: Tree, ds: bool): Toll { Toll(if ds then Of(u, Boxed) else multiset{}, multiset{}) }

  /** The tolls of two sons, and what the rebuild above them forgets. */
  ghost function BothTolls(l: Toll, r: Toll, forgot: multiset<Point>): Toll {
    Toll(l.relabelled + r.relabelled, l.forgotten + r.forgotten + forgot)
  }

  /** What a box deletion promises: exactly the live points of the box go, the count is their number,
      and every deleted point is accounted for by its kind. */
  ghost predicate Shrunk(t: Tree, b: Box, ds: bool, e: Removal, toll: Toll) {
    && Inv(e.tree) && (e.tree.Node? <==> t.Node?)
    && Live(e.tree) == Outside(Live(t), b)
    && e.count == |Inside(Live(t), b)|
    && Retained(Of(t, Boxed), Of(t, Dropped), Inside(Live(t), b), ds,
                Of(e.tree, Boxed), Of(e.tree, Dropped), multiset(e.recorded), toll)
  }

  /** From boxed, dropped and just deleted points to those still boxed, still dropped and reported.
      Just deleted points become boxed or, by downsampling, dropped; boxed ones stay, are reported or
      are relabelled; dropped ones stay or are forgotten. */
  ghost predicate Retained(boxed: multiset<Point>, dropped: multiset<Point>, hit: multiset<Point>, ds: bool,
                           boxed': multiset<Point>, dropped': multiset<Point>, recorded: multiset<Point>, toll: Toll)
  {
    && (recorded + toll.relabelled) + boxed' == boxed + When(!ds, hit)
    && toll.forgotten + dropped' == dropped + (toll.relabelled + When(ds, hit))
    && (!ds ==> toll.relabelled == multiset{})
  }

  ghost function When(b: bool, m: multiset<Point>): multiset<Point> { if b then m else multiset{} }

  lemma {:induction false} MissesNone(u: Tree, b: Box)
    requires Inv(u) && (u.Node? && !u.treeDel ==> Misses(b, u.range))
    ensures Inside(Live(u), b) == multiset{} && Outside(Live(u), b) == Live(u)
  {
    forall p | p in Live(u) ensures !InBox(b, p) { LiveInRange(u, p); }
    NoneInside(Live(u), b);
  }

  lemma {:induction false} CoversAll(u: Tree, b: Box)
    requires Inv(u) && u.Node? && Covers(b, u.range)
    ensures Inside(Live(u), b) == Live(u) && Outside(Live(u), b) == multiset{}
  {
    forall p | p in Live(u) ensures InBox(b, p) { LiveInRange(u, p); }
    AllInside(Live(u), b);
  }

  lemma {:induction false} ShrunkUntouched(t: Tree, u: Tree, b: Box, ds: bool)
    requires Inv(t) && Inv(u) && (u.Node? <==> t.Node?) && Live(u) == Live(t)
    requires Of(u, Boxed) == Of(t, Boxed) && Of(u, Dropped) == Of(t, Dropped)
    requires u.Node? && !u.treeDel ==> Misses(b, u.range)
    ensures Shrunk(t, b, ds, Removal(u, 0, []), FREE)
  {
    MissesNone(u, b);
    hide Inv, Live, Of, Inside, Outside, Misses, Retained;
    RetainedSame(Of(t, Boxed), Of(t, Dropped), ds);
    var none: seq<Point> := [];
    assert multiset(none) == multiset{};
  }

  lemma RetainedSame(boxed: multiset<Point>, dropped: multiset<Point>, ds: bool)
    ensures Retained(boxed, dropped, multiset{}, ds, boxed, dropped, multiset{}, FREE)
  {
  }

  lemma {:induction false} ShrunkCovered(t: Tree, u: Tree, b: Box, ds: bool)
    requires t.Node? && u.Node? && Inv(u) && !u.treeDel && Live(u) == Live(t)
    requires Of(u, Boxed) == Of(t, Boxed) && Of(u, Dropped) == Of(t, Dropped)
    requires Covers(b, u.range)
    ensures Shrunk(t, b, ds, Removal(MarkDeleted(u, ds), u.size - u.invalid, []), CoverToll(u, ds))
  {
    var m := MarkDeleted(u, ds);
    assert Live(m) == multiset{} && m.Node?;
    hide Inv, Live, Of, Inside, Outside, MarkDeleted, Covers, CoverToll, Retained;
    CoversAll(u, b);
    Counts(u);
    MarkDeletedInv(u, ds);
    CoveredRetained(u, ds);
  }

  lemma {:induction false} CoveredRetained(u: Tree, ds: bool)
    requires u.Node? && Inv(u) && !u.treeDel
    ensures var m := MarkDeleted(u, ds);
      Retained(Of(u, Boxed), Of(u, Dropped), Live(u), ds, Of(m, Boxed), Of(m, Dropped), multiset{}, CoverToll(u, ds))
  {
    hide *;
    LiveIsAlive(u);
    MarkDeletedHeld(u, ds);
    PartitionOf(u);
    var m := MarkDeleted(u, ds);
    RetainedWhole(Of(u, Boxed), Of(u, Dropped), Live(u), Points(u), ds, Of(m, Boxed), Of(m, Dropped));
    CoverTollIs(u, ds);
  }

  lemma CoverTollIs(u: Tree, ds: bool)
    ensures CoverToll(u, ds) == Toll(When(ds, Of(u, Boxed)), multiset{})
  {
  }

  lemma RetainedWhole(boxed: multiset<Point>, dropped: multiset<Point>, live: multiset<Point>, all: multiset<Point>,
                      ds: bool, boxed': multiset<Point>, dropped': multiset<Point>)
    requires all == live + boxed + dropped
    requires if ds then boxed' == multiset{} && dropped' == all else boxed' == boxed + live && dropped' == dropped
    ensures Retained(boxed, dropped, live, ds, boxed', dropped', multiset{}, Toll(When(ds, boxed), multiset{}))
  {
    Rotate(live, boxed, dropped);
    assert dropped + (boxed + live) == live + boxed + dropped;
  }

  lemma PartitionOf(u: Tree)
    ensures Points(u) == Of(u, Alive) + Of(u, Boxed) + Of(u, Dropped)
  {
    HeldPartition(u, Alive);
  }

  lemma Rotate<T>(a: multiset<T>, b: multiset<T>, c: multiset<T>)
    ensures a + b + c == b + c + a
  {
  }

  lemma {:induction false} MarkDeletedInv(u: Tree, ds: bool)
    requires u.Node? && Inv(u)
    ensures Inv(MarkDeleted(u, ds))
  {
  }

  lemma {:induction false} MarkDeletedHeld(u: Tree, ds: bool)
    requires u.Node? && Inv(u) && !u.treeDel
    ensures var m := MarkDeleted(u, ds);
      if ds then Of(m, Boxed) == multiset{} && Of(m, Dropped) == Points(u)
      else Of(m, Boxed) == Of(u, Boxed) + Of(u, Alive) && Of(m, Dropped) == Of(u, Dropped)
  {
    var m := MarkDeleted(u, ds);
    Darken(u, Alive);
    MarkDeletedUnder(u, ds, Boxed);
    MarkDeletedUnder(u, ds, Dropped);
    AllDropped(u, Boxed);
    AllDropped(u, Dropped);
  }

  /** Marking a node deleted reads as putting it under a deleted ancestor. */
  lemma {:induction false} MarkDeletedUnder(u: Tree, ds: bool, s: Status)
    requires u.Node? && Inv(u) && !u.treeDel
    ensures Of(MarkDeleted(u, ds), s) == Held(u, Mark(true, ds), s)
  {
    hide Held, Inv, Local, MarkDeleted, Mark, Worse;
    InvStep(u);
    DeletedMarks(u, ds);
    HeldStep(MarkDeleted(u, ds), Alive, s);
    HeldStep(u, Mark(true, ds), s);
  }

  /** A marked node and a node under a deleted ancestor give the same status to everything. */
  lemma DeletedMarks(u: Tree, ds: bool)
    requires u.Node? && !u.treeDel && (u.pointDs ==> u.pointDel) && (u.treeDs ==> u.treeDel)
    ensures var m, c := MarkDeleted(u, ds), Mark(true, ds);
      && m.Node? && m.point == u.point && m.left == u.left && m.right == u.right
      && Worse(Alive, Mark(m.treeDel, m.treeDs)) == Worse(c, Mark(u.treeDel, u.treeDs))
      && Worse(Worse(Alive, Mark(m.treeDel, m.treeDs)), Mark(m.pointDel, m.pointDs))
         == Worse(Worse(c, Mark(u.treeDel, u.treeDs)), Mark(u.pointDel, u.pointDs))
  {
  }

  /** A live point that a box not covering the range leaves alone. */
  lemma {:induction false} Survivor(u: Tree, b: Box) returns (p: Point)
    requires Inv(u) && !Dead(u) && !Covers(b, u.range)
    ensures p in Live(u) && !InBox(b, p)
  {
    var f := FreeFace(u.range, b);
    hide Inv, Live, Covers, InBox, Spot, FaceOf;
    p := FaceAttained(u, f);
  }

  /** A face of `r` whose points `b` does not hold. */
  lemma FreeFace(r: Box, b: Box) returns (f: Face)
    requires !Covers(b, r)
    ensures forall p :: FaceOf(Spot(p), f) == FaceOf(r, f) ==> !InBox(b, p)
  {
    f := if b.minX > r.minX then MinX
         else if b.maxX <= r.maxX then MaxX
         else if b.minY > r.minY then MinY
         else if b.maxY <= r.maxY then MaxY
         else if b.minZ > r.minZ then MinZ
         else MaxZ;
  }

  /** The live part and the count of a partially covered node. */
  lemma {:induction false} ShrunkLive(u: Tree, v: Tree, b: Box, ds: bool, l: Removal, r: Removal)
    requires u.Node? && v == Struck(u, b, ds, l.tree, r.tree)
    requires Live(l.tree) == Outside(Live(u.left), b) && l.count == |Inside(Live(u.left), b)|
    requires Live(r.tree) == Outside(Live(u.right), b) && r.count == |Inside(Live(u.right), b)|
    ensures LiveParts(v) == Outside(LiveParts(u), b)
    ensures One(Hit(u, b)) + l.count + r.count == |Inside(LiveParts(u), b)|
  {
    hide Live, Inside, Outside;
    var o := Own(!u.pointDel, u.point);
    SplitSum(o, Live(u.left), Live(u.right), b);
    if InBox(b, u.point) { AllInside(o, b); } else { NoneInside(o, b); }
  }

  /** What became of the boxed and dropped points of some part of a tree. */
  datatype Fate = Fate(boxed: multiset<Point>, dropped: multiset<Point>, hit: multiset<Point>,
                       boxed': multiset<Point>, dropped': multiset<Point>, recorded: multiset<Point>, toll: Toll)

  ghost predicate Keeps(f: Fate, ds: bool) {
    Retained(f.boxed, f.dropped, f.hit, ds, f.boxed', f.dropped', f.recorded, f.toll)
  }

  ghost function Sum(o: multiset<Point>, l: multiset<Point>, r: multiset<Point>): multiset<Point> { o + l + r }

  /** Adding up the fates of a point and of two sons, with a rebuild on top that turns `boxed'` and
      `dropped'` into `b`, `d`, the newly recorded `rec` and the newly forgotten `forgot`. */
  lemma RetainedSum(o: Fate, l: Fate, r: Fate, ds: bool, b: multiset<Point>, d: multiset<Point>, rec: multiset<Point>,
                    forgot: multiset<Point>)
    requires Keeps(o, ds) && Keeps(l, ds) && Keeps(r, ds) && o.recorded == multiset{} && o.toll == FREE
    requires rec + b == Sum(o.boxed', l.boxed', r.boxed') && forgot + d == Sum(o.dropped', l.dropped', r.dropped')
    ensures Keeps(Fate(Sum(o.boxed, l.boxed, r.boxed), Sum(o.dropped, l.dropped, r.dropped), Sum(o.hit, l.hit, r.hit),
                       b, d, l.recorded + r.recorded + rec, BothTolls(l.toll, r.toll, forgot)), ds)
  {
    FreeGives(o, ds);
    KeepsGives(l, ds);
    KeepsGives(r, ds);
    hide Keeps, Retained, When, Sum;
    WhenSum(!ds, o.hit, l.hit, r.hit);
    WhenSum(ds, o.hit, l.hit, r.hit);
    BoxedSum(o, l, r, When(!ds, o.hit), When(!ds, l.hit), When(!ds, r.hit), b, rec);
    DroppedSum(o, l, r, When(ds, o.hit), When(ds, l.hit), When(ds, r.hit), d, forgot);
    KeepsFrom(Fate(Sum(o.boxed, l.boxed, r.boxed), Sum(o.dropped, l.dropped, r.dropped), Sum(o.hit, l.hit, r.hit),
                   b, d, l.recorded + r.recorded + rec, BothTolls(l.toll, r.toll, forgot)), ds);
  }

  lemma KeepsGives(f: Fate, ds: bool)
    requires Keeps(f, ds)
    ensures (f.recorded + f.toll.relabelled) + f.boxed' == f.boxed + When(!ds, f.hit)
    ensures f.toll.forgotten + f.dropped' == f.dropped + (f.toll.relabelled + When(ds, f.hit))
    ensures !ds ==> f.toll.relabelled == multiset{}
  {
  }

  lemma FreeGives(f: Fate, ds: bool)
    requires Keeps(f, ds) && f.recorded == multiset{} && f.toll == FREE
    ensures f.boxed' == f.boxed + When(!ds, f.hit) && f.dropped' == f.dropped + When(ds, f.hit)
  {
    assert f.boxed' == (f.recorded + f.toll.relabelled) + f.boxed';
    assert f.dropped' == f.toll.forgotten + f.dropped';
    assert f.toll.relabelled + When(ds, f.hit) == When(ds, f.hit);
  }

  lemma KeepsFrom(f: Fate, ds: bool)
    requires (f.recorded + f.toll.relabelled) + f.boxed' == f.boxed + When(!ds, f.hit)
    requires f.toll.forgotten + f.dropped' == f.dropped + (f.toll.relabelled + When(ds, f.hit))
    requires !ds ==> f.toll.relabelled == multiset{}
    ensures Keeps(f, ds)
  {
  }

  lemma WhenSum(b: bool, o: multiset<Point>, l: multiset<Point>, r: multiset<Point>)
    ensures When(b, Sum(o, l, r)) == Sum(When(b, o), When(b, l), When(b, r))
  {
  }

  lemma BoxedSum(o: Fate, l: Fate, r: Fate, oh: multiset<Point>, lh: multiset<Point>, rh: multiset<Point>,
                 b: multiset<Point>, rec: multiset<Point>)
    requires o.recorded == multiset{} && o.toll == FREE && o.boxed' == o.boxed + oh
    requires (l.recorded + l.toll.relabelled) + l.boxed' == l.boxed + lh
    requires (r.recorded + r.toll.relabelled) + r.boxed' == r.boxed + rh
    requires rec + b == Sum(o.boxed', l.boxed', r.boxed')
    ensures (l.recorded + r.recorded + rec + (l.toll.relabelled + r.toll.relabelled)) + b
         == Sum(o.boxed, l.boxed, r.boxed) + Sum(oh, lh, rh)
  {
    forall q ensures ((l.recorded + r.recorded + rec + (l.toll.relabelled + r.toll.relabelled)) + b)[q]
                  == (Sum(o.boxed, l.boxed, r.boxed) + Sum(oh, lh, rh))[q] {
      assert (rec + b)[q] == Sum(o.boxed', l.boxed', r.boxed')[q];
      assert o.boxed'[q] == (o.boxed + oh)[q];
      assert ((l.recorded + l.toll.relabelled) + l.boxed')[q] == (l.boxed + lh)[q];
      assert ((r.recorded + r.toll.relabelled) + r.boxed')[q] == (r.boxed + rh)[q];
    }
  }

  lemma DroppedSum(o: Fate, l: Fate, r: Fate, oh: multiset<Point>, lh: multiset<Point>, rh: multiset<Point>,
                   d: multiset<Point>, forgot: multiset<Point>)
    requires o.toll == FREE && o.dropped' == o.dropped + oh
    requires l.toll.forgotten + l.dropped' == l.dropped + (l.toll.relabelled + lh)
    requires r.toll.forgotten + r.dropped' == r.dropped + (r.toll.relabelled + rh)
    requires forgot + d == Sum(o.dropped', l.dropped', r.dropped')
    ensures l.toll.forgotten + r.toll.forgotten + forgot + d
         == Sum(o.dropped, l.dropped, r.dropped) + (l.toll.relabelled + r.toll.relabelled + Sum(oh, lh, rh))
  {
    forall q ensures (l.toll.forgotten + r.toll.forgotten + forgot + d)[q]
                  == (Sum(o.dropped, l.dropped, r.dropped) + (l.toll.relabelled + r.toll.relabelled + Sum(oh, lh, rh)))[q] {
      assert (forgot + d)[q] == Sum(o.dropped', l.dropped', r.dropped')[q];
      assert o.dropped'[q] == (o.dropped + oh)[q];
      assert (l.toll.forgotten + l.dropped')[q] == (l.dropped + (l.toll.relabelled + lh))[q];
      assert (r.toll.forgotten + r.dropped')[q] == (r.dropped + (r.toll.relabelled + rh))[q];
    }
  }

  ghost function OwnFate(u: Tree, v: Tree, b: Box): Fate
    requires u.Node? && v.Node?
  {
    Fate(Own(Mark(u.pointDel, u.pointDs) == Boxed, u.point), Own(Mark(u.pointDel, u.pointDs) == Dropped, u.point),
         Inside(Own(!u.pointDel, u.point), b),
         Own(Mark(v.pointDel, v.pointDs) == Boxed, u.point), Own(Mark(v.pointDel, v.pointDs) == Dropped, u.point),
         multiset{}, FREE)
  }

  ghost function SonFate(x: Tree, b: Box, e: Removal, toll: Toll): Fate {
    Fate(Of(x, Boxed), Of(x, Dropped), Inside(Live(x), b),
         Of(e.tree, Boxed), Of(e.tree, Dropped), multiset(e.recorded), toll)
  }

  lemma OwnKeeps(u: Tree, b: Box, ds: bool, l: Tree, r: Tree)
    requires u.Node? && (u.pointDs ==> u.pointDel)
    ensures Keeps(OwnFate(u, Struck(u, b, ds, l, r), b), ds)
  {
    var o := Own(!u.pointDel, u.point);
    if InBox(b, u.point) { AllInside(o, b); } else { NoneInside(o, b); }
  }

  lemma {:induction false} ShrunkRetained(u: Tree, v: Tree, b: Box, ds: bool, l: Removal, r: Removal, f: Edited,
                                          lt: Toll, rt: Toll, forgot: multiset<Point>)
    requires u.Node? && (u.pointDs ==> u.pointDel) && v == Struck(u, b, ds, l.tree, r.tree)
    requires Shrunk(u.left, b, ds, l, lt) && Shrunk(u.right, b, ds, r, rt)
    requires multiset(f.recorded) + Of(f.tree, Boxed) == Parts(v, Boxed)
    requires forgot + Of(f.tree, Dropped) == Parts(v, Dropped)
    ensures Retained(Parts(u, Boxed), Parts(u, Dropped), Inside(LiveParts(u), b), ds,
                     Of(f.tree, Boxed), Of(f.tree, Dropped), multiset(l.recorded + r.recorded + f.recorded),
                     BothTolls(lt, rt, forgot))
  {
    hide Inv, Live, Of, Inside, Outside, Retained, BothTolls;
    OwnKeeps(u, b, ds, l.tree, r.tree);
    SplitSum(Own(!u.pointDel, u.point), Live(u.left), Live(u.right), b);
    RetainedSum(OwnFate(u, v, b), SonFate(u.left, b, l, lt), SonFate(u.right, b, r, rt), ds,
                Of(f.tree, Boxed), Of(f.tree, Dropped), multiset(f.recorded), forgot);
  }

  /** A partially covered node is never left empty, so it may be updated and rebuilt. */
  lemma {:induction false} ShrunkReady(u: Tree, b: Box, ds: bool, l: Removal, r: Removal, lt: Toll, rt: Toll)
    requires u.Node? && Inv(u) && Settled(u) && !u.treeDel && (u.pointDs ==> u.pointDel)
    requires Live(u) == LiveParts(u)
    requires !Covers(b, u.range) && Shrunk(u.left, b, ds, l, lt) && Shrunk(u.right, b, ds, r, rt)
    ensures var v := Struck(u, b, ds, l.tree, r.tree);
      && Updatable(v) && LiveParts(v) != multiset{} && LiveParts(v) == Outside(LiveParts(u), b)
      && One(Hit(u, b)) + l.count + r.count == |Inside(LiveParts(u), b)|
  {
    hide *;
    ShrunkMeans(u.left, b, ds, l, lt);
    ShrunkMeans(u.right, b, ds, r, rt);
    var p := LivingSurvivor(u, b);
    var v := Struck(u, b, ds, l.tree, r.tree);
    StruckUpdatable(u, b, ds, l, r);
    ShrunkLive(u, v, b, ds, l, r);
    assert Outside(LiveParts(u), b)[p] > 0;
  }

  lemma LivingSurvivor(u: Tree, b: Box) returns (p: Point)
    requires u.Node? && Inv(u) && !u.treeDel && !Covers(b, u.range)
    ensures p in Live(u) && !InBox(b, p)
  {
    p := Survivor(u, b);
  }

  lemma ShrunkMeans(t: Tree, b: Box, ds: bool, e: Removal, toll: Toll)
    requires Shrunk(t, b, ds, e, toll)
    ensures Inv(e.tree) && (e.tree.Nil? <==> t.Nil?)
    ensures Live(e.tree) == Outside(Live(t), b) && e.count == |Inside(Live(t), b)|
  {
  }

  lemma {:induction false} StruckUpdatable(u: Tree, b: Box, ds: bool, l: Removal, r: Removal)
    requires u.Node? && Settled(u) && (u.pointDs ==> u.pointDel)
    requires Inv(l.tree) && Inv(r.tree) && (u.left.Nil? ==> l.tree.Nil?) && (u.right.Nil? ==> r.tree.Nil?)
    ensures Updatable(Struck(u, b, ds, l.tree, r.tree))
  {
    hide Inv;
    var v := Struck(u, b, ds, l.tree, r.tree);
    Reseat(u, l.tree, r.tree, v.pointDel, v.pointDs);
  }

  /** A partially covered node, from what its sons became. */
  lemma {:induction false} ShrunkNode(t: Tree, b: Box, allow: bool, ds: bool, l: Removal, r: Removal, lt: Toll, rt: Toll)
    requires t.Node? && Inv(t) && !t.treeDel
    requires var u := PushDown(t); !Covers(b, u.range) && Shrunk(u.left, b, ds, l, lt) && Shrunk(u.right, b, ds, r, rt)
    ensures var u := PushDown(t);
      var w := Update(Struck(u, b, ds, l.tree, r.tree));
      var f := Settle(w, allow);
      Shrunk(t, b, ds, Removal(f.tree, One(Hit(u, b)) + l.count + r.count, l.recorded + r.recorded + f.recorded),
             BothTolls(lt, rt, SettleForgot(w, allow)))
  {
    hide *;
    PushDownFacts(t);
    ShrunkBelow(t, PushDown(t), b, allow, ds, l, r, lt, rt);
  }

  lemma {:induction false} ShrunkBelow(t: Tree, u: Tree, b: Box, allow: bool, ds: bool, l: Removal, r: Removal, lt: Toll, rt: Toll)
    requires t.Node? && u.Node? && Inv(u) && Settled(u) && !u.treeDel && (u.pointDs ==> u.pointDel)
    requires Live(t) == LiveParts(u) && Live(u) == Live(t)
    requires Of(t, Boxed) == Parts(u, Boxed) && Of(t, Dropped) == Parts(u, Dropped)
    requires !Covers(b, u.range) && Shrunk(u.left, b, ds, l, lt) && Shrunk(u.right, b, ds, r, rt)
    ensures var w := Update(Struck(u, b, ds, l.tree, r.tree));
      var f := Settle(w, allow);
      Shrunk(t, b, ds, Removal(f.tree, One(Hit(u, b)) + l.count + r.count, l.recorded + r.recorded + f.recorded),
             BothTolls(lt, rt, SettleForgot(w, allow)))
  {
    hide Inv, Live, Of, Inside, Outside, Update, Settle, SettleForgot, BothTolls, Retained, LiveParts, Parts, Covers, Shrunk, Struck, Updatable,
         Settled, Hit;
    ShrunkReady(u, b, ds, l, r, lt, rt);
    var v := Struck(u, b, ds, l.tree, r.tree);
    RejoinExact(v, allow);
    var f := Settle(Update(v), allow);
    var forgot := SettleForgot(Update(v), allow);
    ShrunkRetained(u, v, b, ds, l, r, f, lt, rt, forgot);
    ShrunkFrom(t, b, ds, Removal(f.tree, One(Hit(u, b)) + l.count + r.count, l.recorded + r.recorded + f.recorded),
               BothTolls(lt, rt, forgot));
  }

  lemma ShrunkFrom(t: Tree, b: Box, ds: bool, e: Removal, toll: Toll)
    requires Inv(e.tree) && (e.tree.Node? <==> t.Node?) && Live(e.tree) == Outside(Live(t), b)
    requires e.count == |Inside(Live(t), b)|
    requires Retained(Of(t, Boxed), Of(t, Dropped), Inside(Live(t), b), ds,
                      Of(e.tree, Boxed), Of(e.tree, Dropped), multiset(e.recorded), toll)
    ensures Shrunk(t, b, ds, e, toll)
  {
  }

  lemma {:induction false} DeleteStep(t: Tree, b: Box, allow: bool, ds: bool)
    requires !Dead(t)
    ensures var u := PushDown(t);
      var l, r := DeleteRange(u.left, b, allow, ds), DeleteRange(u.right, b, allow, ds);
      var f := Settle(Update(Struck(u, b, ds, l.tree, r.tree)), allow);
      DeleteRange(t, b, allow, ds) ==
        if Misses(b, u.range) then Removal(u, 0, [])
        else if Covers(b, u.range) then Removal(MarkDeleted(u, ds), u.size - u.invalid, [])
        else Removal(f.tree, One(Hit(u, b)) + l.count + r.count, l.recorded + r.recorded + f.recorded)
  {
  }

  lemma {:induction false} TollStep(t: Tree, b: Box, allow: bool, ds: bool)
    requires !Dead(t)
    ensures var u := PushDown(t);
      var l, r := DeleteRange(u.left, b, allow, ds), DeleteRange(u.right, b, allow, ds);
      var w := Update(Struck(u, b, ds, l.tree, r.tree));
      DeleteToll(t, b, allow, ds) ==
        if Misses(b, u.range) then FREE
        else if Covers(b, u.range) then CoverToll(u, ds)
        else BothTolls(DeleteToll(u.left, b, allow, ds), DeleteToll(u.right, b, allow, ds), SettleForgot(w, allow))
  {
    hide DeleteRange, Misses, Covers, CoverToll, Struck, Update, SettleForgot, BothTolls, PushDown;
  }

  /** A box deletion removes exactly the live points of the half-open box and counts them, through
      every lazy flag, shortcut and rebuild; the node itself never disappears. */
  lemma {:induction false} DeleteRangeExact(t: Tree, b: Box, allow: bool, ds: bool)
    requires Inv(t)
    ensures Shrunk(t, b, ds, DeleteRange(t, b, allow, ds), DeleteToll(t, b, allow, ds))
    decreases Nodes(t), 1
  {
    if Dead(t) {
      ShrunkUntouched(t, t, b, ds);
    } else {
      DeleteRangeLive(t, b, allow, ds);
    }
  }

  lemma {:induction false} DeleteRangeLive(t: Tree, b: Box, allow: bool, ds: bool)
    requires Inv(t) && !Dead(t) && t.Node? && !t.treeDel
    ensures Shrunk(t, b, ds, DeleteRange(t, b, allow, ds), DeleteToll(t, b, allow, ds))
    decreases Nodes(t), 0
  {
    hide *;
    PushDownFacts(t);
    DeleteStep(t, b, allow, ds);
    TollStep(t, b, allow, ds);
    var u := PushDown(t);
    if Misses(b, u.range) {
      ShrunkUntouched(t, u, b, ds);
    } else if Covers(b, u.range) {
      ShrunkCovered(t, u, b, ds);
    } else {
      DeleteRangeExact(u.left, b, allow, ds);
      DeleteRangeExact(u.right, b, allow, ds);
      ShrunkNode(t, b, allow, ds, DeleteRange(u.left, b, allow, ds), DeleteRange(u.right, b, allow, ds),
                 DeleteToll(u.left, b, allow, ds), DeleteToll(u.right, b, allow, ds));
    }
  }

  /** Where nothing is rebuilt nothing is recorded or forgotten. */
  lemma {:induction false} AddLeavesNothing(t: Tree, p: Point, a: Axis)
    ensures AddPoint(t, p, false, a).recorded == [] && AddForgot(t, p, false, a) == multiset{}
    decreases Nodes(t)
  {
    if t.Node? {
      AddStep(t, p, false, a);
      hide AddPoint, AddForgot, PushDown, Update;
      AddLeavesNothing(PushDown(t).left, p, PushDown(t).axis);
      AddLeavesNothing(PushDown(t).right, p, PushDown(t).axis);
    }
  }

  lemma {:induction false} DeleteLeavesNothing(t: Tree, b: Box, ds: bool)
    ensures DeleteRange(t, b, false, ds).recorded == [] && DeleteToll(t, b, false, ds).forgotten == multiset{}
    decreases Nodes(t)
  {
    if !Dead(t) {
      DeleteStep(t, b, false, ds);
      TollStep(t, b, false, ds);
      hide DeleteRange, DeleteToll, PushDown, Update, Struck, Misses, Covers, MarkDeleted;
      DeleteLeavesNothing(PushDown(t).left, b, ds);
      DeleteLeavesNothing(PushDown(t).right, b, ds);
    }
  }
}
