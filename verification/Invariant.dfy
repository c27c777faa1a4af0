/** The representation invariant of the lazily flagged tree, and what the tree means. */
module Invariant {
  import opened Geometry
  import opened Multisets
  import opened Tree

  // ---- Meaning ----

  ghost function Own(b: bool, p: Point): multiset<Point> { if b then multiset{p} else multiset{} }

  /** The points a query may return: the plain multiset the tree stands for. */
  ghost function Live(t: Tree): multiset<Point> {
    if Dead(t) then multiset{} else Own(!t.pointDel, t.point) + Live(t.left) + Live(t.right)
  }

  /** Every point stored, dead or alive. */
  ghost function Points(t: Tree): multiset<Point> {
    if t.Nil? then multiset{} else multiset{t.point} + Points(t.left) + Points(t.right)
  }

  /** What a stored point is: live, deleted by a box and to be reported at the next rebuild, or
      deleted by downsampling and to be forgotten then. */
  datatype Status = Alive | Boxed | Dropped

  function Mark(del: bool, ds: bool): Status {
    if ds then Dropped else if del then Boxed else Alive
  }

  function Worse(a: Status, b: Status): Status {
    if a == Dropped || b == Dropped then Dropped else if a == Boxed then Boxed else b
  }

  /** The stored points of status `s`, reading through the lazy flags: a point's status is the
      worst of its own mark, its ancestors' inside `t`, and `c`, that of the ancestors above. */
  ghost function Held(t: Tree, c: Status, s: Status): multiset<Point> {
    if t.Nil? then multiset{}
    else
      var d := Worse(c, Mark(t.treeDel, t.treeDs));
      Own(Worse(d, Mark(t.pointDel, t.pointDs)) == s, t.point) + Held(t.left, d, s) + Held(t.right, d, s)
  }

  ghost function Of(t: Tree, s: Status): multiset<Point> { Held(t, Alive, s) }

  /** One unfolding of `Held`, for proofs that hide it. */
  lemma {:induction false} HeldStep(t: Tree, c: Status, s: Status)
    requires t.Node?
    ensures var d := Worse(c, Mark(t.treeDel, t.treeDs));
      Held(t, c, s) == Own(Worse(d, Mark(t.pointDel, t.pointDs)) == s, t.point) + Held(t.left, d, s) + Held(t.right, d, s)
  {
  }

  // ---- Invariant ----

  ghost predicate LiveLeaf(t: Tree) {
    t.Node? && t.left.Nil? && t.right.Nil? && !t.pointDel && !t.treeDel
  }

  /** Below a deleted node a son either waits for the news or already has it. */
  ghost predicate Obeys(t: Tree, s: Tree, pending: bool)
    requires t.Node?
  {
    s.Node? && !pending ==> s.treeDel && (t.treeDs ==> s.treeDs)
  }

  /** Below a node that is not deleted a flag is up only towards a missing son, or, stale, towards
      a leaf inserted since. */
  ghost predicate Harmless(s: Tree, pending: bool) {
    s.Node? && pending ==> LiveLeaf(s)
  }

  ghost predicate Local(t: Tree)
    requires t.Node?
  {
    && t.size == 1 + Size(t.left) + Size(t.right)
    && (t.pointDs ==> t.pointDel) && (t.treeDel ==> t.pointDel) && (t.treeDs ==> t.treeDel && t.pointDs)
    && t.downDel == (if t.treeDs then t.size else One(t.pointDs) + DownDel(t.left) + DownDel(t.right))
    && t.radiusSq == HalfDiagonalSq(t.range)
    && (if t.treeDel then
          t.invalid == t.size && Obeys(t, t.left, t.pushL) && Obeys(t, t.right, t.pushR)
        else
          && t.invalid == One(t.pointDel) + Invalid(t.left) + Invalid(t.right)
          && Harmless(t.left, t.pushL) && Harmless(t.right, t.pushR)
          && LiveHull(t) == Some(t.range))
  }

  ghost predicate Inv(t: Tree) {
    t.Node? ==> Inv(t.left) && Inv(t.right) && Local(t)
  }

  lemma InvStep(t: Tree)
    requires t.Node? && Inv(t)
    ensures Inv(t.left) && Inv(t.right) && Local(t)
    ensures (t.pointDs ==> t.pointDel) && (t.treeDel ==> t.pointDel) && (t.treeDs ==> t.treeDel)
  {
  }

  /** A node whose flags have been pushed: no flag is up towards an existing son. */
  ghost predicate Settled(t: Tree) {
    t.Node? ==> (t.left.Node? ==> !t.pushL) && (t.right.Node? ==> !t.pushR)
  }

  // ---- Push_Down ----

  lemma PushToInv(t: Tree, s: Tree)
    requires t.Node? && s.Node? && Inv(s) && Local(t)
    requires t.treeDel || LiveLeaf(s)
    ensures Inv(PushTo(t, s))
    ensures if t.treeDel then PushTo(t, s).treeDel else LiveLeaf(PushTo(t, s))
    ensures PushTo(t, s).size == s.size
    ensures t.treeDs ==> PushTo(t, s).treeDs
    ensures !t.treeDs ==> PushTo(t, s).downDel == s.downDel
    ensures !t.treeDel ==> PushTo(t, s).range == s.range && PushTo(t, s).invalid == s.invalid
  {
  }

  lemma ToldInv(t: Tree, s: Tree, pending: bool)
    requires t.Node? && Inv(s) && Local(t)
    requires if t.treeDel then Obeys(t, s, pending) else Harmless(s, pending)
    ensures Inv(Told(t, s, pending)) && Size(Told(t, s, pending)) == Size(s)
    ensures !t.treeDs ==> DownDel(Told(t, s, pending)) == DownDel(s)
    ensures t.treeDel ==> Obeys(t, Told(t, s, pending), false)
    ensures !t.treeDel ==> Invalid(Told(t, s, pending)) == Invalid(s) && LiveRange(Told(t, s, pending)) == LiveRange(s)
  {
    if pending && s.Node? { PushToInv(t, s); }
  }

  lemma PushDownInv(t: Tree)
    requires Inv(t)
    ensures Inv(PushDown(t)) && Settled(PushDown(t))
  {
    if t.Node? {
      ToldInv(t, t.left, t.pushL);
      ToldInv(t, t.right, t.pushR);
    }
  }

  lemma {:induction false} ToldLive(t: Tree, x: Tree, pending: bool)
    requires t.Node? && Inv(x) && Local(t)
    requires if t.treeDel then Obeys(t, x, pending) else Harmless(x, pending)
    ensures Live(Told(t, x, pending)) == if t.treeDel then multiset{} else Live(x)
  {
    if pending && x.Node? { PushToInv(t, x); }
  }

  lemma {:induction false} ToldHeld(t: Tree, x: Tree, pending: bool, s: Status)
    requires t.Node? && Inv(x) && Local(t)
    requires if t.treeDel then Obeys(t, x, pending) else Harmless(x, pending)
    ensures var c := Mark(t.treeDel, t.treeDs); Held(Told(t, x, pending), c, s) == Held(x, c, s)
  {
    hide *;
    ToldCases(t, x, pending);
    if pending && x.Node? {
      var c := Mark(t.treeDel, t.treeDs);
      PushedMarks(t, x);
      HeldStep(x, c, s);
      HeldStep(PushTo(t, x), c, s);
    }
  }

  lemma ToldCases(t: Tree, x: Tree, pending: bool)
    requires t.Node?
    ensures Told(t, x, pending) == if pending && x.Node? then PushTo(t, x) else x
    ensures Harmless(x, pending) && pending && x.Node? ==> LiveLeaf(x)
  {
  }

  /** News from the father changes no status that already took the father's into account. */
  lemma PushedMarks(t: Tree, x: Tree)
    requires t.Node? && x.Node? && Local(t) && (t.treeDel || LiveLeaf(x))
    ensures var c, y := Mark(t.treeDel, t.treeDs), PushTo(t, x);
      && y.Node? && y.point == x.point && y.left == x.left && y.right == x.right
      && Worse(c, Mark(y.treeDel, y.treeDs)) == Worse(c, Mark(x.treeDel, x.treeDs))
      && Worse(Worse(c, Mark(y.treeDel, y.treeDs)), Mark(y.pointDel, y.pointDs))
         == Worse(Worse(c, Mark(x.treeDel, x.treeDs)), Mark(x.pointDel, x.pointDs))
  {
  }

  /** After a push-down the live points of a node are its own and its sons', even below a deleted
      node; nothing is gained or lost. */
  lemma {:induction false} PushDownLive(t: Tree)
    requires Inv(t)
    ensures Live(PushDown(t)) == Live(t)
    ensures t.Node? ==> var u := PushDown(t);
      Live(t) == Own(!u.pointDel, u.point) + Live(u.left) + Live(u.right)
  {
    if t.Node? {
      ToldLive(t, t.left, t.pushL);
      ToldLive(t, t.right, t.pushR);
    }
  }

  /** The flags of a node add nothing to those of its sons: no news is pending. */
  ghost predicate Flat(u: Tree)
    requires u.Node?
  {
    && (u.treeDs ==> u.treeDel && u.pointDs)
    && (u.treeDel ==> u.pointDel && Obeys(u, u.left, false) && Obeys(u, u.right, false))
  }

  lemma {:induction false} FlatHeld(u: Tree, s: Status)
    requires u.Node? && Flat(u)
    ensures Of(u, s) == Own(Mark(u.pointDel, u.pointDs) == s, u.point) + Of(u.left, s) + Of(u.right, s)
  {
    hide Held;
    HeldStep(u, Alive, s);
    HeldUnder(u.left, Mark(u.treeDel, u.treeDs), s);
    HeldUnder(u.right, Mark(u.treeDel, u.treeDs), s);
  }

  /** The same for the other stored points: nothing moves and no status changes. */
  lemma {:induction false} PushDownHeld(t: Tree, s: Status)
    requires Inv(t)
    ensures Of(PushDown(t), s) == Of(t, s)
    ensures t.Node? ==> var u := PushDown(t);
      Of(t, s) == Own(Mark(u.pointDel, u.pointDs) == s, u.point) + Of(u.left, s) + Of(u.right, s)
  {
    if t.Node? {
      SameHeld(t, PushDown(t), s);
      PushDownFlat(t);
      hide Held, Inv, Told, PushDown;
      FlatHeld(PushDown(t), s);
    }
  }

  lemma {:induction false} SameHeld(t: Tree, u: Tree, s: Status)
    requires Inv(t) && t.Node? && u == PushDown(t)
    ensures Of(u, s) == Of(t, s)
  {
    ToldHeld(t, t.left, t.pushL, s);
    ToldHeld(t, t.right, t.pushR, s);
    HeldBySons(t, u, s);
  }

  /** `Held` of a node depends on its own marks and on its sons only. */
  lemma {:induction false} HeldBySons(t: Tree, u: Tree, s: Status)
    requires t.Node? && u.Node? && u.point == t.point
    requires u.treeDel == t.treeDel && u.treeDs == t.treeDs && u.pointDel == t.pointDel && u.pointDs == t.pointDs
    requires var c := Mark(t.treeDel, t.treeDs);
      Held(u.left, c, s) == Held(t.left, c, s) && Held(u.right, c, s) == Held(t.right, c, s)
    ensures Of(u, s) == Of(t, s)
  {
    hide Held;
    HeldStep(t, Alive, s);
    HeldStep(u, Alive, s);
  }

  lemma {:induction false} PushDownPoints(t: Tree)
    ensures Points(PushDown(t)) == Points(t)
    ensures t.Node? ==> Points(PushDown(t).left) == Points(t.left) && Points(PushDown(t).right) == Points(t.right)
  {
  }

  lemma PushDownFlat(t: Tree)
    requires Inv(t) && t.Node?
    ensures Flat(PushDown(t))
  {
    PushDownInv(t);
  }

  lemma {:induction false} HeldUnder(t: Tree, c: Status, s: Status)
    requires t.Node? ==> Worse(c, Mark(t.treeDel, t.treeDs)) == Mark(t.treeDel, t.treeDs)
    ensures Held(t, c, s) == Of(t, s)
  {
    if t.Node? {
      hide Held;
      HeldStep(t, c, s);
      HeldStep(t, Alive, s);
    }
  }

  // ---- Update ----

  ghost predicate Updatable(t: Tree) {
    && t.Node? && Inv(t.left) && Inv(t.right) && (t.pointDs ==> t.pointDel)
    && Harmless(t.left, t.pushL) && Harmless(t.right, t.pushR)
  }

  lemma {:induction false} UpdateInv(t: Tree)
    requires Updatable(t)
    ensures Inv(Update(t))
    ensures Live(Update(t)) == Own(!t.pointDel, t.point) + Live(t.left) + Live(t.right)
    ensures Points(Update(t)) == multiset{t.point} + Points(t.left) + Points(t.right)
  {
    UpdateLocal(t);
    hide Local, Harmless, Join, FullHull, LiveHull, HalfDiagonalSq;
  }

  lemma {:induction false} UpdateLocal(t: Tree)
    requires Updatable(t)
    ensures Local(Update(t))
  {
    hide Live, Points, Held, HalfDiagonalSq;
  }

  lemma {:induction false} UpdateHeld(t: Tree, s: Status)
    requires Updatable(t)
    ensures Of(Update(t), s) == Own(Mark(t.pointDel, t.pointDs) == s, t.point) + Of(t.left, s) + Of(t.right, s)
  {
    UpdateFlat(t);
    hide Held, Inv, Update;
    FlatHeld(Update(t), s);
  }

  lemma UpdateFlat(t: Tree)
    requires Updatable(t)
    ensures Flat(Update(t))
  {
  }

  // ---- What the cached fields say ----

  /** `validnum` and `size` count exactly, through every lazy flag. */
  lemma {:induction false} Counts(t: Tree)
    requires Inv(t)
    ensures Size(t) == |Points(t)|
    ensures Size(t) - Invalid(t) == |Live(t)|
  {
    if t.Node? {
      Counts(t.left);
      Counts(t.right);
    }
  }

  lemma {:induction false} AllDropped(t: Tree, s: Status)
    ensures Held(t, Dropped, s) == if s == Dropped then Points(t) else multiset{}
  {
    if t.Node? {
      AllDropped(t.left, s);
      AllDropped(t.right, s);
    }
  }

  /** `down_del_num` counts the points deleted by downsampling. */
  lemma {:induction false} DownDelCounts(t: Tree, c: Status)
    requires Inv(t) && c != Dropped
    ensures DownDel(t) == |Held(t, c, Dropped)|
  {
    if t.Node? {
      hide Held;
      HeldStep(t, c, Dropped);
      var d := Worse(c, Mark(t.treeDel, t.treeDs));
      var l, r := Held(t.left, d, Dropped), Held(t.right, d, Dropped);
      assert Held(t, c, Dropped) == Own(t.pointDs, t.point) + l + r;
      if t.treeDs {
        Counts(t);
        AllDropped(t.left, Dropped);
        AllDropped(t.right, Dropped);
      } else {
        DownDelCounts(t.left, d);
        DownDelCounts(t.right, d);
      }
    }
  }

  /** Deleting a subtree turns its live points into boxed ones and leaves the dropped. */
  lemma {:induction false} Darken(t: Tree, c: Status)
    requires c != Dropped
    ensures Held(t, Boxed, Boxed) == Held(t, c, Boxed) + Held(t, c, Alive)
    ensures Held(t, Boxed, Dropped) == Held(t, c, Dropped)
    ensures Held(t, Boxed, Alive) == multiset{}
  {
    DarkenBoxed(t, c);
    DarkenDropped(t, c);
    NoneAlive(t, Boxed);
  }

  lemma {:induction false} DarkenBoxed(t: Tree, c: Status)
    requires c != Dropped
    ensures Held(t, Boxed, Boxed) == Held(t, c, Boxed) + Held(t, c, Alive)
  {
    if t.Node? {
      var m := Mark(t.treeDel, t.treeDs);
      var d, e := Worse(c, m), Worse(Boxed, m);
      hide Held;
      HeldStep(t, c, Alive); HeldStep(t, c, Boxed); HeldStep(t, Boxed, Boxed);
      if d == Dropped {
        AllDropped(t.left, Alive); AllDropped(t.right, Alive);
        AllDropped(t.left, Boxed); AllDropped(t.right, Boxed);
      } else {
        DarkenBoxed(t.left, d);
        DarkenBoxed(t.right, d);
        var p := Mark(t.pointDel, t.pointDs);
        Sum3(Own(Worse(e, p) == Boxed, t.point), Held(t.left, e, Boxed), Held(t.right, e, Boxed),
             Own(Worse(d, p) == Boxed, t.point), Held(t.left, d, Boxed), Held(t.right, d, Boxed),
             Own(Worse(d, p) == Alive, t.point), Held(t.left, d, Alive), Held(t.right, d, Alive));
      }
    }
  }

  lemma {:induction false} DarkenDropped(t: Tree, c: Status)
    requires c != Dropped
    ensures Held(t, Boxed, Dropped) == Held(t, c, Dropped)
  {
    if t.Node? {
      var d := Worse(c, Mark(t.treeDel, t.treeDs));
      hide Held;
      HeldStep(t, c, Dropped);
      HeldStep(t, Boxed, Dropped);
      if d != Dropped {
        DarkenDropped(t.left, d);
        DarkenDropped(t.right, d);
      }
    }
  }

  lemma {:induction false} LiveIsAlive(t: Tree)
    requires Inv(t)
    ensures Live(t) == Of(t, Alive)
  {
    if t.Node? {
      InvStep(t);
      hide Held, Inv, Local;
      HeldStep(t, Alive, Alive);
      if t.treeDel {
        NoneAlive(t.left, Mark(true, t.treeDs));
        NoneAlive(t.right, Mark(true, t.treeDs));
      } else {
        LiveIsAlive(t.left);
        LiveIsAlive(t.right);
      }
    }
  }

  lemma {:induction false} NoneAlive(t: Tree, c: Status)
    requires c != Alive
    ensures Held(t, c, Alive) == multiset{}
  {
    if t.Node? {
      NoneAlive(t.left, Worse(c, Mark(t.treeDel, t.treeDs)));
      NoneAlive(t.right, Worse(c, Mark(t.treeDel, t.treeDs)));
    }
  }

  /** Every stored point has exactly one status. */
  lemma {:induction false} HeldPartition(t: Tree, c: Status)
    ensures Points(t) == Held(t, c, Alive) + Held(t, c, Boxed) + Held(t, c, Dropped)
  {
    if c == Dropped {
      AllDropped(t, Alive); AllDropped(t, Boxed); AllDropped(t, Dropped);
    } else {
      Darken(t, c);
      DarkPartition(t);
    }
  }

  lemma {:induction false} DarkPartition(t: Tree)
    ensures Points(t) == Held(t, Boxed, Boxed) + Held(t, Boxed, Dropped)
  {
    if t.Node? {
      hide Held;
      HeldStep(t, Boxed, Boxed);
      HeldStep(t, Boxed, Dropped);
      if t.treeDs {
        AllDropped(t.left, Boxed); AllDropped(t.right, Boxed);
        AllDropped(t.left, Dropped); AllDropped(t.right, Dropped);
      } else {
        DarkPartition(t.left);
        DarkPartition(t.right);
        Sum3(multiset{t.point}, Points(t.left), Points(t.right),
             Own(!t.pointDs, t.point), Held(t.left, Boxed, Boxed), Held(t.right, Boxed, Boxed),
             Own(t.pointDs, t.point), Held(t.left, Boxed, Dropped), Held(t.right, Boxed, Dropped));
      }
    }
  }

  predicate Contains(r: Option<Box>, p: Point) { r.Some? && InRange(r.value, p) }

  lemma JoinContains(a: Option<Box>, b: Option<Box>, p: Point)
    requires Contains(a, p) || Contains(b, p)
    ensures Contains(Join(a, b), p)
  {
  }

  /** Every live point lies in the cached range. */
  lemma {:induction false} LiveInRange(t: Tree, p: Point)
    requires Inv(t) && t.Node? && p in Live(t)
    ensures InRange(t.range, p)
  {
    var own := if t.pointDel then None else Some(Spot(t.point));
    if p in Live(t.left) {
      LiveInRange(t.left, p);
      assert Contains(LiveRange(t.left), p);
    } else if p in Live(t.right) {
      LiveInRange(t.right, p);
      assert Contains(LiveRange(t.right), p);
    } else {
      assert Contains(own, p);
    }
    if !Contains(own, p) { JoinContains(LiveRange(t.left), LiveRange(t.right), p); }
    JoinContains(Join(LiveRange(t.left), LiveRange(t.right)), own, p);
  }

  datatype Face = MinX | MaxX | MinY | MaxY | MinZ | MaxZ

  function FaceOf(r: Box, f: Face): real {
    match f
    case MinX => r.minX case MaxX => r.maxX case MinY => r.minY
    case MaxY => r.maxY case MinZ => r.minZ case MaxZ => r.maxZ
  }

  /** A live point on the given face of a node's range: the range is no larger than needed. */
  lemma {:induction false} FaceAttained(t: Tree, f: Face) returns (p: Point)
    requires Inv(t) && !Dead(t)
    ensures p in Live(t) && FaceOf(Spot(p), f) == FaceOf(t.range, f)
  {
    if !t.pointDel && FaceOf(Spot(t.point), f) == FaceOf(t.range, f) {
      p := t.point;
    } else if !Dead(t.left) && FaceOf(t.left.range, f) == FaceOf(t.range, f) {
      p := FaceAttained(t.left, f);
    } else {
      p := FaceAttained(t.right, f);
    }
  }

  ghost predicate IsBoundingBox(r: Box, m: multiset<Point>) {
    && (forall p :: p in m ==> InRange(r, p))
    && (forall f :: exists p :: p in m && FaceOf(Spot(p), f) == FaceOf(r, f))
  }

  /** The cached range of a node that is not deleted is the bounding box of its live points, and a
      node is marked deleted exactly when nothing under it is alive. */
  lemma {:induction false} RangeIsExact(t: Tree)
    requires Inv(t)
    ensures Dead(t) <==> Live(t) == multiset{}
    ensures !Dead(t) ==> IsBoundingBox(t.range, Live(t))
  {
    if !Dead(t) {
      forall p | p in Live(t) ensures InRange(t.range, p) { LiveInRange(t, p); }
      forall f ensures exists p :: p in Live(t) && FaceOf(Spot(p), f) == FaceOf(t.range, f) {
        var p := FaceAttained(t, f);
      }
      var p := FaceAttained(t, MinX);
    }
  }
}
