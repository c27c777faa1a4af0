/** The background rebuild of one subtree, as a state machine over the steps of two threads. The main
    thread goes on editing the old subtree and logs what it does; the rebuild thread replays the log
    on the new one until nothing is left, and then swaps them. */
module RebuildThread {
  import opened Geometry
  import OpQueue
  import opened Multisets
  import opened Select
  import opened Tree
  import opened Invariant
  import opened Rebuilding
  import opened Edits
  import opened Searches

  const MULTI_THREAD_REBUILD_POINT_NUM := 1500

  /** An entry of `Rebuild_Logger`. */
  datatype LogEntry =
    | Insert(point: Point)
    | Delete(box: Box, ds: bool)
    | Push(treeDel: bool, treeDs: bool)

  /** `run_operation`: the entry applied to the root of the new subtree, never rebuilding. */
  function RunOperation(t: Tree, e: LogEntry): Tree
    requires t.Node?
  {
    match e
    case Insert(p) => AddPoint(t, p, false, t.axis).tree
    case Delete(b, ds) => DeleteRange(t, b, false, ds).tree
    case Push(treeDel, treeDs) => PushMarks(treeDel, treeDs, t)
  }

  /** The entries replayed first to last. */
  function Replay(t: Tree, log: seq<LogEntry>): Tree
    decreases |log|
  {
    if |log| == 0 || t.Nil? then t else Replay(RunOperation(t, log[0]), log[1..])
  }

  datatype Phase =
    | Marked                                  // `Rebuild_Ptr` set, nothing copied yet
    | Copied(snapshot: seq<Point>)            // flattened; `rebuild_flag` up
    | Catching(next: Tree, inFlight: Option<LogEntry>)  // new subtree built, log being replayed
    | Swapped                                 // the new subtree is in place

  /** The subtree the main thread works on, the log, and how far the rebuild thread is. */
  datatype State = State(subtree: Tree, log: seq<LogEntry>, phase: Phase)

  predicate Logging(s: State) { s.phase.Copied? || s.phase.Catching? }

  /** The log after the main thread's edit: `Rebuild_Logger` is a ring of `Q_LEN` entries. */
  ghost function Logged(s: State, e: LogEntry): seq<LogEntry> {
    if Logging(s) then OpQueue.Pushed(s.log, e) else s.log
  }

  /** There is room for one more entry. */
  ghost predicate Roomy(s: State) { Logging(s) ==> |s.log| < OpQueue.Q_LEN }

  /** Then the ring is a plain queue. */
  lemma LoggedInOrder(s: State, e: LogEntry)
    requires Roomy(s)
    ensures Logged(s, e) == if Logging(s) then s.log + [e] else s.log
  {
    OpQueue.PushedIsFifoIff(s.log, e);
    hide OpQueue.Pushed;
  }

  datatype Action =
    | MainInsert(point: Point, axis: Axis)
    | MainDelete(box: Box, ds: bool)
    | MainPush(father: Tree)
    | MainSearch(eased: Tree)
    | Copy
    | BuildNew
    | Take
    | Run
    | Swap

  /** When an action may happen. A father pushes to the subtree only what his own invariant allows. */
  ghost predicate Enabled(s: State, a: Action) {
    match a
    case MainPush(father) => s.subtree.Node? && father.Node? && Local(father) && (father.treeDel || LiveLeaf(s.subtree))
    case MainSearch(eased) => Eased(s.subtree, eased)
    case Copy => s.phase.Marked? && s.log == []
    case BuildNew => s.phase.Copied? && s.phase.snapshot != []
    case Take => s.phase.Catching? && s.phase.inFlight.None? && s.log != []
    case Run => s.phase.Catching? && s.phase.inFlight.Some? && s.phase.next.Node?
    case Swap => s.phase.Catching? && s.phase.inFlight.None? && s.log == []
    case _ => s.subtree.Node?
  }

  ghost function Next(s: State, a: Action): State
    requires Enabled(s, a)
  {
    match a
    case MainInsert(p, axis) => s.(subtree := AddPoint(s.subtree, p, false, axis).tree, log := Logged(s, Insert(p)))
    case MainDelete(b, ds) => s.(subtree := DeleteRange(s.subtree, b, false, ds).tree, log := Logged(s, Delete(b, ds)))
    case MainPush(father) =>
      s.(subtree := PushTo(father, s.subtree), log := Logged(s, Push(father.treeDel, father.treeDs)))
    case MainSearch(eased) => s.(subtree := eased)
    case Copy => s.(subtree := PushAll(s.subtree), phase := Copied(Flatten(s.subtree)))
    case BuildNew => s.(phase := Catching(Build(s.phase.snapshot), None))
    case Take => s.(log := s.log[1..], phase := s.phase.(inFlight := Some(s.log[0])))
    case Run => s.(phase := Catching(RunOperation(s.phase.next, s.phase.inFlight.value), None))
    case Swap => State(s.phase.next, s.log, Swapped)
  }

  // ---- What an entry means ----

  /** The effect of an entry on the live points. */
  ghost function Effect(m: multiset<Point>, e: LogEntry): multiset<Point> {
    match e
    case Insert(p) => m + multiset{p}
    case Delete(b, _) => Outside(m, b)
    case Push(treeDel, _) => if treeDel then multiset{} else m
  }

  ghost function Effects(m: multiset<Point>, log: seq<LogEntry>): multiset<Point>
    decreases |log|
  {
    if |log| == 0 then m else Effects(Effect(m, log[0]), log[1..])
  }

  lemma {:induction false} EffectsAppend(m: multiset<Point>, log: seq<LogEntry>, e: LogEntry)
    ensures Effects(m, log + [e]) == Effect(Effects(m, log), e)
    decreases |log|
  {
    if |log| == 0 {
      assert log + [e] == [e];
      assert Effects(Effect(m, e), []) == Effect(m, e);
    } else {
      assert (log + [e])[1..] == log[1..] + [e];
      EffectsAppend(Effect(m, log[0]), log[1..], e);
    }
  }

  ghost predicate Deletes(e: LogEntry) { e.Push? ==> e.treeDel }

  lemma {:induction false} PushMarksExact(s: Tree, ds: bool)
    requires Inv(s) && s.Node?
    ensures Inv(PushMarks(true, ds, s)) && Live(PushMarks(true, ds, s)) == multiset{}
  {
  }

  /** What becomes of the live points an entry deletes: dropped by an entry of a downsampling insert,
      boxed by any other. `HitBy(m, e, true)` are the former, `HitBy(m, e, false)` the latter. */
  ghost function HitBy(m: multiset<Point>, e: LogEntry, ds: bool): multiset<Point> {
    match e
    case Insert(_) => multiset{}
    case Delete(b, downsample) => When(downsample == ds, Inside(m, b))
    case Push(treeDel, treeDs) => When(treeDel && treeDs == ds, m)
  }

  /** The boxed points an entry of a downsampling insert turns into dropped ones. */
  ghost function Relabels(t: Tree, e: LogEntry): multiset<Point>
    requires t.Node?
  {
    match e
    case Insert(_) => multiset{}
    case Delete(b, ds) => DeleteToll(t, b, false, ds).relabelled
    case Push(_, treeDs) => When(treeDs, Of(t, Boxed))
  }

  /** An entry of a downsampling insert. */
  predicate Samples(e: LogEntry) { (e.Delete? && e.ds) || (e.Push? && e.treeDs) }

  /** From `t` to `r`: the live points change as the entry means, those it deletes are boxed or dropped
      by its kind, and boxed ones are relabelled by a downsampling entry alone. */
  ghost predicate Ran(t: Tree, e: LogEntry, r: Tree)
    requires t.Node?
  {
    && Inv(r) && r.Node? && Live(r) == Effect(Live(t), e)
    && Of(r, Boxed) + Relabels(t, e) == Of(t, Boxed) + HitBy(Live(t), e, false)
    && Of(r, Dropped) == Of(t, Dropped) + (HitBy(Live(t), e, true) + Relabels(t, e))
    && (!Samples(e) ==> Relabels(t, e) == multiset{})
  }

  lemma {:induction false} InsertRan(t: Tree, p: Point, a: Axis)
    requires Inv(t) && t.Node?
    ensures Ran(t, Insert(p), AddPoint(t, p, false, a).tree)
  {
    hide AddPoint, AddForgot, Inv, Live, Of;
    AddPointExact(t, p, false, a);
    AddLeavesNothing(t, p, a);
    var e := AddPoint(t, p, false, a);
    assert multiset(e.recorded) + Of(e.tree, Boxed) == Of(e.tree, Boxed);
    assert multiset{} + Of(e.tree, Dropped) == Of(e.tree, Dropped);
  }

  lemma {:induction false} DeleteRan(t: Tree, b: Box, ds: bool)
    requires Inv(t) && t.Node?
    ensures Ran(t, Delete(b, ds), DeleteRange(t, b, false, ds).tree)
  {
    hide DeleteRange, DeleteToll, Inv, Live, Of, Inside, Outside, When;
    DeleteRangeExact(t, b, false, ds);
    DeleteLeavesNothing(t, b, ds);
    var e, toll := DeleteRange(t, b, false, ds), DeleteToll(t, b, false, ds);
    HitByDelete(Live(t), b, ds);
    ShrunkUnrecorded(t, b, ds, e, toll);
  }

  lemma HitByDelete(m: multiset<Point>, b: Box, ds: bool)
    ensures HitBy(m, Delete(b, ds), false) == When(!ds, Inside(m, b)) && HitBy(m, Delete(b, ds), true) == When(ds, Inside(m, b))
  {
    hide Inside;
  }

  /** A deletion that records and forgets nothing. */
  lemma ShrunkUnrecorded(t: Tree, b: Box, ds: bool, e: Removal, toll: Toll)
    requires Shrunk(t, b, ds, e, toll) && e.recorded == [] && toll.forgotten == multiset{}
    ensures Of(e.tree, Boxed) + toll.relabelled == Of(t, Boxed) + When(!ds, Inside(Live(t), b))
    ensures Of(e.tree, Dropped) == Of(t, Dropped) + (When(ds, Inside(Live(t), b)) + toll.relabelled)
    ensures !ds ==> toll.relabelled == multiset{}
  {
    hide Inv, Live, Of, Inside, Outside, When;
    assert multiset(e.recorded) + toll.relabelled == toll.relabelled;
    assert multiset{} + Of(e.tree, Dropped) == Of(e.tree, Dropped);
  }

  /** A deleted father's news turns the live points of a subtree into boxed ones, or everything in it
      into dropped ones. */
  lemma {:induction false} PushHeld(x: Tree, ds: bool)
    requires Inv(x) && x.Node?
    ensures var y := PushMarks(true, ds, x);
      if ds then Of(y, Boxed) == multiset{} && Of(y, Dropped) == Points(x)
      else Of(y, Boxed) == Of(x, Boxed) + Of(x, Alive) && Of(y, Dropped) == Of(x, Dropped)
  {
    Darken(x, Alive);
    AllDropped(x, Boxed);
    AllDropped(x, Dropped);
    PushedUnder(x, ds, Boxed);
    PushedUnder(x, ds, Dropped);
    hide Held, Inv, Points, PushMarks;
  }

  lemma {:induction false} PushedUnder(x: Tree, ds: bool, st: Status)
    requires Inv(x) && x.Node?
    ensures Of(PushMarks(true, ds, x), st) == Held(x, if ds then Dropped else Boxed, st)
  {
    var y, c := PushMarks(true, ds, x), if ds then Dropped else Boxed;
    InvStep(x);
    assert Worse(Alive, Mark(y.treeDel, y.treeDs)) == Worse(c, Mark(x.treeDel, x.treeDs));
    assert Worse(Worse(Alive, Mark(y.treeDel, y.treeDs)), Mark(y.pointDel, y.pointDs))
        == Worse(Worse(c, Mark(x.treeDel, x.treeDs)), Mark(x.pointDel, x.pointDs));
    hide Inv, Held, Worse, Mark, PushMarks;
    HeldStep(y, Alive, st);
    HeldStep(x, c, st);
  }

  lemma {:induction false} PushRan(x: Tree, ds: bool)
    requires Inv(x) && x.Node?
    ensures Ran(x, Push(true, ds), PushMarks(true, ds, x))
  {
    hide Inv, Live, Of, Held, Points, PushMarks;
    PushMarksExact(x, ds);
    PushHeld(x, ds);
    LiveIsAlive(x);
    PartitionOf(x);
    Relabelled(Live(x), Of(x, Boxed), Of(x, Dropped), Points(x));
  }

  lemma Relabelled(live: multiset<Point>, boxed: multiset<Point>, dropped: multiset<Point>, all: multiset<Point>)
    requires all == live + boxed + dropped
    ensures all == dropped + (live + boxed)
  {
  }

  /** An entry run on a sound subtree leaves it sound, does to its live points what it means, and leaves
      what it deletes boxed or dropped by its kind. */
  lemma {:induction false} RunOperationExact(t: Tree, e: LogEntry)
    requires Inv(t) && t.Node? && Deletes(e)
    ensures Ran(t, e, RunOperation(t, e))
  {
    hide Ran, AddPoint, DeleteRange, PushMarks;
    match e {
      case Insert(p) => InsertRan(t, p, t.axis);
      case Delete(b, ds) => DeleteRan(t, b, ds);
      case Push(treeDel, treeDs) => PushRan(t, treeDs);
    }
  }

  lemma RanGives(t: Tree, e: LogEntry, r: Tree)
    requires t.Node? && Ran(t, e, r)
    ensures Inv(r) && r.Node? && Live(r) == Effect(Live(t), e)
  {
  }

  /** A replayed downsample deletion leaves nothing to report: the live points of the box are dropped,
      and no point becomes boxed. */
  lemma {:induction false} SampledIsForgotten(t: Tree, b: Box)
    requires Inv(t) && t.Node?
    ensures var r := RunOperation(t, Delete(b, true));
      Of(r, Boxed) <= Of(t, Boxed) && Of(t, Dropped) + Inside(Live(t), b) <= Of(r, Dropped)
    ensures Of(RunOperation(t, Push(true, true)), Boxed) == multiset{}
  {
    hide Inv, Live, Of, Inside, Outside, DeleteRange, DeleteToll, PushMarks, Points;
    RunOperationExact(t, Delete(b, true));
    HitByDelete(Live(t), b, true);
    PushHeld(t, true);
    var r, rel := RunOperation(t, Delete(b, true)), Relabels(t, Delete(b, true));
    assert Of(t, Boxed) + multiset{} == Of(t, Boxed);
    PartOf(Of(r, Boxed), rel, Of(t, Boxed));
    PartOf(Of(t, Dropped) + Inside(Live(t), b), rel, Of(r, Dropped));
  }

  lemma PartOf(part: multiset<Point>, rest: multiset<Point>, whole: multiset<Point>)
    requires part + rest == whole
    ensures part <= whole
  {
  }

  /** Replaying a log in order adds up the meanings of its entries. */
  lemma {:induction false} ReplayExact(t: Tree, log: seq<LogEntry>)
    requires Inv(t) && t.Node? && forall e :: e in log ==> Deletes(e)
    ensures Inv(Replay(t, log)) && Replay(t, log).Node? && Live(Replay(t, log)) == Effects(Live(t), log)
    decreases |log|
  {
    hide Inv, Live, RunOperation, Effect, Deletes;
    if |log| > 0 {
      assert log[0] in log;
      RunOperationExact(t, log[0]);
      ReplayExact(RunOperation(t, log[0]), log[1..]);
    }
  }

  // ---- The invariant ----

  /** What is still to be replayed: the entry in flight, then the log. */
  ghost function Pending(s: State): seq<LogEntry> {
    if s.phase.Catching? && s.phase.inFlight.Some? then [s.phase.inFlight.value] + s.log else s.log
  }

  /** The live points the new subtree starts from. */
  ghost function Base(s: State): multiset<Point>
    requires Logging(s)
  {
    if s.phase.Copied? then multiset(s.phase.snapshot) else Live(s.phase.next)
  }

  ghost predicate Consistent(s: State) {
    && Inv(s.subtree) && s.subtree.Node?
    && (!s.phase.Swapped? ==> s.subtree.size >= MULTI_THREAD_REBUILD_POINT_NUM)
    && (s.phase.Marked? ==> s.log == [])
    && (s.phase.Catching? ==> Inv(s.phase.next) && s.phase.next.Node?)
    && (Logging(s) ==>
          && (forall e :: e in Pending(s) ==> Deletes(e))
          && Live(s.subtree) == Effects(Base(s), Pending(s)))
  }

  lemma {:induction false} AddPointGrows(t: Tree, p: Point, a: Axis)
    requires Inv(t) && t.Node?
    ensures AddPoint(t, p, false, a).tree.size == t.size + 1
    decreases Nodes(t)
  {
    AddStep(t, p, false, a);
    PushDownFacts(t);
    PushDownSummary(t);
    var u := PushDown(t);
    assert u.size == 1 + Size(u.left) + Size(u.right);
    hide Inv, Live, Of, AddPoint, PushDown;
    if Below(u.axis, p, u.point) {
      AddSonGrows(u.left, p, u.axis, t);
    } else {
      AddSonGrows(u.right, p, u.axis, t);
    }
  }

  lemma {:induction false} AddSonGrows(x: Tree, p: Point, a: Axis, t: Tree)
    requires Inv(x) && Nodes(x) < Nodes(t)
    ensures Size(AddPoint(x, p, false, a).tree) == Size(x) + 1
    decreases Nodes(t), 0, Nodes(x)
  {
    if x.Node? { AddPointGrows(x, p, a); }
  }

  /** Without rebuilding a deletion keeps every node. */
  lemma {:induction false} DeleteRangeSize(t: Tree, b: Box, ds: bool)
    requires Inv(t)
    ensures Size(DeleteRange(t, b, false, ds).tree) == Size(t)
    decreases Nodes(t)
  {
    if !Dead(t) {
      DeleteStep(t, b, false, ds);
      PushDownFacts(t);
      PushDownSummary(t);
      var u := PushDown(t);
      assert u.size == 1 + Size(u.left) + Size(u.right);
      hide Inv, Live, Of, DeleteRange, PushDown;
      DeleteRangeSize(u.left, b, ds);
      DeleteRangeSize(u.right, b, ds);
    }
  }

  // ---- Steps ----

  /** The main thread edits the old subtree and logs the edit: both sides of the equation move by
      the same effect. */
  lemma {:induction false} LoggedEdit(s: State, r: Tree, e: LogEntry)
    requires Consistent(s) && Deletes(e) && Roomy(s)
    requires Inv(r) && r.Node? && Live(r) == Effect(Live(s.subtree), e) && r.size >= s.subtree.size
    ensures Consistent(s.(subtree := r, log := Logged(s, e)))
  {
    hide Inv, Live, Effect, Effects, Deletes, Logged;
    LoggedInOrder(s, e);
    var s' := s.(subtree := r, log := Logged(s, e));
    if Logging(s) {
      assert Pending(s') == Pending(s) + [e];
      EffectsAppend(Base(s), Pending(s), e);
    }
  }

  predicate IsEdit(a: Action) { a.MainInsert? || a.MainDelete? || a.MainPush? }

  lemma {:induction false} MainKeeps(s: State, a: Action)
    requires Consistent(s) && Enabled(s, a) && IsEdit(a) && Roomy(s)
    ensures Consistent(Next(s, a))
  {
    ConsistentGives(s);
    hide Inv, Live, Effect, Consistent, AddPoint, DeleteRange, PushMarks, Local, LiveLeaf, Of, Points, Logged, Roomy;
    match a {
      case MainInsert(p, axis) =>
        InsertKeeps(s, p, axis);
      case MainDelete(b, ds) =>
        DeleteKeeps(s, b, ds);
      case MainPush(father) =>
        PushKeeps(s, father);
    }
  }

  lemma ConsistentGives(s: State)
    requires Consistent(s)
    ensures Inv(s.subtree) && s.subtree.Node?
  {
  }

  lemma {:induction false} InsertKeeps(s: State, p: Point, axis: Axis)
    requires Consistent(s) && s.subtree.Node? && Roomy(s)
    ensures Consistent(s.(subtree := AddPoint(s.subtree, p, false, axis).tree, log := Logged(s, Insert(p))))
  {
    ConsistentGives(s);
    AddPointExact(s.subtree, p, false, axis);
    AddPointGrows(s.subtree, p, axis);
    hide Inv, Live, Consistent, AddPoint, Of, Logged, Roomy;
    LoggedEdit(s, AddPoint(s.subtree, p, false, axis).tree, Insert(p));
  }

  lemma {:induction false} DeleteKeeps(s: State, b: Box, ds: bool)
    requires Consistent(s) && s.subtree.Node? && Roomy(s)
    ensures Consistent(s.(subtree := DeleteRange(s.subtree, b, false, ds).tree, log := Logged(s, Delete(b, ds))))
  {
    ConsistentGives(s);
    DeleteRangeExact(s.subtree, b, false, ds);
    DeleteRangeSize(s.subtree, b, ds);
    hide Inv, Live, Consistent, DeleteRange, Of, Inside, Outside, Retained, Logged, Roomy;
    LoggedEdit(s, DeleteRange(s.subtree, b, false, ds).tree, Delete(b, ds));
  }

  lemma {:induction false} PushKeeps(s: State, father: Tree)
    requires Consistent(s) && Enabled(s, MainPush(father)) && Roomy(s)
    ensures Consistent(Next(s, MainPush(father)))
  {
    var x := s.subtree;
    if s.phase.Swapped? {
      PushToInv(father, x);
      hide Inv, PushMarks, Local, LiveLeaf;
    } else {
      BigIsNoLeaf(x);
      assert father.treeDel;
      PushMarksExact(x, father.treeDs);
      hide Inv, Live, PushMarks, Consistent, Local, LiveLeaf, Logged, Roomy;
      ConsistentGives(s);
      LoggedEdit(s, PushTo(father, x), Push(father.treeDel, father.treeDs));
    }
  }

  lemma BigIsNoLeaf(x: Tree)
    requires x.Node? && Inv(x) && x.size >= MULTI_THREAD_REBUILD_POINT_NUM
    ensures !LiveLeaf(x)
  {
  }

  lemma {:induction false} SearchKeeps(s: State, eased: Tree)
    requires Consistent(s) && Eased(s.subtree, eased)
    ensures Consistent(s.(subtree := eased))
  {
    EasedUnharmed(s.subtree, eased);
    hide Inv, Live, Effects, Deletes, Eased, Of, Points, Balanced, Ordered;
  }

  lemma {:induction false} CopyKeeps(s: State)
    requires Consistent(s) && s.phase.Marked? && s.log == []
    ensures Consistent(Next(s, Copy))
  {
    hide *;
    ConsistentGives(s);
    FlattenExact(s.subtree);
    PushAllEased(s.subtree);
    EasedUnharmed(s.subtree, PushAll(s.subtree));
    CopyFrom(s, PushAll(s.subtree), Flatten(s.subtree));
    NextCopy(s);
  }

  lemma NextCopy(s: State)
    requires s.phase.Marked? && s.log == []
    ensures Next(s, Copy) == s.(subtree := PushAll(s.subtree), phase := Copied(Flatten(s.subtree)))
  {
  }

  lemma CopyFrom(s: State, r: Tree, snapshot: seq<Point>)
    requires Consistent(s) && s.phase.Marked? && Unharmed(s.subtree, r) && multiset(snapshot) == Live(s.subtree)
    ensures Consistent(s.(subtree := r, phase := Copied(snapshot)))
  {
    hide Inv, Live, Of, Points, Balanced, Ordered;
  }

  lemma {:induction false} BuildKeeps(s: State)
    requires Consistent(s) && s.phase.Copied? && s.phase.snapshot != []
    ensures Consistent(Next(s, BuildNew))
  {
    hide *;
    BuildCorrect(s.phase.snapshot);
    BuiltGives(Build(s.phase.snapshot), s.phase.snapshot);
    BuildFrom(s, Build(s.phase.snapshot));
  }

  lemma BuildFrom(s: State, t: Tree)
    requires Consistent(s) && s.phase.Copied? && s.phase.snapshot != []
    requires t == Build(s.phase.snapshot) && Inv(t) && Live(t) == multiset(s.phase.snapshot) && t.Node?
    ensures Consistent(Next(s, BuildNew))
  {
    hide Inv, Live, Build, Effects, Deletes;
    assert Pending(Next(s, BuildNew)) == Pending(s);
  }

  lemma {:induction false} TakeKeeps(s: State)
    requires Consistent(s) && Enabled(s, Take)
    ensures Consistent(Next(s, Take))
  {
    hide Inv, Live, Effects, Deletes;
    assert Pending(Next(s, Take)) == Pending(s);
  }

  lemma {:induction false} RunKeeps(s: State)
    requires Consistent(s) && Enabled(s, Run)
    ensures Consistent(Next(s, Run))
  {
    hide Inv, Live, RunOperation, Deletes, Effect, Effects;
    var e := s.phase.inFlight.value;
    assert Pending(s) == [e] + s.log;
    RunOperationExact(s.phase.next, e);
    EffectsFirst(Live(s.phase.next), e, s.log);
  }

  lemma EffectsFirst(m: multiset<Point>, e: LogEntry, log: seq<LogEntry>)
    ensures Effects(m, [e] + log) == Effects(Effect(m, e), log)
  {
    hide Effect;
    assert ([e] + log)[1..] == log;
  }

  /** Every step of either thread keeps the old subtree's live points equal to what the new one will
      have once the entry in flight and the log are replayed. */
  lemma {:induction false} NextKeeps(s: State, a: Action)
    requires Consistent(s) && Enabled(s, a) && (IsEdit(a) ==> Roomy(s))
    ensures Consistent(Next(s, a))
  {
    hide Consistent, Eased, Logged, Roomy;
    match a {
      case MainSearch(eased) => SearchKeeps(s, eased);
      case Copy => CopyKeeps(s);
      case BuildNew => BuildKeeps(s);
      case Take => TakeKeeps(s);
      case Run => RunKeeps(s);
      case Swap => SwapExact(s);
      case _ => MainKeeps(s, a);
    }
  }

  /** At the swap old and new subtree hold the same live points. */
  lemma {:induction false} SwapExact(s: State)
    requires Consistent(s) && Enabled(s, Swap)
    ensures Consistent(Next(s, Swap)) && Live(Next(s, Swap).subtree) == Live(s.subtree)
  {
    hide Inv, Live, Deletes;
    assert Pending(s) == [];
  }

  /** Literally: replaying what is pending on the new subtree gives the old one's live points. */
  lemma {:induction false} ReplayCatchesUp(s: State)
    requires Consistent(s) && s.phase.Catching?
    ensures Live(Replay(s.phase.next, Pending(s))) == Live(s.subtree)
  {
    ReplayExact(s.phase.next, Pending(s));
    hide Inv, Live, Replay, Effects, Deletes;
  }

  // ---- Runs ----

  /** Some interleaving of the two threads' steps. */
  ghost predicate Interleaving(states: seq<State>, actions: seq<Action>) {
    && |states| == |actions| + 1
    && forall i :: 0 <= i < |actions| ==> Enabled(states[i], actions[i]) && states[i + 1] == Next(states[i], actions[i])
  }

  /** What the main thread's own operations do to the live points, whatever the other thread does. */
  ghost function MainEffect(m: multiset<Point>, a: Action): multiset<Point> {
    match a
    case MainInsert(p, _) => m + multiset{p}
    case MainDelete(b, _) => Outside(m, b)
    case MainPush(father) => if father.Node? && father.treeDel then multiset{} else m
    case _ => m
  }

  lemma {:induction false} StepTransparent(s: State, a: Action)
    requires Consistent(s) && Enabled(s, a)
    ensures Live(Next(s, a).subtree) == MainEffect(Live(s.subtree), a)
  {
    ConsistentGives(s);
    var x := s.subtree;
    match a {
      case MainInsert(p, axis) =>
        AddPointExact(x, p, false, axis);
        hide Inv, Live, AddPoint, Of;
      case MainDelete(b, ds) =>
        DeleteRangeExact(x, b, false, ds);
        hide Inv, Live, DeleteRange, Of, Inside, Outside;
      case MainPush(father) =>
        if !father.treeDel { PushToInv(father, x); }
      case MainSearch(eased) =>
        EasedUnharmed(x, eased);
        hide Inv, Live, Eased, Of, Points;
      case Copy =>
        PushAllEased(x);
        EasedUnharmed(x, PushAll(x));
        hide Inv, Live, Eased, PushAll, Of, Points;
      case Swap =>
        SwapExact(s);
        hide Inv, Live;
      case _ =>
    }
  }

  /** Over every interleaving in which the log never holds more than `Q_LEN` entries the subtree behaves
      as if there were no rebuild thread. */
  lemma {:induction false} RunConsistent(states: seq<State>, actions: seq<Action>)
    requires Interleaving(states, actions) && Consistent(states[0])
    requires forall i :: 0 <= i < |states| ==> |states[i].log| <= OpQueue.Q_LEN
    ensures forall i :: 0 <= i < |states| ==> Consistent(states[i])
    ensures forall i :: 0 <= i < |actions| ==>
      Live(states[i + 1].subtree) == MainEffect(Live(states[i].subtree), actions[i])
  {
    hide Consistent, Enabled, Next, Live, MainEffect, Roomy, IsEdit;
    for i := 0 to |actions|
      invariant forall j :: 0 <= j <= i ==> Consistent(states[j])
      invariant forall j :: 0 <= j < i ==>
        Live(states[j + 1].subtree) == MainEffect(Live(states[j].subtree), actions[j])
    {
      RoomLeft(states[i], actions[i], states[i + 1]);
      NextKeeps(states[i], actions[i]);
      StepTransparent(states[i], actions[i]);
    }
  }

  /** An entry that fits was pushed onto a log with room for it. */
  lemma RoomLeft(s: State, a: Action, x: State)
    requires Enabled(s, a) && x == Next(s, a) && |x.log| <= OpQueue.Q_LEN
    ensures IsEdit(a) ==> Roomy(s)
  {
    hide AddPoint, DeleteRange, PushTo, Local, LiveLeaf, OpQueue.Pushed;
  }

  // ---- What is reported across a rebuild ----

  /** What the entries of a log delete, in order, and leave boxed (or, with `ds`, dropped). */
  ghost function Hits(m: multiset<Point>, log: seq<LogEntry>, ds: bool): multiset<Point>
    decreases |log|
  {
    if |log| == 0 then multiset{} else HitBy(m, log[0], ds) + Hits(Effect(m, log[0]), log[1..], ds)
  }

  lemma {:induction false} HitsAppend(m: multiset<Point>, log: seq<LogEntry>, e: LogEntry, ds: bool)
    ensures Hits(m, log + [e], ds) == Hits(m, log, ds) + HitBy(Effects(m, log), e, ds)
    decreases |log|
  {
    hide HitBy, Effect;
    if |log| == 0 {
      assert log + [e] == [e];
      assert Hits(Effect(m, e), [], ds) == multiset{};
    } else {
      assert (log + [e])[1..] == log[1..] + [e] && (log + [e])[0] == log[0];
      HitsAppend(Effect(m, log[0]), log[1..], e, ds);
    }
  }

  /** What one rebuild keeps account of from the copy on: the snapshot, the points recorded and the
      dropped ones left behind when it was taken, the entries replayed so far, and the boxed points that
      downsampling entries relabelled in the old and in the new subtree. */
  datatype Tally = Tally(snapshot: seq<Point>, reported: seq<Point>, leftBehind: multiset<Point>,
                         replayed: seq<LogEntry>, oldRelabelled: multiset<Point>, newRelabelled: multiset<Point>)

  /** A subtree that held `m` live, `boxed` and `dropped` points before the entries of `log`. */
  ghost predicate Accounts(t: Tree, m: multiset<Point>, boxed: multiset<Point>, dropped: multiset<Point>,
                           log: seq<LogEntry>, relabelled: multiset<Point>) {
    && Live(t) == Effects(m, log)
    && Of(t, Boxed) + relabelled == boxed + Hits(m, log, false)
    && Of(t, Dropped) == dropped + (Hits(m, log, true) + relabelled)
  }

  /** The old subtree has seen every entry, the new one those replayed. */
  ghost predicate Tallied(s: State, g: Tally) {
    Logging(s) ==>
      && Accounts(s.subtree, multiset(g.snapshot), multiset(g.reported), g.leftBehind, g.replayed + Pending(s),
                  g.oldRelabelled)
      && (if s.phase.Copied? then s.phase.snapshot == g.snapshot && g.replayed == [] && g.newRelabelled == multiset{}
          else Accounts(s.phase.next, multiset(g.snapshot), multiset{}, multiset{}, g.replayed, g.newRelabelled))
  }

  /** The main thread's edit as the entry it logs. */
  function EntryOf(a: Action): LogEntry
    requires IsEdit(a) && (a.MainPush? ==> a.father.Node?)
  {
    match a
    case MainInsert(p, _) => Insert(p)
    case MainDelete(b, ds) => Delete(b, ds)
    case MainPush(father) => Push(father.treeDel, father.treeDs)
    case _ => assert false; Insert(Point(0.0, 0.0, 0.0, 0.0))
  }

  ghost function NextTally(s: State, a: Action, g: Tally): Tally
    requires Enabled(s, a)
  {
    if a.Copy? then
      Tally(Flatten(s.subtree), Recorded(s.subtree), Of(s.subtree, Dropped), [], multiset{}, multiset{})
    else if a.Run? then
      var e := s.phase.inFlight.value;
      g.(replayed := g.replayed + [e], newRelabelled := g.newRelabelled + Relabels(s.phase.next, e))
    else if IsEdit(a) then g.(oldRelabelled := g.oldRelabelled + Relabels(s.subtree, EntryOf(a)))
    else g
  }

  lemma {:induction false} AccountsNext(t: Tree, m: multiset<Point>, boxed: multiset<Point>, dropped: multiset<Point>,
                                        log: seq<LogEntry>, relabelled: multiset<Point>, e: LogEntry, r: Tree)
    requires t.Node? && Ran(t, e, r) && Accounts(t, m, boxed, dropped, log, relabelled)
    ensures Accounts(r, m, boxed, dropped, log + [e], relabelled + Relabels(t, e))
  {
    hide Inv, Live, Of, Effect, Effects, HitBy, Hits, Relabels;
    EffectsAppend(m, log, e);
    HitsAppend(m, log, e, false);
    HitsAppend(m, log, e, true);
    AddBoxed(Of(t, Boxed), relabelled, boxed, Hits(m, log, false), Of(r, Boxed), Relabels(t, e), HitBy(Live(t), e, false));
    AddDropped(Of(t, Dropped), relabelled, dropped, Hits(m, log, true), Of(r, Dropped), Relabels(t, e),
               HitBy(Live(t), e, true));
  }

  lemma AddBoxed(o: multiset<Point>, rel: multiset<Point>, b: multiset<Point>, h: multiset<Point>,
                 n: multiset<Point>, more: multiset<Point>, hit: multiset<Point>)
    requires o + rel == b + h && n + more == o + hit
    ensures n + (rel + more) == b + (h + hit)
  {
    forall q ensures (n + (rel + more))[q] == (b + (h + hit))[q] {
      assert (o + rel)[q] == (b + h)[q] && (n + more)[q] == (o + hit)[q];
    }
  }

  lemma AddDropped(o: multiset<Point>, rel: multiset<Point>, d: multiset<Point>, h: multiset<Point>,
                   n: multiset<Point>, more: multiset<Point>, hit: multiset<Point>)
    requires o == d + (h + rel) && n == o + (hit + more)
    ensures n == d + ((h + hit) + (rel + more))
  {
  }

  /** An edit of the main thread is its entry run on the old subtree. */
  lemma {:induction false} EditRan(s: State, a: Action)
    requires Consistent(s) && Enabled(s, a) && IsEdit(a) && !s.phase.Swapped?
    ensures (a.MainPush? ==> a.father.Node?) && Ran(s.subtree, EntryOf(a), Next(s, a).subtree)
    ensures Next(s, a) == s.(subtree := Next(s, a).subtree, log := Logged(s, EntryOf(a)))
  {
    ConsistentGives(s);
    hide Ran, AddPoint, DeleteRange, PushMarks, Logged;
    match a {
      case MainInsert(p, axis) => InsertRan(s.subtree, p, axis);
      case MainDelete(b, ds) => DeleteRan(s.subtree, b, ds);
      case MainPush(father) =>
        BigIsNoLeaf(s.subtree);
        PushRan(s.subtree, father.treeDs);
    }
  }

  lemma {:induction false} EditTallied(s: State, a: Action, g: Tally)
    requires Consistent(s) && Enabled(s, a) && IsEdit(a) && Roomy(s) && Tallied(s, g)
    ensures Tallied(Next(s, a), NextTally(s, a, g))
  {
    hide *;
    if Logging(s) {
      LoggingIs(s);
      ConsistentGives(s);
      EditRan(s, a);
      EditTally(s, a, g);
      LoggedTallied(s, EntryOf(a), Next(s, a).subtree, g);
    } else {
      EditQuiet(s, a, g);
    }
  }

  lemma LoggingIs(s: State)
    ensures Logging(s) ==> !s.phase.Swapped?
  {
  }

  lemma EditTally(s: State, a: Action, g: Tally)
    requires Enabled(s, a) && IsEdit(a) && s.subtree.Node? && (a.MainPush? ==> a.father.Node?)
    ensures NextTally(s, a, g) == g.(oldRelabelled := g.oldRelabelled + Relabels(s.subtree, EntryOf(a)))
  {
    hide Enabled, Relabels, EntryOf;
  }

  lemma EditQuiet(s: State, a: Action, g: Tally)
    requires Enabled(s, a) && IsEdit(a) && !Logging(s)
    ensures Tallied(Next(s, a), NextTally(s, a, g))
  {
    hide AddPoint, DeleteRange, PushTo, Relabels, Accounts, Local, LiveLeaf, Logged;
  }

  lemma {:induction false} LoggedTallied(s: State, e: LogEntry, r: Tree, g: Tally)
    requires s.subtree.Node? && Logging(s) && Roomy(s) && Tallied(s, g) && Ran(s.subtree, e, r)
    ensures Tallied(s.(subtree := r, log := Logged(s, e)),
                    g.(oldRelabelled := g.oldRelabelled + Relabels(s.subtree, e)))
  {
    hide Ran, Accounts, Relabels, Logged;
    LoggedInOrder(s, e);
    var y := s.(subtree := r, log := Logged(s, e));
    assert g.replayed + Pending(y) == (g.replayed + Pending(s)) + [e];
    AccountsNext(s.subtree, multiset(g.snapshot), multiset(g.reported), g.leftBehind, g.replayed + Pending(s),
                 g.oldRelabelled, e, r);
  }

  lemma {:induction false} RunTallied(s: State, g: Tally)
    requires Consistent(s) && Enabled(s, Run) && Tallied(s, g)
    ensures Tallied(Next(s, Run), NextTally(s, Run, g))
  {
    hide Inv, Live, Effects, Deletes, RunOperation, Ran, Accounts, Relabels;
    var e := s.phase.inFlight.value;
    assert Pending(s) == [e] + s.log;
    assert e in Pending(s);
    RunOperationExact(s.phase.next, e);
    RanGives(s.phase.next, e, RunOperation(s.phase.next, e));
    assert (g.replayed + [e]) + s.log == g.replayed + Pending(s);
    AccountsNext(s.phase.next, multiset(g.snapshot), multiset{}, multiset{}, g.replayed, g.newRelabelled, e,
                 RunOperation(s.phase.next, e));
  }

  /** Copying takes the live points, records the boxed ones and leaves the dropped ones behind. */
  lemma {:induction false} CopiedAccounts(t: Tree)
    requires Inv(t)
    ensures Accounts(PushAll(t), multiset(Flatten(t)), multiset(Recorded(t)), Of(t, Dropped), [], multiset{})
  {
    hide Inv, Live, Of, Points, Balanced, Ordered, PushAll, Recorded, Flatten, Eased;
    FlattenExact(t);
    RecordedExact(t);
    PushAllEased(t);
    EasedUnharmed(t, PushAll(t));
  }

  lemma CopyTallied(s: State, g: Tally)
    requires Consistent(s) && Enabled(s, Copy)
    ensures Tallied(Next(s, Copy), NextTally(s, Copy, g))
  {
    hide Inv, Live, PushAll, Recorded, Flatten, Effects, Accounts;
    CopiedAccounts(s.subtree);
    assert s.log == [];
    assert [] + Pending(Next(s, Copy)) == [];
  }

  lemma {:induction false} SearchTallied(s: State, eased: Tree, g: Tally)
    requires Consistent(s) && Enabled(s, MainSearch(eased)) && Tallied(s, g)
    ensures Tallied(Next(s, MainSearch(eased)), g)
  {
    EasedUnharmed(s.subtree, eased);
    hide Inv, Live, Of, Eased, Points, Balanced, Ordered, Hits, Effects;
    assert Pending(Next(s, MainSearch(eased))) == Pending(s);
  }

  lemma BuiltAccounts(t: Tree, snapshot: seq<Point>)
    requires Live(t) == multiset(snapshot) && Of(t, Boxed) == multiset{} && Of(t, Dropped) == multiset{}
    ensures Accounts(t, multiset(snapshot), multiset{}, multiset{}, [], multiset{})
  {
    hide Live, Of;
  }

  lemma {:induction false} BuildTallied(s: State, g: Tally)
    requires s.phase.Copied? && s.phase.snapshot != [] && Tallied(s, g)
    ensures Tallied(Next(s, BuildNew), g)
  {
    hide *;
    BuildCorrect(s.phase.snapshot);
    BuiltGives(Build(s.phase.snapshot), s.phase.snapshot);
    BuiltAccounts(Build(s.phase.snapshot), s.phase.snapshot);
    NextBuilt(s);
    CatchingTallied(s, g, Build(s.phase.snapshot));
  }

  lemma NextBuilt(s: State)
    requires s.phase.Copied? && s.phase.snapshot != []
    ensures Next(s, BuildNew) == s.(phase := Catching(Build(s.phase.snapshot), None))
  {
    hide Build;
  }

  lemma CatchingTallied(s: State, g: Tally, t: Tree)
    requires s.phase.Copied? && Tallied(s, g)
    requires Accounts(t, multiset(s.phase.snapshot), multiset{}, multiset{}, [], multiset{})
    ensures Tallied(s.(phase := Catching(t, None)), g)
  {
    hide Accounts;
    assert Pending(s.(phase := Catching(t, None))) == Pending(s);
  }

  lemma {:induction false} TakeTallied(s: State, g: Tally)
    requires Enabled(s, Take) && Tallied(s, g)
    ensures Tallied(Next(s, Take), g)
  {
    hide Accounts;
    assert Pending(Next(s, Take)) == Pending(s);
  }

  lemma {:induction false} StepTallied(s: State, a: Action, g: Tally)
    requires Consistent(s) && Enabled(s, a) && (IsEdit(a) ==> Roomy(s)) && Tallied(s, g)
    ensures Tallied(Next(s, a), NextTally(s, a, g))
  {
    hide *;
    if IsEdit(a) {
      EditTallied(s, a, g);
    } else {
      QuietTally(s, a, g);
      match a {
        case Copy => CopyTallied(s, g);
        case Run => RunTallied(s, g);
        case MainSearch(eased) => SearchTallied(s, eased, g);
        case BuildNew => EnabledBuild(s); BuildTallied(s, g);
        case Take => TakeTallied(s, g);
        case Swap => SwapTallied(s, g);
        case _ => EditsAre(a);
      }
    }
  }

  lemma QuietTally(s: State, a: Action, g: Tally)
    requires Enabled(s, a) && !IsEdit(a)
    ensures !a.Copy? && !a.Run? ==> NextTally(s, a, g) == g
  {
  }

  lemma EnabledBuild(s: State)
    requires Enabled(s, BuildNew)
    ensures s.phase.Copied? && s.phase.snapshot != []
  {
  }

  lemma EditsAre(a: Action)
    ensures IsEdit(a) <==> a.MainInsert? || a.MainDelete? || a.MainPush?
  {
  }

  lemma SwapTallied(s: State, g: Tally)
    requires Enabled(s, Swap)
    ensures Tallied(Next(s, Swap), g)
  {
  }

  /** Between the old subtree and the new one, but for what downsampling entries relabelled on either
      side: the old one's boxed points are those recorded at the copy and those of the new one, its
      dropped points those left behind at the copy and those of the new one. No boxed point of the new
      one but a plain entry box-deleted it. */
  ghost predicate HandedOver(old': Tree, succ: Tree, g: Tally) {
    && Of(old', Boxed) + g.oldRelabelled == multiset(g.reported) + (Of(succ, Boxed) + g.newRelabelled)
    && Of(old', Dropped) + g.newRelabelled == g.leftBehind + (Of(succ, Dropped) + g.oldRelabelled)
    && Of(succ, Boxed) <= Hits(multiset(g.snapshot), g.replayed, false)
  }

  /** At the swap nothing is lost and nothing will be reported twice. */
  lemma {:induction false} SwapReports(s: State, g: Tally)
    requires Consistent(s) && Enabled(s, Swap) && Tallied(s, g)
    ensures HandedOver(s.subtree, Next(s, Swap).subtree, g)
  {
    hide Inv, Live, Of, Deletes, Hits, Effects;
    assert g.replayed + Pending(s) == g.replayed;
    SwapSums(Of(s.subtree, Dropped), g.leftBehind, Hits(multiset(g.snapshot), g.replayed, true), g.oldRelabelled,
             Of(s.phase.next, Dropped), g.newRelabelled);
    var hits := Hits(multiset(g.snapshot), g.replayed, false);
    assert multiset{} + hits == hits;
    PartOf(Of(s.phase.next, Boxed), g.newRelabelled, hits);
  }

  lemma SwapSums(old': multiset<Point>, left: multiset<Point>, h: multiset<Point>, oldRel: multiset<Point>,
                 new': multiset<Point>, newRel: multiset<Point>)
    requires old' == left + (h + oldRel) && new' == multiset{} + (h + newRel)
    ensures old' + newRel == left + (new' + oldRel)
  {
  }

  // ---- Over whole interleavings ----

  /** The account as it stands at state `i` of an interleaving. */
  ghost function TallyAt(states: seq<State>, actions: seq<Action>, i: nat): Tally
    requires i <= |actions| < |states| && Interleaving(states, actions)
  {
    if i == 0 then Tally([], [], multiset{}, [], multiset{}, multiset{})
    else NextTally(states[i - 1], actions[i - 1], TallyAt(states, actions, i - 1))
  }

  lemma NothingYet(s: State, g: Tally)
    requires s.phase.Marked?
    ensures Tallied(s, g)
  {
  }

  /** Over every interleaving from before the copy. */
  lemma {:induction false} RunReported(states: seq<State>, actions: seq<Action>)
    requires Interleaving(states, actions) && Consistent(states[0]) && states[0].phase.Marked?
    requires forall i :: 0 <= i < |states| ==> |states[i].log| <= OpQueue.Q_LEN
    ensures forall i :: 0 <= i < |states| ==> Tallied(states[i], TallyAt(states, actions, i))
    ensures forall i :: 0 <= i < |actions| && actions[i].Swap? ==>
      HandedOver(states[i].subtree, states[i + 1].subtree, TallyAt(states, actions, i))
  {
    hide Consistent, Enabled, Next, NextTally, Tallied, HandedOver, MainEffect, Live, Roomy, IsEdit;
    RunConsistent(states, actions);
    NothingYet(states[0], TallyAt(states, actions, 0));
    for i := 0 to |actions|
      invariant forall j :: 0 <= j <= i ==> Tallied(states[j], TallyAt(states, actions, j))
      invariant forall j :: 0 <= j < i && actions[j].Swap? ==>
        HandedOver(states[j].subtree, states[j + 1].subtree, TallyAt(states, actions, j))
    {
      RoomLeft(states[i], actions[i], states[i + 1]);
      if actions[i].Swap? { SwapReports(states[i], TallyAt(states, actions, i)); }
      StepTallied(states[i], actions[i], TallyAt(states, actions, i));
    }
  }

  /** An edit of a downsampling insert. */
  predicate SamplingEdit(a: Action) {
    (a.MainDelete? && a.ds) || (a.MainPush? && a.father.Node? && a.father.treeDs)
  }

  /** No downsampling entry is pending, and none has relabelled anything. */
  ghost predicate Plain(s: State, g: Tally) {
    Logging(s) ==>
      g.oldRelabelled == multiset{} && g.newRelabelled == multiset{} && forall e :: e in Pending(s) ==> !Samples(e)
  }

  lemma {:induction false} StepPlain(s: State, a: Action, g: Tally)
    requires Consistent(s) && Enabled(s, a) && (IsEdit(a) ==> Roomy(s)) && Plain(s, g) && !SamplingEdit(a)
    ensures Plain(Next(s, a), NextTally(s, a, g))
  {
    if IsEdit(a) {
      if Logging(s) { EditPlain(s, a, g); }
    } else if a.Run? {
      RunPlain(s, g);
    }
    hide Consistent, Inv, Of, AddPoint, DeleteRange, PushTo, RunOperation, Build, Flatten, PushAll, Recorded, Relabels,
         Logged, Local, LiveLeaf;
  }

  lemma {:induction false} EditPlain(s: State, a: Action, g: Tally)
    requires Consistent(s) && Enabled(s, a) && IsEdit(a) && Roomy(s) && Logging(s) && Plain(s, g) && !SamplingEdit(a)
    ensures Plain(Next(s, a), NextTally(s, a, g))
  {
    hide *;
    LoggingIs(s);
    ConsistentGives(s);
    EditRan(s, a);
    EditTally(s, a, g);
    PlainEntry(a);
    PlainRelabels(s.subtree, EntryOf(a), Next(s, a).subtree);
    LoggedPlain(s, EntryOf(a), Next(s, a).subtree, g);
    assert g.(oldRelabelled := g.oldRelabelled + multiset{}) == g;
  }

  lemma PlainEntry(a: Action)
    requires IsEdit(a) && (a.MainPush? ==> a.father.Node?) && !SamplingEdit(a)
    ensures !Samples(EntryOf(a))
  {
  }

  lemma LoggedPlain(s: State, e: LogEntry, r: Tree, g: Tally)
    requires Logging(s) && Roomy(s) && Plain(s, g) && !Samples(e)
    ensures Plain(s.(subtree := r, log := Logged(s, e)), g)
  {
    hide Samples, Logged;
    LoggedInOrder(s, e);
    assert Pending(s.(subtree := r, log := Logged(s, e))) == Pending(s) + [e];
  }

  lemma PlainRelabels(t: Tree, e: LogEntry, r: Tree)
    requires t.Node? && Ran(t, e, r) && !Samples(e)
    ensures Relabels(t, e) == multiset{}
  {
  }

  lemma {:induction false} RunPlain(s: State, g: Tally)
    requires Consistent(s) && Enabled(s, Run) && Plain(s, g)
    ensures Plain(Next(s, Run), NextTally(s, Run, g))
  {
    hide Inv, Live, Effects, Deletes, RunOperation, Ran, Relabels, Samples;
    var e := s.phase.inFlight.value;
    assert Pending(s) == [e] + s.log;
    assert e in Pending(s);
    RunOperationExact(s.phase.next, e);
    PlainRelabels(s.phase.next, e, RunOperation(s.phase.next, e));
  }

  /** Without downsampling the boxed points are exactly those recorded at the copy and those the new
      subtree still holds, at every swap. */
  lemma {:induction false} PlainRunReported(states: seq<State>, actions: seq<Action>)
    requires Interleaving(states, actions) && Consistent(states[0]) && states[0].phase.Marked?
    requires forall i :: 0 <= i < |states| ==> |states[i].log| <= OpQueue.Q_LEN
    requires forall a :: a in actions ==> !SamplingEdit(a)
    ensures forall i :: 0 <= i < |actions| && actions[i].Swap? ==>
      Of(states[i].subtree, Boxed) == multiset(TallyAt(states, actions, i).reported) + Of(states[i + 1].subtree, Boxed)
  {
    hide Consistent, Enabled, Next, NextTally, Tallied, Plain, MainEffect, Live, Of, Roomy, IsEdit, SamplingEdit;
    RunConsistent(states, actions);
    RunReported(states, actions);
    PlainAtFirst(states[0], TallyAt(states, actions, 0));
    for i := 0 to |actions|
      invariant forall j :: 0 <= j <= i ==> Plain(states[j], TallyAt(states, actions, j))
      invariant forall j :: 0 <= j < i && actions[j].Swap? ==>
        Of(states[j].subtree, Boxed) == multiset(TallyAt(states, actions, j).reported) + Of(states[j + 1].subtree, Boxed)
    {
      RoomLeft(states[i], actions[i], states[i + 1]);
      assert actions[i] in actions;
      StepPlain(states[i], actions[i], TallyAt(states, actions, i));
      if actions[i].Swap? { PlainSwap(states[i], TallyAt(states, actions, i)); }
    }
  }

  lemma PlainAtFirst(s: State, g: Tally)
    requires s.phase.Marked?
    ensures Plain(s, g)
  {
  }

  lemma {:induction false} PlainSwap(s: State, g: Tally)
    requires Consistent(s) && Enabled(s, Swap) && Tallied(s, g) && Plain(s, g)
    ensures Of(s.subtree, Boxed) == multiset(g.reported) + Of(Next(s, Swap).subtree, Boxed)
  {
    hide Consistent, Tallied, Of, Hits;
    SwapReports(s, g);
    assert Of(Next(s, Swap).subtree, Boxed) + multiset{} == Of(Next(s, Swap).subtree, Boxed);
  }
}
