/** The map index over whole runs: a plain multiset to its user, an exact ledger of points inside. */
module Runs {
  import opened Geometry
  import opened Multisets
  import opened Tree
  import opened Invariant
  import opened Rebuilding
  import opened Edits
  import opened Searches
  import opened Neighbours
  import opened Voxels

  /** `Delete_Point_Boxes`. */
  function DeleteAll(t: Tree, boxes: seq<Box>): Removal {
    if |boxes| == 0 then Removal(t, 0, [])
    else
      var a := DeleteAll(t, boxes[..|boxes| - 1]);
      var e := DeleteRange(a.tree, boxes[|boxes| - 1], true, false);
      Removal(e.tree, a.count + e.count, a.recorded + e.recorded)
  }

  /** The root, and the points a box deleted that nobody has asked for yet (`Points_deleted`). */
  datatype Index = Index(root: Tree, waiting: seq<Point>)

  datatype Op =
    | Building(cloud: seq<Point>)
    | Adding(points: seq<Point>, downsample: bool)
    | Deleting(boxes: seq<Box>)
    | FindingNearest(q: Point, k: nat, maxDist: Ext)
    | SearchingBox(box: Box)
    | SearchingRadius(q: Point, radius: real)
    | Acquiring

  /** What does not change during a run: `downsample_size` and the library's square root. */
  datatype Setup = Setup(voxel: real, sqrt: real -> real)

  ghost predicate Usable(c: Setup) { c.voxel > 0.0 && IsSqrt(c.sqrt) }

  /** Points are added to a built map only: `Add_Points` reads the root's axis. */
  predicate Allowed(x: Index, op: Op) { op.Adding? ==> op.points == [] || x.root.Node? }

  function Step(c: Setup, x: Index, op: Op): Index
    requires c.voxel > 0.0
  {
    match op
    case Building(cloud) => Index(Build(cloud), x.waiting)
    case Adding(points, downsample) =>
      if downsample then
        var e := StoreAll(x.root, points, c.voxel);
        Index(e.tree, x.waiting + e.recorded)
      else
        var e := InsertAll(x.root, points);
        Index(e.tree, x.waiting + e.recorded)
    case Deleting(boxes) =>
      var e := DeleteAll(x.root, boxes);
      Index(e.tree, x.waiting + e.recorded)
    case FindingNearest(q, k, maxDist) => x.(root := NearestSearch(x.root, q, k, maxDist).tree)
    case SearchingBox(box) => x.(root := SearchRange(x.root, box).tree)
    case SearchingRadius(q, radius) => x.(root := SearchRadius(x.root, q, radius, c.sqrt).tree)
    case Acquiring => x.(waiting := [])
  }

  // ---- The plain multiset ----

  ghost function OutsideAll(m: multiset<Point>, boxes: seq<Box>): multiset<Point> {
    if |boxes| == 0 then m else Outside(OutsideAll(m, boxes[..|boxes| - 1]), boxes[|boxes| - 1])
  }

  /** What each operation means for a plain multiset of points. */
  ghost predicate Meaning(c: Setup, m: multiset<Point>, op: Op, m': multiset<Point>)
  {
    match op
    case Building(cloud) => m' == multiset(cloud)
    case Adding(points, downsample) =>
      if downsample then
        forall v: Voxel ::
          VoxelHolds(Inside(m, BoxOf(v, c.voxel)), Inside(multiset(points), BoxOf(v, c.voxel)),
                     Inside(m', BoxOf(v, c.voxel)), VoxelCentre(v, c.voxel))
      else m' == m + multiset(points)
    case Deleting(boxes) => m' == OutsideAll(m, boxes)
    case _ => m' == m
  }

  // ---- Lists of edits ----

  ghost function InsertAllChange(t: Tree, ps: seq<Point>): Change {
    if |ps| == 0 then NONE
    else
      var a := InsertAll(t, ps[..|ps| - 1]).tree;
      Both(InsertAllChange(t, ps[..|ps| - 1]), AddChange(a, ps[|ps| - 1], if a.Nil? then 0 else a.axis))
  }

  lemma {:induction false} InsertAllExact(t: Tree, ps: seq<Point>)
    requires Inv(t) && t.Node?
    ensures var e := InsertAll(t, ps);
      && Kept(t, multiset(ps), e.tree, e.recorded, InsertAllChange(t, ps)) && Live(e.tree) == Live(t) + multiset(ps)
    decreases |ps|
  {
    if |ps| == 0 {
      SelfEased(t);
      EasedKept(t, t);
      hide Inv, Live, Points, Ordered, Balanced, Eased, Kept;
    } else {
      InsertAllExact(t, ps[..|ps| - 1]);
      InsertAllNext(t, ps);
    }
  }

  lemma {:induction false} InsertAllNext(t: Tree, ps: seq<Point>)
    requires |ps| > 0
    requires var rest := ps[..|ps| - 1];
      var a := InsertAll(t, rest);
      && Kept(t, multiset(rest), a.tree, a.recorded, InsertAllChange(t, rest)) && Live(a.tree) == Live(t) + multiset(rest)
    ensures var e := InsertAll(t, ps);
      && Kept(t, multiset(ps), e.tree, e.recorded, InsertAllChange(t, ps)) && Live(e.tree) == Live(t) + multiset(ps)
  {
    hide *;
    var rest, p := ps[..|ps| - 1], ps[|ps| - 1];
    assert ps == rest + [p];
    var a := InsertAll(t, rest);
    KeptGives(t, multiset(rest), a.tree, a.recorded, InsertAllChange(t, rest));
    AddKept(a.tree, p, a.tree.axis);
    var e := AddPoint(a.tree, p, true, a.tree.axis);
    KeptThen(t, a.tree, e.tree, multiset(rest), multiset{p}, a.recorded, e.recorded,
             InsertAllChange(t, rest), AddChange(a.tree, p, a.tree.axis));
    assert multiset(ps) == multiset(rest) + multiset{p};
    InsertAllStep(t, ps);
  }

  lemma InsertAllStep(t: Tree, ps: seq<Point>)
    requires |ps| > 0 && InsertAll(t, ps[..|ps| - 1]).tree.Node?
    ensures var a := InsertAll(t, ps[..|ps| - 1]);
      var e := AddPoint(a.tree, ps[|ps| - 1], true, a.tree.axis);
      && InsertAll(t, ps) == Edited(e.tree, a.recorded + e.recorded)
      && InsertAllChange(t, ps)
         == Both(InsertAllChange(t, ps[..|ps| - 1]), AddChange(a.tree, ps[|ps| - 1], a.tree.axis))
  {
    hide AddPoint, AddChange, Both;
  }

  ghost function DeleteAllChange(t: Tree, boxes: seq<Box>): Change {
    if |boxes| == 0 then NONE
    else
      var a := DeleteAll(t, boxes[..|boxes| - 1]).tree;
      Both(DeleteAllChange(t, boxes[..|boxes| - 1]), DeleteChange(a, boxes[|boxes| - 1], false))
  }

  lemma {:induction false} DeleteAllExact(t: Tree, boxes: seq<Box>)
    requires Inv(t) && t.Node?
    ensures var e := DeleteAll(t, boxes);
      && Kept(t, multiset{}, e.tree, e.recorded, DeleteAllChange(t, boxes))
      && Live(e.tree) == OutsideAll(Live(t), boxes) && e.count == |Live(t)| - |Live(e.tree)|
    decreases |boxes|
  {
    if |boxes| == 0 {
      SelfEased(t);
      EasedKept(t, t);
      hide Inv, Live, Points, Ordered, Balanced, Eased, Kept;
    } else {
      DeleteAllExact(t, boxes[..|boxes| - 1]);
      DeleteAllNext(t, boxes);
    }
  }

  lemma {:induction false} DeleteAllNext(t: Tree, boxes: seq<Box>)
    requires |boxes| > 0
    requires var rest := boxes[..|boxes| - 1];
      var a := DeleteAll(t, rest);
      && Kept(t, multiset{}, a.tree, a.recorded, DeleteAllChange(t, rest))
      && Live(a.tree) == OutsideAll(Live(t), rest) && a.count == |Live(t)| - |Live(a.tree)|
    ensures var e := DeleteAll(t, boxes);
      && Kept(t, multiset{}, e.tree, e.recorded, DeleteAllChange(t, boxes))
      && Live(e.tree) == OutsideAll(Live(t), boxes) && e.count == |Live(t)| - |Live(e.tree)|
  {
    hide *;
    var rest, b := boxes[..|boxes| - 1], boxes[|boxes| - 1];
    var a, ch := DeleteAll(t, rest), DeleteAllChange(t, rest);
    KeptGives(t, multiset{}, a.tree, a.recorded, ch);
    DeleteKept(a.tree, b, false);
    var e := DeleteRange(a.tree, b, true, false);
    var none: multiset<Point> := multiset{};
    KeptThen(t, a.tree, e.tree, none, none, a.recorded, e.recorded, ch, DeleteChange(a.tree, b, false));
    assert none + none == none;
    InsideOutside(Live(a.tree), b);
    DeleteAllStep(t, boxes);
  }

  lemma DeleteAllStep(t: Tree, boxes: seq<Box>)
    requires |boxes| > 0
    ensures var a := DeleteAll(t, boxes[..|boxes| - 1]);
      var e := DeleteRange(a.tree, boxes[|boxes| - 1], true, false);
      && DeleteAll(t, boxes) == Removal(e.tree, a.count + e.count, a.recorded + e.recorded)
      && DeleteAllChange(t, boxes)
         == Both(DeleteAllChange(t, boxes[..|boxes| - 1]), DeleteChange(a.tree, boxes[|boxes| - 1], false))
      && forall m :: OutsideAll(m, boxes) == Outside(OutsideAll(m, boxes[..|boxes| - 1]), boxes[|boxes| - 1])
  {
  }

  /** The points `Add_Points` really put into the tree. */
  ghost function PutAll(t: Tree, ps: seq<Point>, s: real): multiset<Point>
    requires s > 0.0
  {
    if |ps| == 0 then multiset{}
    else PutAll(t, ps[..|ps| - 1], s) + Put(StoreAll(t, ps[..|ps| - 1], s).tree, ps[|ps| - 1], s)
  }

  ghost function StoreAllChange(t: Tree, ps: seq<Point>, s: real): Change
    requires s > 0.0
  {
    if |ps| == 0 then NONE
    else
      Both(StoreAllChange(t, ps[..|ps| - 1], s), StoreChange(StoreAll(t, ps[..|ps| - 1], s).tree, ps[|ps| - 1], s))
  }

  lemma {:induction false} StoreAllKept(t: Tree, ps: seq<Point>, s: real)
    requires Inv(t) && t.Node? && s > 0.0
    ensures var e := StoreAll(t, ps, s);
      Kept(t, PutAll(t, ps, s), e.tree, e.recorded, StoreAllChange(t, ps, s))
    decreases |ps|
  {
    if |ps| == 0 {
      SelfEased(t);
      EasedKept(t, t);
      hide Inv, Live, Points, Ordered, Balanced, Eased, Kept;
    } else {
      StoreAllKept(t, ps[..|ps| - 1], s);
      StoreAllKeptNext(t, ps, s);
    }
  }

  lemma {:induction false} StoreAllKeptNext(t: Tree, ps: seq<Point>, s: real)
    requires |ps| > 0 && s > 0.0
    requires var rest := ps[..|ps| - 1];
      var a := StoreAll(t, rest, s); Kept(t, PutAll(t, rest, s), a.tree, a.recorded, StoreAllChange(t, rest, s))
    ensures var e := StoreAll(t, ps, s); Kept(t, PutAll(t, ps, s), e.tree, e.recorded, StoreAllChange(t, ps, s))
  {
    hide *;
    var rest, p := ps[..|ps| - 1], ps[|ps| - 1];
    var a, ch := StoreAll(t, rest, s), StoreAllChange(t, rest, s);
    KeptGives(t, PutAll(t, rest, s), a.tree, a.recorded, ch);
    StorePointExact(a.tree, p, s);
    var e := StorePoint(a.tree, p, s);
    KeptThen(t, a.tree, e.tree, PutAll(t, rest, s), Put(a.tree, p, s), a.recorded, e.recorded,
             ch, StoreChange(a.tree, p, s));
    PutAllStep(t, ps, s);
  }

  lemma PutAllStep(t: Tree, ps: seq<Point>, s: real)
    requires |ps| > 0 && s > 0.0
    ensures var a := StoreAll(t, ps[..|ps| - 1], s);
      var e := StorePoint(a.tree, ps[|ps| - 1], s);
      && StoreAll(t, ps, s) == Stored(e.tree, a.count + e.count, a.recorded + e.recorded)
      && PutAll(t, ps, s) == PutAll(t, ps[..|ps| - 1], s) + Put(a.tree, ps[|ps| - 1], s)
      && StoreAllChange(t, ps, s) == Both(StoreAllChange(t, ps[..|ps| - 1], s), StoreChange(a.tree, ps[|ps| - 1], s))
  {
    hide StorePoint, StoreChange, Put, Both;
  }

  /** `Add_Points` returns how many points it put into the tree. */
  lemma {:induction false} StoreAllCounted(t: Tree, ps: seq<Point>, s: real)
    requires Inv(t) && t.Node? && s > 0.0
    ensures StoreAll(t, ps, s).count == |PutAll(t, ps, s)| <= |ps|
    decreases |ps|
  {
    if |ps| > 0 {
      hide *;
      var rest := ps[..|ps| - 1];
      var a := StoreAll(t, rest, s);
      StoreAllCounted(t, rest, s);
      StoreAllKept(t, rest, s);
      KeptGives(t, PutAll(t, rest, s), a.tree, a.recorded, StoreAllChange(t, rest, s));
      CountedIff(a.tree, ps[|ps| - 1], s);
      PutAllStep(t, ps, s);
    }
  }

  // ---- One step ----

  /** The invariant of every reachable index. */
  ghost predicate Sound(x: Index) { Inv(x.root) && Balanced(x.root) && Ordered(x.root) }

  // ---- The ledger ----

  /** The points of a map that a new `Build` replaced, by what they were. */
  datatype Lost = Lost(live: multiset<Point>, boxed: multiset<Point>, dropped: multiset<Point>)

  /** Everything that happened to points so far: inserted, deleted by a box or by downsampling,
      relabelled from the one to the other, handed out, forgotten at a rebuild, lost to a new `Build`. */
  datatype Ledger = Ledger(inserted: multiset<Point>, boxDeleted: multiset<Point>, dropDeleted: multiset<Point>,
                           relabelled: multiset<Point>, handedOut: multiset<Point>, forgotten: multiset<Point>,
                           lost: Lost)

  /** The boxed points: still stored, or waiting to be handed out. */
  ghost function Reportable(x: Index): multiset<Point> { Of(x.root, Boxed) + multiset(x.waiting) }

  /** Every inserted point is live, deleted or lost; every box-deleted one reportable, handed out,
      relabelled or lost; every downsample-deleted or relabelled one stored, forgotten or lost. */
  ghost predicate Settles(x: Index, g: Ledger) {
    && g.inserted == Live(x.root) + (g.boxDeleted + g.dropDeleted + g.lost.live)
    && g.boxDeleted == Reportable(x) + (g.handedOut + g.relabelled + g.lost.boxed)
    && g.dropDeleted + g.relabelled == Of(x.root, Dropped) + (g.forgotten + g.lost.dropped)
  }

  ghost function Incoming(c: Setup, x: Index, op: Op): multiset<Point>
    requires c.voxel > 0.0
  {
    match op
    case Building(cloud) => multiset(cloud)
    case Adding(points, downsample) => if downsample then PutAll(x.root, points, c.voxel) else multiset(points)
    case _ => multiset{}
  }

  /** What an operation does to points, read off its recursion. */
  ghost function OpChange(c: Setup, x: Index, op: Op): Change
    requires c.voxel > 0.0
  {
    match op
    case Adding(points, downsample) =>
      if downsample then StoreAllChange(x.root, points, c.voxel) else InsertAllChange(x.root, points)
    case Deleting(boxes) => DeleteAllChange(x.root, boxes)
    case _ => NONE
  }

  ghost function NextLedger(c: Setup, x: Index, op: Op, g: Ledger): Ledger
    requires c.voxel > 0.0
  {
    var inserted, ch := g.inserted + Incoming(c, x, op), OpChange(c, x, op);
    if op.Building? then
      g.(inserted := inserted, lost := Lost(g.lost.live + Live(x.root), g.lost.boxed + Of(x.root, Boxed),
                                            g.lost.dropped + Of(x.root, Dropped)))
    else if op.Acquiring? then g.(handedOut := g.handedOut + multiset(x.waiting))
    else
      g.(inserted := inserted, boxDeleted := g.boxDeleted + ch.boxed, dropDeleted := g.dropDeleted + ch.dropped,
         relabelled := g.relabelled + ch.relabelled, forgotten := g.forgotten + ch.forgotten)
  }

  /** What one edit or query does to the index: sound, right for the live points, a built map keeps
      its root, and every point moves as the change says. */
  ghost predicate Good(c: Setup, x: Index, op: Op, y: Index)
    requires c.voxel > 0.0
  {
    && Sound(y) && Meaning(c, Live(x.root), op, Live(y.root))
    && (op.Building? || (y.root.Node? <==> x.root.Node?))
    && (op.Building? || op.Acquiring? || Moved(x, Incoming(c, x, op), OpChange(c, x, op), y))
    && (op.Acquiring? ==> y == x.(waiting := []))
  }

  /** Occurrence by occurrence: what leaves the live, the reportable and the dropped points, and what
      joins them. */
  ghost predicate Moved(x: Index, added: multiset<Point>, ch: Change, y: Index) {
    && (ch.boxed + ch.dropped) + Live(y.root) == Live(x.root) + added
    && ch.relabelled + Reportable(y) == Reportable(x) + ch.boxed
    && ch.forgotten + Of(y.root, Dropped) == Of(x.root, Dropped) + (ch.relabelled + ch.dropped)
  }

  lemma KeptGood(t: Tree, added: multiset<Point>, r: Tree, rec: seq<Point>, waiting: seq<Point>, ch: Change)
    requires Kept(t, added, r, rec, ch) && Balanced(t) && Ordered(t)
    ensures Inv(r) && Balanced(r) && Ordered(r) && r.Node?
    ensures Moved(Index(t, waiting), added, ch, Index(r, waiting + rec))
  {
    KeptGives(t, added, r, rec, ch);
    hide Inv, Balanced, Ordered, Of, Live, Kept;
    assert multiset(waiting + rec) == multiset(waiting) + multiset(rec);
    Rearranged(Of(r, Boxed), multiset(waiting), multiset(rec), ch.relabelled, Of(t, Boxed), ch.boxed);
  }

  lemma Rearranged(r: multiset<Point>, waiting: multiset<Point>, rec: multiset<Point>, out: multiset<Point>,
                   t: multiset<Point>, added: multiset<Point>)
    requires (rec + out) + r == t + added
    ensures out + (r + (waiting + rec)) == t + waiting + added
  {
    forall q ensures (out + (r + (waiting + rec)))[q] == (t + waiting + added)[q] {
      assert ((rec + out) + r)[q] == (t + added)[q];
    }
  }

  lemma GoodFrom(c: Setup, x: Index, op: Op, y: Index)
    requires c.voxel > 0.0 && Inv(y.root) && Balanced(y.root) && Ordered(y.root) && !op.Acquiring?
    requires Meaning(c, Live(x.root), op, Live(y.root)) && (y.root.Node? <==> x.root.Node?)
    requires Moved(x, Incoming(c, x, op), OpChange(c, x, op), y)
    ensures Good(c, x, op, y)
  {
    hide Meaning, Incoming, OpChange, Inv, Balanced, Ordered, Moved;
  }

  lemma SoundGives(x: Index)
    requires Sound(x)
    ensures Inv(x.root) && Balanced(x.root) && Ordered(x.root)
  {
  }

  lemma {:induction false} QueryGood(c: Setup, x: Index, op: Op, r: Tree)
    requires c.voxel > 0.0 && Sound(x) && Eased(x.root, r)
    requires op.FindingNearest? || op.SearchingBox? || op.SearchingRadius?
    ensures Good(c, x, op, x.(root := r))
  {
    hide *;
    SoundGives(x);
    EasedUnharmed(x.root, r);
    UnharmedGives(x.root, r);
    QueryMeaning(c, x, op, r);
    GoodFrom(c, x, op, x.(root := r));
  }

  lemma UnharmedGives(t: Tree, r: Tree)
    requires Unharmed(t, r)
    ensures Inv(r) && (t.Node? <==> r.Node?) && Live(t) == Live(r)
    ensures Of(t, Boxed) == Of(r, Boxed) && Of(t, Dropped) == Of(r, Dropped)
    ensures (Balanced(t) ==> Balanced(r)) && (Ordered(t) ==> Ordered(r))
  {
    hide Inv, Live, Points, Balanced, Ordered, Of;
  }

  lemma QueryMeaning(c: Setup, x: Index, op: Op, r: Tree)
    requires c.voxel > 0.0 && Live(x.root) == Live(r)
    requires Of(x.root, Boxed) == Of(r, Boxed) && Of(x.root, Dropped) == Of(r, Dropped)
    requires op.FindingNearest? || op.SearchingBox? || op.SearchingRadius?
    ensures Meaning(c, Live(x.root), op, Live(r))
    ensures Moved(x, Incoming(c, x, op), OpChange(c, x, op), x.(root := r))
  {
    hide Live, Of;
  }

  lemma {:induction false} BuildGood(c: Setup, x: Index, cloud: seq<Point>)
    requires c.voxel > 0.0
    ensures Good(c, x, Building(cloud), Step(c, x, Building(cloud)))
  {
    BuildCorrect(cloud);
    hide Inv, Balanced, Ordered, Points, Live, Of;
  }

  /** An empty map stays empty through everything but `Build`. */
  lemma {:induction false} EmptyAll(boxes: seq<Box>)
    ensures DeleteAll(Nil, boxes) == Removal(Nil, 0, []) && OutsideAll(multiset{}, boxes) == multiset{}
    ensures DeleteAllChange(Nil, boxes) == NONE
    decreases |boxes|
  {
    if |boxes| > 0 {
      EmptyAll(boxes[..|boxes| - 1]);
      NoneInside(multiset{}, boxes[|boxes| - 1]);
      NothingDeleted(boxes[|boxes| - 1]);
    }
  }

  lemma NothingDeleted(b: Box)
    ensures DeleteChange(Nil, b, false) == NONE && Both(NONE, NONE) == NONE
  {
    NoneInside(multiset{}, b);
  }

  lemma {:induction false} DeleteGood(c: Setup, x: Index, boxes: seq<Box>)
    requires c.voxel > 0.0 && Sound(x)
    ensures Good(c, x, Deleting(boxes), Step(c, x, Deleting(boxes)))
  {
    hide *;
    SoundGives(x);
    if x.root.Nil? { DeleteGoodNil(c, x, boxes); } else { DeleteGoodNode(c, x, boxes); }
  }

  lemma {:induction false} DeleteGoodNil(c: Setup, x: Index, boxes: seq<Box>)
    requires c.voxel > 0.0 && x.root.Nil?
    ensures Good(c, x, Deleting(boxes), Step(c, x, Deleting(boxes)))
  {
    hide *;
    EmptyAll(boxes);
    assert x.waiting + [] == x.waiting;
    NothingMoved(x);
    DeleteMeaning(c, x, boxes, x);
    GoodFrom(c, x, Deleting(boxes), x);
  }

  lemma NothingMoved(x: Index)
    requires x.root.Nil?
    ensures Live(x.root) == multiset{} && Inv(x.root) && Balanced(x.root) && Ordered(x.root)
    ensures Moved(x, multiset{}, NONE, x)
  {
  }

  lemma {:induction false} DeleteGoodNode(c: Setup, x: Index, boxes: seq<Box>)
    requires c.voxel > 0.0 && Inv(x.root) && Balanced(x.root) && Ordered(x.root) && x.root.Node?
    ensures Good(c, x, Deleting(boxes), Step(c, x, Deleting(boxes)))
  {
    hide *;
    DeleteAllExact(x.root, boxes);
    var e := DeleteAll(x.root, boxes);
    var y := Index(e.tree, x.waiting + e.recorded);
    KeptGood(x.root, multiset{}, e.tree, e.recorded, x.waiting, DeleteAllChange(x.root, boxes));
    DeleteMeaning(c, x, boxes, y);
    GoodFrom(c, x, Deleting(boxes), y);
  }

  lemma DeleteMeaning(c: Setup, x: Index, boxes: seq<Box>, y: Index)
    requires c.voxel > 0.0
    ensures Meaning(c, Live(x.root), Deleting(boxes), Live(y.root)) <==> Live(y.root) == OutsideAll(Live(x.root), boxes)
    ensures Incoming(c, x, Deleting(boxes)) == multiset{} && OpChange(c, x, Deleting(boxes)) == DeleteAllChange(x.root, boxes)
    ensures var e := DeleteAll(x.root, boxes); Step(c, x, Deleting(boxes)) == Index(e.tree, x.waiting + e.recorded)
  {
    hide Live, DeleteAll, DeleteAllChange, OutsideAll;
  }

  lemma {:induction false} AddGood(c: Setup, x: Index, points: seq<Point>)
    requires c.voxel > 0.0 && Sound(x) && Allowed(x, Adding(points, false))
    ensures Good(c, x, Adding(points, false), Step(c, x, Adding(points, false)))
  {
    SoundGives(x);
    if x.root.Nil? {
      assert x.waiting + [] == x.waiting;
    } else {
      AddGoodNode(c, x, points);
    }
  }

  lemma {:induction false} AddGoodNode(c: Setup, x: Index, points: seq<Point>)
    requires c.voxel > 0.0 && Inv(x.root) && Balanced(x.root) && Ordered(x.root) && x.root.Node?
    ensures Good(c, x, Adding(points, false), Step(c, x, Adding(points, false)))
  {
    hide *;
    InsertAllExact(x.root, points);
    var e := InsertAll(x.root, points);
    var y := Index(e.tree, x.waiting + e.recorded);
    KeptGood(x.root, multiset(points), e.tree, e.recorded, x.waiting, InsertAllChange(x.root, points));
    AddMeaning(c, x, points, y);
    GoodFrom(c, x, Adding(points, false), y);
  }

  lemma AddMeaning(c: Setup, x: Index, points: seq<Point>, y: Index)
    requires c.voxel > 0.0
    ensures Meaning(c, Live(x.root), Adding(points, false), Live(y.root)) <==> Live(y.root) == Live(x.root) + multiset(points)
    ensures Incoming(c, x, Adding(points, false)) == multiset(points)
    ensures OpChange(c, x, Adding(points, false)) == InsertAllChange(x.root, points)
    ensures var e := InsertAll(x.root, points); Step(c, x, Adding(points, false)) == Index(e.tree, x.waiting + e.recorded)
  {
    hide Live, InsertAll, InsertAllChange;
  }

  lemma {:induction false} StoreGood(c: Setup, x: Index, points: seq<Point>)
    requires c.voxel > 0.0 && Sound(x) && Allowed(x, Adding(points, true))
    ensures Good(c, x, Adding(points, true), Step(c, x, Adding(points, true)))
  {
    SoundGives(x);
    if x.root.Nil? {
      StoreNothing(c, x, points);
    } else {
      StoreGoodNode(c, x, points);
    }
  }

  lemma StoreNothing(c: Setup, x: Index, points: seq<Point>)
    requires c.voxel > 0.0 && Sound(x) && x.root.Nil? && points == []
    ensures Good(c, x, Adding(points, true), Step(c, x, Adding(points, true)))
  {
    assert x.waiting + [] == x.waiting;
    forall b { NoneInside(multiset(points), b); }
  }

  lemma {:induction false} StoreGoodNode(c: Setup, x: Index, points: seq<Point>)
    requires c.voxel > 0.0 && Inv(x.root) && Balanced(x.root) && Ordered(x.root) && x.root.Node?
    ensures Good(c, x, Adding(points, true), Step(c, x, Adding(points, true)))
  {
    hide *;
    StoreAllKept(x.root, points, c.voxel);
    var e := StoreAll(x.root, points, c.voxel);
    var y := Index(e.tree, x.waiting + e.recorded);
    KeptGood(x.root, PutAll(x.root, points, c.voxel), e.tree, e.recorded, x.waiting,
             StoreAllChange(x.root, points, c.voxel));
    StoreMeaning(c, x.root, points);
    StoreSteps(c, x, points);
    GoodFrom(c, x, Adding(points, true), y);
  }

  lemma StoreSteps(c: Setup, x: Index, points: seq<Point>)
    requires c.voxel > 0.0
    ensures Incoming(c, x, Adding(points, true)) == PutAll(x.root, points, c.voxel)
    ensures OpChange(c, x, Adding(points, true)) == StoreAllChange(x.root, points, c.voxel)
    ensures var e := StoreAll(x.root, points, c.voxel);
      Step(c, x, Adding(points, true)) == Index(e.tree, x.waiting + e.recorded)
  {
    hide StoreAll, StoreAllChange, PutAll;
  }

  lemma {:induction false} StoreMeaning(c: Setup, t: Tree, points: seq<Point>)
    requires c.voxel > 0.0 && Inv(t) && t.Node?
    ensures Meaning(c, Live(t), Adding(points, true), Live(StoreAll(t, points, c.voxel).tree))
  {
    forall v: Voxel
      ensures VoxelHolds(Inside(Live(t), BoxOf(v, c.voxel)), Inside(multiset(points), BoxOf(v, c.voxel)),
                         Inside(Live(StoreAll(t, points, c.voxel).tree), BoxOf(v, c.voxel)), VoxelCentre(v, c.voxel))
    {
      StoreAllExact(t, points, c.voxel, v);
      StoredInMeans(t, points, c.voxel, v);
    }
    hide Inv, Live, StoreAll, VoxelHolds, Inside, BoxOf, VoxelCentre;
  }

  /** Every operation keeps the index sound and does to the live points what it does to a multiset. */
  lemma {:induction false} StepGood(c: Setup, x: Index, op: Op)
    requires Usable(c) && Sound(x) && Allowed(x, op)
    ensures Good(c, x, op, Step(c, x, op))
  {
    match op {
      case Building(cloud) => BuildGood(c, x, cloud);
      case Adding(points, downsample) =>
        if downsample { StoreGood(c, x, points); } else { AddGood(c, x, points); }
      case Deleting(boxes) => DeleteGood(c, x, boxes);
      case FindingNearest(q, k, maxDist) =>
        SearchEased(x.root, k, q, [], Squared(maxDist));
        QueryGood(c, x, op, NearestSearch(x.root, q, k, maxDist).tree);
      case SearchingBox(box) =>
        SearchRangeExact(x.root, box);
        QueryGood(c, x, op, SearchRange(x.root, box).tree);
      case SearchingRadius(q, radius) =>
        SearchRadiusEased(x.root, q, radius, c.sqrt);
        QueryGood(c, x, op, SearchRadius(x.root, q, radius, c.sqrt).tree);
      case Acquiring =>
    }
  }

  /** Only a box deletion box-deletes, and only downsampling drops points or relabels them. */
  ghost predicate Fits(op: Op, ch: Change) {
    && (!op.Deleting? ==> ch.boxed == multiset{})
    && (!(op.Adding? && op.downsample) ==> ch.dropped == multiset{} && ch.relabelled == multiset{})
  }

  lemma {:induction false} ChangeFits(c: Setup, x: Index, op: Op)
    requires c.voxel > 0.0
    ensures Fits(op, OpChange(c, x, op))
  {
    match op {
      case Adding(points, downsample) =>
        if downsample { StoredFits(x.root, points, c.voxel); } else { InsertedFits(x.root, points); }
      case Deleting(boxes) => DeletedFits(x.root, boxes);
      case _ =>
    }
  }

  lemma {:induction false} InsertedFits(t: Tree, ps: seq<Point>)
    ensures var ch := InsertAllChange(t, ps);
      ch.boxed == multiset{} && ch.dropped == multiset{} && ch.relabelled == multiset{}
    decreases |ps|
  {
    hide InsertAll, AddForgot;
    if |ps| > 0 { InsertedFits(t, ps[..|ps| - 1]); }
  }

  lemma {:induction false} DeletedFits(t: Tree, boxes: seq<Box>)
    ensures var ch := DeleteAllChange(t, boxes); ch.dropped == multiset{} && ch.relabelled == multiset{}
    decreases |boxes|
  {
    hide DeleteAll, DeleteToll, Inside, Live;
    if |boxes| > 0 {
      DeletedFits(t, boxes[..|boxes| - 1]);
      PlainToll(DeleteAll(t, boxes[..|boxes| - 1]).tree, boxes[|boxes| - 1], true);
    }
  }

  lemma {:induction false} StoredFits(t: Tree, ps: seq<Point>, s: real)
    requires s > 0.0
    ensures StoreAllChange(t, ps, s).boxed == multiset{}
    decreases |ps|
  {
    hide StoreAll, StoreChange;
    if |ps| > 0 {
      StoredFits(t, ps[..|ps| - 1], s);
      StoreFits(StoreAll(t, ps[..|ps| - 1], s).tree, ps[|ps| - 1], s);
    }
  }

  lemma StoreFits(t: Tree, p: Point, s: real)
    requires s > 0.0
    ensures StoreChange(t, p, s).boxed == multiset{}
  {
    hide SearchRange, DeleteRange, DeleteToll, AddForgot, Inside, Live, Chosen, BoxOf, VoxelOf, SamePoint;
  }

  /** And the ledger goes on settling: three equations, occurrence by occurrence. */
  lemma {:induction false} StepSettles(c: Setup, x: Index, op: Op, g: Ledger)
    requires Usable(c) && Sound(x) && Allowed(x, op) && Settles(x, g)
    ensures Settles(Step(c, x, op), NextLedger(c, x, op, g))
  {
    hide *;
    StepGood(c, x, op);
    UsableVoxel(c);
    if op.Building? {
      BuildSettles(c, x, op, g);
    } else if op.Acquiring? {
      AcquireSettles(c, x, op, g);
    } else {
      EditSettles(c, x, op, g);
    }
  }

  /** In one line: every point ever inserted is stored (live or dead), waiting, handed out, forgotten
      or lost to a new `Build`, exactly once. */
  lemma LedgerTotal(x: Index, g: Ledger)
    requires Sound(x) && Settles(x, g)
    ensures g.inserted
         == Points(x.root) + multiset(x.waiting) + g.handedOut + g.forgotten + (g.lost.live + g.lost.boxed + g.lost.dropped)
  {
    SoundGives(x);
    LiveIsAlive(x.root);
    PartitionOf(x.root);
    hide Sound, Inv, Live, Of, Points;
    forall q
      ensures g.inserted[q] == (Points(x.root) + multiset(x.waiting) + g.handedOut + g.forgotten
                                + (g.lost.live + g.lost.boxed + g.lost.dropped))[q]
    {
      assert g.boxDeleted[q] == (Reportable(x) + (g.handedOut + g.relabelled + g.lost.boxed))[q];
      assert (g.dropDeleted + g.relabelled)[q] == (Of(x.root, Dropped) + (g.forgotten + g.lost.dropped))[q];
    }
  }

  lemma UsableVoxel(c: Setup)
    requires Usable(c)
    ensures c.voxel > 0.0
  {
  }

  lemma {:induction false} BuildSettles(c: Setup, x: Index, op: Op, g: Ledger)
    requires c.voxel > 0.0 && op.Building? && Settles(x, g)
    ensures Settles(Step(c, x, op), NextLedger(c, x, op, g))
  {
    BuildCorrect(op.cloud);
    SettlesGives(x, g);
    var y, g' := Step(c, x, op), NextLedger(c, x, op, g);
    BuiltLedger(c, x, op, g);
    hide *;
    BuiltNothingDead(op.cloud);
    LiveLost(g.inserted, Live(x.root), g.boxDeleted + g.dropDeleted, g.lost.live, multiset(op.cloud));
    BoxedLost(g.boxDeleted, Of(x.root, Boxed), multiset(x.waiting), g.handedOut + g.relabelled, g.lost.boxed);
    DroppedLost(g.dropDeleted + g.relabelled, Of(x.root, Dropped), g.forgotten, g.lost.dropped);
    SettlesFrom(y, g');
  }

  lemma BuiltLedger(c: Setup, x: Index, op: Op, g: Ledger)
    requires c.voxel > 0.0 && op.Building?
    ensures Step(c, x, op) == Index(Build(op.cloud), x.waiting)
    ensures NextLedger(c, x, op, g)
         == g.(inserted := g.inserted + multiset(op.cloud),
               lost := Lost(g.lost.live + Live(x.root), g.lost.boxed + Of(x.root, Boxed),
                            g.lost.dropped + Of(x.root, Dropped)))
    ensures Reportable(Index(Build(op.cloud), x.waiting)) == Of(Build(op.cloud), Boxed) + multiset(x.waiting)
    ensures Reportable(x) == Of(x.root, Boxed) + multiset(x.waiting)
  {
    hide Build, Live, Of;
  }

  lemma BuiltNothingDead(cloud: seq<Point>)
    ensures Live(Build(cloud)) == multiset(cloud)
    ensures Of(Build(cloud), Boxed) == multiset{} && Of(Build(cloud), Dropped) == multiset{}
  {
    BuildCorrect(cloud);
    hide Inv, Live, Of, Points, Balanced, Ordered, Build;
  }

  lemma SettlesGives(x: Index, g: Ledger)
    requires Settles(x, g)
    ensures g.inserted == Live(x.root) + (g.boxDeleted + g.dropDeleted + g.lost.live)
    ensures g.boxDeleted == Reportable(x) + (g.handedOut + g.relabelled + g.lost.boxed)
    ensures g.dropDeleted + g.relabelled == Of(x.root, Dropped) + (g.forgotten + g.lost.dropped)
  {
  }

  lemma SettlesFrom(x: Index, g: Ledger)
    requires g.inserted == Live(x.root) + (g.boxDeleted + g.dropDeleted + g.lost.live)
    requires g.boxDeleted == Reportable(x) + (g.handedOut + g.relabelled + g.lost.boxed)
    requires g.dropDeleted + g.relabelled == Of(x.root, Dropped) + (g.forgotten + g.lost.dropped)
    ensures Settles(x, g)
  {
  }

  lemma LiveLost(inserted: multiset<Point>, live: multiset<Point>, gone: multiset<Point>, lost: multiset<Point>,
                 cloud: multiset<Point>)
    requires inserted == live + (gone + lost)
    ensures inserted + cloud == cloud + (gone + (lost + live))
  {
  }

  lemma BoxedLost(all: multiset<Point>, boxed: multiset<Point>, waiting: multiset<Point>, out: multiset<Point>,
                  lost: multiset<Point>)
    requires all == boxed + waiting + (out + lost)
    ensures all == multiset{} + waiting + (out + (lost + boxed))
  {
  }

  lemma DroppedLost(all: multiset<Point>, dropped: multiset<Point>, out: multiset<Point>, lost: multiset<Point>)
    requires all == dropped + (out + lost)
    ensures all == multiset{} + (out + (lost + dropped))
  {
  }

  lemma {:induction false} AcquireSettles(c: Setup, x: Index, op: Op, g: Ledger)
    requires c.voxel > 0.0 && op.Acquiring? && Settles(x, g)
    ensures Settles(Step(c, x, op), NextLedger(c, x, op, g))
  {
    hide Live, Of;
    var y := x.(waiting := []);
    assert Reportable(x) == Of(x.root, Boxed) + multiset(x.waiting);
    assert Reportable(y) == Of(x.root, Boxed);
    Acquired(Of(x.root, Boxed), multiset(x.waiting), g.handedOut, g.relabelled, g.lost.boxed);
  }

  lemma Acquired(boxed: multiset<Point>, waiting: multiset<Point>, out: multiset<Point>, relabelled: multiset<Point>,
                 lost: multiset<Point>)
    ensures boxed + waiting + (out + relabelled + lost) == boxed + (out + waiting + relabelled + lost)
  {
  }

  lemma {:induction false} EditSettles(c: Setup, x: Index, op: Op, g: Ledger)
    requires c.voxel > 0.0 && !op.Building? && !op.Acquiring? && Settles(x, g) && Good(c, x, op, Step(c, x, op))
    ensures Settles(Step(c, x, op), NextLedger(c, x, op, g))
  {
    hide *;
    var y, ch := Step(c, x, op), OpChange(c, x, op);
    SettlesGives(x, g);
    GoodMoves(c, x, op);
    EditLedger(c, x, op, g);
    LiveMoves(g.inserted, Live(x.root), Live(y.root), g.boxDeleted, g.dropDeleted, g.lost.live,
              ch.boxed, ch.dropped, Incoming(c, x, op));
    BoxedMoves(g.boxDeleted, Reportable(x), Reportable(y), g.handedOut, g.relabelled, g.lost.boxed,
               ch.boxed, ch.relabelled);
    DroppedMoves(g.dropDeleted, g.relabelled, Of(x.root, Dropped), Of(y.root, Dropped), g.forgotten, g.lost.dropped,
                 ch.dropped, ch.relabelled, ch.forgotten);
    SettlesFrom(y, NextLedger(c, x, op, g));
  }

  lemma GoodMoves(c: Setup, x: Index, op: Op)
    requires c.voxel > 0.0 && !op.Building? && !op.Acquiring? && Good(c, x, op, Step(c, x, op))
    ensures var y, ch := Step(c, x, op), OpChange(c, x, op);
      && (ch.boxed + ch.dropped) + Live(y.root) == Live(x.root) + Incoming(c, x, op)
      && ch.relabelled + Reportable(y) == Reportable(x) + ch.boxed
      && ch.forgotten + Of(y.root, Dropped) == Of(x.root, Dropped) + (ch.relabelled + ch.dropped)
  {
    hide Step, OpChange, Incoming, Live, Of, Reportable, Sound, Meaning;
  }

  lemma EditLedger(c: Setup, x: Index, op: Op, g: Ledger)
    requires c.voxel > 0.0 && !op.Building? && !op.Acquiring?
    ensures var ch := OpChange(c, x, op);
      NextLedger(c, x, op, g)
      == Ledger(g.inserted + Incoming(c, x, op), g.boxDeleted + ch.boxed, g.dropDeleted + ch.dropped,
                g.relabelled + ch.relabelled, g.handedOut, g.forgotten + ch.forgotten, g.lost)
  {
    hide OpChange, Incoming;
  }

  lemma LiveMoves(inserted: multiset<Point>, live: multiset<Point>, live': multiset<Point>, b: multiset<Point>,
                  d: multiset<Point>, lost: multiset<Point>, db: multiset<Point>, dd: multiset<Point>,
                  added: multiset<Point>)
    requires inserted == live + (b + d + lost) && (db + dd) + live' == live + added
    ensures inserted + added == live' + ((b + db) + (d + dd) + lost)
  {
    forall q ensures (inserted + added)[q] == (live' + ((b + db) + (d + dd) + lost))[q] {
      assert ((db + dd) + live')[q] == (live + added)[q];
    }
  }

  lemma BoxedMoves(b: multiset<Point>, r: multiset<Point>, r': multiset<Point>, out: multiset<Point>,
                   relabelled: multiset<Point>, lost: multiset<Point>, db: multiset<Point>, dr: multiset<Point>)
    requires b == r + (out + relabelled + lost) && dr + r' == r + db
    ensures b + db == r' + (out + (relabelled + dr) + lost)
  {
    forall q ensures (b + db)[q] == (r' + (out + (relabelled + dr) + lost))[q] {
      assert (dr + r')[q] == (r + db)[q];
    }
  }

  lemma DroppedMoves(d: multiset<Point>, relabelled: multiset<Point>, s: multiset<Point>, s': multiset<Point>,
                     forgotten: multiset<Point>, lost: multiset<Point>, dd: multiset<Point>, dr: multiset<Point>,
                     df: multiset<Point>)
    requires d + relabelled == s + (forgotten + lost) && df + s' == s + (dr + dd)
    ensures (d + dd) + (relabelled + dr) == s' + ((forgotten + df) + lost)
  {
    forall q ensures ((d + dd) + (relabelled + dr))[q] == (s' + ((forgotten + df) + lost))[q] {
      assert (d + relabelled)[q] == (s + (forgotten + lost))[q];
      assert (df + s')[q] == (s + (dr + dd))[q];
    }
  }

  // ---- Runs ----

  function After(c: Setup, x: Index, ops: seq<Op>): Index
    requires c.voxel > 0.0
  {
    if |ops| == 0 then x else Step(c, After(c, x, ops[..|ops| - 1]), ops[|ops| - 1])
  }

  ghost function LedgerAfter(c: Setup, x: Index, ops: seq<Op>, g: Ledger): Ledger
    requires c.voxel > 0.0
  {
    if |ops| == 0 then g
    else NextLedger(c, After(c, x, ops[..|ops| - 1]), ops[|ops| - 1], LedgerAfter(c, x, ops[..|ops| - 1], g))
  }

  ghost predicate AllowedRun(c: Setup, x: Index, ops: seq<Op>)
    requires c.voxel > 0.0
  {
    forall i :: 0 <= i < |ops| ==> Allowed(After(c, x, ops[..i]), ops[i])
  }

  const EMPTY := Index(Nil, [])

  /** The ledger before anything happened. */
  const OPENING := Ledger(multiset{}, multiset{}, multiset{}, multiset{}, multiset{}, multiset{},
                          Lost(multiset{}, multiset{}, multiset{}))

  /** Over every run from the empty map: the invariant holds, each step means for the live points what
      it means for a multiset and moves every point as its change says, and the ledger settles. */
  lemma {:induction false} RunSound(c: Setup, ops: seq<Op>)
    requires Usable(c) && AllowedRun(c, EMPTY, ops)
    ensures var x, g := After(c, EMPTY, ops), LedgerAfter(c, EMPTY, ops, OPENING);
      && Sound(x) && Settles(x, g)
      && g.inserted == Points(x.root) + multiset(x.waiting) + g.handedOut + g.forgotten
                       + (g.lost.live + g.lost.boxed + g.lost.dropped)
    ensures |ops| > 0 ==>
      var x, op := After(c, EMPTY, ops[..|ops| - 1]), ops[|ops| - 1];
      Good(c, x, op, After(c, EMPTY, ops)) && Fits(op, OpChange(c, x, op))
    decreases |ops|
  {
    hide Sound, Settles, Good, Fits, NextLedger, Step, Allowed, OpChange;
    if |ops| == 0 {
      OpeningSettles();
    } else {
      var rest, op := ops[..|ops| - 1], ops[|ops| - 1];
      forall i | 0 <= i < |rest| ensures rest[..i] == ops[..i] {}
      RunSound(c, rest);
      var x := After(c, EMPTY, rest);
      assert Allowed(x, op);
      StepGood(c, x, op);
      StepSettles(c, x, op, LedgerAfter(c, EMPTY, rest, OPENING));
      ChangeFits(c, x, op);
      GoodSound(c, x, op, Step(c, x, op));
    }
    LedgerTotal(After(c, EMPTY, ops), LedgerAfter(c, EMPTY, ops, OPENING));
  }

  lemma OpeningSettles()
    ensures Sound(EMPTY) && Settles(EMPTY, OPENING)
  {
  }

  lemma GoodSound(c: Setup, x: Index, op: Op, y: Index)
    requires c.voxel > 0.0 && Good(c, x, op, y)
    ensures Sound(y)
  {
  }
}
