/** `Nearest_Search` returns the k nearest live points. */
module Neighbours {
  import opened Geometry
  import opened Heap
  import opened Tree
  import opened Invariant
  import opened Edits
  import opened Searches

  /** A live point at its true distance, within the bound. */
  ghost predicate IsEntry(e: Cmp, q: Point, bound: Ext) {
    e.dist == Dist(q, e.point) && !Nearer(bound, Fin(e.dist))
  }

  /** The candidates a multiset of points offers to a query. */
  ghost function Entries(m: multiset<Point>, q: Point, bound: Ext): (r: multiset<Cmp>)
    ensures forall e :: r[e] == if IsEntry(e, q, bound) then m[e.point] else 0
    decreases |m|
  {
    if m == multiset{} then multiset{}
    else
      var p :| p in m;
      var e := Cmp(p, Dist(q, p));
      var rest := Entries(m - multiset{p}, q, bound);
      if Nearer(bound, Fin(e.dist)) then rest else rest + multiset{e}
  }

  lemma EntriesSum(x: multiset<Point>, y: multiset<Point>, z: multiset<Point>, q: Point, bound: Ext)
    ensures Entries(x + y + z, q, bound) == Entries(x, q, bound) + Entries(y, q, bound) + Entries(z, q, bound)
  {
    hide *;
  }

  /** The `k` nearest of a pool: part of it, as many as there can be, none left out nearer. */
  ghost predicate KBest(r: multiset<Cmp>, pool: multiset<Cmp>, k: nat) {
    && r <= pool
    && |r| == (if k < |pool| then k else |pool|)
    && forall a, b :: a in pool - r && b in r ==> b.dist <= a.dist
  }

  lemma SubsetCard<T>(a: multiset<T>, b: multiset<T>)
    requires a <= b
    ensures |a| <= |b| && (|a| == |b| ==> a == b)
  {
    assert b == a + (b - a);
  }

  /** Taking the best of a pool, then the best of those and more, is taking the best of all. */
  lemma KBestTrans(r1: multiset<Cmp>, p1: multiset<Cmp>, r2: multiset<Cmp>, b: multiset<Cmp>, k: nat)
    requires KBest(r1, p1, k) && KBest(r2, r1 + b, k)
    ensures KBest(r2, p1 + b, k)
  {
    SubsetCard(r1, p1);
    forall x, y | x in (p1 + b) - r2 && y in r2 ensures y.dist <= x.dist {
      if x !in (r1 + b) - r2 {
        assert x in p1 - r1;
        assert |r1| == k;
        if y !in r1 {
          var c := Displaced(r1, b, r2, y);
          assert y.dist <= c.dist <= x.dist;
        }
      }
    }
  }

  /** When the heap was full and `y` came in, some `c` went out. */
  lemma Displaced(r1: multiset<Cmp>, b: multiset<Cmp>, r2: multiset<Cmp>, y: Cmp) returns (c: Cmp)
    requires r2 <= r1 + b && |r2| <= |r1| && y in r2 && y !in r1
    ensures c in r1 && c in (r1 + b) - r2
  {
    if forall c :: c in r1 ==> c !in (r1 + b) - r2 {
      forall c ensures r1[c] <= (r2 - multiset{y})[c] {
        if c in r1 {
          assert ((r1 + b) - r2)[c] == 0;
        }
      }
      SubsetCard(r1, r2 - multiset{y});
    }
    c :| c in r1 && c in (r1 + b) - r2;
  }

  /** With `k` = 1 the heap never compares two candidates. */
  ghost predicate Fit(d: set<Cmp>, k: nat) {
    NoConfusion(d) || k == 1
  }

  ghost predicate Ok(h: seq<Cmp>, k: nat, d: set<Cmp>) {
    IsHeap(h) && Within(h, d) && |h| <= k
  }

  /** After a part of the search: the heap holds the best of what it held and of `pool`. */
  ghost predicate Absorbed(h: seq<Cmp>, h': seq<Cmp>, k: nat, pool: multiset<Cmp>, d: set<Cmp>) {
    Ok(h', k, d) && KBest(multiset(h'), multiset(h) + pool, k)
  }

  lemma AbsorbedThen(h: seq<Cmp>, h1: seq<Cmp>, h2: seq<Cmp>, k: nat, a: multiset<Cmp>, b: multiset<Cmp>, d: set<Cmp>)
    requires Absorbed(h, h1, k, a, d) && Absorbed(h1, h2, k, b, d)
    ensures Absorbed(h, h2, k, a + b, d)
  {
    hide KBest, Ok;
    KBestTrans(multiset(h1), multiset(h) + a, multiset(h2), b, k);
    assert multiset(h) + a + b == multiset(h) + (a + b);
  }

  lemma AbsorbedCount(h: seq<Cmp>, h': seq<Cmp>, k: nat, pool: multiset<Cmp>, d: set<Cmp>)
    requires Absorbed(h, h', k, pool, d)
    ensures |h| >= k ==> |h'| >= k
  {
    assert |multiset(h')| == |h'| && |multiset(h)| == |h|;
  }

  /** Nothing in `pool` is nearer than the top of a full heap. */
  lemma SkipIsSafe(h: seq<Cmp>, k: nat, pool: multiset<Cmp>, d: set<Cmp>)
    requires Ok(h, k, d) && |h| >= k && k >= 1
    requires forall e :: e in pool ==> h[0].dist <= e.dist
    ensures Absorbed(h, h, k, pool, d)
  {
    assert |multiset(h)| == |h|;
    forall a, b | a in (multiset(h) + pool) - multiset(h) && b in multiset(h) ensures b.dist <= a.dist {
      assert a in pool;
      var j :| 0 <= j < |h| && h[j] == b;
      TopIsGreatest(h, j);
    }
  }

  lemma NothingOffered(h: seq<Cmp>, k: nat, d: set<Cmp>)
    requires Ok(h, k, d)
    ensures Absorbed(h, h, k, multiset{}, d)
  {
    assert |multiset(h)| == |h|;
    assert multiset(h) + multiset{} == multiset(h);
  }

  // ---- One point ----

  lemma OneEntry(p: Point, q: Point, bound: Ext)
    ensures var e := Cmp(p, Dist(q, p));
      Entries(multiset{p}, q, bound) == if Nearer(bound, Fin(e.dist)) then multiset{} else multiset{e}
  {
    hide Dist, Nearer;
  }

  /** Offering a live point: it comes in exactly when it is among the best. */
  lemma OfferExact(h: seq<Cmp>, k: nat, q: Point, p: Point, bound: Ext, d: set<Cmp>)
    requires k >= 1 && Fit(d, k) && Ok(h, k, d) && Cmp(p, Dist(q, p)) in d
    ensures Absorbed(h, Offer(h, k, q, p, bound), k, Entries(multiset{p}, q, bound), d)
  {
    var e := Cmp(p, Dist(q, p));
    OneEntry(p, q, bound);
    hide Dist, Fit, IsHeap, Within, Push, Pop, Absorbed;
    if Nearer(bound, Fin(e.dist)) {
      NothingOffered(h, k, d);
    } else if |h| < k {
      Added(h, k, e, d);
    } else if e.dist < h[0].dist {
      Swapped(h, k, e, d);
    } else {
      SkipIsSafe(h, k, multiset{e}, d);
    }
  }

  lemma Added(h: seq<Cmp>, k: nat, e: Cmp, d: set<Cmp>)
    requires Fit(d, k) && Ok(h, k, d) && |h| < k && e in d
    ensures Absorbed(h, Push(h, 2 * k, e), k, multiset{e}, d)
  {
    assert NoConfusion(d) || h == [];
    hide IsHeap, Within, NoConfusion, Push;
    PushExact(h, 2 * k, e, d);
    var r := Push(h, 2 * k, e);
    assert |multiset(r)| == |r|;
  }

  lemma Swapped(h: seq<Cmp>, k: nat, e: Cmp, d: set<Cmp>)
    requires k >= 1 && Fit(d, k) && Ok(h, k, d) && |h| >= k && e in d && e.dist < h[0].dist
    ensures Absorbed(h, Push(Pop(h), 2 * k, e), k, multiset{e}, d)
  {
    hide IsHeap, Within, Fit, Push, Pop, KBest;
    var r := Push(Pop(h), 2 * k, e);
    Exchanged(h, k, e, d);
    TopBounds(h);
    assert |multiset(h)| == |h| && |multiset(r)| == |r|;
    NearerStays(multiset(h), multiset(r), h[0], e, k);
  }

  lemma TopBounds(h: seq<Cmp>)
    requires IsHeap(h) && |h| > 0
    ensures forall c: Cmp :: c in multiset(h) ==> c.dist <= h[0].dist
  {
    hide IsHeap;
    forall j | 0 <= j < |h| ensures h[j].dist <= h[0].dist { TopIsGreatest(h, j); }
  }

  /** Giving up the furthest of `k` candidates for a nearer one leaves the best `k`. */
  lemma NearerStays(m: multiset<Cmp>, r: multiset<Cmp>, top: Cmp, e: Cmp, k: nat)
    requires |m| == k && m + multiset{e} == r + multiset{top} && e.dist < top.dist
    requires forall c: Cmp :: c in m ==> c.dist <= top.dist
    ensures KBest(r, m + multiset{e}, k)
  {
    forall a: Cmp, b: Cmp | a in (m + multiset{e}) - r && b in r ensures b.dist <= a.dist {
      assert a == top;
      assert b in m + multiset{e};
    }
  }

  /** A pop and a push exchange the top for the new candidate. */
  lemma Exchanged(h: seq<Cmp>, k: nat, e: Cmp, d: set<Cmp>)
    requires k >= 1 && Fit(d, k) && Ok(h, k, d) && |h| >= k && e in d
    ensures var r := Push(Pop(h), 2 * k, e);
      IsHeap(r) && Within(r, d) && multiset(h) + multiset{e} == multiset(r) + multiset{h[0]}
  {
    hide IsHeap, Within, NoConfusion, Push, Pop;
    PopExact(h, d);
    assert |multiset(Pop(h))| == |Pop(h)| && |multiset(h)| == |h|;
    PushExact(Pop(h), 2 * k, e, d);
  }

  // ---- Whole subtrees ----

  ghost predicate DistsIn(m: multiset<Point>, q: Point, d: set<Cmp>) {
    forall p :: p in m ==> Cmp(p, Dist(q, p)) in d
  }

  /** The distance to a node's range bounds the distance to each of its live points. */
  lemma {:induction false} GapBelow(t: Tree, q: Point, bound: Ext, e: Cmp)
    requires Inv(t) && e in Entries(Live(t), q, bound)
    ensures t.Node? && BoxDist(t.range, q) <= e.dist && !Nearer(bound, Fin(e.dist))
  {
    assert IsEntry(e, q, bound) && e.point in Live(t);
    LiveInRange(t, e.point);
    BoxDistBelow(t.range, q, e.point);
  }

  /** A subtree farther away than the bound offers nothing. */
  lemma {:induction false} TooFar(t: Tree, q: Point, bound: Ext)
    requires Inv(t) && Nearer(bound, GapTo(t, q))
    ensures Entries(Live(t), q, bound) == multiset{}
  {
    if e: Cmp :| e in Entries(Live(t), q, bound) {
      GapBelow(t, q, bound, e);
      assert false;
    }
  }

  /** A subtree no nearer than the top of a full heap may be skipped. */
  lemma {:induction false} PruneIsSafe(t: Tree, k: nat, q: Point, h: seq<Cmp>, bound: Ext, d: set<Cmp>)
    requires Inv(t) && k >= 1 && Ok(h, k, d) && |h| >= k && !Nearer(GapTo(t, q), Top(h))
    ensures Absorbed(h, h, k, Entries(Live(t), q, bound), d)
  {
    forall e: Cmp | e in Entries(Live(t), q, bound) ensures h[0].dist <= e.dist {
      GapBelow(t, q, bound, e);
    }
    SkipIsSafe(h, k, Entries(Live(t), q, bound), d);
  }

  /** What a search of `t` promises of the heap it leaves. */
  ghost predicate Searched(t: Tree, k: nat, q: Point, h: seq<Cmp>, bound: Ext, d: set<Cmp>, h': seq<Cmp>) {
    Absorbed(h, h', k, Entries(Live(t), q, bound), d)
  }

  lemma {:induction false} OfferOwn(u: Tree, k: nat, q: Point, h: seq<Cmp>, bound: Ext, d: set<Cmp>)
    requires u.Node? && k >= 1 && Fit(d, k) && Ok(h, k, d) && (!u.pointDel ==> Cmp(u.point, Dist(q, u.point)) in d)
    ensures Absorbed(h, if u.pointDel then h else Offer(h, k, q, u.point, bound), k,
                     Entries(Own(!u.pointDel, u.point), q, bound), d)
  {
    if u.pointDel {
      NothingOffered(h, k, d);
      assert Entries(multiset{}, q, bound) == multiset{};
    } else {
      OfferExact(h, k, q, u.point, bound, d);
    }
  }

  /** The own point and two subtrees absorbed one after the other, the subtrees in either order. */
  lemma {:induction false} AbsorbedParts(u: Tree, first: Tree, second: Tree, k: nat, q: Point, bound: Ext, d: set<Cmp>,
                                         h: seq<Cmp>, h0: seq<Cmp>, h1: seq<Cmp>, h2: seq<Cmp>)
    requires u.Node? && ((first == u.left && second == u.right) || (first == u.right && second == u.left))
    requires Absorbed(h, h0, k, Entries(Own(!u.pointDel, u.point), q, bound), d)
    requires Searched(first, k, q, h0, bound, d, h1) && Searched(second, k, q, h1, bound, d, h2)
    ensures Absorbed(h, h2, k, Entries(LiveParts(u), q, bound), d)
  {
    hide Absorbed, Entries, Live;
    var o := Own(!u.pointDel, u.point);
    AbsorbedThen(h, h0, h1, k, Entries(o, q, bound), Entries(Live(first), q, bound), d);
    AbsorbedThen(h, h1, h2, k, Entries(o, q, bound) + Entries(Live(first), q, bound), Entries(Live(second), q, bound), d);
    EntriesSum(o, Live(first), Live(second), q, bound);
    assert o + Live(first) + Live(second) == LiveParts(u);
  }

  // ---- The search ----

  /** What is asked of a subtree and the heap it is searched with. */
  ghost predicate Ready(t: Tree, k: nat, q: Point, h: seq<Cmp>, d: set<Cmp>) {
    Inv(t) && k >= 1 && Fit(d, k) && Ok(h, k, d) && DistsIn(Live(t), q, d)
  }

  lemma {:induction false} ReadyParts(t: Tree, k: nat, q: Point, h: seq<Cmp>, d: set<Cmp>, x: Tree, h': seq<Cmp>)
    requires Ready(t, k, q, h, d) && t.Node?
    requires var u := PushDown(t); x == u.left || x == u.right
    requires Ok(h', k, d)
    ensures Ready(x, k, q, h', d)
  {
    hide *;
    ReadyGives(t, k, q, h, d);
    PushDownFacts(t);
    LivePartsSum(PushDown(t));
    ReadyFrom(t, PushDown(t), k, q, h, d, x, h');
  }

  lemma ReadyFrom(t: Tree, u: Tree, k: nat, q: Point, h: seq<Cmp>, d: set<Cmp>, x: Tree, h': seq<Cmp>)
    requires Ready(t, k, q, h, d) && u.Node? && (x == u.left || x == u.right) && Inv(x)
    requires Live(t) == Own(!u.pointDel, u.point) + Live(u.left) + Live(u.right)
    requires Ok(h', k, d)
    ensures Ready(x, k, q, h', d)
  {
    hide Inv, Live, Dist, Fit, Ok;
    assert forall p :: p in Live(x) ==> p in Live(t);
  }

  lemma {:induction false} OwnReady(t: Tree, k: nat, q: Point, h: seq<Cmp>, bound: Ext, d: set<Cmp>)
    requires Ready(t, k, q, h, d) && t.Node?
    ensures var u := PushDown(t);
      Absorbed(h, if u.pointDel then h else Offer(h, k, q, u.point, bound), k,
               Entries(Own(!u.pointDel, u.point), q, bound), d)
  {
    var u := PushDown(t);
    PushDownFacts(t);
    LivePartsSum(u);
    hide Inv, Live, Dist, Fit, Ok, Absorbed, Entries, Offer, PushDown, Parts, LiveParts;
    if !u.pointDel { assert u.point in Live(t); }
    OfferOwn(u, k, q, h, bound, d);
  }

  lemma AbsorbedOk(h: seq<Cmp>, h': seq<Cmp>, k: nat, pool: multiset<Cmp>, d: set<Cmp>)
    requires Absorbed(h, h', k, pool, d)
    ensures Ok(h', k, d)
  {
  }

  lemma {:induction false} SearchStep(t: Tree, k: nat, q: Point, h: seq<Cmp>, bound: Ext)
    requires t.Node? && !Dead(t) && !Nearer(bound, GapTo(t, q))
    ensures var u := PushDown(t);
      var h0 := if u.pointDel then h else Offer(h, k, q, u.point, bound);
      var dl, dr := GapTo(u.left, q), GapTo(u.right, q);
      Search(t, k, q, h, bound) ==
        if |h0| < k || (Nearer(dl, Top(h0)) && Nearer(dr, Top(h0))) then
          if !Nearer(dr, dl) then
            var l := Search(u.left, k, q, h0, bound);
            var r := SearchIf(|l.heap| < k || Nearer(dr, Top(l.heap)), u.right, k, q, l.heap, bound);
            Scan(u.(left := l.tree, right := r.tree), r.heap)
          else
            var r := Search(u.right, k, q, h0, bound);
            var l := SearchIf(|r.heap| < k || Nearer(dl, Top(r.heap)), u.left, k, q, r.heap, bound);
            Scan(u.(left := l.tree, right := r.tree), l.heap)
        else
          var l := SearchIf(Nearer(dl, Top(h0)), u.left, k, q, h0, bound);
          var r := SearchIf(Nearer(dr, Top(l.heap)), u.right, k, q, l.heap, bound);
          Scan(u.(left := l.tree, right := r.tree), r.heap)
  {
  }

  lemma {:induction false} SearchIfExact(go: bool, t: Tree, k: nat, q: Point, h: seq<Cmp>, bound: Ext, d: set<Cmp>)
    requires Ready(t, k, q, h, d)
    requires go || (|h| >= k && !Nearer(GapTo(t, q), Top(h)))
    ensures Searched(t, k, q, h, bound, d, SearchIf(go, t, k, q, h, bound).heap)
    decreases Nodes(t), 2
  {
    hide *;
    SearchIfCases(go, t, k, q, h, bound);
    if go {
      SearchExact(t, k, q, h, bound, d);
    } else {
      ReadyGives(t, k, q, h, d);
      PruneIsSafe(t, k, q, h, bound, d);
      SearchedBy(t, k, q, h, bound, d, h);
    }
  }

  lemma SearchIfCases(go: bool, t: Tree, k: nat, q: Point, h: seq<Cmp>, bound: Ext)
    ensures SearchIf(go, t, k, q, h, bound) == if go then Search(t, k, q, h, bound) else Scan(t, h)
  {
  }

  lemma ReadyGives(t: Tree, k: nat, q: Point, h: seq<Cmp>, d: set<Cmp>)
    requires Ready(t, k, q, h, d)
    ensures Inv(t) && k >= 1 && Ok(h, k, d)
  {
  }

  lemma SearchedBy(t: Tree, k: nat, q: Point, h: seq<Cmp>, bound: Ext, d: set<Cmp>, h': seq<Cmp>)
    ensures Searched(t, k, q, h, bound, d, h') <==> Absorbed(h, h', k, Entries(Live(t), q, bound), d)
  {
  }

  /** A searched subtree leaves in the heap the best of what was there and of its own live points. */
  lemma {:induction false} SearchExact(t: Tree, k: nat, q: Point, h: seq<Cmp>, bound: Ext, d: set<Cmp>)
    requires Ready(t, k, q, h, d)
    ensures Searched(t, k, q, h, bound, d, Search(t, k, q, h, bound).heap)
    decreases Nodes(t), 1
  {
    if Dead(t) || Nearer(bound, GapTo(t, q)) {
      if Dead(t) {
        assert Entries(Live(t), q, bound) == multiset{};
      } else {
        TooFar(t, q, bound);
      }
      NothingOffered(h, k, d);
    } else {
      SearchNode(t, k, q, h, bound, d);
    }
  }

  lemma {:induction false} SearchNode(t: Tree, k: nat, q: Point, h: seq<Cmp>, bound: Ext, d: set<Cmp>)
    requires Ready(t, k, q, h, d) && t.Node? && !Dead(t) && !Nearer(bound, GapTo(t, q))
    ensures Searched(t, k, q, h, bound, d, Search(t, k, q, h, bound).heap)
    decreases Nodes(t), 0
  {
    hide *;
    ReadyGives(t, k, q, h, d);
    PushDownFacts(t);
    SearchStep(t, k, q, h, bound);
    OwnReady(t, k, q, h, bound, d);
    var u := PushDown(t);
    var h0 := if u.pointDel then h else Offer(h, k, q, u.point, bound);
    var dl, dr := GapTo(u.left, q), GapTo(u.right, q);
    var whole := Entries(Own(!u.pointDel, u.point), q, bound);
    AbsorbedOk(h, h0, k, whole, d);
    ReadyParts(t, k, q, h, d, u.left, h0);
    ReadyParts(t, k, q, h, d, u.right, h0);
    if |h0| < k || (Nearer(dl, Top(h0)) && Nearer(dr, Top(h0))) {
      if !Nearer(dr, dl) {
        SearchExact(u.left, k, q, h0, bound, d);
        SearchSecond(t, k, q, h, bound, d, u.left, u.right, h0, Search(u.left, k, q, h0, bound).heap,
                     |Search(u.left, k, q, h0, bound).heap| < k || Nearer(dr, Top(Search(u.left, k, q, h0, bound).heap)));
      } else {
        SearchExact(u.right, k, q, h0, bound, d);
        SearchSecond(t, k, q, h, bound, d, u.right, u.left, h0, Search(u.right, k, q, h0, bound).heap,
                     |Search(u.right, k, q, h0, bound).heap| < k || Nearer(dl, Top(Search(u.right, k, q, h0, bound).heap)));
      }
    } else {
      SearchIfExact(Nearer(dl, Top(h0)), u.left, k, q, h0, bound, d);
      var l := SearchIf(Nearer(dl, Top(h0)), u.left, k, q, h0, bound);
      SearchedBy(u.left, k, q, h0, bound, d, l.heap);
      AbsorbedCount(h0, l.heap, k, Entries(Live(u.left), q, bound), d);
      SearchSecond(t, k, q, h, bound, d, u.left, u.right, h0, l.heap, Nearer(dr, Top(l.heap)));
    }
  }

  /** The second son, with the heap the first one left. */
  lemma {:induction false} SearchSecond(t: Tree, k: nat, q: Point, h: seq<Cmp>, bound: Ext, d: set<Cmp>,
                                        first: Tree, second: Tree, h0: seq<Cmp>, h1: seq<Cmp>, go: bool)
    requires Ready(t, k, q, h, d) && t.Node?
    requires var u := PushDown(t);
      && ((first == u.left && second == u.right) || (first == u.right && second == u.left))
      && Absorbed(h, h0, k, Entries(Own(!u.pointDel, u.point), q, bound), d)
    requires Searched(first, k, q, h0, bound, d, h1)
    requires go || (|h1| >= k && !Nearer(GapTo(second, q), Top(h1)))
    ensures Searched(t, k, q, h, bound, d, SearchIf(go, second, k, q, h1, bound).heap)
    decreases Nodes(second), 3
  {
    hide *;
    ReadyGives(t, k, q, h, d);
    PushDownFacts(t);
    SearchedBy(first, k, q, h0, bound, d, h1);
    AbsorbedOk(h0, h1, k, Entries(Live(first), q, bound), d);
    ReadyParts(t, k, q, h, d, second, h1);
    SearchIfExact(go, second, k, q, h1, bound, d);
    var h2 := SearchIf(go, second, k, q, h1, bound).heap;
    AbsorbedParts(PushDown(t), first, second, k, q, bound, d, h, h0, h1, h2);
    SearchedBy(t, k, q, h, bound, d, h2);
  }

  lemma {:induction false} SearchEased(t: Tree, k: nat, q: Point, h: seq<Cmp>, bound: Ext)
    requires Inv(t)
    ensures Eased(t, Search(t, k, q, h, bound).tree)
    decreases Nodes(t), 1
  {
    if !Dead(t) && !Nearer(bound, GapTo(t, q)) {
      SearchNodeEased(t, k, q, h, bound);
    }
  }

  lemma {:induction false} SearchIfEased(go: bool, t: Tree, k: nat, q: Point, h: seq<Cmp>, bound: Ext)
    requires Inv(t)
    ensures Eased(t, SearchIf(go, t, k, q, h, bound).tree)
    decreases Nodes(t), 2
  {
    SearchEased(t, k, q, h, bound);
  }

  lemma {:induction false} SearchNodeEased(t: Tree, k: nat, q: Point, h: seq<Cmp>, bound: Ext)
    requires t.Node? && Inv(t) && !Dead(t) && !Nearer(bound, GapTo(t, q))
    ensures Eased(t, Search(t, k, q, h, bound).tree)
    decreases Nodes(t), 0
  {
    hide *;
    PushDownFacts(t);
    SearchStep(t, k, q, h, bound);
    var u := PushDown(t);
    var h0 := if u.pointDel then h else Offer(h, k, q, u.point, bound);
    var dl, dr := GapTo(u.left, q), GapTo(u.right, q);
    var r := Search(t, k, q, h, bound).tree;
    if |h0| < k || (Nearer(dl, Top(h0)) && Nearer(dr, Top(h0))) {
      if !Nearer(dr, dl) {
        var l := Search(u.left, k, q, h0, bound);
        SearchEased(u.left, k, q, h0, bound);
        SearchIfEased(|l.heap| < k || Nearer(dr, Top(l.heap)), u.right, k, q, l.heap, bound);
      } else {
        var l := Search(u.right, k, q, h0, bound);
        SearchEased(u.right, k, q, h0, bound);
        SearchIfEased(|l.heap| < k || Nearer(dl, Top(l.heap)), u.left, k, q, l.heap, bound);
      }
    } else {
      var l := SearchIf(Nearer(dl, Top(h0)), u.left, k, q, h0, bound);
      SearchIfEased(Nearer(dl, Top(h0)), u.left, k, q, h0, bound);
      SearchIfEased(Nearer(dr, Top(l.heap)), u.right, k, q, l.heap, bound);
    }
    EasedNode(t, r.left, r.right);
  }

  // ---- Nearest_Search ----

  ghost predicate Ascending(s: seq<Cmp>) {
    forall i, j :: 0 <= i < j < |s| ==> s[i].dist <= s[j].dist
  }

  /** Emptying the heap yields its candidates, nearest first. */
  lemma {:induction false} DrainExact(h: seq<Cmp>, d: set<Cmp>)
    requires IsHeap(h) && Within(h, d) && (NoConfusion(d) || |h| <= 1)
    ensures multiset(Drain(h, |h|)) == multiset(h) && Ascending(Drain(h, |h|))
    decreases |h|
  {
    if |h| > 0 {
      PopExact(h, d);
      DrainExact(Pop(h), d);
      forall e | e in multiset(h) ensures e.dist <= h[0].dist {
        var j :| 0 <= j < |h| && h[j] == e;
        TopIsGreatest(h, j);
      }
      DrainStep(h, Drain(Pop(h), |h| - 1));
    }
  }

  lemma DrainStep(h: seq<Cmp>, rest: seq<Cmp>)
    requires |h| > 0 && rest == Drain(Pop(h), |h| - 1) && Ascending(rest)
    requires multiset(rest) + multiset{h[0]} == multiset(h)
    requires forall e :: e in multiset(h) ==> e.dist <= h[0].dist
    ensures multiset(Drain(h, |h|)) == multiset(h) && Ascending(Drain(h, |h|))
  {
    assert Drain(h, |h|) == rest + [h[0]];
    hide *;
    forall i | 0 <= i < |rest| ensures rest[i].dist <= h[0].dist {
      assert rest[i] in multiset(rest);
      assert rest[i] in multiset(h);
    }
    AscendingAppend(rest, h[0]);
  }

  lemma AscendingAppend(s: seq<Cmp>, e: Cmp)
    requires Ascending(s) && forall i :: 0 <= i < |s| ==> s[i].dist <= e.dist
    ensures Ascending(s + [e])
  {
  }

  /** The candidates a set of points makes for a query, whatever the bound. */
  ghost function Candidates(m: multiset<Point>, q: Point): set<Cmp> {
    set p | p in m :: Cmp(p, Dist(q, p))
  }

  /** `b` is farther from `q` than `a`, but by less than 1e-10 in squared distance, and not right of it. */
  predicate Confused(a: Point, b: Point, q: Point) {
    0.0 < Dist(q, b) - Dist(q, a) < 0.0000000001 && b.x <= a.x
  }

  /** These are the pairs the comparison ranks against their distances. */
  lemma ConfusedIff(a: Point, b: Point, q: Point)
    ensures Confused(a, b, q) <==> Dist(q, a) < Dist(q, b) && !Less(Cmp(a, Dist(q, a)), Cmp(b, Dist(q, b)))
  {
    hide Dist;
  }

  ghost predicate NoneConfused(m: multiset<Point>, q: Point) {
    forall a, b :: a in m && b in m ==> !Confused(a, b, q)
  }

  lemma NoneConfusedIff(m: multiset<Point>, q: Point)
    ensures NoneConfused(m, q) <==> NoConfusion(Candidates(m, q))
  {
    hide Dist, Less, Confused;
    forall a: Point, b: Point
      ensures Confused(a, b, q) <==> Dist(q, a) < Dist(q, b) && !Less(Cmp(a, Dist(q, a)), Cmp(b, Dist(q, b)))
    {
      ConfusedIff(a, b, q);
    }
    if NoConfusion(Candidates(m, q)) {
      forall a, b | a in m && b in m ensures !Confused(a, b, q) {
        assert Cmp(a, Dist(q, a)) in Candidates(m, q) && Cmp(b, Dist(q, b)) in Candidates(m, q);
      }
    }
  }

  /** Squared distances that are equal or at least 1e-10 apart. */
  ghost predicate SpreadOut(m: multiset<Point>, q: Point) {
    forall a, b :: a in m && b in m ==> Dist(q, a) == Dist(q, b) || Abs(Dist(q, a) - Dist(q, b)) >= 0.0000000001
  }

  lemma SpreadOutIsClear(m: multiset<Point>, q: Point)
    requires SpreadOut(m, q)
    ensures NoneConfused(m, q)
  {
    hide Dist;
  }

  /** The promise: live points at their true distances within the bound, nearest first, as many as
      asked for or as there are, and none left out nearer than one returned. */
  ghost predicate IsNearest(found: seq<Cmp>, m: multiset<Point>, q: Point, k: nat, maxDist: Ext) {
    Ascending(found) && KBest(multiset(found), Reached(m, q, maxDist), k)
  }

  /** The points no farther than `maxDist`, with their squared distances. */
  ghost function Reached(m: multiset<Point>, q: Point, maxDist: Ext): (r: multiset<Cmp>)
    ensures forall e: Cmp ::
      r[e] == if e.dist == Dist(q, e.point) && (maxDist.Fin? ==> e.dist <= maxDist.v * maxDist.v) then m[e.point] else 0
  {
    EntriesReach(m, q, maxDist);
    Entries(m, q, Squared(maxDist))
  }

  lemma EntriesReach(m: multiset<Point>, q: Point, maxDist: Ext)
    ensures forall e: Cmp ::
      Entries(m, q, Squared(maxDist))[e]
      == if e.dist == Dist(q, e.point) && (maxDist.Fin? ==> e.dist <= maxDist.v * maxDist.v) then m[e.point] else 0
  {
    hide Dist;
  }

  /** `Nearest_Search` keeps its promise for one neighbour always, and for more whenever no two live
      points are confused. */
  lemma {:induction false} NearestSearchExact(t: Tree, q: Point, k: nat, maxDist: Ext)
    requires Inv(t) && k >= 1 && (k == 1 || NoneConfused(Live(t), q))
    ensures IsNearest(NearestSearch(t, q, k, maxDist).found, Live(t), q, k, maxDist)
    ensures Eased(t, NearestSearch(t, q, k, maxDist).tree)
  {
    hide *;
    var d := Candidates(Live(t), q);
    var bound := Squared(maxDist);
    NoneConfusedIff(Live(t), q);
    FitIs(d, k);
    NearestReady(t, q, k);
    SearchExact(t, k, q, [], bound, d);
    SearchEased(t, k, q, [], bound);
    var h := Search(t, k, q, [], bound).heap;
    SearchedBy(t, k, q, [], bound, d, h);
    NearestFrom(t, q, k, maxDist, d);
  }

  lemma FitIs(d: set<Cmp>, k: nat)
    ensures Fit(d, k) <==> NoConfusion(d) || k == 1
  {
  }

  /** Points whose squared distances are equal or 1e-10 apart come back right for every `k`. */
  lemma {:induction false} SpreadOutExact(t: Tree, q: Point, k: nat, maxDist: Ext)
    requires Inv(t) && k >= 1 && SpreadOut(Live(t), q)
    ensures IsNearest(NearestSearch(t, q, k, maxDist).found, Live(t), q, k, maxDist)
  {
    hide *;
    SpreadOutIsClear(Live(t), q);
    NearestSearchExact(t, q, k, maxDist);
  }

  lemma {:induction false} NearestReady(t: Tree, q: Point, k: nat)
    requires Inv(t) && k >= 1 && Fit(Candidates(Live(t), q), k)
    ensures Ready(t, k, q, [], Candidates(Live(t), q))
  {
    hide Inv, Live, Dist, NoConfusion;
  }

  lemma {:induction false} NearestFrom(t: Tree, q: Point, k: nat, maxDist: Ext, d: set<Cmp>)
    requires Fit(d, k)
    requires Absorbed([], Search(t, k, q, [], Squared(maxDist)).heap, k, Entries(Live(t), q, Squared(maxDist)), d)
    ensures IsNearest(NearestSearch(t, q, k, maxDist).found, Live(t), q, k, maxDist)
    ensures NearestSearch(t, q, k, maxDist).tree == Search(t, k, q, [], Squared(maxDist)).tree
  {
    hide Inv, Live, Search, Drain, Entries, Squared, IsHeap, Within, NoConfusion, KBest, Ascending;
    var h := Search(t, k, q, [], Squared(maxDist)).heap;
    DrainExact(h, d);
    var all := Entries(Live(t), q, Squared(maxDist));
    var none: seq<Cmp> := [];
    assert multiset(none) + all == all;
  }

  lemma FewerConfused(l: multiset<Point>, m: multiset<Point>, q: Point)
    requires l <= m && NoneConfused(m, q)
    ensures NoneConfused(l, q)
  {
    hide Confused;
    assert forall p :: p in l ==> p in m;
  }
}
