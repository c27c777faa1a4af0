/** Range and radius searches are exact, and leave nothing behind but push-downs. */
module Searches {
  import opened Geometry
  import opened Multisets
  import opened Tree
  import opened Invariant
  import opened Rebuilding
  import opened Edits
  import opened Shape

  // ---- Searching only pushes down ----

  /** `r` is `t` after push-downs at some of its nodes, fathers first. */
  ghost predicate Eased(t: Tree, r: Tree)
    decreases Nodes(t)
  {
    || r == t
    || (t.Node? && r.Node? &&
        var u := PushDown(t);
        r == u.(left := r.left, right := r.right) && Eased(u.left, r.left) && Eased(u.right, r.right))
  }

  /** The fields a father reads. */
  ghost predicate SameSummary(x: Tree, y: Tree) {
    && (x.Node? <==> y.Node?)
    && (x.Node? ==> x.size == y.size && x.invalid == y.invalid && x.downDel == y.downDel && x.range == y.range
                    && x.treeDel == y.treeDel && x.treeDs == y.treeDs && x.point == y.point && x.axis == y.axis)
  }

  ghost predicate SameMeaning(x: Tree, y: Tree) {
    && Live(x) == Live(y) && Points(x) == Points(y)
    && Of(x, Boxed) == Of(y, Boxed) && Of(x, Dropped) == Of(y, Dropped)
  }

  /** Everything a push-down must not disturb. */
  ghost predicate Unharmed(t: Tree, r: Tree) {
    && Inv(r) && SameSummary(t, r) && SameMeaning(t, r)
    && (Balanced(t) ==> Balanced(r)) && (Ordered(t) ==> Ordered(r))
  }

  lemma {:induction false} ReplacedInv(u: Tree, l: Tree, r: Tree)
    requires u.Node? && Inv(u) && Settled(u) && Inv(l) && Inv(r) && SameSummary(u.left, l) && SameSummary(u.right, r)
    ensures Inv(u.(left := l, right := r)) && Settled(u.(left := l, right := r))
  {
    var v := u.(left := l, right := r);
    assert Local(v);
  }

  lemma {:induction false} ReplacedMeaning(u: Tree, l: Tree, r: Tree, s: Status)
    requires u.Node? && Inv(u) && SameSummary(u.left, l) && SameSummary(u.right, r)
    requires Settled(u) && Inv(l) && Inv(r)
    requires Of(u.left, s) == Of(l, s) && Of(u.right, s) == Of(r, s)
    ensures Of(u.(left := l, right := r), s) == Of(u, s)
  {
    var v := u.(left := l, right := r);
    hide *;
    SettledFlat(u);
    ReplacedFlat(u, l, r);
    FlatHeld(u, s);
    FlatHeld(v, s);
  }

  lemma {:induction false} SettledFlat(u: Tree)
    requires u.Node? && Inv(u) && Settled(u)
    ensures Flat(u)
  {
    hide Held, Live, Points;
  }

  lemma {:induction false} ReplacedFlat(u: Tree, l: Tree, r: Tree)
    requires u.Node? && Inv(u) && Settled(u) && Inv(l) && Inv(r) && SameSummary(u.left, l) && SameSummary(u.right, r)
    ensures Flat(u.(left := l, right := r))
  {
    hide Held, Live, Points;
    ReplacedInv(u, l, r);
    SettledFlat(u.(left := l, right := r));
  }

  lemma {:induction false} ReplacedRest(u: Tree, l: Tree, r: Tree)
    requires u.Node? && Live(u.left) == Live(l) && Live(u.right) == Live(r)
    requires Points(u.left) == Points(l) && Points(u.right) == Points(r)
    requires SameSummary(u.left, l) && SameSummary(u.right, r)
    ensures var v := u.(left := l, right := r);
      && Live(v) == Live(u) && Points(v) == Points(u)
      && (Balanced(u) && Balanced(l) && Balanced(r) ==> Balanced(v))
      && (Ordered(u) && Ordered(l) && Ordered(r) ==> Ordered(v))
  {
  }

  lemma {:induction false} ReplacedUnharmed(u: Tree, l: Tree, r: Tree)
    requires u.Node? && Inv(u) && Settled(u) && Unharmed(u.left, l) && Unharmed(u.right, r)
    ensures Unharmed(u, u.(left := l, right := r))
  {
    hide Inv, Of, Live, Points, Balanced, Ordered, SameSummary, Settled;
    ReplacedInv(u, l, r);
    ReplacedMeaning(u, l, r, Boxed);
    ReplacedMeaning(u, l, r, Dropped);
    ReplacedRest(u, l, r);
    ShapeSons(u);
    SameSelf(u, l, r);
  }

  lemma ShapeSons(u: Tree)
    requires u.Node?
    ensures Balanced(u) ==> Balanced(u.left) && Balanced(u.right)
    ensures Ordered(u) ==> Ordered(u.left) && Ordered(u.right)
  {
  }

  lemma SameSelf(u: Tree, l: Tree, r: Tree)
    requires u.Node?
    ensures SameSummary(u, u.(left := l, right := r))
  {
  }

  lemma {:induction false} PushDownUnharmed(t: Tree)
    requires Inv(t)
    ensures Unharmed(t, PushDown(t)) && (t.Node? ==> Settled(PushDown(t)))
  {
    hide *;
    PushDownInv(t);
    PushDownSummary(t);
    PushDownLive(t);
    PushDownHeld(t, Boxed);
    PushDownHeld(t, Dropped);
    PushDownPoints(t);
    if Balanced(t) { PushDownBalanced(t); }
    if Ordered(t) { PushDownOrdered(t); }
    UnharmedFrom(t, PushDown(t));
  }

  lemma PushDownSummary(t: Tree)
    ensures SameSummary(t, PushDown(t))
  {
  }

  lemma UnharmedFrom(t: Tree, r: Tree)
    requires Inv(r) && SameSummary(t, r) && Live(t) == Live(r) && Points(t) == Points(r)
    requires Of(t, Boxed) == Of(r, Boxed) && Of(t, Dropped) == Of(r, Dropped)
    requires (Balanced(t) ==> Balanced(r)) && (Ordered(t) ==> Ordered(r))
    ensures Unharmed(t, r)
  {
  }

  lemma UnharmedTrans(t: Tree, u: Tree, r: Tree)
    requires Unharmed(t, u) && Unharmed(u, r)
    ensures Unharmed(t, r)
  {
    hide Inv, Of, Live, Points, Balanced, Ordered;
  }

  /** Push-downs disturb nothing: not the invariant, nor any point's status, nor order or balance. */
  lemma {:induction false} EasedUnharmed(t: Tree, r: Tree)
    requires Inv(t) && Eased(t, r)
    ensures Unharmed(t, r)
    decreases Nodes(t)
  {
    if r != t {
      var u := PushDown(t);
      PushDownUnharmed(t);
      PushDownFacts(t);
      hide *;
      EasedUnharmed(u.left, r.left);
      EasedUnharmed(u.right, r.right);
      ReplacedUnharmed(u, r.left, r.right);
      UnharmedTrans(t, u, r);
    } else {
      UnharmedFrom(t, t);
    }
  }

  lemma SettledFixed(u: Tree)
    requires Settled(u)
    ensures PushDown(u) == u
  {
  }

  lemma {:induction false} PushAllEased(t: Tree)
    requires Inv(t)
    ensures Eased(t, PushAll(t)) && Eased(t, PushAll(PushDown(t)))
    decreases Nodes(t)
  {
    if t.Node? {
      var u := PushDown(t);
      PushDownInv(t);
      SettledFixed(u);
      InvSons(u);
      PushAllEased(u.left);
      PushAllEased(u.right);
    }
  }

  // ---- Box search ----

  /** The nodes a search went through, eased. */
  lemma {:induction false} EasedNode(t: Tree, l: Tree, r: Tree)
    requires t.Node? && Eased(PushDown(t).left, l) && Eased(PushDown(t).right, r)
    ensures Eased(t, PushDown(t).(left := l, right := r))
  {
  }

  lemma EasedOnce(t: Tree)
    ensures Eased(t, PushDown(t))
  {
    if t.Node? {
      var u := PushDown(t);
      assert Eased(u.left, u.left) && Eased(u.right, u.right);
    }
  }

  lemma {:induction false} SearchRangeStep(t: Tree, b: Box)
    ensures var u := PushDown(t);
      if u.Nil? || Misses(b, u.range) then SearchRange(t, b) == Found(u, [])
      else if Covers(b, u.range) then SearchRange(t, b) == Found(PushAll(u), Flatten(u))
      else
        var l, r := SearchRange(u.left, b), SearchRange(u.right, b);
        SearchRange(t, b) == Found(u.(left := l.tree, right := r.tree),
                                   (if Hit(u, b) then [u.point] else []) + l.points + r.points)
  {
  }

  lemma FoundParts(o: seq<Point>, l: seq<Point>, r: seq<Point>)
    ensures multiset(o + l + r) == multiset(o) + multiset(l) + multiset(r)
  {
  }

  /** `Box_Search` yields exactly the live points of the half-open box. */
  lemma {:induction false} SearchRangeExact(t: Tree, b: Box)
    requires Inv(t)
    ensures multiset(SearchRange(t, b).points) == Inside(Live(t), b)
    ensures Eased(t, SearchRange(t, b).tree)
    decreases Nodes(t), 1
  {
    SearchRangeStep(t, b);
    EasedOnce(t);
    if t.Nil? {
      NoneInside(Live(t), b);
    } else {
      SearchRangeNode(t, b);
    }
  }

  lemma {:induction false} SearchRangeNode(t: Tree, b: Box)
    requires t.Node? && Inv(t)
    ensures multiset(SearchRange(t, b).points) == Inside(Live(t), b)
    ensures Eased(t, SearchRange(t, b).tree)
    decreases Nodes(t), 0
  {
    hide *;
    PushDownFacts(t);
    SearchRangeStep(t, b);
    EasedOnce(t);
    var u := PushDown(t);
    if Misses(b, u.range) {
      MissesNone(u, b);
    } else if Covers(b, u.range) {
      PushAllEased(t);
      FlattenExact(u);
      CoversAll(u, b);
    } else {
      var l, r := SearchRange(u.left, b), SearchRange(u.right, b);
      SearchRangeExact(u.left, b);
      SearchRangeExact(u.right, b);
      EasedNode(t, l.tree, r.tree);
      SplitSum(Own(!u.pointDel, u.point), Live(u.left), Live(u.right), b);
      OwnInside(u, b);
      FoundParts(if Hit(u, b) then [u.point] else [], l.points, r.points);
      assert Live(t) == LiveParts(u);
      LivePartsSum(u);
    }
  }

  lemma LivePartsSum(u: Tree)
    requires u.Node?
    ensures LiveParts(u) == Own(!u.pointDel, u.point) + Live(u.left) + Live(u.right)
  {
  }

  lemma OwnInside(u: Tree, b: Box)
    requires u.Node?
    ensures Inside(Own(!u.pointDel, u.point), b) == multiset(if Hit(u, b) then [u.point] else [])
  {
    if InBox(b, u.point) { AllInside(Own(!u.pointDel, u.point), b); } else { NoneInside(Own(!u.pointDel, u.point), b); }
  }

  // ---- Radius search ----

  /** The Cauchy-Schwarz inequality in three dimensions. */
  lemma CauchySchwarz(x: real, y: real, z: real, a: real, b: real, c: real)
    ensures Sq(x * a + y * b + z * c) <= (Sq(x) + Sq(y) + Sq(z)) * (Sq(a) + Sq(b) + Sq(c))
  {
    SqNeg(x * b - y * a);
    SqNeg(x * c - z * a);
    SqNeg(y * c - z * b);
    assert (Sq(x) + Sq(y) + Sq(z)) * (Sq(a) + Sq(b) + Sq(c)) - Sq(x * a + y * b + z * c)
        == Sq(x * b - y * a) + Sq(x * c - z * a) + Sq(y * c - z * b);
  }

  /** The triangle inequality on squares: with `h` and `d` the distances to `c`, the distance from
      `p` to `q` lies between `d - h` and `d + h`. */
  lemma Triangle(p: Point, c: Point, q: Point, h: real, d: real)
    requires h >= 0.0 && d >= 0.0 && Sq(h) == Dist(p, c) && Sq(d) == Dist(c, q)
    ensures Sq(d - h) <= Dist(p, q) <= Sq(d + h)
  {
    hide *;
    DotSq(p, c, q, h, d);
    DotBound(Dot(p, c, q), h * d);
    Expand(p, c, q);
    SumSq(d, h);
  }

  function Dot(p: Point, c: Point, q: Point): real {
    (p.x - c.x) * (c.x - q.x) + (p.y - c.y) * (c.y - q.y) + (p.z - c.z) * (c.z - q.z)
  }

  lemma DotSq(p: Point, c: Point, q: Point, h: real, d: real)
    requires h >= 0.0 && d >= 0.0 && Sq(h) == Dist(p, c) && Sq(d) == Dist(c, q)
    ensures Sq(Dot(p, c, q)) <= Sq(h * d) && h * d >= 0.0
  {
    hide *;
    DotCauchy(p, c, q);
    SqProduct(h, d);
  }

  lemma DotCauchy(p: Point, c: Point, q: Point)
    ensures Sq(Dot(p, c, q)) <= Dist(p, c) * Dist(c, q)
  {
    hide *;
    var x, y, z, a, b, e := p.x - c.x, p.y - c.y, p.z - c.z, c.x - q.x, c.y - q.y, c.z - q.z;
    DistAs(p, c, x, y, z);
    DistAs(c, q, a, b, e);
    DotAs(p, c, q, x, y, z, a, b, e);
    CauchySchwarz(x, y, z, a, b, e);
  }

  lemma DistAs(p: Point, q: Point, x: real, y: real, z: real)
    requires x == p.x - q.x && y == p.y - q.y && z == p.z - q.z
    ensures Dist(p, q) == Sq(x) + Sq(y) + Sq(z)
  {
  }

  lemma DotAs(p: Point, c: Point, q: Point, x: real, y: real, z: real, a: real, b: real, e: real)
    requires x == p.x - c.x && y == p.y - c.y && z == p.z - c.z && a == c.x - q.x && b == c.y - q.y && e == c.z - q.z
    ensures Dot(p, c, q) == x * a + y * b + z * e
  {
  }

  lemma SqProduct(h: real, d: real)
    ensures Sq(h * d) == Sq(h) * Sq(d)
    ensures h >= 0.0 && d >= 0.0 ==> h * d >= 0.0
  {
  }

  lemma SumSq(d: real, h: real)
    ensures Sq(d + h) == Sq(d) + Sq(h) + 2.0 * (h * d)
    ensures Sq(d - h) == Sq(d) + Sq(h) - 2.0 * (h * d)
  {
  }

  lemma DotBound(dot: real, m: real)
    requires m >= 0.0 && Sq(dot) <= Sq(m)
    ensures -m <= dot <= m
  {
    SqNeg(dot);
    if dot >= 0.0 { RootOrder(dot, m); } else { RootOrder(-dot, m); }
  }

  lemma Expand(p: Point, c: Point, q: Point)
    ensures Dist(p, q) == Dist(p, c) + Dist(c, q) + 2.0 * Dot(p, c, q)
  {
    ExpandAxis(p.x, c.x, q.x);
    ExpandAxis(p.y, c.y, q.y);
    ExpandAxis(p.z, c.z, q.z);
  }

  lemma ExpandAxis(p: real, c: real, q: real)
    ensures Sq(p - q) == Sq(p - c) + Sq(c - q) + 2.0 * ((p - c) * (c - q))
  {
  }

  /** No point of a range is farther from its centre than the half diagonal. */
  lemma HalfDiagonalCovers(r: Box, p: Point)
    requires InRange(r, p)
    ensures Dist(p, Centre(r)) <= HalfDiagonalSq(r)
  {
    HalfWidth(p.x, r.minX, r.maxX);
    HalfWidth(p.y, r.minY, r.maxY);
    HalfWidth(p.z, r.minZ, r.maxZ);
  }

  lemma HalfWidth(v: real, lo: real, hi: real)
    requires lo <= v <= hi
    ensures Sq(v - (lo + hi) * 0.5) <= Sq((hi - lo) * 0.5)
  {
    var m := (lo + hi) * 0.5;
    SqNeg(v - m);
    if v >= m { SqMonotone(v - m, (hi - lo) * 0.5); } else { SqMonotone(m - v, (hi - lo) * 0.5); }
  }

  lemma DistSymmetric(p: Point, q: Point)
    ensures Dist(p, q) == Dist(q, p) && Dist(p, q) >= 0.0
  {
    SqNeg(p.x - q.x);
    SqNeg(p.y - q.y);
    SqNeg(p.z - q.z);
  }

  /** A live point is beyond the radius when the subtree is pruned, within it when accepted. */
  lemma {:induction false} RadiusPrune(u: Tree, p: Point, q: Point, radius: real, sqrt: real -> real)
    requires IsSqrt(sqrt) && radius >= 0.0 && u.Node? && Inv(u) && p in Live(u)
    ensures var d, h := sqrt(Dist(Centre(u.range), q)), sqrt(u.radiusSq);
      && (d > radius + h ==> Dist(p, q) > radius * radius)
      && (d <= radius - h ==> Dist(p, q) <= radius * radius)
  {
    LiveInRange(u, p);
    assert u.radiusSq == HalfDiagonalSq(u.range);
    RangePrune(u.range, u.radiusSq, p, q, radius, sqrt);
  }

  lemma RangePrune(r: Box, radiusSq: real, p: Point, q: Point, radius: real, sqrt: real -> real)
    requires IsSqrt(sqrt) && radius >= 0.0 && InRange(r, p) && radiusSq == HalfDiagonalSq(r)
    ensures var d, h := sqrt(Dist(Centre(r), q)), sqrt(radiusSq);
      && (d > radius + h ==> Dist(p, q) > Sq(radius))
      && (d <= radius - h ==> Dist(p, q) <= Sq(radius))
  {
    var c := Centre(r);
    HalfDiagonalCovers(r, p);
    DistSymmetric(p, c);
    DistSymmetric(c, q);
    hide Sq, Dist, HalfDiagonalSq, Centre, InRange;
    var a, d, h := sqrt(Dist(p, c)), sqrt(Dist(c, q)), sqrt(radiusSq);
    RootOrder(a, h);
    Triangle(p, c, q, a, d);
    if d > radius + h { SqStrict(radius, d - a); }
    if d <= radius - h { SqMonotone(d + a, radius); }
  }

  lemma {:induction false} SearchRadiusStep(t: Tree, q: Point, radius: real, sqrt: real -> real)
    ensures var u := PushDown(t);
      if u.Nil? then SearchRadius(t, q, radius, sqrt) == Found(u, [])
      else
        var d, h := sqrt(Dist(Centre(u.range), q)), sqrt(u.radiusSq);
        if d > radius + h then SearchRadius(t, q, radius, sqrt) == Found(u, [])
        else if d <= radius - h then SearchRadius(t, q, radius, sqrt) == Found(PushAll(u), Flatten(u))
        else
          var l, r := SearchRadius(u.left, q, radius, sqrt), SearchRadius(u.right, q, radius, sqrt);
          SearchRadius(t, q, radius, sqrt) == Found(u.(left := l.tree, right := r.tree),
            (if !u.pointDel && Dist(u.point, q) <= radius * radius then [u.point] else []) + l.points + r.points)
  {
  }

  lemma OwnInBall(u: Tree, q: Point, radius: real)
    requires u.Node?
    ensures Ball(Own(!u.pointDel, u.point), q, radius)
         == multiset(if !u.pointDel && Dist(u.point, q) <= radius * radius then [u.point] else [])
  {
    hide Dist;
    if Dist(u.point, q) <= radius * radius { AllInBall(Own(!u.pointDel, u.point), q, radius); }
    else { NoneInBall(Own(!u.pointDel, u.point), q, radius); }
  }

  lemma {:induction false} PrunedBall(u: Tree, q: Point, radius: real, sqrt: real -> real)
    requires IsSqrt(sqrt) && radius >= 0.0 && u.Node? && Inv(u)
    ensures var d, h := sqrt(Dist(Centre(u.range), q)), sqrt(u.radiusSq);
      && (d > radius + h ==> Ball(Live(u), q, radius) == multiset{})
      && (d <= radius - h ==> Ball(Live(u), q, radius) == Live(u))
  {
    hide *;
    var d, h := sqrt(Dist(Centre(u.range), q)), sqrt(u.radiusSq);
    forall p | p in Live(u)
      ensures d > radius + h ==> Dist(p, q) > radius * radius
      ensures d <= radius - h ==> Dist(p, q) <= radius * radius
    {
      RadiusPrune(u, p, q, radius, sqrt);
    }
    if d > radius + h { NoneInBall(Live(u), q, radius); }
    if d <= radius - h { AllInBall(Live(u), q, radius); }
  }

  /** `Radius_Search` yields exactly the live points within the radius: the pruned and the wholly
      accepted subtrees are right by the triangle inequality. */
  lemma {:induction false} SearchRadiusExact(t: Tree, q: Point, radius: real, sqrt: real -> real)
    requires Inv(t) && IsSqrt(sqrt) && radius >= 0.0
    ensures multiset(SearchRadius(t, q, radius, sqrt).points) == Ball(Live(t), q, radius)
    decreases Nodes(t), 1
  {
    if t.Nil? {
      NoneInBall(Live(t), q, radius);
    } else {
      SearchRadiusNode(t, q, radius, sqrt);
    }
  }

  lemma {:induction false} SearchRadiusNode(t: Tree, q: Point, radius: real, sqrt: real -> real)
    requires t.Node? && Inv(t) && IsSqrt(sqrt) && radius >= 0.0
    ensures multiset(SearchRadius(t, q, radius, sqrt).points) == Ball(Live(t), q, radius)
    decreases Nodes(t), 0
  {
    hide *;
    PushDownFacts(t);
    SearchRadiusStep(t, q, radius, sqrt);
    var u := PushDown(t);
    FlattenExact(u);
    PrunedBall(u, q, radius, sqrt);
    var d, h := sqrt(Dist(Centre(u.range), q)), sqrt(u.radiusSq);
    if !(d > radius + h) && !(d <= radius - h) {
      var l, r := SearchRadius(u.left, q, radius, sqrt), SearchRadius(u.right, q, radius, sqrt);
      SearchRadiusExact(u.left, q, radius, sqrt);
      SearchRadiusExact(u.right, q, radius, sqrt);
      BallSum(Own(!u.pointDel, u.point), Live(u.left), Live(u.right), q, radius);
      OwnInBall(u, q, radius);
      FoundParts(if !u.pointDel && Dist(u.point, q) <= radius * radius then [u.point] else [], l.points, r.points);
      LivePartsSum(u);
    }
  }

  lemma {:induction false} SearchRadiusEased(t: Tree, q: Point, radius: real, sqrt: real -> real)
    requires Inv(t)
    ensures Eased(t, SearchRadius(t, q, radius, sqrt).tree)
    decreases Nodes(t)
  {
    SearchRadiusStep(t, q, radius, sqrt);
    EasedOnce(t);
    if t.Node? {
      PushDownFacts(t);
      PushAllEased(t);
      hide *;
      var u := PushDown(t);
      var l, r := SearchRadius(u.left, q, radius, sqrt), SearchRadius(u.right, q, radius, sqrt);
      SearchRadiusEased(u.left, q, radius, sqrt);
      SearchRadiusEased(u.right, q, radius, sqrt);
      EasedNode(t, l.tree, r.tree);
    }
  }
}
