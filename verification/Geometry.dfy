/** Points, boxes and squared distances, over exact reals. */
module Geometry {

  datatype Option<+T> = None | Some(value: T)

  /** A point of the cloud. `intensity` stands for every field the tree only carries along. */
  datatype Point = Point(x: real, y: real, z: real, intensity: real)

  /** 0, 1 or 2: the coordinate a node splits on. */
  type Axis = a: int | 0 <= a < 3

  function Coord(p: Point, a: Axis): real {
    if a == 0 then p.x else if a == 1 then p.y else p.z
  }

  /** `vertex_min` and `vertex_max`; also used for the three `node_range` pairs. */
  datatype Box = Box(minX: real, maxX: real, minY: real, maxY: real, minZ: real, maxZ: real)

  /** Half-open, as every test of a point against a query box is. */
  predicate InBox(b: Box, p: Point) {
    b.minX <= p.x < b.maxX && b.minY <= p.y < b.maxY && b.minZ <= p.z < b.maxZ
  }

  /** Closed, as node ranges are. */
  predicate InRange(r: Box, p: Point) {
    r.minX <= p.x <= r.maxX && r.minY <= p.y <= r.maxY && r.minZ <= p.z <= r.maxZ
  }

  predicate Misses(b: Box, r: Box) {
    || b.maxX <= r.minX || b.minX > r.maxX
    || b.maxY <= r.minY || b.minY > r.maxY
    || b.maxZ <= r.minZ || b.minZ > r.maxZ
  }

  predicate Covers(b: Box, r: Box) {
    && b.minX <= r.minX && b.maxX > r.maxX
    && b.minY <= r.minY && b.maxY > r.maxY
    && b.minZ <= r.minZ && b.maxZ > r.maxZ
  }

  function Min(a: real, b: real): real { if b < a then b else a }

  function Max(a: real, b: real): real { if a < b then b else a }

  function Spot(p: Point): Box { Box(p.x, p.x, p.y, p.y, p.z, p.z) }

  function Hull(a: Box, b: Box): Box {
    Box(Min(a.minX, b.minX), Max(a.maxX, b.maxX),
        Min(a.minY, b.minY), Max(a.maxY, b.maxY),
        Min(a.minZ, b.minZ), Max(a.maxZ, b.maxZ))
  }

  /** Hull of ranges that may be absent: `None` is the (INFINITY, -INFINITY) range. */
  function Join(a: Option<Box>, b: Option<Box>): Option<Box> {
    match (a, b)
    case (None, _) => b
    case (_, None) => a
    case (Some(s), Some(t)) => Some(Hull(s, t))
  }

  function Abs(v: real): real { if v < 0.0 then -v else v }

  function Sq(v: real): real { v * v }

  /** What the library's square root is assumed to be. */
  ghost predicate IsSqrt(sqrt: real -> real) {
    forall v: real :: v >= 0.0 ==> sqrt(v) >= 0.0 && Sq(sqrt(v)) == v
  }

  /** Squared Euclidean distance (`calc_dist`). */
  function Dist(p: Point, q: Point): real {
    Sq(p.x - q.x) + Sq(p.y - q.y) + Sq(p.z - q.z)
  }

  function AxisGap(v: real, lo: real, hi: real): real {
    (if v < lo then Sq(v - lo) else 0.0) + (if v > hi then Sq(v - hi) else 0.0)
  }

  /** Squared distance from a point to a range (`calc_box_dist` of a node). */
  function BoxDist(r: Box, q: Point): real {
    AxisGap(q.x, r.minX, r.maxX) + AxisGap(q.y, r.minY, r.maxY) + AxisGap(q.z, r.minZ, r.maxZ)
  }

  lemma SqMonotone(a: real, b: real)
    requires 0.0 <= a <= b
    ensures Sq(a) <= Sq(b)
  {
    assert Sq(b) - Sq(a) == (b - a) * (b + a);
  }

  lemma SqStrict(a: real, b: real)
    requires 0.0 <= a < b
    ensures Sq(a) < Sq(b)
  {
    var d, e := b - a, b + a;
    SquareDifference(a, b, d, e);
    Positive(d, e);
  }

  lemma RootOrder(a: real, b: real)
    requires 0.0 <= a && 0.0 <= b && Sq(a) <= Sq(b)
    ensures a <= b
  {
    if a > b {
      SqStrict(b, a);
    }
  }

  lemma SquareDifference(a: real, b: real, d: real, e: real)
    requires d == b - a && e == b + a
    ensures Sq(b) - Sq(a) == d * e
  {
    assert d * e == (b - a) * (b + a);
  }

  lemma Positive(a: real, b: real)
    requires a > 0.0 && b > 0.0
    ensures a * b > 0.0
  {
  }

  lemma SqNeg(a: real)
    ensures Sq(a) == Sq(-a) && Sq(a) >= 0.0
  {
  }

  lemma AxisGapBelow(v: real, lo: real, hi: real, c: real)
    requires lo <= c <= hi
    ensures AxisGap(v, lo, hi) <= Sq(v - c)
  {
    SqNeg(v - c);
    if v < lo {
      SqNeg(v - lo);
      SqMonotone(lo - v, c - v);
    } else if v > hi {
      SqMonotone(v - hi, v - c);
    }
  }

  /** The pruning fact behind every search: no point of a range is nearer than the range. */
  lemma BoxDistBelow(r: Box, q: Point, p: Point)
    requires InRange(r, p)
    ensures BoxDist(r, q) <= Dist(q, p)
  {
    AxisGapBelow(q.x, r.minX, r.maxX, p.x);
    AxisGapBelow(q.y, r.minY, r.maxY, p.y);
    AxisGapBelow(q.z, r.minZ, r.maxZ, p.z);
  }
}

/** Sub-multisets chosen by a predicate. */
module Multisets {
  import opened Geometry

  ghost function Filter<T(!new)>(m: multiset<T>, keep: T -> bool): (r: multiset<T>)
    ensures forall x :: r[x] == if keep(x) then m[x] else 0
    decreases |m|
  {
    if m == multiset{} then multiset{}
    else
      var x :| x in m;
      var rest := Filter(m - multiset{x}, keep);
      if keep(x) then rest + multiset{x} else rest
  }

  /** The points of `m` inside the half-open box. */
  ghost function Inside(m: multiset<Point>, b: Box): (r: multiset<Point>)
    ensures forall p :: r[p] == if InBox(b, p) then m[p] else 0
  {
    Filter(m, p => InBox(b, p))
  }

  /** The points of `m` outside the half-open box. */
  ghost function Outside(m: multiset<Point>, b: Box): (r: multiset<Point>)
    ensures forall p :: r[p] == if InBox(b, p) then 0 else m[p]
  {
    Filter(m, p => !InBox(b, p))
  }

  /** Adding three equations between multisets. */
  lemma Sum3<T>(a: multiset<T>, b: multiset<T>, c: multiset<T>,
                a1: multiset<T>, b1: multiset<T>, c1: multiset<T>,
                a2: multiset<T>, b2: multiset<T>, c2: multiset<T>)
    requires a == a1 + a2 && b == b1 + b2 && c == c1 + c2
    ensures a + b + c == (a1 + b1 + c1) + (a2 + b2 + c2)
  {
  }

  lemma InsideOutside(m: multiset<Point>, b: Box)
    ensures Inside(m, b) + Outside(m, b) == m
    ensures |Inside(m, b)| + |Outside(m, b)| == |m|
  {
    assert Inside(m, b) + Outside(m, b) == m;
  }

  lemma SplitSum(x: multiset<Point>, y: multiset<Point>, z: multiset<Point>, b: Box)
    ensures Inside(x + y + z, b) == Inside(x, b) + Inside(y, b) + Inside(z, b)
    ensures Outside(x + y + z, b) == Outside(x, b) + Outside(y, b) + Outside(z, b)
  {
    hide *;
    InsideSum(x, y, z, b);
    OutsideSum(x, y, z, b);
  }

  lemma InsideSum(x: multiset<Point>, y: multiset<Point>, z: multiset<Point>, b: Box)
    ensures Inside(x + y + z, b) == Inside(x, b) + Inside(y, b) + Inside(z, b)
  {
    hide *;
  }

  lemma OutsideSum(x: multiset<Point>, y: multiset<Point>, z: multiset<Point>, b: Box)
    ensures Outside(x + y + z, b) == Outside(x, b) + Outside(y, b) + Outside(z, b)
  {
    hide *;
  }

  /** A part `x` of a sum replaced by `y`, with `out` taken out on the way. */
  lemma Replace<T>(o: multiset<T>, x: multiset<T>, y: multiset<T>, rest: multiset<T>,
                   out: multiset<T>, whole: multiset<T>)
    requires whole == o + y + rest
    ensures out + y == x ==> out + whole == o + x + rest
    ensures y == x + out ==> whole == o + x + rest + out
    ensures y <= x ==> whole <= o + x + rest
  {
  }

  /** `w` is the sum of the three, the last two in either order. */
  ghost predicate IsSum<T>(w: multiset<T>, o: multiset<T>, a: multiset<T>, b: multiset<T>) {
    w == o + a + b || w == o + b + a
  }

  lemma Shuffle<T>(w: multiset<T>, o: multiset<T>, a: multiset<T>, b: multiset<T>)
    ensures IsSum(w, o, a, b) ==> w == o + a + b
  {
  }

  lemma NoneInside(m: multiset<Point>, b: Box)
    requires forall p :: p in m ==> !InBox(b, p)
    ensures Inside(m, b) == multiset{} && Outside(m, b) == m
  {
  }

  lemma AllInside(m: multiset<Point>, b: Box)
    requires forall p :: p in m ==> InBox(b, p)
    ensures Inside(m, b) == m && Outside(m, b) == multiset{}
  {
  }

  /** The points of `m` within `radius` of `q`, compared on squares. */
  ghost function Ball(m: multiset<Point>, q: Point, radius: real): (r: multiset<Point>)
    ensures forall p :: r[p] == if Dist(p, q) <= radius * radius then m[p] else 0
  {
    Filter(m, p => Dist(p, q) <= radius * radius)
  }

  lemma BallSum(x: multiset<Point>, y: multiset<Point>, z: multiset<Point>, q: Point, radius: real)
    ensures Ball(x + y + z, q, radius) == Ball(x, q, radius) + Ball(y, q, radius) + Ball(z, q, radius)
  {
    hide Dist;
  }

  lemma AllInBall(m: multiset<Point>, q: Point, radius: real)
    requires forall p :: p in m ==> Dist(p, q) <= radius * radius
    ensures Ball(m, q, radius) == m
  {
    hide Dist;
  }

  lemma NoneInBall(m: multiset<Point>, q: Point, radius: real)
    requires forall p :: p in m ==> Dist(p, q) > radius * radius
    ensures Ball(m, q, radius) == multiset{}
  {
    hide Dist;
  }
}
