/** The rigid-transform algebra written out by hand in `transform_fusion.py` and `cloud_to_base_link.py`. */
module Transforms {
  import opened Matrices
  import opened Geometry

  /** `_quat_to_mat`, and `quat_to_mat` of the other script. */
  function QuatToMat(q: Quat, t: Vec): Mat {
    var n := q.x * q.x + q.y * q.y + q.z * q.z + q.w * q.w;
    QuatRows(q, if n > 0.0 then 2.0 / n else 0.0, t)
  }

  function QuatRows(q: Quat, s: real, t: Vec): Mat {
    var xx, yy, zz := q.x * q.x * s, q.y * q.y * s, q.z * q.z * s;
    var xy, xz, yz := q.x * q.y * s, q.x * q.z * s, q.y * q.z * s;
    var wx, wy, wz := q.w * q.x * s, q.w * q.y * s, q.w * q.z * s;
    Mat(Row(1.0 - (yy + zz), xy - wz, xz + wy, t.x),
        Row(xy + wz, 1.0 - (xx + zz), yz - wx, t.y),
        Row(xz - wy, yz + wx, 1.0 - (xx + yy), t.z),
        Row(0.0, 0.0, 0.0, 1.0))
  }

  /** First position of the greatest of three, as `np.argmax` finds it. */
  function ArgMax(a: real, b: real, c: real): (i: nat)
    ensures i < 3
  {
    if a >= b && a >= c then 0 else if b >= c then 1 else 2
  }

  /** `_mat_to_quat`. */
  function MatToQuat(sqrt: real -> real, m: Mat): Quat {
    var t := m.p.a + m.q.b + m.r.c;
    if t > 0.0 then
      var s := sqrt(t + 1.0) * 2.0;
      Quat(Over(m.r.b - m.q.c, s), Over(m.p.c - m.r.a, s), Over(m.q.a - m.p.b, s), 0.25 * s)
    else
      var i := ArgMax(m.p.a, m.q.b, m.r.c);
      if i == 0 then
        var s := sqrt(1.0 + m.p.a - m.q.b - m.r.c) * 2.0;
        Quat(0.25 * s, Over(m.p.b + m.q.a, s), Over(m.p.c + m.r.a, s), Over(m.r.b - m.q.c, s))
      else if i == 1 then
        var s := sqrt(1.0 + m.q.b - m.p.a - m.r.c) * 2.0;
        Quat(Over(m.p.b + m.q.a, s), 0.25 * s, Over(m.q.c + m.r.b, s), Over(m.p.c - m.r.a, s))
      else
        var s := sqrt(1.0 + m.r.c - m.p.a - m.q.b) * 2.0;
        Quat(Over(m.p.c + m.r.a, s), Over(m.q.c + m.r.b, s), 0.25 * s, Over(m.q.a - m.p.b, s))
  }

  /** A quotient; what it is when the divisor is zero plays no part. */
  function Over(a: real, s: real): real { if s == 0.0 then 0.0 else a / s }

  /** `_inv_mat`. */
  function InvMat(m: Mat): Mat {
    Mat(Row(m.p.a, m.q.a, m.r.a, -(m.p.a * m.p.d + m.q.a * m.q.d + m.r.a * m.r.d)),
        Row(m.p.b, m.q.b, m.r.b, -(m.p.b * m.p.d + m.q.b * m.q.d + m.r.b * m.r.d)),
        Row(m.p.c, m.q.c, m.r.c, -(m.p.c * m.p.d + m.q.c * m.q.d + m.r.c * m.r.d)),
        Row(0.0, 0.0, 0.0, 1.0))
  }

  function Translation(m: Mat): Vec { Vec(m.p.d, m.q.d, m.r.d) }

  // ---- Rotations ----

  function Shift(t: Vec): Mat {
    Mat(Row(1.0, 0.0, 0.0, t.x), Row(0.0, 1.0, 0.0, t.y), Row(0.0, 0.0, 1.0, t.z), Row(0.0, 0.0, 0.0, 1.0))
  }

  function Reciprocal(v: real): real
    requires v > 0.0
  {
    1.0 / v
  }

  /** The rotation by a non-zero quaternion. */
  function Rot(q: Quat): Mat
    requires NormSq(q) > 0.0
  {
    MatMul(Diag(Reciprocal(NormSq(q))), Turn(q))
  }

  function Scaled(k: real, u: Row): Row { Row(k * u.a, k * u.b, k * u.c, k * u.d) }

  lemma DiagRow(k: real, m: Mat)
    ensures var d := MatMul(Diag(k), m);
      d.p == Scaled(k, m.p) && d.q == Scaled(k, m.q) && d.r == Scaled(k, m.r) && d.s == Scaled(k, m.s)
  {
  }

  lemma OneMinus(n: real, s: real, a: real, b: real, rest: real, e: real)
    requires n > 0.0 && n == a + b + rest && s == 2.0 / n && e == rest - a - b
    ensures 1.0 - (a * s + b * s) == Times(Reciprocal(n), e)
  {
    var k := Reciprocal(n);
    assert k * n == 1.0 && s == 2.0 * k;
    assert k * (a + b + rest) == k * a + k * b + k * rest;
  }

  function Times(k: real, v: real): real { k * v }

  lemma TwiceSum(n: real, s: real, a: real, b: real, e: real)
    requires n > 0.0 && s == 2.0 / n && e == 2.0 * (a + b)
    ensures a * s + b * s == Times(Reciprocal(n), e)
  {
    assert s == 2.0 * Reciprocal(n);
  }

  lemma TwiceDifference(n: real, s: real, a: real, b: real, e: real)
    requires n > 0.0 && s == 2.0 / n && e == 2.0 * (a - b)
    ensures a * s - b * s == Times(Reciprocal(n), e)
  {
    assert s == 2.0 * Reciprocal(n);
  }

  /** What `_quat_to_mat` computes: a rotation, then a shift. */
  lemma QuatToMatIs(q: Quat, t: Vec)
    requires NormSq(q) > 0.0
    ensures QuatToMat(q, t) == MatMul(Shift(t), Rot(q))
    ensures Rot(q) == QuatToMat(q, Vec(0.0, 0.0, 0.0))
  {
    hide *;
    RotEntries(q);
    MovedColumn(q, t);
    ShiftOf(Rot(q), t);
  }

  /** The translation only fills the last column. */
  lemma MovedColumn(q: Quat, t: Vec)
    requires NormSq(q) > 0.0
    ensures var m := QuatToMat(q, Vec(0.0, 0.0, 0.0));
      && m.p.d == 0.0 && m.q.d == 0.0 && m.r.d == 0.0 && m.s == Row(0.0, 0.0, 0.0, 1.0)
      && QuatToMat(q, t) == Mat(m.p.(d := t.x), m.q.(d := t.y), m.r.(d := t.z), m.s)
  {
    hide *;
    var o := Vec(0.0, 0.0, 0.0);
    QuatRowP(q, t);
    QuatRowP(q, o);
    QuatRowQ(q, t);
    QuatRowQ(q, o);
    QuatRowR(q, t);
    QuatRowR(q, o);
    BottomRow(q, t);
    BottomRow(q, o);
  }

  lemma ShiftOf(m: Mat, t: Vec)
    requires m.p.d == 0.0 && m.q.d == 0.0 && m.r.d == 0.0 && m.s == Row(0.0, 0.0, 0.0, 1.0)
    ensures MatMul(Shift(t), m) == Mat(m.p.(d := t.x), m.q.(d := t.y), m.r.(d := t.z), m.s)
  {
  }

  lemma RotEntries(q: Quat)
    requires NormSq(q) > 0.0
    ensures Rot(q) == QuatToMat(q, Vec(0.0, 0.0, 0.0))
  {
    hide *;
    RotRowP(q);
    RotRowQ(q);
    RotRowR(q);
    RotRowS(q);
  }

  lemma NormIs(q: Quat)
    ensures NormSq(q) == q.x * q.x + q.y * q.y + q.z * q.z + q.w * q.w
  {
  }

  lemma ScaledRow(k: real, u: Row)
    ensures Scaled(k, u) == Row(Times(k, u.a), Times(k, u.b), Times(k, u.c), Times(k, u.d)) && Times(k, 0.0) == 0.0
  {
  }

  lemma QuatScale(q: Quat, t: Vec)
    requires NormSq(q) > 0.0
    ensures QuatToMat(q, t) == QuatRows(q, 2.0 / NormSq(q), t)
  {
    hide QuatRows;
  }

  lemma RowP(q: Quat, s: real, t: Vec)
    ensures QuatRows(q, s, t).p == Row(1.0 - (q.y * q.y * s + q.z * q.z * s), q.x * q.y * s - q.w * q.z * s, q.x * q.z * s + q.w * q.y * s, t.x)
  {
  }

  lemma QuatRowP(q: Quat, t: Vec)
    requires NormSq(q) > 0.0
    ensures var m, s := QuatToMat(q, t), 2.0 / NormSq(q);
      m.p == Row(1.0 - (q.y * q.y * s + q.z * q.z * s), q.x * q.y * s - q.w * q.z * s, q.x * q.z * s + q.w * q.y * s, t.x)
  {
    hide *;
    QuatScale(q, t);
    RowP(q, 2.0 / NormSq(q), t);
  }

  lemma RowQ(q: Quat, s: real, t: Vec)
    ensures QuatRows(q, s, t).q == Row(q.x * q.y * s + q.w * q.z * s, 1.0 - (q.x * q.x * s + q.z * q.z * s), q.y * q.z * s - q.w * q.x * s, t.y)
  {
  }

  lemma QuatRowQ(q: Quat, t: Vec)
    requires NormSq(q) > 0.0
    ensures var m, s := QuatToMat(q, t), 2.0 / NormSq(q);
      m.q == Row(q.x * q.y * s + q.w * q.z * s, 1.0 - (q.x * q.x * s + q.z * q.z * s), q.y * q.z * s - q.w * q.x * s, t.y)
  {
    hide *;
    QuatScale(q, t);
    RowQ(q, 2.0 / NormSq(q), t);
  }

  lemma RowR(q: Quat, s: real, t: Vec)
    ensures QuatRows(q, s, t).r == Row(q.x * q.z * s - q.w * q.y * s, q.y * q.z * s + q.w * q.x * s, 1.0 - (q.x * q.x * s + q.y * q.y * s), t.z)
  {
  }

  lemma QuatRowR(q: Quat, t: Vec)
    requires NormSq(q) > 0.0
    ensures var m, s := QuatToMat(q, t), 2.0 / NormSq(q);
      m.r == Row(q.x * q.z * s - q.w * q.y * s, q.y * q.z * s + q.w * q.x * s, 1.0 - (q.x * q.x * s + q.y * q.y * s), t.z)
  {
    hide *;
    QuatScale(q, t);
    RowR(q, 2.0 / NormSq(q), t);
  }

  lemma RotRowP(q: Quat)
    requires NormSq(q) > 0.0
    ensures Rot(q).p == QuatToMat(q, Vec(0.0, 0.0, 0.0)).p
  {
    hide *;
    var n, s, u := NormSq(q), 2.0 / NormSq(q), Turn(q).p;
    RotIs(q);
    DiagRow(Reciprocal(n), Turn(q));
    TurnEntries(q);
    QuatRowP(q, Vec(0.0, 0.0, 0.0));
    NormIs(q);
    ScaledRow(Reciprocal(n), u);
    OneMinus(n, s, q.y * q.y, q.z * q.z, q.w * q.w + q.x * q.x, u.a);
    TwiceDifference(n, s, q.x * q.y, q.w * q.z, u.b);
    TwiceSum(n, s, q.x * q.z, q.w * q.y, u.c);
  }

  lemma RotRowQ(q: Quat)
    requires NormSq(q) > 0.0
    ensures Rot(q).q == QuatToMat(q, Vec(0.0, 0.0, 0.0)).q
  {
    hide *;
    var n, s, u := NormSq(q), 2.0 / NormSq(q), Turn(q).q;
    RotIs(q);
    DiagRow(Reciprocal(n), Turn(q));
    TurnEntries(q);
    QuatRowQ(q, Vec(0.0, 0.0, 0.0));
    NormIs(q);
    ScaledRow(Reciprocal(n), u);
    TwiceSum(n, s, q.x * q.y, q.w * q.z, u.a);
    OneMinus(n, s, q.x * q.x, q.z * q.z, q.w * q.w + q.y * q.y, u.b);
    TwiceDifference(n, s, q.y * q.z, q.w * q.x, u.c);
  }

  lemma RotRowR(q: Quat)
    requires NormSq(q) > 0.0
    ensures Rot(q).r == QuatToMat(q, Vec(0.0, 0.0, 0.0)).r
  {
    hide *;
    var n, s, u := NormSq(q), 2.0 / NormSq(q), Turn(q).r;
    RotIs(q);
    DiagRow(Reciprocal(n), Turn(q));
    TurnEntries(q);
    QuatRowR(q, Vec(0.0, 0.0, 0.0));
    NormIs(q);
    ScaledRow(Reciprocal(n), u);
    TwiceDifference(n, s, q.x * q.z, q.w * q.y, u.a);
    TwiceSum(n, s, q.y * q.z, q.w * q.x, u.b);
    OneMinus(n, s, q.x * q.x, q.y * q.y, q.w * q.w + q.z * q.z, u.c);
  }

  lemma RotRowS(q: Quat)
    requires NormSq(q) > 0.0
    ensures Rot(q).s == QuatToMat(q, Vec(0.0, 0.0, 0.0)).s
  {
    var n := NormSq(q);
    TurnEntries(q);
    DiagRow(Reciprocal(n), Turn(q));
    assert 1.0 / n * n == 1.0;
    hide Turn, MatMul, Diag, NormSq;
  }

  lemma RotIs(q: Quat)
    requires NormSq(q) > 0.0
    ensures Rot(q) == MatMul(Diag(Reciprocal(NormSq(q))), Turn(q))
  {
  }

  lemma RotMul(p: Quat, q: Quat)
    requires NormSq(p) > 0.0 && NormSq(q) > 0.0
    ensures NormSq(Mul(p, q)) > 0.0 && MatMul(Rot(p), Rot(q)) == Rot(Mul(p, q))
  {
    hide *;
    NormMul(p, q);
    Reciprocals(NormSq(p), NormSq(q), NormSq(Mul(p, q)));
    RotIs(p);
    RotIs(q);
    RotIs(Mul(p, q));
    Scales(Reciprocal(NormSq(p)), Reciprocal(NormSq(q)), Reciprocal(NormSq(Mul(p, q))), Turn(p), Turn(q));
    TurnMul(p, q);
  }

  lemma Reciprocals(m: real, n: real, l: real)
    requires m > 0.0 && n > 0.0 && l == m * n
    ensures l > 0.0 && Reciprocal(l) == Reciprocal(m) * Reciprocal(n)
  {
    var x, y, z := Reciprocal(m), Reciprocal(n), 1.0 / l;
    assert x * m == 1.0 && y * n == 1.0 && z * l == 1.0;
    assert x * y * l == x * m * (y * n);
    SameTimes(x * y, z, l);
  }

  /** A quaternion with no vector part turns nothing. */
  lemma NoTurn(w: real)
    requires w != 0.0
    ensures NormSq(Quat(0.0, 0.0, 0.0, w)) > 0.0 && Rot(Quat(0.0, 0.0, 0.0, w)) == EYE
  {
    RealNorm(w);
    QuatToMatIs(Quat(0.0, 0.0, 0.0, w), Vec(0.0, 0.0, 0.0));
    hide Rot;
  }

  lemma RealNorm(w: real)
    requires w != 0.0
    ensures NormSq(Quat(0.0, 0.0, 0.0, w)) > 0.0
  {
    SqZero(w);
  }

  lemma ConjNorm(q: Quat)
    ensures NormSq(Conj(q)) == NormSq(q)
    ensures Mul(q, Conj(q)) == Quat(0.0, 0.0, 0.0, NormSq(q)) && Mul(Conj(q), q) == Quat(0.0, 0.0, 0.0, NormSq(q))
  {
  }

  /** The rotation by the conjugate undoes the rotation. */
  lemma RotInverse(q: Quat)
    requires NormSq(q) > 0.0
    ensures NormSq(Conj(q)) > 0.0
    ensures MatMul(Rot(q), Rot(Conj(q))) == EYE && MatMul(Rot(Conj(q)), Rot(q)) == EYE
  {
    hide *;
    ConjNorm(q);
    NoTurn(NormSq(q));
    RotMul(q, Conj(q));
    RotMul(Conj(q), q);
  }

  lemma RotShape(q: Quat)
    requires NormSq(q) > 0.0
    ensures var m := Rot(q); m.p.d == 0.0 && m.q.d == 0.0 && m.r.d == 0.0 && m.s == Row(0.0, 0.0, 0.0, 1.0)
  {
    QuatToMatIs(q, Vec(0.0, 0.0, 0.0));
    hide Rot;
  }

  // ---- Poses: what `_quat_to_mat` can give, for any quaternion at all ----

  ghost predicate PoseOf(m: Mat, q: Quat, t: Vec) { NormSq(q) > 0.0 && m == MatMul(Shift(t), Rot(q)) }

  ghost predicate IsPose(m: Mat) { exists q: Quat, t: Vec :: PoseOf(m, q, t) }

  lemma SqZero(v: real)
    ensures Sq(v) >= 0.0 && (Sq(v) == 0.0 ==> v == 0.0)
  {
    if Sq(v) == 0.0 {
      if v >= 0.0 { RootOrder(v, 0.0); } else { RootOrder(-v, 0.0); }
    }
  }

  lemma NormZero(q: Quat)
    ensures NormSq(q) >= 0.0 && (NormSq(q) == 0.0 ==> q == Quat(0.0, 0.0, 0.0, 0.0))
  {
    SqZero(q.x);
    SqZero(q.y);
    SqZero(q.z);
    SqZero(q.w);
    SumZero(Sq(q.x), Sq(q.y), Sq(q.z), Sq(q.w));
    NormSquares(q);
    hide NormSq, Sq;
  }

  lemma NormSquares(q: Quat)
    ensures NormSq(q) == Sq(q.x) + Sq(q.y) + Sq(q.z) + Sq(q.w)
  {
  }

  lemma SumZero(a: real, b: real, c: real, d: real)
    requires a >= 0.0 && b >= 0.0 && c >= 0.0 && d >= 0.0
    ensures a + b + c + d >= 0.0 && (a + b + c + d == 0.0 ==> a == 0.0 && b == 0.0 && c == 0.0 && d == 0.0)
  {
  }

  lemma ZeroQuat(t: Vec)
    ensures QuatToMat(Quat(0.0, 0.0, 0.0, 0.0), t) == Shift(t)
  {
  }

  /** Even the zero quaternion gives a pose: no rotation. */
  lemma QuatToMatPose(q: Quat, t: Vec)
    ensures IsPose(QuatToMat(q, t)) && Translation(QuatToMat(q, t)) == t
  {
    NormZero(q);
    hide NormSq, QuatToMat, MatMul, Rot, Shift;
    KeepsShift(q, t);
    if NormSq(q) > 0.0 {
      QuatToMatIs(q, t);
      assert PoseOf(QuatToMat(q, t), q, t);
    } else {
      NoTurn(1.0);
      EyeIsNeutral(Shift(t));
      ZeroQuat(t);
      assert PoseOf(QuatToMat(q, t), Quat(0.0, 0.0, 0.0, 1.0), t);
    }
  }

  lemma KeepsShift(q: Quat, t: Vec)
    ensures Translation(QuatToMat(q, t)) == t
  {
  }

  function Apply(m: Mat, v: Vec): Vec {
    Vec(m.p.a * v.x + m.p.b * v.y + m.p.c * v.z + m.p.d, m.q.a * v.x + m.q.b * v.y + m.q.c * v.z + m.q.d,
        m.r.a * v.x + m.r.b * v.y + m.r.c * v.z + m.r.d)
  }

  function Plus(u: Vec, v: Vec): Vec { Vec(u.x + v.x, u.y + v.y, u.z + v.z) }

  function Minus(v: Vec): Vec { Vec(-v.x, -v.y, -v.z) }

  // ---- What a quaternion and a translation do to a point ----

  /** Where a quaternion turns a vector: q v q* over |q|^2, and the zero quaternion leaves it. */
  function Turned(q: Quat, v: Vec): Vec {
    var r, n := Mul(q, Mul(Quat(v.x, v.y, v.z, 0.0), Conj(q))), NormSq(q);
    if n > 0.0 then Vec(r.x / n, r.y / n, r.z / n) else v
  }

  lemma ScaledDot(n: real, u: Row, v: Vec)
    requires n > 0.0 && u.d == 0.0
    ensures var r := Scaled(Reciprocal(n), u);
      r.a * v.x + r.b * v.y + r.c * v.z + r.d == Dot(u, v.x, v.y, v.z, 0.0) / n
  {
    var d := u.a * v.x + u.b * v.y + u.c * v.z;
    ScaledSum(Reciprocal(n), u.a, v.x, u.b, v.y, u.c, v.z);
    DotThree(u, v);
    ByReciprocal(d, n);
    ScaledRow(Reciprocal(n), u);
    hide Reciprocal, Dot, Scaled;
  }

  lemma ScaledSum(k: real, a: real, x: real, b: real, y: real, c: real, z: real)
    ensures Times(k, a) * x + Times(k, b) * y + Times(k, c) * z == Times(k, a * x + b * y + c * z)
  {
    TimesOut(k, a, x);
    TimesOut(k, b, y);
    TimesOut(k, c, z);
    TimesSum(k, a * x, b * y, c * z);
    hide Times;
  }

  lemma TimesOut(k: real, a: real, x: real)
    ensures Times(k, a) * x == Times(k, a * x)
  {
  }

  lemma TimesSum(k: real, p: real, q: real, r: real)
    ensures Times(k, p) + Times(k, q) + Times(k, r) == Times(k, p + q + r)
  {
  }

  lemma DotThree(u: Row, v: Vec)
    requires u.d == 0.0
    ensures Dot(u, v.x, v.y, v.z, 0.0) == u.a * v.x + u.b * v.y + u.c * v.z
  {
  }

  lemma ByReciprocal(d: real, n: real)
    requires n > 0.0
    ensures Times(Reciprocal(n), d) == d / n
  {
    var k := 1.0 / n;
    assert k * n == 1.0;
    assert k * d * n == d;
  }

  lemma TurnedIs(q: Quat, v: Vec)
    requires NormSq(q) > 0.0
    ensures var r := Col(Turn(q), Quat(v.x, v.y, v.z, 0.0));
      Turned(q, v) == Vec(r.x / NormSq(q), r.y / NormSq(q), r.z / NormSq(q))
  {
    TurnIsSandwich(q, Quat(v.x, v.y, v.z, 0.0));
    hide Col, Turn, Mul, Conj, NormSq;
  }

  lemma ColIs(m: Mat, v: Vec)
    ensures var r := Col(m, Quat(v.x, v.y, v.z, 0.0));
      && r.x == Dot(m.p, v.x, v.y, v.z, 0.0) && r.y == Dot(m.q, v.x, v.y, v.z, 0.0)
      && r.z == Dot(m.r, v.x, v.y, v.z, 0.0)
  {
  }

  lemma ApplyIs(m: Mat, v: Vec)
    ensures Apply(m, v).x == m.p.a * v.x + m.p.b * v.y + m.p.c * v.z + m.p.d
    ensures Apply(m, v).y == m.q.a * v.x + m.q.b * v.y + m.q.c * v.z + m.q.d
    ensures Apply(m, v).z == m.r.a * v.x + m.r.b * v.y + m.r.c * v.z + m.r.d
  {
  }

  /** The rotation matrix of a quaternion turns as the quaternion does. */
  lemma RotTurns(q: Quat, v: Vec)
    requires NormSq(q) > 0.0
    ensures Apply(Rot(q), v) == Turned(q, v)
  {
    hide *;
    var n, t := NormSq(q), Turn(q);
    RotIs(q);
    DiagRow(Reciprocal(n), t);
    TurnEntries(q);
    ScaledDot(n, t.p, v);
    ScaledDot(n, t.q, v);
    ScaledDot(n, t.r, v);
    TurnedIs(q, v);
    ColIs(t, v);
    ApplyIs(Rot(q), v);
  }

  lemma AddsColumn(m: Mat, t: Vec, v: Vec)
    requires m.p.d == 0.0 && m.q.d == 0.0 && m.r.d == 0.0
    ensures Apply(Mat(m.p.(d := t.x), m.q.(d := t.y), m.r.(d := t.z), m.s), v) == Plus(Apply(m, v), t)
  {
    hide Apply;
    ApplyIs(m, v);
    ApplyIs(Mat(m.p.(d := t.x), m.q.(d := t.y), m.r.(d := t.z), m.s), v);
  }

  lemma ShiftsBy(t: Vec, v: Vec)
    ensures Apply(Shift(t), v) == Plus(v, t)
  {
  }

  lemma ZeroTurns(v: Vec)
    ensures Turned(Quat(0.0, 0.0, 0.0, 0.0), v) == v
  {
    hide Mul, Conj;
    assert NormSq(Quat(0.0, 0.0, 0.0, 0.0)) == 0.0;
  }

  /** `_quat_to_mat` is the turn by the quaternion, then the translation, whatever the quaternion. */
  lemma QuatToMatActs(q: Quat, t: Vec, v: Vec)
    ensures Apply(QuatToMat(q, t), v) == Plus(Turned(q, v), t)
  {
    hide *;
    NormZero(q);
    if NormSq(q) > 0.0 {
      RotEntries(q);
      MovedColumn(q, t);
      RotTurns(q, v);
      AddsColumn(Rot(q), t, v);
    } else {
      ZeroQuat(t);
      ShiftsBy(t, v);
      ZeroTurns(v);
    }
  }

  lemma ShiftMul(u: Vec, v: Vec)
    ensures MatMul(Shift(u), Shift(v)) == Shift(Plus(u, v))
  {
  }

  lemma ShiftThrough(m: Mat, t: Vec)
    requires m.p.d == 0.0 && m.q.d == 0.0 && m.r.d == 0.0 && m.s == Row(0.0, 0.0, 0.0, 1.0)
    ensures MatMul(m, Shift(t)) == MatMul(Shift(Apply(m, t)), m)
  {
    var u := Apply(m, t);
    ShiftOf(m, u);
    TurnedShift(m, t);
    hide MatMul, Shift;
  }

  lemma TurnedShift(m: Mat, t: Vec)
    requires m.s == Row(0.0, 0.0, 0.0, 1.0)
    ensures MatMul(m, Shift(t))
         == Mat(m.p.(d := Apply(m, t).x), m.q.(d := Apply(m, t).y), m.r.(d := Apply(m, t).z), m.s)
  {
  }

  /** Poses compose to poses. */
  lemma PoseMul(m: Mat, n: Mat)
    requires IsPose(m) && IsPose(n)
    ensures IsPose(MatMul(m, n))
  {
    hide MatMul, Shift, Rot, Mul, NormSq, Apply, Plus;
    var p: Quat, u: Vec :| PoseOf(m, p, u);
    var q: Quat, v: Vec :| PoseOf(n, q, v);
    var w := Apply(Rot(p), v);
    Associates(Shift(u), Rot(p), n);
    Associates(Rot(p), Shift(v), Rot(q));
    RotShape(p);
    ShiftThrough(Rot(p), v);
    Associates(Shift(w), Rot(p), Rot(q));
    RotMul(p, q);
    Associates(Shift(u), Shift(w), Rot(Mul(p, q)));
    ShiftMul(u, w);
    assert PoseOf(MatMul(m, n), Mul(p, q), Plus(u, w));
  }

  /** `_inv_mat` of a pose, as a product. */
  lemma InvMatIs(q: Quat, t: Vec)
    requires NormSq(q) > 0.0 && NormSq(Conj(q)) > 0.0
    ensures InvMat(MatMul(Shift(t), Rot(q))) == MatMul(Rot(Conj(q)), Shift(Minus(t)))
  {
    hide NormSq, Rot, MatMul, Shift, QuatToMat, InvMat, Apply;
    QuatToMatIs(q, t);
    QuatToMatIs(Conj(q), t);
    var n := Rot(Conj(q));
    Transposed(q, t);
    TurnedShift(n, Minus(t));
    Untranslated(QuatToMat(q, t), n, t);
  }

  lemma Transposed(q: Quat, t: Vec)
    requires NormSq(q) > 0.0 && NormSq(Conj(q)) > 0.0
    ensures var m, n := QuatToMat(q, t), QuatToMat(Conj(q), Vec(0.0, 0.0, 0.0));
      && n.p == Row(m.p.a, m.q.a, m.r.a, 0.0) && n.q == Row(m.p.b, m.q.b, m.r.b, 0.0)
      && n.r == Row(m.p.c, m.q.c, m.r.c, 0.0) && n.s == Row(0.0, 0.0, 0.0, 1.0) && Translation(m) == t
  {
    hide *;
    ConjNorm(q);
    ProductRows(q, t);
    ProductRows(Conj(q), Vec(0.0, 0.0, 0.0));
    ConjProducts(q, 2.0 / NormSq(q));
    BottomRow(q, t);
    BottomRow(Conj(q), Vec(0.0, 0.0, 0.0));
  }

  lemma BottomRow(q: Quat, t: Vec)
    ensures QuatToMat(q, t).s == Row(0.0, 0.0, 0.0, 1.0) && Translation(QuatToMat(q, t)) == t
  {
  }

  /** Products of two vector components keep their sign under conjugation, the others change it. */
  lemma ConjProducts(q: Quat, u: real)
    ensures var c := Conj(q);
      && Prod(c.x, c.x, u) == Prod(q.x, q.x, u) && Prod(c.y, c.y, u) == Prod(q.y, q.y, u) && Prod(c.z, c.z, u) == Prod(q.z, q.z, u)
      && Prod(c.x, c.y, u) == Prod(q.x, q.y, u) && Prod(c.x, c.z, u) == Prod(q.x, q.z, u) && Prod(c.y, c.z, u) == Prod(q.y, q.z, u)
      && Prod(c.w, c.x, u) == -Prod(q.w, q.x, u) && Prod(c.w, c.y, u) == -Prod(q.w, q.y, u) && Prod(c.w, c.z, u) == -Prod(q.w, q.z, u)
  {
  }

  lemma Untranslated(m: Mat, n: Mat, t: Vec)
    requires Translation(m) == t
    requires n.p == Row(m.p.a, m.q.a, m.r.a, 0.0) && n.q == Row(m.p.b, m.q.b, m.r.b, 0.0)
    requires n.r == Row(m.p.c, m.q.c, m.r.c, 0.0) && n.s == Row(0.0, 0.0, 0.0, 1.0)
    ensures var v := Apply(n, Minus(t)); InvMat(m) == Mat(n.p.(d := v.x), n.q.(d := v.y), n.r.(d := v.z), n.s)
  {
  }

  lemma ShiftBack(t: Vec)
    ensures MatMul(Shift(t), Shift(Minus(t))) == EYE && MatMul(Shift(Minus(t)), Shift(t)) == EYE
  {
  }

  /** `_inv_mat` is the inverse, on both sides, of every pose, and a pose itself. */
  lemma InvMatExact(m: Mat)
    requires IsPose(m)
    ensures MatMul(m, InvMat(m)) == EYE && MatMul(InvMat(m), m) == EYE && IsPose(InvMat(m))
  {
    var q: Quat, t: Vec :| PoseOf(m, q, t);
    RotInverse(q);
    hide MatMul, Shift, Rot, NormSq, Conj, InvMat, Minus, Apply;
    var r, r', s, s' := Rot(q), Rot(Conj(q)), Shift(t), Shift(Minus(t));
    InvMatIs(q, t);
    Cancel(s, r, r', s');
    Cancel(r', s', s, r);
    ShiftBack(t);
    EyeIsNeutral(s);
    EyeIsNeutral(s');
    EyeIsNeutral(r);
    EyeIsNeutral(r');
    RotShape(Conj(q));
    ShiftThrough(r', Minus(t));
    assert PoseOf(InvMat(m), Conj(q), Apply(r', Minus(t)));
  }

  lemma Cancel(a: Mat, b: Mat, c: Mat, d: Mat)
    ensures MatMul(MatMul(a, b), MatMul(c, d)) == MatMul(a, MatMul(MatMul(b, c), d))
  {
    hide MatMul;
    Associates(a, b, MatMul(c, d));
    Associates(b, c, d);
  }

  // ---- Back to a quaternion ----

  lemma RootIs(sqrt: real -> real, v: real, c: real)
    requires IsSqrt(sqrt) && c >= 0.0 && c * c == v
    ensures sqrt(v) == c
  {
    assert sqrt(v) >= 0.0 && Sq(sqrt(v)) == v;
    if sqrt(v) < c { SqStrict(sqrt(v), c); }
    if c < sqrt(v) { SqStrict(c, sqrt(v)); }
  }

  /** `q` divided by its length `k`, or the negative of that: the sign is that of the pivot. */
  function Normalised(q: Quat, k: real, pivot: real): Quat
    requires k > 0.0
  {
    var f := if pivot < 0.0 then -k else k;
    Quat(q.x / f, q.y / f, q.z / f, q.w / f)
  }

  /** The pivot's own component in the extracted quaternion. */
  lemma PivotSelf(sqrt: real -> real, p: real, n: real, k: real)
    requires IsSqrt(sqrt) && k > 0.0 && k * k == n && p != 0.0
    ensures var s := sqrt(4.0 * (p * p) / n) * 2.0;
      s != 0.0 && 0.25 * s == p / (if p < 0.0 then -k else k) && s * k == 4.0 * (if p < 0.0 then -p else p)
  {
    var a := if p < 0.0 then -p else p;
    var c := 2.0 * (a / k);
    assert a / k * k == a;
    assert (a / k * k) * (a / k * k) == (a / k) * (a / k) * n;
    assert n > 0.0;
    assert c * c * n == 4.0 * (p * p);
    assert a / k > 0.0;
    RootIs(sqrt, 4.0 * (p * p) / n, c);
  }

  /** Another component: `c` goes with the pivot in the entry `2pc/n`, doubled by its mirror. */
  lemma PivotOther(p: real, c: real, n: real, k: real, s: real)
    requires k > 0.0 && k * k == n && p != 0.0 && s != 0.0 && s * k == 4.0 * (if p < 0.0 then -p else p)
    ensures 2.0 * (p * c * (2.0 / n)) / s == c / (if p < 0.0 then -k else k)
  {
    var f := if p < 0.0 then -k else k;
    assert s * f == 4.0 * p;
    var e := 2.0 * (p * c * (2.0 / n));
    assert 2.0 / n * n == 2.0;
    assert e * n == 4.0 * (p * c);
    assert f * f == n;
    assert c / f * f == c;
    assert (c / f * s) * n == c / f * f * (s * f);
    assert c / f * s * n == e * n;
    SameTimes(c / f * s, e, n);
  }

  lemma SameTimes(a: real, b: real, n: real)
    requires n > 0.0 && a * n == b * n
    ensures a == b
  {
    assert (a - b) * n == 0.0;
  }

  /** A product of two components, scaled; named so that proofs can treat it as one quantity. */
  function Prod(a: real, b: real, u: real): real { a * b * u }

  lemma Swap(a: real, b: real, u: real)
    ensures Prod(a, b, u) == Prod(b, a, u)
  {
  }

  /** The quantities `_mat_to_quat` reads off a rotation. */
  ghost predicate ReadsOff(m: Mat, q: Quat, u: real) {
    && m.p.a + m.q.b + m.r.c + 1.0 == 2.0 * Prod(q.w, q.w, u)
    && 1.0 + m.p.a - m.q.b - m.r.c == 2.0 * Prod(q.x, q.x, u)
    && 1.0 + m.q.b - m.p.a - m.r.c == 2.0 * Prod(q.y, q.y, u)
    && 1.0 + m.r.c - m.p.a - m.q.b == 2.0 * Prod(q.z, q.z, u)
    && Prod(q.x, q.x, u) + Prod(q.y, q.y, u) + Prod(q.z, q.z, u) + Prod(q.w, q.w, u) == 2.0
    && m.r.b - m.q.c == 2.0 * Prod(q.w, q.x, u) && m.p.c - m.r.a == 2.0 * Prod(q.w, q.y, u)
    && m.q.a - m.p.b == 2.0 * Prod(q.w, q.z, u)
    && m.p.b + m.q.a == 2.0 * Prod(q.x, q.y, u) && m.p.c + m.r.a == 2.0 * Prod(q.x, q.z, u)
    && m.q.c + m.r.b == 2.0 * Prod(q.y, q.z, u)
  }

  lemma MatrixReads(q: Quat, t: Vec)
    requires NormSq(q) > 0.0
    ensures ReadsOff(QuatToMat(q, t), q, 2.0 / NormSq(q))
  {
    hide NormSq, QuatToMat, Prod;
    var m, u := QuatToMat(q, t), 2.0 / NormSq(q);
    ProductRows(q, t);
    Reads(m, Prod(q.x, q.x, u), Prod(q.y, q.y, u), Prod(q.z, q.z, u), Prod(q.w, q.w, u), Prod(q.x, q.y, u),
          Prod(q.x, q.z, u), Prod(q.y, q.z, u), Prod(q.w, q.x, u), Prod(q.w, q.y, u), Prod(q.w, q.z, u));
  }

  /** The matrix in terms of the named products. */
  lemma ProductRows(q: Quat, t: Vec)
    requires NormSq(q) > 0.0
    ensures var m, s := QuatToMat(q, t), 2.0 / NormSq(q);
      && m.p == Row(1.0 - (Prod(q.y, q.y, s) + Prod(q.z, q.z, s)), Prod(q.x, q.y, s) - Prod(q.w, q.z, s),
                    Prod(q.x, q.z, s) + Prod(q.w, q.y, s), t.x)
      && m.q == Row(Prod(q.x, q.y, s) + Prod(q.w, q.z, s), 1.0 - (Prod(q.x, q.x, s) + Prod(q.z, q.z, s)),
                    Prod(q.y, q.z, s) - Prod(q.w, q.x, s), t.y)
      && m.r == Row(Prod(q.x, q.z, s) - Prod(q.w, q.y, s), Prod(q.y, q.z, s) + Prod(q.w, q.x, s),
                    1.0 - (Prod(q.x, q.x, s) + Prod(q.y, q.y, s)), t.z)
      && Prod(q.x, q.x, s) + Prod(q.y, q.y, s) + Prod(q.z, q.z, s) + Prod(q.w, q.w, s) == 2.0
  {
    hide *;
    ProductRowP(q, t);
    ProductRowQ(q, t);
    ProductRowR(q, t);
    ProductSum(q);
  }

  lemma ProdIs(a: real, b: real, u: real)
    ensures Prod(a, b, u) == a * b * u
  {
  }

  lemma ProductRowP(q: Quat, t: Vec)
    requires NormSq(q) > 0.0
    ensures var m, s := QuatToMat(q, t), 2.0 / NormSq(q);
      m.p == Row(1.0 - (Prod(q.y, q.y, s) + Prod(q.z, q.z, s)), Prod(q.x, q.y, s) - Prod(q.w, q.z, s),
               Prod(q.x, q.z, s) + Prod(q.w, q.y, s), t.x)
  {
    hide *;
    var s := 2.0 / NormSq(q);
    QuatRowP(q, t);
    ProdIs(q.y, q.y, s); ProdIs(q.z, q.z, s);
    ProdIs(q.x, q.y, s); ProdIs(q.w, q.z, s);
    ProdIs(q.x, q.z, s); ProdIs(q.w, q.y, s);
  }

  lemma ProductRowQ(q: Quat, t: Vec)
    requires NormSq(q) > 0.0
    ensures var m, s := QuatToMat(q, t), 2.0 / NormSq(q);
      m.q == Row(Prod(q.x, q.y, s) + Prod(q.w, q.z, s), 1.0 - (Prod(q.x, q.x, s) + Prod(q.z, q.z, s)),
               Prod(q.y, q.z, s) - Prod(q.w, q.x, s), t.y)
  {
    hide *;
    var s := 2.0 / NormSq(q);
    QuatRowQ(q, t);
    ProdIs(q.x, q.y, s); ProdIs(q.w, q.z, s);
    ProdIs(q.x, q.x, s); ProdIs(q.z, q.z, s);
    ProdIs(q.y, q.z, s); ProdIs(q.w, q.x, s);
  }

  lemma ProductRowR(q: Quat, t: Vec)
    requires NormSq(q) > 0.0
    ensures var m, s := QuatToMat(q, t), 2.0 / NormSq(q);
      m.r == Row(Prod(q.x, q.z, s) - Prod(q.w, q.y, s), Prod(q.y, q.z, s) + Prod(q.w, q.x, s),
               1.0 - (Prod(q.x, q.x, s) + Prod(q.y, q.y, s)), t.z)
  {
    hide *;
    var s := 2.0 / NormSq(q);
    QuatRowR(q, t);
    ProdIs(q.x, q.z, s); ProdIs(q.w, q.y, s);
    ProdIs(q.y, q.z, s); ProdIs(q.w, q.x, s);
    ProdIs(q.x, q.x, s); ProdIs(q.y, q.y, s);
  }

  lemma ProductSum(q: Quat)
    requires NormSq(q) > 0.0
    ensures var s := 2.0 / NormSq(q);
      Prod(q.x, q.x, s) + Prod(q.y, q.y, s) + Prod(q.z, q.z, s) + Prod(q.w, q.w, s) == 2.0
  {
    NormIs(q);
    NormTimes(q, NormSq(q), 2.0 / NormSq(q));
  }

  lemma NormTimes(q: Quat, n: real, u: real)
    requires n > 0.0 && n == q.x * q.x + q.y * q.y + q.z * q.z + q.w * q.w && u == 2.0 / n
    ensures q.x * q.x * u + q.y * q.y * u + q.z * q.z * u + q.w * q.w * u == 2.0
  {
    assert n * u == 2.0;
    Distribute(q.x * q.x, q.y * q.y, q.z * q.z, q.w * q.w, u);
  }

  /** The same with every product named. */
  lemma Reads(m: Mat, xx: real, yy: real, zz: real, ww: real, xy: real, xz: real, yz: real, wx: real, wy: real, wz: real)
    requires m.p.a == 1.0 - (yy + zz) && m.p.b == xy - wz && m.p.c == xz + wy
    requires m.q.a == xy + wz && m.q.b == 1.0 - (xx + zz) && m.q.c == yz - wx
    requires m.r.a == xz - wy && m.r.b == yz + wx && m.r.c == 1.0 - (xx + yy)
    requires xx + yy + zz + ww == 2.0
    ensures m.p.a + m.q.b + m.r.c + 1.0 == 2.0 * ww && 1.0 + m.p.a - m.q.b - m.r.c == 2.0 * xx
    ensures 1.0 + m.q.b - m.p.a - m.r.c == 2.0 * yy && 1.0 + m.r.c - m.p.a - m.q.b == 2.0 * zz
    ensures m.r.b - m.q.c == 2.0 * wx && m.p.c - m.r.a == 2.0 * wy && m.q.a - m.p.b == 2.0 * wz
    ensures m.p.b + m.q.a == 2.0 * xy && m.p.c + m.r.a == 2.0 * xz && m.q.c + m.r.b == 2.0 * yz
  {
  }

  /** A component divided by the length, with the sign of the pivot. */
  function Share(a: real, p: real, k: real): real
    requires k > 0.0
  {
    a / (if p < 0.0 then -k else k)
  }

  /** A branch dividing by the pivot `p`: what becomes of it and of another component `a`. */
  ghost predicate Splits(sqrt: real -> real, p: real, a: real, u: real, k: real)
    requires k > 0.0
  {
    var s := sqrt(2.0 * Prod(p, p, u)) * 2.0;
    0.25 * s == Share(p, p, k) && Over(2.0 * Prod(p, a, u), s) == Share(a, p, k)
  }

  lemma Extracts(sqrt: real -> real, p: real, a: real, n: real, u: real, k: real)
    requires IsSqrt(sqrt) && k > 0.0 && k * k == n && n > 0.0 && u == 2.0 / n && p != 0.0
    ensures Splits(sqrt, p, a, u, k)
  {
    assert 2.0 * Prod(p, p, u) == 4.0 * (p * p) / n;
    PivotSelf(sqrt, p, n, k);
    PivotOther(p, a, n, k, sqrt(2.0 * Prod(p, p, u)) * 2.0);
  }

  /** Which component the branches divide by; never zero. */
  function Pivot(q: Quat, m: Mat): real {
    if m.p.a + m.q.b + m.r.c > 0.0 then q.w
    else
      var i := ArgMax(m.p.a, m.q.b, m.r.c);
      if i == 0 then q.x else if i == 1 then q.y else q.z
  }

  lemma PivotNotZero(m: Mat, q: Quat, u: real)
    requires ReadsOff(m, q, u)
    ensures Pivot(q, m) != 0.0
  {
    var p := Pivot(q, m);
    assert Prod(p, p, u) > 0.0 by { hide Prod; }
  }

  lemma Recovered(sqrt: real -> real, m: Mat, q: Quat, u: real, n: real, k: real)
    requires IsSqrt(sqrt) && k > 0.0 && k * k == n && n > 0.0 && u == 2.0 / n && ReadsOff(m, q, u)
    ensures MatToQuat(sqrt, m) == Normalised(q, k, Pivot(q, m))
  {
    hide *;
    PivotNotZero(m, q, u);
    var p := Pivot(q, m);
    Extracts(sqrt, p, q.x, n, u, k);
    Extracts(sqrt, p, q.y, n, u, k);
    Extracts(sqrt, p, q.z, n, u, k);
    Extracts(sqrt, p, q.w, n, u, k);
    Branches(sqrt, m, q, u, k);
    NormalisedParts(q, k, p);
  }

  lemma NormalisedParts(q: Quat, k: real, p: real)
    requires k > 0.0
    ensures Normalised(q, k, p) == Quat(Share(q.x, p, k), Share(q.y, p, k), Share(q.z, p, k), Share(q.w, p, k))
  {
  }

  /** Every branch divides by the same pivot. */
  lemma Branches(sqrt: real -> real, m: Mat, q: Quat, u: real, k: real)
    requires k > 0.0 && ReadsOff(m, q, u)
    requires var p := Pivot(q, m);
      Splits(sqrt, p, q.x, u, k) && Splits(sqrt, p, q.y, u, k) && Splits(sqrt, p, q.z, u, k) && Splits(sqrt, p, q.w, u, k)
    ensures var p := Pivot(q, m);
      MatToQuat(sqrt, m) == Quat(Share(q.x, p, k), Share(q.y, p, k), Share(q.z, p, k), Share(q.w, p, k))
  {
    hide Prod, Over, Share;
    Swap(q.w, q.x, u); Swap(q.w, q.y, u); Swap(q.w, q.z, u);
    Swap(q.x, q.y, u); Swap(q.x, q.z, u); Swap(q.y, q.z, u);
  }

  /** In all four branches `_mat_to_quat` undoes `_quat_to_mat` up to the length and the sign. */
  lemma QuaternionRecovered(sqrt: real -> real, q: Quat, t: Vec)
    requires IsSqrt(sqrt) && NormSq(q) > 0.0
    ensures sqrt(NormSq(q)) > 0.0 && Pivot(q, QuatToMat(q, t)) != 0.0
    ensures MatToQuat(sqrt, QuatToMat(q, t)) == Normalised(q, sqrt(NormSq(q)), Pivot(q, QuatToMat(q, t)))
  {
    RootPositive(sqrt, NormSq(q));
    hide *;
    MatrixReads(q, t);
    PivotNotZero(QuatToMat(q, t), q, 2.0 / NormSq(q));
    Recovered(sqrt, QuatToMat(q, t), q, 2.0 / NormSq(q), NormSq(q), sqrt(NormSq(q)));
  }

  lemma RootPositive(sqrt: real -> real, n: real)
    requires IsSqrt(sqrt) && n > 0.0
    ensures sqrt(n) > 0.0 && sqrt(n) * sqrt(n) == n && IsLength(sqrt(n), n)
  {
    assert sqrt(n) >= 0.0 && Sq(sqrt(n)) == n;
  }

  ghost predicate IsLength(k: real, n: real) { k > 0.0 && k * k == n }

  lemma LengthSquared(k: real, n: real)
    requires IsLength(k, n)
    ensures k > 0.0 && k * k == n
  {
  }

  lemma NormalisedIs(q: Quat, k: real, p: real)
    requires k > 0.0
    ensures var c := 1.0 / (if p < 0.0 then -k else k);
      c != 0.0 && c * c * (k * k) == 1.0 && Normalised(q, k, p) == Mul(Quat(0.0, 0.0, 0.0, c), q)
  {
    var f := if p < 0.0 then -k else k;
    var c := 1.0 / f;
    assert c * f == 1.0;
    assert c * c * (k * k) == c * f * (c * f);
  }

  /** Length and sign play no part in the rotation. */
  lemma NormalisedTurn(q: Quat, k: real, p: real)
    requires k > 0.0 && NormSq(q) > 0.0 && IsLength(k, NormSq(q))
    ensures NormSq(Normalised(q, k, p)) == 1.0 && Rot(Normalised(q, k, p)) == Rot(q)
  {
    hide *;
    LengthSquared(k, NormSq(q));
    NormalisedIs(q, k, p);
    var c := 1.0 / (if p < 0.0 then -k else k);
    var u := Quat(0.0, 0.0, 0.0, c);
    NoTurn(c);
    RotMul(u, q);
    EyeIsNeutral(Rot(q));
    NormMul(u, q);
    NormIs(u);
  }

  /** Every pose is given back exactly by its quaternion and its translation. */
  lemma PoseRecovered(sqrt: real -> real, m: Mat)
    requires IsSqrt(sqrt) && IsPose(m)
    ensures NormSq(MatToQuat(sqrt, m)) == 1.0 && QuatToMat(MatToQuat(sqrt, m), Translation(m)) == m
  {
    var q: Quat, t: Vec :| PoseOf(m, q, t);
    hide *;
    PoseGives(m, q, t);
    QuatToMatIs(q, t);
    QuatToMatPose(q, t);
    QuaternionRecovered(sqrt, q, t);
    RootPositive(sqrt, NormSq(q));
    var k, p := sqrt(NormSq(q)), Pivot(q, m);
    NormalisedTurn(q, k, p);
    QuatToMatIs(Normalised(q, k, p), t);
  }

  lemma PoseGives(m: Mat, q: Quat, t: Vec)
    requires PoseOf(m, q, t)
    ensures NormSq(q) > 0.0 && m == MatMul(Shift(t), Rot(q))
  {
  }

  /** A transform with the inverse of another taken off its right composes back with that other. */
  lemma ComposedBack(body: Mat, ekf: Mat)
    requires IsPose(body) && IsPose(ekf)
    ensures IsPose(MatMul(body, InvMat(ekf))) && MatMul(MatMul(body, InvMat(ekf)), ekf) == body
  {
    hide *;
    InvMatExact(ekf);
    PoseMul(body, InvMat(ekf));
    Associates(body, InvMat(ekf), ekf);
    EyeIsNeutral(body);
  }

  lemma EyePose()
    ensures IsPose(EYE)
  {
    QuatToMatPose(Quat(0.0, 0.0, 0.0, 1.0), Vec(0.0, 0.0, 0.0));
    assert QuatToMat(Quat(0.0, 0.0, 0.0, 1.0), Vec(0.0, 0.0, 0.0)) == EYE;
  }
}
