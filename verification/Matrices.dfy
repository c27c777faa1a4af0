/** 4x4 matrices and quaternions, over exact reals. */
module Matrices {

  datatype Row = Row(a: real, b: real, c: real, d: real)

  datatype Mat = Mat(p: Row, q: Row, r: Row, s: Row)

  datatype Vec = Vec(x: real, y: real, z: real)

  datatype Quat = Quat(x: real, y: real, z: real, w: real)

  const EYE := Mat(Row(1.0, 0.0, 0.0, 0.0), Row(0.0, 1.0, 0.0, 0.0), Row(0.0, 0.0, 1.0, 0.0), Row(0.0, 0.0, 0.0, 1.0))

  function Dot(u: Row, a: real, b: real, c: real, d: real): real { u.a * a + u.b * b + u.c * c + u.d * d }

  function RowMul(u: Row, m: Mat): Row {
    Row(Dot(u, m.p.a, m.q.a, m.r.a, m.s.a), Dot(u, m.p.b, m.q.b, m.r.b, m.s.b),
        Dot(u, m.p.c, m.q.c, m.r.c, m.s.c), Dot(u, m.p.d, m.q.d, m.r.d, m.s.d))
  }

  /** `_mat_mul`. */
  function MatMul(m: Mat, n: Mat): Mat { Mat(RowMul(m.p, n), RowMul(m.q, n), RowMul(m.r, n), RowMul(m.s, n)) }

  // ---- Laws of the product ----

  lemma Distribute(a: real, b: real, c: real, d: real, k: real)
    ensures (a + b + c + d) * k == a * k + b * k + c * k + d * k
  {
  }

  lemma Nested(u: real, v: Row, w: Row)
    ensures u * Dot(v, w.a, w.b, w.c, w.d) == u * v.a * w.a + u * v.b * w.b + u * v.c * w.c + u * v.d * w.d
  {
    Distribute(v.a * w.a, v.b * w.b, v.c * w.c, v.d * w.d, u);
  }

  /** The sixteen products `u` times `m` times the column `w`. */
  ghost function Grid(u: Row, m: Mat, w: Row): real {
    (u.a * m.p.a * w.a + u.b * m.q.a * w.a + u.c * m.r.a * w.a + u.d * m.s.a * w.a)
    + (u.a * m.p.b * w.b + u.b * m.q.b * w.b + u.c * m.r.b * w.b + u.d * m.s.b * w.b)
    + (u.a * m.p.c * w.c + u.b * m.q.c * w.c + u.c * m.r.c * w.c + u.d * m.s.c * w.c)
    + (u.a * m.p.d * w.d + u.b * m.q.d * w.d + u.c * m.r.d * w.d + u.d * m.s.d * w.d)
  }

  lemma GridByColumn(u: Row, m: Mat, w: Row)
    ensures var v := RowMul(u, m); Dot(v, w.a, w.b, w.c, w.d) == Grid(u, m, w)
  {
    Distribute(u.a * m.p.a, u.b * m.q.a, u.c * m.r.a, u.d * m.s.a, w.a);
    Distribute(u.a * m.p.b, u.b * m.q.b, u.c * m.r.b, u.d * m.s.b, w.b);
    Distribute(u.a * m.p.c, u.b * m.q.c, u.c * m.r.c, u.d * m.s.c, w.c);
    Distribute(u.a * m.p.d, u.b * m.q.d, u.c * m.r.d, u.d * m.s.d, w.d);
  }

  lemma GridByRow(u: Row, m: Mat, w: Row)
    ensures Dot(u, Dot(m.p, w.a, w.b, w.c, w.d), Dot(m.q, w.a, w.b, w.c, w.d),
                Dot(m.r, w.a, w.b, w.c, w.d), Dot(m.s, w.a, w.b, w.c, w.d)) == Grid(u, m, w)
  {
    Nested(u.a, m.p, w);
    Nested(u.b, m.q, w);
    Nested(u.c, m.r, w);
    Nested(u.d, m.s, w);
  }

  /** One entry of the associative law; `w` is a column of the last matrix. */
  lemma EntryAssociates(u: Row, m: Mat, w: Row)
    ensures var v := RowMul(u, m);
      Dot(v, w.a, w.b, w.c, w.d)
      == Dot(u, Dot(m.p, w.a, w.b, w.c, w.d), Dot(m.q, w.a, w.b, w.c, w.d),
             Dot(m.r, w.a, w.b, w.c, w.d), Dot(m.s, w.a, w.b, w.c, w.d))
  {
    hide *;
    GridByColumn(u, m, w);
    GridByRow(u, m, w);
  }

  lemma RowAssociates(u: Row, m: Mat, n: Mat)
    ensures RowMul(RowMul(u, m), n) == RowMul(u, MatMul(m, n))
  {
    hide Dot;
    EntryAssociates(u, m, Row(n.p.a, n.q.a, n.r.a, n.s.a));
    EntryAssociates(u, m, Row(n.p.b, n.q.b, n.r.b, n.s.b));
    EntryAssociates(u, m, Row(n.p.c, n.q.c, n.r.c, n.s.c));
    EntryAssociates(u, m, Row(n.p.d, n.q.d, n.r.d, n.s.d));
  }

  lemma Associates(l: Mat, m: Mat, n: Mat)
    ensures MatMul(MatMul(l, m), n) == MatMul(l, MatMul(m, n))
  {
    RowAssociates(l.p, m, n);
    RowAssociates(l.q, m, n);
    RowAssociates(l.r, m, n);
    RowAssociates(l.s, m, n);
    hide RowMul;
  }

  lemma EyeIsNeutral(m: Mat)
    ensures MatMul(m, EYE) == m && MatMul(EYE, m) == m
  {
  }

  /** The matrix that multiplies by `k`. */
  function Diag(k: real): Mat {
    Mat(Row(k, 0.0, 0.0, 0.0), Row(0.0, k, 0.0, 0.0), Row(0.0, 0.0, k, 0.0), Row(0.0, 0.0, 0.0, k))
  }

  lemma DiagCommutes(k: real, m: Mat)
    ensures MatMul(m, Diag(k)) == MatMul(Diag(k), m)
  {
  }

  lemma DiagMul(j: real, k: real, l: real)
    requires l == j * k
    ensures MatMul(Diag(j), Diag(k)) == Diag(l)
  {
  }

  lemma Scales(j: real, k: real, l: real, m: Mat, n: Mat)
    requires l == j * k
    ensures MatMul(MatMul(Diag(j), m), MatMul(Diag(k), n)) == MatMul(Diag(l), MatMul(m, n))
  {
    hide MatMul, Diag;
    Associates(Diag(j), m, MatMul(Diag(k), n));
    Associates(m, Diag(k), n);
    DiagCommutes(k, m);
    Associates(Diag(k), m, n);
    Associates(Diag(j), Diag(k), MatMul(m, n));
    DiagMul(j, k, l);
  }

  // ---- Quaternions as matrices ----

  function NormSq(q: Quat): real { q.x * q.x + q.y * q.y + q.z * q.z + q.w * q.w }

  function Mul(p: Quat, q: Quat): Quat {
    Quat(p.w * q.x + p.x * q.w + p.y * q.z - p.z * q.y,
         p.w * q.y - p.x * q.z + p.y * q.w + p.z * q.x,
         p.w * q.z + p.x * q.y - p.y * q.x + p.z * q.w,
         p.w * q.w - p.x * q.x - p.y * q.y - p.z * q.z)
  }

  function Conj(q: Quat): Quat { Quat(-q.x, -q.y, -q.z, q.w) }

  /** Multiplying by `q` on the left, on the coordinates (x, y, z, w). */
  function Left(q: Quat): Mat {
    Mat(Row(q.w, -q.z, q.y, q.x), Row(q.z, q.w, -q.x, q.y), Row(-q.y, q.x, q.w, q.z), Row(-q.x, -q.y, -q.z, q.w))
  }

  /** Multiplying by the conjugate of `q` on the right. */
  function Right(q: Quat): Mat {
    Mat(Row(q.w, -q.z, q.y, -q.x), Row(q.z, q.w, -q.x, -q.y), Row(-q.y, q.x, q.w, -q.z), Row(q.x, q.y, q.z, q.w))
  }

  lemma LeftMul(p: Quat, q: Quat)
    ensures MatMul(Left(p), Left(q)) == Left(Mul(p, q))
  {
  }

  lemma RightMul(p: Quat, q: Quat)
    ensures MatMul(Right(p), Right(q)) == Right(Mul(p, q))
  {
  }

  lemma Commute(p: Quat, q: Quat)
    ensures MatMul(Right(p), Left(q)) == MatMul(Left(q), Right(p))
  {
  }

  /** The rotation by `q`, scaled by its squared norm. */
  function Turn(q: Quat): Mat { MatMul(Left(q), Right(q)) }

  /** Turning by `q` and then by `p` is turning by their product. */
  lemma TurnMul(p: Quat, q: Quat)
    ensures MatMul(Turn(p), Turn(q)) == Turn(Mul(p, q))
  {
    hide MatMul, Left, Right, Mul;
    var lp, rp, lq, rq := Left(p), Right(p), Left(q), Right(q);
    Associates(lp, rp, MatMul(lq, rq));
    Associates(rp, lq, rq);
    Commute(p, q);
    Associates(lq, rp, rq);
    Associates(lp, lq, MatMul(rp, rq));
    LeftMul(p, q);
    RightMul(p, q);
  }

  /** A matrix times a column. */
  function Col(m: Mat, x: Quat): Quat {
    Quat(Dot(m.p, x.x, x.y, x.z, x.w), Dot(m.q, x.x, x.y, x.z, x.w), Dot(m.r, x.x, x.y, x.z, x.w),
         Dot(m.s, x.x, x.y, x.z, x.w))
  }

  lemma ColTwice(m: Mat, n: Mat, x: Quat)
    ensures Col(MatMul(m, n), x) == Col(m, Col(n, x))
  {
    hide Dot, RowMul;
    var w := Row(x.x, x.y, x.z, x.w);
    EntryAssociates(m.p, n, w);
    EntryAssociates(m.q, n, w);
    EntryAssociates(m.r, n, w);
    EntryAssociates(m.s, n, w);
  }

  lemma ColLeft(q: Quat, x: Quat)
    ensures Col(Left(q), x) == Mul(q, x)
  {
  }

  lemma ColRight(q: Quat, x: Quat)
    ensures Col(Right(q), x) == Mul(x, Conj(q))
  {
  }

  /** The matrix does what a quaternion does to a vector: q v q*. */
  lemma TurnIsSandwich(q: Quat, x: Quat)
    ensures Col(Turn(q), x) == Mul(q, Mul(x, Conj(q)))
  {
    hide MatMul, Left, Right, Mul, Col, Conj;
    ColTwice(Left(q), Right(q), x);
    ColRight(q, x);
    ColLeft(q, Mul(x, Conj(q)));
  }

  lemma TurnEntries(q: Quat)
    ensures var t := Turn(q);
      && t.p == Row(q.w * q.w + q.x * q.x - q.y * q.y - q.z * q.z, 2.0 * (q.x * q.y - q.w * q.z), 2.0 * (q.x * q.z + q.w * q.y), 0.0)
      && t.q == Row(2.0 * (q.x * q.y + q.w * q.z), q.w * q.w - q.x * q.x + q.y * q.y - q.z * q.z, 2.0 * (q.y * q.z - q.w * q.x), 0.0)
      && t.r == Row(2.0 * (q.x * q.z - q.w * q.y), 2.0 * (q.y * q.z + q.w * q.x), q.w * q.w - q.x * q.x - q.y * q.y + q.z * q.z, 0.0)
      && t.s == Row(0.0, 0.0, 0.0, NormSq(q))
  {
  }

  lemma NormMul(p: Quat, q: Quat)
    ensures NormSq(Mul(p, q)) == NormSq(p) * NormSq(q)
  {
    TurnMul(p, q);
    TurnEntries(p);
    TurnEntries(q);
    TurnEntries(Mul(p, q));
    hide Turn, NormSq, Mul;
    assert MatMul(Turn(p), Turn(q)).s.d == Dot(Turn(p).s, 0.0, 0.0, 0.0, NormSq(q));
  }
}
