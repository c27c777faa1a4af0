/** The two nodes that use the algebra: what they store, and what they publish. */
module FrameNodes {
  import opened Geometry
  import opened Matrices
  import opened Transforms

  /** The pose in a message. */
  datatype Pose = Pose(position: Vec, orientation: Quat)

  /** `pose_to_mat` and `tf_to_mat`. */
  function ToMat(p: Pose): Mat { QuatToMat(p.orientation, p.position) }

  function FromMat(sqrt: real -> real, m: Mat): Pose { Pose(Translation(m), MatToQuat(sqrt, m)) }

  lemma PoseRoundTrip(sqrt: real -> real, m: Mat)
    requires IsSqrt(sqrt) && IsPose(m)
    ensures ToMat(FromMat(sqrt, m)) == m && NormSq(FromMat(sqrt, m).orientation) == 1.0
  {
    PoseRecovered(sqrt, m);
    hide QuatToMat, MatToQuat, IsPose, IsSqrt, NormSq;
  }

  lemma ToMatPose(p: Pose)
    ensures IsPose(ToMat(p))
  {
    QuatToMatPose(p.orientation, p.position);
    hide QuatToMat, IsPose;
  }

  lemma ColumnOfProduct(m: Mat, k: Mat)
    requires k.s == Row(0.0, 0.0, 0.0, 1.0)
    ensures Translation(MatMul(m, k)) == Apply(m, Translation(k))
  {
  }

  /** Applying two transforms in turn is applying their product. */
  lemma ApplyTwice(m: Mat, n: Mat, v: Vec)
    requires m.s == Row(0.0, 0.0, 0.0, 1.0) && n.s == Row(0.0, 0.0, 0.0, 1.0)
    ensures Apply(m, Apply(n, v)) == Apply(MatMul(m, n), v)
  {
    hide Apply, MatMul;
    var k := Transforms.Shift(v);
    TurnedShift(n, v);
    Associates(m, n, k);
    ColumnOfProduct(m, MatMul(n, k));
    ColumnOfProduct(n, k);
    ColumnOfProduct(MatMul(m, n), k);
  }

  lemma PoseBottom(m: Mat)
    requires IsPose(m)
    ensures m.s == Row(0.0, 0.0, 0.0, 1.0)
  {
    var q: Quat, t: Vec :| PoseOf(m, q, t);
    RotShape(q);
    ShiftOf(Rot(q), t);
    hide MatMul, Rot;
  }

  /** Where a message's pose puts a point: turned by its orientation, then moved by its position. */
  function Placed(p: Pose, v: Vec): Vec { Plus(Turned(p.orientation, v), p.position) }

  lemma ToMatPlaces(p: Pose, v: Vec)
    ensures Apply(ToMat(p), v) == Placed(p, v)
  {
    QuatToMatActs(p.orientation, p.position, v);
    hide QuatToMat, Apply, Turned, Plus;
  }

  lemma Composed(l: Mat, m: Mat, k: Mat, v: Vec)
    requires IsPose(m) && IsPose(k) && l == MatMul(m, k)
    ensures Apply(l, v) == Apply(m, Apply(k, v))
  {
    hide Apply, MatMul, IsPose;
    PoseBottom(m);
    PoseBottom(k);
    ApplyTwice(m, k, v);
  }

  /** A product of message poses places points one after the other. */
  lemma ComposedPlaces(l: Pose, m: Pose, k: Pose, v: Vec)
    requires ToMat(l) == MatMul(ToMat(m), ToMat(k))
    ensures Placed(l, v) == Placed(m, Placed(k, v))
  {
    hide *;
    ToMatPose(m);
    ToMatPose(k);
    Composed(ToMat(l), ToMat(m), ToMat(k), v);
    ToMatPlaces(l, v);
    ToMatPlaces(k, v);
    ToMatPlaces(m, Placed(k, v));
  }

  class TransformFusion {
    const sqrt: real -> real
    var curOdomFastlio: Option<Pose>
    var curMapToOdomFl: Option<Pose>

    constructor (root: real -> real)
      ensures sqrt == root && curOdomFastlio == None && curMapToOdomFl == None
    {
      sqrt := root;
      curOdomFastlio, curMapToOdomFl := None, None;
    }

    method SaveFastlioOdom(msg: Pose)
      modifies `curOdomFastlio
      ensures curOdomFastlio == Some(msg)
    {
      curOdomFastlio := Some(msg);
    }

    method SaveMapToOdom(msg: Pose)
      modifies `curMapToOdomFl
      ensures curMapToOdomFl == Some(msg)
    {
      curMapToOdomFl := Some(msg);
    }

    /** The map frame over the odometry's own frame: the identity until registration has spoken. */
    function MapToOdomFl(): Mat
      reads `curMapToOdomFl
    {
      match curMapToOdomFl
      case Some(p) => ToMat(p)
      case None => EYE
    }

    /** Where a point of the odometry's own frame is on the map. */
    ghost function OnMap(v: Vec): Vec
      reads `curMapToOdomFl
    {
      match curMapToOdomFl
      case Some(p) => Placed(p, v)
      case None => v
    }

    /** `timer_callback`, `ekf` being the filter's odom to base_link if it could be looked up. The published
        map to odom, put in front of the filter's transform, is exactly map to body, and so is the
        published localization. */
    method TimerCallback(ekf: Option<Pose>) returns (out: Option<(Pose, Pose)>)
      requires IsSqrt(sqrt)
      ensures out.Some? <==> curOdomFastlio.Some?
      ensures out.Some? ==>
        var body, (tf, loc) := MatMul(MapToOdomFl(), ToMat(curOdomFastlio.value)), out.value;
        && ToMat(loc) == body
        && (ekf.Some? ==> MatMul(ToMat(tf), ToMat(ekf.value)) == body)
        && (ekf.None? ==> ToMat(tf) == MapToOdomFl())
      ensures out.Some? ==>
        var (tf, loc) := out.value;
        && NormSq(tf.orientation) == 1.0 && NormSq(loc.orientation) == 1.0
        && (forall v :: Placed(loc, v) == OnMap(Placed(curOdomFastlio.value, v)))
        && (ekf.Some? ==> forall v :: Placed(tf, Placed(ekf.value, v)) == Placed(loc, v))
        && (ekf.None? ==> forall v :: Placed(tf, v) == OnMap(v))
    {
      hide MatMul, IsPose, IsSqrt, ToMat, FromMat, Placed, NormSq;
      if curOdomFastlio.None? { return None; }
      var mapToOdomFl := MapToOdomFl();
      EyePose();
      if curMapToOdomFl.Some? { ToMatPose(curMapToOdomFl.value); }
      ToMatPose(curOdomFastlio.value);
      var mapToBody := MatMul(mapToOdomFl, ToMat(curOdomFastlio.value));
      PoseMul(mapToOdomFl, ToMat(curOdomFastlio.value));
      var mapToOdom := mapToOdomFl;
      if ekf.Some? {
        mapToOdom := MatMul(mapToBody, InvMat(ToMat(ekf.value)));
        ToMatPose(ekf.value);
        ComposedBack(mapToBody, ToMat(ekf.value));
      }
      PoseRoundTrip(sqrt, mapToOdom);
      PoseRoundTrip(sqrt, mapToBody);
      out := Some((FromMat(sqrt, mapToOdom), FromMat(sqrt, mapToBody)));
      forall v { PlacesAlike(out.value.1, curMapToOdomFl, curOdomFastlio.value, v); }
      if ekf.Some? {
        forall v { SamePlace(out.value.0, ekf.value, out.value.1, v); }
      } else {
        forall v { MapPlaces(out.value.0, curMapToOdomFl, v); }
      }
    }
  }

  /** The map's matrix, or the identity before registration has spoken. */
  function OrEye(fix: Option<Pose>): Mat { if fix.Some? then ToMat(fix.value) else EYE }

  function OrSame(fix: Option<Pose>, v: Vec): Vec { if fix.Some? then Placed(fix.value, v) else v }

  lemma PlacesAlike(l: Pose, fix: Option<Pose>, k: Pose, v: Vec)
    requires ToMat(l) == MatMul(OrEye(fix), ToMat(k))
    ensures Placed(l, v) == OrSame(fix, Placed(k, v))
  {
    hide MatMul, ToMat, Placed;
    if fix.Some? {
      ComposedPlaces(l, fix.value, k, v);
    } else {
      EyeIsNeutral(ToMat(k));
      ToMatPlaces(l, v);
      ToMatPlaces(k, v);
    }
  }

  lemma MapPlaces(l: Pose, fix: Option<Pose>, v: Vec)
    requires ToMat(l) == OrEye(fix)
    ensures Placed(l, v) == OrSame(fix, v)
  {
    hide ToMat, Placed, Apply;
    ToMatPlaces(l, v);
    EyeStays(v);
    if fix.Some? { ToMatPlaces(fix.value, v); }
  }

  lemma EyeStays(v: Vec)
    ensures Apply(EYE, v) == v
  {
  }

  lemma SamePlace(tf: Pose, ekf: Pose, loc: Pose, v: Vec)
    requires MatMul(ToMat(tf), ToMat(ekf)) == ToMat(loc)
    ensures Placed(tf, Placed(ekf, v)) == Placed(loc, v)
  {
    hide MatMul, ToMat, Placed;
    ComposedPlaces(loc, tf, ekf, v);
  }

  // ---- cloud_to_base_link ----

  /** `T_BASE_FROM_BODY`. */
  const BASE_FROM_BODY := Shift(Vec(-0.40, 0.0, -0.22))

  /** The rotation block of a matrix, and its transpose, with no translation. */
  function Block(m: Mat): Mat { Mat(m.p.(d := 0.0), m.q.(d := 0.0), m.r.(d := 0.0), Row(0.0, 0.0, 0.0, 1.0)) }

  function Transposed3(m: Mat): Mat {
    Mat(Row(m.p.a, m.q.a, m.r.a, 0.0), Row(m.p.b, m.q.b, m.r.b, 0.0), Row(m.p.c, m.q.c, m.r.c, 0.0), Row(0.0, 0.0, 0.0, 1.0))
  }

  /** A point as `on_cloud` rewrites it, given the odometry's matrix. */
  function ToBase(m: Mat, v: Vec): Vec {
    var r := MatMul(Block(BASE_FROM_BODY), Transposed3(m));
    var t := Plus(Translation(BASE_FROM_BODY), Minus(Apply(r, Translation(m))));
    Plus(Apply(r, v), t)
  }

  /** What is done to a point is the inverse odometry, then the fixed mounting offset. */
  lemma ToBaseIs(m: Mat, v: Vec)
    ensures ToBase(m, v) == Apply(MatMul(BASE_FROM_BODY, InvMat(m)), v)
  {
    hide MatMul, Apply, Transposed3;
    EyeIsNeutral(Transposed3(m));
    BaseBlock();
    ShiftsOn(Vec(-0.40, 0.0, -0.22), InvMat(m));
    ApplyIs(Transposed3(m), Translation(m));
    ApplyIs(Transposed3(m), v);
    ApplyIs(MatMul(BASE_FROM_BODY, InvMat(m)), v);
    TransposedIs(m);
  }

  lemma TransposedIs(m: Mat)
    ensures var t := Transposed3(m);
      t.p == Row(m.p.a, m.q.a, m.r.a, 0.0) && t.q == Row(m.p.b, m.q.b, m.r.b, 0.0) && t.r == Row(m.p.c, m.q.c, m.r.c, 0.0)
  {
  }

  lemma BaseBlock()
    ensures Block(BASE_FROM_BODY) == EYE && Translation(BASE_FROM_BODY) == Vec(-0.40, 0.0, -0.22)
  {
  }

  lemma ShiftsOn(t: Vec, m: Mat)
    requires m.s == Row(0.0, 0.0, 0.0, 1.0)
    ensures MatMul(Transforms.Shift(t), m) == Mat(m.p.(d := m.p.d + t.x), m.q.(d := m.q.d + t.y), m.r.(d := m.r.d + t.z), m.s)
  {
  }

  /** A body point `b`, seen from the world frame, comes back as the base-frame image of `b`, whatever
      the odometry, even one with no valid quaternion. */
  lemma ToBaseExact(odom: Pose, b: Vec)
    ensures ToBase(ToMat(odom), Apply(ToMat(odom), b)) == Apply(BASE_FROM_BODY, b)
  {
    var m := ToMat(odom);
    ToMatPose(odom);
    InvMatExact(m);
    PoseBottom(m);
    PoseBottom(InvMat(m));
    hide *;
    ToBaseIs(m, Apply(m, b));
    BaseBottom(InvMat(m));
    ApplyTwice(MatMul(BASE_FROM_BODY, InvMat(m)), m, b);
    Associates(BASE_FROM_BODY, InvMat(m), m);
    EyeIsNeutral(BASE_FROM_BODY);
  }

  /** Every world point is one body point, seen through the odometry. */
  lemma BodyPoint(odom: Pose, v: Vec) returns (b: Vec)
    ensures Placed(odom, b) == v
  {
    var m := ToMat(odom);
    b := Apply(InvMat(m), v);
    ToMatPose(odom);
    InvMatExact(m);
    PoseBottom(m);
    PoseBottom(InvMat(m));
    hide ToMat, InvMat, IsPose, MatMul, Placed;
    ApplyTwice(m, InvMat(m), v);
    ToMatPlaces(odom, b);
  }

  /** `base` is where the base frame has whatever body point the odometry puts at `world`; there is one.
      The base frame's origin is 0.40 ahead and 0.22 above. */
  ghost predicate InBase(odom: Pose, world: Vec, base: Vec) {
    && (exists b :: Placed(odom, b) == world)
    && (forall b :: Placed(odom, b) == world ==> base == Vec(b.x - 0.40, b.y, b.z - 0.22))
  }

  lemma OffsetIs(b: Vec)
    ensures Apply(BASE_FROM_BODY, b) == Vec(b.x - 0.40, b.y, b.z - 0.22)
  {
  }

  lemma ToBaseInBase(odom: Pose, v: Vec)
    ensures InBase(odom, v, ToBase(ToMat(odom), v))
  {
    hide ToMat, ToBase, BASE_FROM_BODY, Placed, Apply;
    var b := BodyPoint(odom, v);
    forall x | Placed(odom, x) == v ensures ToBase(ToMat(odom), v) == Vec(x.x - 0.40, x.y, x.z - 0.22) {
      ToMatPlaces(odom, x);
      ToBaseExact(odom, x);
      OffsetIs(x);
    }
  }

  lemma BaseBottom(m: Mat)
    requires m.s == Row(0.0, 0.0, 0.0, 1.0)
    ensures MatMul(BASE_FROM_BODY, m).s == Row(0.0, 0.0, 0.0, 1.0)
  {
    ShiftsOn(Vec(-0.40, 0.0, -0.22), m);
    hide MatMul;
  }

  /** A point of a cloud message; `rest` stands for its other fields. */
  datatype CloudPoint = CloudPoint(xyz: Vec, rest: int)

  /** `hasXyz` says whether the message declares all three coordinates. */
  datatype Cloud = Cloud(hasXyz: bool, points: seq<CloudPoint>)

  class CloudToBaseLink {
    var lastOdom: Option<Pose>

    constructor ()
      ensures lastOdom == None
    {
      lastOdom := None;
    }

    method OnOdom(msg: Pose)
      modifies this
      ensures lastOdom == Some(msg)
    {
      lastOdom := Some(msg);
    }

    /** `on_cloud`: coordinates are rewritten in a copy of the buffer, everything else is kept; nothing is
        published before the first odometry, without coordinates or for an empty cloud. */
    method OnCloud(msg: Cloud) returns (out: Option<Cloud>)
      ensures out.Some? <==> lastOdom.Some? && msg.hasXyz && msg.points != []
      ensures out.Some? ==> out.value.hasXyz && |out.value.points| == |msg.points|
      ensures out.Some? ==> forall k :: 0 <= k < |msg.points| ==>
        && out.value.points[k].rest == msg.points[k].rest
        && InBase(lastOdom.value, msg.points[k].xyz, out.value.points[k].xyz)
    {
      hide ToBase, ToMat, InBase;
      if lastOdom.None? { return None; }
      if !msg.hasXyz { return None; }
      var worldFromBody := ToMat(lastOdom.value);
      var buf := new CloudPoint[|msg.points|](i requires 0 <= i < |msg.points| => msg.points[i]);
      if buf.Length == 0 { return None; }
      for i := 0 to buf.Length
        invariant forall k :: 0 <= k < i ==> buf[k] == msg.points[k].(xyz := ToBase(worldFromBody, msg.points[k].xyz))
        invariant forall k :: i <= k < buf.Length ==> buf[k] == msg.points[k]
      {
        buf[i] := buf[i].(xyz := ToBase(worldFromBody, buf[i].xyz));
      }
      forall v { ToBaseInBase(lastOdom.value, v); }
      return Some(Cloud(true, buf[..]));
    }
  }
}
