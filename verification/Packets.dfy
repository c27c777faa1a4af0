/** Pairing lidar scans with the inertial samples they span: the buffers of the mapping node as values. */
module Packets {
  import opened Geometry

  /** A scan after preprocessing; `curvature` holds each point's offset from the scan's start in
      milliseconds. `id` stands for everything else a cloud carries. */
  datatype Scan = Scan(id: int, curvature: seq<real>)

  datatype Imu = Imu(stamp: real, id: int)

  /** `MeasureGroup`. */
  datatype Measure = Measure(lidar: Scan, begTime: real, endTime: real, imu: seq<Imu>)

  /** `time_sync_en` and `time_diff_lidar_to_imu`. */
  datatype Config = Config(timeSync: bool, imuLag: real)

  datatype State = State(
    lidarBuffer: seq<Scan>, timeBuffer: seq<real>, imuBuffer: seq<Imu>,
    lastLidar: real, lastImu: real, firstLidar: bool, pushed: bool, endTime: real,
    mean: real, scanNum: nat, timediff: real, timediffSet: bool, meas: Measure)

  const START := State([], [], [], 0.0, -1.0, true, false, 0.0, 0.0, 0, 0.0, false, Measure(Scan(0, []), 0.0, 0.0, []))

  /** A scan pushed behind the others; a stamp that goes back empties the lidar buffer first, but not
      the time buffer. */
  function PushScan(s: State, stamp: real, scan: Scan): State {
    var kept := if !s.firstLidar && stamp < s.lastLidar then [] else s.lidarBuffer;
    s.(lidarBuffer := kept + [scan], timeBuffer := s.timeBuffer + [stamp], lastLidar := stamp, firstLidar := false)
  }

  /** Self synchronisation: with it on, the first Livox scan far from the last sample fixes the offset. */
  function SyncClock(c: Config, s: State, stamp: real): State {
    if c.timeSync && !s.timediffSet && Abs(stamp - s.lastImu) > 1.0 && s.imuBuffer != [] then
      s.(timediffSet := true, timediff := stamp + 0.1 - s.lastImu)
    else s
  }

  function LivoxPcl(c: Config, s: State, stamp: real, scan: Scan): State {
    SyncClock(c, PushScan(s, stamp, scan), stamp)
  }

  /** The sample as buffered: its stamp moved onto the lidar's clock. */
  function Adjusted(c: Config, s: State, m: Imu): Imu {
    m.(stamp := if Abs(s.timediff) > 0.1 && c.timeSync then s.timediff + m.stamp else m.stamp - c.imuLag)
  }

  function PushImu(c: Config, s: State, m: Imu): State {
    var a := Adjusted(c, s, m);
    s.(imuBuffer := (if a.stamp < s.lastImu then [] else s.imuBuffer) + [a], lastImu := a.stamp)
  }

  /** Seconds a scan lasts. */
  function Length(scan: Scan): real
    requires scan.curvature != []
  {
    scan.curvature[|scan.curvature| - 1] / 1000.0
  }

  /** A scan too short to be believed: its end is estimated from the mean. */
  predicate Accepted(scan: Scan, mean: real) {
    |scan.curvature| > 1 && Length(scan) >= 0.5 * mean
  }

  /** The running mean with the `n`th length `x` taken in. */
  function Averaged(mean: real, x: real, n: nat): real
    requires n > 0
  {
    mean + (x - mean) / n as real
  }

  /** The front scan becomes the current one and its end time is settled. */
  function TakeScan(s: State): State
    requires s.lidarBuffer != [] && s.timeBuffer != []
  {
    var scan, beg := s.lidarBuffer[0], s.timeBuffer[0];
    if Accepted(scan, s.mean) then
      var n := s.scanNum + 1;
      var end := beg + Length(scan);
      s.(scanNum := n, endTime := end, mean := Averaged(s.mean, Length(scan), n), pushed := true,
         meas := s.meas.(lidar := scan, begTime := beg, endTime := end))
    else
      var end := beg + s.mean;
      s.(endTime := end, pushed := true, meas := s.meas.(lidar := scan, begTime := beg, endTime := end))
  }

  /** How many samples the loop takes from the front, `t` being the stamp it looked at last. */
  function Taken(buf: seq<Imu>, end: real, t: real): (n: nat)
    ensures n <= |buf|
  {
    if buf == [] || t >= end || buf[0].stamp > end then 0 else 1 + Taken(buf[1..], end, buf[0].stamp)
  }

  function Ready(s: State): State
    requires s.lidarBuffer != [] && s.timeBuffer != []
  {
    if s.pushed then s else TakeScan(s)
  }

  /** `sync_packages`: the new state and whether a package was completed. */
  function Sync(s: State): (r: (State, bool))
    requires |s.timeBuffer| >= |s.lidarBuffer|
  {
    if s.lidarBuffer == [] || s.imuBuffer == [] then (s, false)
    else
      var u := Ready(s);
      if u.lastImu < u.endTime then (u, false)
      else
        var n := Taken(u.imuBuffer, u.endTime, u.imuBuffer[0].stamp);
        (u.(meas := u.meas.(imu := u.imuBuffer[..n]), imuBuffer := u.imuBuffer[n..],
            lidarBuffer := u.lidarBuffer[1..], timeBuffer := u.timeBuffer[1..], pushed := false), true)
  }

  // ---- Runs, with what was received and handed out along the way ----

  datatype Action = StandardScan(stamp: real, scan: Scan) | LivoxScan(stamp: real, scan: Scan) | Sample(m: Imu) | Poll

  /** `lengths` are those of the accepted scans. */
  datatype World = World(s: State, scans: seq<(Scan, real)>, samples: seq<Imu>, handed: seq<Measure>, lengths: seq<real>)

  const EMPTY := World(START, [], [], [], [])

  ghost predicate Wellformed(s: State) {
    && |s.timeBuffer| >= |s.lidarBuffer|
    && (s.pushed ==> s.lidarBuffer != [])
    && (forall i, j :: 0 <= i < j < |s.imuBuffer| ==> s.imuBuffer[i].stamp <= s.imuBuffer[j].stamp)
    && (s.imuBuffer != [] ==> s.imuBuffer[|s.imuBuffer| - 1].stamp == s.lastImu)
  }

  function Step(c: Config, w: World, a: Action): World
    requires |w.s.timeBuffer| >= |w.s.lidarBuffer|
  {
    match a
    case StandardScan(stamp, scan) => w.(s := PushScan(w.s, stamp, scan), scans := w.scans + [(scan, stamp)])
    case LivoxScan(stamp, scan) => w.(s := LivoxPcl(c, w.s, stamp, scan), scans := w.scans + [(scan, stamp)])
    case Sample(m) => w.(s := PushImu(c, w.s, m), samples := w.samples + [Adjusted(c, w.s, m)])
    case Poll =>
      var (s, done) := Sync(w.s);
      w.(s := s, handed := if done then w.handed + [s.meas] else w.handed, lengths := w.lengths + NewLength(w.s))
  }

  /** The scan length that `Sync` counts, if any. */
  function NewLength(s: State): seq<real>
    requires |s.timeBuffer| >= |s.lidarBuffer|
  {
    if s.lidarBuffer != [] && s.imuBuffer != [] && !s.pushed && Accepted(s.lidarBuffer[0], s.mean)
    then [Length(s.lidarBuffer[0])] else []
  }

  ghost function Run(c: Config, acts: seq<Action>): (w: World)
    ensures Wellformed(w.s)
  {
    if acts == [] then EMPTY
    else
      var w := Run(c, acts[..|acts| - 1]);
      StepWellformed(c, w, acts[|acts| - 1]);
      Step(c, w, acts[|acts| - 1])
  }

  // ---- One poll ----

  /** Of samples in order exactly those before the end are taken and the first of those at it; none, if
      the stamp looked at last is not before the end. */
  lemma {:induction false} TakenExact(buf: seq<Imu>, end: real, t: real)
    requires forall i, j :: 0 <= i < j < |buf| ==> buf[i].stamp <= buf[j].stamp
    requires buf != [] ==> t <= buf[0].stamp
    ensures var n := Taken(buf, end, t);
      && (forall k :: 0 <= k < n ==> buf[k].stamp <= end)
      && (t < end ==> forall k :: n <= k < |buf| ==> buf[k].stamp >= end)
      && (t >= end ==> n == 0)
      && (forall k :: 0 <= k < n - 1 ==> buf[k].stamp < end)
      && (t < end && n < |buf| && buf[n].stamp == end ==> n > 0 && buf[n - 1].stamp == end)
  {
    if buf == [] || t >= end || buf[0].stamp > end {
    } else {
      var rest := buf[1..];
      TakenExact(rest, end, buf[0].stamp);
      var n := Taken(rest, end, buf[0].stamp);
      assert Taken(buf, end, t) == n + 1;
      forall k | 0 <= k < n + 1 ensures buf[k].stamp <= end {
        if k > 0 { assert buf[k] == rest[k - 1]; }
      }
      forall k | n + 1 <= k < |buf| ensures buf[k].stamp >= end {
        assert buf[k] == rest[k - 1];
      }
      forall k | 0 <= k < n ensures buf[k].stamp < end {
        if k > 0 { assert buf[k] == rest[k - 1]; }
      }
      if n + 1 < |buf| && buf[n + 1].stamp == end {
        assert rest[n] == buf[n + 1];
        if n > 0 { assert rest[n - 1] == buf[n]; }
      }
    }
  }

  lemma ReadyShape(s: State)
    requires s.lidarBuffer != [] && s.timeBuffer != []
    ensures var u := Ready(s);
      && u.pushed && u.lidarBuffer == s.lidarBuffer && u.timeBuffer == s.timeBuffer && u.imuBuffer == s.imuBuffer
      && u.lastImu == s.lastImu && u.lastLidar == s.lastLidar && u.firstLidar == s.firstLidar
  {
  }

  /** At most the last sample taken is at the end; if one at the end is left, so is that last one, if any. */
  ghost predicate OneAtEnd(taken: seq<Imu>, left: seq<Imu>, end: real) {
    && (forall k :: 0 <= k < |taken| - 1 ==> taken[k].stamp < end)
    && (taken != [] && left != [] && left[0].stamp == end ==> taken[|taken| - 1].stamp == end)
  }

  /** A completed package: its samples with what stays buffered are what was buffered, none of its
      samples is later than the scan's end, and none left behind is earlier. */
  lemma {:induction false} PackageExact(s: State)
    requires Wellformed(s) && Sync(s).1
    ensures var u := Sync(s).0;
      && s.lidarBuffer != [] && u.lidarBuffer == s.lidarBuffer[1..] && u.timeBuffer == s.timeBuffer[1..]
      && u.meas.imu + u.imuBuffer == s.imuBuffer
      && u.meas == Ready(s).meas.(imu := u.meas.imu)
      && u.endTime == Ready(s).endTime && u.lastImu == s.lastImu >= u.endTime
      && (forall m :: m in u.meas.imu ==> m.stamp <= u.endTime)
      && (forall m :: m in u.imuBuffer ==> m.stamp >= u.endTime)
      && OneAtEnd(u.meas.imu, u.imuBuffer, u.endTime)
  {
    hide *;
    SortedBuffer(s);
    PackageIs(s);
    ReadyShape(s);
    var u := Ready(s);
    CutInTime(u.imuBuffer, u.endTime);
    var n := Taken(u.imuBuffer, u.endTime, u.imuBuffer[0].stamp);
    assert u.imuBuffer[..n] + u.imuBuffer[n..] == u.imuBuffer;
  }

  lemma PackageIs(s: State)
    requires |s.timeBuffer| >= |s.lidarBuffer| && Sync(s).1
    ensures s.lidarBuffer != [] && s.imuBuffer != []
    ensures var u := Ready(s);
      && u.imuBuffer == s.imuBuffer && u.lidarBuffer == s.lidarBuffer && u.timeBuffer == s.timeBuffer
      && u.lastImu >= u.endTime
      && var n := Taken(u.imuBuffer, u.endTime, u.imuBuffer[0].stamp);
         Sync(s).0 == u.(meas := u.meas.(imu := u.imuBuffer[..n]), imuBuffer := u.imuBuffer[n..],
                         lidarBuffer := u.lidarBuffer[1..], timeBuffer := u.timeBuffer[1..], pushed := false)
  {
    ReadyShape(s);
    hide Ready, Taken;
  }

  lemma SortedBuffer(s: State)
    requires Wellformed(s)
    ensures |s.timeBuffer| >= |s.lidarBuffer|
    ensures forall i, j :: 0 <= i < j < |s.imuBuffer| ==> s.imuBuffer[i].stamp <= s.imuBuffer[j].stamp
  {
  }

  lemma CutInTime(buf: seq<Imu>, end: real)
    requires buf != [] && forall i, j :: 0 <= i < j < |buf| ==> buf[i].stamp <= buf[j].stamp
    ensures var n := Taken(buf, end, buf[0].stamp);
      && (forall m :: m in buf[..n] ==> m.stamp <= end)
      && (forall m :: m in buf[n..] ==> m.stamp >= end)
      && OneAtEnd(buf[..n], buf[n..], end)
  {
    hide Taken;
    TakenExact(buf, end, buf[0].stamp);
  }

  // ---- Invariants of runs ----

  lemma SyncWellformed(s: State)
    requires Wellformed(s)
    ensures Wellformed(Sync(s).0)
  {
    if s.lidarBuffer != [] && s.imuBuffer != [] {
      ReadyShape(s);
      hide Ready, Taken;
    }
  }

  lemma StepWellformed(c: Config, w: World, a: Action)
    requires Wellformed(w.s)
    ensures Wellformed(Step(c, w, a).s)
  {
    match a {
      case Poll => SyncWellformed(w.s);
      case _ =>
    }
  }

  // ---- The mean ----

  ghost function Sum(xs: seq<real>): real {
    if xs == [] then 0.0 else Sum(xs[..|xs| - 1]) + xs[|xs| - 1]
  }

  /** `lidar_mean_scantime` is the mean of the lengths of the scans accepted so far. */
  ghost predicate MeanHolds(w: World) { w.s.scanNum == |w.lengths| && IsMean(w.s.mean, w.lengths) }

  ghost predicate IsMean(mean: real, xs: seq<real>) {
    if xs == [] then mean == 0.0 else mean * |xs| as real == Sum(xs)
  }

  lemma NewMean(mean: real, n: nat, sum: real, x: real)
    requires mean * n as real == sum
    ensures Averaged(mean, x, n + 1) * (n + 1) as real == sum + x
  {
    var d := (x - mean) / (n + 1) as real;
    assert d * (n + 1) as real == x - mean;
    assert (mean + d) * (n + 1) as real == mean * (n + 1) as real + d * (n + 1) as real;
    assert mean * (n + 1) as real == mean * n as real + mean;
  }

  lemma {:induction false} TrueMean(c: Config, acts: seq<Action>)
    ensures MeanHolds(Run(c, acts))
    decreases |acts|
  {
    if acts != [] {
      TrueMean(c, acts[..|acts| - 1]);
      var w, a := Run(c, acts[..|acts| - 1]), acts[|acts| - 1];
      StepMean(c, w, a);
      hide MeanHolds, Step;
    }
  }

  lemma StepMean(c: Config, w: World, a: Action)
    requires Wellformed(w.s) && MeanHolds(w)
    ensures MeanHolds(Step(c, w, a))
  {
    hide IsMean, Averaged;
    match a {
      case Poll => PollMean(w);
      case _ =>
    }
  }

  lemma PollMean(w: World)
    requires |w.s.timeBuffer| >= |w.s.lidarBuffer| && MeanHolds(w)
    ensures MeanHolds(w.(s := Sync(w.s).0, lengths := w.lengths + NewLength(w.s)))
  {
    SyncMean(w.s);
    var u, x := Sync(w.s).0, NewLength(w.s);
    hide Sync, Accepted, Length, NewLength, Averaged, Sum;
    hide IsMean;
    if x != [] {
      assert x == [x[0]];
      NextMean(w.s.mean, w.lengths, x[0]);
    } else {
      assert w.lengths + x == w.lengths;
    }
  }

  lemma NextMean(mean: real, xs: seq<real>, x: real)
    requires IsMean(mean, xs)
    ensures IsMean(Averaged(mean, x, |xs| + 1), xs + [x])
  {
    NewMean(mean, |xs|, Sum(xs), x);
    assert (xs + [x])[..|xs|] == xs;
  }

  lemma SyncMean(s: State)
    requires |s.timeBuffer| >= |s.lidarBuffer|
    ensures var u, x := Sync(s).0, NewLength(s);
      && |x| <= 1
      && u.scanNum == s.scanNum + |x|
      && u.mean == if x == [] then s.mean else Averaged(s.mean, x[0], s.scanNum + 1)
  {
    hide Taken, Length, Averaged;
  }
}
