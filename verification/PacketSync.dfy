/** The mapping node's sensor callbacks and `sync_packages`, on the globals they rewrite. */
module PacketSync {
  import opened Geometry
  import opened Packets
  import opened PacketRuns

  class MeasureGroup {
    var lidar: Scan
    var lidarBegTime: real
    var lidarEndTime: real
    var imu: seq<Imu>

    constructor ()
      ensures Value() == START.meas
    {
      lidar, lidarBegTime, lidarEndTime, imu := Scan(0, []), 0.0, 0.0, [];
    }

    ghost function Value(): Measure
      reads this
    {
      Measure(lidar, lidarBegTime, lidarEndTime, imu)
    }
  }

  class Mapping {
    const config: Config
    const meas: MeasureGroup
    var lidarBuffer: seq<Scan>
    var timeBuffer: seq<real>
    var imuBuffer: seq<Imu>
    var lastTimestampLidar: real
    var lastTimestampImu: real
    var isFirstLidar: bool
    var lidarPushed: bool
    var lidarEndTime: real
    var lidarMeanScantime: real
    var scanNum: nat
    var timediffLidarWrtImu: real
    var timediffSetFlg: bool
    /** Every call so far. */
    ghost var acts: seq<Action>

    ghost function Model(): State
      reads this, meas
    {
      State(lidarBuffer, timeBuffer, imuBuffer, lastTimestampLidar, lastTimestampImu, isFirstLidar, lidarPushed,
            lidarEndTime, lidarMeanScantime, scanNum, timediffLidarWrtImu, timediffSetFlg, meas.Value())
    }

    ghost predicate Valid()
      reads this, meas
    {
      Model() == Run(config, acts).s
    }

    constructor (c: Config)
      ensures Valid() && config == c && acts == [] && Model() == START && fresh(meas)
    {
      config := c;
      lidarBuffer, timeBuffer, imuBuffer := [], [], [];
      lastTimestampLidar, lastTimestampImu, isFirstLidar, lidarPushed := 0.0, -1.0, true, false;
      lidarEndTime, lidarMeanScantime, scanNum := 0.0, 0.0, 0;
      timediffLidarWrtImu, timediffSetFlg := 0.0, false;
      acts := [];
      meas := new MeasureGroup();
    }

    method StandardPclCbk(stamp: real, scan: Scan)
      requires Valid()
      modifies this
      ensures Valid() && acts == old(acts) + [StandardScan(stamp, scan)] && Model() == PushScan(old(Model()), stamp, scan)
      ensures timeBuffer == old(timeBuffer) + [stamp]
      ensures lidarBuffer == (if !old(isFirstLidar) && stamp < old(lastTimestampLidar) then [] else old(lidarBuffer)) + [scan]
    {
      RunNext(config, acts, StandardScan(stamp, scan));
      hide Run;
      if !isFirstLidar && stamp < lastTimestampLidar { lidarBuffer := []; }
      if isFirstLidar { isFirstLidar := false; }
      lidarBuffer := lidarBuffer + [scan];
      timeBuffer := timeBuffer + [stamp];
      lastTimestampLidar := stamp;
      acts := acts + [StandardScan(stamp, scan)];
    }

    method LivoxPclCbk(stamp: real, scan: Scan)
      requires Valid()
      modifies this
      ensures Valid() && acts == old(acts) + [LivoxScan(stamp, scan)] && Model() == LivoxPcl(config, old(Model()), stamp, scan)
      ensures timeBuffer == old(timeBuffer) + [stamp]
      ensures lidarBuffer == (if !old(isFirstLidar) && stamp < old(lastTimestampLidar) then [] else old(lidarBuffer)) + [scan]
      ensures ClockStep(config.timeSync && old(imuBuffer) != [], stamp - old(lastTimestampImu), old(timediffSetFlg),
                        old(timediffLidarWrtImu), timediffSetFlg, timediffLidarWrtImu)
    {
      OffsetFixed(config, Model(), stamp, scan);
      RunNext(config, acts, LivoxScan(stamp, scan));
      ClockFirst(config, Model(), stamp, scan);
      hide Run, SyncClock, Wellformed, ClockStep;
      if !isFirstLidar && stamp < lastTimestampLidar { lidarBuffer := []; }
      if isFirstLidar { isFirstLidar := false; }
      lastTimestampLidar := stamp;
      SelfSync();
      lidarBuffer := lidarBuffer + [scan];
      timeBuffer := timeBuffer + [stamp];
      acts := acts + [LivoxScan(stamp, scan)];
    }

    /** With self synchronisation on, the first scan far from the last sample fixes the offset. */
    method SelfSync()
      modifies `timediffSetFlg, `timediffLidarWrtImu
      ensures Model() == SyncClock(config, old(Model()), lastTimestampLidar)
    {
      if config.timeSync && !timediffSetFlg && Abs(lastTimestampLidar - lastTimestampImu) > 1.0 && imuBuffer != [] {
        timediffSetFlg := true;
        timediffLidarWrtImu := lastTimestampLidar + 0.1 - lastTimestampImu;
      }
    }

    method ImuCbk(msgIn: Imu)
      requires Valid()
      modifies this
      ensures Valid() && acts == old(acts) + [Sample(msgIn)] && Model() == PushImu(config, old(Model()), msgIn)
      ensures config.timeSync && (timediffLidarWrtImu > 0.1 || timediffLidarWrtImu < -0.1) ==>
        lastTimestampImu == msgIn.stamp + timediffLidarWrtImu
      ensures !(config.timeSync && (timediffLidarWrtImu > 0.1 || timediffLidarWrtImu < -0.1)) ==>
        lastTimestampImu == msgIn.stamp - config.imuLag
      ensures imuBuffer == (if lastTimestampImu < old(lastTimestampImu) then [] else old(imuBuffer))
                           + [Imu(lastTimestampImu, msgIn.id)]
    {
      RunNext(config, acts, Sample(msgIn));
      hide Run;
      var msg := msgIn.(stamp := msgIn.stamp - config.imuLag);
      if Abs(timediffLidarWrtImu) > 0.1 && config.timeSync { msg := msg.(stamp := timediffLidarWrtImu + msgIn.stamp); }
      if msg.stamp < lastTimestampImu { imuBuffer := []; }
      lastTimestampImu := msg.stamp;
      imuBuffer := imuBuffer + [msg];
      acts := acts + [Sample(msgIn)];
    }

    /** `sync_packages`: on success the group holds the oldest scan and the samples up to its end; no older
        sample stays behind. */
    method SyncPackages() returns (done: bool)
      requires Valid()
      modifies this, meas
      ensures Valid() && acts == old(acts) + [Poll] && (Model(), done) == Sync(old(Model()))
      ensures done ==>
        && Run(config, acts).handed == Run(config, old(acts)).handed + [meas.Value()]
        && meas.imu + imuBuffer == old(imuBuffer) && lidarBuffer == old(lidarBuffer[1..])
        && (forall m :: m in meas.imu ==> m.stamp <= lidarEndTime)
        && (forall m :: m in imuBuffer ==> m.stamp >= lidarEndTime)
        && OneAtEnd(meas.imu, imuBuffer, lidarEndTime)
      ensures !done ==> imuBuffer == old(imuBuffer) && lidarBuffer == old(lidarBuffer)
      ensures done <==> old(lidarBuffer) != [] && old(imuBuffer) != [] && old(lastTimestampImu) >= lidarEndTime
    {
      ghost var s := Model();
      RunNext(config, acts, Poll);
      PollMeans(config, Run(config, acts));
      hide *;
      done := Synchronise();
      acts := acts + [Poll];
    }

    method Synchronise() returns (done: bool)
      requires |timeBuffer| >= |lidarBuffer|
      modifies `lidarBuffer, `timeBuffer, `imuBuffer, `lidarPushed, `lidarEndTime, `lidarMeanScantime, `scanNum, meas
      ensures (Model(), done) == Sync(old(Model()))
    {
      hide Taken, TakeScan;
      if lidarBuffer == [] || imuBuffer == [] { return false; }
      if !lidarPushed { TakeFrontScan(); }
      if lastTimestampImu < lidarEndTime { return false; }
      CutSamples();
      lidarBuffer := lidarBuffer[1..];
      timeBuffer := timeBuffer[1..];
      lidarPushed := false;
      return true;
    }

    method TakeFrontScan()
      requires lidarBuffer != [] && timeBuffer != []
      modifies `scanNum, `lidarEndTime, `lidarMeanScantime, `lidarPushed, meas
      ensures Model() == TakeScan(old(Model())) && meas.imu == old(meas.imu)
    {
      meas.lidar := lidarBuffer[0];
      meas.lidarBegTime := timeBuffer[0];
      if |meas.lidar.curvature| <= 1 {
        lidarEndTime := meas.lidarBegTime + lidarMeanScantime;
      } else if Length(meas.lidar) < 0.5 * lidarMeanScantime {
        lidarEndTime := meas.lidarBegTime + lidarMeanScantime;
      } else {
        scanNum := scanNum + 1;
        lidarEndTime := meas.lidarBegTime + Length(meas.lidar);
        lidarMeanScantime := Averaged(lidarMeanScantime, Length(meas.lidar), scanNum);
      }
      meas.lidarEndTime := lidarEndTime;
      lidarPushed := true;
    }

    /** The loop that moves samples from the buffer to the group; its clock starts at the front sample. */
    method CutSamples()
      requires imuBuffer != []
      modifies `imuBuffer, meas`imu
      ensures var n := Taken(old(imuBuffer), lidarEndTime, old(imuBuffer)[0].stamp);
        meas.imu == old(imuBuffer)[..n] && imuBuffer == old(imuBuffer)[n..]
    {
      ghost var buf := imuBuffer;
      var imuTime := imuBuffer[0].stamp;
      ghost var n := Taken(buf, lidarEndTime, imuTime);
      ghost var k := 0;
      meas.imu := [];
      while imuBuffer != [] && imuTime < lidarEndTime
        invariant k <= n <= |buf| && meas.imu == buf[..k] && imuBuffer == buf[k..]
        invariant k + Taken(imuBuffer, lidarEndTime, imuTime) == n
        invariant lidarEndTime == old(lidarEndTime)
        decreases |imuBuffer|
      {
        imuTime := imuBuffer[0].stamp;
        if imuTime > lidarEndTime { break; }
        meas.imu := meas.imu + [imuBuffer[0]];
        imuBuffer := imuBuffer[1..];
        k := k + 1;
      }
    }
  }

  /** Whether the offset is fixed before or after the scan is buffered makes no difference. */
  lemma ClockFirst(c: Config, s: State, stamp: real, scan: Scan)
    ensures var kept := if !s.firstLidar && stamp < s.lastLidar then [] else s.lidarBuffer;
      var t := SyncClock(c, s.(lidarBuffer := kept, lastLidar := stamp, firstLidar := false), stamp);
      LivoxPcl(c, s, stamp, scan) == t.(lidarBuffer := t.lidarBuffer + [scan], timeBuffer := t.timeBuffer + [stamp])
  {
  }

  /** What a poll does to the run and, if it completes a package, to the buffers. */
  lemma PollMeans(c: Config, w: World)
    requires Wellformed(w.s)
    ensures var (u, done) := Sync(w.s);
      var x := Step(c, w, Poll);
      && x.s == u && x.handed == (if done then w.handed + [u.meas] else w.handed)
      && (if done then
            && w.s.lidarBuffer != [] && u.lidarBuffer == w.s.lidarBuffer[1..]
            && u.meas.imu + u.imuBuffer == w.s.imuBuffer
            && (forall m :: m in u.meas.imu ==> m.stamp <= u.endTime)
            && (forall m :: m in u.imuBuffer ==> m.stamp >= u.endTime)
            && OneAtEnd(u.meas.imu, u.imuBuffer, u.endTime)
          else u.imuBuffer == w.s.imuBuffer && u.lidarBuffer == w.s.lidarBuffer)
      && (done <==> w.s.lidarBuffer != [] && w.s.imuBuffer != [] && w.s.lastImu >= u.endTime)
  {
    PollReady(w.s);
    if Sync(w.s).1 { PackageExact(w.s); } else { WaitingPoll(w.s); }
    hide Sync, Wellformed, NewLength, Ready;
  }

  /** A package is completed exactly when both buffers hold something and the samples reach the scan's end. */
  lemma PollReady(s: State)
    requires |s.timeBuffer| >= |s.lidarBuffer|
    ensures var (u, done) := Sync(s);
      done <==> s.lidarBuffer != [] && s.imuBuffer != [] && s.lastImu >= u.endTime
  {
    hide Taken;
  }

  /** Once, with self synchronisation on and a sample waiting, a scan more than a second from the last
      sample sets the offset, so that this sample comes 0.1 s after the scan. */
  ghost predicate ClockStep(waiting: bool, gap: real, known: bool, offset: real, known': bool, offset': real) {
    if waiting && !known && (gap > 1.0 || gap < -1.0) then known' && offset' == gap + 0.1
    else known' == known && offset' == offset
  }

  lemma OffsetFixed(c: Config, s: State, stamp: real, scan: Scan)
    ensures var t := LivoxPcl(c, s, stamp, scan);
      ClockStep(c.timeSync && s.imuBuffer != [], stamp - s.lastImu, s.timediffSet, s.timediff, t.timediffSet, t.timediff)
  {
  }

  /** One more call at the end of a run. */
  lemma RunNext(c: Config, acts: seq<Action>, a: Action)
    ensures Run(c, acts + [a]) == Step(c, Run(c, acts), a) && Wellformed(Run(c, acts).s)
  {
    hide Step, Wellformed;
    assert (acts + [a])[..|acts|] == acts;
  }
}
