/** What a whole run of callbacks and polls hands out. */
module PacketRuns {
  import opened Packets

  /** The scans handed out, each with the stamp it was handed out with. */
  ghost function Given(handed: seq<Measure>): (r: seq<(Scan, real)>)
    ensures |r| == |handed|
  {
    if handed == [] then []
    else var m := handed[|handed| - 1]; Given(handed[..|handed| - 1]) + [(m.lidar, m.begTime)]
  }

  /** The samples handed out, batch after batch. */
  ghost function Batches(handed: seq<Measure>): seq<Imu> {
    if handed == [] then [] else Batches(handed[..|handed| - 1]) + handed[|handed| - 1].imu
  }

  ghost function Buffered(s: State): (r: seq<(Scan, real)>)
    requires |s.timeBuffer| >= |s.lidarBuffer|
    ensures |r| == |s.lidarBuffer|
  {
    seq(|s.lidarBuffer|, i requires 0 <= i < |s.lidarBuffer| => (s.lidarBuffer[i], s.timeBuffer[i]))
  }

  // ---- What a clock that jumps back loses ----

  predicate IsScan(a: Action) { a.StandardScan? || a.LivoxScan? }

  predicate LosesScan(s: State, a: Action) {
    IsScan(a) && !s.firstLidar && a.stamp < s.lastLidar && s.lidarBuffer != []
  }

  predicate StepsBack(c: Config, s: State, a: Action) { a.Sample? && Adjusted(c, s, a.m).stamp < s.lastImu }

  predicate LosesSample(c: Config, s: State, a: Action) { StepsBack(c, s, a) && s.imuBuffer != [] }

  /** No lidar stamp went back while a scan was waiting. */
  ghost predicate ScansKept(c: Config, acts: seq<Action>) {
    acts != [] ==> ScansKept(c, acts[..|acts| - 1]) && !LosesScan(Run(c, acts[..|acts| - 1]).s, acts[|acts| - 1])
  }

  /** No inertial stamp went back while a sample was waiting. */
  ghost predicate SamplesKept(c: Config, acts: seq<Action>) {
    acts != [] ==> SamplesKept(c, acts[..|acts| - 1]) && !LosesSample(c, Run(c, acts[..|acts| - 1]).s, acts[|acts| - 1])
  }

  /** No inertial stamp went back at all. */
  ghost predicate ImuForward(c: Config, acts: seq<Action>) {
    acts != [] ==> ImuForward(c, acts[..|acts| - 1]) && !StepsBack(c, Run(c, acts[..|acts| - 1]).s, acts[|acts| - 1])
  }

  // ---- Scans ----

  /** Everything received is handed out or waiting, in order, each scan with its own stamp. */
  ghost predicate ScansBalance(w: World)
    requires |w.s.timeBuffer| >= |w.s.lidarBuffer|
  {
    Given(w.handed) + Buffered(w.s) == w.scans
  }

  /** The scan in hand, if any, is the one at the front. */
  ghost predicate ScansGood(w: World) {
    && |w.s.timeBuffer| == |w.s.lidarBuffer|
    && ScansBalance(w)
    && (w.s.pushed ==> w.s.lidarBuffer != [] && w.s.meas.lidar == w.s.lidarBuffer[0] && w.s.meas.begTime == w.s.timeBuffer[0])
  }

  lemma PushScanGood(w: World, stamp: real, scan: Scan, x: World)
    requires ScansGood(w) && !LosesScan(w.s, StandardScan(stamp, scan))
    requires x.s == PushScan(w.s, stamp, scan) && x.handed == w.handed && x.scans == w.scans + [(scan, stamp)]
    ensures ScansGood(x)
  {
    assert x.s.lidarBuffer == w.s.lidarBuffer + [scan];
    assert Buffered(x.s) == Buffered(w.s) + [(scan, stamp)];
    assert Given(w.handed) + (Buffered(w.s) + [(scan, stamp)]) == Given(w.handed) + Buffered(w.s) + [(scan, stamp)];
  }

  lemma ClockKeepsScans(c: Config, s: State, stamp: real)
    ensures var u := SyncClock(c, s, stamp);
      && u.lidarBuffer == s.lidarBuffer && u.timeBuffer == s.timeBuffer && u.pushed == s.pushed && u.meas == s.meas
      && u.imuBuffer == s.imuBuffer && u.lastImu == s.lastImu
  {
  }

  lemma ScanStepGood(c: Config, w: World, a: Action)
    requires ScansGood(w) && IsScan(a) && !LosesScan(w.s, a)
    ensures ScansGood(Step(c, w, a))
  {
    var p := PushScan(w.s, a.stamp, a.scan);
    var x := w.(s := p, scans := w.scans + [(a.scan, a.stamp)]);
    PushScanGood(w, a.stamp, a.scan, x);
    hide PushScan, ScansBalance, SyncClock;
    if a.LivoxScan? {
      ClockKeepsScans(c, p, a.stamp);
      SameScans(x, Step(c, w, a));
    }
  }

  /** `ScansGood` is about the lidar side only. */
  lemma SameScans(x: World, y: World)
    requires ScansGood(x) && x.scans == y.scans && x.handed == y.handed
    requires x.s.lidarBuffer == y.s.lidarBuffer && x.s.timeBuffer == y.s.timeBuffer
    requires y.s.pushed ==> x.s.pushed && y.s.meas.lidar == x.s.meas.lidar && y.s.meas.begTime == x.s.meas.begTime
    ensures ScansGood(y)
  {
    assert Buffered(x.s) == Buffered(y.s);
  }

  lemma ReadyFront(s: State)
    requires s.lidarBuffer != [] && s.timeBuffer != []
    ensures var m := Ready(s).meas;
      if s.pushed then m == s.meas else m.lidar == s.lidarBuffer[0] && m.begTime == s.timeBuffer[0]
  {
  }

  /** A poll that completes nothing. */
  lemma WaitingPoll(s: State)
    requires |s.timeBuffer| >= |s.lidarBuffer| && !Sync(s).1
    ensures var u := Sync(s).0;
      && u.lidarBuffer == s.lidarBuffer && u.timeBuffer == s.timeBuffer && u.imuBuffer == s.imuBuffer
      && u.lastImu == s.lastImu
      && (u == s || (s.lidarBuffer != [] && u == Ready(s)))
  {
    if s.lidarBuffer != [] && s.imuBuffer != [] { ReadyShape(s); }
    hide Ready, Taken;
  }

  /** The lidar side of a completed package. */
  lemma PackageFront(s: State)
    requires |s.timeBuffer| >= |s.lidarBuffer| && Sync(s).1
    ensures var u := Sync(s).0;
      && s.lidarBuffer != [] && u.lidarBuffer == s.lidarBuffer[1..] && u.timeBuffer == s.timeBuffer[1..] && !u.pushed
      && u.meas.lidar == Ready(s).meas.lidar && u.meas.begTime == Ready(s).meas.begTime
  {
    PackageIs(s);
    hide Sync, Ready, Taken;
  }

  /** What a poll does to the run around the buffers. */
  lemma PollStep(c: Config, w: World)
    requires |w.s.timeBuffer| >= |w.s.lidarBuffer|
    ensures var x, u := Step(c, w, Poll), Sync(w.s).0;
      x.s == u && x.scans == w.scans && x.handed == if Sync(w.s).1 then w.handed + [u.meas] else w.handed
  {
    hide Sync, NewLength;
  }

  lemma PollScansGood(c: Config, w: World)
    requires Wellformed(w.s) && ScansGood(w)
    ensures ScansGood(Step(c, w, Poll))
  {
    var x := Step(c, w, Poll);
    WellformedGives(w.s);
    PollStep(c, w);
    hide Sync, Ready, NewLength, Step, Wellformed;
    if w.s.lidarBuffer != [] { ReadyFront(w.s); }
    if Sync(w.s).1 {
      PackageFront(w.s);
      HandedNext(w, x);
    } else {
      WaitingPoll(w.s);
      SameBuffers(w, x);
    }
  }

  lemma SameBuffers(w: World, x: World)
    requires ScansGood(w) && x.scans == w.scans && x.handed == w.handed
    requires x.s.lidarBuffer == w.s.lidarBuffer && x.s.timeBuffer == w.s.timeBuffer
    requires x.s.pushed ==> x.s.lidarBuffer != [] && x.s.meas.lidar == x.s.lidarBuffer[0] && x.s.meas.begTime == x.s.timeBuffer[0]
    ensures ScansGood(x)
  {
    assert Buffered(x.s) == Buffered(w.s);
  }

  lemma HandedNext(w: World, x: World)
    requires ScansGood(w) && x.scans == w.scans && w.s.lidarBuffer != [] && !x.s.pushed
    requires x.handed == w.handed + [x.s.meas]
    requires x.s.meas.lidar == w.s.lidarBuffer[0] && x.s.meas.begTime == w.s.timeBuffer[0]
    requires x.s.lidarBuffer == w.s.lidarBuffer[1..] && x.s.timeBuffer == w.s.timeBuffer[1..]
    ensures ScansGood(x)
  {
    var f := (w.s.lidarBuffer[0], w.s.timeBuffer[0]);
    assert x.handed[..|w.handed|] == w.handed;
    assert Given(x.handed) == Given(w.handed) + [f];
    assert Buffered(w.s) == [f] + Buffered(x.s);
    assert Given(w.handed) + [f] + Buffered(x.s) == Given(w.handed) + ([f] + Buffered(x.s));
  }

  /** Scans never multiply: once one is lost the balance cannot be made good. */
  lemma ScansCount(c: Config, w: World, a: Action)
    requires Wellformed(w.s) && |w.handed| + |w.s.lidarBuffer| <= |w.scans|
    ensures var x := Step(c, w, a);
      && |x.handed| + |x.s.lidarBuffer| <= |x.scans|
      && (LosesScan(w.s, a) || |w.handed| + |w.s.lidarBuffer| < |w.scans| ==> |x.handed| + |x.s.lidarBuffer| < |x.scans|)
  {
    hide Ready, Taken, NewLength, Adjusted, Sync;
    match a {
      case Poll => if Sync(w.s).1 { PackageExact(w.s); } else { WaitingPoll(w.s); }
      case _ =>
    }
  }

  lemma {:induction false} ScansCounted(c: Config, acts: seq<Action>)
    ensures var w := Run(c, acts);
      && |w.handed| + |w.s.lidarBuffer| <= |w.scans|
      && (!ScansKept(c, acts) ==> |w.handed| + |w.s.lidarBuffer| < |w.scans|)
    decreases |acts|
  {
    if acts != [] {
      var rest, a := acts[..|acts| - 1], acts[|acts| - 1];
      ScansCounted(c, rest);
      ScansCount(c, Run(c, rest), a);
      hide Step, LosesScan;
    }
  }

  lemma {:induction false} ScansRun(c: Config, acts: seq<Action>)
    requires ScansKept(c, acts)
    ensures ScansGood(Run(c, acts))
    decreases |acts|
  {
    if acts != [] {
      var rest, a := acts[..|acts| - 1], acts[|acts| - 1];
      var w := Run(c, rest);
      ScansRun(c, rest);
      hide Sync, PushScan, LivoxPcl, PushImu, Adjusted, NewLength, ScansBalance;
      match a {
        case Poll => PollScansGood(c, w);
        case Sample(m) => SampleKeepsScans(c, w, m);
        case _ => ScanStepGood(c, w, a);
      }
    }
  }

  lemma SampleKeepsScans(c: Config, w: World, m: Imu)
    requires ScansGood(w)
    ensures ScansGood(Step(c, w, Sample(m)))
  {
    var x := Step(c, w, Sample(m));
    hide Adjusted;
    SameScans(w, x);
  }

  /** Over every run: the scans received are exactly those handed out, followed by those waiting, in
      order and each with its own stamp, if and only if no lidar stamp went back while one waited. */
  lemma {:induction false} ScansHandedOnce(c: Config, acts: seq<Action>)
    ensures ScansBalance(Run(c, acts)) <==> ScansKept(c, acts)
  {
    if ScansKept(c, acts) {
      ScansRun(c, acts);
    } else {
      ScansCounted(c, acts);
    }
    hide Run, ScansKept;
  }

  /** It can happen: a second scan stamped before the first one, and the first is never handed out. */
  lemma {:induction false} ScanLost(c: Config, a: Scan, b: Scan)
    ensures !ScansKept(c, [StandardScan(1.0, a), StandardScan(0.5, b)])
    ensures !ScansBalance(Run(c, [StandardScan(1.0, a), StandardScan(0.5, b)]))
  {
    var acts := [StandardScan(1.0, a), StandardScan(0.5, b)];
    assert acts[..1] == [StandardScan(1.0, a)] && acts[..1][..0] == [];
    assert Run(c, acts[..1]).s == PushScan(START, 1.0, a);
    ScansHandedOnce(c, acts);
  }

  // ---- Stamps ----

  ghost function Begins(handed: seq<Measure>): (r: seq<real>)
    ensures |r| == |handed|
  {
    if handed == [] then [] else Begins(handed[..|handed| - 1]) + [handed[|handed| - 1].begTime]
  }

  ghost function StampsOf(scans: seq<(Scan, real)>): (r: seq<real>)
    ensures |r| == |scans|
  {
    if scans == [] then [] else StampsOf(scans[..|scans| - 1]) + [scans[|scans| - 1].1]
  }

  /** Every stamp received was handed out with some scan or waits, in order, lost scans' stamps included. */
  ghost predicate StampsBalance(w: World) { Begins(w.handed) + w.s.timeBuffer == StampsOf(w.scans) }

  ghost predicate StampsGood(w: World) {
    StampsBalance(w) && (w.s.pushed ==> w.s.timeBuffer != [] && w.s.meas.begTime == w.s.timeBuffer[0])
  }

  lemma ScanStamps(c: Config, w: World, a: Action)
    requires StampsGood(w) && IsScan(a) && |w.s.timeBuffer| >= |w.s.lidarBuffer|
    ensures StampsGood(Step(c, w, a))
  {
    var x := Step(c, w, a);
    ClockKeepsScans(c, PushScan(w.s, a.stamp, a.scan), a.stamp);
    hide SyncClock;
    assert x.scans == w.scans + [(a.scan, a.stamp)] && x.scans[..|w.scans|] == w.scans;
    assert x.s.timeBuffer == w.s.timeBuffer + [a.stamp];
    assert Begins(w.handed) + (w.s.timeBuffer + [a.stamp]) == Begins(w.handed) + w.s.timeBuffer + [a.stamp];
  }

  lemma PollStamps(c: Config, w: World)
    requires StampsGood(w) && Wellformed(w.s)
    ensures StampsGood(Step(c, w, Poll))
  {
    var s, u, x := w.s, Sync(w.s).0, Step(c, w, Poll);
    WellformedGives(s);
    PollStep(c, w);
    hide Sync, Ready, NewLength, Step, Wellformed;
    if s.lidarBuffer != [] { ReadyFront(s); }
    if Sync(s).1 {
      PackageFront(s);
      assert x.handed[..|w.handed|] == w.handed;
      assert s.timeBuffer == [u.meas.begTime] + u.timeBuffer;
      assert Begins(w.handed) + ([u.meas.begTime] + u.timeBuffer) == Begins(w.handed) + [u.meas.begTime] + u.timeBuffer;
    } else {
      WaitingPoll(s);
    }
  }

  /** Over every run the stamps handed out and then those waiting are exactly those received, in order.
      So once a waiting scan is lost there are more stamps than scans waiting, for good: every scan from
      then on is handed out with the stamp of an earlier one. */
  lemma {:induction false} StampsInOrder(c: Config, acts: seq<Action>)
    ensures StampsBalance(Run(c, acts))
    ensures !ScansKept(c, acts) ==> |Run(c, acts).s.timeBuffer| > |Run(c, acts).s.lidarBuffer|
  {
    StampsRun(c, acts);
    ScansCounted(c, acts);
    hide Run, ScansKept, ScansBalance;
    var w := Run(c, acts);
    assert |Begins(w.handed) + w.s.timeBuffer| == |w.scans|;
  }

  lemma {:induction false} StampsRun(c: Config, acts: seq<Action>)
    ensures StampsGood(Run(c, acts))
    decreases |acts|
  {
    if acts != [] {
      var rest, a := acts[..|acts| - 1], acts[|acts| - 1];
      StampsRun(c, rest);
      var w := Run(c, rest);
      WellformedGives(w.s);
      hide StampsGood, Step, Wellformed;
      match a {
        case Sample(m) => SampleStamps(c, w, m);
        case Poll => PollStamps(c, w);
        case _ => ScanStamps(c, w, a);
      }
    }
  }

  lemma SampleStamps(c: Config, w: World, m: Imu)
    requires StampsGood(w) && |w.s.timeBuffer| >= |w.s.lidarBuffer|
    ensures StampsGood(Step(c, w, Sample(m)))
  {
    hide Adjusted;
  }

  // ---- Samples ----

  ghost predicate SamplesBalance(w: World) { Batches(w.handed) + w.s.imuBuffer == w.samples }

  /** Samples received and neither handed out nor waiting. */
  ghost function Missing(w: World): int { |w.samples| - |Batches(w.handed)| - |w.s.imuBuffer| }

  lemma SamplesStep(c: Config, w: World, a: Action)
    requires Wellformed(w.s)
    ensures var x := Step(c, w, a);
      && (SamplesBalance(w) && !LosesSample(c, w.s, a) ==> SamplesBalance(x))
      && Missing(x) >= Missing(w) + (if LosesSample(c, w.s, a) then 1 else 0)
  {
    var x := Step(c, w, a);
    hide Sync, NewLength, PushImu, Adjusted, SyncClock, SamplesBalance, Missing, LosesSample;
    NoLoss(c, w.s, a);
    match a {
      case Poll => PollSamples(w, x);
      case Sample(m) => SampleStep(c, w, m);
      case LivoxScan(stamp, scan) =>
        ClockKeepsScans(c, PushScan(w.s, stamp, scan), stamp);
        SameStream(w, x);
      case _ => SameStream(w, x);
    }
  }

  lemma NoLoss(c: Config, s: State, a: Action)
    ensures !a.Sample? ==> !LosesSample(c, s, a)
  {
  }

  lemma SameStream(w: World, x: World)
    requires x.handed == w.handed && x.s.imuBuffer == w.s.imuBuffer && x.samples == w.samples
    ensures (SamplesBalance(w) ==> SamplesBalance(x)) && Missing(x) == Missing(w)
  {
  }

  lemma PollSamples(w: World, x: World)
    requires Wellformed(w.s) && x.s == Sync(w.s).0 && x.samples == w.samples
    requires x.handed == if Sync(w.s).1 then w.handed + [x.s.meas] else w.handed
    ensures (SamplesBalance(w) ==> SamplesBalance(x)) && Missing(x) == Missing(w)
  {
    hide *;
    SortedBuffer(w.s);
    if Sync(w.s).1 {
      PackageExact(w.s);
      PackageSamples(w, x);
    } else {
      WaitingPoll(w.s);
      SameStream(w, x);
    }
  }

  lemma PackageSamples(w: World, x: World)
    requires x.handed == w.handed + [x.s.meas] && x.samples == w.samples
    requires x.s.meas.imu + x.s.imuBuffer == w.s.imuBuffer
    ensures (SamplesBalance(w) ==> SamplesBalance(x)) && Missing(x) == Missing(w)
  {
    hide Batches;
    BatchNext(w.handed, x.s.meas);
    assert Batches(w.handed) + x.s.meas.imu + x.s.imuBuffer == Batches(w.handed) + (x.s.meas.imu + x.s.imuBuffer);
  }

  lemma SampleStep(c: Config, w: World, m: Imu)
    requires Wellformed(w.s)
    ensures var x := Step(c, w, Sample(m));
      && (SamplesBalance(w) && !LosesSample(c, w.s, Sample(m)) ==> SamplesBalance(x))
      && Missing(x) >= Missing(w) + (if LosesSample(c, w.s, Sample(m)) then 1 else 0)
  {
    hide Adjusted, Batches, Wellformed;
    var b := Adjusted(c, w.s, m);
    assert Batches(w.handed) + (w.s.imuBuffer + [b]) == Batches(w.handed) + w.s.imuBuffer + [b];
  }

  lemma BatchNext(handed: seq<Measure>, m: Measure)
    ensures Batches(handed + [m]) == Batches(handed) + m.imu
  {
    assert (handed + [m])[..|handed|] == handed;
  }

  lemma {:induction false} SamplesRun(c: Config, acts: seq<Action>)
    ensures var w := Run(c, acts);
      && Missing(w) >= 0
      && (SamplesKept(c, acts) ==> SamplesBalance(w))
      && (!SamplesKept(c, acts) ==> Missing(w) > 0)
    decreases |acts|
  {
    if acts != [] {
      var rest, a := acts[..|acts| - 1], acts[|acts| - 1];
      SamplesRun(c, rest);
      SamplesStep(c, Run(c, rest), a);
      hide Step, LosesSample, SamplesBalance, Missing;
    }
  }

  /** Over every run: the batches handed out, put end to end, and then the buffer are exactly the stream
      of samples received if and only if no inertial stamp went back while a sample waited. */
  lemma {:induction false} SamplesHandedOnce(c: Config, acts: seq<Action>)
    ensures SamplesBalance(Run(c, acts)) <==> SamplesKept(c, acts)
  {
    SamplesRun(c, acts);
    hide Run, SamplesKept, Batches;
  }

  /** It can happen: a second sample stamped before the first one, on any clock. */
  lemma {:induction false} SampleLost(c: Config)
    ensures !SamplesKept(c, [Sample(Imu(1.0, 0)), Sample(Imu(0.5, 1))])
    ensures !SamplesBalance(Run(c, [Sample(Imu(1.0, 0)), Sample(Imu(0.5, 1))]))
  {
    var acts := [Sample(Imu(1.0, 0)), Sample(Imu(0.5, 1))];
    assert acts[..1] == [Sample(Imu(1.0, 0))] && acts[..1][..0] == [];
    assert Run(c, acts[..1]).s == PushImu(c, START, Imu(1.0, 0));
    SamplesHandedOnce(c, acts);
  }

  // ---- The two clocks ----

  /** The samples as they arrived. */
  ghost function Received(acts: seq<Action>): seq<Imu> {
    if acts == [] then []
    else
      var a := acts[|acts| - 1];
      Received(acts[..|acts| - 1]) + (if a.Sample? then [a.m] else [])
  }

  /** The offset is zero until it is set, and then puts some sample 0.1 s after some scan that was more
      than a second away from it. */
  ghost predicate OffsetExplained(c: Config, w: World) {
    if w.s.timediffSet then c.timeSync && exists i: nat, j: nat :: Aligns(w, i, j) else w.s.timediff == 0.0
  }

  ghost predicate Aligns(w: World, i: nat, j: nat) {
    && i < |w.scans| && j < |w.samples|
    && w.samples[j].stamp + w.s.timediff == w.scans[i].1 + 0.1
    && (w.scans[i].1 - w.samples[j].stamp > 1.0 || w.samples[j].stamp - w.scans[i].1 > 1.0)
  }

  /** The last sample's stamp is remembered. */
  ghost predicate LastKnown(w: World) {
    && (w.s.imuBuffer != [] ==> w.samples != [])
    && (w.samples != [] ==> w.s.lastImu == w.samples[|w.samples| - 1].stamp)
  }

  /** The first `n` samples were moved back by the configured lag, the others on by the offset. */
  ghost predicate CorrectedFrom(c: Config, raw: seq<Imu>, w: World, n: nat) {
    && n <= |raw| == |w.samples|
    && (forall k :: 0 <= k < n ==> w.samples[k] == raw[k].(stamp := raw[k].stamp - c.imuLag))
    && (forall k :: n <= k < |raw| ==> w.samples[k] == raw[k].(stamp := raw[k].stamp + w.s.timediff))
    && (n < |raw| ==> c.timeSync && w.s.timediffSet && (w.s.timediff > 0.1 || w.s.timediff < -0.1))
  }

  ghost predicate ClocksHold(c: Config, raw: seq<Imu>, w: World) {
    LastKnown(w) && OffsetExplained(c, w) && exists n: nat :: CorrectedFrom(c, raw, w, n)
  }

  lemma ScanClocks(c: Config, raw: seq<Imu>, w: World, a: Action)
    requires ClocksHold(c, raw, w) && IsScan(a) && |w.s.timeBuffer| >= |w.s.lidarBuffer|
    ensures ClocksHold(c, raw, Step(c, w, a))
  {
    var n: nat :| CorrectedFrom(c, raw, w, n);
    var x := Step(c, w, a);
    assert CorrectedFrom(c, raw, x, n);
    if x.s.timediffSet {
      if w.s.timediffSet {
        var i: nat, j: nat :| Aligns(w, i, j);
        assert Aligns(x, i, j);
      } else {
        assert Aligns(x, |w.scans|, |w.samples| - 1);
      }
    }
  }

  lemma SampleClocks(c: Config, raw: seq<Imu>, w: World, m: Imu)
    requires ClocksHold(c, raw, w) && |w.s.timeBuffer| >= |w.s.lidarBuffer|
    ensures ClocksHold(c, raw + [m], Step(c, w, Sample(m)))
  {
    var n: nat :| CorrectedFrom(c, raw, w, n);
    var x := Step(c, w, Sample(m));
    OffsetUsed(c, w, m);
    hide Adjusted;
    assert CorrectedFrom(c, raw + [m], x, if x.samples[|raw|].stamp == m.stamp - c.imuLag && n == |raw| then n + 1 else n);
    if w.s.timediffSet {
      var i: nat, j: nat :| Aligns(w, i, j);
      assert Aligns(x, i, j);
    }
  }

  lemma OffsetUsed(c: Config, w: World, m: Imu)
    requires OffsetExplained(c, w)
    ensures var far := w.s.timediff > 0.1 || w.s.timediff < -0.1;
      && Adjusted(c, w.s, m) == m.(stamp := if c.timeSync && far then m.stamp + w.s.timediff else m.stamp - c.imuLag)
      && (far ==> w.s.timediffSet)
  {
  }

  lemma PollClocks(c: Config, raw: seq<Imu>, w: World)
    requires ClocksHold(c, raw, w) && Wellformed(w.s)
    ensures ClocksHold(c, raw, Step(c, w, Poll))
  {
    var n: nat :| CorrectedFrom(c, raw, w, n);
    var x := Step(c, w, Poll);
    PollKeepsClock(w.s);
    hide Sync, NewLength;
    assert CorrectedFrom(c, raw, x, n);
    if w.s.timediffSet {
      var i: nat, j: nat :| Aligns(w, i, j);
      assert Aligns(x, i, j);
    }
  }

  lemma PollKeepsClock(s: State)
    requires |s.timeBuffer| >= |s.lidarBuffer|
    ensures var u := Sync(s).0;
      && u.lastImu == s.lastImu && u.timediff == s.timediff && u.timediffSet == s.timediffSet
      && (u.imuBuffer != [] ==> s.imuBuffer != [])
  {
    hide Taken;
  }

  /** Over every run: each sample is recorded at the stamp it arrived with less the configured lag, up to
      some point, and from there on at that stamp plus one offset between the clocks, which lines up a
      sample with a scan. */
  lemma {:induction false} ClocksOfRun(c: Config, acts: seq<Action>)
    ensures ClocksHold(c, Received(acts), Run(c, acts))
    decreases |acts|
  {
    if acts == [] {
      assert CorrectedFrom(c, [], EMPTY, 0);
    } else {
      var rest, a := acts[..|acts| - 1], acts[|acts| - 1];
      ClocksOfRun(c, rest);
      hide ClocksHold, Step, Wellformed;
      WellformedGives(Run(c, rest).s);
      match a {
        case Sample(m) => SampleClocks(c, Received(rest), Run(c, rest), m);
        case Poll => PollClocks(c, Received(rest), Run(c, rest)); assert Received(acts) == Received(rest);
        case _ => ScanClocks(c, Received(rest), Run(c, rest), a); assert Received(acts) == Received(rest);
      }
    }
  }

  lemma WellformedGives(s: State)
    requires Wellformed(s)
    ensures |s.timeBuffer| >= |s.lidarBuffer|
  {
  }

  // ---- A sample belongs to one scan ----

  /** No sample handed out or waiting is older than the end of a scan already handed out. */
  ghost predicate Separated(w: World) {
    && (forall i, j :: 0 <= i < j < |w.handed| ==> NotBefore(w.handed[j].imu, w.handed[i].endTime))
    && (forall i :: 0 <= i < |w.handed| ==>
          w.handed[i].endTime <= w.s.lastImu && NotBefore(w.s.imuBuffer, w.handed[i].endTime))
  }

  ghost predicate NotBefore(ms: seq<Imu>, t: real) { forall m :: m in ms ==> m.stamp >= t }

  lemma PollSeparated(w: World, x: World)
    requires Separated(w) && x.s.lastImu >= x.s.meas.endTime && x.s.lastImu == w.s.lastImu
    requires x.handed == w.handed + [x.s.meas] && x.s.meas.imu + x.s.imuBuffer == w.s.imuBuffer
    requires NotBefore(x.s.imuBuffer, x.s.meas.endTime)
    ensures Separated(x)
  {
    var n := |w.handed|;
    forall i | 0 <= i < n
      ensures NotBefore(x.s.meas.imu, w.handed[i].endTime) && NotBefore(x.s.imuBuffer, w.handed[i].endTime)
    {
      assert NotBefore(w.s.imuBuffer, w.handed[i].endTime);
      assert forall m :: m in x.s.meas.imu || m in x.s.imuBuffer ==> m in w.s.imuBuffer;
    }
  }

  lemma SampleSeparated(c: Config, w: World, m: Imu)
    requires Wellformed(w.s) && Separated(w) && !StepsBack(c, w.s, Sample(m))
    ensures Separated(Step(c, w, Sample(m)))
  {
    hide Adjusted;
    var x := Step(c, w, Sample(m));
    forall i | 0 <= i < |w.handed| ensures NotBefore(x.s.imuBuffer, w.handed[i].endTime) {
      assert NotBefore(w.s.imuBuffer, w.handed[i].endTime);
    }
  }

  lemma SameSamples(w: World, x: World)
    requires Separated(w) && x.handed == w.handed && x.s.imuBuffer == w.s.imuBuffer && x.s.lastImu == w.s.lastImu
    ensures Separated(x)
  {
  }

  /** The end of the scan in hand is the one announced with it. */
  lemma {:induction false} EndAgrees(c: Config, acts: seq<Action>)
    ensures var s := Run(c, acts).s; s.pushed ==> s.meas.endTime == s.endTime
    decreases |acts|
  {
    if acts != [] {
      var rest, a := acts[..|acts| - 1], acts[|acts| - 1];
      EndAgrees(c, rest);
      EndStep(c, Run(c, rest), a);
      hide Step;
    }
  }

  lemma EndStep(c: Config, w: World, a: Action)
    requires |w.s.timeBuffer| >= |w.s.lidarBuffer| && (w.s.pushed ==> w.s.meas.endTime == w.s.endTime)
    ensures var s := Step(c, w, a).s; s.pushed ==> s.meas.endTime == s.endTime
  {
    hide Taken, Averaged, Length, Accepted, Adjusted;
  }

  lemma ReadyEnd(s: State)
    requires s.lidarBuffer != [] && s.timeBuffer != [] && (s.pushed ==> s.meas.endTime == s.endTime)
    ensures Ready(s).meas.endTime == Ready(s).endTime
  {
  }

  lemma StepSeparated(c: Config, w: World, a: Action)
    requires Wellformed(w.s) && Separated(w) && !StepsBack(c, w.s, a)
    requires w.s.pushed ==> w.s.meas.endTime == w.s.endTime
    ensures Separated(Step(c, w, a))
  {
    var x := Step(c, w, a);
    hide Ready, Taken, NewLength, Sync, Adjusted, Separated;
    match a {
      case Poll =>
        if Sync(w.s).1 {
          PackageExact(w.s);
          ReadyEnd(w.s);
          PollSeparated(w, x);
        } else {
          WaitingPoll(w.s);
          SameSamples(w, x);
        }
      case Sample(m) => SampleSeparated(c, w, m);
      case LivoxScan(stamp, scan) =>
        ClockKeepsScans(c, PushScan(w.s, stamp, scan), stamp);
        SameSamples(w, x);
      case _ => SameSamples(w, x);
    }
  }

  /** Over every run without a backward inertial stamp: no sample in a batch is earlier than the end of
      any scan handed out before, so the scans' batches do not overlap in time. */
  lemma {:induction false} BatchesSeparated(c: Config, acts: seq<Action>)
    requires ImuForward(c, acts)
    ensures Separated(Run(c, acts))
    decreases |acts|
  {
    if acts != [] {
      var rest, a := acts[..|acts| - 1], acts[|acts| - 1];
      BatchesSeparated(c, rest);
      EndAgrees(c, rest);
      StepSeparated(c, Run(c, rest), a);
      hide Step, StepsBack, Separated;
    }
  }

  // ---- When a scan ends ----

  /** `mean` is that of the first `k` accepted lengths, in seconds. By it the scan lasts its own length,
      the offset of its last point in milliseconds, which is then the next accepted one; or, with a single
      point or with less than half the mean, it is taken to last the mean. */
  ghost predicate Explains(m: Measure, lengths: seq<real>, k: nat, mean: real) {
    && k <= |lengths| && IsMean(mean, lengths[..k])
    && var n := |m.lidar.curvature|;
    if n > 1 && m.lidar.curvature[n - 1] >= 500.0 * mean then
      k < |lengths| && 1000.0 * lengths[k] == m.lidar.curvature[n - 1] && m.endTime - m.begTime == lengths[k]
    else m.endTime - m.begTime == mean
  }

  ghost predicate Explained(m: Measure, lengths: seq<real>) { exists k: nat, mean: real :: Explains(m, lengths, k, mean) }

  lemma MoreLengths(m: Measure, lengths: seq<real>, more: seq<real>)
    requires Explained(m, lengths)
    ensures Explained(m, lengths + more)
  {
    hide IsMean, Accepted, Length;
    var k: nat, mean: real :| Explains(m, lengths, k, mean);
    assert (lengths + more)[..k] == lengths[..k];
    assert Explains(m, lengths + more, k, mean);
  }

  lemma TakenExplained(w: World)
    requires w.s.lidarBuffer != [] && w.s.timeBuffer != [] && MeanHolds(w)
    ensures var x := if Accepted(w.s.lidarBuffer[0], w.s.mean) then [Length(w.s.lidarBuffer[0])] else [];
      Explained(TakeScan(w.s).meas, w.lengths + x)
  {
    hide IsMean, Averaged;
    var x := if Accepted(w.s.lidarBuffer[0], w.s.mean) then [Length(w.s.lidarBuffer[0])] else [];
    assert (w.lengths + x)[..|w.lengths|] == w.lengths;
    assert Explains(TakeScan(w.s).meas, w.lengths + x, |w.lengths|, w.s.mean);
  }

  /** The samples of a measure play no part in when it ends. */
  lemma BatchAside(m: Measure, batch: seq<Imu>, lengths: seq<real>)
    requires Explained(m, lengths)
    ensures Explained(m.(imu := batch), lengths)
  {
    hide IsMean, Accepted, Length;
    var k: nat, mean: real :| Explains(m, lengths, k, mean);
    assert Explains(m.(imu := batch), lengths, k, mean);
  }

  ghost predicate EndsExplained(w: World) {
    && (w.s.pushed ==> Explained(w.s.meas, w.lengths))
    && (forall i :: 0 <= i < |w.handed| ==> Explained(w.handed[i], w.lengths))
  }

  /** The scan in hand during a poll. */
  lemma ReadyExplained(w: World)
    requires w.s.lidarBuffer != [] && w.s.imuBuffer != [] && |w.s.timeBuffer| >= |w.s.lidarBuffer|
    requires MeanHolds(w) && EndsExplained(w)
    ensures Explained(Ready(w.s).meas, w.lengths + NewLength(w.s))
  {
    hide Explained, MeanHolds, TakeScan, Length, Accepted;
    if w.s.pushed { MoreLengths(w.s.meas, w.lengths, NewLength(w.s)); } else { TakenExplained(w); }
  }

  lemma NoNewLength(s: State)
    requires |s.timeBuffer| >= |s.lidarBuffer| && (s.lidarBuffer == [] || s.imuBuffer == [])
    ensures Sync(s) == (s, false) && NewLength(s) == []
  {
  }

  lemma SyncMeas(s: State)
    requires |s.timeBuffer| >= |s.lidarBuffer| && s.lidarBuffer != [] && s.imuBuffer != []
    ensures var (u, done) := Sync(s);
      u.meas == Ready(s).meas.(imu := u.meas.imu) && u.pushed == !done
  {
    ReadyShape(s);
    hide Ready, Taken;
  }

  lemma PollExplained(w: World, x: World)
    requires |w.s.timeBuffer| >= |w.s.lidarBuffer| && MeanHolds(w) && EndsExplained(w)
    requires x.s == Sync(w.s).0 && x.lengths == w.lengths + NewLength(w.s)
    requires x.handed == if Sync(w.s).1 then w.handed + [x.s.meas] else w.handed
    ensures EndsExplained(x)
  {
    hide MeanHolds, Sync, NewLength, Explained, Ready;
    forall i | 0 <= i < |w.handed| ensures Explained(w.handed[i], x.lengths) {
      MoreLengths(w.handed[i], w.lengths, NewLength(w.s));
    }
    if w.s.lidarBuffer == [] || w.s.imuBuffer == [] {
      NoNewLength(w.s);
      assert x.lengths == w.lengths;
    } else {
      ReadyExplained(w);
      SyncMeas(w.s);
      BatchAside(Ready(w.s).meas, x.s.meas.imu, x.lengths);
    }
  }

  lemma OtherExplained(w: World, x: World)
    requires EndsExplained(w) && x.handed == w.handed && x.lengths == w.lengths
    requires x.s.pushed == w.s.pushed && x.s.meas == w.s.meas
    ensures EndsExplained(x)
  {
  }

  lemma StepExplained(c: Config, w: World, a: Action)
    requires |w.s.timeBuffer| >= |w.s.lidarBuffer| && MeanHolds(w) && EndsExplained(w)
    ensures EndsExplained(Step(c, w, a))
  {
    hide MeanHolds, EndsExplained, Sync, NewLength, Adjusted;
    if a.Poll? { PollExplained(w, Step(c, w, a)); } else { OtherExplained(w, Step(c, w, a)); }
  }

  /** Over every run each scan handed out ends where it should: at its own length past its stamp, or, if
      that is under half the mean of the lengths accepted before, at that mean past it. */
  lemma {:induction false} ScansEnd(c: Config, acts: seq<Action>)
    ensures forall m :: m in Run(c, acts).handed ==> Explained(m, Run(c, acts).lengths)
  {
    ScansEndRun(c, acts);
  }

  lemma {:induction false} ScansEndRun(c: Config, acts: seq<Action>)
    ensures EndsExplained(Run(c, acts))
    decreases |acts|
  {
    if acts != [] {
      var rest, a := acts[..|acts| - 1], acts[|acts| - 1];
      ScansEndRun(c, rest);
      TrueMean(c, rest);
      StepExplained(c, Run(c, rest), a);
      hide Step, EndsExplained, MeanHolds;
    }
  }
}
