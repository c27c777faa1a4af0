/** Framing of the desk's serial line: bytes in, frames and heights out. */
module SerialFrames {
  import opened Geometry

  type Byte = b: int | 0 <= b < 256

  const HEAD: Byte := 0xAA
  const TAIL: Byte := 0xFF
  const DOT: Byte := 46

  // ---- Framing ----

  /** Position of the first `v`. */
  function IndexOf(s: seq<Byte>, v: Byte): (i: nat)
    requires v in s
    ensures i < |s| && s[i] == v && v !in s[..i]
  {
    if s[0] == v then 0 else 1 + IndexOf(s[1..], v)
  }

  datatype Drained = Drained(frames: seq<seq<Byte>>, rest: seq<Byte>)

  /** What the inner loop makes of the buffer: the frames found, and what is kept. */
  function Drain(buf: seq<Byte>): Drained
    decreases |buf|
  {
    if |buf| < 5 then Drained([], buf)
    else if buf[0] != HEAD then Drain(buf[1..])
    else if TAIL in buf then
      var e := IndexOf(buf, TAIL);
      var d := Drain(buf[e + 1..]);
      Drained([buf[..e + 1]] + d.frames, d.rest)
    else Drained([], buf)
  }

  /** Reads arriving one after the other, each drained before the next. */
  function Feed(buf: seq<Byte>, chunks: seq<seq<Byte>>): Drained
    decreases |chunks|
  {
    if chunks == [] then Drained([], buf)
    else
      var d := Drain(buf + chunks[0]);
      var f := Feed(d.rest, chunks[1..]);
      Drained(d.frames + f.frames, f.rest)
  }

  function Concat(chunks: seq<seq<Byte>>): seq<Byte> { if chunks == [] then [] else chunks[0] + Concat(chunks[1..]) }

  lemma {:induction false} FirstStays(s: seq<Byte>, t: seq<Byte>, v: Byte)
    requires v in s
    ensures v in s + t && IndexOf(s + t, v) == IndexOf(s, v)
  {
    assert (s + t)[IndexOf(s, v)] == v;
    if s[0] != v {
      FirstStays(s[1..], t, v);
      assert (s + t)[1..] == s[1..] + t;
    }
  }

  /** Bytes that arrive later cannot undo what was found before. */
  lemma {:induction false} DrainThenMore(b: seq<Byte>, c: seq<Byte>)
    ensures var d := Drain(b);
      var f := Drain(d.rest + c);
      Drain(b + c) == Drained(d.frames + f.frames, f.rest)
    decreases |b|
  {
    hide Drain, IndexOf;
    DrainShort(b);
    if |b| >= 5 && b[0] != HEAD {
      DrainSkips(b);
      DrainSkips(b + c);
      DrainThenMore(b[1..], c);
      assert (b + c)[1..] == b[1..] + c;
    } else if |b| >= 5 && TAIL in b {
      var e := IndexOf(b, TAIL);
      FirstStays(b, c, TAIL);
      DrainCuts(b);
      DrainCuts(b + c);
      DrainThenMore(b[e + 1..], c);
      assert (b + c)[..e + 1] == b[..e + 1] && (b + c)[e + 1..] == b[e + 1..] + c;
    } else {
      assert Drain(b) == Drained([], b);
    }
  }

  lemma DrainShort(b: seq<Byte>)
    ensures |b| < 5 || (b[0] == HEAD && TAIL !in b) ==> Drain(b) == Drained([], b)
  {
  }

  lemma DrainSkips(b: seq<Byte>)
    requires |b| >= 5 && b[0] != HEAD
    ensures Drain(b) == Drain(b[1..])
  {
  }

  lemma DrainCuts(b: seq<Byte>)
    requires |b| >= 5 && b[0] == HEAD && TAIL in b
    ensures var e := IndexOf(b, TAIL);
      Drain(b) == Drained([b[..e + 1]] + Drain(b[e + 1..]).frames, Drain(b[e + 1..]).rest)
  {
  }

  lemma {:induction false} DrainAgain(b: seq<Byte>)
    ensures Drain(Drain(b).rest) == Drained([], Drain(b).rest)
    decreases |b|
  {
    if |b| < 5 {
    } else if b[0] != HEAD {
      DrainAgain(b[1..]);
    } else if TAIL in b {
      DrainAgain(b[IndexOf(b, TAIL) + 1..]);
    }
  }

  /** However a stream is cut into chunks, the frames and the final buffer are those of the whole stream. */
  lemma {:induction false} ChunkingIrrelevant(buf: seq<Byte>, chunks: seq<seq<Byte>>)
    requires Drain(buf) == Drained([], buf)
    ensures Feed(buf, chunks) == Drain(buf + Concat(chunks))
    decreases |chunks|
  {
    hide Drain;
    if chunks == [] {
      assert buf + [] == buf;
    } else {
      var d := Drain(buf + chunks[0]);
      DrainAgain(buf + chunks[0]);
      ChunkingIrrelevant(d.rest, chunks[1..]);
      DrainThenMore(buf + chunks[0], Concat(chunks[1..]));
      assert buf + chunks[0] + Concat(chunks[1..]) == buf + Concat(chunks);
    }
  }

  // ---- Recovery of frames ----

  /** At least five bytes, the first a head and the last the only tail. */
  predicate IsFrame(f: seq<Byte>) { |f| >= 5 && f[0] == HEAD && f[|f| - 1] == TAIL && TAIL !in f[..|f| - 1] }

  /** Frames, each after some noise free of heads. */
  datatype Burst = Burst(noise: seq<Byte>, frame: seq<Byte>)

  predicate IsBurst(b: Burst) { HEAD !in b.noise && IsFrame(b.frame) }

  function Sent(bursts: seq<Burst>): seq<Byte> {
    if bursts == [] then [] else bursts[0].noise + bursts[0].frame + Sent(bursts[1..])
  }

  function FramesOf(bursts: seq<Burst>): seq<seq<Byte>> {
    if bursts == [] then [] else [bursts[0].frame] + FramesOf(bursts[1..])
  }

  lemma {:induction false} NoiseSkipped(g: seq<Byte>, s: seq<Byte>)
    requires HEAD !in g && |s| >= 5
    ensures Drain(g + s) == Drain(s)
    decreases |g|
  {
    if g == [] {
      assert g + s == s;
    } else {
      assert (g + s)[0] == g[0] && (g + s)[1..] == g[1..] + s;
      NoiseSkipped(g[1..], s);
    }
  }

  lemma FrameFound(f: seq<Byte>, s: seq<Byte>)
    requires IsFrame(f)
    ensures Drain(f + s) == Drained([f] + Drain(s).frames, Drain(s).rest)
  {
    FirstStays(f, s, TAIL);
    var e := IndexOf(f, TAIL);
    assert forall k :: 0 <= k < |f| - 1 ==> f[k] == f[..|f| - 1][k];
    assert e == |f| - 1;
    assert (f + s)[..e + 1] == f && (f + s)[e + 1..] == s;
  }

  /** Noise alone yields nothing and at most four of its bytes are kept. */
  lemma {:induction false} NoiseAlone(g: seq<Byte>)
    requires HEAD !in g
    ensures Drain(g) == Drained([], if |g| < 5 then g else g[|g| - 4..])
    decreases |g|
  {
    if |g| >= 5 {
      NoiseAlone(g[1..]);
      assert |g| > 5 ==> g[1..][|g| - 5..] == g[|g| - 4..];
      assert |g| == 5 ==> g[1..] == g[|g| - 4..];
    }
  }

  /** Every frame sent is recovered, whole and in order, through any head-free noise. */
  lemma {:induction false} FramesRecovered(bursts: seq<Burst>, noise: seq<Byte>)
    requires (forall b :: b in bursts ==> IsBurst(b)) && HEAD !in noise
    ensures Drain(Sent(bursts) + noise).frames == FramesOf(bursts)
    decreases |bursts|
  {
    hide Drain;
    if bursts == [] {
      NoiseAlone(noise);
      assert [] + noise == noise;
    } else {
      var b, rest := bursts[0], Sent(bursts[1..]) + noise;
      assert IsBurst(b);
      FramesRecovered(bursts[1..], noise);
      NoiseSkipped(b.noise, b.frame + rest);
      FrameFound(b.frame, rest);
      assert Sent(bursts) + noise == b.noise + (b.frame + rest);
    }
  }

  /** The same however the line's bytes are cut into reads. */
  lemma {:induction false} FramesReceived(bursts: seq<Burst>, noise: seq<Byte>, chunks: seq<seq<Byte>>)
    requires (forall b :: b in bursts ==> IsBurst(b)) && HEAD !in noise
    requires Concat(chunks) == Sent(bursts) + noise
    ensures Feed([], chunks).frames == FramesOf(bursts)
  {
    ChunkingIrrelevant([], chunks);
    assert [] + Concat(chunks) == Concat(chunks);
    FramesRecovered(bursts, noise);
  }

  // ---- What a frame says ----

  datatype Report = Nothing | Height(v: real) | Fault(code: Byte)

  /** `parse_frame`; `readFloat` is the library's conversion of five ASCII characters, if it succeeds. */
  function ParseFrame(readFloat: seq<Byte> -> Option<real>, f: seq<Byte>): Report {
    if |f| < 5 || f[0] != HEAD || f[|f| - 1] != TAIL then Nothing
    else if f[2] == 0x01 && |f| == 9 then
      if exists i :: 3 <= i < 8 && f[i] >= 128 then Nothing
      else match readFloat(f[3..8]) case Some(v) => Height(v) case None => Nothing
    else if f[2] == 0x09 && |f| == 5 then Fault(f[3])
    else Nothing
  }

  predicate IsDigit(b: Byte) { 48 <= b <= 57 }

  /** Three digits, a point, a digit. */
  predicate IsDecimal(s: seq<Byte>) {
    |s| == 5 && IsDigit(s[0]) && IsDigit(s[1]) && IsDigit(s[2]) && s[3] == DOT && IsDigit(s[4])
  }

  function DecimalValue(s: seq<Byte>): real
    requires IsDecimal(s)
  {
    (100 * Digit(s[0]) + 10 * Digit(s[1]) + Digit(s[2])) as real + Digit(s[4]) as real / 10.0
  }

  function Digit(b: Byte): int { b as int - 48 }

  /** All that is assumed of the library: it reads plain decimals. */
  ghost predicate ReadsDecimals(readFloat: seq<Byte> -> Option<real>) {
    forall s :: IsDecimal(s) ==> readFloat(s) == Some(DecimalValue(s))
  }

  function Clamp(v: real): real { Max(0.0, Min(v, 200.0)) }

  /** Nearest integer, ties to even. */
  function Round(v: real): int {
    var f := v.Floor;
    var d := v - f as real;
    if d < 0.5 then f else if d > 0.5 then f + 1 else if f % 2 == 0 then f else f + 1
  }

  /** `05.1f` of a number of tenths. */
  function Digits(n: nat): seq<Byte>
    requires n < 10000
  {
    [48 + n / 1000, 48 + n / 100 % 10, 48 + n / 10 % 10, DOT, 48 + n % 10]
  }

  function Tenths(v: real): (n: nat)
    ensures n <= 2000
  {
    ClampRange(v);
    Round(Clamp(v) * 10.0)
  }

  lemma ClampRange(v: real)
    ensures 0 <= Round(Clamp(v) * 10.0) <= 2000
  {
  }

  /** The command `handle_cmd_height` sends. */
  function HeightCommand(v: real): seq<Byte> { [HEAD, 0x07, 0x80] + Digits(Tenths(v)) + [TAIL] }

  /** The reply carrying the same digits back. */
  function HeightReply(digits: seq<Byte>): seq<Byte> { [HEAD, 0x07, 0x01] + digits + [TAIL] }

  lemma DigitsRead(n: nat)
    requires n < 10000
    ensures IsDecimal(Digits(n)) && DecimalValue(Digits(n)) == n as real / 10.0
  {
    Places(n);
    TenthsApart(n / 10, n % 10);
  }

  lemma TenthsApart(a: int, b: int)
    ensures a as real + b as real / 10.0 == (10 * a + b) as real / 10.0
  {
  }

  lemma Places(n: nat)
    requires n < 10000
    ensures 0 <= n / 1000 < 10
    ensures 100 * (n / 1000) + 10 * (n / 100 % 10) + n / 10 % 10 == n / 10 && n == 10 * (n / 10) + n % 10
  {
    assert n / 100 == n / 10 / 10;
    assert n / 1000 == n / 100 / 10;
  }

  lemma Rounded(v: real)
    ensures -0.5 <= v - Round(v) as real <= 0.5
    ensures v == Round(v) as real <==> v == v.Floor as real
  {
  }

  /** `r` answers the request for `v`: within half a tenth of it from 0 to 200, the nearer of these
      bounds beyond them. */
  ghost predicate Answers(r: real, v: real) {
    if v < 0.0 then r == 0.0 else if v > 200.0 then r == 200.0 else -0.05 <= v - r <= 0.05
  }

  lemma NearestTenth(v: real, r: real)
    requires r == Tenths(v) as real / 10.0
    ensures Answers(r, v)
    ensures r == v <==> 0.0 <= v <= 200.0 && v * 10.0 == (v * 10.0).Floor as real
  {
    Rounded(Clamp(v) * 10.0);
    if v < 0.0 || v > 200.0 {
      assert Clamp(v) == if v < 0.0 then 0.0 else 200.0;
    } else {
      assert Clamp(v) == v;
      hide Round, Clamp;
      TenthsAre(v);
    }
  }

  /** Three digits, a point and a digit in ASCII. */
  predicate Written(d: seq<Byte>)
    requires |d| == 5
  {
    48 <= d[0] <= 57 && 48 <= d[1] <= 57 && 48 <= d[2] <= 57 && d[3] == 46 && 48 <= d[4] <= 57
  }

  /** What is sent and what comes back, byte for byte around the digits. */
  ghost predicate IsCommand(f: seq<Byte>) { |f| == 9 && f[..3] == [0xAA, 0x07, 0x80] && Written(f[3..8]) && f[8] == 0xFF }

  ghost predicate IsReply(f: seq<Byte>) { |f| == 9 && f[..3] == [0xAA, 0x07, 0x01] && Written(f[3..8]) && f[8] == 0xFF }

  /** The digits sent for any requested height read back, from the reply carrying them, as an answer to
      the request; as the very height if it is a whole number of tenths from 0 to 200, and only then. */
  lemma HeightRoundTrip(readFloat: seq<Byte> -> Option<real>, v: real)
    requires ReadsDecimals(readFloat)
    ensures var c := HeightCommand(v);
      && IsCommand(c) && IsReply(HeightReply(c[3..8])) && HeightReply(c[3..8])[3..8] == c[3..8]
      && IsFrame(c) && IsFrame(HeightReply(c[3..8]))
      && var r := ParseFrame(readFloat, HeightReply(c[3..8]));
         r.Height? && Answers(r.v, v) && (r.v == v <==> 0.0 <= v <= 200.0 && v * 10.0 == (v * 10.0).Floor as real)
  {
    var n := Tenths(v);
    DigitsRead(n);
    NearestTenth(v, n as real / 10.0);
    var d := Digits(n);
    FrameOfDigits(0x80, d);
    FrameOfDigits(0x01, d);
    assert HeightCommand(v)[3..8] == d && HeightReply(d)[3..8] == d;
    assert Written(d);
    hide Digits, Tenths, DecimalValue, IsDecimal, IsFrame, Answers, Written;
    ReplyHeight(readFloat, d, n as real / 10.0);
  }

  lemma TenthsAre(v: real)
    ensures Tenths(v) == Round(Clamp(v) * 10.0)
  {
  }

  lemma FrameOfDigits(command: Byte, d: seq<Byte>)
    requires IsDecimal(d) && command != TAIL
    ensures IsFrame([HEAD, 0x07, command] + d + [TAIL])
  {
    var f := [HEAD, 0x07, command] + d + [TAIL];
    assert f[..8] == [HEAD, 0x07, command] + d;
  }

  lemma ReplyHeight(readFloat: seq<Byte> -> Option<real>, d: seq<Byte>, v: real)
    requires ReadsDecimals(readFloat) && IsDecimal(d) && DecimalValue(d) == v
    ensures ParseFrame(readFloat, HeightReply(d)) == Height(v)
  {
    var f := HeightReply(d);
    assert f[3..8] == d && f[3] == d[0] && f[4] == d[1] && f[5] == d[2] && f[6] == d[3] && f[7] == d[4];
  }

  // ---- The receiving thread ----

  function Heights(readFloat: seq<Byte> -> Option<real>, frames: seq<seq<Byte>>): seq<real> {
    if frames == [] then []
    else
      var r := ParseFrame(readFloat, frames[|frames| - 1]);
      Heights(readFloat, frames[..|frames| - 1]) + (if r.Height? then [r.v] else [])
  }

  lemma {:induction false} HeightsAppend(readFloat: seq<Byte> -> Option<real>, f: seq<seq<Byte>>, g: seq<seq<Byte>>)
    ensures Heights(readFloat, f + g) == Heights(readFloat, f) + Heights(readFloat, g)
    decreases |g|
  {
    hide ParseFrame;
    if g == [] {
      assert f + g == f;
    } else {
      HeightsAppend(readFloat, f, g[..|g| - 1]);
      assert (f + g)[..|f + g| - 1] == f + g[..|g| - 1];
    }
  }

  lemma HeightsNone(readFloat: seq<Byte> -> Option<real>)
    ensures Heights(readFloat, []) == []
  {
  }

  lemma HeightsNext(readFloat: seq<Byte> -> Option<real>, frames: seq<seq<Byte>>, f: seq<Byte>)
    ensures var r := ParseFrame(readFloat, f);
      Heights(readFloat, frames + [f]) == Heights(readFloat, frames) + (if r.Height? then [r.v] else [])
  {
    hide ParseFrame;
    assert (frames + [f])[..|frames|] == frames;
  }

  /** One more read, in the middle of a run of them. */
  lemma FeedNext(whole: Drained, frames: seq<seq<Byte>>, buffer: seq<Byte>, chunks: seq<seq<Byte>>, i: nat)
    requires i < |chunks|
    requires whole == Drained(frames + Feed(buffer, chunks[i..]).frames, Feed(buffer, chunks[i..]).rest)
    ensures var d := Drain(buffer + chunks[i]);
      var f := Feed(d.rest, chunks[i + 1..]);
      whole == Drained(frames + d.frames + f.frames, f.rest)
  {
    hide Drain;
    assert chunks[i..][0] == chunks[i] && chunks[i..][1..] == chunks[i + 1..];
  }

  lemma FeedNothing(buffer: seq<Byte>)
    ensures Feed(buffer, []) == Drained([], buffer)
  {
  }

  lemma {:induction false} FramesAt(bursts: seq<Burst>)
    ensures |FramesOf(bursts)| == |bursts| && forall i :: 0 <= i < |bursts| ==> FramesOf(bursts)[i] == bursts[i].frame
    decreases |bursts|
  {
    if bursts != [] { FramesAt(bursts[1..]); }
  }

  lemma {:induction false} HeightsAt(readFloat: seq<Byte> -> Option<real>, frames: seq<seq<Byte>>)
    requires forall i :: 0 <= i < |frames| ==> ParseFrame(readFloat, frames[i]).Height?
    ensures var h := Heights(readFloat, frames);
      |h| == |frames| && forall i :: 0 <= i < |frames| ==> Height(h[i]) == ParseFrame(readFloat, frames[i])
    decreases |frames|
  {
    hide ParseFrame;
    if frames != [] { HeightsAt(readFloat, frames[..|frames| - 1]); }
  }

  /** End to end: replies carrying the digits of any list of requested heights, each after any head-free
      noise, cut into reads in any way, are published one for one and in order, each answering its
      request. */
  lemma {:induction false} HeightsDelivered(readFloat: seq<Byte> -> Option<real>, heights: seq<real>, bursts: seq<Burst>,
                                            noise: seq<Byte>, chunks: seq<seq<Byte>>)
    requires ReadsDecimals(readFloat) && |bursts| == |heights| && HEAD !in noise
    requires forall i :: 0 <= i < |bursts| ==>
      HEAD !in bursts[i].noise && bursts[i].frame == HeightReply(HeightCommand(heights[i])[3..8])
    requires Concat(chunks) == Sent(bursts) + noise
    ensures var h := Heights(readFloat, Feed([], chunks).frames);
      |h| == |heights| && forall i :: 0 <= i < |heights| ==> Answers(h[i], heights[i])
  {
    hide HeightCommand, HeightReply, Answers, ParseFrame, ReadsDecimals;
    forall i | 0 <= i < |bursts|
      ensures IsBurst(bursts[i]) && ParseFrame(readFloat, bursts[i].frame).Height?
      ensures Answers(ParseFrame(readFloat, bursts[i].frame).v, heights[i])
    {
      HeightRoundTrip(readFloat, heights[i]);
    }
    hide IsBurst, Feed;
    FramesReceived(bursts, noise, chunks);
    FramesAt(bursts);
    HeightsAt(readFloat, FramesOf(bursts));
  }

  class DeskController {
    const readFloat: seq<Byte> -> Option<real>
    /** What was published on the height topic. */
    var published: seq<real>

    constructor (read: seq<Byte> -> Option<real>)
      ensures readFloat == read && published == []
    {
      readFloat := read;
      published := [];
    }

    method Handle(frame: seq<Byte>)
      modifies this
      ensures var r := ParseFrame(readFloat, frame);
        published == old(published) + (if r.Height? then [r.v] else [])
    {
      var r := ParseFrame(readFloat, frame);
      if r.Height? { published := published + [r.v]; }
    }

    /** `receive_loop` over the reads the port delivers; an empty read stands for a poll with nothing
        waiting. What is published depends on the bytes alone, not on how they were cut. */
    method ReceiveLoop(chunks: seq<seq<Byte>>) returns (buffer: seq<Byte>, ghost frames: seq<seq<Byte>>)
      modifies this
      ensures frames == Drain(Concat(chunks)).frames && buffer == Drain(Concat(chunks)).rest
      ensures published == old(published) + Heights(readFloat, frames)
    {
      hide Drain, Feed;
      buffer, frames := [], [];
      ghost var whole := Feed([], chunks);
      DrainShort([]);
      for i := 0 to |chunks|
        invariant Drain(buffer) == Drained([], buffer)
        invariant whole == Drained(frames + Feed(buffer, chunks[i..]).frames, Feed(buffer, chunks[i..]).rest)
        invariant published == old(published) + Heights(readFloat, frames)
      {
        FeedNext(whole, frames, buffer, chunks, i);
        DrainAgain(buffer + chunks[i]);
        if |chunks[i]| > 0 {
          buffer := buffer + chunks[i];
          ghost var found;
          buffer, found := DrainBuffer(buffer);
          HeightsAppend(readFloat, frames, found);
          frames := frames + found;
        } else {
          assert buffer + chunks[i] == buffer && frames + [] == frames;
        }
      }
      FeedNothing(buffer);
      assert chunks[|chunks|..] == [] && frames + [] == frames;
      ChunkingIrrelevant([], chunks);
      assert [] + Concat(chunks) == Concat(chunks);
    }

    /** The inner loop: bytes before a head are dropped, then whole frames are cut off and handled. */
    method DrainBuffer(buf: seq<Byte>) returns (buffer: seq<Byte>, ghost found: seq<seq<Byte>>)
      modifies this
      ensures Drain(buf) == Drained(found, buffer)
      ensures published == old(published) + Heights(readFloat, found)
    {
      hide Drain, ParseFrame, Heights, IndexOf;
      HeightsNone(readFloat);
      buffer, found := buf, [];
      while |buffer| >= 5
        invariant Drain(buf) == Drained(found + Drain(buffer).frames, Drain(buffer).rest)
        invariant published == old(published) + Heights(readFloat, found)
        decreases |buffer|
      {
        if buffer[0] != HEAD {
          DrainSkips(buffer);
          buffer := buffer[1..];
          continue;
        }
        if TAIL in buffer {
          DrainCuts(buffer);
          var end := IndexOf(buffer, TAIL);
          var frame := buffer[..end + 1];
          ghost var later := Drain(buffer[end + 1..]).frames;
          assert found + ([frame] + later) == found + [frame] + later;
          buffer := buffer[end + 1..];
          Handle(frame);
          HeightsNext(readFloat, found, frame);
          found := found + [frame];
        } else {
          break;
        }
      }
      DrainShort(buffer);
    }
  }
}
