/** The binary event file: header, frames, CRC-32. */
module EventStore {
  import opened Wrappers
  import opened Bytes
  import opened Crc
  import opened Layout
  import opened Snapshot
  import opened SnapshotStore
  import opened EventDetector

  const HEADER_BYTES: nat := 54
  const FRAME_HEADER_BYTES: nat := 12
  const FRAME_BYTES: nat := 7242
  const CRC_BYTES: nat := 4
  const MAX_FRAMES: nat := 6
  const MAGIC: nat := 0x45464855
  const VERSION: nat := 1

  /** magic, version, milliseconds, id, reasons, partial, 0, six statistics, frame count, 0 */
  const HEADER_WIDTHS: seq<nat> := [4, 2, 8, 8, 1, 1, 2, 4, 4, 4, 4, 4, 4, 2, 2]

  /** generation, status, 0, register count */
  const FRAME_WIDTHS: seq<nat> := [8, 1, 1, 2]

  const NS_PER_MS: int := 1_000_000

  /** Where frame `i` begins. */
  function FrameStart(i: nat): nat { HEADER_BYTES + i * 7242 }

  // ----- Field conversions -----

  function Mask(b: EventBundle): nat { (if b.strongReason then 1 else 0) + (if b.suddenReason then 2 else 0) }

  function StatusCode(s: PayloadStatus): nat {
    match s case Good => 0 case Degraded => 1 case NotRefreshed => 2
  }

  function DecodeStatus(code: nat): Option<PayloadStatus> {
    if code == 0 then Some(Good)
    else if code == 1 then Some(Degraded)
    else if code == 2 then Some(NotRefreshed)
    else None
  }

  /** Whole milliseconds, truncated toward zero; none when negative. */
  function Milliseconds(utc: int): Option<nat> {
    var ms := if utc >= 0 then utc / NS_PER_MS else -((-utc) / NS_PER_MS);
    if ms < 0 then None else Some(ms)
  }

  /** The 64-bit signed nanosecond count a stored millisecond value becomes. */
  function Nanoseconds(ms: nat): int {
    var wrapped := (ms * NS_PER_MS) % 0x1_0000_0000_0000_0000;
    if wrapped >= 0x8000_0000_0000_0000 then wrapped - 0x1_0000_0000_0000_0000 else wrapped
  }

  predicate StatsValid(s: ReasonStats, present: bool) {
    if present then s.count > 0 && s.maxDelta >= 0 else s == NO_STATS
  }

  // ----- Encoding -----

  function HeaderValues(b: EventBundle, ms: nat): (v: seq<nat>)
    requires InRange(b)
    ensures |v| == 15
  {
    [MAGIC, VERSION, ms, b.id, Mask(b), if b.partial then 1 else 0, 0,
     b.strong.count, FromInt32(b.strong.maxPeak), FromInt32(b.strong.maxDelta),
     b.sudden.count, FromInt32(b.sudden.maxPeak), FromInt32(b.sudden.maxDelta), |b.frames|, 0]
  }

  function PackHeader(v: seq<nat>): (bs: seq<byte>)
    requires |v| == 15
    ensures |bs| == HEADER_BYTES
  {
    HeaderWidthsTotal();
    Pack(HEADER_WIDTHS, v)
  }

  function UnpackHeader(bs: seq<byte>): (v: seq<nat>)
    requires |bs| >= HEADER_BYTES
    ensures |v| == 15
  {
    HeaderWidthsTotal();
    Unpack(HEADER_WIDTHS, bs, 0)
  }

  predicate HeaderFits(v: seq<nat>) { |v| == 15 && Fits(HEADER_WIDTHS, v) }

  predicate Int32(v: int) { -0x8000_0000 <= v < 0x8000_0000 }

  predicate StatsInRange(s: ReasonStats) { s.count < 0x1_0000_0000 && Int32(s.maxPeak) && Int32(s.maxDelta) }

  /** What the field types of the source guarantee. */
  predicate InRange(b: EventBundle) {
    && -0x8000_0000_0000_0000 <= b.firstUtc < 0x8000_0000_0000_0000
    && b.id < 0x1_0000_0000_0000_0000 && StatsInRange(b.strong) && StatsInRange(b.sudden)
    && forall i | 0 <= i < |b.frames| :: b.frames[i].generation < 0x1_0000_0000_0000_0000
  }

  function FrameBytes(f: PublishedSnapshot): (bs: seq<byte>)
    ensures |bs| == FRAME_BYTES
  {
    FrameWidthsTotal();
    Pack(FRAME_WIDTHS, [f.generation, StatusCode(f.payload.payloadStatus), 0, REGISTER_COUNT])
    + PackWords(f.payload.rawRegisters)
  }

  function FramesBytes(fs: seq<PublishedSnapshot>): (bs: seq<byte>)
    ensures |bs| == |fs| * 7242
  {
    if fs == [] then [] else FramesBytes(fs[..|fs| - 1]) + FrameBytes(fs[|fs| - 1])
  }

  predicate DistinctGenerations(fs: seq<PublishedSnapshot>) {
    && (forall i | 0 <= i < |fs| :: fs[i].generation != 0)
    && forall i, j | 0 <= i < j < |fs| :: fs[i].generation != fs[j].generation
  }

  /** The checks made before anything is written. */
  predicate Storable(b: EventBundle) {
    && Milliseconds(b.firstUtc).Some? && b.id != 0 && Mask(b) != 0
    && 1 <= |b.frames| <= MAX_FRAMES
    && StatsValid(b.strong, b.strongReason) && StatsValid(b.sudden, b.suddenReason)
    && DistinctGenerations(b.frames)
  }

  function Encode(b: EventBundle): (file: Option<seq<byte>>)
    requires InRange(b)
    ensures file.Some? <==> Storable(b)
    ensures file.Some? ==> |file.value| == FrameStart(|b.frames|) + CRC_BYTES
  {
    if !Storable(b) then None
    else
      Some(WithCrc32(PackHeader(HeaderValues(b, Milliseconds(b.firstUtc).value)) + FramesBytes(b.frames)))
  }

  lemma HeaderWidthsTotal()
    ensures Total(HEADER_WIDTHS) == HEADER_BYTES
  {
    var w := HEADER_WIDTHS;
    assert w[1..] == [2, 8, 8, 1, 1, 2, 4, 4, 4, 4, 4, 4, 2, 2];
    assert Total([8, 8, 1, 1, 2, 4, 4, 4, 4, 4, 4, 2, 2]) == 48;
  }

  lemma FrameWidthsTotal()
    ensures Total(FRAME_WIDTHS) == FRAME_HEADER_BYTES
  {
  }

  // ----- Decoding -----

  function DecodeFrame(bs: seq<byte>, at: nat): Option<PublishedSnapshot>
    requires at + FRAME_BYTES <= |bs|
  {
    FrameWidthsTotal();
    var v := Unpack(FRAME_WIDTHS, bs, at);
    var status := DecodeStatus(v[1]);
    var payload := Parse(UnpackWords(bs, at + FRAME_HEADER_BYTES, REGISTER_COUNT));
    if v[0] == 0 || status.None? || v[2] != 0 || v[3] != REGISTER_COUNT
        || payload.payloadStatus != status.value then None
    else Some(PublishedSnapshot(v[0], payload))
  }

  function DecodeFrames(bs: seq<byte>, n: nat): (r: Option<seq<PublishedSnapshot>>)
    requires FrameStart(n) <= |bs|
    ensures r.Some? ==> |r.value| == n
  {
    if n == 0 then Some([])
    else
      var before := DecodeFrames(bs, n - 1);
      var frame := DecodeFrame(bs, FrameStart(n - 1));
      if before.None? || frame.None? || HasGeneration(before.value, frame.value.generation) then None
      else Some(before.value + [frame.value])
  }

  predicate HeaderAccepted(h: seq<nat>)
    requires |h| == 15
  {
    h[0] == MAGIC && h[1] == VERSION && h[3] != 0 && 1 <= h[4] <= 3 && h[5] <= 1 && h[6] == 0 && h[14] == 0
  }

  function StatsOf(count: nat, peak: nat, delta: nat): ReasonStats {
    ReasonStats(count, ToInt32(peak % 0x1_0000_0000), ToInt32(delta % 0x1_0000_0000))
  }

  function BundleOf(h: seq<nat>, frames: seq<PublishedSnapshot>): EventBundle
    requires |h| == 15
  {
    EventBundle(h[3], 0, Nanoseconds(h[2]), h[4] % 2 == 1, h[4] / 2 % 2 == 1, h[5] != 0,
                StatsOf(h[7], h[8], h[9]), StatsOf(h[10], h[11], h[12]), frames)
  }

  function Decode(bs: seq<byte>): Option<EventBundle> {
    if |bs| < HEADER_BYTES + CRC_BYTES || |bs| > FrameStart(MAX_FRAMES) + CRC_BYTES then None
    else
      var h := UnpackHeader(bs);
      if !(1 <= h[13] <= MAX_FRAMES) || |bs| != FrameStart(h[13]) + CRC_BYTES || !Crc32Ok(bs)
          || !HeaderAccepted(h) then None
      else
        var frames := DecodeFrames(bs, h[13]);
        if frames.None? then None
        else
          var b := BundleOf(h, frames.value);
          if StatsValid(b.strong, b.strongReason) && StatsValid(b.sudden, b.suddenReason) then Some(b) else None
  }

  /** What survives storage: the steady-clock time is dropped and the wall clock truncated to milliseconds. */
  function Stored(b: EventBundle): EventBundle
    requires Milliseconds(b.firstUtc).Some?
  {
    b.(firstAt := 0, firstUtc := Milliseconds(b.firstUtc).value * NS_PER_MS)
  }

  predicate Parsed(fs: seq<PublishedSnapshot>) {
    forall i | 0 <= i < |fs| :: fs[i].payload == Parse(fs[i].payload.rawRegisters)
  }

  // ----- Frames, both ways -----

  lemma FrameWidthsFit(f: PublishedSnapshot)
    requires f.generation < 0x1_0000_0000_0000_0000
    ensures Fits(FRAME_WIDTHS, [f.generation, StatusCode(f.payload.payloadStatus), 0, REGISTER_COUNT])
  {
    PowersOf256();
  }

  lemma PowersOf256()
    ensures Pow256(1) == 0x100 && Pow256(2) == 0x1_0000 && Pow256(4) == 0x1_0000_0000
              && Pow256(8) == 0x1_0000_0000_0000_0000
  {
    assert Pow256(1) == 256 * Pow256(0) && Pow256(2) == 256 * Pow256(1);
    assert Pow256(3) == 256 * Pow256(2) && Pow256(4) == 256 * Pow256(3);
    assert Pow256(5) == 256 * Pow256(4) && Pow256(6) == 256 * Pow256(5);
    assert Pow256(7) == 256 * Pow256(6) && Pow256(8) == 256 * Pow256(7);
  }

  lemma DecodeFrameOfEncoded(f: PublishedSnapshot, bs: seq<byte>, at: nat)
    requires at + FRAME_BYTES <= |bs| && bs[at..at + FRAME_BYTES] == FrameBytes(f)
    requires 0 < f.generation < 0x1_0000_0000_0000_0000
    ensures DecodeFrame(bs, at) == if f.payload.payloadStatus == StatusOf(f.payload.rawRegisters)
                                   then Some(PublishedSnapshot(f.generation, Parse(f.payload.rawRegisters))) else None
  {
    hide Pack, Unpack, PackWords, UnpackWords, Parse, StatusOf;
    FrameWidthsTotal();
    FrameWidthsFit(f);
    var values := [f.generation, StatusCode(f.payload.payloadStatus), 0, REGISTER_COUNT];
    var mid := at + FRAME_HEADER_BYTES;
    SliceSplit(bs, at, mid, at + FRAME_BYTES);
    ConcatCancel(bs[at..mid], bs[mid..at + FRAME_BYTES], Pack(FRAME_WIDTHS, values), PackWords(f.payload.rawRegisters));
    UnpackPack(FRAME_WIDTHS, values, bs, at);
    UnpackPackWords(f.payload.rawRegisters, bs, mid);
    ParseStatus(f.payload.rawRegisters);
  }

  lemma ParseStatus(r: Registers)
    ensures Parse(r).payloadStatus == StatusOf(r) && Parse(r).rawRegisters == r
  {
  }

  lemma EncodeFrameOfDecoded(bs: seq<byte>, at: nat)
    requires at + FRAME_BYTES <= |bs| && DecodeFrame(bs, at).Some?
    ensures var f := DecodeFrame(bs, at).value;
            && FrameBytes(f) == bs[at..at + FRAME_BYTES]
            && 0 < f.generation < 0x1_0000_0000_0000_0000
            && f.payload == Parse(f.payload.rawRegisters)
  {
    hide Pack, Unpack, PackWords, UnpackWords, Parse;
    FrameWidthsTotal();
    PowersOf256();
    var mid := at + FRAME_HEADER_BYTES;
    var v := Unpack(FRAME_WIDTHS, bs, at);
    PackUnpack(FRAME_WIDTHS, bs, at);
    assert v[0] < Pow256(FRAME_WIDTHS[0]);
    PackUnpackWords(bs, mid, REGISTER_COUNT);
    var f := DecodeFrame(bs, at).value;
    ParseStatus(UnpackWords(bs, mid, REGISTER_COUNT));
    assert [f.generation, StatusCode(f.payload.payloadStatus), 0, REGISTER_COUNT] == v;
    SliceSplit(bs, at, mid, at + FRAME_BYTES);
  }

  predicate FrameInPlace(fs: seq<PublishedSnapshot>, bs: seq<byte>, i: nat)
    requires i < |fs| && FrameStart(|fs|) <= |bs|
  {
    bs[FrameStart(i)..FrameStart(i) + FRAME_BYTES] == FrameBytes(fs[i])
  }

  lemma {:induction false} FramesInPlace(fs: seq<PublishedSnapshot>, bs: seq<byte>, i: nat)
    requires i < |fs| && FrameStart(|fs|) <= |bs|
    requires bs[HEADER_BYTES..FrameStart(|fs|)] == FramesBytes(fs)
    ensures FrameInPlace(fs, bs, i)
    decreases |fs|
  {
    hide FrameBytes, FramesBytes;
    var n := |fs| - 1;
    LastFrameInPlace(fs, bs);
    if i < n {
      FramesInPlace(fs[..n], bs, i);
      assert fs[..n][i] == fs[i];
    }
  }

  lemma LastFrameInPlace(fs: seq<PublishedSnapshot>, bs: seq<byte>)
    requires fs != [] && FrameStart(|fs|) <= |bs|
    requires bs[HEADER_BYTES..FrameStart(|fs|)] == FramesBytes(fs)
    ensures var n := |fs| - 1;
            && FrameStart(n) <= FrameStart(|fs|) && bs[HEADER_BYTES..FrameStart(n)] == FramesBytes(fs[..n])
            && FrameInPlace(fs, bs, n)
  {
    hide FrameBytes;
    var n := |fs| - 1;
    SliceSplit(bs, HEADER_BYTES, FrameStart(n), FrameStart(n + 1));
    ConcatCancel(bs[HEADER_BYTES..FrameStart(n)], bs[FrameStart(n)..FrameStart(n + 1)], FramesBytes(fs[..n]),
        FrameBytes(fs[n]));
  }

  predicate Generations64(fs: seq<PublishedSnapshot>) {
    forall i | 0 <= i < |fs| :: fs[i].generation < 0x1_0000_0000_0000_0000
  }

  lemma {:induction false} DecodeFramesOfEncoded(fs: seq<PublishedSnapshot>, bs: seq<byte>, n: nat)
    requires n <= |fs| && FrameStart(|fs|) <= |bs|
    requires forall i | 0 <= i < |fs| :: FrameInPlace(fs, bs, i)
    requires DistinctGenerations(fs) && Generations64(fs) && Parsed(fs)
    ensures DecodeFrames(bs, n) == Some(fs[..n])
    decreases n
  {
    hide DecodeFrame, Parse, FrameBytes;
    if n > 0 {
      DecodeFramesOfEncoded(fs, bs, n - 1);
      var f := fs[n - 1];
      assert FrameInPlace(fs, bs, n - 1);
      DecodeFrameOfEncoded(f, bs, FrameStart(n - 1));
      ParseStatus(f.payload.rawRegisters);
      assert fs[..n] == fs[..n - 1] + [f];
      assert !HasGeneration(fs[..n - 1], f.generation);
    }
  }

  lemma {:induction false} EncodeFramesOfDecoded(bs: seq<byte>, n: nat)
    requires FrameStart(n) <= |bs| && DecodeFrames(bs, n).Some?
    ensures var fs := DecodeFrames(bs, n).value;
            && FramesBytes(fs) == bs[HEADER_BYTES..FrameStart(n)]
            && DistinctGenerations(fs) && Generations64(fs) && Parsed(fs)
    decreases n
  {
    hide DecodeFrame, FrameBytes, Parse;
    if n > 0 {
      EncodeFramesOfDecoded(bs, n - 1);
      EncodeFrameOfDecoded(bs, FrameStart(n - 1));
      var before, frame := DecodeFrames(bs, n - 1).value, DecodeFrame(bs, FrameStart(n - 1)).value;
      var fs := before + [frame];
      assert fs[..|fs| - 1] == before;
      SliceSplit(bs, HEADER_BYTES, FrameStart(n - 1), FrameStart(n));
      DistinctAppend(before, frame);
    }
  }

  lemma DistinctAppend(fs: seq<PublishedSnapshot>, f: PublishedSnapshot)
    requires DistinctGenerations(fs) && f.generation != 0 && !HasGeneration(fs, f.generation)
    ensures DistinctGenerations(fs + [f])
  {
    forall i, j | 0 <= i < j < |fs| + 1 ensures (fs + [f])[i].generation != (fs + [f])[j].generation {
      if j == |fs| {
        assert fs[i].generation != f.generation;
      }
    }
  }

  // ----- The header, both ways -----

  lemma UnpackPackHeader(v: seq<nat>, bs: seq<byte>)
    requires HeaderFits(v) && |bs| >= HEADER_BYTES && bs[..HEADER_BYTES] == PackHeader(v)
    ensures UnpackHeader(bs) == v
  {
    HeaderWidthsTotal();
    HeaderLayoutRead(HEADER_WIDTHS, v, bs);
  }

  lemma HeaderLayoutRead(widths: seq<nat>, v: seq<nat>, bs: seq<byte>)
    requires Fits(widths, v) && Total(widths) <= |bs| && bs[..Total(widths)] == Pack(widths, v)
    ensures Unpack(widths, bs, 0) == v
  {
    assert bs[0..0 + Total(widths)] == bs[..Total(widths)];
    UnpackPack(widths, v, bs, 0);
  }

  lemma PackUnpackHeader(bs: seq<byte>)
    requires |bs| >= HEADER_BYTES
    ensures PackHeader(UnpackHeader(bs)) == bs[..HEADER_BYTES] && HeaderFits(UnpackHeader(bs))
  {
    HeaderWidthsTotal();
    HeaderLayoutWritten(HEADER_WIDTHS, bs);
  }

  lemma HeaderLayoutWritten(widths: seq<nat>, bs: seq<byte>)
    requires Total(widths) <= |bs|
    ensures Pack(widths, Unpack(widths, bs, 0)) == bs[..Total(widths)] && Fits(widths, Unpack(widths, bs, 0))
  {
    PackUnpack(widths, bs, 0);
    assert bs[0..0 + Total(widths)] == bs[..Total(widths)];
  }

  /** The widths of the fields the bundle is built from. */
  lemma FieldBounds(h: seq<nat>)
    requires HeaderFits(h)
    ensures h[3] < 0x1_0000_0000_0000_0000 && h[4] < 256 && h[5] < 256
    ensures h[7] < 0x1_0000_0000 && h[8] < 0x1_0000_0000 && h[9] < 0x1_0000_0000
    ensures h[10] < 0x1_0000_0000 && h[11] < 0x1_0000_0000 && h[12] < 0x1_0000_0000
  {
    hide Pow256;
    PowersOf256();
    var w := HEADER_WIDTHS;
    assert w[3] == 8 && w[4] == 1 && w[5] == 1;
    assert w[7] == 4 && w[8] == 4 && w[9] == 4 && w[10] == 4 && w[11] == 4 && w[12] == 4;
  }

  lemma HeaderValuesFit(b: EventBundle, ms: nat)
    requires InRange(b) && ms < 0x1_0000_0000_0000_0000 && |b.frames| < 65536
    ensures HeaderFits(HeaderValues(b, ms))
  {
    PowersOf256();
  }

  lemma MillisecondsBound(utc: int)
    requires -0x8000_0000_0000_0000 <= utc < 0x8000_0000_0000_0000 && Milliseconds(utc).Some?
    ensures var ms := Milliseconds(utc).value;
            ms * NS_PER_MS < 0x8000_0000_0000_0000 && Nanoseconds(ms) == ms * NS_PER_MS
  {
  }

  lemma BundleOfHeader(b: EventBundle)
    requires InRange(b) && Storable(b)
    ensures var h := HeaderValues(b, Milliseconds(b.firstUtc).value);
            HeaderAccepted(h) && BundleOf(h, b.frames) == Stored(b) && h[13] == |b.frames|
  {
    MillisecondsBound(b.firstUtc);
  }

  lemma StatsRoundTrip(count: nat, peak: nat, delta: nat)
    requires count < 0x1_0000_0000 && peak < 0x1_0000_0000 && delta < 0x1_0000_0000
    ensures var s := StatsOf(count, peak, delta);
            && StatsInRange(s) && s.count == count && FromInt32(s.maxPeak) == peak && FromInt32(s.maxDelta) == delta
  {
  }

  lemma TimeRoundTrip(ms: nat)
    requires ms * NS_PER_MS < 0x8000_0000_0000_0000
    ensures Nanoseconds(ms) == ms * NS_PER_MS && Milliseconds(Nanoseconds(ms)) == Some(ms)
  {
  }

  lemma HeaderOfBundle(h: seq<nat>, frames: seq<PublishedSnapshot>)
    requires HeaderFits(h) && HeaderAccepted(h) && |frames| == h[13] && Generations64(frames)
    requires h[2] * NS_PER_MS < 0x8000_0000_0000_0000
    ensures var b := BundleOf(h, frames);
            && InRange(b) && Milliseconds(b.firstUtc) == Some(h[2]) && Mask(b) == h[4] && b.id != 0
            && HeaderValues(b, h[2]) == h
  {
    FieldBounds(h);
    assert |h| == 15;
    hide HeaderFits, Nanoseconds, Milliseconds, StatsOf;
    TimeRoundTrip(h[2]);
    StatsRoundTrip(h[7], h[8], h[9]);
    StatsRoundTrip(h[10], h[11], h[12]);
  }

  // ----- The two theorems -----

  lemma FilePieces(b: EventBundle, file: seq<byte>)
    requires InRange(b) && Encode(b) == Some(file)
    ensures |file| == FrameStart(|b.frames|) + CRC_BYTES && Crc32Ok(file)
    ensures file[..HEADER_BYTES] == PackHeader(HeaderValues(b, Milliseconds(b.firstUtc).value))
    ensures file[HEADER_BYTES..FrameStart(|b.frames|)] == FramesBytes(b.frames)
  {
    hide Crc32Ok, Crc32, Split32, PackHeader, FramesBytes, HeaderValues, Milliseconds, InRange, StatsValid;
    hide DistinctGenerations;
    var header := PackHeader(HeaderValues(b, Milliseconds(b.firstUtc).value));
    var body := header + FramesBytes(b.frames);
    WithCrc32Ok(body);
    PrefixPieces(header, FramesBytes(b.frames), Split32(Crc32(body)));
  }

  lemma PrefixPieces<T>(a: seq<T>, b: seq<T>, c: seq<T>)
    ensures (a + b + c)[..|a|] == a && (a + b + c)[|a|..|a| + |b|] == b
  {
  }

  /** A file the decoder takes apart as far as its frames. */
  lemma DecodeOf(file: seq<byte>, n: nat, h: seq<nat>)
    requires 1 <= n <= MAX_FRAMES && |file| == FrameStart(n) + CRC_BYTES && Crc32Ok(file)
    requires |h| == 15 && UnpackHeader(file) == h && HeaderAccepted(h) && h[13] == n
    ensures var frames := DecodeFrames(file, n);
            Decode(file) ==
              if frames.None? then None
              else
                var b := BundleOf(h, frames.value);
                if StatsValid(b.strong, b.strongReason) && StatsValid(b.sudden, b.suddenReason) then Some(b) else None
  {
    hide UnpackHeader, DecodeFrames, Crc32Ok, HeaderAccepted, BundleOf, StatsValid;
  }

  /** Reading a written file back returns the bundle, up to what storage drops, exactly when every
      frame's interpretation is the one its registers determine. */
  lemma ReadBackWritten(b: EventBundle)
    requires InRange(b) && Storable(b)
    ensures Decode(Encode(b).value) == Some(Stored(b)) <==> Parsed(b.frames)
  {
    hide Encode, Decode, PackHeader, UnpackHeader, DecodeFrames, FramesBytes, Crc32Ok, HeaderAccepted, HeaderFits,
         BundleOf, Parse, HeaderValues, Milliseconds, Nanoseconds, FrameBytes;
    var file, n := Encode(b).value, |b.frames|;
    FilePieces(b, file);
    MillisecondsBound(b.firstUtc);
    var h := HeaderValues(b, Milliseconds(b.firstUtc).value);
    HeaderValuesFit(b, Milliseconds(b.firstUtc).value);
    UnpackPackHeader(h, file);
    BundleOfHeader(b);
    DecodeOf(file, n, h);
    if Parsed(b.frames) {
      forall i | 0 <= i < n ensures FrameInPlace(b.frames, file, i) {
        FramesInPlace(b.frames, file, i);
      }
      DecodeFramesOfEncoded(b.frames, file, n);
      assert b.frames[..n] == b.frames;
    } else if Decode(file) == Some(Stored(b)) {
      EncodeFramesOfDecoded(file, n);
      FramesOfBundle(h, DecodeFrames(file, n).value);
    }
  }

  lemma FramesOfBundle(h: seq<nat>, frames: seq<PublishedSnapshot>)
    requires |h| == 15
    ensures BundleOf(h, frames).frames == frames
  {
  }

  /** Conversely, an accepted file with a representable timestamp is exactly what its bundle encodes to. */
  lemma WrittenIsReadBack(file: seq<byte>)
    requires Decode(file).Some?
    requires |file| >= 14 && FromLE(file[6..14]) * NS_PER_MS < 0x8000_0000_0000_0000
    ensures var b := Decode(file).value;
            InRange(b) && Encode(b) == Some(file)
  {
    DecodedPieces(file);
    hide Decode, UnpackHeader, PackHeader, DecodeFrames, FramesBytes, Crc32Ok, WithCrc32, HeaderAccepted, HeaderFits,
         BundleOf, HeaderValues, FromLE, InRange;
    var h := UnpackHeader(file);
    var frames := DecodeFrames(file, h[13]).value;
    MillisecondsField(file);
    PackUnpackHeader(file);
    EncodeFramesOfDecoded(file, h[13]);
    HeaderOfBundle(h, frames);
    FramesOfBundle(h, frames);
    Crc32OkIsWithCrc32(file);
    HeadAndFrames(file, FrameStart(h[13]));
  }

  lemma HeadAndFrames(file: seq<byte>, end: nat)
    requires HEADER_BYTES <= end <= |file|
    ensures file[..end] == file[..HEADER_BYTES] + file[HEADER_BYTES..end]
  {
  }

  /** What acceptance by the decoder says. */
  lemma DecodedPieces(file: seq<byte>)
    requires Decode(file).Some?
    ensures |file| >= HEADER_BYTES + CRC_BYTES && Crc32Ok(file)
    ensures var h := UnpackHeader(file);
            && 1 <= h[13] <= MAX_FRAMES && |file| == FrameStart(h[13]) + CRC_BYTES && HeaderAccepted(h)
            && DecodeFrames(file, h[13]).Some?
            && var b := BundleOf(h, DecodeFrames(file, h[13]).value);
               Decode(file) == Some(b) && StatsValid(b.strong, b.strongReason) && StatsValid(b.sudden, b.suddenReason)
  {
    hide UnpackHeader, DecodeFrames, Crc32Ok, HeaderAccepted, BundleOf, StatsValid;
  }

  lemma MillisecondsField(file: seq<byte>)
    requires |file| >= HEADER_BYTES
    ensures UnpackHeader(file)[2] == FromLE(file[6..14])
  {
    hide FromLE;
    HeaderWidthsTotal();
    ThirdField(HEADER_WIDTHS, file);
  }

  lemma ThirdField(widths: seq<nat>, file: seq<byte>)
    requires |widths| > 2 && widths[0] == 4 && widths[1] == 2 && widths[2] == 8 && Total(widths) <= |file|
    ensures 14 <= |file| && Unpack(widths, file, 0)[2] == FromLE(file[6..14])
  {
    hide FromLE;
    UnpackAt(widths, file, 0, 2);
    assert Offset(widths, 2) == 4 + Offset(widths[1..], 1);
  }

  /** One damaged byte anywhere in an accepted file, and it is no longer accepted. */
  lemma DamagedFileRejected(file: seq<byte>, k: nat, v: byte)
    requires Decode(file).Some? && k < |file| && v != file[k]
    ensures Decode(file[k := v]) == None
  {
    DecodedPieces(file);
    hide Crc32Ok, UnpackHeader, DecodeFrames;
    Crc32DetectsOneByte(file, k, v);
  }

  // ----- The byte loops -----

  method AppendLE(start: seq<byte>, n: nat, v: nat) returns (bytes: seq<byte>)
    ensures bytes == start + ToLE(n, v)
  {
    bytes := start;
    var rest := v;
    for i := 0 to n
      invariant bytes + ToLE(n - i, rest) == start + ToLE(n, v)
    {
      assert bytes + ([ByteOf(rest)] + ToLE(n - i - 1, rest / 256))
          == (bytes + [ByteOf(rest)]) + ToLE(n - i - 1, rest / 256);
      bytes := bytes + [ByteOf(rest)];
      rest := rest / 256;
    }
  }

  method AppendFields(start: seq<byte>, widths: seq<nat>, values: seq<nat>) returns (bytes: seq<byte>)
    requires |widths| == |values|
    ensures bytes == start + Pack(widths, values)
  {
    hide ToLE;
    bytes := start;
    ghost var w, v := widths, values;
    for i := 0 to |widths|
      invariant w == widths[i..] && v == values[i..]
      invariant bytes + Pack(w, v) == start + Pack(widths, values)
    {
      ghost var before, field, rest := bytes, ToLE(widths[i], values[i]), Pack(w[1..], v[1..]);
      assert before + (field + rest) == (before + field) + rest;
      bytes := AppendLE(bytes, widths[i], values[i]);
      w, v := w[1..], v[1..];
    }
  }

  method AppendRegisters(start: seq<byte>, words: seq<Word>) returns (bytes: seq<byte>)
    ensures bytes == start + PackWords(words)
  {
    bytes := start;
    ghost var rest := words;
    for i := 0 to |words|
      invariant rest == words[i..]
      invariant bytes + PackWords(rest) == start + PackWords(words)
    {
      ghost var tail := PackWords(rest[1..]);
      assert bytes + (WordBytesLE(words[i]) + tail) == (bytes + WordBytesLE(words[i])) + tail;
      bytes := bytes + [ByteOf(words[i]), ByteOf(words[i] / 256)];
      rest := rest[1..];
    }
  }

  /** The frame loop of saving, with the search for a repeated generation. */
  method AppendFrames(start: seq<byte>, frames: seq<PublishedSnapshot>) returns (ok: bool, bytes: seq<byte>)
    ensures ok == DistinctGenerations(frames)
    ensures ok ==> bytes == start + FramesBytes(frames)
  {
    hide FrameBytes, Pack, PackWords;
    bytes := start;
    for index := 0 to |frames|
      invariant DistinctGenerations(frames[..index])
      invariant bytes == start + FramesBytes(frames[..index])
    {
      var frame := frames[index];
      if frame.generation == 0 {
        return false, bytes;
      }
      var known := FindGeneration(frames[..index], frame.generation);
      if known {
        assert exists k | 0 <= k < index :: frames[..index][k].generation == frame.generation;
        return false, bytes;
      }
      assert frames[..index + 1] == frames[..index] + [frame];
      assert frames[..index + 1][..index] == frames[..index];
      DistinctAppend(frames[..index], frame);
      bytes := AppendFrame(bytes, frame);
      assert start + FramesBytes(frames[..index]) + FrameBytes(frame)
          == start + (FramesBytes(frames[..index]) + FrameBytes(frame));
    }
    assert frames[..|frames|] == frames;
    ok := true;
  }

  method AppendFrame(start: seq<byte>, frame: PublishedSnapshot) returns (bytes: seq<byte>)
    ensures bytes == start + FrameBytes(frame)
  {
    hide Pack, PackWords;
    var fields := [frame.generation, StatusCode(frame.payload.payloadStatus), 0, REGISTER_COUNT];
    bytes := AppendFields(start, FRAME_WIDTHS, fields);
    bytes := AppendRegisters(bytes, frame.payload.rawRegisters);
    FrameWidthsTotal();
    assert start + Pack(FRAME_WIDTHS, fields) + PackWords(frame.payload.rawRegisters)
        == start + (Pack(FRAME_WIDTHS, fields) + PackWords(frame.payload.rawRegisters));
  }

  method BuildHeader(values: seq<nat>) returns (header: seq<byte>)
    requires |values| == 15
    ensures header == PackHeader(values)
  {
    hide Pack;
    header := AppendFields([], HEADER_WIDTHS, values);
    HeaderWidthsTotal();
    assert [] + Pack(HEADER_WIDTHS, values) == Pack(HEADER_WIDTHS, values);
  }

  /** Saving, up to the file write. */
  method EncodeBundle(b: EventBundle) returns (file: Option<seq<byte>>)
    requires InRange(b)
    ensures file == Encode(b)
  {
    hide Milliseconds, HeaderValues, FramesBytes, DistinctGenerations, Crc32, StatsValid, InRange, PackHeader;
    var ms := Milliseconds(b.firstUtc);
    if ms.None? || b.id == 0 || Mask(b) == 0 || b.frames == [] || |b.frames| > MAX_FRAMES
       || !StatsValid(b.strong, b.strongReason) || !StatsValid(b.sudden, b.suddenReason) {
      return None;
    }
    var header := BuildHeader(HeaderValues(b, ms.value));
    var ok, body := AppendFrames(header, b.frames);
    if !ok {
      return None;
    }
    var crc := ComputeCrc32(body);
    return Some(body + Split32(crc));
  }

  /** Reading one frame at an offset. */
  method ReadFrame(bs: seq<byte>, at: nat) returns (frame: Option<PublishedSnapshot>)
    requires at + FRAME_BYTES <= |bs|
    ensures frame == DecodeFrame(bs, at)
  {
    hide Parse, StatusOf, Unpack;
    FrameWidthsTotal();
    var v := Unpack(FRAME_WIDTHS, bs, at);
    var status := DecodeStatus(v[1]);
    if v[0] == 0 || status.None? || v[2] != 0 || v[3] != REGISTER_COUNT {
      return None;
    }
    var registers: seq<Word> := [];
    for i := 0 to REGISTER_COUNT
      invariant |registers| == i
      invariant forall k | 0 <= k < i :: registers[k] == WordAt(bs, at + FRAME_HEADER_BYTES + 2 * k)
    {
      registers := registers + [WordAt(bs, at + FRAME_HEADER_BYTES + 2 * i)];
    }
    assert registers == UnpackWords(bs, at + FRAME_HEADER_BYTES, REGISTER_COUNT);
    var payload := ParseRegisters(registers);
    if payload.payloadStatus != status.value {
      return None;
    }
    return Some(PublishedSnapshot(v[0], payload));
  }

  /** Reading a file's bytes. */
  method DecodeBundle(bs: seq<byte>) returns (bundle: Option<EventBundle>)
    ensures bundle == Decode(bs)
  {
    hide UnpackHeader, DecodeFrame, Crc32, HeaderAccepted, BundleOf, StatsValid;
    if |bs| < HEADER_BYTES + CRC_BYTES || |bs| > FrameStart(MAX_FRAMES) + CRC_BYTES {
      return None;
    }
    var h := UnpackHeader(bs);
    if h[13] == 0 || h[13] > MAX_FRAMES || |bs| != FrameStart(h[13]) + CRC_BYTES {
      return None;
    }
    var end := |bs| - CRC_BYTES;
    var expected := ComputeCrc32(bs[..end]);
    if expected != Join32(bs[end], bs[end + 1], bs[end + 2], bs[end + 3]) || !HeaderAccepted(h) {
      return None;
    }
    var frames: seq<PublishedSnapshot> := [];
    for index := 0 to h[13]
      invariant DecodeFrames(bs, index) == Some(frames)
    {
      var frame := ReadFrame(bs, FrameStart(index));
      if frame.None? {
        DecodeFramesStops(bs, index + 1, h[13]);
        return None;
      }
      var known := FindGeneration(frames, frame.value.generation);
      if known {
        DecodeFramesStops(bs, index + 1, h[13]);
        return None;
      }
      frames := frames + [frame.value];
    }
    var b := BundleOf(h, frames);
    if !StatsValid(b.strong, b.strongReason) || !StatsValid(b.sudden, b.suddenReason) {
      return None;
    }
    return Some(b);
  }

  lemma {:induction false} DecodeFramesStops(bs: seq<byte>, i: nat, n: nat)
    requires i <= n && FrameStart(n) <= |bs| && DecodeFrames(bs, i) == None
    ensures DecodeFrames(bs, n) == None
    decreases n
  {
    hide DecodeFrame;
    if i < n {
      DecodeFramesStops(bs, i, n - 1);
    }
  }
}
