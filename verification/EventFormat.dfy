/** The event file byte by byte: which number stands at which offset, least significant byte first. */
module EventFormat {
  import opened Wrappers
  import opened Bytes
  import opened Crc
  import opened Layout
  import opened Snapshot
  import opened SnapshotStore
  import opened EventDetector
  import opened EventStore

  /** The number in `n` bytes, byte `k` weighing 256 to the power `k`. */
  function Number(file: seq<byte>, at: nat, n: nat): nat
    requires at + n <= |file|
  {
    if n == 0 then 0 else Number(file, at, n - 1) + file[at + n - 1] as int * Pow256(n - 1)
  }

  lemma {:induction false} NumberHead(file: seq<byte>, at: nat, n: nat)
    requires at + n <= |file| && n > 0
    ensures Number(file, at, n) == file[at] as int + 256 * Number(file, at + 1, n - 1)
  {
    if n > 1 {
      NumberHead(file, at, n - 1);
      Weight(file[at + n - 1] as int, n);
    }
  }

  lemma Weight(v: nat, n: nat)
    requires n > 1
    ensures v * Pow256(n - 1) == 256 * (v * Pow256(n - 2))
  {
  }

  lemma {:induction false} NumberIsLE(file: seq<byte>, at: nat, n: nat)
    requires at + n <= |file|
    ensures Number(file, at, n) == FromLE(file[at..at + n])
    decreases n
  {
    if n > 0 {
      NumberHead(file, at, n);
      NumberIsLE(file, at + 1, n - 1);
      assert file[at..at + n][1..] == file[at + 1..at + n];
    }
  }

  // ----- Offsets -----

  lemma {:induction false} OffsetNext(widths: seq<nat>, k: nat)
    requires k < |widths|
    ensures Offset(widths, k + 1) == Offset(widths, k) + widths[k]
    decreases k
  {
    if k > 0 {
      OffsetNext(widths[1..], k - 1);
    }
  }

  lemma FirstOffset(widths: seq<nat>)
    ensures Offset(widths, 0) == 0
  {
  }

  lemma FirstHalf(w: seq<nat>)
    requires |w| == 15 && w[0] == 4 && w[1] == 2 && w[2] == 8 && w[3] == 8 && w[4] == 1 && w[5] == 1 && w[6] == 2
    ensures Offset(w, 0) == 0 && Offset(w, 1) == 4 && Offset(w, 2) == 6 && Offset(w, 3) == 14 && Offset(w, 4) == 22
    ensures Offset(w, 5) == 23 && Offset(w, 6) == 24 && Offset(w, 7) == 26
  {
    hide Offset;
    FirstOffset(w);
    OffsetNext(w, 0);
    OffsetNext(w, 1);
    OffsetNext(w, 2);
    OffsetNext(w, 3);
    OffsetNext(w, 4);
    OffsetNext(w, 5);
    OffsetNext(w, 6);
  }

  lemma SecondHalf(w: seq<nat>)
    requires |w| == 15 && Offset(w, 7) == 26 && w[13] == 2
    requires w[7] == w[8] == w[9] == w[10] == w[11] == w[12] == 4
    ensures Offset(w, 8) == 30 && Offset(w, 9) == 34 && Offset(w, 10) == 38 && Offset(w, 11) == 42
    ensures Offset(w, 12) == 46 && Offset(w, 13) == 50 && Offset(w, 14) == 52
  {
    hide Offset;
    OffsetNext(w, 7);
    OffsetNext(w, 8);
    OffsetNext(w, 9);
    OffsetNext(w, 10);
    OffsetNext(w, 11);
    OffsetNext(w, 12);
    OffsetNext(w, 13);
  }

  /** A packed field stands at its offset. */
  lemma FieldAt(widths: seq<nat>, v: seq<nat>, file: seq<byte>, at: nat, k: nat)
    requires Fits(widths, v) && at + Total(widths) <= |file| && file[at..at + Total(widths)] == Pack(widths, v)
    requires k < |widths|
    ensures at + Offset(widths, k) + widths[k] <= |file|
    ensures Number(file, at + Offset(widths, k), widths[k]) == v[k]
  {
    hide Pack, Unpack, FromLE, Number;
    UnpackPack(widths, v, file, at);
    UnpackAt(widths, file, at, k);
    NumberIsLE(file, at + Offset(widths, k), widths[k]);
  }

  // ----- The file -----

  /** The fixed part of the header, the time stamp and what the bundle is. */
  predicate IdentityAt(file: seq<byte>, b: EventBundle, ms: nat)
    requires |file| >= 54
  {
    && Number(file, 0, 4) == 0x45464855 && Number(file, 4, 2) == 1 && Number(file, 6, 8) == ms
    && Number(file, 14, 8) == b.id
    && Number(file, 22, 1) == (if b.strongReason then 1 else 0) + (if b.suddenReason then 2 else 0)
    && Number(file, 23, 1) == (if b.partial then 1 else 0) && Number(file, 24, 2) == 0
    && Number(file, 50, 2) == |b.frames| && Number(file, 52, 2) == 0
  }

  /** A signed number in 32 bits. */
  predicate Signed(file: seq<byte>, at: nat, v: int)
    requires at + 4 <= |file|
  {
    Number(file, at, 4) == if v < 0 then v + 0x1_0000_0000 else v
  }

  predicate StatsAt(file: seq<byte>, at: nat, s: ReasonStats)
    requires at + 12 <= |file|
  {
    Number(file, at, 4) == s.count && Signed(file, at + 4, s.maxPeak) && Signed(file, at + 8, s.maxDelta)
  }

  lemma ReadField(file: seq<byte>, k: nat)
    requires |file| >= HEADER_BYTES && k < 15
    ensures Offset(HEADER_WIDTHS, k) + HEADER_WIDTHS[k] <= |file|
    ensures UnpackHeader(file)[k] == Number(file, Offset(HEADER_WIDTHS, k), HEADER_WIDTHS[k])
  {
    hide Unpack, Offset, Total, Number;
    HeaderWidthsTotal();
    FieldRead(HEADER_WIDTHS, file, k);
  }

  lemma FieldRead(widths: seq<nat>, file: seq<byte>, k: nat)
    requires Total(widths) <= |file| && k < |widths|
    ensures Offset(widths, k) + widths[k] <= |file|
    ensures Unpack(widths, file, 0)[k] == Number(file, Offset(widths, k), widths[k])
  {
    hide FromLE, Number, Unpack, Offset, Total;
    UnpackAt(widths, file, 0, k);
    NumberIsLE(file, Offset(widths, k), widths[k]);
  }

  lemma HeaderRead(b: EventBundle, file: seq<byte>)
    requires InRange(b) && Encode(b) == Some(file)
    ensures |file| >= HEADER_BYTES && UnpackHeader(file) == HeaderValues(b, Milliseconds(b.firstUtc).value)
  {
    hide Encode, HeaderValues, UnpackHeader, PackHeader, InRange, Milliseconds, FramesBytes, Crc32Ok, HeaderFits;
    FilePieces(b, file);
    EncodedStorable(b);
    MillisecondsBound(b.firstUtc);
    HeaderValuesFit(b, Milliseconds(b.firstUtc).value);
    UnpackPackHeader(HeaderValues(b, Milliseconds(b.firstUtc).value), file);
  }

  lemma EncodedStorable(b: EventBundle)
    requires InRange(b)
    ensures Encode(b).Some? ==> Storable(b) && -0x8000_0000_0000_0000 <= b.firstUtc < 0x8000_0000_0000_0000
  {
  }

  lemma IdentityFields(file: seq<byte>, b: EventBundle, ms: nat)
    requires |file| >= HEADER_BYTES && InRange(b) && UnpackHeader(file) == HeaderValues(b, ms)
    ensures IdentityAt(file, b, ms)
  {
    hide UnpackHeader, Offset, Number, InRange;
    var w := HEADER_WIDTHS;
    FirstHalf(w);
    SecondHalf(w);
    ReadField(file, 0);
    ReadField(file, 1);
    ReadField(file, 2);
    ReadField(file, 3);
    ReadField(file, 4);
    ReadField(file, 5);
    ReadField(file, 6);
    ReadField(file, 13);
    ReadField(file, 14);
  }

  lemma StatsFields(file: seq<byte>, b: EventBundle, ms: nat)
    requires |file| >= HEADER_BYTES && InRange(b) && UnpackHeader(file) == HeaderValues(b, ms)
    ensures StatsAt(file, 26, b.strong) && StatsAt(file, 38, b.sudden)
  {
    hide UnpackHeader, Offset, Number;
    var w := HEADER_WIDTHS;
    FirstHalf(w);
    SecondHalf(w);
    ReadField(file, 7);
    ReadField(file, 8);
    ReadField(file, 9);
    ReadField(file, 10);
    ReadField(file, 11);
    ReadField(file, 12);
  }

  /** A stored bundle's header: the marks of the format, the trigger's time in whole milliseconds, the
      bundle's id, reasons and flag, the statistics of both reasons and the number of frames, each at its
      place; the file ends with its CRC-32. */
  lemma HeaderLayout(b: EventBundle)
    requires InRange(b) && Storable(b)
    ensures var file := Encode(b).value;
            && |file| == 54 + 7242 * |b.frames| + 4 && Crc32Ok(file)
            && StatsAt(file, 26, b.strong) && StatsAt(file, 38, b.sudden)
            && var ms := Milliseconds(b.firstUtc).value;
               IdentityAt(file, b, ms)
               && (if b.firstUtc < 0 then ms == 0 && -1_000_000 < b.firstUtc
                   else ms * 1_000_000 <= b.firstUtc < (ms + 1) * 1_000_000)
  {
    hide Encode, HeaderValues, UnpackHeader, FramesBytes, Crc32Ok, IdentityAt, StatsAt, StatsValid, DistinctGenerations;
    EncodedWhenStorable(b);
    var file := Encode(b).value;
    FilePieces(b, file);
    HeaderRead(b, file);
    IdentityFields(file, b, Milliseconds(b.firstUtc).value);
    StatsFields(file, b, Milliseconds(b.firstUtc).value);
  }

  lemma EncodedWhenStorable(b: EventBundle)
    requires InRange(b) && Storable(b)
    ensures Encode(b).Some?
  {
  }

  // ----- The frames -----

  lemma FrameOffsets(w: seq<nat>)
    requires |w| == 4 && w[0] == 8 && w[1] == 1 && w[2] == 1
    ensures Offset(w, 0) == 0 && Offset(w, 1) == 8 && Offset(w, 2) == 9 && Offset(w, 3) == 10
  {
    hide Offset;
    FirstOffset(w);
    OffsetNext(w, 0);
    OffsetNext(w, 1);
    OffsetNext(w, 2);
  }

  /** One frame: its generation, status and register count, and the registers in order. */
  predicate FrameAt(file: seq<byte>, at: nat, f: PublishedSnapshot)
    requires at + 7242 <= |file|
  {
    && Number(file, at, 8) == f.generation
    && Number(file, at + 8, 1) ==
       (match f.payload.payloadStatus case Good => 0 case Degraded => 1 case NotRefreshed => 2)
    && Number(file, at + 9, 1) == 0 && Number(file, at + 10, 2) == 3615
    && forall k | 0 <= k < 3615 :: RegisterAt(file, at + 12, k, f.payload.rawRegisters[k])
  }

  predicate RegisterAt(file: seq<byte>, at: nat, k: nat, v: Word)
    requires at + 2 * k + 2 <= |file|
  {
    Number(file, at + 2 * k, 2) == v
  }

  lemma TwoBytes(file: seq<byte>, at: nat)
    requires at + 2 <= |file|
    ensures Number(file, at, 2) == WordAt(file, at)
  {
    assert Number(file, at, 1) == Number(file, at, 0) + file[at] as int * Pow256(0);
    assert Pow256(1) == 256 * Pow256(0);
  }

  lemma FrameFields(file: seq<byte>, at: nat, f: PublishedSnapshot)
    requires at + FRAME_BYTES <= |file| && file[at..at + FRAME_BYTES] == FrameBytes(f)
    requires f.generation < 0x1_0000_0000_0000_0000
    ensures FrameAt(file, at, f)
  {
    hide Pack, PackWords, Number, Offset, Fits, Total;
    FrameWidthsTotal();
    FrameWidthsFit(f);
    var values := [f.generation, StatusCode(f.payload.payloadStatus), 0, REGISTER_COUNT];
    var mid := at + FRAME_HEADER_BYTES;
    SliceSplit(file, at, mid, at + FRAME_BYTES);
    ConcatCancel(file[at..mid], file[mid..at + FRAME_BYTES],
                 Pack(FRAME_WIDTHS, values), PackWords(f.payload.rawRegisters));
    FrameOffsets(FRAME_WIDTHS);
    FieldAt(FRAME_WIDTHS, values, file, at, 0);
    FieldAt(FRAME_WIDTHS, values, file, at, 1);
    FieldAt(FRAME_WIDTHS, values, file, at, 2);
    FieldAt(FRAME_WIDTHS, values, file, at, 3);
    forall k | 0 <= k < REGISTER_COUNT ensures RegisterAt(file, mid, k, f.payload.rawRegisters[k]) {
      WordInPlace(f.payload.rawRegisters, file, mid, k);
      TwoBytes(file, mid + 2 * k);
    }
  }

  /** Every frame of a stored bundle stands whole at its place. */
  lemma FrameLayout(b: EventBundle, i: nat)
    requires InRange(b) && Storable(b) && i < |b.frames|
    ensures var file := Encode(b).value;
            54 + 7242 * (i + 1) <= |file| && FrameAt(file, 54 + 7242 * i, b.frames[i])
  {
    hide Encode, HeaderValues, PackHeader, FramesBytes, FrameBytes, Crc32Ok, FrameAt, StatsValid, DistinctGenerations;
    EncodedWhenStorable(b);
    var file := Encode(b).value;
    FilePieces(b, file);
    FramesInPlace(b.frames, file, i);
    FrameFields(file, FrameStart(i), b.frames[i]);
  }
}
