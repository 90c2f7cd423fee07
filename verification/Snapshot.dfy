/** The PD1000 register block and its interpretation. */
module Snapshot {
  const REGISTER_COUNT: nat := 3615
  const SPECTRUM_OFFSET: nat := 15
  const SPECTRUM_POINTS: nat := 3600
  const INVALID_DATA: Word := 0xFFBA
  const NOT_REFRESHED: Word := 0xFFBC

  type Word = x: int | 0 <= x < 65536

  type Registers = r: seq<Word> | |r| == REGISTER_COUNT witness ZeroRegisters()

  function ZeroRegisters(): (r: seq<Word>)
    ensures |r| == REGISTER_COUNT
  {
    seq(REGISTER_COUNT, _ => 0)
  }

  datatype PayloadStatus = Good | Degraded | NotRefreshed

  datatype Measurement = Measurement(raw: Word, value: int, valid: bool)

  datatype ParsedSnapshot = ParsedSnapshot(
    rawRegisters: Registers,
    measurements: seq<Measurement>,
    spectrum: seq<int>,
    spectrumValid: seq<bool>,
    payloadStatus: PayloadStatus)

  function DecodeInt16(raw: Word): (v: int)
    ensures -32768 <= v < 32768
    ensures v % 65536 == raw
  {
    if raw <= 0x7FFF then raw else raw - 0x10000
  }

  predicate Reserved(raw: Word) { raw == INVALID_DATA || raw == NOT_REFRESHED }

  function SignedMeasurement(raw: Word, lo: int, hi: int): Measurement {
    Measurement(raw, DecodeInt16(raw), !Reserved(raw) && lo <= DecodeInt16(raw) <= hi)
  }

  function UnsignedMeasurement(raw: Word, lo: int, hi: int): Measurement {
    Measurement(raw, raw, !Reserved(raw) && lo <= raw <= hi)
  }

  predicate PointValid(raw: Word) { !Reserved(raw) && -70 <= DecodeInt16(raw) <= 15 }

  function Measurements(r: Registers): (ms: seq<Measurement>)
    ensures |ms| == 5
  {
    [SignedMeasurement(r[0], -70, 15), UnsignedMeasurement(r[1], 0, 65535),
     SignedMeasurement(r[2], -70, 15), UnsignedMeasurement(r[3], 0, 360),
     UnsignedMeasurement(r[4], 0, 4096)]
  }

  predicate AllNotRefreshed(points: seq<Word>) {
    forall i | 0 <= i < |points| :: points[i] == NOT_REFRESHED
  }

  predicate AllPointsValid(points: seq<Word>) {
    forall i | 0 <= i < |points| :: PointValid(points[i])
  }

  function StatusOf(r: Registers): PayloadStatus {
    var points := r[SPECTRUM_OFFSET..];
    if AllNotRefreshed(points) then NotRefreshed
    else if AllPointsValid(points) && (forall m | m in Measurements(r) :: m.valid) then Good
    else Degraded
  }

  /** What the register block means, stated without the loop. */
  function Parse(r: Registers): (s: ParsedSnapshot)
    ensures s.rawRegisters == r && |s.measurements| == 5
  {
    ParsedSnapshot(
      r,
      Measurements(r),
      seq(SPECTRUM_POINTS, i requires 0 <= i < SPECTRUM_POINTS => DecodeInt16(r[SPECTRUM_OFFSET + i])),
      seq(SPECTRUM_POINTS, i requires 0 <= i < SPECTRUM_POINTS => PointValid(r[SPECTRUM_OFFSET + i])),
      StatusOf(r))
  }

  /** The single pass over the spectrum with its two running flags. */
  method ParseRegisters(r: Registers) returns (s: ParsedSnapshot)
    ensures s == Parse(r)
  {
    var spectrum, valid: seq<bool> := [], [];
    var allNotRefreshed, allValid := true, true;
    ghost var points := r[SPECTRUM_OFFSET..];
    for index := 0 to SPECTRUM_POINTS
      invariant |spectrum| == |valid| == index
      invariant forall i | 0 <= i < index :: spectrum[i] == DecodeInt16(points[i]) && valid[i] == PointValid(points[i])
      invariant allNotRefreshed == AllNotRefreshed(points[..index])
      invariant allValid == AllPointsValid(points[..index])
    {
      var raw := r[SPECTRUM_OFFSET + index];
      assert points[..index + 1] == points[..index] + [raw];
      var value := DecodeInt16(raw);
      var pointValid := !Reserved(raw) && value >= -70 && value <= 15;
      spectrum := spectrum + [value];
      valid := valid + [pointValid];
      allNotRefreshed := allNotRefreshed && raw == NOT_REFRESHED;
      allValid := allValid && pointValid;
    }
    assert points[..SPECTRUM_POINTS] == points;
    var measurements := Measurements(r);
    var measurementsValid := true;
    for index := 0 to 5
      invariant measurementsValid == forall m | m in measurements[..index] :: m.valid
    {
      measurementsValid := measurementsValid && measurements[index].valid;
    }
    assert measurements[..5] == measurements;
    var status;
    if allNotRefreshed {
      status := NotRefreshed;
    } else if !allValid || !measurementsValid {
      status := Degraded;
    } else {
      status := Good;
    }
    s := ParsedSnapshot(r, measurements, spectrum, valid, status);
  }

  function TwosComplement(word: int): int { if word < 32768 then word else word - 65536 }

  /** A register that holds a level in dBm: the two markers stand where -70 and -68 would be. */
  predicate Level(raw: Word) { raw <= 15 || raw == 65467 || 65469 <= raw }

  /** Which register each measurement comes from, when it counts, and what it is worth; the peak is the
      third. */
  lemma RegisterMeaning(r: Registers)
    ensures var ms := Parse(r).measurements;
            && (forall k | 0 <= k < 5 :: ms[k].raw == r[k])
            && (forall k | k == 0 || k == 2 ::
                  && ms[k].value == TwosComplement(r[k])
                  && (ms[k].valid <==> Level(r[k]))
                  && (ms[k].valid <==> -69 <= ms[k].value <= 15 && ms[k].value != -68))
            && (forall k | k == 1 || k == 3 || k == 4 :: ms[k].value == r[k])
            && (ms[1].valid <==> r[1] != 65466 && r[1] != 65468)
            && (ms[3].valid <==> r[3] <= 360) && (ms[4].valid <==> r[4] <= 4096)
  {
  }

  /** The spectrum is the block from register 15 on, point for point. */
  lemma SpectrumMeaning(r: Registers, i: nat)
    requires i < 3600
    ensures var s := Parse(r);
            && |s.spectrum| == |s.spectrumValid| == 3600
            && s.spectrum[i] == TwosComplement(r[15 + i])
            && (s.spectrumValid[i] <==> Level(r[15 + i]))
  {
    hide Level, PointValid, Measurements, StatusOf;
    LevelMeaning(r[15 + i]);
    var s := Parse(r);
    assert s.spectrum[i] == DecodeInt16(r[SPECTRUM_OFFSET + i]);
    assert s.spectrumValid[i] == PointValid(r[SPECTRUM_OFFSET + i]);
  }

  /** When a block is not refreshed, good, or degraded, by its registers. */
  lemma StatusMeaning(r: Registers)
    ensures var s := Parse(r).payloadStatus;
            && (s == NotRefreshed <==> forall i | 15 <= i < 3615 :: r[i] == 65468)
            && (s == Good <==>
                  && (forall i | 15 <= i < 3615 :: Level(r[i]))
                  && Level(r[0]) && r[1] != 65466 && r[1] != 65468 && Level(r[2]) && r[3] <= 360 && r[4] <= 4096)
  {
    hide Measurements, Level, PointValid;
    var points := r[SPECTRUM_OFFSET..];
    assert forall i | 15 <= i < 3615 :: points[i - 15] == r[i];
    assert forall i | 0 <= i < 3600 :: points[i] == r[15 + i];
    forall i | 15 <= i < 3615 ensures PointValid(r[i]) <==> Level(r[i]) {
      LevelMeaning(r[i]);
    }
    RegisterMeaning(r);
    var ms := Measurements(r);
    assert (forall m | m in ms :: m.valid) <==> ms[0].valid && ms[1].valid && ms[2].valid && ms[3].valid && ms[4].valid;
    if forall i | 15 <= i < 3615 :: r[i] == 65468 {
      assert r[15] == 65468;
      MarkerIsNoLevel();
    }
  }

  lemma LevelMeaning(raw: Word)
    ensures PointValid(raw) <==> Level(raw)
  {
  }

  lemma MarkerIsNoLevel()
    ensures !Level(65468)
  {
  }

  /** A refreshed, valid peak reading is always inside the sensor's range. */
  lemma PeakInRange(r: Registers)
    requires Parse(r).measurements[2].valid
    ensures -70 <= Parse(r).measurements[2].value <= 15
  {
  }
}
