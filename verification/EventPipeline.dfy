/** From registers to disk: every bundle the detector hands out can be stored and read back. */
module EventPipeline {
  import opened Wrappers
  import opened Snapshot
  import opened SnapshotStore
  import opened EventDetector
  import opened EventRuns
  import opened EventStore

  /** A snapshot as the acquisition publishes it, observed at a representable time. */
  predicate Sound(op: Op) {
    op.Observed? ==>
      && op.s.payload == Parse(op.s.payload.rawRegisters)
      && op.s.generation < 0x1_0000_0000_0000_0000
      && 0 <= op.utc < 0x8000_0000_0000_0000
  }

  predicate StatRange(s: ReasonStats) { s.count <= COUNTER_MAX && -70 <= s.maxPeak <= 15 && 0 <= s.maxDelta <= 85 }

  predicate BundleRange(b: EventBundle, ids: nat) {
    StatRange(b.strong) && StatRange(b.sudden) && 0 <= b.firstUtc < 0x8000_0000_0000_0000 && b.id < ids
  }

  predicate SlotRange(slot: Option<Active>, ids: nat) { slot.Some? ==> BundleRange(slot.value.bundle, ids) }

  predicate AllRange(bs: seq<EventBundle>, ids: nat) { forall i | 0 <= i < |bs| :: BundleRange(bs[i], ids) }

  predicate Ranges(r: Run) {
    && (r.d.previousPeak.Some? ==> -70 <= r.d.previousPeak.value <= 15)
    && SlotRange(r.d.slot0, r.d.nextId) && SlotRange(r.d.slot1, r.d.nextId)
    && AllRange(r.d.completed, r.d.nextId) && AllRange(r.delivered, r.d.nextId) && AllRange(r.dropped, r.d.nextId)
    && Parsed(r.past.accepted) && Generations64(r.past.accepted)
  }

  lemma EmitRange(d: Detector, slot: Option<Active>, now: int, dropped: seq<EventBundle>)
    requires SlotRange(slot, d.nextId) && AllRange(d.completed, d.nextId) && AllRange(dropped, d.nextId)
    ensures AllRange(EmitDue(d, slot, now).completed, d.nextId)
    ensures AllRange(dropped + Pushed(d, slot, now), d.nextId)
    ensures SlotRange(Keep(slot, d.options, now), d.nextId)
  {
    CloseRange(slot, d.options, now, d.nextId);
    hide BundleRange, CloseIfDue, MergeDue;
  }

  lemma ExpireRanges(r: Run, now: int)
    requires Ranges(r)
    ensures Ranges(ExpireRun(r, now))
  {
    hide AllRange, SlotRange, Parsed, Generations64, EmitDue, Pushed, Keep;
    EmitKeepsRest(r.d, r.d.slot0, now);
    EmitRange(r.d, r.d.slot0, now, r.dropped);
    var r0 := ExpireSlot0(r, now);
    EmitKeepsRest(r0.d, r0.d.slot1, now);
    EmitRange(r0.d, r0.d.slot1, now, r0.dropped);
  }

  lemma CloseRange(slot: Option<Active>, o: EventOptions, now: int, ids: nat)
    requires SlotRange(slot, ids)
    ensures slot.Some? ==> BundleRange(CloseIfDue(slot.value, o, now).bundle, ids)
    ensures SlotRange(Keep(slot, o, now), ids)
  {
  }

  /** A verdict on an in-range snapshot after an in-range peak is in range. */
  lemma JudgeRange(d: Detector, s: PublishedSnapshot, isFresh: bool)
    requires s.payload == Parse(s.payload.rawRegisters)
    requires d.previousPeak.Some? ==> -70 <= d.previousPeak.value <= 15
    ensures var v := Judge(d, s, isFresh);
            && (v.previousPeak.Some? ==> -70 <= v.previousPeak.value <= 15)
            && (v.strong || v.sudden ==> -70 <= v.peak <= 15) && 0 <= v.delta <= 85
  {
    if ValidPeak(s, isFresh) {
      PeakInRange(s.payload.rawRegisters);
    }
  }

  lemma AttachRange(a: Active, strong: bool, sudden: bool, v: Verdict, ids: nat)
    requires SlotRange(Some(a), ids) && (v.strong || v.sudden ==> -70 <= v.peak <= 15) && 0 <= v.delta <= 85
    requires strong || sudden ==> v.strong || v.sudden
    ensures var a1 := if strong then AttachStrong(a, v.peak) else a;
            var a2 := if sudden then AttachSudden(a1, v.peak, v.delta) else a1;
            SlotRange(Some(a2), ids)
  {
  }

  lemma SlotMoreIds(slot: Option<Active>, ids: nat, more: nat)
    requires SlotRange(slot, ids) && ids <= more
    ensures SlotRange(slot, more)
  {
  }

  lemma NewActiveRange(d: Detector, v: Verdict, s: PublishedSnapshot, at: int, utc: int)
    requires (v.strong || v.sudden ==> -70 <= v.peak <= 15) && 0 <= v.delta <= 85 && 0 <= utc < 0x8000_0000_0000_0000
    ensures SlotRange(Some(NewActive(d, v, s, at, utc)), d.nextId + 1)
  {
  }

  lemma RouteRange(d: Detector, v: Verdict, s: PublishedSnapshot, at: int, utc: int)
    requires SlotRange(d.slot0, d.nextId) && SlotRange(d.slot1, d.nextId)
    requires (v.strong || v.sudden ==> -70 <= v.peak <= 15) && 0 <= v.delta <= 85
    requires 0 <= utc < 0x8000_0000_0000_0000
    ensures var d' := Route(d, v, s, at, utc);
            SlotRange(d'.slot0, d'.nextId) && SlotRange(d'.slot1, d'.nextId) && d'.nextId >= d.nextId
  {
    hide SlotRange, NewActive, AttachStrong, AttachSudden;
    NewActiveRange(d, v, s, at, utc);
    SlotMoreIds(d.slot0, d.nextId, d.nextId + 1);
    SlotMoreIds(d.slot1, d.nextId, d.nextId + 1);
    if v.strong || v.sudden {
      if d.slot0.Some? {
        AttachRange(d.slot0.value, true, true, v, d.nextId);
        AttachRange(d.slot0.value, true, false, v, d.nextId);
        AttachRange(d.slot0.value, false, true, v, d.nextId);
      }
      if d.slot1.Some? {
        AttachRange(d.slot1.value, true, true, v, d.nextId);
        AttachRange(d.slot1.value, true, false, v, d.nextId);
        AttachRange(d.slot1.value, false, true, v, d.nextId);
      }
    }
  }

  lemma MoreIds(bs: seq<EventBundle>, ids: nat, more: nat)
    requires AllRange(bs, ids) && ids <= more
    ensures AllRange(bs, more)
  {
  }

  lemma AppendPostRange(slot: Option<Active>, s: PublishedSnapshot, ids: nat)
    requires SlotRange(slot, ids)
    ensures SlotRange(AppendPost(slot, s), ids)
  {
  }

  lemma AcceptRanges(r: Run, s: PublishedSnapshot, at: int, isFresh: bool, utc: int)
    requires Ranges(r) && Sound(Observed(s, at, isFresh, utc))
    ensures Ranges(AcceptRun(r, s, at, isFresh, utc))
  {
    hide Route, Judge, AppendPost, LastTwo, SlotRange, AllRange, Parse;
    var d := r.d;
    AppendPostRange(d.slot0, s, d.nextId);
    AppendPostRange(d.slot1, s, d.nextId);
    var d1 := d.(slot0 := AppendPost(d.slot0, s), slot1 := AppendPost(d.slot1, s));
    JudgeSlots(d, d1, s, isFresh);
    JudgeRange(d, s, isFresh);
    var v := Judge(d1, s, isFresh);
    var d2 := d1.(armed := v.armed, previousPeak := v.previousPeak);
    RouteRange(d2, v, s, at, utc);
    RouteCreates(d2, v, s, at, utc);
    var ids := Route(d2, v, s, at, utc).nextId;
    MoreIds(d.completed, d.nextId, ids);
    MoreIds(r.delivered, d.nextId, ids);
    MoreIds(r.dropped, d.nextId, ids);
  }

  lemma {:induction false} RunRanges(o: EventOptions, ops: seq<Op>)
    requires forall i | 0 <= i < |ops| :: Sound(ops[i])
    ensures Ranges(RunOf(o, ops))
  {
    hide ExpireSlot0, ExpireSlot1, AcceptRun;
    if ops != [] {
      var r, op := RunOf(o, ops[..|ops| - 1]), ops[|ops| - 1];
      RunRanges(o, ops[..|ops| - 1]);
      match op
      case Configured(_) =>
      case Advanced(now) => ExpireRanges(r, now);
      case Observed(s, at, isFresh, utc) =>
        ExpireRanges(r, at);
        AcceptRanges(ExpireRun(r, at), s, at, isFresh, utc);
    }
  }

  /** Every bundle handed out by a detector fed with parsed snapshots passes the store's checks and is
      read back from its file as it was, up to what storage drops. */
  lemma PipelineRoundTrip(o: EventOptions, ops: seq<Op>, b: EventBundle)
    requires forall i | 0 <= i < |ops| :: Sound(ops[i])
    requires b in RunOf(o, ops).delivered && RunOf(o, ops).d.nextId <= 0x1_0000_0000_0000_0000
    ensures InRange(b) && Storable(b) && Decode(Encode(b).value) == Some(Stored(b))
  {
    hide RunOf, Decode, Encode, Parse;
    var r := RunOf(o, ops);
    RunRanges(o, ops);
    DeliveredBundles(o, ops, b);
    var k := TriggerOf(b, r.past);
    SliceOk(r.past.accepted, Lead(k), k + 1 + FramesAfter(b, k));
    var i :| 0 <= i < |r.delivered| && r.delivered[i] == b;
    assert BundleRange(b, r.d.nextId);
    DistinctOfIncreasing(b.frames);
    ReadBackWritten(b);
  }

  lemma SliceOk(acc: seq<PublishedSnapshot>, lo: nat, hi: nat)
    requires lo <= hi <= |acc| && Parsed(acc) && Generations64(acc)
    ensures Parsed(acc[lo..hi]) && Generations64(acc[lo..hi])
  {
    hide Parse;
  }

  lemma DistinctOfIncreasing(fs: seq<PublishedSnapshot>)
    requires Increasing(fs)
    ensures DistinctGenerations(fs)
  {
  }
}
