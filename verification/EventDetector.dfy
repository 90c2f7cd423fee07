/** The partial-discharge event detector: hysteresis triggers, two merging bundle slots, frames before
    and after a trigger, and a bounded queue of finished bundles. Times are integers; a bundle's reason
    mask is kept as its two bits. */
module EventDetector {
  import opened Wrappers
  import opened Snapshot
  import opened SnapshotStore

  const POST_FRAMES: nat := 3
  const HISTORY_FRAMES: nat := 2

  datatype ReasonStats = ReasonStats(count: nat, maxPeak: int, maxDelta: int)

  const NO_STATS := ReasonStats(0, 0, 0)

  datatype EventBundle = EventBundle(
    id: nat, firstAt: int, firstUtc: int, strongReason: bool, suddenReason: bool, partial: bool,
    strong: ReasonStats, sudden: ReasonStats, frames: seq<PublishedSnapshot>)

  datatype EventOptions = EventOptions(
    strongTrigger: int, strongRearm: int, suddenDelta: int, postTimeout: int, mergeWindow: int, maxPending: nat)

  const DEFAULT_OPTIONS := EventOptions(-45, -50, 10, 30, 60, 8)

  datatype Active = Active(bundle: EventBundle, postFrames: nat, closed: bool)

  datatype Detector = Detector(
    options: EventOptions, armed: bool, previousPeak: Option<int>, lastGeneration: Option<nat>, nextId: nat,
    history: seq<PublishedSnapshot>, slot0: Option<Active>, slot1: Option<Active>,
    completed: seq<EventBundle>, droppedCount: nat)

  function NewDetector(o: EventOptions): Detector {
    Detector(o, true, None, None, 1, [], None, None, [], 0)
  }

  // ----- Statistics -----

  function UpdateStats(s: ReasonStats, peak: int, delta: int): ReasonStats {
    ReasonStats(
      if s.count < COUNTER_MAX then s.count + 1 else s.count,
      if s.count == 0 || peak > s.maxPeak then peak else s.maxPeak,
      if delta > s.maxDelta then delta else s.maxDelta)
  }

  function AttachStrong(a: Active, peak: int): Active {
    a.(bundle := a.bundle.(strongReason := true, strong := UpdateStats(a.bundle.strong, peak, 0)))
  }

  function AttachSudden(a: Active, peak: int, delta: int): Active {
    a.(bundle := a.bundle.(suddenReason := true, sudden := UpdateStats(a.bundle.sudden, peak, delta)))
  }

  // ----- Frames after the trigger -----

  predicate HasGeneration(frames: seq<PublishedSnapshot>, g: nat) {
    exists i | 0 <= i < |frames| :: frames[i].generation == g
  }

  function AppendPost(slot: Option<Active>, s: PublishedSnapshot): Option<Active> {
    if slot.None? || slot.value.closed || HasGeneration(slot.value.bundle.frames, s.generation) then slot
    else
      var a := slot.value;
      Some(Active(a.bundle.(frames := a.bundle.frames + [s]), a.postFrames + 1, a.postFrames + 1 >= POST_FRAMES))
  }

  // ----- Expiry and the queue -----

  function Enqueue(d: Detector, b: EventBundle): Detector {
    if d.options.maxPending == 0 then d.(droppedCount := d.droppedCount + 1)
    else if |d.completed| >= d.options.maxPending then
      d.(completed := d.completed[1..] + [b], droppedCount := d.droppedCount + 1)
    else d.(completed := d.completed + [b])
  }

  /** Closing the collection of a bundle whose timeout has passed. */
  function CloseIfDue(a: Active, o: EventOptions, now: int): Active {
    if !a.closed && now >= a.bundle.firstAt + o.postTimeout then
      Active(a.bundle.(partial := a.postFrames < POST_FRAMES), a.postFrames, true)
    else a
  }

  predicate MergeDue(a: Active, o: EventOptions, now: int) { now >= a.bundle.firstAt + o.mergeWindow }

  function Keep(slot: Option<Active>, o: EventOptions, now: int): Option<Active> {
    if slot.None? || MergeDue(slot.value, o, now) then None else Some(CloseIfDue(slot.value, o, now))
  }

  function EmitDue(d: Detector, slot: Option<Active>, now: int): Detector {
    if slot.Some? && MergeDue(slot.value, d.options, now) then Enqueue(d, CloseIfDue(slot.value, d.options, now).bundle)
    else d
  }

  function Expire(d: Detector, now: int): Detector {
    var d0 := EmitDue(d, d.slot0, now).(slot0 := Keep(d.slot0, d.options, now));
    EmitDue(d0, d0.slot1, now).(slot1 := Keep(d0.slot1, d.options, now))
  }

  // ----- Triggers -----

  datatype Verdict = Verdict(armed: bool, previousPeak: Option<int>, strong: bool, sudden: bool, peak: int, delta: int)

  predicate ValidPeak(s: PublishedSnapshot, isFresh: bool) {
    isFresh && s.payload.payloadStatus != NotRefreshed && |s.payload.measurements| > 2
        && s.payload.measurements[2].valid
  }

  function PeakOf(s: PublishedSnapshot): int {
    if |s.payload.measurements| > 2 then s.payload.measurements[2].value else 0
  }

  function Abs(x: int): nat { if x < 0 then -x else x }

  /** The hysteresis and the jump test on one accepted snapshot. */
  function Judge(d: Detector, s: PublishedSnapshot, isFresh: bool): Verdict {
    if !ValidPeak(s, isFresh) then Verdict(d.armed, d.previousPeak, false, false, 0, 0)
    else
      var peak := PeakOf(s);
      var armed := d.armed || peak < d.options.strongRearm;
      var strong := armed && peak >= d.options.strongTrigger;
      var jump := if d.previousPeak.Some? then Abs(peak - d.previousPeak.value) else 0;
      var sudden := d.previousPeak.Some? && jump >= d.options.suddenDelta;
      Verdict(armed && !strong, Some(peak), strong, sudden, peak, if sudden then jump else 0)
  }

  predicate CarriesStrong(slot: Option<Active>) { slot.Some? && slot.value.bundle.strongReason }

  predicate CarriesSudden(slot: Option<Active>) { slot.Some? && slot.value.bundle.suddenReason }

  function NewActive(d: Detector, v: Verdict, s: PublishedSnapshot, at: int, utc: int): Active {
    Active(
      EventBundle(d.nextId, at, utc, v.strong, v.sudden, false,
                  if v.strong then ReasonStats(1, v.peak, 0) else NO_STATS,
                  if v.sudden then ReasonStats(1, v.peak, v.delta) else NO_STATS,
                  d.history + [s]),
      0, false)
  }

  /** The first free slot takes the new bundle; with no free slot the trigger is lost. */
  function CreateBundle(d: Detector, v: Verdict, s: PublishedSnapshot, at: int, utc: int): Detector {
    if d.slot0.None? then d.(nextId := d.nextId + 1, slot0 := Some(NewActive(d, v, s, at, utc)))
    else if d.slot1.None? then d.(nextId := d.nextId + 1, slot1 := Some(NewActive(d, v, s, at, utc)))
    else d
  }

  /** Index of the first slot carrying a reason, or 2. */
  function FindStrong(d: Detector): nat {
    if CarriesStrong(d.slot0) then 0 else if CarriesStrong(d.slot1) then 1 else 2
  }

  function FindSudden(d: Detector): nat {
    if CarriesSudden(d.slot0) then 0 else if CarriesSudden(d.slot1) then 1 else 2
  }

  function OnSlot(d: Detector, i: nat, strong: bool, sudden: bool, v: Verdict): Detector
    requires i == 0 ==> d.slot0.Some?
    requires i == 1 ==> d.slot1.Some?
    requires i < 2
  {
    var a := if i == 0 then d.slot0.value else d.slot1.value;
    var a1 := if strong then AttachStrong(a, v.peak) else a;
    var a2 := if sudden then AttachSudden(a1, v.peak, v.delta) else a1;
    if i == 0 then d.(slot0 := Some(a2)) else d.(slot1 := Some(a2))
  }

  /** Where the triggers of one snapshot go. */
  function Route(d: Detector, v: Verdict, s: PublishedSnapshot, at: int, utc: int): Detector {
    var strongSlot, suddenSlot := FindStrong(d), FindSudden(d);
    if v.strong && v.sudden then
      if strongSlot < 2 && suddenSlot < 2 && strongSlot != suddenSlot then
        OnSlot(OnSlot(d, strongSlot, true, false, v), suddenSlot, false, true, v)
      else if strongSlot < 2 then OnSlot(d, strongSlot, true, true, v)
      else if suddenSlot < 2 then OnSlot(d, suddenSlot, true, true, v)
      else CreateBundle(d, v, s, at, utc)
    else if v.strong then
      if strongSlot < 2 then OnSlot(d, strongSlot, true, false, v) else CreateBundle(d, v, s, at, utc)
    else if v.sudden then
      if suddenSlot < 2 then OnSlot(d, suddenSlot, false, true, v) else CreateBundle(d, v, s, at, utc)
    else d
  }

  predicate Accepts(d: Detector, s: PublishedSnapshot) {
    s.generation != 0 && (d.lastGeneration.None? || s.generation > d.lastGeneration.value)
  }

  function LastTwo(h: seq<PublishedSnapshot>): seq<PublishedSnapshot> {
    if |h| > HISTORY_FRAMES then h[|h| - HISTORY_FRAMES..] else h
  }

  /** An accepted snapshot, after expiry. */
  function Accept(d: Detector, s: PublishedSnapshot, at: int, isFresh: bool, utc: int): Detector {
    var d1 := d.(slot0 := AppendPost(d.slot0, s), slot1 := AppendPost(d.slot1, s));
    var v := Judge(d1, s, isFresh);
    var d2 := Route(d1.(armed := v.armed, previousPeak := v.previousPeak), v, s, at, utc);
    d2.(history := LastTwo(d2.history + [s]), lastGeneration := Some(s.generation))
  }

  function Observe(d: Detector, s: PublishedSnapshot, at: int, isFresh: bool, utc: int): Detector {
    var d1 := Expire(d, at);
    if Accepts(d1, s) then Accept(d1, s, at, isFresh, utc) else d1
  }

  function TakeCompleted(d: Detector): Detector { d.(completed := []) }

  // ----- The detector object -----

  class LiveDetector {
    var options: EventOptions
    var armed: bool
    var previousPeak: Option<int>
    var lastGeneration: Option<nat>
    var nextId: nat
    var history: seq<PublishedSnapshot>
    const slots: array<Option<Active>>
    var completed: seq<EventBundle>
    var droppedCount: nat

    ghost predicate Valid()
      reads this
    {
      slots.Length == 2
    }

    ghost function Model(): Detector
      requires Valid()
      reads this, slots
    {
      Detector(options, armed, previousPeak, lastGeneration, nextId, history, slots[0], slots[1], completed,
          droppedCount)
    }

    constructor (o: EventOptions)
      ensures Valid() && fresh(slots) && Model() == NewDetector(o)
    {
      options, armed, previousPeak, lastGeneration, nextId := o, true, None, None, 1;
      history, completed, droppedCount := [], [], 0;
      slots := new Option<Active>[2](_ => None);
    }

    method SetOptions(o: EventOptions)
      requires Valid()
      modifies this`options
      ensures Valid() && Model() == old(Model()).(options := o)
    {
      options := o;
    }

    method EnqueueBundle(b: EventBundle)
      requires Valid()
      modifies this`completed, this`droppedCount
      ensures Valid() && Model() == Enqueue(old(Model()), b)
    {
      if options.maxPending == 0 {
        droppedCount := droppedCount + 1;
        return;
      }
      if |completed| >= options.maxPending {
        completed := completed[1..];
        droppedCount := droppedCount + 1;
      }
      completed := completed + [b];
    }

    method ExpireSlot(i: nat, now: int)
      requires Valid() && i < 2
      modifies this`completed, this`droppedCount, slots
      ensures Valid()
      ensures var d := old(Model());
              var slot := if i == 0 then d.slot0 else d.slot1;
              var d' := EmitDue(d, slot, now);
              Model() == if i == 0 then d'.(slot0 := Keep(slot, d.options, now))
                         else d'.(slot1 := Keep(slot, d.options, now))
    {
      if slots[i].None? {
        return;
      }
      var active := slots[i].value;
      var first := active.bundle.firstAt;
      if !active.closed && now >= first + options.postTimeout {
        active := active.(closed := true, bundle := active.bundle.(partial := active.postFrames < POST_FRAMES));
      }
      if now >= first + options.mergeWindow {
        EnqueueBundle(active.bundle);
        slots[i] := None;
      } else {
        slots[i] := Some(active);
      }
    }

    method ExpireAll(now: int)
      requires Valid()
      modifies this`completed, this`droppedCount, slots
      ensures Valid() && Model() == Expire(old(Model()), now)
    {
      ExpireSlot(0, now);
      ExpireSlot(1, now);
    }

    method AppendPostFrame(s: PublishedSnapshot)
      requires Valid()
      modifies slots
      ensures Valid()
      ensures var d := old(Model());
              Model() == d.(slot0 := AppendPost(d.slot0, s), slot1 := AppendPost(d.slot1, s))
    {
      for i := 0 to 2
        invariant slots[0] == (if i > 0 then AppendPost(old(slots[0]), s) else old(slots[0]))
        invariant slots[1] == (if i > 1 then AppendPost(old(slots[1]), s) else old(slots[1]))
      {
        if slots[i].Some? {
          var active := slots[i].value;
          var known := FindGeneration(active.bundle.frames, s.generation);
          if !active.closed && !known {
            var n := active.postFrames + 1;
            slots[i] := Some(Active(active.bundle.(frames := active.bundle.frames + [s]), n, n >= POST_FRAMES));
          }
        }
      }
    }

    method Create(v: Verdict, s: PublishedSnapshot, at: int, utc: int)
      requires Valid()
      modifies this`nextId, slots
      ensures Valid() && Model() == CreateBundle(old(Model()), v, s, at, utc)
    {
      var slot := 2;
      for i := 0 to 2
        invariant slot == 2 && forall k | 0 <= k < i :: slots[k].Some?
      {
        if slots[i].None? {
          slot := i;
          break;
        }
      }
      if slot == 2 {
        return;
      }
      var strong := if v.strong then ReasonStats(1, v.peak, 0) else NO_STATS;
      var sudden := if v.sudden then ReasonStats(1, v.peak, v.delta) else NO_STATS;
      var bundle := EventBundle(nextId, at, utc, v.strong, v.sudden, false, strong, sudden, history + [s]);
      nextId := nextId + 1;
      slots[slot] := Some(Active(bundle, 0, false));
    }

    method Attach(i: nat, strong: bool, sudden: bool, v: Verdict)
      requires Valid() && i < 2 && slots[i].Some?
      modifies slots
      ensures Valid() && Model() == OnSlot(old(Model()), i, strong, sudden, v)
    {
      var active := slots[i].value;
      if strong {
        active := AttachStrong(active, v.peak);
      }
      if sudden {
        active := AttachSudden(active, v.peak, v.delta);
      }
      slots[i] := Some(active);
    }

    method FindActive(strong: bool) returns (i: nat)
      requires Valid()
      ensures i == if strong then FindStrong(Model()) else FindSudden(Model())
    {
      i := 0;
      while i < 2
        invariant i <= 2
        invariant forall k | 0 <= k < i :: !(if strong then CarriesStrong(slots[k]) else CarriesSudden(slots[k]))
      {
        if slots[i].Some?
            && (if strong then slots[i].value.bundle.strongReason else slots[i].value.bundle.suddenReason) {
          return;
        }
        i := i + 1;
      }
    }

    method RouteTriggers(v: Verdict, s: PublishedSnapshot, at: int, utc: int)
      requires Valid()
      modifies this`nextId, slots
      ensures Valid() && Model() == Route(old(Model()), v, s, at, utc)
    {
      var strongSlot := FindActive(true);
      var suddenSlot := FindActive(false);
      if v.strong && v.sudden {
        if strongSlot < 2 && suddenSlot < 2 && strongSlot != suddenSlot {
          Attach(strongSlot, true, false, v);
          Attach(suddenSlot, false, true, v);
        } else if strongSlot < 2 {
          Attach(strongSlot, true, true, v);
        } else if suddenSlot < 2 {
          Attach(suddenSlot, true, true, v);
        } else {
          Create(v, s, at, utc);
        }
      } else if v.strong {
        if strongSlot < 2 {
          Attach(strongSlot, true, false, v);
        } else {
          Create(v, s, at, utc);
        }
      } else if v.sudden {
        if suddenSlot < 2 {
          Attach(suddenSlot, false, true, v);
        } else {
          Create(v, s, at, utc);
        }
      }
    }

    method JudgePeak(s: PublishedSnapshot, isFresh: bool) returns (v: Verdict)
      requires Valid()
      modifies this`armed, this`previousPeak
      ensures Valid() && v == Judge(old(Model()), s, isFresh)
      ensures Model() == old(Model()).(armed := v.armed, previousPeak := v.previousPeak)
    {
      var peak, delta, strong, sudden := 0, 0, false, false;
      if ValidPeak(s, isFresh) {
        peak := PeakOf(s);
        if !armed && peak < options.strongRearm {
          armed := true;
        }
        if armed && peak >= options.strongTrigger {
          strong := true;
          armed := false;
        }
        if previousPeak.Some? {
          var difference := peak - previousPeak.value;
          var absolute := if difference < 0 then -difference else difference;
          if absolute >= options.suddenDelta {
            sudden := true;
            delta := absolute;
          }
        }
        previousPeak := Some(peak);
      }
      v := Verdict(armed, previousPeak, strong, sudden, peak, delta);
    }

    method ObserveSnapshot(s: PublishedSnapshot, at: int, isFresh: bool, utc: int)
      requires Valid()
      modifies this, slots
      ensures Valid()
      ensures Model() == Observe(old(Model()), s, at, isFresh, utc)
    {
      hide Expire, AppendPost, Route, Judge, LastTwo;
      ExpireAll(at);
      if s.generation == 0 || (lastGeneration.Some? && s.generation <= lastGeneration.value) {
        return;
      }
      AppendPostFrame(s);
      var v := JudgePeak(s, isFresh);
      RouteTriggers(v, s, at, utc);
      PushHistory(s);
      lastGeneration := Some(s.generation);
    }

    method PushHistory(s: PublishedSnapshot)
      requires Valid()
      modifies this`history
      ensures history == LastTwo(old(history) + [s])
    {
      history := history + [s];
      while |history| > HISTORY_FRAMES
        invariant LastTwo(history) == LastTwo(old(history) + [s])
      {
        history := history[1..];
      }
    }

    method Drain() returns (bundles: seq<EventBundle>)
      requires Valid()
      modifies this`completed
      ensures bundles == old(completed) && completed == []
    {
      bundles := [];
      while completed != []
        invariant bundles + completed == old(completed)
        decreases |completed|
      {
        bundles := bundles + [completed[0]];
        completed := completed[1..];
      }
    }

    method Advance(now: int) returns (bundles: seq<EventBundle>)
      requires Valid()
      modifies this`completed, this`droppedCount, slots
      ensures Valid()
      ensures bundles == Expire(old(Model()), now).completed
      ensures Model() == TakeCompleted(Expire(old(Model()), now))
    {
      ExpireAll(now);
      bundles := Drain();
    }
  }

  method FindGeneration(frames: seq<PublishedSnapshot>, g: nat) returns (found: bool)
    ensures found == HasGeneration(frames, g)
  {
    for i := 0 to |frames|
      invariant forall k | 0 <= k < i :: frames[k].generation != g
    {
      if frames[i].generation == g {
        return true;
      }
    }
    return false;
  }
}
