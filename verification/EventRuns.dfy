/** Whole runs of the event detector: which frames a bundle holds, that no trigger is lost or counted
    twice, and the hysteresis of the strong-discharge trigger. */
module EventRuns {
  import opened Wrappers
  import opened Snapshot
  import opened SnapshotStore
  import opened EventDetector

  datatype Op =
    | Observed(s: PublishedSnapshot, at: int, isFresh: bool, utc: int)
    | Advanced(now: int)
    | Configured(options: EventOptions)

  /** A valid peak with the levels in force when it was judged. */
  datatype Sample = Sample(peak: int, rearm: int, trigger: int, jump: int)

  /** An accepted snapshot's observation: its times, what it fired, and which sample it supplied. */
  datatype Seen = Seen(at: int, utc: int, strong: bool, sudden: bool, sample: Option<nat>)

  /** What a run accepted, and for each bundle, in order of its id from 1, the index of the accepted
      snapshot on which it was created. */
  datatype Past = Past(accepted: seq<PublishedSnapshot>, seen: seq<Seen>, born: seq<nat>)

  function NextPast(p: Past, s: PublishedSnapshot, x: Seen, created: bool): Past {
    Past(p.accepted + [s], p.seen + [x], if created then p.born + [|p.accepted|] else p.born)
  }

  /** A trigger that fired on accepted snapshot `index`, and the bundle it is credited to. */
  datatype Hit = Hit(index: nat, id: nat, strong: bool, peak: int, delta: int)

  /** The active bundle that carries a reason. */
  function Carrier(d: Detector, strong: bool): Option<nat> {
    var carries0 := if strong then CarriesStrong(d.slot0) else CarriesSudden(d.slot0);
    var carries1 := if strong then CarriesStrong(d.slot1) else CarriesSudden(d.slot1);
    if carries0 then Some(d.slot0.value.bundle.id)
    else if carries1 then Some(d.slot1.value.bundle.id)
    else None
  }

  predicate Fired(v: Verdict, strong: bool) { if strong then v.strong else v.sudden }

  /** Where a trigger belongs: with the active bundle that carries its reason; failing that, if the other
      reason fired as well, with the bundle that carries the other reason; failing that, in a new bundle. */
  function CreditTo(d: Detector, v: Verdict, strong: bool): nat {
    if Carrier(d, strong).Some? then Carrier(d, strong).value
    else if Fired(v, !strong) && Carrier(d, !strong).Some? then Carrier(d, !strong).value
    else d.nextId
  }

  function NewHits(d: Detector, v: Verdict, index: nat): seq<Hit> {
    (if v.strong then [Hit(index, CreditTo(d, v, true), true, v.peak, 0)] else [])
    + (if v.sudden then [Hit(index, CreditTo(d, v, false), false, v.peak, v.delta)] else [])
  }

  /** The detector together with the history of its run. */
  datatype Run = Run(
    d: Detector, past: Past, hits: seq<Hit>, samples: seq<Sample>, strongAt: seq<nat>,
    firedStrong: nat, firedSudden: nat, delivered: seq<EventBundle>, dropped: seq<EventBundle>, longMerge: bool)

  predicate LongMerge(o: EventOptions) { o.mergeWindow >= o.postTimeout }

  function Start(o: EventOptions): Run {
    Run(NewDetector(o), Past([], [], []), [], [], [], 0, 0, [], [], LongMerge(o))
  }

  /** What an emission pushes out of the queue. */
  function Pushed(d: Detector, slot: Option<Active>, now: int): seq<EventBundle> {
    if slot.None? || !MergeDue(slot.value, d.options, now) then []
    else if d.options.maxPending == 0 then [CloseIfDue(slot.value, d.options, now).bundle]
    else if |d.completed| >= d.options.maxPending then [d.completed[0]]
    else []
  }

  function ExpireSlot0(r: Run, now: int): Run {
    var d := r.d;
    r.(d := EmitDue(d, d.slot0, now).(slot0 := Keep(d.slot0, d.options, now)),
       dropped := r.dropped + Pushed(d, d.slot0, now))
  }

  function ExpireSlot1(r: Run, now: int): Run {
    var d := r.d;
    r.(d := EmitDue(d, d.slot1, now).(slot1 := Keep(d.slot1, d.options, now)),
       dropped := r.dropped + Pushed(d, d.slot1, now))
  }

  function ExpireRun(r: Run, now: int): (r': Run)
    ensures r'.d == Expire(r.d, now)
  {
    ExpireSlot1(ExpireSlot0(r, now), now)
  }

  function SeenAs(r: Run, s: PublishedSnapshot, at: int, isFresh: bool, utc: int): Seen {
    var v := Judge(r.d, s, isFresh);
    Seen(at, utc, v.strong, v.sudden, if ValidPeak(s, isFresh) then Some(|r.samples|) else None)
  }

  function SampleOf(o: EventOptions, s: PublishedSnapshot): Sample {
    Sample(PeakOf(s), o.strongRearm, o.strongTrigger, o.suddenDelta)
  }

  function AcceptRun(r: Run, s: PublishedSnapshot, at: int, isFresh: bool, utc: int): Run {
    var d := r.d;
    var v := Judge(d, s, isFresh);
    var d' := Accept(d, s, at, isFresh, utc);
    r.(d := d',
       past := NextPast(r.past, s, SeenAs(r, s, at, isFresh, utc), d'.nextId > d.nextId),
       hits := r.hits + NewHits(d, v, |r.past.accepted|),
       samples := if ValidPeak(s, isFresh) then r.samples + [SampleOf(d.options, s)] else r.samples,
       strongAt := if v.strong then r.strongAt + [|r.samples|] else r.strongAt,
       firedStrong := r.firedStrong + (if v.strong then 1 else 0),
       firedSudden := r.firedSudden + (if v.sudden then 1 else 0))
  }

  function Step(r: Run, op: Op): (r': Run)
    ensures match op
            case Observed(s, at, isFresh, utc) => r'.d == Observe(r.d, s, at, isFresh, utc)
            case Advanced(now) => r'.d == TakeCompleted(Expire(r.d, now))
            case Configured(o) => r'.d == r.d.(options := o)
  {
    match op
    case Configured(o) => r.(d := r.d.(options := o), longMerge := r.longMerge && LongMerge(o))
    case Advanced(now) =>
      var e := ExpireRun(r, now);
      e.(d := TakeCompleted(e.d), delivered := e.delivered + e.d.completed)
    case Observed(s, at, isFresh, utc) =>
      var e := ExpireRun(r, at);
      if Accepts(e.d, s) then AcceptRun(e, s, at, isFresh, utc) else e
  }

  function RunOf(o: EventOptions, ops: seq<Op>): Run {
    if ops == [] then Start(o) else Step(RunOf(o, ops[..|ops| - 1]), ops[|ops| - 1])
  }

  // ----- Bundles as slices -----

  function Lead(k: nat): nat { if k > 2 then k - 2 else 0 }

  /** The bundle triggered by accepted snapshot `k` holds up to two frames before it, it, and `post` after. */
  predicate SliceAt(b: EventBundle, acc: seq<PublishedSnapshot>, k: nat, post: int) {
    0 <= post <= 3 && k + 1 + post <= |acc| && b.frames == acc[Lead(k)..k + 1 + post]
  }

  predicate StatsOk(s: ReasonStats, present: bool) {
    s.count <= COUNTER_MAX &&
    if present then s.count > 0 && s.maxDelta >= 0 else s == NO_STATS
  }

  predicate BundleShape(b: EventBundle) {
    && b.id > 0 && (b.strongReason || b.suddenReason)
    && StatsOk(b.strong, b.strongReason) && StatsOk(b.sudden, b.suddenReason)
  }

  /** The observation fired, and the bundle carries its times and its reasons. */
  predicate TriggeredBy(b: EventBundle, x: Seen) {
    && (x.strong || x.sudden) && b.firstAt == x.at && b.firstUtc == x.utc
    && (x.strong ==> b.strongReason) && (x.sudden ==> b.suddenReason)
  }

  /** The accepted index recorded for the bundle's id is the one that set it off. */
  predicate Traced(b: EventBundle, p: Past) {
    && 1 <= b.id <= |p.born| && p.born[b.id - 1] < |p.accepted| == |p.seen|
    && TriggeredBy(b, p.seen[p.born[b.id - 1]])
  }

  function TriggerOf(b: EventBundle, p: Past): nat
    requires Traced(b, p)
  {
    p.born[b.id - 1]
  }

  /** How many of a bundle's frames follow snapshot `k`. */
  function FramesAfter(b: EventBundle, k: nat): int { |b.frames| - (k + 1 - Lead(k)) }

  predicate ActiveAt(a: Active, acc: seq<PublishedSnapshot>, k: nat) {
    && SliceAt(a.bundle, acc, k, a.postFrames)
    && (a.closed ==> (a.bundle.partial <==> a.postFrames < 3))
    && (!a.closed ==> !a.bundle.partial && a.postFrames < 3 && k + 1 + a.postFrames == |acc|)
  }

  predicate SlotOk(slot: Option<Active>, p: Past) {
    slot.Some? ==>
      && BundleShape(slot.value.bundle) && Traced(slot.value.bundle, p)
      && ActiveAt(slot.value, p.accepted, TriggerOf(slot.value.bundle, p))
  }

  /** The flag says whether fewer than three frames follow the trigger. */
  predicate FlagExact(b: EventBundle, p: Past) {
    Traced(b, p) && (b.partial <==> FramesAfter(b, TriggerOf(b, p)) < 3)
  }

  predicate EmittedOk(b: EventBundle, p: Past, longMerge: bool) {
    && BundleShape(b) && Traced(b, p)
    && var k := TriggerOf(b, p);
       && SliceAt(b, p.accepted, k, FramesAfter(b, k))
       && (b.partial ==> FramesAfter(b, k) < 3)
       && (longMerge ==> FlagExact(b, p))
  }

  predicate AllEmittedOk(bs: seq<EventBundle>, p: Past, longMerge: bool) {
    forall i | 0 <= i < |bs| :: EmittedOk(bs[i], p, longMerge)
  }

  /** Never both slots for one reason. */
  predicate Disjoint(x: Option<Active>, y: Option<Active>) {
    !(CarriesStrong(x) && CarriesStrong(y)) && !(CarriesSudden(x) && CarriesSudden(y))
  }

  predicate Increasing(acc: seq<PublishedSnapshot>) {
    && (forall i | 0 <= i < |acc| :: acc[i].generation > 0)
    && forall i, j | 0 <= i < j < |acc| :: acc[i].generation < acc[j].generation
  }

  /** One observation an accepted snapshot, one creation a bundle, no two bundles created on one snapshot. */
  predicate PastOk(p: Past) {
    && |p.seen| == |p.accepted| && (forall i | 0 <= i < |p.born| :: p.born[i] < |p.accepted|)
    && forall i, j | 0 <= i < j < |p.born| :: p.born[i] < p.born[j]
  }

  predicate Frames(r: Run) {
    && Increasing(r.past.accepted) && PastOk(r.past) && r.d.nextId == 1 + |r.past.born|
    && r.d.lastGeneration
       == (if r.past.accepted == [] then None else Some(r.past.accepted[|r.past.accepted| - 1].generation))
    && r.d.history == LastTwo(r.past.accepted)
    && SlotOk(r.d.slot0, r.past) && SlotOk(r.d.slot1, r.past) && Disjoint(r.d.slot0, r.d.slot1)
    && AllEmittedOk(r.d.completed, r.past, r.longMerge)
    && AllEmittedOk(r.delivered, r.past, r.longMerge)
    && AllEmittedOk(r.dropped, r.past, r.longMerge)
    && (r.longMerge ==> LongMerge(r.d.options))
  }

  // Expiry

  lemma EmittedFromActive(a: Active, p: Past, o: EventOptions, now: int, longMerge: bool)
    requires SlotOk(Some(a), p) && MergeDue(a, o, now) && (longMerge ==> LongMerge(o))
    ensures EmittedOk(CloseIfDue(a, o, now).bundle, p, longMerge)
  {
    var b := CloseIfDue(a, o, now).bundle;
    assert Traced(b, p) && FramesAfter(b, TriggerOf(b, p)) == a.postFrames;
  }

  lemma KeepOk(slot: Option<Active>, p: Past, o: EventOptions, now: int)
    requires SlotOk(slot, p)
    ensures SlotOk(Keep(slot, o, now), p)
  {
  }

  lemma KeepReasons(slot: Option<Active>, o: EventOptions, now: int)
    ensures CarriesStrong(Keep(slot, o, now)) ==> CarriesStrong(slot)
    ensures CarriesSudden(Keep(slot, o, now)) ==> CarriesSudden(slot)
  {
  }

  lemma ExpireSlot0Frames(r: Run, now: int)
    requires Frames(r)
    ensures Frames(ExpireSlot0(r, now))
  {
    hide SlotOk, EmittedOk, PastOk, Increasing, LastTwo, CloseIfDue, MergeDue;
    KeepReasons(r.d.slot0, r.d.options, now);
    KeepOk(r.d.slot0, r.past, r.d.options, now);
    if r.d.slot0.Some? && MergeDue(r.d.slot0.value, r.d.options, now) {
      EmittedFromActive(r.d.slot0.value, r.past, r.d.options, now, r.longMerge);
    }
  }

  lemma ExpireSlot1Frames(r: Run, now: int)
    requires Frames(r)
    ensures Frames(ExpireSlot1(r, now))
  {
    hide SlotOk, EmittedOk, PastOk, Increasing, LastTwo, CloseIfDue, MergeDue;
    KeepReasons(r.d.slot1, r.d.options, now);
    KeepOk(r.d.slot1, r.past, r.d.options, now);
    if r.d.slot1.Some? && MergeDue(r.d.slot1.value, r.d.options, now) {
      EmittedFromActive(r.d.slot1.value, r.past, r.d.options, now, r.longMerge);
    }
  }

  // Acceptance

  lemma TracedGrows(b: EventBundle, p: Past, s: PublishedSnapshot, x: Seen, created: bool)
    requires Traced(b, p)
    ensures Traced(b, NextPast(p, s, x, created)) && TriggerOf(b, NextPast(p, s, x, created)) == TriggerOf(b, p)
  {
  }

  lemma SliceGrows(b: EventBundle, acc: seq<PublishedSnapshot>, s: PublishedSnapshot, k: nat, post: int)
    requires SliceAt(b, acc, k, post)
    ensures SliceAt(b, acc + [s], k, post)
  {
    assert (acc + [s])[Lead(k)..k + 1 + post] == acc[Lead(k)..k + 1 + post];
  }

  lemma EmittedGrows(bs: seq<EventBundle>, p: Past, s: PublishedSnapshot, x: Seen, created: bool, longMerge: bool)
    requires AllEmittedOk(bs, p, longMerge)
    ensures AllEmittedOk(bs, NextPast(p, s, x, created), longMerge)
  {
    hide SliceAt, Traced, TriggerOf, NextPast;
    assert NextPast(p, s, x, created).accepted == p.accepted + [s] by { NextAccepted(p, s, x, created); }
    forall i | 0 <= i < |bs| ensures EmittedOk(bs[i], NextPast(p, s, x, created), longMerge) {
      TracedGrows(bs[i], p, s, x, created);
      SliceGrows(bs[i], p.accepted, s, TriggerOf(bs[i], p), FramesAfter(bs[i], TriggerOf(bs[i], p)));
    }
  }

  lemma NextAccepted(p: Past, s: PublishedSnapshot, x: Seen, created: bool)
    ensures NextPast(p, s, x, created).accepted == p.accepted + [s]
  {
  }

  lemma NewGeneration(acc: seq<PublishedSnapshot>, s: PublishedSnapshot, lo: nat, hi: nat)
    requires Increasing(acc + [s]) && lo <= hi <= |acc|
    ensures !HasGeneration(acc[lo..hi], s.generation)
  {
    forall i | 0 <= i < hi - lo ensures acc[lo..hi][i].generation != s.generation {
      assert (acc + [s])[lo + i].generation < (acc + [s])[|acc|].generation;
    }
  }

  lemma AppendAt(a: Active, acc: seq<PublishedSnapshot>, s: PublishedSnapshot, k: nat)
    requires ActiveAt(a, acc, k) && Increasing(acc + [s])
    ensures ActiveAt(AppendPost(Some(a), s).value, acc + [s], k)
  {
    NewGeneration(acc, s, Lead(k), k + 1 + a.postFrames);
    assert (acc + [s])[Lead(k)..k + 1 + a.postFrames] == acc[Lead(k)..k + 1 + a.postFrames];
    if !a.closed {
      assert (acc + [s])[Lead(k)..k + 2 + a.postFrames] == acc[Lead(k)..k + 1 + a.postFrames] + [s];
    }
  }

  /** Appending touches nothing of a bundle but its frames. */
  lemma AppendPostBundle(a: Active, p: Past, s: PublishedSnapshot)
    ensures var b := AppendPost(Some(a), s).value.bundle;
            && (BundleShape(b) <==> BundleShape(a.bundle)) && (Traced(b, p) <==> Traced(a.bundle, p))
                && b.id == a.bundle.id
  {
  }

  lemma AppendPostOk(slot: Option<Active>, p: Past, s: PublishedSnapshot, x: Seen, created: bool)
    requires SlotOk(slot, p) && Increasing(p.accepted + [s])
    ensures SlotOk(AppendPost(slot, s), NextPast(p, s, x, created))
  {
    hide AppendPost, ActiveAt, BundleShape, Increasing;
    if slot.Some? {
      var a := slot.value;
      AppendPostSome(slot, s);
      AppendPostBundle(a, p, s);
      AppendAt(a, p.accepted, s, TriggerOf(a.bundle, p));
      TracedGrows(AppendPost(slot, s).value.bundle, p, s, x, created);
    } else {
      AppendPostSome(slot, s);
    }
  }

  lemma AppendPostSome(slot: Option<Active>, s: PublishedSnapshot)
    ensures AppendPost(slot, s).Some? == slot.Some?
  {
  }

  function Attach(a: Active, strong: bool, sudden: bool, v: Verdict): Active {
    var a1 := if strong then AttachStrong(a, v.peak) else a;
    if sudden then AttachSudden(a1, v.peak, v.delta) else a1
  }

  lemma AttachOk(a: Active, p: Past, strong: bool, sudden: bool, v: Verdict)
    requires SlotOk(Some(a), p) && v.delta >= 0
    ensures SlotOk(Some(Attach(a, strong, sudden, v)), p)
  {
  }

  lemma NewActiveOk(d: Detector, v: Verdict, p: Past, s: PublishedSnapshot, at: int, utc: int, x: Seen)
    requires d.history == LastTwo(p.accepted) && d.nextId == 1 + |p.born| && |p.seen| == |p.accepted|
    requires (v.strong || v.sudden) && v.delta >= 0
    requires x.at == at && x.utc == utc && x.strong == v.strong && x.sudden == v.sudden
    ensures SlotOk(Some(NewActive(d, v, s, at, utc)), NextPast(p, s, x, true))
  {
    var acc, k := p.accepted, |p.accepted|;
    assert (acc + [s])[Lead(k)..k + 1] == LastTwo(acc) + [s];
  }

  predicate SlotsOnly(d: Detector, d': Detector) {
    d' == d.(slot0 := d'.slot0, slot1 := d'.slot1, nextId := d'.nextId) && d'.nextId >= d.nextId
  }

  /** What routing can do to a slot: nothing, attach triggers to its bundle, or put a new bundle in. */
  predicate Evolves(x: Option<Active>, y: Option<Active>, v: Verdict, newcomer: Active, created: bool) {
    || y == x
    || (x.Some? && (y == Some(Attach(x.value, true, true, v)) || y == Some(Attach(x.value, true, false, v))
                    || y == Some(Attach(x.value, false, true, v))))
    || (x.None? && created && (v.strong || v.sudden) && y == Some(newcomer))
  }

  lemma RouteShape(d: Detector, v: Verdict, s: PublishedSnapshot, at: int, utc: int)
    requires Disjoint(d.slot0, d.slot1)
    ensures var d' := Route(d, v, s, at, utc);
            var newcomer, created := NewActive(d, v, s, at, utc), d'.nextId > d.nextId;
            && SlotsOnly(d, d') && d'.nextId == (if created then d.nextId + 1 else d.nextId)
            && Evolves(d.slot0, d'.slot0, v, newcomer, created) && Evolves(d.slot1, d'.slot1, v, newcomer, created)
            && Disjoint(d'.slot0, d'.slot1)
  {
  }

  lemma EvolvesOk(x: Option<Active>, y: Option<Active>, v: Verdict, newcomer: Active, created: bool, q: Past)
    requires SlotOk(x, q) && v.delta >= 0 && Evolves(x, y, v, newcomer, created)
    requires created && (v.strong || v.sudden) ==> SlotOk(Some(newcomer), q)
    ensures SlotOk(y, q)
  {
    hide SlotOk, Attach;
    if x.Some? {
      AttachOk(x.value, q, true, true, v);
      AttachOk(x.value, q, true, false, v);
      AttachOk(x.value, q, false, true, v);
    }
  }

  /** Routing keeps both slots well formed and their reasons disjoint. */
  lemma RouteOk(d: Detector, v: Verdict, p: Past, s: PublishedSnapshot, at: int, utc: int, x: Seen)
    requires d.history == LastTwo(p.accepted) && d.nextId == 1 + |p.born| && |p.seen| == |p.accepted| && v.delta >= 0
    requires x.at == at && x.utc == utc && x.strong == v.strong && x.sudden == v.sudden
    requires var q := NextPast(p, s, x, Route(d, v, s, at, utc).nextId > d.nextId);
             SlotOk(d.slot0, q) && SlotOk(d.slot1, q) && Disjoint(d.slot0, d.slot1)
    ensures var d' := Route(d, v, s, at, utc);
            var q := NextPast(p, s, x, d'.nextId > d.nextId);
            && SlotsOnly(d, d') && d'.nextId == 1 + |q.born|
            && SlotOk(d'.slot0, q) && SlotOk(d'.slot1, q) && Disjoint(d'.slot0, d'.slot1)
  {
    hide SlotOk, Route, Evolves, NewActive, LastTwo;
    var d' := Route(d, v, s, at, utc);
    var newcomer, created := NewActive(d, v, s, at, utc), d'.nextId > d.nextId;
    RouteShape(d, v, s, at, utc);
    if v.strong || v.sudden {
      NewActiveOk(d, v, p, s, at, utc, x);
    }
    EvolvesOk(d.slot0, d'.slot0, v, newcomer, created, NextPast(p, s, x, created));
    EvolvesOk(d.slot1, d'.slot1, v, newcomer, created, NextPast(p, s, x, created));
  }

  lemma LastTwoAppend(acc: seq<PublishedSnapshot>, s: PublishedSnapshot)
    ensures LastTwo(LastTwo(acc) + [s]) == LastTwo(acc + [s])
  {
  }

  lemma IncreasingAppend(acc: seq<PublishedSnapshot>, s: PublishedSnapshot)
    requires Increasing(acc) && s.generation > 0
    requires acc != [] ==> acc[|acc| - 1].generation < s.generation
    ensures Increasing(acc + [s])
  {
  }

  lemma NextPastOk(p: Past, s: PublishedSnapshot, x: Seen, created: bool)
    requires PastOk(p)
    ensures PastOk(NextPast(p, s, x, created))
  {
  }

  lemma AcceptFrames(r: Run, s: PublishedSnapshot, at: int, isFresh: bool, utc: int)
    requires Frames(r) && Accepts(r.d, s)
    ensures Frames(AcceptRun(r, s, at, isFresh, utc))
  {
    hide SlotOk, AllEmittedOk, Route, Judge, AppendPost, LastTwo, Increasing, PastOk;
    var d, p := r.d, r.past;
    var x, created := SeenAs(r, s, at, isFresh, utc), Accept(r.d, s, at, isFresh, utc).nextId > r.d.nextId;
    assert |p.seen| == |p.accepted| by { PastSizes(p); }
    IncreasingAppend(p.accepted, s);
    NextPastOk(p, s, x, created);
    AppendPostOk(d.slot0, p, s, x, created);
    AppendPostOk(d.slot1, p, s, x, created);
    var d1 := d.(slot0 := AppendPost(d.slot0, s), slot1 := AppendPost(d.slot1, s));
    AppendPostReasons(d.slot0, s);
    AppendPostReasons(d.slot1, s);
    JudgeSlots(d, d1, s, isFresh);
    var v := Judge(d1, s, isFresh);
    RouteOk(d1.(armed := v.armed, previousPeak := v.previousPeak), v, p, s, at, utc, x);
    LastTwoAppend(p.accepted, s);
    EmittedGrows(d.completed, p, s, x, created, r.longMerge);
    EmittedGrows(r.delivered, p, s, x, created, r.longMerge);
    EmittedGrows(r.dropped, p, s, x, created, r.longMerge);
  }

  lemma PastSizes(p: Past)
    requires PastOk(p)
    ensures |p.seen| == |p.accepted|
  {
  }

  lemma AppendPostReasons(slot: Option<Active>, s: PublishedSnapshot)
    ensures CarriesStrong(AppendPost(slot, s)) == CarriesStrong(slot)
    ensures CarriesSudden(AppendPost(slot, s)) == CarriesSudden(slot)
  {
  }

  /** The verdict does not look at the slots. */
  lemma JudgeSlots(d: Detector, d1: Detector, s: PublishedSnapshot, isFresh: bool)
    requires d1 == d.(slot0 := d1.slot0, slot1 := d1.slot1)
    ensures Judge(d1, s, isFresh) == Judge(d, s, isFresh) && Judge(d, s, isFresh).delta >= 0
  {
  }

  lemma StepFrames(r: Run, op: Op)
    requires Frames(r)
    ensures Frames(Step(r, op))
  {
    hide ExpireSlot0, ExpireSlot1, AcceptRun, Frames;
    match op
    case Configured(o) => ConfiguredFrames(r, o);
    case Advanced(now) =>
      ExpireSlot0Frames(r, now);
      ExpireSlot1Frames(ExpireSlot0(r, now), now);
      TakenFrames(ExpireRun(r, now));
    case Observed(s, at, isFresh, utc) =>
      ExpireSlot0Frames(r, at);
      ExpireSlot1Frames(ExpireSlot0(r, at), at);
      var e := ExpireRun(r, at);
      if Accepts(e.d, s) {
        AcceptFrames(e, s, at, isFresh, utc);
      }
  }

  lemma TakenFrames(e: Run)
    requires Frames(e)
    ensures Frames(e.(d := TakeCompleted(e.d), delivered := e.delivered + e.d.completed))
  {
    hide EmittedOk, SlotOk, PastOk, Increasing, LastTwo, Disjoint;
  }

  lemma ConfiguredFrames(r: Run, o: EventOptions)
    requires Frames(r)
    ensures Frames(Step(r, Configured(o)))
  {
    var longMerge := r.longMerge && LongMerge(o);
    hide EmittedOk;
    EmittedWeaker(r.d.completed, r.past, r.longMerge, longMerge);
    EmittedWeaker(r.delivered, r.past, r.longMerge, longMerge);
    EmittedWeaker(r.dropped, r.past, r.longMerge, longMerge);
  }

  lemma EmittedWeaker(bs: seq<EventBundle>, p: Past, before: bool, after: bool)
    requires AllEmittedOk(bs, p, before) && (after ==> before)
    ensures AllEmittedOk(bs, p, after)
  {
    hide SliceAt, Traced, FlagExact;
  }

  lemma {:induction false} RunFrames(o: EventOptions, ops: seq<Op>)
    ensures Frames(RunOf(o, ops))
  {
    if ops != [] {
      RunFrames(o, ops[..|ops| - 1]);
      StepFrames(RunOf(o, ops[..|ops| - 1]), ops[|ops| - 1]);
    }
  }

  /** All options ever in force have a long merge window. */
  predicate AllLong(o: EventOptions, ops: seq<Op>) {
    if ops == [] then LongMerge(o)
    else
      var last := ops[|ops| - 1];
      AllLong(o, ops[..|ops| - 1]) && (last.Configured? ==> LongMerge(last.options))
  }

  lemma {:induction false} UnchangedLong(o: EventOptions, ops: seq<Op>)
    requires LongMerge(o) && Unconfigured(ops)
    ensures AllLong(o, ops)
  {
    if ops != [] {
      UnchangedLong(o, ops[..|ops| - 1]);
    }
  }

  lemma StepLongMerge(r: Run, op: Op)
    ensures Step(r, op).longMerge <==> r.longMerge && (op.Configured? ==> LongMerge(op.options))
  {
  }

  lemma {:induction false} RunLongMerge(o: EventOptions, ops: seq<Op>)
    ensures RunOf(o, ops).longMerge <==> AllLong(o, ops)
  {
    if ops != [] {
      hide Step;
      var front, last := ops[..|ops| - 1], ops[|ops| - 1];
      RunLongMerge(o, front);
      StepLongMerge(RunOf(o, front), last);
    }
  }

  /** Every bundle ever handed out belongs to one accepted snapshot, the one recorded at its creation, on
      which a trigger fired and whose times it carries. It is the contiguous slice around that snapshot:
      at most two frames before it, at most three after, generations strictly rising. A partial one
      really is short, and with long merge windows throughout exactly the short ones are. */
  lemma DeliveredBundles(o: EventOptions, ops: seq<Op>, b: EventBundle)
    requires b in RunOf(o, ops).delivered
    ensures var p := RunOf(o, ops).past;
            && BundleShape(b) && Increasing(b.frames) && 1 <= |b.frames| <= 6 && Traced(b, p)
            && var k := TriggerOf(b, p);
               && SliceAt(b, p.accepted, k, FramesAfter(b, k))
               && (b.partial ==> FramesAfter(b, k) < 3)
               && (AllLong(o, ops) ==> FlagExact(b, p))
  {
    hide RunOf;
    var r := RunOf(o, ops);
    RunFrames(o, ops);
    RunLongMerge(o, ops);
    var i :| 0 <= i < |r.delivered| && r.delivered[i] == b;
    assert EmittedOk(b, r.past, r.longMerge);
  }

  // ----- When `partial` is exact -----

  predicate Unconfigured(ops: seq<Op>) { forall i | 0 <= i < |ops| :: !ops[i].Configured? }

  /** In every run under these options, every bundle handed out is marked partial exactly when fewer than
      three frames follow the snapshot that set it off. */
  ghost predicate AlwaysExact(o: EventOptions) {
    forall ops: seq<Op> | Unconfigured(ops) :: forall b | b in RunOf(o, ops).delivered ::
        FlagExact(b, RunOf(o, ops).past)
  }

  /** A snapshot whose valid peak sets off the strong trigger. */
  function Loud(o: EventOptions, generation: nat): PublishedSnapshot {
    var m := Measurement(0, o.strongTrigger, true);
    PublishedSnapshot(generation, ParsedSnapshot(ZeroRegisters(), [m, m, m, m, m], [], [], Good))
  }

  lemma FirstLoud(o: EventOptions)
    ensures var op := Observed(Loud(o, 1), 0, true, 0);
            var r := RunOf(o, [op]);
            && r == AcceptRun(Start(o), Loud(o, 1), 0, true, 0)
            && r.d == Accept(NewDetector(o), Loud(o, 1), 0, true, 0)
            && Judge(NewDetector(o), Loud(o, 1), true).strong
  {
    var op := Observed(Loud(o, 1), 0, true, 0);
    assert [op][..0] == [];
    var r0 := Start(o);
    assert RunOf(o, []) == r0;
    assert ExpireRun(r0, 0) == r0 by {
      assert r0.dropped + [] == r0.dropped;
    }
  }

  /** With a merge window shorter than the collection timeout, one trigger and nothing more yields a
      bundle with no frames after the trigger that is not marked partial. */
  lemma ShortMergeMisses(o: EventOptions)
    requires !LongMerge(o) && o.maxPending > 0
    ensures var r := RunOf(o, [Observed(Loud(o, 1), 0, true, 0), Advanced(o.mergeWindow)]);
            |r.past.accepted| == 1 && |r.delivered| == 1 && !r.delivered[0].partial
  {
    var first, second := Observed(Loud(o, 1), 0, true, 0), Advanced(o.mergeWindow);
    var ops := [first, second];
    assert ops[..1] == [first];
    FirstLoud(o);
    var r1 := RunOf(o, [first]);
    var a := r1.d.slot0.value;
    assert r1.d.slot0.Some? && r1.d.slot1.None? && !a.closed && a.bundle.firstAt == 0 && r1.d.options == o;
    assert RunOf(o, ops) == Step(r1, second);
  }

  /** Without room in the queue nothing is ever handed out. */
  lemma {:induction false} NoQueueNoDelivery(o: EventOptions, ops: seq<Op>)
    requires o.maxPending == 0 && Unconfigured(ops)
    ensures var r := RunOf(o, ops); r.d.options == o && r.d.completed == [] && r.delivered == []
  {
    if ops != [] {
      var front, op := ops[..|ops| - 1], ops[|ops| - 1];
      NoQueueNoDelivery(o, front);
      NoQueueStep(RunOf(o, front), op);
    }
  }

  lemma NoQueueStep(r: Run, op: Op)
    requires r.d.options.maxPending == 0 && r.d.completed == [] && r.delivered == [] && !op.Configured?
    ensures var r' := Step(r, op); r'.d.options == r.d.options && r'.d.completed == [] && r'.delivered == []
  {
    hide Accept, Keep, Pushed;
    var now := if op.Observed? then op.at else op.now;
    var e := ExpireRun(r, now);
    assert e.d.completed == [] && e.d.options == r.d.options;
    if op.Observed? {
      AcceptKeeps(e.d, op.s, op.at, op.isFresh, op.utc);
    }
  }

  lemma AcceptKeeps(d: Detector, s: PublishedSnapshot, at: int, isFresh: bool, utc: int)
    ensures var d' := Accept(d, s, at, isFresh, utc); d'.options == d.options && d'.completed == d.completed
  {
    hide Route, Judge, AppendPost, LastTwo;
    var d1 := d.(slot0 := AppendPost(d.slot0, s), slot1 := AppendPost(d.slot1, s));
    var v := Judge(d1, s, isFresh);
    RouteCreates(d1.(armed := v.armed, previousPeak := v.previousPeak), v, s, at, utc);
  }

  /** The flag is exact over all runs with unchanged options if and only if the merge window is at least
      the collection timeout, or the queue has no room so that nothing is handed out at all. */
  lemma PartialExactIffLongMerge(o: EventOptions)
    ensures AlwaysExact(o) <==> LongMerge(o) || o.maxPending == 0
  {
    hide RunOf, FlagExact;
    if LongMerge(o) || o.maxPending == 0 {
      forall ops: seq<Op>, b | Unconfigured(ops) && b in RunOf(o, ops).delivered
        ensures FlagExact(b, RunOf(o, ops).past)
      {
        if LongMerge(o) {
          DeliveredBundles(o, ops, b);
          UnchangedLong(o, ops);
        } else {
          NoQueueNoDelivery(o, ops);
        }
      }
    } else {
      ShortMergeMisses(o);
      var ops := [Observed(Loud(o, 1), 0, true, 0), Advanced(o.mergeWindow)];
      var r := RunOf(o, ops);
      var b := r.delivered[0];
      DeliveredBundles(o, ops, b);
      OneFrameIsShort(b, r.past);
      assert Unconfigured(ops) && b in r.delivered;
    }
  }

  lemma OneFrameIsShort(b: EventBundle, p: Past)
    requires Traced(b, p) && |p.accepted| == 1
              && SliceAt(b, p.accepted, TriggerOf(b, p), FramesAfter(b, TriggerOf(b, p)))
    requires !b.partial
    ensures !FlagExact(b, p)
  {
  }

  // ----- Conservation -----

  function Count(b: EventBundle, strong: bool): nat { if strong then b.strong.count else b.sudden.count }

  function SlotCount(slot: Option<Active>, strong: bool): nat {
    if slot.None? then 0 else Count(slot.value.bundle, strong)
  }

  function Occupied(slot: Option<Active>): nat { if slot.None? then 0 else 1 }

  function Sum(bs: seq<EventBundle>, strong: bool): nat {
    if bs == [] then 0 else Sum(bs[..|bs| - 1], strong) + Count(bs[|bs| - 1], strong)
  }

  lemma {:induction false} SumConcat(xs: seq<EventBundle>, ys: seq<EventBundle>, strong: bool)
    ensures Sum(xs + ys, strong) == Sum(xs, strong) + Sum(ys, strong)
  {
    if ys == [] {
      assert xs + ys == xs;
    } else {
      var front := ys[..|ys| - 1];
      assert (xs + ys)[..|xs + ys| - 1] == xs + front;
      SumConcat(xs, front, strong);
    }
  }

  lemma SumOne(b: EventBundle, strong: bool)
    ensures Sum([b], strong) == Count(b, strong)
  {
    assert [b][..0] == [];
  }

  /** Triggers accounted for in every bundle there is or was. */
  function Accounted(r: Run, strong: bool): nat {
    SlotCount(r.d.slot0, strong) + SlotCount(r.d.slot1, strong)
    + Sum(r.d.completed, strong) + Sum(r.delivered, strong) + Sum(r.dropped, strong)
  }

  function Bundles(r: Run): nat {
    Occupied(r.d.slot0) + Occupied(r.d.slot1) + |r.d.completed| + |r.delivered| + |r.dropped|
  }

  predicate Conserved(r: Run) {
    && r.d.nextId == 1 + Bundles(r)
    && r.d.droppedCount == |r.dropped|
    && (r.firedStrong <= COUNTER_MAX ==> Accounted(r, true) == r.firedStrong)
    && (r.firedSudden <= COUNTER_MAX ==> Accounted(r, false) == r.firedSudden)
  }

  lemma EnqueueMoves(d: Detector, b: EventBundle, dropped: seq<EventBundle>, pushed: seq<EventBundle>, strong: bool)
    requires pushed == if d.options.maxPending == 0 then [b]
                       else if |d.completed| >= d.options.maxPending then [d.completed[0]] else []
    ensures var d' := Enqueue(d, b);
            && Sum(d'.completed, strong) + Sum(dropped + pushed, strong)
               == Count(b, strong) + Sum(d.completed, strong) + Sum(dropped, strong)
            && |d'.completed| + |pushed| == 1 + |d.completed|
            && d'.droppedCount == d.droppedCount + |pushed|
  {
    hide Sum, Count;
    SumConcat(dropped, pushed, strong);
    SumOne(b, strong);
    SumConcat(d.completed, [b], strong);
    if d.options.maxPending == 0 {
    } else if |d.completed| >= d.options.maxPending {
      var tail := d.completed[1..];
      SumOne(d.completed[0], strong);
      assert d.completed == pushed + tail;
      SumConcat(pushed, tail, strong);
      SumConcat(tail, [b], strong);
    } else {
      assert dropped + pushed == dropped;
    }
  }

  /** Emitting a bundle moves its count from the slot to the queue or the dropped ones. */
  lemma EmitMoves(d: Detector, slot: Option<Active>, now: int, dropped: seq<EventBundle>, strong: bool)
    ensures var d' := EmitDue(d, slot, now);
            var dropped' := dropped + Pushed(d, slot, now);
            var left := Keep(slot, d.options, now);
            && SlotCount(left, strong) + Sum(d'.completed, strong) + Sum(dropped', strong)
               == SlotCount(slot, strong) + Sum(d.completed, strong) + Sum(dropped, strong)
            && Occupied(left) + |d'.completed| + |dropped'| == Occupied(slot) + |d.completed| + |dropped|
            && d'.droppedCount - d.droppedCount == |dropped'| - |dropped|
  {
    hide Sum, Enqueue;
    if slot.Some? && MergeDue(slot.value, d.options, now) {
      EnqueueMoves(d, CloseIfDue(slot.value, d.options, now).bundle, dropped, Pushed(d, slot, now), strong);
    } else {
      assert dropped + [] == dropped;
    }
  }

  lemma EmitKeepsRest(d: Detector, slot: Option<Active>, now: int)
    ensures var d' := EmitDue(d, slot, now);
            d' == d.(completed := d'.completed, droppedCount := d'.droppedCount)
  {
  }

  lemma ExpireConserved(r: Run, now: int)
    requires Conserved(r)
    ensures Conserved(ExpireRun(r, now))
  {
    hide EmitDue, Keep, Pushed, Sum;
    var d := r.d;
    EmitKeepsRest(d, d.slot0, now);
    EmitMoves(d, d.slot0, now, r.dropped, true);
    EmitMoves(d, d.slot0, now, r.dropped, false);
    var r0 := ExpireSlot0(r, now);
    assert Conserved(r0);
    EmitKeepsRest(r0.d, r0.d.slot1, now);
    EmitMoves(r0.d, r0.d.slot1, now, r0.dropped, true);
    EmitMoves(r0.d, r0.d.slot1, now, r0.dropped, false);
  }

  /** Triggers go to exactly one bundle each: with disjoint reasons there is always a slot for them. */
  lemma RouteCounts(d: Detector, v: Verdict, s: PublishedSnapshot, at: int, utc: int, strong: bool)
    requires Disjoint(d.slot0, d.slot1)
    requires d.slot0.Some? ==> BundleShape(d.slot0.value.bundle)
    requires d.slot1.Some? ==> BundleShape(d.slot1.value.bundle)
    requires SlotCount(d.slot0, strong) < COUNTER_MAX && SlotCount(d.slot1, strong) < COUNTER_MAX
    ensures var d' := Route(d, v, s, at, utc);
            SlotCount(d'.slot0, strong) + SlotCount(d'.slot1, strong)
            == SlotCount(d.slot0, strong) + SlotCount(d.slot1, strong)
               + (if strong then (if v.strong then 1 else 0) else (if v.sudden then 1 else 0))
  {
  }

  lemma RouteCreates(d: Detector, v: Verdict, s: PublishedSnapshot, at: int, utc: int)
    ensures var d' := Route(d, v, s, at, utc);
            && d' == d.(slot0 := d'.slot0, slot1 := d'.slot1, nextId := d'.nextId)
            && d'.nextId - d.nextId == Occupied(d'.slot0) + Occupied(d'.slot1) - Occupied(d.slot0) - Occupied(d.slot1)
  {
  }

  /** With no trigger of a reason its counts do not move. */
  lemma RouteIdle(d: Detector, v: Verdict, s: PublishedSnapshot, at: int, utc: int, strong: bool)
    requires if strong then !v.strong else !v.sudden
    ensures var d' := Route(d, v, s, at, utc);
            SlotCount(d'.slot0, strong) + SlotCount(d'.slot1, strong)
            == SlotCount(d.slot0, strong) + SlotCount(d.slot1, strong)
  {
  }

  lemma AppendPostCounts(slot: Option<Active>, s: PublishedSnapshot)
    ensures SlotCount(AppendPost(slot, s), true) == SlotCount(slot, true)
    ensures SlotCount(AppendPost(slot, s), false) == SlotCount(slot, false)
    ensures Occupied(AppendPost(slot, s)) == Occupied(slot)
    ensures slot.Some? ==> (BundleShape(slot.value.bundle) <==> BundleShape(AppendPost(slot, s).value.bundle))
  {
  }

  predicate SlotsReady(d: Detector) {
    && Disjoint(d.slot0, d.slot1)
    && (d.slot0.Some? ==> BundleShape(d.slot0.value.bundle))
    && (d.slot1.Some? ==> BundleShape(d.slot1.value.bundle))
  }

  lemma FramesReady(r: Run)
    requires Frames(r)
    ensures SlotsReady(r.d)
  {
  }

  function Delta(v: Verdict, strong: bool): nat {
    if strong then (if v.strong then 1 else 0) else (if v.sudden then 1 else 0)
  }

  /** What accepting a snapshot does to the counts of one reason. */
  lemma AcceptCounts(d: Detector, s: PublishedSnapshot, at: int, isFresh: bool, utc: int, strong: bool)
    requires SlotsReady(d)
    requires Delta(Judge(d, s, isFresh), strong) == 0 ||
             (SlotCount(d.slot0, strong) < COUNTER_MAX && SlotCount(d.slot1, strong) < COUNTER_MAX)
    ensures var d' := Accept(d, s, at, isFresh, utc);
            SlotCount(d'.slot0, strong) + SlotCount(d'.slot1, strong)
            == SlotCount(d.slot0, strong) + SlotCount(d.slot1, strong) + Delta(Judge(d, s, isFresh), strong)
  {
    hide Route, Judge, AppendPost, LastTwo, BundleShape;
    AppendPostCounts(d.slot0, s);
    AppendPostCounts(d.slot1, s);
    AppendPostReasons(d.slot0, s);
    AppendPostReasons(d.slot1, s);
    var d1 := d.(slot0 := AppendPost(d.slot0, s), slot1 := AppendPost(d.slot1, s));
    JudgeSlots(d, d1, s, isFresh);
    var v := Judge(d1, s, isFresh);
    var d2 := d1.(armed := v.armed, previousPeak := v.previousPeak);
    if Delta(v, strong) == 0 {
      RouteIdle(d2, v, s, at, utc, strong);
    } else {
      RouteCounts(d2, v, s, at, utc, strong);
    }
  }

  lemma AcceptCreates(d: Detector, s: PublishedSnapshot, at: int, isFresh: bool, utc: int)
    ensures var d' := Accept(d, s, at, isFresh, utc);
            && d'.completed == d.completed && d'.droppedCount == d.droppedCount
            && d'.nextId - d.nextId == Occupied(d'.slot0) + Occupied(d'.slot1) - Occupied(d.slot0) - Occupied(d.slot1)
  {
    hide Route, Judge, AppendPost, LastTwo;
    AppendPostCounts(d.slot0, s);
    AppendPostCounts(d.slot1, s);
    var d1 := d.(slot0 := AppendPost(d.slot0, s), slot1 := AppendPost(d.slot1, s));
    var v := Judge(d1, s, isFresh);
    RouteCreates(d1.(armed := v.armed, previousPeak := v.previousPeak), v, s, at, utc);
  }

  lemma AcceptConserved(r: Run, s: PublishedSnapshot, at: int, isFresh: bool, utc: int)
    requires SlotsReady(r.d) && Conserved(r)
    ensures Conserved(AcceptRun(r, s, at, isFresh, utc))
  {
    hide Accept, Judge, Sum, SlotsReady, SlotCount;
    AcceptCreates(r.d, s, at, isFresh, utc);
    var v := Judge(r.d, s, isFresh);
    if r.firedStrong + Delta(v, true) <= COUNTER_MAX {
      AcceptCounts(r.d, s, at, isFresh, utc, true);
    }
    if r.firedSudden + Delta(v, false) <= COUNTER_MAX {
      AcceptCounts(r.d, s, at, isFresh, utc, false);
    }
  }

  lemma StepConserved(r: Run, op: Op)
    requires Frames(r) && Conserved(r)
    ensures Conserved(Step(r, op))
  {
    hide AcceptRun, Frames, ExpireSlot0, ExpireSlot1;
    match op
    case Configured(o) =>
    case Advanced(now) =>
      ExpireConserved(r, now);
      var e := ExpireRun(r, now);
      SumConcat(e.delivered, e.d.completed, true);
      SumConcat(e.delivered, e.d.completed, false);
    case Observed(s, at, isFresh, utc) =>
      ExpireConserved(r, at);
      ExpireSlot0Frames(r, at);
      ExpireSlot1Frames(ExpireSlot0(r, at), at);
      var e := ExpireRun(r, at);
      FramesReady(e);
      if Accepts(e.d, s) {
        AcceptConserved(e, s, at, isFresh, utc);
      }
  }

  /** Over every run: bundles created are exactly those active, queued, handed out or dropped, and,
      below counter saturation, every trigger fired is counted in exactly one of them. */
  lemma {:induction false} RunConserved(o: EventOptions, ops: seq<Op>)
    ensures Conserved(RunOf(o, ops))
  {
    if ops != [] {
      var front := ops[..|ops| - 1];
      RunConserved(o, front);
      RunFrames(o, front);
      StepConserved(RunOf(o, front), ops[|ops| - 1]);
    }
  }

  // ----- Hysteresis -----

  /** The armed flag as a fold over the valid peaks. */
  predicate Armed(samples: seq<Sample>) {
    if samples == [] then true
    else
      var x := samples[|samples| - 1];
      (Armed(samples[..|samples| - 1]) || x.peak < x.rearm) && x.peak < x.trigger
  }

  /** Sample `i` sets off the strong trigger. */
  predicate Fires(samples: seq<Sample>, i: nat)
    requires i < |samples|
  {
    (Armed(samples[..i]) || samples[i].peak < samples[i].rearm) && samples[i].peak >= samples[i].trigger
  }

  /** Sample `i` sets off the sudden-change trigger. */
  predicate Jumps(samples: seq<Sample>, i: nat)
    requires i < |samples|
  {
    i > 0 && Abs(samples[i].peak - samples[i - 1].peak) >= samples[i].jump
  }

  /** The flag is the fold, and the recorded triggers are, in order, exactly the samples that fire. */
  predicate Recorded(armed: bool, samples: seq<Sample>, strongAt: seq<nat>) {
    && armed == Armed(samples)
    && (forall n | 0 <= n < |strongAt| :: strongAt[n] < |samples| && Fires(samples, strongAt[n]))
    && (forall n, m | 0 <= n < m < |strongAt| :: strongAt[n] < strongAt[m])
    && (forall i: nat | i < |samples| && Fires(samples, i) :: i in strongAt)
  }

  /** What an accepted snapshot fired is what its peak says, given the peaks before it; a snapshot without
      a valid peak fires nothing. */
  predicate JudgedAt(x: Seen, s: PublishedSnapshot, samples: seq<Sample>) {
    match x.sample
    case None => !x.strong && !x.sudden
    case Some(i) =>
      && i < |samples| && samples[i].peak == PeakOf(s) && x.strong == Fires(samples, i) && x.sudden == Jumps(samples, i)
  }

  predicate Judged(p: Past, samples: seq<Sample>) {
    |p.seen| == |p.accepted| && forall k | 0 <= k < |p.seen| :: JudgedAt(p.seen[k], p.accepted[k], samples)
  }

  function LastPeak(samples: seq<Sample>): Option<int> {
    if samples == [] then None else Some(samples[|samples| - 1].peak)
  }

  predicate Hysteresis(r: Run) {
    && Recorded(r.d.armed, r.samples, r.strongAt) && |r.strongAt| == r.firedStrong
    && r.d.previousPeak == LastPeak(r.samples) && Judged(r.past, r.samples)
  }

  lemma FiresPrefix(samples: seq<Sample>, x: Sample, i: nat)
    requires i < |samples|
    ensures Fires(samples + [x], i) == Fires(samples, i) && Jumps(samples + [x], i) == Jumps(samples, i)
  {
    assert (samples + [x])[..i] == samples[..i];
  }

  lemma RecordNext(armed: bool, samples: seq<Sample>, strongAt: seq<nat>, x: Sample)
    requires Recorded(armed, samples, strongAt)
    ensures var ready := armed || x.peak < x.rearm;
            Recorded(ready && x.peak < x.trigger, samples + [x],
                     if ready && x.peak >= x.trigger then strongAt + [|samples|] else strongAt)
  {
    hide Fires, Jumps, Recorded;
    FiresLast(samples, x);
    RecordAppended(armed, samples, strongAt, x);
  }

  lemma RecordAppended(armed: bool, samples: seq<Sample>, strongAt: seq<nat>, x: Sample)
    requires Recorded(armed, samples, strongAt)
    ensures armed == Armed(samples)
    ensures var all := samples + [x];
            Recorded(Armed(all), all, if Fires(all, |samples|) then strongAt + [|samples|] else strongAt)
  {
    hide Fires, Jumps, Armed;
    var all, n := samples + [x], |samples|;
    var at := if Fires(all, n) then strongAt + [n] else strongAt;
    forall i: nat | i < n ensures Fires(all, i) == Fires(samples, i) {
      FiresPrefix(samples, x, i);
    }
    assert forall k | 0 <= k < |strongAt| :: at[k] == strongAt[k];
    forall i: nat | i < |all| && Fires(all, i) ensures i in at {
      if i == n {
        assert at[|strongAt|] == n;
      } else {
        var k :| 0 <= k < |strongAt| && strongAt[k] == i;
        assert at[k] == i;
      }
    }
  }

  lemma FiresLast(samples: seq<Sample>, x: Sample)
    ensures var ready := Armed(samples) || x.peak < x.rearm;
            Fires(samples + [x], |samples|) == (ready && x.peak >= x.trigger)
                && Armed(samples + [x]) == (ready && x.peak < x.trigger)
  {
    assert (samples + [x])[..|samples|] == samples;
  }

  lemma JudgedGrows(p: Past, samples: seq<Sample>, x: Sample)
    requires Judged(p, samples)
    ensures Judged(p, samples + [x])
  {
    hide Fires, Jumps;
    forall k | 0 <= k < |p.seen| ensures JudgedAt(p.seen[k], p.accepted[k], samples + [x]) {
      assert JudgedAt(p.seen[k], p.accepted[k], samples);
      if p.seen[k].sample.Some? {
        FiresPrefix(samples, x, p.seen[k].sample.value);
      }
    }
  }

  /** The verdict is the fold's. */
  lemma JudgeMeaning(d: Detector, s: PublishedSnapshot, samples: seq<Sample>)
    requires d.armed == Armed(samples) && d.previousPeak == LastPeak(samples) && ValidPeak(s, true)
    ensures var v := Judge(d, s, true);
            var next := samples + [SampleOf(d.options, s)];
            v.strong == Fires(next, |samples|) && v.sudden == Jumps(next, |samples|) && v.previousPeak == LastPeak(next)
  {
    assert (samples + [SampleOf(d.options, s)])[..|samples|] == samples;
  }

  lemma AcceptArmed(d: Detector, s: PublishedSnapshot, at: int, isFresh: bool, utc: int)
    ensures var d', v := Accept(d, s, at, isFresh, utc), Judge(d, s, isFresh);
            d'.armed == v.armed && d'.previousPeak == v.previousPeak
  {
    hide Route, Judge, AppendPost, LastTwo;
    var d1 := d.(slot0 := AppendPost(d.slot0, s), slot1 := AppendPost(d.slot1, s));
    JudgeSlots(d, d1, s, isFresh);
    var v := Judge(d1, s, isFresh);
    RouteCreates(d1.(armed := v.armed, previousPeak := v.previousPeak), v, s, at, utc);
  }

  lemma JudgedNext(p: Past, samples: seq<Sample>, s: PublishedSnapshot, x: Seen, created: bool)
    requires Judged(p, samples) && JudgedAt(x, s, samples)
    ensures Judged(NextPast(p, s, x, created), samples)
  {
    hide JudgedAt;
  }

  lemma AcceptHysteresis(r: Run, s: PublishedSnapshot, at: int, isFresh: bool, utc: int)
    requires Hysteresis(r)
    ensures Hysteresis(AcceptRun(r, s, at, isFresh, utc))
  {
    hide Accept, Recorded, Judged, NextPast, Fires, Jumps;
    AcceptArmed(r.d, s, at, isFresh, utc);
    var x, created := SeenAs(r, s, at, isFresh, utc), Accept(r.d, s, at, isFresh, utc).nextId > r.d.nextId;
    if ValidPeak(s, isFresh) {
      var sample := SampleOf(r.d.options, s);
      RecordedFlag(r);
      RecordNext(r.d.armed, r.samples, r.strongAt, sample);
      JudgeMeaning(r.d, s, r.samples);
      JudgedGrows(r.past, r.samples, sample);
      JudgedNext(r.past, r.samples + [sample], s, x, created);
    } else {
      JudgedNext(r.past, r.samples, s, x, created);
    }
  }

  lemma RecordedFlag(r: Run)
    requires Hysteresis(r)
    ensures r.d.armed == Armed(r.samples)
  {
  }

  /** Over every run: the armed flag is a fold over the valid peaks, the strong triggers are in order
      exactly the peaks that fire, and what each accepted snapshot fired is decided by its own peak. */
  lemma {:induction false} RunHysteresis(o: EventOptions, ops: seq<Op>)
    ensures Hysteresis(RunOf(o, ops))
  {
    hide AcceptRun, Hysteresis;
    if ops == [] {
      StartHysteresis(o);
    } else {
      var r, op := RunOf(o, ops[..|ops| - 1]), ops[|ops| - 1];
      RunHysteresis(o, ops[..|ops| - 1]);
      if op.Observed? {
        ExpireHysteresis(r, op.at);
        AcceptHysteresis(ExpireRun(r, op.at), op.s, op.at, op.isFresh, op.utc);
      } else if op.Advanced? {
        ExpireHysteresis(r, op.now);
        SameHysteresis(ExpireRun(r, op.now), Step(r, op));
      } else {
        SameHysteresis(r, Step(r, op));
      }
    }
  }

  lemma StartHysteresis(o: EventOptions)
    ensures Hysteresis(Start(o))
  {
  }

  lemma SameHysteresis(r: Run, r': Run)
    requires Hysteresis(r) && r'.d.armed == r.d.armed && r'.d.previousPeak == r.d.previousPeak && r'.past == r.past
    requires r'.samples == r.samples && r'.strongAt == r.strongAt && r'.firedStrong == r.firedStrong
    ensures Hysteresis(r')
  {
  }

  lemma ExpireHysteresis(r: Run, now: int)
    requires Hysteresis(r)
    ensures Hysteresis(ExpireRun(r, now))
  {
    hide Hysteresis;
    ExpireKeeps(r, now);
    SameHysteresis(r, ExpireRun(r, now));
  }

  /** Expiry leaves everything but slots, queue and drops alone. */
  lemma ExpireKeeps(r: Run, now: int)
    ensures var e := ExpireRun(r, now);
            && e == r.(d := e.d, dropped := e.dropped)
            && e.d == r.d.(slot0 := e.d.slot0, slot1 := e.d.slot1, completed := e.d.completed,
                           droppedCount := e.d.droppedCount)
  {
    hide EmitDue, Keep, Pushed;
    EmitKeepsRest(r.d, r.d.slot0, now);
    var r0 := ExpireSlot0(r, now);
    EmitKeepsRest(r0.d, r0.d.slot1, now);
  }

  // ----- Separation of triggers -----

  lemma {:induction false} StaysDisarmed(samples: seq<Sample>, i: nat, j: nat)
    requires i < j <= |samples| && Fires(samples, i)
    requires forall k | i < k < j :: samples[k].peak >= samples[k].rearm
    ensures !Armed(samples[..j])
  {
    assert samples[..j][..j - 1] == samples[..j - 1];
    if j > i + 1 {
      StaysDisarmed(samples, i, j - 1);
    }
  }

  /** A peak strictly below its re-arm level lies strictly between two samples. */
  ghost predicate Rearmed(samples: seq<Sample>, i: nat, j: nat)
    requires i < |samples| && j < |samples|
  {
    exists k :: i < k < j && samples[k].peak < samples[k].rearm
  }

  lemma RearmBetween(samples: seq<Sample>, i: nat, j: nat)
    requires i < j < |samples| && Fires(samples, i) && Fires(samples, j) && samples[j].rearm <= samples[j].trigger
    ensures Rearmed(samples, i, j)
  {
    if forall k | i < k < j :: samples[k].peak >= samples[k].rearm {
      StaysDisarmed(samples, i, j);
    }
  }

  predicate Ordered(o: EventOptions) { o.strongRearm <= o.strongTrigger }

  /** All options ever in force have their re-arm level at or below their trigger level. */
  predicate AllOrdered(o: EventOptions, ops: seq<Op>) {
    if ops == [] then Ordered(o)
    else
      var last := ops[|ops| - 1];
      AllOrdered(o, ops[..|ops| - 1]) && (last.Configured? ==> Ordered(last.options))
  }

  predicate OrderedSamples(r: Run) {
    Ordered(r.d.options) && forall i | 0 <= i < |r.samples| :: r.samples[i].rearm <= r.samples[i].trigger
  }

  lemma StepOrdered(r: Run, op: Op)
    requires OrderedSamples(r) && (op.Configured? ==> Ordered(op.options))
    ensures OrderedSamples(Step(r, op))
  {
    hide Accept, ExpireRun, Judge;
    match op
    case Configured(_) =>
    case Advanced(now) => ExpireKeeps(r, now);
    case Observed(s, at, isFresh, utc) =>
      ExpireKeeps(r, at);
      AcceptKeeps(ExpireRun(r, at).d, s, at, isFresh, utc);
  }

  lemma {:induction false} RunOrdered(o: EventOptions, ops: seq<Op>)
    requires AllOrdered(o, ops)
    ensures OrderedSamples(RunOf(o, ops))
  {
    hide Step, OrderedSamples;
    if ops == [] {
      StartOrdered(o);
    } else {
      RunOrdered(o, ops[..|ops| - 1]);
      StepOrdered(RunOf(o, ops[..|ops| - 1]), ops[|ops| - 1]);
    }
  }

  lemma StartOrdered(o: EventOptions)
    requires Ordered(o)
    ensures OrderedSamples(Start(o))
  {
  }

  /** In every run whose options all have the re-arm level at or below the trigger level, between any two
      strong triggers an accepted, fresh, valid peak lies strictly below the re-arm level then in force. */
  lemma RearmBetweenTriggers(o: EventOptions, ops: seq<Op>, n: nat, m: nat)
    requires AllOrdered(o, ops) && n < m < |RunOf(o, ops).strongAt|
    ensures var r := RunOf(o, ops);
            r.strongAt[n] < r.strongAt[m] < |r.samples| && Rearmed(r.samples, r.strongAt[n], r.strongAt[m])
  {
    hide RunOf, Fires;
    var r := RunOf(o, ops);
    RunHysteresis(o, ops);
    RunOrdered(o, ops);
    RearmBetween(r.samples, r.strongAt[n], r.strongAt[m]);
  }

  /** No two strong triggers of a run without a re-arming peak between them. */
  ghost predicate Separated(r: Run) {
    forall n, m | 0 <= n < m < |r.strongAt| :: Apart(r, n, m)
  }

  /** Two strong triggers with a re-arming peak between them. */
  ghost predicate Apart(r: Run, n: nat, m: nat)
    requires n < m < |r.strongAt|
  {
    r.strongAt[n] < |r.samples| && r.strongAt[m] < |r.samples| && Rearmed(r.samples, r.strongAt[n], r.strongAt[m])
  }

  lemma OrderedSeparates(o: EventOptions, ops: seq<Op>)
    requires AllOrdered(o, ops)
    ensures Separated(RunOf(o, ops))
  {
    hide RunOf, AllOrdered, Apart;
    var r := RunOf(o, ops);
    forall n, m | 0 <= n < m < |r.strongAt| ensures Apart(r, n, m) {
      TriggersApart(o, ops, n, m);
    }
  }

  lemma TriggersApart(o: EventOptions, ops: seq<Op>, n: nat, m: nat)
    requires AllOrdered(o, ops) && n < m < |RunOf(o, ops).strongAt|
    ensures Apart(RunOf(o, ops), n, m)
  {
    hide RunOf, AllOrdered, Rearmed;
    RearmBetweenTriggers(o, ops, n, m);
  }

  lemma {:induction false} UnchangedOrdered(o: EventOptions, ops: seq<Op>)
    requires Ordered(o) && Unconfigured(ops)
    ensures AllOrdered(o, ops)
  {
    if ops != [] {
      UnchangedOrdered(o, ops[..|ops| - 1]);
    }
  }

  /** Two loud snapshots in a row supply two samples. */
  lemma TwoLoud(o: EventOptions)
    ensures var r := RunOf(o, [Observed(Loud(o, 1), 0, true, 0), Observed(Loud(o, 2), 0, true, 0)]);
            r.samples == [SampleOf(o, Loud(o, 1)), SampleOf(o, Loud(o, 2))]
  {
    hide Judge, ExpireRun, NextPast;
    var first, second := Observed(Loud(o, 1), 0, true, 0), Observed(Loud(o, 2), 0, true, 0);
    var ops := [first, second];
    assert ops[..1] == [first];
    FirstLoud(o);
    var r1 := RunOf(o, [first]);
    FirstGeneration(o);
    AcceptKeeps(NewDetector(o), Loud(o, 1), 0, true, 0);
    ExpireKeeps(r1, 0);
    assert RunOf(o, ops) == Step(r1, second);
  }

  lemma FirstGeneration(o: EventOptions)
    ensures Accept(NewDetector(o), Loud(o, 1), 0, true, 0).lastGeneration == Some(1)
  {
  }

  /** Under unchanged options the strong triggers of every run are separated if and only if the re-arm
      level is at most the trigger level; the configuration check asks for strictly below. */
  lemma HysteresisIffOrdered(o: EventOptions)
    ensures (forall ops: seq<Op> | Unconfigured(ops) :: Separated(RunOf(o, ops))) <==> o.strongRearm <= o.strongTrigger
  {
    hide RunOf, Separated;
    if o.strongRearm <= o.strongTrigger {
      forall ops: seq<Op> | Unconfigured(ops) ensures Separated(RunOf(o, ops)) {
        UnchangedOrdered(o, ops);
        OrderedSeparates(o, ops);
      }
    } else {
      var ops := [Observed(Loud(o, 1), 0, true, 0), Observed(Loud(o, 2), 0, true, 0)];
      var r := RunOf(o, ops);
      TwoLoud(o);
      RunHysteresis(o, ops);
      BothFire(r.samples);
      var n :| 0 <= n < |r.strongAt| && r.strongAt[n] == 0;
      var m :| 0 <= m < |r.strongAt| && r.strongAt[m] == 1;
      assert n < m;
      NotSeparated(r, n, m);
      assert Unconfigured(ops);
    }
  }

  lemma NotSeparated(r: Run, n: nat, m: nat)
    requires n < m < |r.strongAt| && r.strongAt[n] == 0 && r.strongAt[m] == 1 && |r.samples| == 2
    ensures !Separated(r)
  {
    assert !Apart(r, n, m);
  }

  lemma BothFire(samples: seq<Sample>)
    requires |samples| == 2 && samples[0].peak == samples[0].trigger
              && samples[1].peak == samples[1].trigger < samples[1].rearm
    ensures Fires(samples, 0) && Fires(samples, 1)
  {
    assert samples[..0] == [];
  }
}
