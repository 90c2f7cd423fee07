/** The persistence loop around the detector: what is observed, what is saved or dropped, the alarm.
    The snapshot source, the clock, the configuration and the outcome of each save are inputs of an
    iteration; periodic frame files are not modelled. */
module PersistenceWorker {
  import opened Wrappers
  import opened SnapshotStore
  import opened EventDetector
  import opened EventRuns

  datatype Tick = Tick(
    now: int, utc: int, options: Option<EventOptions>, snapshot: Option<PublishedSnapshot>, isFresh: bool,
    accepting: bool, saveOk: nat -> bool)

  datatype Stats = Stats(saved: nat, dropped: nat)

  datatype Worker = Worker(run: Run, lastGeneration: nat, alarm: bool, stats: Stats)

  function Begin(o: EventOptions): Worker { Worker(Start(o), 0, false, Stats(0, 0)) }

  function Configure(w: Worker, t: Tick): Worker {
    if t.options.Some? then w.(run := Step(w.run, Configured(t.options.value))) else w
  }

  predicate Newer(w: Worker, t: Tick) {
    t.snapshot.Some? && t.snapshot.value.generation != 0 && t.snapshot.value.generation > w.lastGeneration
  }

  function Watch(w: Worker, t: Tick): Worker {
    if !Newer(w, t) then w
    else
      var run := Step(w.run, Observed(t.snapshot.value, t.now, t.isFresh, t.utc));
      w.(run := run, lastGeneration := t.snapshot.value.generation, alarm := !run.d.armed)
  }

  /** Saving the finished bundles one by one. */
  function Tally(s: Stats, t: Tick, n: nat, i: nat): (r: Stats)
    requires i <= n
    ensures r.saved + r.dropped == s.saved + s.dropped + (n - i)
    decreases n - i
  {
    if i == n then s
    else if t.accepting && t.saveOk(i) then Tally(s.(saved := s.saved + 1), t, n, i + 1)
    else Tally(s.(dropped := s.dropped + 1), t, n, i + 1)
  }

  function Flush(w: Worker, t: Tick): Worker {
    var finished := ExpireRun(w.run, t.now).d.completed;
    w.(run := Step(w.run, Advanced(t.now)), stats := Tally(w.stats, t, |finished|, 0))
  }

  function Iterate(w: Worker, t: Tick): Worker { Flush(Watch(Configure(w, t), t), t) }

  function Work(o: EventOptions, ticks: seq<Tick>): Worker {
    if ticks == [] then Begin(o) else Iterate(Work(o, ticks[..|ticks| - 1]), ticks[|ticks| - 1])
  }

  /** Room for the three bundles an iteration can finish; the program keeps the default of 8. */
  predicate Roomy(o: EventOptions) { o.maxPending >= 3 }

  predicate RoomyTick(t: Tick) { t.options.Some? ==> Roomy(t.options.value) }

  function InFlight(d: Detector): nat { Occupied(d.slot0) + Occupied(d.slot1) + |d.completed| }

  ghost predicate Drained(w: Worker) {
    && Frames(w.run) && Conserved(w.run) && Roomy(w.run.d.options)
    && w.run.d.completed == [] && w.run.dropped == []
    && |w.run.delivered| == w.stats.saved + w.stats.dropped
    && w.alarm == !w.run.d.armed
    && w.run.d.lastGeneration == (if w.lastGeneration == 0 then None else Some(w.lastGeneration))
  }

  lemma EmitNoDrop(d: Detector, slot: Option<Active>, now: int)
    requires Roomy(d.options) && |d.completed| < d.options.maxPending
    ensures Pushed(d, slot, now) == []
    ensures Occupied(Keep(slot, d.options, now)) + |EmitDue(d, slot, now).completed| == Occupied(slot) + |d.completed|
  {
  }

  /** Expiry only moves bundles from slots to the queue, so a short queue never overflows. */
  lemma ExpireNoDrop(r: Run, now: int)
    requires Roomy(r.d.options) && InFlight(r.d) <= 3
    ensures var e := ExpireRun(r, now);
            && e.dropped == r.dropped && InFlight(e.d) == InFlight(r.d)
            && e.d.options == r.d.options && e.d.armed == r.d.armed && e.d.lastGeneration == r.d.lastGeneration
            && e.delivered == r.delivered
  {
    hide EmitDue, Keep, Pushed;
    EmitNoDropOrIdle(r.d, r.d.slot0, now);
    EmitKeepsRest(r.d, r.d.slot0, now);
    var r0 := ExpireSlot0(r, now);
    assert r0.dropped == r.dropped;
    EmitNoDropOrIdle(r0.d, r0.d.slot1, now);
    EmitKeepsRest(r0.d, r0.d.slot1, now);
  }

  lemma EmitNoDropOrIdle(d: Detector, slot: Option<Active>, now: int)
    requires Roomy(d.options) && Occupied(slot) + |d.completed| <= 3
    ensures Pushed(d, slot, now) == []
    ensures Occupied(Keep(slot, d.options, now)) + |EmitDue(d, slot, now).completed| == Occupied(slot) + |d.completed|
  {
    if slot.Some? {
      EmitNoDrop(d, slot, now);
    }
  }

  lemma AcceptInFlight(d: Detector, s: PublishedSnapshot, at: int, isFresh: bool, utc: int)
    ensures var d' := Accept(d, s, at, isFresh, utc);
            && InFlight(d') <= InFlight(d) + 1 && d'.options == d.options && d'.lastGeneration == Some(s.generation)
  {
    hide Route, Judge, AppendPost, LastTwo;
    AppendPostCounts(d.slot0, s);
    AppendPostCounts(d.slot1, s);
    var d1 := d.(slot0 := AppendPost(d.slot0, s), slot1 := AppendPost(d.slot1, s));
    var v := Judge(d1, s, isFresh);
    var d2 := d1.(armed := v.armed, previousPeak := v.previousPeak);
    RouteCreates(d2, v, s, at, utc);
    RouteAtMostOne(d2, v, s, at, utc);
  }

  lemma RouteAtMostOne(d: Detector, v: Verdict, s: PublishedSnapshot, at: int, utc: int)
    ensures Route(d, v, s, at, utc).nextId <= d.nextId + 1
  {
  }

  /** The detector between the two halves of an iteration. */
  ghost predicate Between(w: Worker) {
    && Frames(w.run) && Conserved(w.run) && Roomy(w.run.d.options)
    && InFlight(w.run.d) <= 3 && w.run.dropped == []
    && |w.run.delivered| == w.stats.saved + w.stats.dropped
    && w.alarm == !w.run.d.armed
    && w.run.d.lastGeneration == (if w.lastGeneration == 0 then None else Some(w.lastGeneration))
  }

  lemma WatchBetween(w: Worker, t: Tick)
    requires Drained(w)
    ensures Between(Watch(w, t))
  {
    hide Frames, Conserved, ExpireRun, AcceptRun;
    if Newer(w, t) {
      var s := t.snapshot.value;
      var op := Observed(s, t.now, t.isFresh, t.utc);
      StepFrames(w.run, op);
      StepConserved(w.run, op);
      ExpireNoDrop(w.run, t.now);
      var e := ExpireRun(w.run, t.now);
      assert Accepts(e.d, s);
      AcceptInFlight(e.d, s, t.now, t.isFresh, t.utc);
      AcceptRunRest(e, s, t.now, t.isFresh, t.utc);
    }
  }

  lemma AcceptRunRest(r: Run, s: PublishedSnapshot, at: int, isFresh: bool, utc: int)
    ensures var r' := AcceptRun(r, s, at, isFresh, utc);
            r'.d == Accept(r.d, s, at, isFresh, utc) && r'.delivered == r.delivered && r'.dropped == r.dropped
  {
    hide Accept;
  }

  lemma FlushDrained(w: Worker, t: Tick)
    requires Between(w)
    ensures Drained(Flush(w, t))
  {
    hide Frames, Conserved, ExpireRun;
    StepFrames(w.run, Advanced(t.now));
    StepConserved(w.run, Advanced(t.now));
    ExpireNoDrop(w.run, t.now);
  }

  /** Inside an iteration the queue never holds more than three bundles, so nothing overflows. */
  lemma QueueStaysShort(w: Worker, t: Tick)
    requires Drained(w) && RoomyTick(t)
    ensures var c := Configure(w, t);
            var seen := Watch(c, t);
            var expired := ExpireRun(seen.run, t.now);
            |seen.run.d.completed| <= 3 && |expired.d.completed| <= 3 && expired.dropped == []
  {
    hide Frames, Conserved, ExpireRun, Watch;
    ConfigureDrained(w, t);
    WatchBetween(Configure(w, t), t);
    ExpireNoDrop(Watch(Configure(w, t), t).run, t.now);
  }

  lemma ConfigureDrained(w: Worker, t: Tick)
    requires Drained(w) && RoomyTick(t)
    ensures Drained(Configure(w, t))
  {
    hide Frames;
    if t.options.Some? {
      StepFrames(w.run, Configured(t.options.value));
    }
  }

  /** At the end of every iteration: the queue is empty, nothing was dropped by the detector, every
      bundle created is active, saved or counted as dropped by the worker, and the alarm is the negated
      armed flag. */
  lemma {:induction false} WorkerDrains(o: EventOptions, ticks: seq<Tick>)
    requires Roomy(o) && forall i | 0 <= i < |ticks| :: RoomyTick(ticks[i])
    ensures var w := Work(o, ticks);
            && Drained(w)
            && w.run.d.droppedCount == 0
            && w.run.d.nextId - 1 == Occupied(w.run.d.slot0) + Occupied(w.run.d.slot1) + w.stats.saved + w.stats.dropped
            && w.alarm == !w.run.d.armed
  {
    hide Frames, Watch, Flush, Configure;
    if ticks == [] {
      BeginDrained(o);
    } else {
      var w, t := Work(o, ticks[..|ticks| - 1]), ticks[|ticks| - 1];
      WorkerDrains(o, ticks[..|ticks| - 1]);
      ConfigureDrained(w, t);
      WatchBetween(Configure(w, t), t);
      FlushDrained(Watch(Configure(w, t), t), t);
    }
  }

  lemma BeginDrained(o: EventOptions)
    requires Roomy(o)
    ensures Drained(Begin(o))
  {
    assert RunOf(o, []) == Start(o);
    RunFrames(o, []);
    RunConserved(o, []);
  }

  // ----- The loop as a run of the detector -----

  /** What an iteration hands the detector if it shows it every snapshot, old or new. */
  function OpsOf(t: Tick): seq<Op> {
    (if t.options.Some? then [Configured(t.options.value)] else [])
    + (if t.snapshot.Some? then [Observed(t.snapshot.value, t.now, t.isFresh, t.utc)] else [])
    + [Advanced(t.now)]
  }

  function AllOps(ticks: seq<Tick>): seq<Op> {
    if ticks == [] then [] else AllOps(ticks[..|ticks| - 1]) + OpsOf(ticks[|ticks| - 1])
  }

  /** The worker remembers the last generation the detector accepted, and its alarm is the negated flag. */
  predicate Tied(w: Worker) {
    && w.run.d.lastGeneration == (if w.lastGeneration == 0 then None else Some(w.lastGeneration))
    && w.alarm == !w.run.d.armed
  }

  lemma KeepAgain(slot: Option<Active>, o: EventOptions, now: int)
    ensures var kept := Keep(slot, o, now);
            Keep(kept, o, now) == kept && (kept.Some? ==> !MergeDue(kept.value, o, now))
  {
  }

  /** A slot that has nothing due emits nothing. */
  lemma EmitNothing(d: Detector, slot: Option<Active>, now: int)
    requires slot.Some? ==> !MergeDue(slot.value, d.options, now)
    ensures EmitDue(d, slot, now) == d && Pushed(d, slot, now) == []
  {
  }

  /** Expiring twice at one moment is expiring once. */
  lemma ExpireAgain(r: Run, now: int)
    ensures ExpireRun(ExpireRun(r, now), now) == ExpireRun(r, now)
  {
    hide EmitDue, Keep, Pushed, MergeDue;
    var o := r.d.options;
    EmitKeepsRest(r.d, r.d.slot0, now);
    var r0 := ExpireSlot0(r, now);
    EmitKeepsRest(r0.d, r0.d.slot1, now);
    var e := ExpireSlot1(r0, now);
    KeepAgain(r.d.slot0, o, now);
    KeepAgain(r.d.slot1, o, now);
    EmitNothing(e.d, e.d.slot0, now);
    assert e.dropped + [] == e.dropped;
    assert ExpireSlot0(e, now) == e;
    EmitNothing(e.d, e.d.slot1, now);
  }

  /** A snapshot that is not new makes no difference. */
  lemma OldSnapshotIdle(r: Run, s: PublishedSnapshot, now: int, isFresh: bool, utc: int)
    requires !Accepts(r.d, s)
    ensures Step(Step(r, Observed(s, now, isFresh, utc)), Advanced(now)) == Step(r, Advanced(now))
  {
    hide ExpireRun;
    ExpireKeeps(r, now);
    ExpireAgain(r, now);
  }

  lemma RunAppend(o: EventOptions, ops: seq<Op>, op: Op)
    ensures RunOf(o, ops + [op]) == Step(RunOf(o, ops), op)
  {
    assert (ops + [op])[..|ops|] == ops;
  }

  lemma WatchTied(w: Worker, t: Tick)
    requires Tied(w)
    ensures Tied(Watch(w, t))
  {
    hide ExpireRun, Accept;
    if Newer(w, t) {
      ExpireKeeps(w.run, t.now);
      LastAccepted(ExpireRun(w.run, t.now).d, t.snapshot.value, t.now, t.isFresh, t.utc);
    }
  }

  lemma LastAccepted(d: Detector, s: PublishedSnapshot, at: int, isFresh: bool, utc: int)
    ensures Accept(d, s, at, isFresh, utc).lastGeneration == Some(s.generation)
  {
    hide Route, Judge, AppendPost, LastTwo;
  }

  lemma FlushTied(w: Worker, t: Tick)
    requires Tied(w)
    ensures Tied(Flush(w, t))
  {
    hide ExpireRun, Tally;
    ExpireKeeps(w.run, t.now);
  }

  /** One iteration is its three operations. */
  lemma IterateIsSteps(w: Worker, t: Tick)
    requires Tied(w)
    ensures Tied(Iterate(w, t))
    ensures var r1 := if t.options.Some? then Step(w.run, Configured(t.options.value)) else w.run;
            var r2 := if t.snapshot.Some? then Step(r1, Observed(t.snapshot.value, t.now, t.isFresh, t.utc)) else r1;
            Iterate(w, t).run == Step(r2, Advanced(t.now))
  {
    hide Step, Tally, Tied;
    ConfigureTied(w, t);
    var c := Configure(w, t);
    WatchTied(c, t);
    FlushTied(Watch(c, t), t);
    if t.snapshot.Some? && !Newer(c, t) {
      NotNewer(c, t);
      OldSnapshotIdle(c.run, t.snapshot.value, t.now, t.isFresh, t.utc);
    }
  }

  lemma ConfigureTied(w: Worker, t: Tick)
    requires Tied(w)
    ensures Tied(Configure(w, t))
  {
  }

  lemma NotNewer(w: Worker, t: Tick)
    requires Tied(w) && t.snapshot.Some? && !Newer(w, t)
    ensures !Accepts(w.run.d, t.snapshot.value)
  {
  }

  /** The loop is the detector's run over everything it was ever shown: its own test for new snapshots
      keeps nothing back that would have mattered. */
  lemma {:induction false} WorkerIsRun(o: EventOptions, ticks: seq<Tick>)
    ensures var w := Work(o, ticks); Tied(w) && w.run == RunOf(o, AllOps(ticks))
  {
    hide Step, Iterate;
    if ticks != [] {
      var front, t := ticks[..|ticks| - 1], ticks[|ticks| - 1];
      WorkerIsRun(o, front);
      IterateIsSteps(Work(o, front), t);
      RunOps(o, AllOps(front), t);
    }
  }

  lemma RunOps(o: EventOptions, ops: seq<Op>, t: Tick)
    ensures var r := RunOf(o, ops);
            var r1 := if t.options.Some? then Step(r, Configured(t.options.value)) else r;
            var r2 := if t.snapshot.Some? then Step(r1, Observed(t.snapshot.value, t.now, t.isFresh, t.utc)) else r1;
            RunOf(o, ops + OpsOf(t)) == Step(r2, Advanced(t.now))
  {
    hide Step, RunOf;
    var ops1 := if t.options.Some? then ops + [Configured(t.options.value)] else ops;
    if t.options.Some? {
      RunAppend(o, ops, Configured(t.options.value));
    }
    var look := if t.snapshot.Some? then [Observed(t.snapshot.value, t.now, t.isFresh, t.utc)] else [];
    var ops2 := ops1 + look;
    if t.snapshot.Some? {
      RunAppend(o, ops1, look[0]);
    } else {
      assert ops2 == ops1;
    }
    RunAppend(o, ops2, Advanced(t.now));
    assert ops + OpsOf(t) == ops2 + [Advanced(t.now)];
  }

  // ----- What is saved -----

  /** The saves that go through, of the first `n` bundles finished in an iteration. */
  function Saves(t: Tick, n: nat): nat {
    if n == 0 then 0 else Saves(t, n - 1) + (if t.accepting && t.saveOk(n - 1) then 1 else 0)
  }

  /** A finished bundle counts as saved exactly when the store is accepting and its own save goes through,
      and as dropped otherwise. */
  lemma {:induction false} TallyMeaning(s: Stats, t: Tick, n: nat, i: nat)
    requires i <= n
    ensures Tally(s, t, n, i).saved == s.saved + Saves(t, n) - Saves(t, i)
    ensures Tally(s, t, n, i).dropped == s.dropped + (n - i) - (Saves(t, n) - Saves(t, i))
    decreases n - i
  {
    if i < n {
      var stats := if t.accepting && t.saveOk(i) then s.(saved := s.saved + 1) else s.(dropped := s.dropped + 1);
      TallyMeaning(stats, t, n, i + 1);
    }
  }

  // ----- The loop body -----

  class PersistenceLoop {
    const detector: LiveDetector
    var lastGeneration: nat
    var alarm: bool
    var saved: nat
    var dropped: nat

    ghost predicate Valid()
      reads this, detector
    {
      detector.Valid()
    }

    constructor (o: EventOptions)
      ensures Valid() && fresh(detector) && fresh(detector.slots)
      ensures detector.Model() == NewDetector(o) && lastGeneration == 0 && !alarm && saved == 0 && dropped == 0
    {
      detector := new LiveDetector(o);
      lastGeneration, alarm, saved, dropped := 0, false, 0, 0;
    }

    /** The detector, generation, alarm and counters this object shares with the model. */
    ghost predicate Mirrors(w: Worker)
      requires Valid()
      reads this, detector, detector.slots
    {
      && detector.Model() == w.run.d && lastGeneration == w.lastGeneration && alarm == w.alarm
      && Stats(saved, dropped) == w.stats
    }

    method SaveCompleted(bundles: seq<EventBundle>, t: Tick)
      modifies this`saved, this`dropped
      ensures Stats(saved, dropped) == Tally(Stats(old(saved), old(dropped)), t, |bundles|, 0)
    {
      for i := 0 to |bundles|
        invariant Tally(Stats(saved, dropped), t, |bundles|, i)
                  == Tally(Stats(old(saved), old(dropped)), t, |bundles|, 0)
      {
        if !t.accepting {
          dropped := dropped + 1;
        } else if !t.saveOk(i) {
          dropped := dropped + 1;
        } else {
          saved := saved + 1;
        }
      }
    }

    /** Configuration and observation: the first half of an iteration. */
    method Look(t: Tick, ghost w: Worker)
      requires Valid() && Mirrors(w)
      modifies this`lastGeneration, this`alarm, detector, detector.slots
      ensures Valid() && Mirrors(Watch(Configure(w, t), t))
    {
      hide Observe, Expire, ExpireRun, AcceptRun, Step;
      if t.options.Some? {
        detector.SetOptions(t.options.value);
      }
      assert Mirrors(Configure(w, t));
      if t.snapshot.Some? && t.snapshot.value.generation != 0 && t.snapshot.value.generation > lastGeneration {
        lastGeneration := t.snapshot.value.generation;
        detector.ObserveSnapshot(t.snapshot.value, t.now, t.isFresh, t.utc);
        alarm := !detector.armed;
      }
    }

    method RunIteration(t: Tick, ghost w: Worker)
      requires Valid() && Mirrors(w)
      modifies this, detector, detector.slots
      ensures Valid() && Mirrors(Iterate(w, t))
    {
      hide Observe, Expire, ExpireRun, AcceptRun, Step, Tally, Watch, Configure;
      Look(t, w);
      var bundles := detector.Advance(t.now);
      SaveCompleted(bundles, t);
    }
  }
}
