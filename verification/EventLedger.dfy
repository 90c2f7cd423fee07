/** Which bundle every trigger goes to, and what a bundle's statistics say about its triggers. */
module EventLedger {
  import opened Wrappers
  import opened SnapshotStore
  import opened EventDetector
  import opened EventRuns

  // ----- Statistics -----

  /** The triggers of one reason credited to a bundle. */
  function Of(hits: seq<Hit>, id: nat, strong: bool): seq<Hit> {
    if hits == [] then []
    else
      var last := hits[|hits| - 1];
      Of(hits[..|hits| - 1], id, strong) + (if last.id == id && last.strong == strong then [last] else [])
  }

  /** Their number, as far as the counter goes, the greatest peak and the greatest jump among them. */
  predicate Sums(st: ReasonStats, hs: seq<Hit>) {
    if hs == [] then st == NO_STATS
    else
      && st.count == (if |hs| <= COUNTER_MAX then |hs| else COUNTER_MAX)
      && (forall i | 0 <= i < |hs| :: hs[i].peak <= st.maxPeak && hs[i].delta <= st.maxDelta)
      && (exists i | 0 <= i < |hs| :: hs[i].peak == st.maxPeak)
      && (exists i | 0 <= i < |hs| :: hs[i].delta == st.maxDelta)
  }

  lemma SumsNext(st: ReasonStats, hs: seq<Hit>, h: Hit)
    requires Sums(st, hs) && h.delta >= 0 && (forall i | 0 <= i < |hs| :: hs[i].delta >= 0)
    ensures Sums(UpdateStats(st, h.peak, h.delta), hs + [h])
  {
    var all, next := hs + [h], UpdateStats(st, h.peak, h.delta);
    assert all[|hs|] == h && forall i | 0 <= i < |hs| :: all[i] == hs[i];
    if hs != [] {
      var p :| 0 <= p < |hs| && hs[p].peak == st.maxPeak;
      var q :| 0 <= q < |hs| && hs[q].delta == st.maxDelta;
      assert all[if h.peak > st.maxPeak then |hs| else p].peak == next.maxPeak;
      assert all[if h.delta > st.maxDelta then |hs| else q].delta == next.maxDelta;
    } else {
      assert all[0].peak == next.maxPeak && all[0].delta == next.maxDelta;
    }
  }

  /** A bundle's reasons and statistics are those of the triggers credited to it. */
  predicate Credited(b: EventBundle, hits: seq<Hit>) {
    && Sums(b.strong, Of(hits, b.id, true)) && Sums(b.sudden, Of(hits, b.id, false))
    && b.strongReason == (Of(hits, b.id, true) != []) && b.suddenReason == (Of(hits, b.id, false) != [])
  }

  predicate ProperHits(hits: seq<Hit>, ids: nat) {
    forall i | 0 <= i < |hits| :: hits[i].id < ids && hits[i].delta >= 0
  }

  lemma {:induction false} OfNext(hits: seq<Hit>, h: Hit, id: nat, strong: bool)
    ensures Of(hits + [h], id, strong)
            == if h.id == id && h.strong == strong then Of(hits, id, strong) + [h] else Of(hits, id, strong)
  {
    assert (hits + [h])[..|hits|] == hits;
  }

  lemma {:induction false} OfProper(hits: seq<Hit>, ids: nat, id: nat, strong: bool)
    requires ProperHits(hits, ids)
    ensures forall i | 0 <= i < |Of(hits, id, strong)| :: Of(hits, id, strong)[i].delta >= 0
    ensures id >= ids ==> Of(hits, id, strong) == []
  {
    if hits != [] {
      OfProper(hits[..|hits| - 1], ids, id, strong);
    }
  }

  /** A trigger credited elsewhere changes nothing for a bundle. */
  lemma CreditedElsewhere(b: EventBundle, hits: seq<Hit>, h: Hit)
    requires Credited(b, hits) && h.id != b.id
    ensures Credited(b, hits + [h])
  {
    hide Sums, Of;
    OfNext(hits, h, b.id, true);
    OfNext(hits, h, b.id, false);
  }

  lemma CreditedStrong(a: Active, hits: seq<Hit>, ids: nat, h: Hit)
    requires Credited(a.bundle, hits) && ProperHits(hits, ids) && h.id == a.bundle.id && h.strong && h.delta == 0
    ensures Credited(AttachStrong(a, h.peak).bundle, hits + [h])
  {
    hide Sums, Of, UpdateStats;
    OfNext(hits, h, h.id, true);
    OfNext(hits, h, h.id, false);
    OfProper(hits, ids, h.id, true);
    SumsNext(a.bundle.strong, Of(hits, h.id, true), h);
    assert Of(hits, h.id, true) + [h] != [];
  }

  lemma CreditedSudden(a: Active, hits: seq<Hit>, ids: nat, h: Hit)
    requires Credited(a.bundle, hits) && ProperHits(hits, ids) && h.id == a.bundle.id && !h.strong && h.delta >= 0
    ensures Credited(AttachSudden(a, h.peak, h.delta).bundle, hits + [h])
  {
    hide Sums, Of, UpdateStats;
    OfNext(hits, h, h.id, true);
    OfNext(hits, h, h.id, false);
    OfProper(hits, ids, h.id, false);
    SumsNext(a.bundle.sudden, Of(hits, h.id, false), h);
    assert Of(hits, h.id, false) + [h] != [];
  }

  // ----- Routing -----

  predicate IdsApart(d: Detector) {
    && d.nextId > 0
    && (d.slot0.Some? ==> 0 < d.slot0.value.bundle.id < d.nextId)
    && (d.slot1.Some? ==> 0 < d.slot1.value.bundle.id < d.nextId)
    && (d.slot0.Some? && d.slot1.Some? ==> d.slot0.value.bundle.id != d.slot1.value.bundle.id)
  }

  /** A trigger of this reason fired and belongs to this bundle. */
  predicate Gets(d: Detector, v: Verdict, strong: bool, id: nat) { Fired(v, strong) && CreditTo(d, v, strong) == id }

  /** A new bundle is due: something fired, and no active bundle carries any reason that fired. */
  predicate NewDue(d: Detector, v: Verdict) {
    && (v.strong || v.sudden)
    && (v.strong ==> Carrier(d, true).None?) && (v.sudden ==> Carrier(d, false).None?)
  }

  function Attached(slot: Option<Active>, d: Detector, v: Verdict): Option<Active> {
    if slot.None? then None
    else Some(Attach(slot.value, Gets(d, v, true, slot.value.bundle.id), Gets(d, v, false, slot.value.bundle.id), v))
  }

  /** Routing does exactly that: every active bundle gets the triggers that belong to it and no other, and a
      bundle is created if and only if one is due, in the first free slot. */
  lemma RouteExact(d: Detector, v: Verdict, s: PublishedSnapshot, at: int, utc: int)
    requires SlotsReady(d) && IdsApart(d)
    ensures var d' := Route(d, v, s, at, utc);
            if NewDue(d, v) then
              && d'.nextId == d.nextId + 1
              && (d.slot0.None? || d.slot1.None?)
              && d'.slot0 == (if d.slot0.None? then Some(NewActive(d, v, s, at, utc)) else d.slot0)
              && d'.slot1 == (if d.slot0.None? then d.slot1 else Some(NewActive(d, v, s, at, utc)))
            else
              && d'.nextId == d.nextId
              && d'.slot0 == Attached(d.slot0, d, v) && d'.slot1 == Attached(d.slot1, d, v)
  {
    hide NewActive, AttachStrong, AttachSudden, StatsOk;
  }

  lemma CreditBound(d: Detector, v: Verdict, strong: bool)
    requires IdsApart(d)
    ensures CreditTo(d, v, strong) <= d.nextId
  {
  }

  lemma ProperNext(hits: seq<Hit>, ids: nat, h: Hit)
    requires ProperHits(hits, ids) && h.id < ids && h.delta >= 0
    ensures ProperHits(hits + [h], ids)
  {
  }

  /** What one snapshot adds to the ledger is what its triggers add to the bundle. */
  lemma CreditedHits(a: Active, hits: seq<Hit>, d: Detector, v: Verdict, k: nat)
    requires Credited(a.bundle, hits) && ProperHits(hits, d.nextId + 1) && IdsApart(d) && v.delta >= 0
    ensures var id := a.bundle.id;
            && Credited(Attach(a, Gets(d, v, true, id), Gets(d, v, false, id), v).bundle, hits + NewHits(d, v, k))
            && ProperHits(hits + NewHits(d, v, k), d.nextId + 1)
  {
    hide Credited, ProperHits, CreditTo, UpdateStats, IdsApart;
    var id := a.bundle.id;
    var loud := Hit(k, CreditTo(d, v, true), true, v.peak, 0);
    var jump := Hit(k, CreditTo(d, v, false), false, v.peak, v.delta);
    CreditBound(d, v, true);
    CreditBound(d, v, false);
    var a1 := if Gets(d, v, true, id) then AttachStrong(a, v.peak) else a;
    var hits1 := if v.strong then hits + [loud] else hits;
    if v.strong {
      ProperNext(hits, d.nextId + 1, loud);
      if loud.id == id {
        CreditedStrong(a, hits, d.nextId + 1, loud);
      } else {
        CreditedElsewhere(a.bundle, hits, loud);
      }
    }
    if v.sudden {
      ProperNext(hits1, d.nextId + 1, jump);
      if jump.id == id {
        CreditedSudden(a1, hits1, d.nextId + 1, jump);
      } else {
        CreditedElsewhere(a1.bundle, hits1, jump);
      }
    }
    assert hits + NewHits(d, v, k) == if v.sudden then hits1 + [jump] else hits1;
  }

  function Blank(d: Detector, s: PublishedSnapshot, at: int, utc: int): Active {
    Active(EventBundle(d.nextId, at, utc, false, false, false, NO_STATS, NO_STATS, d.history + [s]), 0, false)
  }

  lemma NewCredited(d: Detector, v: Verdict, s: PublishedSnapshot, at: int, utc: int, hits: seq<Hit>, k: nat)
    requires NewDue(d, v) && IdsApart(d) && ProperHits(hits, d.nextId) && v.delta >= 0
    ensures Credited(NewActive(d, v, s, at, utc).bundle, hits + NewHits(d, v, k))
  {
    hide ProperHits, Of, IdsApart;
    var a := Blank(d, s, at, utc);
    OfProper(hits, d.nextId, d.nextId, true);
    OfProper(hits, d.nextId, d.nextId, false);
    ProperMore(hits, d.nextId);
    CreditedHits(a, hits, d, v, k);
    assert NewActive(d, v, s, at, utc) == Attach(a, v.strong, v.sudden, v);
  }

  lemma ProperMore(hits: seq<Hit>, ids: nat)
    requires ProperHits(hits, ids)
    ensures ProperHits(hits, ids + 1)
  {
  }

  // ----- The ledger of a run -----

  predicate SlotCredited(slot: Option<Active>, hits: seq<Hit>) { slot.Some? ==> Credited(slot.value.bundle, hits) }

  predicate Elsewhere(slot: Option<Active>, id: nat) { slot.Some? ==> slot.value.bundle.id != id }

  /** A bundle that left its slot: its id is never used again. */
  predicate Left(b: EventBundle, d: Detector, hits: seq<Hit>) {
    Credited(b, hits) && b.id < d.nextId && Elsewhere(d.slot0, b.id) && Elsewhere(d.slot1, b.id)
  }

  predicate AllLeft(bs: seq<EventBundle>, d: Detector, hits: seq<Hit>) {
    forall i | 0 <= i < |bs| :: Left(bs[i], d, hits)
  }

  predicate Books(d: Detector, hits: seq<Hit>) {
    IdsApart(d) && SlotCredited(d.slot0, hits) && SlotCredited(d.slot1, hits) && ProperHits(hits, d.nextId)
  }

  /** Every bundle there is or was, active, waiting, handed out or dropped, has exactly the reasons and the
      statistics of the triggers credited to it. */
  predicate Ledger(r: Run) {
    && Books(r.d, r.hits)
    && AllLeft(r.d.completed, r.d, r.hits) && AllLeft(r.delivered, r.d, r.hits) && AllLeft(r.dropped, r.d, r.hits)
  }

  // Expiry

  /** Slots may empty, and bundles in them may close, but none takes another's place. */
  predicate Shrinks(slot: Option<Active>, slot': Option<Active>) {
    slot'.Some? ==> slot.Some? && slot'.value.bundle == slot.value.bundle.(partial := slot'.value.bundle.partial)
  }

  lemma KeepShrinks(slot: Option<Active>, o: EventOptions, now: int)
    ensures Shrinks(slot, Keep(slot, o, now)) && Shrinks(slot, slot)
  {
  }

  lemma SameCredit(b: EventBundle, partial: bool, frames: seq<PublishedSnapshot>, hits: seq<Hit>)
    requires Credited(b, hits)
    ensures Credited(b.(partial := partial), hits) && Credited(b.(frames := frames), hits)
  {
  }

  lemma BooksShrink(d: Detector, d': Detector, hits: seq<Hit>)
    requires Books(d, hits) && d'.nextId == d.nextId && Shrinks(d.slot0, d'.slot0) && Shrinks(d.slot1, d'.slot1)
    ensures Books(d', hits)
  {
    hide Credited, ProperHits;
    if d'.slot0.Some? {
      SameCredit(d.slot0.value.bundle, d'.slot0.value.bundle.partial, [], hits);
    }
    if d'.slot1.Some? {
      SameCredit(d.slot1.value.bundle, d'.slot1.value.bundle.partial, [], hits);
    }
  }

  lemma LeftShrink(bs: seq<EventBundle>, d: Detector, d': Detector, hits: seq<Hit>)
    requires AllLeft(bs, d, hits) && d'.nextId == d.nextId && Shrinks(d.slot0, d'.slot0) && Shrinks(d.slot1, d'.slot1)
    ensures AllLeft(bs, d', hits)
  {
    hide Credited;
    forall i | 0 <= i < |bs| ensures Left(bs[i], d', hits) {
      assert Left(bs[i], d, hits);
    }
  }

  /** A bundle whose merge window has passed goes to the queue or is dropped. */
  lemma EmitLeft(
      d: Detector, slot: Option<Active>, now: int, after: Detector, dropped: seq<EventBundle>, hits: seq<Hit>)
    requires AllLeft(d.completed, after, hits) && AllLeft(dropped, after, hits)
    requires slot.Some? && MergeDue(slot.value, d.options, now) ==> Left(slot.value.bundle, after, hits)
    ensures AllLeft(EmitDue(d, slot, now).completed, after, hits)
    ensures AllLeft(dropped + Pushed(d, slot, now), after, hits)
  {
    hide Left;
    if slot.Some? && MergeDue(slot.value, d.options, now) {
      ClosedLeft(slot.value, d.options, now, after, hits);
    } else {
      assert dropped + [] == dropped;
    }
  }

  lemma ClosedLeft(a: Active, o: EventOptions, now: int, after: Detector, hits: seq<Hit>)
    requires Left(a.bundle, after, hits)
    ensures Left(CloseIfDue(a, o, now).bundle, after, hits)
  {
    hide Credited;
    SameCredit(a.bundle, a.postFrames < POST_FRAMES, [], hits);
  }

  lemma Expire0Ledger(r: Run, now: int)
    requires Ledger(r)
    ensures Ledger(ExpireSlot0(r, now))
  {
    hide Keep, Credited, EmitDue, Pushed, ProperHits, AllLeft, Shrinks;
    var d, e := r.d, ExpireSlot0(r, now);
    EmitKeepsRest(d, d.slot0, now);
    KeepShrinks(d.slot0, d.options, now);
    KeepShrinks(d.slot1, d.options, now);
    BooksShrink(d, e.d, r.hits);
    LeftShrink(d.completed, d, e.d, r.hits);
    LeftShrink(r.delivered, d, e.d, r.hits);
    LeftShrink(r.dropped, d, e.d, r.hits);
    KeepDue(d.slot0, d.options, now);
    EmitLeft(d, d.slot0, now, e.d, r.dropped, r.hits);
  }

  lemma Expire1Ledger(r: Run, now: int)
    requires Ledger(r)
    ensures Ledger(ExpireSlot1(r, now))
  {
    hide Keep, Credited, EmitDue, Pushed, ProperHits, AllLeft, Shrinks;
    var d, e := r.d, ExpireSlot1(r, now);
    EmitKeepsRest(d, d.slot1, now);
    KeepShrinks(d.slot0, d.options, now);
    KeepShrinks(d.slot1, d.options, now);
    BooksShrink(d, e.d, r.hits);
    LeftShrink(d.completed, d, e.d, r.hits);
    LeftShrink(r.delivered, d, e.d, r.hits);
    LeftShrink(r.dropped, d, e.d, r.hits);
    KeepDue(d.slot1, d.options, now);
    EmitLeft(d, d.slot1, now, e.d, r.dropped, r.hits);
  }

  lemma KeepDue(slot: Option<Active>, o: EventOptions, now: int)
    ensures slot.Some? && MergeDue(slot.value, o, now) ==> Keep(slot, o, now).None?
  {
  }

  // Acceptance

  /** Appending a frame changes neither where triggers belong nor what is on the books. */
  lemma AppendBooks(d: Detector, s: PublishedSnapshot, v: Verdict, hits: seq<Hit>)
    requires Books(d, hits) && SlotsReady(d)
    ensures var d2 := d.(slot0 := AppendPost(d.slot0, s), slot1 := AppendPost(d.slot1, s),
                         armed := v.armed, previousPeak := v.previousPeak);
            && Books(d2, hits) && SlotsReady(d2) && SameIds(d, d2)
            && Carrier(d2, true) == Carrier(d, true) && Carrier(d2, false) == Carrier(d, false)
  {
    hide Credited, ProperHits, BundleShape, HasGeneration;
    AppendPostCounts(d.slot0, s);
    AppendPostCounts(d.slot1, s);
    if d.slot0.Some? {
      SameCredit(d.slot0.value.bundle, false, AppendPost(d.slot0, s).value.bundle.frames, hits);
    }
    if d.slot1.Some? {
      SameCredit(d.slot1.value.bundle, false, AppendPost(d.slot1, s).value.bundle.frames, hits);
    }
  }

  predicate SameIds(d: Detector, d': Detector) {
    && d'.slot0.Some? == d.slot0.Some? && (d.slot0.Some? ==> d'.slot0.value.bundle.id == d.slot0.value.bundle.id)
    && d'.slot1.Some? == d.slot1.Some? && (d.slot1.Some? ==> d'.slot1.value.bundle.id == d.slot1.value.bundle.id)
  }

  lemma AttachedCredited(slot: Option<Active>, d: Detector, v: Verdict, hits: seq<Hit>, k: nat)
    requires SlotCredited(slot, hits) && ProperHits(hits, d.nextId + 1) && IdsApart(d) && v.delta >= 0
    ensures SlotCredited(Attached(slot, d, v), hits + NewHits(d, v, k))
  {
    hide Credited, ProperHits, IdsApart, Gets, Attach;
    if slot.Some? {
      CreditedHits(slot.value, hits, d, v, k);
    }
  }

  /** A bundle to which nothing is credited stays as it is. */
  lemma IdleCredited(b: EventBundle, d: Detector, v: Verdict, hits: seq<Hit>, k: nat)
    requires Credited(b, hits) && ProperHits(hits, d.nextId + 1) && IdsApart(d) && v.delta >= 0
    requires !Gets(d, v, true, b.id) && !Gets(d, v, false, b.id)
    ensures Credited(b, hits + NewHits(d, v, k))
  {
    hide Credited, ProperHits, IdsApart, Gets;
    CreditedHits(Active(b, 0, false), hits, d, v, k);
  }

  lemma ProperNew(hits: seq<Hit>, d: Detector, v: Verdict, k: nat)
    requires ProperHits(hits, d.nextId) && IdsApart(d) && v.delta >= 0
    ensures ProperHits(hits + NewHits(d, v, k), if NewDue(d, v) then d.nextId + 1 else d.nextId)
  {
  }

  /** A trigger goes to an active bundle or to the next id. */
  lemma GetsActive(d: Detector, v: Verdict, strong: bool, id: nat)
    requires Elsewhere(d.slot0, id) && Elsewhere(d.slot1, id) && id != d.nextId
    ensures !Gets(d, v, strong, id)
  {
  }

  lemma NewDueNone(d: Detector, v: Verdict, id: nat)
    requires NewDue(d, v) && id != d.nextId
    ensures !Gets(d, v, true, id) && !Gets(d, v, false, id)
  {
  }

  lemma RouteBooks(d: Detector, v: Verdict, s: PublishedSnapshot, at: int, utc: int, hits: seq<Hit>, k: nat)
    requires Books(d, hits) && SlotsReady(d) && v.delta >= 0
    ensures Books(Route(d, v, s, at, utc), hits + NewHits(d, v, k))
  {
    hide Credited, ProperHits, Route, NewHits, SlotsReady, NewDue, Attach, Gets, NewActive;
    RouteExact(d, v, s, at, utc);
    ProperNew(hits, d, v, k);
    ProperMore(hits, d.nextId);
    if NewDue(d, v) {
      NewCredited(d, v, s, at, utc, hits, k);
      NewId(d, v, s, at, utc);
      if d.slot0.Some? {
        NewDueNone(d, v, d.slot0.value.bundle.id);
        IdleCredited(d.slot0.value.bundle, d, v, hits, k);
      }
      if d.slot1.Some? {
        NewDueNone(d, v, d.slot1.value.bundle.id);
        IdleCredited(d.slot1.value.bundle, d, v, hits, k);
      }
    } else {
      AttachedCredited(d.slot0, d, v, hits, k);
      AttachedCredited(d.slot1, d, v, hits, k);
      AttachedId(d.slot0, d, v);
      AttachedId(d.slot1, d, v);
    }
  }

  lemma NewId(d: Detector, v: Verdict, s: PublishedSnapshot, at: int, utc: int)
    ensures NewActive(d, v, s, at, utc).bundle.id == d.nextId
  {
  }

  lemma AttachedId(slot: Option<Active>, d: Detector, v: Verdict)
    ensures var slot' := Attached(slot, d, v);
            slot'.Some? == slot.Some? && (slot.Some? ==> slot'.value.bundle.id == slot.value.bundle.id)
  {
  }

  lemma RouteLeft(
      bs: seq<EventBundle>, d: Detector, v: Verdict, s: PublishedSnapshot, at: int, utc: int, hits: seq<Hit>, k: nat)
    requires AllLeft(bs, d, hits) && Books(d, hits) && SlotsReady(d) && v.delta >= 0
    ensures AllLeft(bs, Route(d, v, s, at, utc), hits + NewHits(d, v, k))
  {
    hide Credited, ProperHits, Route, NewHits, SlotsReady, NewDue, Attach, Gets, NewActive;
    RouteExact(d, v, s, at, utc);
    ProperMore(hits, d.nextId);
    NewId(d, v, s, at, utc);
    AttachedId(d.slot0, d, v);
    AttachedId(d.slot1, d, v);
    forall i | 0 <= i < |bs| ensures Left(bs[i], Route(d, v, s, at, utc), hits + NewHits(d, v, k)) {
      assert Left(bs[i], d, hits);
      GetsActive(d, v, true, bs[i].id);
      GetsActive(d, v, false, bs[i].id);
      IdleCredited(bs[i], d, v, hits, k);
    }
  }

  lemma LeftSame(bs: seq<EventBundle>, d: Detector, d': Detector, hits: seq<Hit>)
    requires AllLeft(bs, d, hits) && SameIds(d, d') && d'.nextId == d.nextId
    ensures AllLeft(bs, d', hits)
  {
    hide Credited;
    forall i | 0 <= i < |bs| ensures Left(bs[i], d', hits) {
      assert Left(bs[i], d, hits);
    }
  }

  lemma NewHitsSame(d: Detector, d': Detector, v: Verdict, k: nat)
    requires d'.nextId == d.nextId && Carrier(d', true) == Carrier(d, true) && Carrier(d', false) == Carrier(d, false)
    ensures NewHits(d', v, k) == NewHits(d, v, k) && NewDue(d', v) == NewDue(d, v)
  {
    hide Carrier;
  }

  /** The detector on which an accepted snapshot's triggers are routed. */
  function Routed(d: Detector, s: PublishedSnapshot, isFresh: bool): Detector {
    var v := Judge(d, s, isFresh);
    d.(slot0 := AppendPost(d.slot0, s), slot1 := AppendPost(d.slot1, s),
       armed := v.armed, previousPeak := v.previousPeak)
  }

  lemma AcceptRoutes(d: Detector, s: PublishedSnapshot, at: int, isFresh: bool, utc: int)
    ensures var v, d' := Judge(d, s, isFresh), Accept(d, s, at, isFresh, utc);
            var d2 := Route(Routed(d, s, isFresh), v, s, at, utc);
            d' == d2.(history := d'.history, lastGeneration := d'.lastGeneration) && v.delta >= 0
  {
    hide Route, Judge, AppendPost, LastTwo;
    var d1 := d.(slot0 := AppendPost(d.slot0, s), slot1 := AppendPost(d.slot1, s));
    JudgeSlots(d, d1, s, isFresh);
  }

  lemma LedgerRest(d: Detector, d': Detector, bs: seq<EventBundle>, hits: seq<Hit>)
    requires d'.slot0 == d.slot0 && d'.slot1 == d.slot1 && d'.nextId == d.nextId
    ensures Books(d, hits) ==> Books(d', hits)
    ensures AllLeft(bs, d, hits) ==> AllLeft(bs, d', hits)
  {
    hide Credited, ProperHits;
    if AllLeft(bs, d, hits) {
      forall i | 0 <= i < |bs| ensures Left(bs[i], d', hits) {
        assert Left(bs[i], d, hits);
      }
    }
  }

  lemma AcceptBooks(d: Detector, s: PublishedSnapshot, at: int, isFresh: bool, utc: int, hits: seq<Hit>, k: nat)
    requires Books(d, hits) && SlotsReady(d)
    ensures Books(Accept(d, s, at, isFresh, utc), hits + NewHits(d, Judge(d, s, isFresh), k))
  {
    hide Accept, Route, Judge, AppendPost, Books, SlotsReady, NewHits, AllLeft;
    var v, d1 := Judge(d, s, isFresh), Routed(d, s, isFresh);
    AcceptRoutes(d, s, at, isFresh, utc);
    AppendBooks(d, s, v, hits);
    NewHitsSame(d, d1, v, k);
    RouteBooks(d1, v, s, at, utc, hits, k);
    LedgerRest(Route(d1, v, s, at, utc), Accept(d, s, at, isFresh, utc), [], hits + NewHits(d, v, k));
  }

  lemma AcceptLeft(
      bs: seq<EventBundle>, d: Detector, s: PublishedSnapshot, at: int, isFresh: bool, utc: int, hits: seq<Hit>, k: nat)
    requires AllLeft(bs, d, hits) && Books(d, hits) && SlotsReady(d)
    ensures AllLeft(bs, Accept(d, s, at, isFresh, utc), hits + NewHits(d, Judge(d, s, isFresh), k))
  {
    hide Accept, Route, Judge, AppendPost, Books, SlotsReady, NewHits, AllLeft, SameIds;
    var v, d1 := Judge(d, s, isFresh), Routed(d, s, isFresh);
    AcceptRoutes(d, s, at, isFresh, utc);
    AppendBooks(d, s, v, hits);
    NewHitsSame(d, d1, v, k);
    LeftSame(bs, d, d1, hits);
    RouteLeft(bs, d1, v, s, at, utc, hits, k);
    LedgerRest(Route(d1, v, s, at, utc), Accept(d, s, at, isFresh, utc), bs, hits + NewHits(d, v, k));
  }

  lemma AcceptLedger(r: Run, s: PublishedSnapshot, at: int, isFresh: bool, utc: int)
    requires Ledger(r) && SlotsReady(r.d)
    ensures Ledger(AcceptRun(r, s, at, isFresh, utc))
  {
    hide Accept, Judge, Books, AllLeft, SlotsReady, NewHits;
    AcceptKeeps(r.d, s, at, isFresh, utc);
    var k := |r.past.accepted|;
    AcceptBooks(r.d, s, at, isFresh, utc, r.hits, k);
    AcceptLeft(r.d.completed, r.d, s, at, isFresh, utc, r.hits, k);
    AcceptLeft(r.delivered, r.d, s, at, isFresh, utc, r.hits, k);
    AcceptLeft(r.dropped, r.d, s, at, isFresh, utc, r.hits, k);
  }

  lemma TakenLedger(e: Run)
    requires Ledger(e)
    ensures Ledger(e.(d := TakeCompleted(e.d), delivered := e.delivered + e.d.completed))
  {
    hide Left;
    LedgerTaken(e.d.completed, e.d, e.hits);
    LedgerTaken(e.delivered, e.d, e.hits);
    LedgerTaken(e.dropped, e.d, e.hits);
  }

  lemma LedgerTaken(bs: seq<EventBundle>, d: Detector, hits: seq<Hit>)
    requires AllLeft(bs, d, hits)
    ensures AllLeft(bs, TakeCompleted(d), hits)
  {
    hide Books, AllLeft;
    LedgerRest(d, TakeCompleted(d), bs, hits);
  }

  lemma ConfiguredLedger(r: Run, o: EventOptions)
    requires Ledger(r)
    ensures Ledger(Step(r, Configured(o)))
  {
    hide Books, AllLeft;
    LedgerRest(r.d, r.d.(options := o), r.d.completed, r.hits);
    LedgerRest(r.d, r.d.(options := o), r.delivered, r.hits);
    LedgerRest(r.d, r.d.(options := o), r.dropped, r.hits);
  }

  lemma StepLedger(r: Run, op: Op)
    requires Frames(r) && Ledger(r)
    ensures Ledger(Step(r, op))
  {
    hide ExpireSlot0, ExpireSlot1, AcceptRun, Frames, Ledger;
    match op
    case Configured(o) => ConfiguredLedger(r, o);
    case Advanced(now) =>
      Expire0Ledger(r, now);
      Expire1Ledger(ExpireSlot0(r, now), now);
      TakenLedger(ExpireRun(r, now));
    case Observed(s, at, isFresh, utc) =>
      Expire0Ledger(r, at);
      Expire1Ledger(ExpireSlot0(r, at), at);
      ExpireSlot0Frames(r, at);
      ExpireSlot1Frames(ExpireSlot0(r, at), at);
      FramesReady(ExpireRun(r, at));
      AcceptLedger(ExpireRun(r, at), s, at, isFresh, utc);
  }

  /** Over every run, every bundle has exactly the reasons and statistics of the triggers credited to it,
      the count as far as the counter goes. */
  lemma {:induction false} RunLedger(o: EventOptions, ops: seq<Op>)
    ensures Ledger(RunOf(o, ops))
  {
    hide Step, Frames;
    if ops != [] {
      RunLedger(o, ops[..|ops| - 1]);
      RunFrames(o, ops[..|ops| - 1]);
      StepLedger(RunOf(o, ops[..|ops| - 1]), ops[|ops| - 1]);
    }
  }

  // ----- Which triggers the ledger lists -----

  /** Every trigger that fired, in order: on which accepted snapshot, and for which reason. */
  function Triggers(seen: seq<Seen>): seq<(nat, bool)> {
    if seen == [] then []
    else
      var k := |seen| - 1;
      Triggers(seen[..k]) + (if seen[k].strong then [(k, true)] else []) + (if seen[k].sudden then [(k, false)] else [])
  }

  predicate Lists(hits: seq<Hit>, triggers: seq<(nat, bool)>) {
    |hits| == |triggers| && forall i | 0 <= i < |hits| :: (hits[i].index, hits[i].strong) == triggers[i]
  }

  /** A trigger of this reason was credited to the bundle before accepted snapshot `k`. */
  predicate Earlier(hits: seq<Hit>, k: nat, id: nat, strong: bool) {
    exists i | 0 <= i < |hits| :: hits[i].index < k && hits[i].id == id && hits[i].strong == strong
  }

  predicate Credits(hits: seq<Hit>, k: nat, id: nat, strong: bool) {
    exists i | 0 <= i < |hits| :: hits[i].index == k && hits[i].id == id && hits[i].strong == strong
  }

  predicate BornAt(born: seq<nat>, id: nat, k: nat) { 1 <= id <= |born| && born[id - 1] == k }

  /** A trigger is in its bundle because the bundle was created by its snapshot, or already had its reason,
      or already had the other reason, which fired on the same snapshot. */
  predicate Justified(h: Hit, hits: seq<Hit>, born: seq<nat>) {
    || BornAt(born, h.id, h.index)
    || Earlier(hits, h.index, h.id, h.strong)
    || (Credits(hits, h.index, h.id, !h.strong) && Earlier(hits, h.index, h.id, !h.strong))
  }

  /** The peak and the jump are those of its snapshot's sample. */
  predicate Measured(h: Hit, p: Past, samples: seq<Sample>) {
    && h.index < |p.seen| == |p.accepted| && h.peak == PeakOf(p.accepted[h.index])
    && match p.seen[h.index].sample
       case None => false
       case Some(i) =>
         if h.strong then h.delta == 0
         else 0 < i < |samples| && h.delta == Abs(samples[i].peak - samples[i - 1].peak)
  }

  predicate AllHits(hits: seq<Hit>, all: seq<Hit>, p: Past, samples: seq<Sample>) {
    forall i | 0 <= i < |hits| :: Justified(hits[i], all, p.born) && Measured(hits[i], p, samples)
  }

  predicate Entries(r: Run) { Lists(r.hits, Triggers(r.past.seen)) && AllHits(r.hits, r.hits, r.past, r.samples) }

  lemma TriggersNext(seen: seq<Seen>, x: Seen)
    ensures Triggers(seen + [x])
            == Triggers(seen) + (if x.strong then [(|seen|, true)] else [])
               + (if x.sudden then [(|seen|, false)] else [])
  {
    assert (seen + [x])[..|seen|] == seen;
  }

  lemma ListsOne(hits: seq<Hit>, triggers: seq<(nat, bool)>, h: Hit)
    requires Lists(hits, triggers)
    ensures Lists(hits + [h], triggers + [(h.index, h.strong)])
  {
  }

  lemma ListsNext(hits: seq<Hit>, seen: seq<Seen>, x: Seen, d: Detector, v: Verdict)
    requires Lists(hits, Triggers(seen)) && x.strong == v.strong && x.sudden == v.sudden
    ensures Lists(hits + NewHits(d, v, |seen|), Triggers(seen + [x]))
  {
    hide CreditTo, Triggers, Lists;
    var k, fired := |seen|, Triggers(seen);
    var loud := Hit(k, CreditTo(d, v, true), true, v.peak, 0);
    var jump := Hit(k, CreditTo(d, v, false), false, v.peak, v.delta);
    TriggersNext(seen, x);
    var hits1 := if v.strong then hits + [loud] else hits;
    var fired1 := if v.strong then fired + [(k, true)] else fired;
    ListsOne(hits, fired, loud);
    ListsOne(hits1, fired1, jump);
    assert hits + NewHits(d, v, k) == if v.sudden then hits1 + [jump] else hits1;
    assert Triggers(seen + [x]) == if v.sudden then fired1 + [(k, false)] else fired1;
  }

  lemma EntriesGrow(hits: seq<Hit>, more: seq<Hit>, p: Past, s: PublishedSnapshot, x: Seen, created: bool,
                    samples: seq<Sample>, extra: seq<Sample>)
    requires AllHits(hits, hits, p, samples)
    ensures AllHits(hits, hits + more, NextPast(p, s, x, created), samples + extra)
  {
    hide Justified, Measured, NextPast;
    var q := NextPast(p, s, x, created);
    forall i | 0 <= i < |hits| ensures Justified(hits[i], hits + more, q.born) && Measured(hits[i], q, samples + extra) {
      BornGrows(p, s, x, created);
      JustifiedGrows(hits[i], hits, more, p.born, q.born);
      MeasuredGrows(hits[i], p, s, x, created, samples, extra);
    }
  }

  lemma BornGrows(p: Past, s: PublishedSnapshot, x: Seen, created: bool)
    ensures p.born <= NextPast(p, s, x, created).born
  {
  }

  lemma MeasuredGrows(
      h: Hit, p: Past, s: PublishedSnapshot, x: Seen, created: bool, samples: seq<Sample>, extra: seq<Sample>)
    requires Measured(h, p, samples)
    ensures Measured(h, NextPast(p, s, x, created), samples + extra)
  {
    hide PeakOf;
  }

  lemma JustifiedGrows(h: Hit, hits: seq<Hit>, more: seq<Hit>, born: seq<nat>, born': seq<nat>)
    requires Justified(h, hits, born) && born <= born'
    ensures Justified(h, hits + more, born')
  {
    FoundGrows(hits, more, h.index, h.id, h.strong);
    FoundGrows(hits, more, h.index, h.id, !h.strong);
  }

  lemma FoundGrows(hits: seq<Hit>, more: seq<Hit>, k: nat, id: nat, strong: bool)
    ensures Earlier(hits, k, id, strong) ==> Earlier(hits + more, k, id, strong)
    ensures Credits(hits, k, id, strong) ==> Credits(hits + more, k, id, strong)
  {
    assert forall i | 0 <= i < |hits| :: (hits + more)[i] == hits[i];
  }

  lemma {:induction false} OfFinds(hits: seq<Hit>, id: nat, strong: bool) returns (i: nat)
    requires Of(hits, id, strong) != []
    ensures i < |hits| && hits[i].id == id && hits[i].strong == strong
  {
    i := |hits| - 1;
    if hits[i].id != id || hits[i].strong != strong {
      i := OfFinds(hits[..i], id, strong);
    }
  }

  /** The bundle that carries a reason got it earlier. */
  lemma CarrierEarlier(d: Detector, hits: seq<Hit>, k: nat, strong: bool)
    requires Books(d, hits) && Carrier(d, strong).Some? && forall i | 0 <= i < |hits| :: hits[i].index < k
    ensures Earlier(hits, k, Carrier(d, strong).value, strong)
  {
    hide Of, Sums, ProperHits, IdsApart;
    var i := OfFinds(hits, Carrier(d, strong).value, strong);
  }

  lemma NewJustified(d: Detector, v: Verdict, hits: seq<Hit>, born: seq<nat>, k: nat, strong: bool)
    requires Books(d, hits) && Fired(v, strong) && forall i | 0 <= i < |hits| :: hits[i].index < k
    requires d.nextId >= 1 && (NewDue(d, v) ==> BornAt(born, d.nextId, k))
    ensures var delta := if strong then 0 else v.delta;
            Justified(Hit(k, CreditTo(d, v, strong), strong, v.peak, delta), hits + NewHits(d, v, k), born)
  {
    hide Books, Carrier, Earlier, Credits, BornAt;
    var more := NewHits(d, v, k);
    if Carrier(d, strong).Some? {
      CarrierEarlier(d, hits, k, strong);
      FoundGrows(hits, more, k, Carrier(d, strong).value, strong);
    } else if Fired(v, !strong) && Carrier(d, !strong).Some? {
      CarrierEarlier(d, hits, k, !strong);
      FoundGrows(hits, more, k, Carrier(d, !strong).value, !strong);
      NewCredits(d, v, hits, k, !strong);
    }
  }

  lemma NewCredits(d: Detector, v: Verdict, hits: seq<Hit>, k: nat, strong: bool)
    requires Fired(v, strong)
    ensures Credits(hits + NewHits(d, v, k), k, CreditTo(d, v, strong), strong)
  {
    hide CreditTo;
    var all := hits + NewHits(d, v, k);
    assert all[|hits| + if strong || !v.strong then 0 else 1].strong == strong;
  }

  /** A bundle is created on an accepted snapshot if and only if one is due. */
  lemma CreatedIffDue(d: Detector, s: PublishedSnapshot, at: int, isFresh: bool, utc: int, hits: seq<Hit>)
    requires Books(d, hits) && SlotsReady(d)
    ensures Accept(d, s, at, isFresh, utc).nextId
            == if NewDue(d, Judge(d, s, isFresh)) then d.nextId + 1 else d.nextId
  {
    hide Accept, Route, Judge, AppendPost, SlotsReady, NewHits, SlotCredited, ProperHits, NewDue, IdsApart;
    var v, d1 := Judge(d, s, isFresh), Routed(d, s, isFresh);
    AcceptRoutes(d, s, at, isFresh, utc);
    AppendBooks(d, s, v, hits);
    NewHitsSame(d, d1, v, 0);
    RouteExact(d1, v, s, at, utc);
  }

  lemma NewMeasured(r: Run, s: PublishedSnapshot, at: int, isFresh: bool, utc: int, strong: bool)
    requires Hysteresis(r) && |r.past.seen| == |r.past.accepted| && Fired(Judge(r.d, s, isFresh), strong)
    ensures var v, x, k := Judge(r.d, s, isFresh), SeenAs(r, s, at, isFresh, utc), |r.past.accepted|;
            var h := Hit(k, CreditTo(r.d, v, strong), strong, v.peak, if strong then 0 else v.delta);
            forall created ::
              Measured(h, NextPast(r.past, s, x, created), r.samples + [SampleOf(r.d.options, s)])
  {
    hide CreditTo, Recorded, Judged;
  }

  lemma IndicesBelow(hits: seq<Hit>, all: seq<Hit>, p: Past, samples: seq<Sample>)
    requires AllHits(hits, all, p, samples)
    ensures forall i | 0 <= i < |hits| :: hits[i].index < |p.accepted|
  {
    hide Justified;
    forall i | 0 <= i < |hits| ensures hits[i].index < |p.accepted| {
      assert Measured(hits[i], p, samples);
    }
  }

  lemma JoinHits(hits: seq<Hit>, more: seq<Hit>, p: Past, samples: seq<Sample>)
    requires AllHits(hits, hits + more, p, samples) && AllHits(more, hits + more, p, samples)
    ensures AllHits(hits + more, hits + more, p, samples)
  {
    hide Justified, Measured;
  }

  lemma AcceptEntries(r: Run, s: PublishedSnapshot, at: int, isFresh: bool, utc: int)
    requires Entries(r) && Ledger(r) && Frames(r) && Hysteresis(r)
    ensures Entries(AcceptRun(r, s, at, isFresh, utc))
  {
    hide Accept, Judge, AllHits, Lists, Triggers, NewHits, Books, AllLeft, SlotsReady, Hysteresis, Frames;
    var v, x, k := Judge(r.d, s, isFresh), SeenAs(r, s, at, isFresh, utc), |r.past.accepted|;
    var r' := AcceptRun(r, s, at, isFresh, utc);
    var created := r'.d.nextId > r.d.nextId;
    var more := NewHits(r.d, v, k);
    var extra := if ValidPeak(s, isFresh) then [SampleOf(r.d.options, s)] else [];
    assert r'.samples == r.samples + extra;
    FramesSizes(r);
    ListsNext(r.hits, r.past.seen, x, r.d, v);
    EntriesGrow(r.hits, more, r.past, s, x, created, r.samples, extra);
    AcceptNewEntries(r, s, at, isFresh, utc);
    JoinHits(r.hits, more, r'.past, r'.samples);
  }

  lemma FramesSizes(r: Run)
    requires Frames(r)
    ensures |r.past.seen| == |r.past.accepted| && r.d.nextId == 1 + |r.past.born|
  {
  }

  lemma AcceptNewEntries(r: Run, s: PublishedSnapshot, at: int, isFresh: bool, utc: int)
    requires Entries(r) && Ledger(r) && Frames(r) && Hysteresis(r)
    ensures var r' := AcceptRun(r, s, at, isFresh, utc);
            var more := NewHits(r.d, Judge(r.d, s, isFresh), |r.past.accepted|);
            AllHits(more, r.hits + more, r'.past, r'.samples)
  {
    hide Accept, Judge, Lists, Triggers, Books, AllLeft, SlotsReady, Hysteresis, Frames;
    hide Justified, Measured, CreditTo, Carrier, NewDue;
    var v, k := Judge(r.d, s, isFresh), |r.past.accepted|;
    FramesSizes(r);
    FramesReady(r);
    IndicesBelow(r.hits, r.hits, r.past, r.samples);
    CreatedIffDue(r.d, s, at, isFresh, utc, r.hits);
    SilentUnlessValid(r.d, s, isFresh);
    if v.strong {
      NewJustified(r.d, v, r.hits, AcceptRun(r, s, at, isFresh, utc).past.born, k, true);
      NewMeasured(r, s, at, isFresh, utc, true);
    }
    if v.sudden {
      NewJustified(r.d, v, r.hits, AcceptRun(r, s, at, isFresh, utc).past.born, k, false);
      NewMeasured(r, s, at, isFresh, utc, false);
    }
  }

  lemma SilentUnlessValid(d: Detector, s: PublishedSnapshot, isFresh: bool)
    ensures !ValidPeak(s, isFresh) ==> !Judge(d, s, isFresh).strong && !Judge(d, s, isFresh).sudden
  {
  }

  lemma StepEntries(r: Run, op: Op)
    requires Entries(r) && Ledger(r) && Frames(r) && Hysteresis(r)
    ensures Entries(Step(r, op))
  {
    hide ExpireSlot0, ExpireSlot1, AcceptRun, Frames, Ledger, Hysteresis, AllHits, Lists;
    match op
    case Configured(o) =>
    case Advanced(now) => ExpireKeeps(r, now);
    case Observed(s, at, isFresh, utc) =>
      ExpireKeeps(r, at);
      ExpiredReady(r, at);
      AcceptEntries(ExpireRun(r, at), s, at, isFresh, utc);
  }

  lemma ExpiredReady(r: Run, now: int)
    requires Ledger(r) && Frames(r) && Hysteresis(r)
    ensures var e := ExpireRun(r, now); Ledger(e) && Frames(e) && Hysteresis(e) && SlotsReady(e.d)
  {
    hide ExpireSlot0, ExpireSlot1, Frames, Ledger, Hysteresis, SlotsReady;
    Expire0Ledger(r, now);
    Expire1Ledger(ExpireSlot0(r, now), now);
    ExpireSlot0Frames(r, now);
    ExpireSlot1Frames(ExpireSlot0(r, now), now);
    ExpireHysteresis(r, now);
    FramesReady(ExpireRun(r, now));
  }

  /** Over every run, the ledger lists, in order, exactly the triggers that fired, each once and with the
      peak and jump of its snapshot, and each is credited to a bundle that had reason to get it. */
  lemma {:induction false} RunEntries(o: EventOptions, ops: seq<Op>)
    ensures Entries(RunOf(o, ops))
  {
    hide Step, Frames, Ledger, Hysteresis;
    if ops != [] {
      var front := ops[..|ops| - 1];
      RunEntries(o, front);
      RunLedger(o, front);
      RunFrames(o, front);
      RunHysteresis(o, front);
      StepEntries(RunOf(o, front), ops[|ops| - 1]);
    }
  }

  // ----- When a bundle is born -----

  /** The slot's bundle carries the reason, and its merge window is still open. */
  predicate StillCarries(slot: Option<Active>, o: EventOptions, strong: bool, now: int) {
    && slot.Some? && now < slot.value.bundle.firstAt + o.mergeWindow
    && if strong then slot.value.bundle.strongReason else slot.value.bundle.suddenReason
  }

  predicate Taken(d: Detector, strong: bool, now: int) {
    StillCarries(d.slot0, d.options, strong, now) || StillCarries(d.slot1, d.options, strong, now)
  }

  lemma CarrierAfterExpiry(r: Run, now: int, strong: bool)
    ensures Carrier(ExpireRun(r, now).d, strong).Some? == Taken(r.d, strong, now)
  {
    hide EmitDue, Pushed;
    var e := ExpireRun(r, now);
    EmitKeepsRest(r.d, r.d.slot0, now);
    EmitKeepsRest(ExpireSlot0(r, now).d, r.d.slot1, now);
    assert e.d.slot0 == Keep(r.d.slot0, r.d.options, now) && e.d.slot1 == Keep(r.d.slot1, r.d.options, now);
  }

  /** In every run, an accepted snapshot creates a bundle if and only if a trigger fires on it, strong by
      hysteresis or sudden by its jump, and no bundle still active carries a reason that fired. */
  lemma BornIff(o: EventOptions, ops: seq<Op>, s: PublishedSnapshot, at: int, isFresh: bool, utc: int)
    ensures var r, r' := RunOf(o, ops), Step(RunOf(o, ops), Observed(s, at, isFresh, utc));
            var i := |r.samples|;
            var strong := |r'.samples| > i && Fires(r'.samples, i);
            var sudden := |r'.samples| > i && Jumps(r'.samples, i);
            r'.past.born
            == if (strong || sudden) && (strong ==> !Taken(r.d, true, at))
                 && (sudden ==> !Taken(r.d, false, at))
               then r.past.born + [|r.past.accepted|] else r.past.born
  {
    hide RunOf, ExpireRun, Accept, Judge, Frames, Ledger, Hysteresis, Taken, Carrier, Fires, Jumps, SlotsReady;
    var r := RunOf(o, ops);
    RunLedger(o, ops);
    RunFrames(o, ops);
    RunHysteresis(o, ops);
    ExpireKeeps(r, at);
    ExpiredReady(r, at);
    var e := ExpireRun(r, at);
    CarrierAfterExpiry(r, at, true);
    CarrierAfterExpiry(r, at, false);
    if Accepts(e.d, s) {
      LedgerBooks(e);
      CreatedIffDue(e.d, s, at, isFresh, utc, e.hits);
      SilentUnlessValid(e.d, s, isFresh);
      if ValidPeak(s, isFresh) {
        HysteresisFacts(e);
        JudgeMeaning(e.d, s, e.samples);
      }
    }
  }

  lemma LedgerBooks(r: Run)
    requires Ledger(r)
    ensures Books(r.d, r.hits)
  {
  }

  lemma HysteresisFacts(r: Run)
    requires Hysteresis(r)
    ensures r.d.armed == Armed(r.samples) && r.d.previousPeak == LastPeak(r.samples)
  {
  }

  // ----- The queue -----

  function EnqueueAll(d: Detector, bs: seq<EventBundle>): Detector {
    if bs == [] then d else Enqueue(EnqueueAll(d, bs[..|bs| - 1]), bs[|bs| - 1])
  }

  function Newest(bs: seq<EventBundle>, limit: nat): seq<EventBundle> {
    if |bs| <= limit then bs else bs[|bs| - limit..]
  }

  lemma QueueNext(d: Detector, front: seq<EventBundle>, b: EventBundle)
    requires d.completed == Newest(front, d.options.maxPending)
    ensures var d' := Enqueue(d, b);
            && d'.completed == Newest(front + [b], d.options.maxPending)
            && d'.droppedCount == d.droppedCount + |d.completed| + 1 - |d'.completed|
            && d' == d.(completed := d'.completed, droppedCount := d'.droppedCount)
  {
  }

  /** However many bundles are put into an empty queue, it holds the newest in order, as many as may wait,
      and counts the others as dropped. */
  lemma {:induction false} QueueIsNewest(d: Detector, bs: seq<EventBundle>)
    requires d.completed == []
    ensures var d', limit := EnqueueAll(d, bs), d.options.maxPending;
            && d'.completed == Newest(bs, limit)
            && d'.droppedCount == d.droppedCount + |bs| - |d'.completed|
            && d' == d.(completed := d'.completed, droppedCount := d'.droppedCount)
  {
    hide Enqueue;
    if bs != [] {
      var front, last := bs[..|bs| - 1], bs[|bs| - 1];
      QueueIsNewest(d, front);
      assert bs == front + [last];
      QueueNext(EnqueueAll(d, front), front, last);
    }
  }
}
