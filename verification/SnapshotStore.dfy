/** The latest published snapshot and the acquisition status served beside it. */
module SnapshotStore {
  import opened Wrappers
  import opened Snapshot
  import opened Acquisition
  import opened Bytes
  import opened Modbus

  const COUNTER_MAX: nat := 0xFFFF_FFFF

  /** A snapshot as readers see it; the poll's timestamps are not modelled. */
  datatype PublishedSnapshot = PublishedSnapshot(generation: nat, payload: ParsedSnapshot)

  datatype Availability = Fresh | Stale | Invalid

  datatype State = State(
    latest: Option<PublishedSnapshot>,
    availability: Availability,
    attemptKnown: bool,
    consecutiveNoResponse: nat,
    communicationAlarm: bool,
    nextGeneration: nat)

  const INITIAL := State(None, Invalid, false, 0, false, 1)

  function Publish(s: State, payload: ParsedSnapshot): State {
    State(Some(PublishedSnapshot(s.nextGeneration, payload)), Fresh, true, 0, false, s.nextGeneration + 1)
  }

  function RecordFailure(s: State, reason: FailureReason): State {
    var n := if reason == NoReply then
               (if s.consecutiveNoResponse < COUNTER_MAX then s.consecutiveNoResponse + 1 else s.consecutiveNoResponse)
             else 0;
    s.(availability := if s.latest.Some? then Stale else Invalid,
       attemptKnown := true, consecutiveNoResponse := n, communicationAlarm := n >= 3)
  }

  /** One completed poll. */
  function Absorb(s: State, result: PollResult): State {
    match result
    case Published(r) => Publish(s, Parse(r))
    case Failed(reason) => RecordFailure(s, reason)
  }

  function Run(results: seq<PollResult>): State {
    if results == [] then INITIAL else Absorb(Run(results[..|results| - 1]), results[|results| - 1])
  }

  /** The object both servers and the persistence worker read. */
  class Store {
    var latest: Option<PublishedSnapshot>
    var availability: Availability
    var attemptKnown: bool
    var consecutiveNoResponse: nat
    var communicationAlarm: bool
    var nextGeneration: nat

    function Model(): State
      reads this
    {
      State(latest, availability, attemptKnown, consecutiveNoResponse, communicationAlarm, nextGeneration)
    }

    constructor ()
      ensures Model() == INITIAL
    {
      latest, availability, attemptKnown := None, Invalid, false;
      consecutiveNoResponse, communicationAlarm, nextGeneration := 0, false, 1;
    }

    method PublishPayload(payload: ParsedSnapshot)
      modifies this
      ensures Model() == Publish(old(Model()), payload)
    {
      latest := Some(PublishedSnapshot(nextGeneration, payload));
      nextGeneration := nextGeneration + 1;
      availability := Fresh;
      attemptKnown := true;
      consecutiveNoResponse := 0;
      communicationAlarm := false;
    }

    method NoteFailure(reason: FailureReason)
      modifies this
      ensures Model() == RecordFailure(old(Model()), reason)
    {
      availability := if latest.Some? then Stale else Invalid;
      attemptKnown := true;
      if reason == NoReply {
        if consecutiveNoResponse < COUNTER_MAX {
          consecutiveNoResponse := consecutiveNoResponse + 1;
        }
      } else {
        consecutiveNoResponse := 0;
      }
      communicationAlarm := consecutiveNoResponse >= 3;
    }
  }

  function Successes(results: seq<PollResult>): nat {
    if results == [] then 0
    else Successes(results[..|results| - 1]) + (if results[|results| - 1].Published? then 1 else 0)
  }

  /** Length of the run of no-response polls the sequence ends with. */
  function TrailingNoReply(results: seq<PollResult>): nat {
    if results == [] || results[|results| - 1] != Failed(NoReply) then 0
    else 1 + TrailingNoReply(results[..|results| - 1])
  }

  /** The registers of the last successful poll. */
  function LastPublished(results: seq<PollResult>): Option<Registers> {
    if results == [] then None
    else match results[|results| - 1]
      case Published(r) => Some(r)
      case Failed(_) => LastPublished(results[..|results| - 1])
  }

  /** The whole state of the store is a function of the poll history: a failed poll leaves the latest
      snapshot alone, generations count successes from 1, and the alarm is on exactly when the last
      three polls all went unanswered. */
  lemma {:induction false} RunSummary(results: seq<PollResult>)
    ensures var s := Run(results);
            && s.nextGeneration == 1 + Successes(results)
            && s.latest == (match LastPublished(results)
                            case None => None
                            case Some(r) => Some(PublishedSnapshot(Successes(results), Parse(r))))
            && (s.communicationAlarm <==> TrailingNoReply(results) >= 3)
            && s.consecutiveNoResponse ==
                 (if TrailingNoReply(results) <= COUNTER_MAX then TrailingNoReply(results) else COUNTER_MAX)
            && (s.availability == Fresh <==> results != [] && results[|results| - 1].Published?)
            && (s.availability == Invalid <==> Successes(results) == 0)
  {
    if results != [] {
      RunSummary(results[..|results| - 1]);
    }
  }

  lemma {:induction false} TrailingAtLeast(results: seq<PollResult>, m: nat)
    ensures TrailingNoReply(results) >= m <==>
            |results| >= m && forall k | |results| - m <= k < |results| :: results[k] == Failed(NoReply)
    decreases m
  {
    if m > 0 && results != [] {
      var front := results[..|results| - 1];
      TrailingAtLeast(front, m - 1);
      assert forall k | 0 <= k < |front| :: front[k] == results[k];
    }
  }

  /** Three unanswered polls in a row are needed, and enough. */
  lemma AlarmIffThreeUnanswered(results: seq<PollResult>)
    ensures Run(results).communicationAlarm <==>
            |results| >= 3 && forall k | |results| - 3 <= k < |results| :: results[k] == Failed(NoReply)
  {
    hide Run;
    RunSummary(results);
    TrailingAtLeast(results, 3);
  }

  // ----- Runs of polls against the line -----

  /** One poll: the state of the line and the clock it starts from, and the settings it runs with. */
  datatype Cycle = Cycle(line: Line, slave: byte, maxRetries: nat)

  function Outcome(c: Cycle): PollOutcome { Poll(c.line, Pd1000(c.slave, c.maxRetries)) }

  function Results(cs: seq<Cycle>): (rs: seq<PollResult>)
    ensures |rs| == |cs| && forall i | 0 <= i < |cs| :: rs[i] == Outcome(cs[i]).result
  {
    seq(|cs|, i requires 0 <= i < |cs| => Outcome(cs[i]).result)
  }

  /** Every register comes from an intact reply to its own request, written during this poll. */
  ghost predicate WhollySourced(c: Cycle, r: Registers) {
    forall j | 0 <= j < REQUEST_COUNT ::
      Sourced(r, Pd1000(c.slave, c.maxRetries), j, Outcome(c).line.exchanges, |c.line.exchanges|)
  }

  /** Poll `j` is the last one that published. */
  predicate LastSuccess(rs: seq<PollResult>, j: nat) {
    j < |rs| && rs[j].Published? && forall k | j < k < |rs| :: rs[k].Failed?
  }

  lemma {:induction false} LastPublishedAt(rs: seq<PollResult>) returns (j: nat)
    ensures match LastPublished(rs)
            case None => forall k | 0 <= k < |rs| :: rs[k].Failed?
            case Some(r) => LastSuccess(rs, j) && rs[j] == Published(r)
  {
    j := 0;
    if rs != [] {
      var front := rs[..|rs| - 1];
      if rs[|rs| - 1].Published? {
        j := |rs| - 1;
      } else {
        j := LastPublishedAt(front);
        assert forall k | 0 <= k < |front| :: front[k] == rs[k];
      }
    }
  }

  /** What readers see after any polls, whatever the line did: nothing if none published; otherwise the
      meaning of the registers of the last poll that did, numbered by the polls that published, each
      register taken from an intact reply to its own request during that very poll. */
  lemma LatestIsSourced(cs: seq<Cycle>)
    ensures var rs, s := Results(cs), Run(Results(cs));
            match s.latest
            case None => forall k | 0 <= k < |cs| :: rs[k].Failed?
            case Some(p) =>
              p.generation == Successes(rs)
              && exists j: nat :: LastSuccess(rs, j) && p.payload == Parse(rs[j].registers)
                  && WhollySourced(cs[j], rs[j].registers)
  {
    hide Run, Successes, LastPublished, Outcome, WhollySourced, Parse;
    var rs := Results(cs);
    RunSummary(rs);
    var j := LastPublishedAt(rs);
    if LastPublished(rs).Some? {
      CycleSourced(cs[j]);
    }
  }

  lemma CycleSourced(c: Cycle)
    ensures Outcome(c).result.Published? ==> WhollySourced(c, Outcome(c).result.registers)
  {
    hide Poll, Pd1000;
    PublishedIsSourced(c.line, c.slave, c.maxRetries);
  }

  /** The last request of the poll was written and not one byte came back. */
  predicate WentSilent(c: Cycle) {
    var before, after := c.line.exchanges, Outcome(c).line.exchanges;
    |after| > |before| && after[|after| - 1].reply == []
  }

  /** The communication alarm is on exactly when each of the last three polls ended in silence. */
  lemma AlarmIffThreeSilent(cs: seq<Cycle>)
    ensures Run(Results(cs)).communicationAlarm <==>
              |cs| >= 3 && forall k | |cs| - 3 <= k < |cs| :: WentSilent(cs[k])
  {
    hide Run, Outcome, WentSilent;
    var rs := Results(cs);
    AlarmIffThreeUnanswered(rs);
    forall k | 0 <= k < |cs| ensures rs[k] == Failed(NoReply) <==> WentSilent(cs[k]) {
      CycleSilent(cs[k]);
    }
  }

  lemma CycleSilent(c: Cycle)
    ensures Outcome(c).result == Failed(NoReply) <==> WentSilent(c)
  {
    hide Poll, Pd1000;
    UnansweredIffSilent(c.line, c.slave, c.maxRetries);
  }
}
