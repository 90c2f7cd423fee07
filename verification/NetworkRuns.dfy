/** What holds over every run of the network change protocol. */
module NetworkRuns {
  import opened Wrappers
  import opened Text
  import opened NetworkConfig
  import opened Journal
  import opened NetworkProtocol

  predicate Linked(ws: seq<World>) { forall i | 0 < i < |ws| :: Step(ws[i - 1], ws[i]) }

  /** A device at rest: a readable configuration file and no change under way. */
  predicate Rest(w: World) {
    && w.file == None && Current(w) == Some(w.committed) && ProperBoot(w.boot) && w.staged.None? && w.phase.Idle?
    && w.commits == [] && !w.overtaken
  }

  predicate Run(ws: seq<World>) { ws != [] && Rest(ws[0]) && Linked(ws) }

  lemma {:induction false} RunKeepsInv(ws: seq<World>, i: nat)
    requires Run(ws) && i < |ws|
    ensures Inv(ws[i])
  {
    hide Step, Current, NoControl;
    if i == 0 {
      LoadNothing();
    } else {
      RunKeepsInv(ws, i - 1);
      StepKeepsInv(ws[i - 1], ws[i]);
    }
  }

  // ----- Crash safety -----

  /** The record a backend call in progress works on. */
  function InCall(p: Phase): Option<Transaction> {
    match p
    case Staging(t) => Some(t)
    case Approving(t, _) => Some(t)
    case Reverting(t, _) => Some(t)
    case _ => None
  }

  /** In every reachable state, whatever crashed before: the backend works only on the pair the durable
      journal holds as pending; with nothing pending the configuration file is the committed one; and
      while something is pending the file is one of the two configurations it names. */
  lemma CrashSafety(ws: seq<World>, i: nat)
    requires Run(ws) && i < |ws|
    ensures var w := ws[i];
            && !Load(w.file).Corrupt?
            && (InCall(w.phase).Some? ==> Pending(w) && PairOf(Record(w)) == PairOf(InCall(w.phase).value))
            && (!Pending(w) ==> Current(w) == Some(w.committed))
            && (Pending(w) ==> Record(w).previous == w.committed
                               && (Current(w) == Some(w.committed) || Current(w) == Some(Record(w).candidate)))
  {
    hide Step, Load, ParseFlatJson, Recordable;
    RunKeepsInv(ws, i);
  }

  /** The committed configuration moves only by a journaled confirmation, which adds its own entry. */
  lemma OnlyCommitsCommit(w: World, v: World)
    requires Step(w, v)
    ensures w.commits <= v.commits
    ensures v.commits == w.commits ==> v.committed == w.committed
    ensures v.commits != w.commits ==>
              w.phase.Approved? && v.commits == w.commits + [Commit(w.phase.t, w.phase.seen)]
              && v.committed == w.phase.t.candidate
  {
    hide Load, ParseFlatJson, TransactionJson, Addresses, Recordable, Validate, ToFlatJson;
  }

  /** A moment at which the clock was read for this record: same boot, before the deadline, still staged. */
  predicate Sighted(w: World, t: Transaction, seen: Sighting) {
    && w.boot == seen.boot == t.bootId && w.now == seen.now && 0 < seen.now < t.staged + WINDOW
    && Load(w.file) == Valid(t.(state := State.Staged))
  }

  ghost predicate SightedBy(ws: seq<World>, i: nat, t: Transaction, seen: Sighting)
    requires i < |ws|
  {
    exists j | 0 <= j < i :: Sighted(ws[j], t, seen)
  }

  predicate HasSighting(p: Phase) { p.Approving? || p.Approved? }

  lemma NoSightingEarly(w: World, v: World)
    requires Stage(w, v) || StageDone(w, v) || CommitChange(w, v) || BeginRevert(w, v) || RevertDone(w, v)
              || SettleRevert(w, v)
    ensures !HasSighting(v.phase)
  {
    hide ParseFlatJson, Load, Fresh, NewRecord, StageGuard, RevertGuard, Current, Written, Due, Pending;
  }

  lemma NoSightingLate(w: World, v: World)
    requires GiveUp(w, v) || ClearSettled(w, v) || CrashDaemon(w, v) || CrashRecovery(w, v) || Reboot(w, v)
              || StartRuntime(w, v)
    ensures !HasSighting(v.phase)
  {
    hide ParseFlatJson, Load, Managed, Current, Pending, Addresses, NoControl;
  }

  lemma SightingKept(w: World, v: World)
    requires (v == w || Effect(w, v) || ConfirmDone(w, v) || Tick(w, v)) && HasSighting(v.phase)
    ensures HasSighting(w.phase) && w.phase.t == v.phase.t && w.phase.seen == v.phase.seen
  {
    hide Fresh, Stale, PairGuard, StageGuard, RevertGuard, Current;
  }

  lemma SightingMade(w: World, v: World)
    requires Inv(w) && BeginConfirm(w, v) && HasSighting(v.phase)
    ensures Sighted(w, v.phase.t, v.phase.seen)
  {
    hide ParseFlatJson, TransactionJson, Recordable, Load, MemoryAgrees, HistoryAgrees, Written, NoControl;
  }

  lemma SightingStep(w: World, v: World)
    requires Inv(w) && Step(w, v) && HasSighting(v.phase)
    ensures (HasSighting(w.phase) && w.phase.t == v.phase.t && w.phase.seen == v.phase.seen)
            || Sighted(w, v.phase.t, v.phase.seen)
  {
    hide Inv, Sighted, Stage, Effect, StageDone, BeginConfirm, ConfirmDone, CommitChange, BeginRevert, RevertDone;
    hide SettleRevert;
    hide GiveUp, ClearSettled, CrashDaemon, CrashRecovery, Reboot, Tick, StartRuntime, HasSighting;
    if BeginConfirm(w, v) {
      SightingMade(w, v);
    } else if v == w || Effect(w, v) || ConfirmDone(w, v) || Tick(w, v) {
      SightingKept(w, v);
    } else if Stage(w, v) || StageDone(w, v) || CommitChange(w, v) || BeginRevert(w, v) || RevertDone(w, v)
        || SettleRevert(w, v) {
      NoSightingEarly(w, v);
    } else {
      NoSightingLate(w, v);
    }
  }

  /** A candidate is committed only if, earlier in the run, its own record was staged and the clock showed
      the boot it was staged in and a time inside the 60-second window. */
  lemma {:induction false} CommitsWereTimely(ws: seq<World>, i: nat)
    requires Run(ws) && i < |ws|
    ensures HasSighting(ws[i].phase) ==> SightedBy(ws, i, ws[i].phase.t, ws[i].phase.seen)
    ensures forall k | 0 <= k < |ws[i].commits| :: SightedBy(ws, i, ws[i].commits[k].t, ws[i].commits[k].seen)
  {
    hide Step, Sighted, Rest, Inv;
    if i == 0 {
      RestHistory(ws[0]);
    } else {
      var w, v := ws[i - 1], ws[i];
      RunKeepsInv(ws, i - 1);
      CommitsWereTimely(ws, i - 1);
      OnlyCommitsCommit(w, v);
      if HasSighting(v.phase) {
        SightingStep(w, v);
        assert Sighted(ws[i - 1], v.phase.t, v.phase.seen) ==> SightedBy(ws, i, v.phase.t, v.phase.seen);
      }
      forall k | 0 <= k < |v.commits| ensures SightedBy(ws, i, v.commits[k].t, v.commits[k].seen) {
        if k < |w.commits| {
          assert v.commits[k] == w.commits[k];
          assert SightedBy(ws, i - 1, w.commits[k].t, w.commits[k].seen);
        } else {
          assert v.commits[k] == Commit(w.phase.t, w.phase.seen);
          assert SightedBy(ws, i - 1, w.phase.t, w.phase.seen);
        }
      }
    }
  }

  lemma RestHistory(w: World)
    requires Rest(w)
    ensures w.commits == [] && w.phase.Idle?
  {
  }

  // ----- The backend's own guards -----

  lemma PrintingIsInjective(c: NetworkConfig, d: NetworkConfig)
    requires Printable(c) && Printable(d)
    ensures ToFlatJson(c) == ToFlatJson(d) <==> c == d
  {
    hide Printable, ToFlatJson, ParseFlatJson;
    FlatRoundTrip(c);
    FlatRoundTrip(d);
  }

  lemma PairGuardMeaning(staged: Option<Pair>, t: Transaction)
    requires Recordable(t)
    requires staged.Some? ==> Printable(staged.value.previous) && Printable(staged.value.candidate)
    ensures PairGuard(staged, PairOf(t)) <==> staged.None? || staged.value == PairOf(t)
  {
    hide ToFlatJson, Validate, HeaderOk;
    if staged.Some? {
      PrintingIsInjective(staged.value.previous, t.previous);
      PrintingIsInjective(staged.value.candidate, t.candidate);
    }
  }

  /** Unless the other process overtook the daemon, no guard refuses a call the manager makes; once it
      has, staging is always refused, and so is rolling back any pair but the remembered one. */
  lemma GuardsRefuseIffOvertaken(ws: seq<World>, i: nat)
    requires Run(ws) && i < |ws|
    ensures var w := ws[i];
            match w.phase
            case Staging(t) => StageGuard(w, t) <==> !w.overtaken
            case Approving(t, _) => PairGuard(w.staged, PairOf(t)) <==> !w.overtaken || w.staged == Some(PairOf(t))
            case Reverting(t, a) =>
              RevertGuard(w, t, a) <==> !w.overtaken || a == Recovery || w.staged == Some(PairOf(t))
            case _ => true
  {
    hide Step, Run, Load, PairGuard, Validate, HeaderOk, PrintableInterface;
    RunKeepsInv(ws, i);
    var w := ws[i];
    match w.phase
    case Approving(t, _) => PairGuardMeaning(w.staged, t);
    case Reverting(t, a) =>
      PairGuardMeaning(w.staged, t);
      PairGuardMeaning(None, t);
    case _ =>
  }

  /** With nothing pending, being overtaken is the same as still remembering something, which the daemon
      itself can see. */
  lemma OvertakenIffRemembers(w: World)
    requires Inv(w) && !Pending(w)
    ensures w.overtaken <==> w.staged.Some?
  {
    hide FilesAgree, PhaseAgrees, HistoryAgrees, Load, Printable;
  }

  /** A run from `w` after which the daemon remembers a change that is no longer pending. */
  predicate Overtakes(w: World, ws: seq<World>) {
    && ws != [] && ws[0] == w && Linked(ws)
    && var v := ws[|ws| - 1]; v.overtaken && v.staged == w.staged && !Pending(v) && v.phase.Idle?
  }

  /** The state after the recovery tool has settled what `w` has pending, at or after its deadline. */
  function Settled(w: World): World
    requires Pending(w)
  {
    var t := Record(w);
    w.(now := if w.now >= t.deadline then w.now else t.deadline, clock := true, persistent := FileText(t.previous),
       kernel := w.kernel - Fresh(t), file := None, overtaken := true)
  }

  lemma OvertakingRun(w: World) returns (ws: seq<World>)
    requires Inv(w) && w.phase.Idle? && Pending(w) && w.staged == Some(PairOf(Record(w)))
    ensures Overtakes(w, ws) && ws[|ws| - 1] == Settled(w)
  {
    hide Load, ParseFlatJson, TransactionJson, ToFlatJson, HeaderOk, PrintableInterface, Validate, Addresses;
    var t := Record(w);
    var late := w.(now := if w.now >= t.deadline then w.now else t.deadline, clock := true);
    assert Tick(w, late);
    var a := late.(phase := Reverting(t, Recovery));
    var b := a.(persistent := FileText(t.previous), kernel := a.kernel - Fresh(t));
    FileRoundTrip(t.previous);
    var c := b.(phase := Reverted(t, Recovery));
    var d := c.(file := None, phase := Idle, overtaken := true);
    LoadNothing();
    assert BeginRevert(late, a);
    assert Effect(a, b);
    assert RevertDone(b, c);
    assert SettleRevert(c, d);
    ws := [w, late, a, b, c, d];
  }

  /** Overtaking does happen: once the deadline of what the daemon has staged passes, the recovery tool can
      roll it back. */
  lemma RecoveryOvertakes(w: World)
    requires Inv(w) && w.phase.Idle? && Pending(w) && w.staged == Some(PairOf(Record(w)))
    ensures exists ws: seq<World> :: Overtakes(w, ws)
  {
    hide Inv, Pending, Overtakes, Settled;
    var ws := OvertakingRun(w);
    assert Overtakes(w, ws);
  }

  // ----- The kernel's addresses -----

  /** Both interfaces static, and no address of a candidate in use by anyone else. */
  predicate Clean(w: World) {
    && AllStatic(w.committed) && (Pending(w) ==> AllStatic(Record(w).candidate)) && w.foreign !! Managed(w)
  }

  predicate KernelAgrees(w: World) {
    && w.foreign <= w.kernel <= w.foreign + Managed(w)
    && (w.phase.Approved? ==> w.kernel !! Stale(w.phase.t))
    && (w.phase.Reverted? ==> w.kernel !! Fresh(w.phase.t))
  }

  lemma KernelThroughStage(w: World, v: World)
    requires Inv(w) && Inv(v) && Clean(w) && Clean(v) && KernelAgrees(w)
    requires Stage(w, v) || StageDone(w, v) || BeginConfirm(w, v) || ConfirmDone(w, v) || BeginRevert(w, v)
              || RevertDone(w, v)
    ensures KernelAgrees(v)
  {
    hide Load, ParseFlatJson, TransactionJson, ToFlatJson, Recordable, Printable, Validate, Addresses, NoControl;
    if BeginConfirm(w, v) {
      StateIrrelevant(Record(w), Confirming);
      WrittenLoads(Record(w).(state := Confirming));
    }
  }

  lemma KernelThroughEffect(w: World, v: World)
    requires Inv(w) && Clean(w) && KernelAgrees(w) && Effect(w, v)
    ensures KernelAgrees(v)
  {
    hide Load, ParseFlatJson, ToFlatJson, Recordable, Printable, Validate, Addresses, NoControl;
    var t := InCall(w.phase).value;
    assert Load(w.file) == Valid(t) && BothStatic(t);
    assert Managed(v) == Managed(w) == Addresses(t.previous) + Addresses(t.candidate);
    assert w.kernel - v.kernel <= Managed(w) && v.kernel - w.kernel <= Managed(w);
    forall x | x in v.kernel ensures x in w.foreign + Managed(w) {
      assert x in w.kernel || x in v.kernel - w.kernel;
    }
    forall x | x in w.foreign ensures x in v.kernel {
      assert x in v.kernel || x in w.kernel - v.kernel;
    }
  }

  lemma KernelThroughSettling(w: World, v: World)
    requires Inv(w) && Inv(v) && Clean(w) && Clean(v) && KernelAgrees(w)
    requires CommitChange(w, v) || SettleRevert(w, v) || ClearSettled(w, v)
    ensures KernelAgrees(v)
  {
    hide Load, ParseFlatJson, TransactionJson, ToFlatJson, Recordable, Printable, Validate, Addresses, NoControl;
    LoadNothing();
    if CommitChange(w, v) {
      StateIrrelevant(w.phase.t, Confirmed);
      WrittenLoads(w.phase.t.(state := Confirmed));
    } else if SettleRevert(w, v) {
      StateIrrelevant(w.phase.t, RolledBack);
      WrittenLoads(w.phase.t.(state := RolledBack));
    }
  }

  lemma KernelThroughRest(w: World, v: World)
    requires Inv(w) && Clean(w) && KernelAgrees(w)
    requires v == w || GiveUp(w, v) || CrashDaemon(w, v) || CrashRecovery(w, v) || Reboot(w, v) || Tick(w, v)
              || StartRuntime(w, v)
    ensures KernelAgrees(v)
  {
    hide Load, ParseFlatJson, ToFlatJson, Recordable, Printable, Validate, Addresses, NoControl;
  }

  lemma StepKeepsKernel(w: World, v: World)
    requires Inv(w) && Clean(w) && Clean(v) && KernelAgrees(w) && Step(w, v)
    ensures KernelAgrees(v)
  {
    StepKeepsInv(w, v);
    hide Inv, Clean, KernelAgrees, Stage, Effect, StageDone, BeginConfirm, ConfirmDone, CommitChange, BeginRevert;
    hide RevertDone, SettleRevert, GiveUp, ClearSettled, CrashDaemon, CrashRecovery, Reboot, Tick, StartRuntime;
    if Effect(w, v) {
      KernelThroughEffect(w, v);
    } else if CommitChange(w, v) || SettleRevert(w, v) || ClearSettled(w, v) {
      KernelThroughSettling(w, v);
    } else if Stage(w, v) || StageDone(w, v) || BeginConfirm(w, v) || ConfirmDone(w, v) || BeginRevert(w, v)
        || RevertDone(w, v) {
      KernelThroughStage(w, v);
    } else {
      KernelThroughRest(w, v);
    }
  }

  /** A run among static configurations that starts with the kernel showing the committed addresses. */
  predicate StaticRun(ws: seq<World>) {
    && Run(ws) && (forall i | 0 <= i < |ws| :: Clean(ws[i]))
    && ws[0].foreign <= ws[0].kernel <= ws[0].foreign + Addresses(ws[0].committed)
  }

  lemma {:induction false} RunKeepsKernel(ws: seq<World>, i: nat)
    requires StaticRun(ws) && i < |ws|
    ensures KernelAgrees(ws[i])
  {
    hide Step, Clean, Current, Addresses, Load;
    if i == 0 {
      LoadNothing();
    } else {
      RunKeepsKernel(ws, i - 1);
      RunKeepsInv(ws, i - 1);
      StepKeepsKernel(ws[i - 1], ws[i]);
    }
  }

  /** Nothing foreign is ever lost, and nothing is left over: whenever no change is pending, a successful
      `start_runtime` leaves exactly the foreign addresses and the committed ones. */
  lemma RuntimeRestores(ws: seq<World>, i: nat)
    requires StaticRun(ws) && 0 < i < |ws| && StartRuntime(ws[i - 1], ws[i]) && !Pending(ws[i - 1])
    requires Current(ws[i - 1]).Some? && Addresses(Current(ws[i - 1]).value) <= ws[i].kernel
    ensures ws[i].kernel == ws[i].foreign + Addresses(ws[i].committed)
  {
    hide Step, Addresses, Load, ParseFlatJson, Recordable;
    RunKeepsKernel(ws, i - 1);
    RunKeepsInv(ws, i - 1);
    assert Clean(ws[i - 1]);
  }

  lemma {:induction false} CommittedBetween(ws: seq<World>, i: nat, j: nat)
    requires Run(ws) && i <= j < |ws|
    ensures ws[i].commits <= ws[j].commits
    ensures ws[i].commits == ws[j].commits ==> ws[i].committed == ws[j].committed
    decreases j - i
  {
    hide Step, Rest;
    if i < j {
      CommittedBetween(ws, i, j - 1);
      OnlyCommitsCommit(ws[j - 1], ws[j]);
    }
  }

  /** Recovery: take any state with a change pending, and any continuation through crashes, rollbacks and
      `start_runtime` in which it is not committed and is no longer pending. Then every interface has its
      previous address and none has a differing candidate address. */
  lemma RollbackRestores(ws: seq<World>, i: nat, j: nat)
    requires StaticRun(ws) && i < j < |ws| && Pending(ws[i]) && ws[j].commits == ws[i].commits
    requires StartRuntime(ws[j - 1], ws[j]) && !Pending(ws[j - 1])
    requires Current(ws[j - 1]).Some? && Addresses(Current(ws[j - 1]).value) <= ws[j].kernel
    requires ws[j].foreign == ws[i].foreign
    ensures var t := Record(ws[i]);
            && Current(ws[j]) == Some(t.previous)
            && Addresses(t.previous) <= ws[j].kernel && ws[j].kernel !! Fresh(t)
  {
    hide Step, Addresses, Load, ParseFlatJson, Recordable, Printable;
    RuntimeRestores(ws, j);
    RunKeepsInv(ws, i);
    RunKeepsInv(ws, j);
    RunKeepsInv(ws, j - 1);
    CommittedBetween(ws, i, j);
    assert Clean(ws[i]) && Clean(ws[j]);
  }

  // ----- A change can be made -----

  /** A complete change: staged, confirmed, committed and cleared, with the kernel following. */
  predicate CompleteChange(ws: seq<World>, from: NetworkConfig, to: NetworkConfig) {
    && StaticRun(ws) && ws[0].committed == from && ws[0].kernel == Addresses(from)
    && var v := ws[|ws| - 1];
       && v.file == None && v.phase.Idle? && v.committed == to && Current(v) == Some(to) && |v.commits| == 1
       && v.kernel == Addresses(to)
  }

  function AtRest(c: NetworkConfig, boot: string, now: nat): World {
    World(None, FileText(c), Addresses(c), boot, now, true, None, Idle, c, [], {}, false)
  }

  function FirstRecord(from: NetworkConfig, to: NetworkConfig, boot: string, now: nat): Transaction {
    Transaction(1, boot, now, now + WINDOW, State.Staged, from, to)
  }

  lemma StagingRun(from: NetworkConfig, to: NetworkConfig, boot: string, now: nat) returns (w: World, ws: seq<World>)
    requires Printable(from) && Printable(to) && AllStatic(from) && AllStatic(to)
    requires ProperBoot(boot) && 0 < now && now + WINDOW <= MAX64
    ensures var t := FirstRecord(from, to, boot, now);
            && Recordable(t) && Load(Written(t)) == Valid(t)
            && w == AtRest(from, boot, now).(file := Written(t), kernel := Addresses(from) + Addresses(to),
                                             staged := Some(PairOf(t)))
            && StaticRun(ws) && ws[0] == AtRest(from, boot, now) && ws[|ws| - 1] == w
  {
    hide Load, ParseFlatJson, TransactionJson, ToFlatJson, FileText, PrintableInterface, Validate, Addresses, Written;
    hide AllStatic;
    var t := FirstRecord(from, to, boot, now);
    var a := AtRest(from, boot, now);
    LoadNothing();
    FileRoundTrip(from);
    WrittenLoads(t);
    var b := a.(file := Written(t), phase := Staging(t));
    var c := b.(kernel := Addresses(from) + Addresses(to));
    w := c.(staged := Some(PairOf(t)), phase := Idle);
    assert Stage(a, b);
    assert Effect(b, c);
    assert StageDone(c, w);
    ws := [a, b, c, w];
  }

  lemma ConfirmingRun(w: World, t: Transaction, before: seq<World>) returns (v: World, ws: seq<World>)
    requires Inv(w) && StaticRun(before) && before[|before| - 1] == w
    requires w.phase.Idle? && Load(w.file) == Valid(t) && t.state == State.Staged
    requires w.staged.None? || w.staged == Some(PairOf(t))
    requires w.clock && w.boot == t.bootId && 0 < w.now < t.deadline && w.foreign == {}
    ensures StaticRun(ws) && ws[0] == before[0] && ws[|ws| - 1] == v
    ensures v.file == None && v.phase.Idle? && v.committed == t.candidate && Current(v) == Some(t.candidate)
    ensures |v.commits| == |w.commits| + 1 && v.kernel == w.kernel - Stale(t)
  {
    hide Load, ParseFlatJson, TransactionJson, ToFlatJson, FileText, HeaderOk, PrintableInterface, Validate, Addresses;
    hide Written, AllStatic;
    hide MemoryAgrees, HistoryAgrees;
    var u := t.(state := Confirming);
    StateIrrelevant(t, Confirming);
    StateIrrelevant(t, Confirmed);
    WrittenLoads(u);
    WrittenLoads(t.(state := Confirmed));
    FileRoundTrip(t.candidate);
    LoadNothing();
    var seen := Sighting(w.boot, w.now);
    var a := w.(file := Written(u), phase := Approving(u, seen));
    var b := a.(persistent := FileText(t.candidate), kernel := a.kernel - Stale(t));
    var c := b.(staged := None, overtaken := false, phase := Approved(u, seen));
    var d := c.(file := Written(u.(state := Confirmed)), phase := Idle, committed := t.candidate,
                commits := c.commits + [Commit(u, seen)]);
    v := d.(file := None);
    assert BeginConfirm(w, a);
    assert Effect(a, b);
    assert ConfirmDone(b, c);
    assert CommitChange(c, d);
    assert ClearSettled(d, v);
    ws := before + [a, b, c, d, v];
  }

  /** Between any two printable static configurations there is a run that makes the change, so nothing
      above holds for want of runs. */
  lemma ChangeIsPossible(from: NetworkConfig, to: NetworkConfig, boot: string, now: nat)
    requires Printable(from) && Printable(to) && AllStatic(from) && AllStatic(to)
    requires ProperBoot(boot) && 0 < now && now + WINDOW <= MAX64
    ensures exists ws: seq<World> :: CompleteChange(ws, from, to)
  {
    hide Load, ParseFlatJson, TransactionJson, FileText, Printable, Addresses, Written, AllStatic, StaticRun;
    hide Recordable, Inv;
    var w, before := StagingRun(from, to, boot, now);
    StaticRunIsRun(before);
    RunKeepsInv(before, |before| - 1);
    var v, ws := ConfirmingRun(w, FirstRecord(from, to, boot, now), before);
    StaticRunIsRun(ws);
    assert CompleteChange(ws, from, to);
  }

  lemma StaticRunIsRun(ws: seq<World>)
    requires StaticRun(ws)
    ensures Run(ws) && ws != []
  {
    hide Rest, Linked, Clean;
  }

  /** A candidate can be committed without its addresses ever having been added: the journal write of the
      stage is reported failed although it landed, and the record is confirmed in time. */
  predicate CommitsUnseen(ws: seq<World>, from: NetworkConfig, to: NetworkConfig) {
    && StaticRun(ws) && ws[0].committed == from && ws[0].kernel == Addresses(from)
    && var v := ws[|ws| - 1];
       v.phase.Idle? && v.file == None && v.committed == to && v.kernel == Addresses(from) * Addresses(to)
  }

  lemma UnseenCommitHappens(from: NetworkConfig, to: NetworkConfig, boot: string, now: nat)
    requires Printable(from) && Printable(to) && AllStatic(from) && AllStatic(to)
    requires ProperBoot(boot) && 0 < now && now + WINDOW <= MAX64
    ensures exists ws: seq<World> :: CommitsUnseen(ws, from, to)
  {
    hide Load, ParseFlatJson, TransactionJson, FileText, Addresses, Written, AllStatic, HeaderOk, PrintableInterface;
    hide Validate;
    var t := FirstRecord(from, to, boot, now);
    var w, before := LostStage(from, to, boot, now);
    StaticRunIsRun(before);
    RunKeepsInv(before, |before| - 1);
    var v, ws := ConfirmingRun(w, t, before);
    StaticRunIsRun(ws);
    assert Addresses(from) - (Addresses(from) - Addresses(to)) == Addresses(from) * Addresses(to);
    assert CommitsUnseen(ws, from, to);
  }

  lemma LostStage(from: NetworkConfig, to: NetworkConfig, boot: string, now: nat) returns (w: World, ws: seq<World>)
    requires Printable(from) && Printable(to) && AllStatic(from) && AllStatic(to)
    requires ProperBoot(boot) && 0 < now && now + WINDOW <= MAX64
    ensures var t := FirstRecord(from, to, boot, now);
            && Load(Written(t)) == Valid(t) && w == AtRest(from, boot, now).(file := Written(t))
            && StaticRun(ws) && ws[0] == AtRest(from, boot, now) && ws[|ws| - 1] == w
  {
    hide Load, ParseFlatJson, TransactionJson, ToFlatJson, FileText, PrintableInterface, Validate, Addresses, Written;
    hide AllStatic;
    var t := FirstRecord(from, to, boot, now);
    var a := AtRest(from, boot, now);
    LoadNothing();
    FileRoundTrip(from);
    WrittenLoads(t);
    w := a.(file := Written(t));
    assert Stage(a, w);
    ws := [a, w];
  }

  // ----- A stage refused after the recovery tool overtook the daemon -----

  /** A run whose last step journals a change from one configuration to another that the backend then
      refuses to stage. */
  predicate RefusedStage(ws: seq<World>, from: NetworkConfig, next: NetworkConfig) {
    && Run(ws)
    && var v := ws[|ws| - 1];
       v.phase.Staging? && PairOf(v.phase.t) == Pair(from, next) && !StageGuard(v, v.phase.t)
  }

  /** As above, and refuses to roll back too, so that the change stays pending. */
  predicate StuckStage(ws: seq<World>, from: NetworkConfig, next: NetworkConfig) {
    && RefusedStage(ws, from, next)
    && var v := ws[|ws| - 1]; !RevertGuard(v, v.phase.t, Daemon)
  }

  lemma {:induction false} LinkedConcat(xs: seq<World>, ys: seq<World>)
    requires xs != [] && ys != [] && Linked(xs) && Linked(ys) && xs[|xs| - 1] == ys[0]
    ensures Linked(xs + ys[1..])
  {
    hide Step;
    var zs := xs + ys[1..];
    forall i | 0 < i < |zs| ensures Step(zs[i - 1], zs[i]) {
      if i >= |xs| {
        var k := i - |xs| + 1;
        assert zs[i] == ys[k] && zs[i - 1] == ys[k - 1];
      }
    }
  }

  /** Starting at rest, for any printable static configurations: a change is staged, the recovery tool rolls
      it back at its deadline, and the daemon's next stage is refused; if it names another candidate, so
      is its rollback. */
  lemma StaleStageRefused(from: NetworkConfig, to: NetworkConfig, next: NetworkConfig, boot: string, now: nat)
    requires Printable(from) && Printable(to) && Printable(next) && AllStatic(from) && AllStatic(to)
    requires ProperBoot(boot) && 0 < now && now + 2 * WINDOW <= MAX64
    ensures exists ws: seq<World> :: RefusedStage(ws, from, next)
    ensures next != to ==> exists ws: seq<World> :: StuckStage(ws, from, next)
  {
    hide Load, ParseFlatJson, TransactionJson, ToFlatJson, FileText, PrintableInterface, Validate, Addresses, Written;
    hide AllStatic, Step, Inv, PairGuard, Linked;
    var t := FirstRecord(from, to, boot, now);
    var w, before := StagingRun(from, to, boot, now);
    StaticRunIsRun(before);
    RunKeepsInv(before, |before| - 1);
    var after := OvertakingRun(w);
    var v := Settled(w);
    LinkedConcat(before, after);
    FileRoundTrip(from);
    LoadNothing();
    var u := Transaction(2, boot, v.now, v.now + WINDOW, State.Staged, from, next);
    var x := v.(file := Written(u), phase := Staging(u));
    StageWorks(v, u);
    LinkedConcat(before + after[1..], [v, x]);
    var ws := before + after[1..] + [v, x][1..];
    PairGuardMeaning(x.staged, u);
    assert RefusedStage(ws, from, next);
    assert next != to ==> StuckStage(ws, from, next);
  }

  lemma StageWorks(v: World, u: Transaction)
    requires v.phase.Idle? && !Pending(v) && !Load(v.file).Corrupt? && NewRecord(v, u)
    ensures Linked([v, v.(file := Written(u), phase := Staging(u))])
  {
    hide Load, Recordable, Current, Written;
    assert Stage(v, v.(file := Written(u), phase := Staging(u)));
  }

  // ----- The operator keeps his way in -----

  /** No confirmation has been journaled for whatever is pending. */
  predicate Unconfirmed(w: World) { Pending(w) ==> Record(w).state == State.Staged }

  lemma StepKeepsWayIn(w: World, v: World)
    requires Inv(w) && Clean(w) && Ordinary(w, v) && Unconfirmed(w)
    ensures v.committed == w.committed && w.kernel * Addresses(w.committed) <= v.kernel
  {
    hide Load, ParseFlatJson, TransactionJson, ToFlatJson, Recordable, Printable, Validate, Addresses, NoControl;
    hide MemoryAgrees, HistoryAgrees, NewRecord;
    if Effect(w, v) {
      EffectKeepsWayIn(w, v);
    }
  }

  lemma EffectKeepsWayIn(w: World, v: World)
    requires Inv(w) && Clean(w) && Effect(w, v) && Unconfirmed(w)
    ensures w.kernel * Addresses(w.committed) <= v.kernel
  {
    hide Load, ParseFlatJson, TransactionJson, ToFlatJson, Recordable, Printable, Validate, Addresses, NoControl;
    var t := InCall(w.phase).value;
    assert Load(w.file) == Valid(t) && BothStatic(t) && !w.phase.Approving?;
    assert w.kernel - v.kernel <= Fresh(t);
    forall x | x in w.kernel * Addresses(w.committed) ensures x in v.kernel {
      assert x in v.kernel || x in w.kernel - v.kernel;
    }
  }

  /** Through any staging, failure, crash, rollback and restart within one boot, until a confirmation is
      journaled, every committed address that was up stays up: the operator is not locked out. */
  lemma {:induction false} WayInStays(ws: seq<World>, i: nat, j: nat)
    requires StaticRun(ws) && i <= j < |ws|
    requires forall m | i < m <= j :: Ordinary(ws[m - 1], ws[m])
    requires forall m | i <= m < j :: Unconfirmed(ws[m])
    ensures ws[j].committed == ws[i].committed && ws[i].kernel * Addresses(ws[i].committed) <= ws[j].kernel
    decreases j - i
  {
    hide Run, Clean, Ordinary, Addresses, Unconfirmed, Inv;
    if i < j {
      WayInStays(ws, i, j - 1);
      RunKeepsInv(ws, j - 1);
      StepKeepsWayIn(ws[j - 1], ws[j]);
    }
  }

  // ----- A candidate that does not print -----

  /** What the manager does with any valid candidate, printable or not. */
  predicate StageAnyway(w: World, v: World) {
    && w.phase.Idle? && !Pending(w) && !Load(w.file).Corrupt? && v.phase.Staging?
    && var t := v.phase.t;
       && HeaderOk(t) && Validate(t.candidate) && t.state == State.Staged && Current(w) == Some(t.previous)
       && t.bootId == w.boot && t.staged == w.now > 0 && t.deadline == t.staged + WINDOW
       && v == w.(file := Written(t), phase := Staging(t))
  }

  /** Nothing the program does from here on touches the journal or gets past reading it. */
  ghost predicate Wedged(x: World) {
    x.phase.Idle? && forall y | Step(x, y) :: y.file == x.file && y.phase.Idle? && y.committed == x.committed
  }

  /** Staging a valid candidate is a step of the protocol exactly when the candidate is printable.
      Otherwise the journal is corrupt, and once the operation is over no later step gets past it. */
  lemma StageIsSafeIffPrintable(w: World, v: World)
    requires Inv(w) && StageAnyway(w, v)
    ensures Step(w, v) <==> Printable(v.phase.t.candidate)
    ensures Inv(v) <==> Printable(v.phase.t.candidate)
    ensures !Printable(v.phase.t.candidate) ==>
              Load(v.file) == Corrupt && forall x: World | x.file == v.file && x.phase.Idle? :: Wedged(x)
  {
    hide Inv, StageAnyway, Load, Printable, Step, Wedged;
    StageAnywayVerdict(w, v);
    var t := v.phase.t;
    if Printable(t.candidate) {
      StepKeepsInv(w, v);
    } else {
      NotAStep(w, v);
      forall x: World | x.file == v.file && x.phase.Idle? ensures Wedged(x) {
        CorruptWedges(x);
      }
    }
  }

  lemma StageAnywayVerdict(w: World, v: World)
    requires StageAnyway(w, v)
    ensures w.phase.Idle? && v.phase.Staging? && v.file == Written(v.phase.t)
    ensures Printable(v.phase.t.candidate) ==> Step(w, v)
    ensures !Printable(v.phase.t.candidate) ==> Load(v.file) == Corrupt
  {
    hide Load, ParseFlatJson, HeaderOk, PrintableInterface, Validate, TransactionJson, NoControl;
    var t := v.phase.t;
    ParsedIsPrintable(w.persistent);
    ValidRecordVerdict(t);
    if Printable(t.candidate) {
      assert NewRecord(w, t);
      assert Stage(w, v);
    }
  }

  lemma NotAStep(w: World, v: World)
    requires w.phase.Idle? && v.phase.Staging? && Load(v.file).Corrupt? && v.file == Written(v.phase.t)
    ensures !Step(w, v) && !Inv(v)
  {
    hide Load, ParseFlatJson, TransactionJson, Printable, HeaderOk, Validate, Addresses, NoControl, Written;
    if Recordable(v.phase.t) {
      WrittenLoads(v.phase.t);
    }
  }

  lemma CorruptWedges(x: World)
    requires x.phase.Idle? && Load(x.file).Corrupt?
    ensures Wedged(x)
  {
    hide Load, ParseFlatJson, TransactionJson, Recordable, Printable, Validate, Addresses, NoControl, Written, Managed;
  }
}
