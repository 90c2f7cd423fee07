/** The privileged daemon: the transaction manager over the Linux backend. Commands, writes and reads are
    oracles that may fail, a failed write with or without effect; every effect is one step of the
    protocol, recorded in `trace`. `works` says that the oracles currently do what they are asked,
    `commands` that the address and route commands do, while writes may fail. */
module NetworkManager {
  import opened Wrappers
  import opened Text
  import opened NetworkConfig
  import opened Journal
  import opened NetworkProtocol
  import opened NetworkRuns

  datatype Lease = Lease(address: string, prefix: nat, gateway: string)

  /** One optional lease per interface. */
  datatype Leases = Leases(eth0: Option<Lease>, eth1: Option<Lease>)

  const NO_LEASES := Leases(None, None)

  datatype Result =
    | Ok | NotDue | NoTransaction | InvalidCandidate | Busy | Expired | BootChanged | CorruptJournal
    | BackendError | StorageError

  function InterfaceAt(c: NetworkConfig, i: nat): InterfaceConfig { if i == 0 then c.eth0 else c.eth1 }

  function LeaseAt(l: Leases, i: nat): Option<Lease> { if i == 0 then l.eth0 else l.eth1 }

  /** A lease overrides the configured address of an interface in DHCP mode. */
  function EffectiveAddress(c: InterfaceConfig, l: Option<Lease>): string {
    if c.mode == Dhcp && l.Some? then l.value.address + "/" + Decimal(l.value.prefix) else AddressOf(c)
  }

  function EffectiveGateway(c: InterfaceConfig, l: Option<Lease>): string {
    if c.mode == Dhcp && l.Some? then l.value.gateway else c.gateway
  }

  predicate LeasesCover(c: NetworkConfig, l: Leases) {
    (c.eth0.mode == Dhcp ==> l.eth0.Some?) && (c.eth1.mode == Dhcp ==> l.eth1.Some?)
  }

  lemma StaticNeedsNoLease(c: NetworkConfig, l: Leases)
    requires AllStatic(c)
    ensures LeasesCover(c, l)
  {
  }

  /** The address an interface gains or loses when its configuration changes. */
  function OldAddress(p: Pair, before: Leases, i: nat): string {
    EffectiveAddress(InterfaceAt(p.previous, i), LeaseAt(before, i))
  }

  function NewAddress(p: Pair, after: Leases, i: nat): string {
    EffectiveAddress(InterfaceAt(p.candidate, i), LeaseAt(after, i))
  }

  lemma AddressMoves(t: Transaction, before: Leases, after: Leases, i: nat)
    requires i < 2 && BothStatic(t) && OldAddress(PairOf(t), before, i) != NewAddress(PairOf(t), after, i)
    ensures (i, NewAddress(PairOf(t), after, i)) in Fresh(t) && (i, OldAddress(PairOf(t), before, i)) in Stale(t)
  {
  }

  /** For static interfaces these are exactly the addresses that differ. */
  lemma FreshAddresses(t: Transaction, before: Leases, after: Leases, a: Address)
    requires BothStatic(t)
    ensures a in Fresh(t) <==> a.0 < 2 && a.1 == NewAddress(PairOf(t), after, a.0) != OldAddress(PairOf(t), before, a.0)
    ensures a in Stale(t) <==> a.0 < 2 && a.1 == OldAddress(PairOf(t), before, a.0) != NewAddress(PairOf(t), after, a.0)
  {
  }

  predicate AllClean(ws: seq<World>) { forall i | 0 <= i < |ws| :: Clean(ws[i]) }

  /** An address command the current phase may issue. */
  predicate MayTouch(w: World, a: Address, add: bool) {
    match w.phase
    case Staging(t) => StageGuard(w, t) && (BothStatic(t) ==> a in Fresh(t))
    case Approving(t, _) => PairGuard(w.staged, PairOf(t)) && (BothStatic(t) ==> a in Stale(t))
    case Reverting(t, actor) => RevertGuard(w, t, actor) && !add && (BothStatic(t) ==> a in Fresh(t))
    case _ => false
  }

  /** A configuration file the current phase may write. */
  predicate MayWrite(w: World, text: string) {
    match w.phase
    case Approving(t, _) =>
      PairGuard(w.staged, PairOf(t))
          && (ParseFlatJson(text) == Some(t.previous) || ParseFlatJson(text) == Some(t.candidate))
    case Reverting(t, actor) =>
      && RevertGuard(w, t, actor)
      && (ParseFlatJson(text) == Some(t.previous)
          || (t.state == Confirming && ParseFlatJson(text) == Some(t.candidate)))
    case _ => false
  }

  lemma TouchIsStep(w: World, a: Address, add: bool)
    requires Inv(w) && MayTouch(w, a, add)
    ensures Step(w, w.(kernel := if add then w.kernel + {a} else w.kernel - {a}))
  {
    hide Load, ParseFlatJson, Validate, ToFlatJson, Fresh, Stale, BothStatic;
    var v := w.(kernel := if add then w.kernel + {a} else w.kernel - {a});
    assert Effect(w, v);
  }

  lemma WriteIsStep(w: World, text: string)
    requires Inv(w) && MayWrite(w, text)
    ensures Step(w, w.(persistent := text))
  {
    hide Load, ParseFlatJson, Validate, ToFlatJson, Fresh, Stale, BothStatic;
    assert Effect(w, w.(persistent := text));
  }

  /** The file as it is may always be written back. */
  lemma MayRestore(w: World, text: string)
    requires Inv(w) && MayWrite(w, text)
    ensures MayWrite(w, w.persistent)
  {
    hide Validate, ToFlatJson, Load, ParseFlatJson, Recordable;
  }

  /** The record in hand came from the journal, so both its configurations can be printed. */
  lemma PhasePrintable(w: World)
    requires Inv(w) && InCall(w.phase).Some?
    ensures Recordable(InCall(w.phase).value)
  {
    hide Recordable, Load, ParseFlatJson;
  }

  /** Which configurations a confirmation and a rollback save. */
  predicate MaySave(w: World, c: NetworkConfig) {
    || (w.phase.Approving? && PairGuard(w.staged, PairOf(w.phase.t))
        && (c == w.phase.t.previous || c == w.phase.t.candidate))
    || (w.phase.Reverting? && RevertGuard(w, w.phase.t, w.phase.actor) && c == w.phase.t.previous)
  }

  lemma SaveIsWrite(w: World, c: NetworkConfig)
    requires Inv(w) && MaySave(w, c)
    ensures Printable(c) && MayWrite(w, FileText(c))
  {
    hide Inv, Printable, ParseFlatJson, FileText, PairGuard, HeaderOk;
    PhasePrintable(w);
    FileRoundTrip(c);
  }

  // ----- Returning from the backend -----

  lemma StageReturns(w: World, t: Transaction)
    requires w.phase == Staging(t)
    ensures Step(w, w.(phase := Reverting(t, Actor.Daemon)))
    ensures StageGuard(w, t) && (BothStatic(t) ==> Fresh(t) <= w.kernel) ==>
              Step(w, w.(staged := Some(PairOf(t)), phase := Idle))
  {
    hide StageGuard, Fresh, BothStatic;
    assert StageDone(w, w.(phase := Reverting(t, Actor.Daemon)));
    if StageGuard(w, t) && (BothStatic(t) ==> Fresh(t) <= w.kernel) {
      assert StageDone(w, w.(staged := Some(PairOf(t)), phase := Idle));
    }
  }

  lemma ConfirmReturns(w: World, t: Transaction, seen: Sighting)
    requires w.phase == Approving(t, seen)
    ensures Step(w, w.(phase := Reverting(t, Actor.Daemon)))
    ensures PairGuard(w.staged, PairOf(t)) && Current(w) == Some(t.candidate)
              && (BothStatic(t) ==> w.kernel !! Stale(t)) ==>
              Step(w, w.(staged := None, overtaken := false, phase := Approved(t, seen)))
  {
    hide PairGuard, Stale, BothStatic, Current;
    assert ConfirmDone(w, w.(phase := Reverting(t, Actor.Daemon)));
    if PairGuard(w.staged, PairOf(t)) && Current(w) == Some(t.candidate) && (BothStatic(t) ==> w.kernel !! Stale(t)) {
      assert ConfirmDone(w, w.(staged := None, overtaken := false, phase := Approved(t, seen)));
    }
  }

  lemma RollbackReturns(w: World, t: Transaction)
    requires w.phase == Reverting(t, Actor.Daemon)
    ensures Step(w, w.(phase := Idle))
    ensures PairGuard(w.staged, PairOf(t)) && Current(w) == Some(t.previous)
              && (BothStatic(t) ==> w.kernel !! Fresh(t)) ==>
              Step(w, w.(staged := None, overtaken := false, phase := Reverted(t, Actor.Daemon)))
  {
    hide PairGuard, Fresh, BothStatic, Current;
    assert GiveUp(w, w.(phase := Idle));
    if PairGuard(w.staged, PairOf(t)) && Current(w) == Some(t.previous) && (BothStatic(t) ==> w.kernel !! Fresh(t)) {
      assert RevertDone(w, w.(staged := None, overtaken := false, phase := Reverted(t, Actor.Daemon)));
    }
  }

  // ----- Journal writes -----

  lemma StageIsStep(w: World, t: Transaction)
    requires w.phase.Idle? && !Pending(w) && !Load(w.file).Corrupt? && NewRecord(w, t)
    ensures Step(w, w.(file := Written(t), phase := Staging(t))) && Step(w, w.(file := Written(t)))
  {
    hide Recordable, Load, Current, TransactionJson, Written;
    WrittenLoads(t);
    assert Stage(w, w.(file := Written(t), phase := Staging(t)));
    assert Stage(w, w.(file := Written(t)));
  }

  lemma IntentIsStep(w: World)
    requires w.phase.Idle? && Pending(w) && Record(w).state == State.Staged
    requires w.clock && w.boot == Record(w).bootId && 0 < w.now < Record(w).deadline
    ensures var t := Record(w).(state := Confirming);
            && Step(w, w.(file := Written(t), phase := Approving(t, Sighting(w.boot, w.now))))
            && Step(w, w.(file := Written(t)))
  {
    hide Recordable, Load, Current, TransactionJson, Written;
    var t := Record(w).(state := Confirming);
    assert BeginConfirm(w, w.(file := Written(t), phase := Approving(t, Sighting(w.boot, w.now))));
    assert BeginConfirm(w, w.(file := Written(t)));
  }

  lemma CommitIsStep(w: World)
    requires w.phase.Approved?
    ensures var t := w.phase.t;
            Step(w, w.(file := Written(t.(state := Confirmed)), phase := Idle, committed := t.candidate,
                       commits := w.commits + [Commit(t, w.phase.seen)]))
    ensures Step(w, w.(phase := Idle))
  {
    hide Recordable, Load, Current, TransactionJson, Written;
    var t := w.phase.t;
    assert CommitChange(w, w.(file := Written(t.(state := Confirmed)), phase := Idle, committed := t.candidate,
                              commits := w.commits + [Commit(t, w.phase.seen)]));
    assert GiveUp(w, w.(phase := Idle));
  }

  lemma RevertBegins(w: World)
    requires w.phase.Idle? && Pending(w)
    ensures Step(w, w.(phase := Reverting(Record(w), Actor.Daemon)))
  {
    hide Recordable, Load, Current;
    assert BeginRevert(w, w.(phase := Reverting(Record(w), Actor.Daemon)));
  }

  lemma SettleIsStep(w: World, t: Transaction)
    requires w.phase == Reverted(t, Actor.Daemon)
    ensures Step(w, w.(file := Written(t.(state := RolledBack)), phase := Idle)) && Step(w, w.(phase := Idle))
    ensures Step(w, w.(file := None, phase := Idle))
  {
    hide Recordable, Load, Current, TransactionJson, Written;
    assert SettleRevert(w, w.(file := Written(t.(state := RolledBack)), phase := Idle));
    assert SettleRevert(w, w.(file := None, phase := Idle));
    assert GiveUp(w, w.(phase := Idle));
  }

  lemma ClearIsStep(w: World)
    requires Inv(w) && w.phase.Idle? && !Pending(w)
    ensures Step(w, w.(file := None))
  {
    hide Recordable, Load, Current;
    assert ClearSettled(w, w.(file := None));
  }

  lemma ClearSteps(w: World)
    requires Inv(w) && ((w.phase.Idle? && !Pending(w)) || (w.phase.Reverted? && w.phase.actor == Actor.Daemon))
    ensures Step(w, w.(file := None, phase := Idle)) && Step(w, w.(phase := Idle))
  {
    hide Inv, Step, Pending;
    if w.phase.Reverted? {
      SettleIsStep(w, w.phase.t);
    } else {
      ClearIsStep(w);
      StandIsStep(w);
      assert w.(phase := Idle) == w && w.(file := None, phase := Idle) == w.(file := None);
    }
  }

  lemma StandIsStep(w: World)
    ensures Step(w, w)
  {
  }

  lemma RuntimeIsStep(w: World, a: Address)
    requires Inv(w) && w.phase.Idle? && (AllStatic(Current(w).value) ==> a in Addresses(Current(w).value))
    ensures Step(w, w.(kernel := w.kernel + {a}))
  {
    hide Load, ParseFlatJson, Recordable, Addresses, AllStatic;
    assert StartRuntime(w, w.(kernel := w.kernel + {a}));
  }

  lemma UndoKnows(w: World)
    requires Inv(w) && w.phase.Reverting?
    ensures w.file != None
  {
    hide ParseFlatJson, HeaderOk, Printable, ParseTransaction;
  }

  lemma GuardOfNewStage(w: World, t: Transaction)
    requires Inv(w) && w.phase == Staging(t)
    ensures !w.overtaken ==> StageGuard(w, t)
  {
    hide Load, ParseFlatJson, HeaderOk, PrintableInterface, Validate;
  }

  /** Taking the previous addresses down does not touch the candidate's. */
  lemma CandidateUntouched(t: Transaction, k: set<Address>)
    ensures Addresses(t.candidate) <= k - Stale(t) <==> Addresses(t.candidate) <= k
  {
    hide Addresses;
  }

  /** Nor does taking the candidate's own addresses down touch the previous ones. */
  lemma PreviousUntouched(t: Transaction, k: set<Address>, l: set<Address>)
    requires k - l <= Fresh(t)
    ensures k * Addresses(t.previous) <= l
  {
    hide Addresses;
  }

  lemma SamePair(t: Transaction)
    ensures PairOf(t.(state := Confirming)) == PairOf(t) && BothStatic(t.(state := Confirming)) == BothStatic(t)
    ensures Stale(t.(state := Confirming)) == Stale(t)
  {
  }

  /** What it remembers passes the guard of the pair the journal names. */
  lemma RememberedPasses(w: World)
    requires Inv(w) && !w.overtaken && Pending(w)
    ensures PairGuard(w.staged, PairOf(Record(w)))
  {
    hide Load, ParseFlatJson, HeaderOk, PairGuard, PrintableInterface, Validate;
    PairGuardMeaning(w.staged, Record(w));
  }

  /** The record of a confirmation that read this clock. */
  predicate CommittedFrom(w: World, commits: seq<Commit>, committed: NetworkConfig, seen: Sighting) {
    && Pending(w) && Record(w).state == State.Staged
    && var t := Record(w).(state := Confirming);
       commits == w.commits + [Commit(t, seen)] && committed == t.candidate && Timely(t, seen)
  }

  /** With nothing pending the file is the committed configuration; a record loads as written. */
  lemma SettledState(w: World)
    requires Inv(w)
    ensures !Load(w.file).Corrupt? && Current(w).Some? && ProperBoot(w.boot)
    ensures !Pending(w) ==> Current(w) == Some(w.committed)
    ensures Pending(w) ==> Recordable(Record(w)) && Ordered(Record(w)) && Record(w).previous == w.committed
    ensures w.phase.Reverting? ==> Recordable(w.phase.t) && w.phase.t.previous == w.committed
    ensures w.phase.Reverted? ==>
              Load(w.file) == Valid(w.phase.t) && Recordable(w.phase.t)
              && w.phase.t.previous == w.committed
    ensures w.phase.Approved? ==>
              Recordable(w.phase.t) && Timely(w.phase.t, w.phase.seen)
              && Current(w) == Some(w.phase.t.candidate)
  {
    hide Load, ParseFlatJson, Recordable, NoControl;
  }

  class Daemon {
    var file: Option<string>
    var persistent: string
    var kernel: set<Address>
    var leases: Option<Leases>
    var stagedLeases: Option<Leases>
    var previousLeases: Option<Leases>
    var boot: string
    var now: nat
    var clock: bool
    var staged: Option<Pair>
    var nextId: nat
    var works: bool
    var commands: bool
    ghost var phase: Phase
    ghost var committed: NetworkConfig
    ghost var commits: seq<Commit>
    ghost var foreign: set<Address>
    ghost var overtaken: bool
    ghost var trace: seq<World>

    ghost function Here(): World
      reads this
    {
      World(file, persistent, kernel, boot, now, clock, staged, phase, committed, commits, foreign, overtaken)
    }

    /** What is known at the end of any sequence of steps. */
    ghost predicate Tracked(w: World)
      reads this`trace
    {
      && trace != [] && trace[|trace| - 1] == w && Linked(trace) && Inv(w)
      && (AllClean(trace) && KernelAgrees(trace[0]) ==> KernelAgrees(w))
    }

    ghost predicate Valid()
      reads this
    {
      Tracked(Here()) && nextId >= 1
    }

    /** A process starts in any state the protocol can be in once nothing it remembers survives. */
    constructor (ghost w: World, file: Option<string>, persistent: string, kernel: set<Address>, boot: string,
        now: nat, clock: bool, leases: Option<Leases>, stagedLeases: Option<Leases>, previousLeases: Option<Leases>,
        works: bool, commands: bool)
      requires Inv(w) && w.phase.Idle? && w.staged.None?
      requires w.file == file && w.persistent == persistent && w.kernel == kernel && w.boot == boot && w.now == now
                && w.clock == clock
      ensures Valid() && Here() == w && trace == [w]
    {
      hide Inv, Clean, KernelAgrees, Step;
      this.file, this.persistent, this.kernel, this.boot, this.now, this.clock :=
          file, persistent, kernel, boot, now, clock;
      this.leases, this.stagedLeases, this.previousLeases := leases, stagedLeases, previousLeases;
      this.staged, this.nextId := None, 1;
      this.works, this.commands := works, commands;
      this.phase, this.committed, this.commits := w.phase, w.committed, w.commits;
      this.foreign, this.overtaken, this.trace := w.foreign, w.overtaken, [w];
    }

    lemma KnowsInv()
      requires Valid()
      ensures Inv(Here())
    {
    }

    ghost method Advance(w: World)
      requires Tracked(w) && Step(w, Here())
      modifies this`trace
      ensures Tracked(Here()) && trace == old(trace) + [Here()]
    {
      hide Step, Inv, Clean, KernelAgrees;
      var v := Here();
      StepKeepsInv(w, v);
      trace := trace + [v];
      if AllClean(trace) && KernelAgrees(trace[0]) {
        assert forall i | 0 <= i < |old(trace)| :: trace[i] == old(trace)[i];
        assert Clean(trace[|trace| - 1]) && Clean(trace[|trace| - 2]);
        assert AllClean(old(trace));
        StepKeepsKernel(w, v);
      }
    }

    // ----- Oracles -----

    /** A command or file operation whose effects are not modelled. */
    method Ask() returns (ok: bool)
      ensures works ==> ok
    {
      ok := *;
      if works {
        ok := true;
      }
    }

    /** An address or route command, likewise. */
    method AskCommand() returns (ok: bool)
      ensures works || commands ==> ok
    {
      ok := *;
      if works || commands {
        ok := true;
      }
    }

    /** Whether a write took effect; certain only when it reported success. */
    method Lands(ok: bool) returns (landed: bool)
      ensures ok ==> landed
    {
      landed := *;
      landed := landed || ok;
    }

    method ReplaceLeases(was: Option<Leases>, wanted: Option<Leases>) returns (ok: bool, value: Option<Leases>)
      ensures value == wanted || (!ok && value == was)
      ensures works ==> ok
    {
      ok := Ask();
      var landed := Lands(ok);
      value := if landed then wanted else was;
    }

    /** The clock moves on; either reading can be unavailable. */
    method ReadClock() returns (bootId: string, time: nat)
      requires Valid()
      modifies this`now, this`clock, this`trace
      ensures Valid() && old(trace) <= trace
      ensures (bootId == boot || bootId == "") && (time == now || time == 0)
      ensures bootId != "" && time != 0 ==> clock
      ensures works ==> bootId == boot && time == now
    {
      hide Inv, Linked, Clean, KernelAgrees;
      ghost var w := Here();
      var bootOk := Ask();
      var timeOk := Ask();
      var later: int := *;
      if later > now {
        now := later;
      }
      clock := bootOk && timeOk;
      assert Tick(w, Here());
      Advance(w);
      bootId, time := if bootOk then boot else "", if timeOk then now else 0;
    }

    method AddAddress(a: Address) returns (ok: bool)
      requires Valid() && MayTouch(Here(), a, true)
      modifies this`kernel, this`trace
      ensures Valid() && old(trace) <= trace
      ensures kernel == old(kernel) + {a} || (!ok && kernel == old(kernel))
      ensures works || commands ==> kernel == old(kernel) + {a} && (a !in old(kernel) ==> ok)
    {
      hide Inv, Linked, Clean, KernelAgrees, MayTouch, Step;
      ghost var w := Here();
      ok := AskCommand();
      ok := ok && a !in kernel;
      var landed := Lands(ok);
      if landed {
        TouchIsStep(w, a, true);
        kernel := kernel + {a};
        Advance(w);
      }
    }

    /** Removing an address that is not there succeeds. */
    method DropAddress(a: Address) returns (ok: bool)
      requires Valid() && MayTouch(Here(), a, false)
      modifies this`kernel, this`trace
      ensures Valid() && old(trace) <= trace
      ensures kernel == old(kernel) - {a} || (!ok && kernel == old(kernel))
      ensures works || commands ==> ok
    {
      hide Inv, Linked, Clean, KernelAgrees, MayTouch, Step;
      ghost var w := Here();
      ok := AskCommand();
      var landed := Lands(ok);
      if landed {
        TouchIsStep(w, a, false);
        kernel := kernel - {a};
        Advance(w);
      }
    }

    method WriteConfig(text: string) returns (ok: bool)
      requires Valid() && MayWrite(Here(), text)
      modifies this`persistent, this`trace
      ensures Valid() && old(trace) <= trace
      ensures persistent == text || (!ok && persistent == old(persistent))
      ensures works ==> ok
    {
      hide Inv, Linked, Clean, KernelAgrees, MayWrite, Step;
      ghost var w := Here();
      ok := Ask();
      var landed := Lands(ok);
      if landed {
        WriteIsStep(w, text);
        persistent := text;
        Advance(w);
      }
    }

    // ----- Backend -----

    /** Writes the configuration and the vendor files, putting the old file back when either fails. */
    method SaveConfig(c: NetworkConfig) returns (ok: bool)
      requires Valid() && MaySave(Here(), c)
      modifies this`persistent, this`trace
      ensures Valid() && old(trace) <= trace
      ensures persistent == FileText(c) || (!ok && persistent == old(persistent))
      ensures works ==> ok
    {
      hide Inv, Linked, Clean, KernelAgrees, Step, FileText, PrintableInterface, Validate, ParseFlatJson, Recordable;
      hide MaySave;
      SaveIsWrite(Here(), c);
      var prepared := Ask();
      if !prepared || !Validate(c) {
        return false;
      }
      var was := persistent;
      MayRestore(Here(), FileText(c));
      ok := WriteConfig(FileText(c));
      if ok {
        ok := Ask();
      }
      if !ok {
        var _ := WriteConfig(was);
      }
    }

    method RemoveCandidate(ghost t: Transaction, previous: NetworkConfig, candidate: NetworkConfig, before: Leases,
        after: Leases)
      returns (success: bool)
      requires Valid() && previous == t.previous && candidate == t.candidate
      requires (phase == Staging(t) && StageGuard(Here(), t))
                || (phase == Reverting(t, Actor.Daemon) && PairGuard(staged, PairOf(t)))
      modifies this`kernel, this`trace
      ensures Valid() && old(trace) <= trace
      ensures BothStatic(t) ==> kernel <= old(kernel) && old(kernel) - kernel <= Fresh(t)
      ensures BothStatic(t) && success ==> kernel !! Fresh(t)
      ensures works || commands ==> success
    {
      hide Inv, Linked, Clean, KernelAgrees, Step, Validate, ToFlatJson, Fresh, Stale, EffectiveAddress;
      hide EffectiveGateway;
      hide Tracked, BothStatic;
      ghost var p := PairOf(t);
      success := true;
      for i := 0 to 2
        invariant Valid() && old(trace) <= trace
        invariant BothStatic(t) ==> kernel <= old(kernel) && old(kernel) - kernel <= Fresh(t)
        invariant BothStatic(t) && success ==>
                    forall k | 0 <= k < i :: OldAddress(p, before, k) == NewAddress(p, after, k)
                        || (k, NewAddress(p, after, k)) !in kernel
        invariant works || commands ==> success
      {
        var was, next :=
            OldAddress(Pair(previous, candidate), before, i), NewAddress(Pair(previous, candidate), after, i);
        if was != next {
          if BothStatic(t) {
            AddressMoves(t, before, after, i);
          }
          var ok := DropAddress((i, next));
          success := ok && success;
        }
        var route := EffectiveGateway(InterfaceAt(candidate, i), LeaseAt(after, i));
        if EffectiveGateway(InterfaceAt(previous, i), LeaseAt(before, i)) != route && route != "" {
          var ok := AskCommand();
          success := ok && success;
        }
      }
      if BothStatic(t) && success {
        forall a | a in Fresh(t) ensures a !in kernel {
          FreshAddresses(t, before, after, a);
        }
      }
    }

    method AddCandidate(ghost t: Transaction, previous: NetworkConfig, candidate: NetworkConfig, before: Leases,
        after: Leases)
      returns (success: bool)
      requires Valid() && previous == t.previous && candidate == t.candidate && phase == Staging(t)
                && StageGuard(Here(), t)
      modifies this`kernel, this`trace
      ensures Valid() && old(trace) <= trace
      ensures BothStatic(t) && success ==> kernel == old(kernel) + Fresh(t)
      ensures BothStatic(t) ==> Changes(old(kernel), kernel, Fresh(t))
      ensures (works || commands) && BothStatic(t) && old(kernel) !! Fresh(t) ==> success
    {
      hide Inv, Linked, Clean, KernelAgrees, Step, Validate, ToFlatJson, Fresh, Stale, EffectiveAddress;
      hide EffectiveGateway;
      hide Tracked, BothStatic;
      ghost var p := PairOf(t);
      for i := 0 to 2
        invariant Valid() && old(trace) <= trace
        invariant BothStatic(t) ==> old(kernel) <= kernel <= old(kernel) + Fresh(t)
        invariant BothStatic(t) ==> forall a: Address | a in kernel && a.0 >= i :: a in old(kernel)
        invariant BothStatic(t) ==>
                    forall k | 0 <= k < i :: OldAddress(p, before, k) == NewAddress(p, after, k)
                        || (k, NewAddress(p, after, k)) in kernel
      {
        var was, next :=
            OldAddress(Pair(previous, candidate), before, i), NewAddress(Pair(previous, candidate), after, i);
        if was != next {
          if BothStatic(t) {
            AddressMoves(t, before, after, i);
          }
          var ok := AddAddress((i, next));
          if !ok {
            return false;
          }
        }
      }
      if BothStatic(t) {
        forall a | a in Fresh(t) ensures a in kernel {
          FreshAddresses(t, before, after, a);
        }
      }
      for i := 0 to 2
        invariant Valid() && old(trace) <= trace
        invariant BothStatic(t) ==> kernel == old(kernel) + Fresh(t)
      {
        var route := EffectiveGateway(InterfaceAt(candidate, i), LeaseAt(after, i));
        if EffectiveGateway(InterfaceAt(previous, i), LeaseAt(before, i)) != route && route != "" {
          var ok := AskCommand();
          if !ok {
            var _ := RemoveCandidate(t, previous, candidate, before, after);
            return false;
          }
        }
      }
      success := true;
    }

    method RemovePrevious(ghost t: Transaction, previous: NetworkConfig, candidate: NetworkConfig, before: Leases,
        after: Leases)
      returns (success: bool)
      requires Valid() && previous == t.previous && candidate == t.candidate && phase.Approving? && phase.t == t
                && PairGuard(staged, PairOf(t))
      modifies this`kernel, this`trace
      ensures Valid() && old(trace) <= trace
      ensures BothStatic(t) && success ==> kernel == old(kernel) - Stale(t)
      ensures works || commands ==> success
    {
      hide Inv, Linked, Clean, KernelAgrees, Step, Validate, ToFlatJson, Fresh, Stale, EffectiveAddress;
      hide EffectiveGateway;
      hide Tracked, BothStatic;
      ghost var p := PairOf(t);
      success := true;
      for i := 0 to 2
        invariant Valid() && old(trace) <= trace
        invariant BothStatic(t) ==> kernel <= old(kernel) && old(kernel) - kernel <= Stale(t)
        invariant BothStatic(t) && success ==>
                    forall k | 0 <= k < i :: OldAddress(p, before, k) == NewAddress(p, after, k)
                        || (k, OldAddress(p, before, k)) !in kernel
        invariant works || commands ==> success
      {
        var route := EffectiveGateway(InterfaceAt(previous, i), LeaseAt(before, i));
        if EffectiveGateway(InterfaceAt(candidate, i), LeaseAt(after, i)) != route && route != "" {
          var ok := AskCommand();
          success := ok && success;
        }
        var was, next :=
            OldAddress(Pair(previous, candidate), before, i), NewAddress(Pair(previous, candidate), after, i);
        if was != next {
          if BothStatic(t) {
            AddressMoves(t, before, after, i);
          }
          var ok := DropAddress((i, was));
          success := ok && success;
        }
      }
      if BothStatic(t) && success {
        forall a | a in Stale(t) ensures a !in kernel {
          FreshAddresses(t, before, after, a);
        }
      }
    }

    method RestorePrevious(ghost t: Transaction, previous: NetworkConfig, candidate: NetworkConfig, before: Leases,
        after: Leases)
      returns (success: bool)
      requires Valid() && previous == t.previous && candidate == t.candidate && phase.Approving? && phase.t == t
                && PairGuard(staged, PairOf(t))
      modifies this`kernel, this`trace
      ensures Valid() && old(trace) <= trace
      ensures BothStatic(t) ==> old(kernel) <= kernel <= old(kernel) + Stale(t)
      ensures BothStatic(t) && success ==> kernel == old(kernel) + Stale(t)
      ensures (works || commands) && BothStatic(t) ==> kernel == old(kernel) + Stale(t)
      ensures (works || commands) && BothStatic(t) && old(kernel) !! Stale(t) ==> success
    {
      hide Inv, Linked, Clean, KernelAgrees, Step, Validate, ToFlatJson, Fresh, Stale, EffectiveAddress;
      hide EffectiveGateway;
      hide Tracked, BothStatic;
      ghost var p := PairOf(t);
      success := true;
      for i := 0 to 2
        invariant Valid() && old(trace) <= trace
        invariant BothStatic(t) ==> old(kernel) <= kernel <= old(kernel) + Stale(t)
        invariant BothStatic(t) ==> forall a: Address | a in kernel && a.0 >= i :: a in old(kernel)
        invariant BothStatic(t) && (success || works || commands) ==>
                    forall k | 0 <= k < i :: OldAddress(p, before, k) == NewAddress(p, after, k)
                        || (k, OldAddress(p, before, k)) in kernel
        invariant (works || commands) && BothStatic(t) && old(kernel) !! Stale(t) ==> success
      {
        var was, next :=
            OldAddress(Pair(previous, candidate), before, i), NewAddress(Pair(previous, candidate), after, i);
        if was != next {
          if BothStatic(t) {
            AddressMoves(t, before, after, i);
          }
          var ok := AddAddress((i, was));
          success := ok && success;
        }
        var route := EffectiveGateway(InterfaceAt(previous, i), LeaseAt(before, i));
        if EffectiveGateway(InterfaceAt(candidate, i), LeaseAt(after, i)) != route && route != "" {
          var ok := AskCommand();
          success := ok && success;
        }
      }
      if BothStatic(t) && (success || works || commands) {
        forall a | a in Stale(t) ensures a in kernel {
          FreshAddresses(t, before, after, a);
        }
      }
    }

    /** Leases for the interfaces a candidate wants from DHCP; none when a client fails. */
    method AcquireLeases(candidate: NetworkConfig) returns (ok: bool, got: Leases)
      ensures AllStatic(candidate) ==> ok
    {
      got, ok := NO_LEASES, true;
      for i := 0 to 2
        invariant AllStatic(candidate) ==> ok
      {
        if ok && InterfaceAt(candidate, i).mode == Dhcp {
          var lease: Lease := *;
          ok := Ask();
          got := if i == 0 then got.(eth0 := Some(lease)) else got.(eth1 := Some(lease));
        }
      }
    }

    /** Copies the leases in force aside, provided every DHCP interface has one. */
    method BackUpLeases(previous: NetworkConfig) returns (ok: bool, before: Leases)
      modifies this`previousLeases
      ensures ok ==> LeasesCover(previous, before) && previousLeases == Some(before)
      ensures works && AllStatic(previous) ==> ok
    {
      ok := Ask();
      before := if leases.Some? then leases.value else NO_LEASES;
      if !ok || !LeasesCover(previous, before) {
        return false, before;
      }
      ok, previousLeases := ReplaceLeases(previousLeases, None);
      if ok {
        ok, previousLeases := ReplaceLeases(None, Some(before));
      }
    }

    /** The work of `apply_stage` up to where it records success. */
    method TryStage(ghost t: Transaction, previous: NetworkConfig, candidate: NetworkConfig) returns (ok: bool)
      requires Valid() && phase == Staging(t) && previous == t.previous && candidate == t.candidate
      modifies this`kernel, this`stagedLeases, this`previousLeases, this`trace
      ensures Valid() && old(trace) <= trace
      ensures ok ==> StageGuard(Here(), t) && (BothStatic(t) ==> kernel == old(kernel) + Fresh(t))
      ensures BothStatic(t) ==> Changes(old(kernel), kernel, Fresh(t))
      ensures !ok && commands && BothStatic(t) && old(kernel) !! Fresh(t) ==> kernel == old(kernel)
      ensures works && BothStatic(t) && old(kernel) !! Fresh(t) && StageGuard(old(Here()), t) ==> ok
    {
      hide Inv, Linked, Clean, KernelAgrees, Step, Validate, ToFlatJson, Fresh, Stale, Tracked, LeasesCover, AllStatic;
      if staged.Some? || !Validate(previous) || !Validate(candidate) {
        return false;
      }
      var backed, before := BackUpLeases(previous);
      if !backed {
        return false;
      }
      var acquired, after := AcquireLeases(candidate);
      if !acquired {
        return false;
      }
      ok, stagedLeases := ReplaceLeases(stagedLeases, Some(after));
      if ok {
        ok := AddCandidate(t, previous, candidate, before, after);
      }
      if !ok {
        var _ := RemoveCandidate(t, previous, candidate, before, after);
        var _, left := ReplaceLeases(stagedLeases, None);
        stagedLeases := left;
      }
    }

    /** On success the daemon remembers the pair and both old and new addresses are up. */
    method ApplyStage(ghost t: Transaction, previous: NetworkConfig, candidate: NetworkConfig) returns (ok: bool)
      requires Valid() && phase == Staging(t) && previous == t.previous && candidate == t.candidate
      modifies this`kernel, this`stagedLeases, this`previousLeases, this`staged, this`phase, this`trace
      ensures Valid() && old(trace) <= trace
      ensures ok ==> phase == Idle && staged == Some(PairOf(t)) && (BothStatic(t) ==> kernel == old(kernel) + Fresh(t))
      ensures BothStatic(t) ==> Changes(old(kernel), kernel, Fresh(t))
      ensures !ok ==> phase == Reverting(t, Actor.Daemon) && staged == old(staged)
      ensures !ok && commands && BothStatic(t) && old(kernel) !! Fresh(t) ==> kernel == old(kernel)
      ensures works && BothStatic(t) && old(kernel) !! Fresh(t) && StageGuard(old(Here()), t) ==> ok
    {
      hide Inv, Linked, Clean, KernelAgrees, StageGuard, Fresh, BothStatic, Step, Tracked;
      ok := TryStage(t, previous, candidate);
      ghost var w := Here();
      StageReturns(w, t);
      if ok {
        staged := Some(Pair(previous, candidate));
        phase := Idle;
      } else {
        phase := Reverting(t, Actor.Daemon);
      }
      Advance(w);
    }

    /** Stops the clients of the interfaces that leave DHCP, or that will ask for another lease. */
    method StopClients(previous: NetworkConfig) returns (ok: bool)
      ensures works ==> ok
    {
      ok := true;
      for i := 0 to 2
        invariant works ==> ok
      {
        if ok && InterfaceAt(previous, i).mode == Dhcp {
          ok := Ask();
        }
      }
    }

    method UndoConfirm(ghost t: Transaction, previous: NetworkConfig, candidate: NetworkConfig, before: Leases,
        after: Leases)
      requires Valid() && previous == t.previous && candidate == t.candidate && phase.Approving? && phase.t == t
                && PairGuard(staged, PairOf(t))
      modifies this`kernel, this`trace
      ensures Valid() && old(trace) <= trace
      ensures commands && BothStatic(t) ==> kernel == old(kernel) + Stale(t)
    {
      hide Inv, Linked, Clean, KernelAgrees, Step, PairGuard, Tracked;
      var _ := RestorePrevious(t, previous, candidate, before, after);
      var _ := Ask();
    }

    /** The candidate and its leases become the ones in force, or the previous configuration is saved again. */
    method Promote(ghost t: Transaction, previous: NetworkConfig, candidate: NetworkConfig, after: Leases)
        returns (ok: bool)
      requires Valid() && phase.Approving? && phase.t == t && previous == t.previous && candidate == t.candidate
      requires PairGuard(staged, PairOf(t))
      modifies this`persistent, this`leases, this`stagedLeases, this`trace
      ensures Valid() && old(trace) <= trace
      ensures ok ==> persistent == FileText(candidate)
      ensures works ==> ok
    {
      hide Inv, Linked, Clean, KernelAgrees, Step, Tracked, PairGuard, FileText;
      ok := SaveConfig(candidate);
      if !ok {
        return;
      }
      ok, leases := ReplaceLeases(leases, Some(after));
      if ok {
        ok, stagedLeases := ReplaceLeases(stagedLeases, None);
      }
      if !ok {
        var _ := SaveConfig(previous);
      }
    }

    /** The work of the backend's `confirm`: old addresses down, candidate saved, leases promoted. */
    method TryConfirm(ghost t: Transaction, previous: NetworkConfig, candidate: NetworkConfig) returns (ok: bool)
      requires Valid() && phase.Approving? && phase.t == t && previous == t.previous && candidate == t.candidate
      modifies this`kernel, this`persistent, this`leases, this`stagedLeases, this`trace
      ensures Valid() && old(trace) <= trace
      ensures ok ==> PairGuard(staged, PairOf(t)) && persistent == FileText(candidate)
      ensures ok && BothStatic(t) ==> kernel == old(kernel) - Stale(t)
      ensures !ok && commands && BothStatic(t) ==> kernel == old(kernel) || kernel == old(kernel) + Stale(t)
      ensures works && BothStatic(t) && PairGuard(staged, PairOf(t)) ==> ok
    {
      hide Inv, Linked, Clean, KernelAgrees, Step, Fresh, Stale, Tracked, PairGuard, FileText, LeasesCover, AllStatic;
      if !PairGuard(staged, Pair(previous, candidate)) {
        return false;
      }
      var readable := Ask();
      var before := if leases.Some? then leases.value else NO_LEASES;
      var after := if stagedLeases.Some? then stagedLeases.value else NO_LEASES;
      if BothStatic(t) {
        StaticNeedsNoLease(previous, before);
        StaticNeedsNoLease(candidate, after);
      }
      if !readable || !LeasesCover(candidate, after) || !LeasesCover(previous, before) {
        return false;
      }
      var stopped := StopClients(previous);
      if !stopped {
        return false;
      }
      ok := RemovePrevious(t, previous, candidate, before, after);
      if ok {
        ok := Promote(t, previous, candidate, after);
      }
      if !ok {
        UndoConfirm(t, previous, candidate, before, after);
      }
    }

    method BackendConfirm(ghost t: Transaction, previous: NetworkConfig, candidate: NetworkConfig) returns (ok: bool)
      requires Valid() && phase.Approving? && phase.t == t && previous == t.previous && candidate == t.candidate
      modifies this`kernel, this`persistent, this`leases, this`stagedLeases, this`staged, this`phase, this`overtaken,
          this`trace
      ensures Valid() && old(trace) <= trace
      ensures ok ==> phase == Approved(t, old(phase).seen) && persistent == FileText(candidate)
      ensures ok && BothStatic(t) ==> kernel == old(kernel) - Stale(t)
      ensures !ok ==> phase == Reverting(t, Actor.Daemon) && staged == old(staged) && overtaken == old(overtaken)
      ensures !ok && commands && BothStatic(t) ==> kernel == old(kernel) || kernel == old(kernel) + Stale(t)
      ensures !ok && commands && BothStatic(t) ==> old(kernel) * Addresses(t.previous) <= kernel
      ensures works && BothStatic(t) && PairGuard(old(staged), PairOf(t)) ==> ok
    {
      hide Inv, Linked, Clean, KernelAgrees, PairGuard, Stale, FileText, ParseFlatJson, BothStatic, Step, Printable;
      hide HeaderOk, Tracked;
      KnowsInv();
      PhasePrintable(Here());
      FileRoundTrip(candidate);
      ok := TryConfirm(t, previous, candidate);
      ghost var w := Here();
      ConfirmReturns(w, t, phase.seen);
      if ok {
        staged := None;
        phase, overtaken := Approved(t, phase.seen), false;
      } else {
        phase := Reverting(t, Actor.Daemon);
      }
      Advance(w);
    }

    /** The previous configuration and its leases become the ones in force again. */
    method Reinstate(ghost t: Transaction, previous: NetworkConfig, before: Leases) returns (ok: bool)
      requires Valid() && phase == Reverting(t, Actor.Daemon) && previous == t.previous && PairGuard(staged, PairOf(t))
      modifies this`persistent, this`leases, this`trace
      ensures Valid() && old(trace) <= trace
      ensures persistent == FileText(previous) || (!ok && persistent == old(persistent))
      ensures works ==> ok
    {
      hide Inv, Linked, Clean, KernelAgrees, Step, Tracked, PairGuard, FileText;
      ok := SaveConfig(previous);
      if ok {
        ok, leases := ReplaceLeases(leases, Some(before));
      }
    }

    /** Forgets both lease copies. */
    method DropLeases() returns (ok: bool)
      modifies this`stagedLeases, this`previousLeases
      ensures ok ==> stagedLeases == None && previousLeases == None
      ensures works ==> ok
    {
      ok, stagedLeases := ReplaceLeases(stagedLeases, None);
      if ok {
        ok, previousLeases := ReplaceLeases(previousLeases, None);
      }
    }

    /** The work of the backend's `rollback`: previous configuration saved, candidate addresses down. A DHCP
        candidate without a stored lease is refused. */
    method TryRollback(ghost t: Transaction, previous: NetworkConfig, candidate: NetworkConfig) returns (ok: bool)
      requires Valid() && phase == Reverting(t, Actor.Daemon) && previous == t.previous && candidate == t.candidate
      modifies this`kernel, this`persistent, this`leases, this`stagedLeases, this`previousLeases, this`trace
      ensures Valid() && old(trace) <= trace
      ensures persistent == FileText(previous) || (!ok && persistent == old(persistent))
      ensures ok ==> PairGuard(staged, PairOf(t)) && (BothStatic(t) ==> kernel !! Fresh(t))
      ensures BothStatic(t) ==> kernel <= old(kernel) && old(kernel) - kernel <= Fresh(t)
      ensures BothStatic(t) && old(kernel) !! Fresh(t) ==> kernel == old(kernel)
      ensures works && BothStatic(t) && PairGuard(staged, PairOf(t)) ==> ok
    {
      hide Inv, Linked, Clean, KernelAgrees, Step, Fresh, Stale, Tracked, PairGuard, FileText, LeasesCover, AllStatic;
      if !PairGuard(staged, Pair(previous, candidate)) {
        return false;
      }
      var readable := Ask();
      var present := if leases.Some? then leases.value else NO_LEASES;
      var before := if previousLeases.Some? then previousLeases.value else present;
      var after := if stagedLeases.Some? then stagedLeases.value else present;
      if BothStatic(t) {
        StaticNeedsNoLease(candidate, after);
      }
      if !readable || !LeasesCover(candidate, after) {
        return false;
      }
      ok := Reinstate(t, previous, before);
      if !ok {
        return false;
      }
      ok := RemoveCandidate(t, previous, candidate, before, after);
      var released := Ask();
      ok := ok && released;
      if ok {
        ok := DropLeases();
      }
    }

    /** Rolling back again changes nothing: neither the addresses nor the configuration in the file. */
    method BackendRollback(ghost t: Transaction, previous: NetworkConfig, candidate: NetworkConfig) returns (ok: bool)
      requires Valid() && phase == Reverting(t, Actor.Daemon) && previous == t.previous && candidate == t.candidate
      modifies this`kernel, this`persistent, this`leases, this`stagedLeases, this`previousLeases
      modifies this`staged, this`phase, this`overtaken, this`trace
      ensures Valid() && old(trace) <= trace
      ensures ok ==> phase == Reverted(t, Actor.Daemon) && (BothStatic(t) ==> kernel !! Fresh(t)) && staged == None
      ensures ok ==> ParseFlatJson(persistent) == Some(previous)
      ensures !ok ==> phase == Idle && staged == old(staged) && overtaken == old(overtaken)
      ensures BothStatic(t) ==> kernel <= old(kernel) && old(kernel) - kernel <= Fresh(t)
      ensures BothStatic(t) && old(kernel) !! Fresh(t) ==> kernel == old(kernel)
      ensures old(ParseFlatJson(persistent)) == Some(previous) ==> ParseFlatJson(persistent) == Some(previous)
      ensures works && BothStatic(t) && PairGuard(old(staged), PairOf(t)) ==> ok
    {
      hide Inv, Linked, Clean, KernelAgrees, PairGuard, Fresh, FileText, ParseFlatJson, BothStatic, Step, Printable;
      hide HeaderOk, Tracked;
      KnowsInv();
      PhasePrintable(Here());
      FileRoundTrip(previous);
      ok := TryRollback(t, previous, candidate);
      ghost var w := Here();
      RollbackReturns(w, t);
      if ok {
        staged := None;
        phase, overtaken := Reverted(t, Actor.Daemon), false;
      } else {
        phase := Idle;
      }
      Advance(w);
    }

    /** Puts the configured static addresses on their interfaces. */
    method StartRuntime() returns (ok: bool)
      requires Valid() && phase.Idle?
      modifies this`kernel, this`trace
      ensures Valid() && old(trace) <= trace
      ensures ParseFlatJson(persistent).Some?
      ensures var c := ParseFlatJson(persistent).value;
              AllStatic(c) ==> old(kernel) <= kernel <= old(kernel) + Addresses(c) && (ok ==> Addresses(c) <= kernel)
      ensures works && AllStatic(ParseFlatJson(persistent).value) ==> ok
    {
      hide Linked, Clean, KernelAgrees, Step, ParseFlatJson, Recordable, Load, AddressOf, Inv;
      SettledState(Here());
      var c := ParseFlatJson(persistent).value;
      var readable := Ask();
      if !readable {
        return false;
      }
      for i := 0 to 2
        invariant Valid() && old(trace) <= trace
        invariant AllStatic(c) ==> old(kernel) <= kernel <= old(kernel) + Addresses(c)
        invariant AllStatic(c) ==> forall k | 0 <= k < i :: (k, AddressOf(InterfaceAt(c, k))) in kernel
      {
        var interface := InterfaceAt(c, i);
        ok := AskCommand();
        if ok && interface.mode == Mode.Static {
          ghost var w := Here();
          RuntimeIsStep(w, (i, AddressOf(interface)));
          kernel := kernel + {(i, AddressOf(interface))};
          Advance(w);
          if interface.gateway != "" {
            ok := AskCommand();
          }
        }
        if !ok {
          return false;
        }
      }
      assert AllStatic(c) ==>
                (0, AddressOf(InterfaceAt(c, 0))) in kernel
                && (1, AddressOf(InterfaceAt(c, 1))) in kernel;
      ok := true;
    }

    // ----- Manager -----

    /** Removes the journal of a change that is over. */
    method ClearJournal() returns (ok: bool)
      requires Valid() && ((phase.Idle? && !Pending(Here())) || (phase.Reverted? && phase.actor == Actor.Daemon))
      modifies this`file, this`phase, this`trace
      ensures Valid() && old(trace) <= trace && phase == Idle
      ensures file == None || (!ok && file == old(file))
      ensures works ==> ok
    {
      hide Inv, Linked, Clean, KernelAgrees, Step, Pending, Tracked;
      KnowsInv();
      ghost var w := Here();
      ClearSteps(w);
      ok := Ask();
      var landed := Lands(ok);
      phase := Idle;
      if landed {
        file := None;
        assert Here() == w.(file := None, phase := Idle);
      } else {
        assert Here() == w.(phase := Idle);
      }
      Advance(w);
    }

    /** Rolls a pending change back and takes it off the journal. */
    method RollbackLoaded(t: Transaction, reason: Result) returns (r: Result)
      requires Valid() && phase.Idle? && Load(file) == Loaded.Valid(t) && Pending(Here())
      requires reason != BackendError && reason != StorageError
      modifies this`file, this`kernel, this`persistent, this`leases, this`stagedLeases, this`previousLeases
      modifies this`staged, this`phase, this`overtaken, this`trace
      ensures Valid() && old(trace) <= trace && phase == Idle
      ensures r == reason || r == BackendError || r == StorageError
      ensures r == reason ==> file == None && ParseFlatJson(persistent) == Some(t.previous)
      ensures r == reason && BothStatic(t) ==> kernel !! Fresh(t)
      ensures BothStatic(t) ==> kernel <= old(kernel) && old(kernel) - kernel <= Fresh(t)
      ensures works && BothStatic(t) && PairGuard(old(staged), PairOf(t)) ==> r == reason
    {
      hide Inv, Linked, Clean, KernelAgrees, Step, Load, PairGuard, ParseFlatJson, Fresh, BothStatic, Recordable;
      hide Tracked;
      ghost var w := Here();
      RevertBegins(w);
      phase := Reverting(t, Actor.Daemon);
      Advance(w);
      var ok := BackendRollback(t, t.previous, t.candidate);
      if !ok {
        return BackendError;
      }
      ok := SaveRolledBack(t);
      if !ok {
        return StorageError;
      }
      ok := ClearJournal();
      return if ok then reason else StorageError;
    }

    method SaveRolledBack(t: Transaction) returns (ok: bool)
      requires Valid() && phase == Reverted(t, Actor.Daemon)
      modifies this`file, this`phase, this`trace
      ensures Valid() && old(trace) <= trace && phase == Idle
      ensures ok ==> !Pending(Here())
      ensures works ==> ok
    {
      hide Inv, Linked, Clean, KernelAgrees, Step, Load, Recordable, Written, Current, ProperBoot, Ordered, Timely;
      hide Tracked;
      KnowsInv();
      ghost var w := Here();
      SettledState(w);
      StateIrrelevant(t, RolledBack);
      WrittenLoads(t.(state := RolledBack));
      SettleIsStep(w, t);
      ok := Ask();
      var landed := Lands(ok);
      phase := Idle;
      if landed {
        file := Written(t.(state := RolledBack));
        assert Here() == w.(file := Written(t.(state := RolledBack)), phase := Idle);
      } else {
        assert Here() == w.(phase := Idle);
      }
      Advance(w);
    }

    /** Journals a new change, if none is pending and the clock can be read. */
    method OpenStage(candidate: NetworkConfig) returns (r: Result, record: Option<Transaction>)
      requires Valid() && phase.Idle? && nextId <= MAX64 && Printable(candidate)
      modifies this`file, this`now, this`clock, this`nextId, this`phase, this`trace
      ensures Valid() && old(trace) <= trace
      ensures r == Ok <==> record.Some?
      ensures record.Some? ==>
                var t := record.value;
                phase == Staging(t) && file == Written(t) && PairOf(t) == Pair(committed, candidate) && Recordable(t)
                && t.state == State.Staged && t.bootId == boot && t.staged == now && t.deadline == now + WINDOW
      ensures Pending(old(Here())) ==> r != Ok && file == old(file)
      ensures record.None? ==> phase == Idle && (file == old(file) || (r == StorageError && Pending(Here())))
      ensures works && !Pending(old(Here())) ==> r == Ok || now == 0 || now + WINDOW > MAX64
      ensures works && Pending(old(Here())) ==> r == Busy
      ensures r != CorruptJournal && r != InvalidCandidate
    {
      hide Inv, Linked, Clean, KernelAgrees, Step, Load, ParseFlatJson, Printable, NoControl, Written;
      r, record := BackendError, None;
      ghost var start := Here();
      SettledState(start);
      var readable := Ask();
      if !readable {
        return StorageError, None;
      }
      if PendingRecord(Load(file)) {
        return Busy, None;
      }
      var current := ParseFlatJson(persistent);
      var bootId, time := ReadClock();
      var available := Ask();
      if !available || bootId == "" || time == 0 || WINDOW > MAX64 - time {
        return;
      }
      var t := Transaction(nextId, bootId, time, time + WINDOW, State.Staged, current.value, candidate);
      nextId := nextId + 1;
      ParsedIsPrintable(persistent);
      var ok := SaveStaged(t);
      r, record := if ok then Ok else StorageError, if ok then Some(t) else None;
    }

    method SaveStaged(t: Transaction) returns (ok: bool)
      requires Valid() && phase.Idle? && !Pending(Here()) && !Load(file).Corrupt? && NewRecord(Here(), t)
      modifies this`file, this`phase, this`trace
      ensures Valid() && old(trace) <= trace
      ensures ok ==> phase == Staging(t) && file == Written(t)
      ensures !ok ==> phase == Idle && (file == old(file) || Pending(Here()))
      ensures works ==> ok
    {
      hide Inv, Linked, Clean, KernelAgrees, Step, Load, Current, Recordable, NoControl, Written;
      ghost var w := Here();
      StageIsStep(w, t);
      WrittenLoads(t);
      ok := Ask();
      var landed := Lands(ok);
      if landed {
        file := Written(t);
        if ok {
          phase := Staging(t);
        }
        Advance(w);
      }
    }

    /** Stages a candidate. On success it is journaled as pending with a 60-second deadline and its
        addresses are up beside the committed ones; whatever happens nothing is committed. */
    method Stage(candidate: NetworkConfig) returns (r: Result)
      requires Valid() && phase.Idle? && nextId <= MAX64 && (Validate(candidate) ==> Printable(candidate))
      modifies this`file, this`kernel, this`persistent, this`leases, this`stagedLeases, this`previousLeases
      modifies this`now, this`clock, this`nextId, this`staged, this`phase, this`overtaken, this`trace
      ensures Valid() && old(trace) <= trace && phase == Idle
      ensures r == InvalidCandidate <==> !Validate(candidate)
      ensures r == InvalidCandidate ==> Here() == old(Here())
      ensures r == Ok ==>
                && Pending(Here()) && PairOf(Record(Here())) == Pair(committed, candidate)
                && staged == Some(Pair(committed, candidate)) && Record(Here()).deadline == now + WINDOW
                && (AllStatic(committed) && AllStatic(candidate) ==>
                      kernel == old(kernel) + (Addresses(candidate) - Addresses(committed)))
      ensures Pending(old(Here())) ==> r != Ok && file == old(file)
      ensures r != CorruptJournal
      ensures AllStatic(committed) && AllStatic(candidate) ==>
                && Changes(old(kernel), kernel, Addresses(candidate) - Addresses(committed))
                && (r != Ok && commands && old(kernel) !! Addresses(candidate) - Addresses(committed) ==>
                      kernel == old(kernel))
      ensures works && Pending(old(Here())) && Validate(candidate) ==> r == Busy
      ensures works && !Pending(old(Here())) && !old(overtaken) && Validate(candidate) && AllStatic(committed)
                && AllStatic(candidate)
              && old(kernel) !! Addresses(candidate) - Addresses(committed)
              ==> r == Ok || now == 0 || now + WINDOW > MAX64
    {
      hide Inv, Linked, Clean, KernelAgrees, Step, Load, ParseFlatJson, Printable, Validate, Recordable, Written;
      hide Addresses, AllStatic;
      hide Tracked;
      if !Validate(candidate) {
        return InvalidCandidate;
      }
      var locked := Ask();
      if !locked {
        return Busy;
      }
      var entry, record := OpenStage(candidate);
      if record.None? {
        return entry;
      }
      WrittenLoads(record.value);
      r := Launch(record.value);
    }

    /** The backend's part of staging, undone when it fails. */
    method Launch(t: Transaction) returns (r: Result)
      requires Valid() && phase == Staging(t)
      modifies this`file, this`kernel, this`persistent, this`leases, this`stagedLeases, this`previousLeases
      modifies this`staged, this`phase, this`overtaken, this`trace
      ensures Valid() && old(trace) <= trace && phase == Idle
      ensures r == Ok || r == BackendError || r == StorageError
      ensures r == Ok ==>
                file == old(file) && staged == Some(PairOf(t))
                && (BothStatic(t) ==> kernel == old(kernel) + Fresh(t))
      ensures r != Ok && commands && BothStatic(t) && old(kernel) !! Fresh(t) ==> kernel == old(kernel)
      ensures BothStatic(t) ==> Changes(old(kernel), kernel, Fresh(t))
      ensures works && !old(overtaken) && BothStatic(t) && old(kernel) !! Fresh(t) ==> r == Ok
    {
      hide Inv, Linked, Clean, KernelAgrees, Step, StageGuard, Fresh, BothStatic, Tracked;
      RecordGuard();
      var ok := ApplyStage(t, t.previous, t.candidate);
      if ok {
        r := Ok;
      } else {
        r := Undo(t);
      }
    }

    lemma RecordGuard()
      requires Valid() && phase.Staging?
      ensures !overtaken ==> StageGuard(Here(), phase.t)
    {
      GuardOfNewStage(Here(), phase.t);
    }

    /** A backend call failed: roll back and remove the journal, or leave it for a later rollback. */
    method Undo(t: Transaction) returns (r: Result)
      requires Valid() && phase == Reverting(t, Actor.Daemon)
      modifies this`file, this`kernel, this`persistent, this`leases, this`stagedLeases, this`previousLeases
      modifies this`staged, this`phase, this`overtaken, this`trace
      ensures Valid() && old(trace) <= trace && phase == Idle
      ensures r == BackendError || r == StorageError
      ensures file == None || file == old(file)
      ensures file == None ==> ParseFlatJson(persistent) == Some(t.previous) && (BothStatic(t) ==> kernel !! Fresh(t))
      ensures BothStatic(t) ==> kernel <= old(kernel) && old(kernel) - kernel <= Fresh(t)
    {
      hide Inv, Linked, Clean, KernelAgrees, Step, Load, ParseFlatJson, Fresh, BothStatic, PairGuard;
      UndoKnows(Here());
      var ok := BackendRollback(t, t.previous, t.candidate);
      if ok {
        ok := ClearJournal();
        return if ok then BackendError else StorageError;
      }
      return BackendError;
    }

    method SaveIntent(t: Transaction) returns (ok: bool)
      requires Valid() && phase.Idle? && Load(file) == Loaded.Valid(t) && t.state == State.Staged
      requires clock && boot == t.bootId && 0 < now < t.deadline
      modifies this`file, this`phase, this`trace
      ensures Valid() && old(trace) <= trace
      ensures ok ==> phase == Approving(t.(state := Confirming), Sighting(boot, now))
      ensures !ok ==> phase == Idle
      ensures works ==> ok
    {
      hide Inv, Linked, Clean, KernelAgrees, Step, Load, Written;
      ghost var w := Here();
      IntentIsStep(w);
      var intent := t.(state := Confirming);
      ok := Ask();
      var landed := Lands(ok);
      if landed {
        file := Written(intent);
        if ok {
          phase := Approving(intent, Sighting(boot, now));
        }
        Advance(w);
      }
    }

    /** The write that commits; when it is reported failed the change may or may not be committed. */
    method SaveConfirmed(t: Transaction) returns (ok: bool)
      requires Valid() && phase.Approved? && phase.t == t
      modifies this`file, this`phase, this`committed, this`commits, this`trace
      ensures Valid() && old(trace) <= trace && phase == Idle
      ensures (commits == old(commits) + [Commit(t, old(phase).seen)] && committed == t.candidate && !Pending(Here()))
              || (!ok && commits == old(commits) && committed == old(committed))
      ensures works ==> ok
    {
      hide Inv, Linked, Clean, KernelAgrees, Step, Load, Written, Recordable, Current, ProperBoot, Timely, Tracked;
      KnowsInv();
      ghost var w := Here();
      SettledState(w);
      CommitIsStep(w);
      StateIrrelevant(t, Confirmed);
      WrittenLoads(t.(state := Confirmed));
      ok := Ask();
      var landed := Lands(ok);
      if landed {
        file := Written(t.(state := Confirmed));
        committed, commits := t.candidate, commits + [Commit(t, phase.seen)];
      }
      phase := Idle;
      Advance(w);
    }

    /** The backend's part of a confirmation and the commit that follows it. */
    method Approve(t: Transaction) returns (r: Result)
      requires Valid() && phase.Approving? && phase.t == t
      modifies this`file, this`kernel, this`persistent, this`leases, this`stagedLeases, this`previousLeases
      modifies this`staged, this`phase, this`committed, this`commits, this`overtaken, this`trace
      ensures Valid() && old(trace) <= trace && phase == Idle
      ensures r == Ok || r == BackendError || r == StorageError
      ensures (commits == old(commits) && committed == old(committed))
              || (commits == old(commits) + [Commit(t, old(phase).seen)] && committed == t.candidate)
      ensures r == Ok ==> commits != old(commits) && file == None
      ensures r == Ok && BothStatic(t) ==> kernel == old(kernel) - Stale(t)
      ensures r == BackendError ==> commits == old(commits)
      ensures r == BackendError && commands && BothStatic(t) ==> old(kernel) * Addresses(t.previous) <= kernel
      ensures works && BothStatic(t) && PairGuard(old(staged), PairOf(t)) ==> r == Ok
    {
      hide Inv, Linked, Clean, KernelAgrees, Step, Stale, BothStatic, PairGuard, FileText, Tracked, Pending;
      hide Fresh, Addresses;
      var ok := BackendConfirm(t, t.previous, t.candidate);
      if !ok {
        ghost var failed := kernel;
        r := Undo(t);
        if BothStatic(t) {
          PreviousUntouched(t, failed, kernel);
        }
        return;
      }
      ok := SaveConfirmed(t);
      if ok {
        ok := ClearJournal();
      }
      return if ok then Ok else StorageError;
    }

    /** Confirms the pending change. It is committed only when the clock shows the boot that staged it and
        a time inside the window; otherwise it is rolled back, and the journal is never found corrupt. */
    method Confirm() returns (r: Result)
      requires Valid() && phase.Idle?
      modifies this`file, this`kernel, this`persistent, this`leases, this`stagedLeases, this`previousLeases
      modifies this`now, this`clock, this`staged, this`phase, this`committed, this`commits, this`overtaken, this`trace
      ensures Valid() && old(trace) <= trace && phase == Idle
      ensures (commits == old(commits) && committed == old(committed))
              || CommittedFrom(old(Here()), commits, committed, Sighting(boot, now))
      ensures r == Ok ==> commits != old(commits) && file == None
      ensures r == Expired || r == BootChanged ==>
                Pending(old(Here())) && commits == old(commits) && file == None
                && ParseFlatJson(persistent) == Some(Record(old(Here())).previous)
      ensures r == NoTransaction ==> !Pending(old(Here())) && Here() == old(Here())
      ensures r != CorruptJournal && r != NotDue && r != InvalidCandidate
      ensures r == Ok && BothStatic(Record(old(Here()))) ==>
                var t := Record(old(Here()));
                && kernel == old(kernel) - Stale(t)
                && (Addresses(t.candidate) <= kernel <==> Addresses(t.candidate) <= old(kernel))
      ensures r == BackendError ==> Pending(old(Here())) && commits == old(commits)
      ensures r == BackendError || r == Expired || r == BootChanged ==>
                commands && BothStatic(Record(old(Here()))) ==> old(kernel) * Addresses(committed) <= kernel
      ensures works && !Pending(old(Here())) ==> r == NoTransaction
      ensures works && Pending(old(Here())) && Record(old(Here())).state == Confirming ==> r == Busy
      ensures works && Pending(old(Here())) && Record(old(Here())).state == State.Staged && !old(overtaken)
              && BothStatic(Record(old(Here()))) ==>
                var t := Record(old(Here()));
                r == (if boot != t.bootId then BootChanged else if 0 < now < t.deadline then Ok else Expired)
    {
      hide Inv, Linked, Clean, KernelAgrees, Step, BothStatic, PairGuard, ParseFlatJson, Recordable, Fresh, Stale, Load;
      hide Ordered;
      hide Tracked, Addresses;
      var entry, loaded := StagedRecord();
      if loaded.None? {
        return entry;
      }
      RecordKnown(loaded.value);
      r := ConfirmLoaded(loaded.value);
      CandidateUntouched(loaded.value, old(kernel));
    }

    /** The staged record, if the lock can be had, the journal read and there is one. */
    method StagedRecord() returns (r: Result, record: Option<Transaction>)
      requires Valid()
      ensures r == Ok <==> record.Some?
      ensures record.Some? ==> Load(file) == Loaded.Valid(record.value) && record.value.state == State.Staged
      ensures record.None? ==> r == Busy || r == StorageError || (r == NoTransaction && !Pending(Here()))
      ensures works && Pending(Here()) && Record(Here()).state == State.Staged ==> r == Ok
      ensures works && !Pending(Here()) ==> r == NoTransaction
      ensures works && Pending(Here()) && Record(Here()).state == Confirming ==> r == Busy
    {
      hide Load;
      var locked := Ask();
      if !locked {
        return Busy, None;
      }
      var readable := Ask();
      if !readable {
        return StorageError, None;
      }
      var loaded := Load(file);
      if !PendingRecord(loaded) {
        return NoTransaction, None;
      }
      if loaded.transaction.state == Confirming {
        return Busy, None;
      }
      return Ok, Some(loaded.transaction);
    }

    /** A confirmation of the staged record `t`, decided by the clock. */
    method ConfirmLoaded(t: Transaction) returns (r: Result)
      requires Valid() && phase.Idle? && Load(file) == Loaded.Valid(t) && t.state == State.Staged
      modifies this`file, this`kernel, this`persistent, this`leases, this`stagedLeases, this`previousLeases
      modifies this`now, this`clock, this`staged, this`phase, this`committed, this`commits, this`overtaken, this`trace
      ensures Valid() && old(trace) <= trace && phase == Idle
      ensures r == Ok || r == Expired || r == BootChanged || r == BackendError || r == StorageError
      ensures (commits == old(commits) && committed == old(committed))
              || (commits == old(commits) + [Commit(t.(state := Confirming), Sighting(boot, now))]
                  && committed == t.candidate
                  && Timely(t, Sighting(boot, now)))
      ensures r == Ok ==> commits != old(commits) && file == None
      ensures r == Expired || r == BootChanged ==>
                commits == old(commits) && file == None && ParseFlatJson(persistent) == Some(t.previous)
      ensures works && !old(overtaken) && BothStatic(t) ==>
                r == (if boot != t.bootId then BootChanged else if 0 < now < t.deadline then Ok else Expired)
      ensures r == Ok && BothStatic(t) ==> kernel == old(kernel) - Stale(t)
      ensures r == BackendError ==> commits == old(commits)
      ensures r != Ok && r != StorageError && commands && BothStatic(t) ==>
                old(kernel) * Addresses(t.previous) <= kernel
    {
      hide Inv, Linked, Clean, KernelAgrees, Step, BothStatic, PairGuard, ParseFlatJson, Fresh, Stale, Load, ProperBoot;
      hide Tracked, Printable;
      RecordKnown(t);
      var bootId, time := ReadClock();
      if bootId != t.bootId {
        r := RollbackLoaded(t, BootChanged);
      } else if time == 0 || time >= t.deadline {
        r := RollbackLoaded(t, Expired);
      } else {
        r := ApproveInTime(t);
        return;
      }
      if BothStatic(t) {
        PreviousUntouched(t, old(kernel), kernel);
      }
    }

    /** The confirmation of a record whose clock reading was in time: intent first, then the backend. */
    method ApproveInTime(t: Transaction) returns (r: Result)
      requires Valid() && phase.Idle? && Load(file) == Loaded.Valid(t) && t.state == State.Staged
      requires clock && boot == t.bootId && 0 < now < t.deadline
      modifies this`file, this`kernel, this`persistent, this`leases, this`stagedLeases, this`previousLeases
      modifies this`staged, this`phase, this`committed, this`commits, this`overtaken, this`trace
      ensures Valid() && old(trace) <= trace && phase == Idle
      ensures r == Ok || r == BackendError || r == StorageError
      ensures (commits == old(commits) && committed == old(committed))
              || (commits == old(commits) + [Commit(t.(state := Confirming), Sighting(boot, now))]
                  && committed == t.candidate)
      ensures r == Ok ==> commits != old(commits) && file == None
      ensures r == Ok && BothStatic(t) ==> kernel == old(kernel) - Stale(t)
      ensures r == BackendError ==> commits == old(commits)
      ensures r == BackendError && commands && BothStatic(t) ==> old(kernel) * Addresses(t.previous) <= kernel
      ensures works && BothStatic(t) && PairGuard(old(staged), PairOf(t)) ==> r == Ok
    {
      hide Inv, Linked, Clean, KernelAgrees, Step, BothStatic, PairGuard, Stale, Load, Tracked;
      var ok := SaveIntent(t);
      if !ok {
        return StorageError;
      }
      SamePair(t);
      r := Approve(t.(state := Confirming));
    }

    lemma RecordKnown(t: Transaction)
      requires Valid() && Load(file) == Loaded.Valid(t) && (t.state == State.Staged || t.state == Confirming)
      ensures Ordered(t) && t.bootId != "" && t.previous == committed
      ensures !overtaken ==> PairGuard(staged, PairOf(t))
    {
      hide Inv, Load, PairGuard, Printable;
      SettledState(Here());
      if !overtaken {
        RememberedPasses(Here());
      }
    }

    /** Rolls the pending change back on demand. */
    method RollbackNow() returns (r: Result)
      requires Valid() && phase.Idle?
      modifies this`file, this`kernel, this`persistent, this`leases, this`stagedLeases, this`previousLeases
      modifies this`staged, this`phase, this`overtaken, this`trace
      ensures Valid() && old(trace) <= trace && phase == Idle
      ensures r == Ok ==> Pending(old(Here())) && file == None && ParseFlatJson(persistent) == Some(committed)
      ensures r == Ok && BothStatic(Record(old(Here()))) ==> kernel !! Fresh(Record(old(Here())))
      ensures r == NoTransaction ==> !Pending(old(Here())) && Here() == old(Here())
      ensures works && !Pending(old(Here())) ==> r == NoTransaction
      ensures r != CorruptJournal
      ensures works && !old(overtaken) && Pending(old(Here())) && BothStatic(Record(old(Here()))) ==> r == Ok
    {
      hide Inv, Linked, Clean, KernelAgrees, Step, BothStatic, PairGuard, ParseFlatJson, Fresh, Stale, Load, Tracked;
      hide Ordered;
      var locked := Ask();
      if !locked {
        return Busy;
      }
      var readable := Ask();
      if !readable {
        return StorageError;
      }
      var loaded := Load(file);
      if !PendingRecord(loaded) {
        return NoTransaction;
      }
      RecordKnown(loaded.transaction);
      r := RollbackLoaded(loaded.transaction, Ok);
    }

    /** Rolls a pending change back when it is due: interrupted while confirming, past its deadline, or from
        another boot. A finished change is only removed from the journal. */
    method RollbackIfNeeded() returns (r: Result)
      requires Valid() && phase.Idle?
      modifies this`file, this`kernel, this`persistent, this`leases, this`stagedLeases, this`previousLeases
      modifies this`now, this`clock, this`staged, this`phase, this`overtaken, this`trace
      ensures Valid() && old(trace) <= trace && phase == Idle
      ensures r == NotDue ==>
                && Pending(old(Here())) && Record(old(Here())).state == State.Staged
                    && boot == Record(old(Here())).bootId
                && 0 < now < Record(old(Here())).deadline
                && Here() == old(Here()).(now := now, clock := clock)
      ensures r == Ok || r == Expired || r == BootChanged || r == NoTransaction ==> file == None
      ensures r == Expired || r == BootChanged ==> Pending(old(Here())) && Record(old(Here())).state == State.Staged
      ensures works && Pending(old(Here())) && Record(old(Here())).state == State.Staged ==>
                var t := Record(old(Here()));
                && (r == NotDue <==> boot == t.bootId && 0 < now < t.deadline)
                && (r == BootChanged ==> boot != t.bootId) && (r == Expired ==> boot == t.bootId)
      ensures r != CorruptJournal
      ensures works && !Pending(old(Here())) ==> r == if old(file) == None then NoTransaction else Ok
      ensures works && !old(overtaken) && (Pending(old(Here())) ==> BothStatic(Record(old(Here())))) ==>
                r == NotDue || r == Ok || r == Expired || r == BootChanged || r == NoTransaction
    {
      hide Inv, Linked, Clean, KernelAgrees, Step, BothStatic, PairGuard, ParseFlatJson, Fresh, Stale, Tracked, Ordered;
      hide ParseTransaction;
      JournalSound();
      var locked := Ask();
      if !locked {
        return Busy;
      }
      var readable := Ask();
      if !readable {
        return StorageError;
      }
      var loaded := Load(file);
      if loaded.Absent? {
        return NoTransaction;
      }
      var t := loaded.transaction;
      if !PendingRecord(loaded) {
        var ok := ClearJournal();
        return if ok then Ok else StorageError;
      }
      RecordKnown(t);
      if t.state == Confirming {
        r := RollbackLoaded(t, Ok);
      } else {
        r := RollbackIfDue(t);
      }
    }

    lemma JournalSound()
      requires Valid()
      ensures !Load(file).Corrupt?
    {
      hide Load, Recordable;
      SettledState(Here());
    }

    method RollbackIfDue(t: Transaction) returns (r: Result)
      requires Valid() && phase.Idle? && Load(file) == Loaded.Valid(t) && t.state == State.Staged
      modifies this`file, this`kernel, this`persistent, this`leases, this`stagedLeases, this`previousLeases
      modifies this`now, this`clock, this`staged, this`phase, this`overtaken, this`trace
      ensures Valid() && old(trace) <= trace && phase == Idle
      ensures r == NotDue || r == Expired || r == BootChanged || r == BackendError || r == StorageError
      ensures r == NotDue ==>
                boot == t.bootId && 0 < now < t.deadline
                && Here() == old(Here()).(now := now, clock := clock)
      ensures r == Expired || r == BootChanged ==> file == None
      ensures works ==> (r == NotDue <==> boot == t.bootId && 0 < now < t.deadline)
      ensures works ==> (r == BootChanged ==> boot != t.bootId) && (r == Expired ==> boot == t.bootId)
      ensures works && PairGuard(old(staged), PairOf(t)) && BothStatic(t) ==>
                r == NotDue || r == Expired
                || r == BootChanged
    {
      hide Inv, Linked, Clean, KernelAgrees, Step, BothStatic, PairGuard, ParseFlatJson, Fresh, Stale, Load, Tracked;
      hide Ordered;
      RecordKnown(t);
      var bootId, time := ReadClock();
      if bootId == t.bootId && time != 0 && time < t.deadline {
        return NotDue;
      }
      r := RollbackLoaded(t, if bootId == t.bootId then Expired else BootChanged);
    }

    /** Recovery at start-up. Whatever state a crash left, success means that nothing is pending, the file
        holds the committed configuration, and the kernel holds its addresses and foreign ones only. */
    method RecoverPending() returns (r: Result)
      requires Valid() && phase.Idle?
      modifies this`file, this`kernel, this`persistent, this`leases, this`stagedLeases, this`previousLeases
      modifies this`now, this`clock, this`staged, this`phase, this`overtaken, this`trace
      ensures Valid() && old(trace) <= trace && phase == Idle
      ensures r == Ok || r == Expired || r == BootChanged || r == NoTransaction ==>
                && !Pending(Here()) && ParseFlatJson(persistent) == Some(committed)
                && (AllStatic(committed) ==> Addresses(committed) <= kernel)
                && (AllClean(trace) && KernelAgrees(trace[0]) ==> kernel == foreign + Addresses(committed))
      ensures works && !old(overtaken) && AllStatic(committed)
                && (Pending(old(Here())) ==> AllStatic(Record(old(Here())).candidate)) ==>
                r == NotDue || r == Ok || r == Expired || r == BootChanged || r == NoTransaction
    {
      hide Inv, Linked, Clean, KernelAgrees, Step, ParseFlatJson, Tracked, Addresses, AllStatic, Load;
      StaticPending();
      r := RollbackIfNeeded();
      if r == Ok || r == Expired || r == BootChanged || r == NoTransaction {
        LoadNothing();
        CommittedCurrent();
        var ok := StartRuntime();
        CommittedCurrent();
        if !ok {
          return BackendError;
        }
        KernelSettled();
      }
    }

    lemma StaticPending()
      requires Valid()
      ensures AllStatic(committed) && Pending(Here()) && AllStatic(Record(Here()).candidate) ==>
                BothStatic(Record(Here()))
    {
      hide Load, Recordable, ParseFlatJson;
      SettledState(Here());
    }

    lemma StaticSides()
      requires Valid()
      ensures Pending(Here()) && BothStatic(Record(Here())) ==>
                AllStatic(committed) && AllStatic(Record(Here()).candidate)
    {
      hide Load, Recordable, ParseFlatJson, Inv;
      KnowsInv();
      SettledState(Here());
    }

    lemma CommittedCurrent()
      requires Valid() && !Pending(Here())
      ensures ParseFlatJson(persistent) == Some(committed)
    {
      hide Load, Recordable, ParseFlatJson;
      SettledState(Here());
    }

    lemma KernelSettled()
      requires Valid() && !Pending(Here()) && (AllStatic(committed) ==> Addresses(committed) <= kernel)
      ensures AllClean(trace) && KernelAgrees(trace[0]) ==> kernel == foreign + Addresses(committed)
    {
      hide Load, Recordable, ParseFlatJson, Addresses, Inv, Linked, AllStatic;
      if AllClean(trace) && KernelAgrees(trace[0]) {
        assert Clean(trace[|trace| - 1]);
      }
    }

    /** A stage request: anything that does not parse as a configuration is an invalid candidate. */
    method StageText(text: string) returns (r: Result)
      requires Valid() && phase.Idle? && nextId <= MAX64
      modifies this`file, this`kernel, this`persistent, this`leases, this`stagedLeases, this`previousLeases
      modifies this`now, this`clock, this`nextId, this`staged, this`phase, this`overtaken, this`trace
      ensures Valid() && old(trace) <= trace && phase == Idle
      ensures r == InvalidCandidate <==> ParseFlatJson(text).None?
      ensures r == Ok ==>
                && Pending(Here()) && Record(Here()).candidate == ParseFlatJson(text).value
                && Record(Here()).previous == committed
      ensures works && !Pending(old(Here())) && !old(overtaken) && ParseFlatJson(text).Some? && AllStatic(committed) ==>
                var candidate := ParseFlatJson(text).value;
                AllStatic(candidate) && old(kernel) !! Addresses(candidate) - Addresses(committed) ==>
                  r == Ok || now == 0 || now + WINDOW > MAX64
    {
      hide Inv, Linked, Clean, KernelAgrees, Step, ParseFlatJson, Tracked, Addresses, AllStatic, Load;
      var candidate := ParseFlatJson(text);
      if candidate.None? {
        return InvalidCandidate;
      }
      ParsedIsPrintable(text);
      r := Stage(candidate.value);
    }

    /** A confirm request: once the change is over the configured addresses are put up, so that a reply of
        success means the committed addresses are reachable even when staging never added them. */
    method ConfirmRequest() returns (r: Result)
      requires Valid() && phase.Idle?
      modifies this`file, this`kernel, this`persistent, this`leases, this`stagedLeases, this`previousLeases
      modifies this`now, this`clock, this`staged, this`phase, this`committed, this`commits, this`overtaken, this`trace
      ensures Valid() && old(trace) <= trace && phase == Idle
      ensures (commits == old(commits) && committed == old(committed))
              || CommittedFrom(old(Here()), commits, committed, Sighting(boot, now))
      ensures r == Ok || r == Expired || r == BootChanged ==>
                && file == None && ParseFlatJson(persistent) == Some(committed)
                    && (r == Ok <==> commits != old(commits))
                && (AllStatic(committed) ==> Addresses(committed) <= kernel)
                && (AllClean(trace) && KernelAgrees(trace[0]) ==> kernel == foreign + Addresses(committed))
      ensures r == BackendError && commits == old(commits) ==>
                && Pending(old(Here()))
                && (commands && BothStatic(Record(old(Here()))) ==> old(kernel) * Addresses(committed) <= kernel)
      ensures works && Pending(old(Here())) && Record(old(Here())).state == State.Staged && !old(overtaken)
              && BothStatic(Record(old(Here()))) ==>
                var t := Record(old(Here()));
                r == (if boot != t.bootId then BootChanged else if 0 < now < t.deadline then Ok else Expired)
    {
      hide Inv, Linked, Clean, KernelAgrees, Step, ParseFlatJson, Tracked, Addresses, AllStatic, Load, BothStatic;
      StaticSides();
      r := Confirm();
      if r == Ok || r == Expired || r == BootChanged {
        LoadNothing();
        CommittedCurrent();
        var ok := StartRuntime();
        CommittedCurrent();
        if !ok {
          return BackendError;
        }
        KernelSettled();
      }
    }

    /** A rollback request, likewise. */
    method RollbackRequest() returns (r: Result)
      requires Valid() && phase.Idle?
      modifies this`file, this`kernel, this`persistent, this`leases, this`stagedLeases, this`previousLeases
      modifies this`staged, this`phase, this`overtaken, this`trace
      ensures Valid() && old(trace) <= trace && phase == Idle
      ensures r == Ok ==>
                && Pending(old(Here())) && file == None && ParseFlatJson(persistent) == Some(committed)
                && (AllStatic(committed) ==> Addresses(committed) <= kernel)
                && (AllClean(trace) && KernelAgrees(trace[0]) ==> kernel == foreign + Addresses(committed))
      ensures works && !old(overtaken) && Pending(old(Here())) && BothStatic(Record(old(Here()))) ==> r == Ok
    {
      hide Inv, Linked, Clean, KernelAgrees, Step, ParseFlatJson, Tracked, Addresses, AllStatic, Load, BothStatic;
      StaticSides();
      r := RollbackNow();
      if r == Ok {
        LoadNothing();
        CommittedCurrent();
        var ok := StartRuntime();
        CommittedCurrent();
        if !ok {
          return BackendError;
        }
        KernelSettled();
      }
    }
  }
}
