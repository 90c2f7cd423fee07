/** The journaled network change as a step machine: stage, confirm inside the window or roll back, with
    crashes and reboots between any two steps and failed writes that may have taken effect. Two processes
    share the files under one lock: the daemon, which remembers what it staged, and the recovery tool. */
module NetworkProtocol {
  import opened Wrappers
  import opened Text
  import opened NetworkConfig
  import opened Journal

  const WINDOW: nat := 60_000_000_000

  /** Interface index and "address/prefix". */
  type Address = (nat, string)

  function AddressOf(c: InterfaceConfig): string { c.address + "/" + Decimal(c.prefix) }

  function Addresses(c: NetworkConfig): set<Address> { {(0, AddressOf(c.eth0)), (1, AddressOf(c.eth1))} }

  predicate AllStatic(c: NetworkConfig) { c.eth0.mode == Mode.Static && c.eth1.mode == Mode.Static }

  datatype Pair = Pair(previous: NetworkConfig, candidate: NetworkConfig)

  function PairOf(t: Transaction): Pair { Pair(t.previous, t.candidate) }

  datatype Actor = Daemon | Recovery

  /** What a confirmation read from the clock. */
  datatype Sighting = Sighting(boot: string, now: nat)

  /** Where the lock holder stands, with the record it holds in memory. `Idle` when nobody holds the lock. */
  datatype Phase =
    | Idle
    | Staging(t: Transaction)
    | Approving(t: Transaction, seen: Sighting)
    | Approved(t: Transaction, seen: Sighting)
    | Reverting(t: Transaction, actor: Actor)
    | Reverted(t: Transaction, actor: Actor)

  datatype Commit = Commit(t: Transaction, seen: Sighting)

  /** `file` is the journal and `persistent` the configuration file; `clock` says whether boot id and time
      could both be read when last asked for; `staged` is the daemon's memory.
      The last four are history: the configuration in force by commitment, how it came about, addresses
      nobody here manages, and whether the other process settled a change the daemon still remembers. */
  datatype World = World(
    file: Option<string>, persistent: string, kernel: set<Address>, boot: string, now: nat, clock: bool,
    staged: Option<Pair>, phase: Phase,
    committed: NetworkConfig, commits: seq<Commit>, foreign: set<Address>, overtaken: bool)

  // ----- Reading a world -----

  function Current(w: World): Option<NetworkConfig> { ParseFlatJson(w.persistent) }

  predicate PendingRecord(l: Loaded) {
    l.Valid? && (l.transaction.state == State.Staged || l.transaction.state == Confirming)
  }

  predicate Pending(w: World) { PendingRecord(Load(w.file)) }

  function Record(w: World): Transaction
    requires Pending(w)
  {
    Load(w.file).transaction
  }

  function Fresh(t: Transaction): set<Address> { Addresses(t.candidate) - Addresses(t.previous) }

  function Stale(t: Transaction): set<Address> { Addresses(t.previous) - Addresses(t.candidate) }

  predicate BothStatic(t: Transaction) { AllStatic(t.previous) && AllStatic(t.candidate) }

  predicate ProperBoot(boot: string) { boot != "" && NoControl(boot) && |boot| <= 256 }

  /** The first check of `apply_stage`. */
  predicate StageGuard(w: World, t: Transaction) {
    w.staged.None? && Validate(t.previous) && Validate(t.candidate)
  }

  /** The first check of the backend's `confirm` and `rollback`. */
  predicate PairGuard(staged: Option<Pair>, p: Pair) {
    && Validate(p.previous) && Validate(p.candidate)
    && (staged.Some? ==>
          && ToFlatJson(staged.value.previous) == ToFlatJson(p.previous)
          && ToFlatJson(staged.value.candidate) == ToFlatJson(p.candidate))
  }

  /** The recovery tool has staged nothing itself. */
  predicate RevertGuard(w: World, t: Transaction, a: Actor) {
    PairGuard(if a == Daemon then w.staged else None, PairOf(t))
  }

  // ----- Steps -----

  predicate NewRecord(w: World, t: Transaction) {
    && Recordable(t) && t.state == State.Staged && Current(w) == Some(t.previous)
    && t.bootId == w.boot && t.staged == w.now > 0 && t.deadline == t.staged + WINDOW
  }

  function Written(t: Transaction): Option<string> { Some(TransactionJson(t)) }

  /** The journal record of a new change; the write may be reported failed although it took effect. */
  predicate Stage(w: World, v: World) {
    && w.phase.Idle? && !Pending(w) && !Load(w.file).Corrupt?
    && (v.phase.Staging? || PendingRecord(Load(v.file)))
    && var t := if v.phase.Staging? then v.phase.t else Load(v.file).transaction;
       NewRecord(w, t) && v == w.(file := Written(t), phase := if v.phase.Staging? then Staging(t) else Idle)
  }

  predicate Changes(k: set<Address>, l: set<Address>, a: set<Address>) { k - l <= a && l - k <= a }

  /** Address commands and configuration writes of a backend call whose guard let it through. */
  predicate Effect(w: World, v: World) {
    && v == w.(kernel := v.kernel, persistent := v.persistent)
    && match w.phase
       case Staging(t) =>
         && StageGuard(w, t) && v.persistent == w.persistent
         && (BothStatic(t) ==> Changes(w.kernel, v.kernel, Fresh(t)))
       case Approving(t, _) =>
         && PairGuard(w.staged, PairOf(t)) && (Current(v) == Some(t.previous) || Current(v) == Some(t.candidate))
         && (BothStatic(t) ==> Changes(w.kernel, v.kernel, Stale(t)))
       case Reverting(t, a) =>
         && RevertGuard(w, t, a)
         && (Current(v) == Some(t.previous) || (t.state == Confirming && Current(v) == Some(t.candidate)))
         && (BothStatic(t) ==> v.kernel <= w.kernel && w.kernel - v.kernel <= Fresh(t))
       case _ => false
  }

  predicate StageDone(w: World, v: World) {
    && w.phase.Staging?
    && var t := w.phase.t;
       || (StageGuard(w, t) && (BothStatic(t) ==> Fresh(t) <= w.kernel)
           && v == w.(staged := Some(PairOf(t)), phase := Idle))
       || v == w.(phase := Reverting(t, Daemon))
  }

  /** Confirmation read the clock in time and journals its intent. */
  predicate BeginConfirm(w: World, v: World) {
    && w.phase.Idle? && Pending(w) && Record(w).state == State.Staged
    && w.clock && w.boot == Record(w).bootId && 0 < w.now < Record(w).deadline
    && var t := Record(w).(state := Confirming);
       v == w.(file := Written(t), phase := if v.phase.Idle? then Idle else Approving(t, Sighting(w.boot, w.now)))
  }

  predicate ConfirmDone(w: World, v: World) {
    && w.phase.Approving?
    && var t := w.phase.t;
       || (PairGuard(w.staged, PairOf(t)) && Current(w) == Some(t.candidate) && (BothStatic(t) ==> w.kernel !! Stale(t))
           && v == w.(staged := None, overtaken := false, phase := Approved(t, w.phase.seen)))
       || v == w.(phase := Reverting(t, Daemon))
  }

  /** The change is durable once the journal says confirmed. */
  predicate CommitChange(w: World, v: World) {
    && w.phase.Approved?
    && var t := w.phase.t;
       v == w.(file := Written(t.(state := Confirmed)), phase := Idle, committed := t.candidate,
               commits := w.commits + [Commit(t, w.phase.seen)])
  }

  /** When `rollback_if_needed` acts: confirmation was interrupted, the record is from another boot or past
      its deadline, or the clock cannot be read. */
  predicate Due(w: World)
    requires Pending(w)
  {
    var t := Record(w);
    t.state == Confirming || !w.clock || w.boot != t.bootId || w.now == 0 || w.now >= t.deadline
  }

  /** The daemon also rolls back on demand; the recovery tool only what is due. */
  predicate BeginRevert(w: World, v: World) {
    && w.phase.Idle? && Pending(w) && v.phase.Reverting? && v == w.(phase := Reverting(Record(w), v.phase.actor))
    && (v.phase.actor == Recovery ==> Due(w))
  }

  predicate RevertDone(w: World, v: World) {
    && w.phase.Reverting?
    && var t, a := w.phase.t, w.phase.actor;
       && RevertGuard(w, t, a) && Current(w) == Some(t.previous) && (BothStatic(t) ==> w.kernel !! Fresh(t))
       && v == (if a == Daemon then w.(staged := None, overtaken := false, phase := Reverted(t, a))
                else w.(phase := Reverted(t, a)))
  }

  /** The journal stops naming the change: marked rolled back, or removed. */
  predicate SettleRevert(w: World, v: World) {
    && w.phase.Reverted?
    && (v.file == None || v.file == Written(w.phase.t.(state := RolledBack)))
    && v == w.(file := v.file, phase := Idle,
               overtaken := w.overtaken || (w.phase.actor == Recovery && w.staged.Some?))
  }

  /** An operation returns with an error from wherever it stands. */
  predicate GiveUp(w: World, v: World) { v == w.(phase := Idle) && !w.phase.Staging? && !w.phase.Approving? }

  predicate ClearSettled(w: World, v: World) {
    w.phase.Idle? && !Pending(w) && !Load(w.file).Corrupt? && v == w.(file := None)
  }

  predicate ByRecovery(p: Phase) { (p.Reverting? || p.Reverted?) && p.actor == Recovery }

  predicate CrashDaemon(w: World, v: World) {
    v == w.(staged := None, overtaken := false, phase := if ByRecovery(w.phase) then w.phase else Idle)
  }

  predicate CrashRecovery(w: World, v: World) { ByRecovery(w.phase) && v == w.(phase := Idle) }

  /** Addresses the configurations in play account for. */
  function Managed(w: World): set<Address> {
    Addresses(w.committed) + (if Pending(w) then Addresses(Record(w).candidate) else {})
  }

  predicate Reboot(w: World, v: World) {
    && ProperBoot(v.boot) && v.foreign <= v.kernel <= v.foreign + Managed(w)
    && v == w.(kernel := v.kernel, boot := v.boot, now := v.now, clock := v.clock, staged := None, phase := Idle,
               foreign := v.foreign, overtaken := false)
  }

  predicate Tick(w: World, v: World) { v.now >= w.now && v == w.(now := v.now, clock := v.clock) }

  /** `start_runtime` puts configured addresses back, all of them when it succeeds. */
  predicate StartRuntime(w: World, v: World) {
    && w.phase.Idle? && Current(w).Some? && v == w.(kernel := v.kernel)
    && (AllStatic(Current(w).value) ==> w.kernel <= v.kernel <= w.kernel + Addresses(Current(w).value))
  }

  /** Everything that can happen within one boot. */
  predicate Ordinary(w: World, v: World) {
    || v == w || Stage(w, v) || Effect(w, v) || StageDone(w, v) || BeginConfirm(w, v) || ConfirmDone(w, v)
    || CommitChange(w, v) || BeginRevert(w, v) || RevertDone(w, v) || SettleRevert(w, v) || GiveUp(w, v)
    || ClearSettled(w, v) || CrashDaemon(w, v) || CrashRecovery(w, v) || Tick(w, v) || StartRuntime(w, v)
  }

  predicate Step(w: World, v: World) { Ordinary(w, v) || Reboot(w, v) }

  // ----- The invariant -----

  predicate Timely(t: Transaction, seen: Sighting) {
    t.deadline == t.staged + WINDOW && seen.boot == t.bootId && 0 < seen.now < t.deadline
  }

  predicate Ordered(t: Transaction) { t.deadline == t.staged + WINDOW }

  /** The journal can always be read, and with the configuration file it determines the committed state. */
  predicate FilesAgree(w: World) {
    && !Load(w.file).Corrupt?
    && (Load(w.file).Valid? ==> Recordable(Load(w.file).transaction) && Ordered(Load(w.file).transaction))
    && Current(w).Some? && ProperBoot(w.boot)
    && (!Pending(w) ==> Current(w) == Some(w.committed))
    && (Pending(w) ==>
          && Record(w).previous == w.committed
          && (Current(w) == Some(Record(w).previous)
              || (Record(w).state == Confirming && Current(w) == Some(Record(w).candidate))))
  }

  /** The record in memory is the one in the journal. */
  predicate PhaseAgrees(w: World) {
    match w.phase
    case Idle => true
    case Staging(t) => Load(w.file) == Valid(t) && t.state == State.Staged
    case Approving(t, seen) => Load(w.file) == Valid(t) && t.state == Confirming && Timely(t, seen)
    case Approved(t, seen) =>
      && Load(w.file) == Valid(t) && t.state == Confirming && Timely(t, seen) && Current(w) == Some(t.candidate)
      && w.staged.None?
    case Reverting(t, _) => Load(w.file) == Valid(t) && Pending(w)
    case Reverted(t, a) =>
      Load(w.file) == Valid(t) && Pending(w) && Current(w) == Some(t.previous) && (a == Daemon ==> w.staged.None?)
  }

  /** What the daemon remembers is what the journal says, unless it was overtaken. */
  predicate MemoryAgrees(w: World) {
    && (w.staged.Some? ==> Printable(w.staged.value.previous) && Printable(w.staged.value.candidate))
    && if w.overtaken then w.staged.Some?
    else
      && (w.staged.Some? ==> Pending(w) && PairOf(Record(w)) == w.staged.value)
      && (w.phase.Staging? ==> w.staged.None?)
  }

  predicate HistoryAgrees(w: World) {
    && (forall i | 0 <= i < |w.commits| :: Timely(w.commits[i].t, w.commits[i].seen))
    && (forall i | 0 < i < |w.commits| :: w.commits[i].t.previous == w.commits[i - 1].t.candidate)
    && (w.commits != [] ==> w.committed == w.commits[|w.commits| - 1].t.candidate)
  }

  predicate Inv(w: World) { FilesAgree(w) && PhaseAgrees(w) && MemoryAgrees(w) && HistoryAgrees(w) }

  // ----- Every step keeps it -----

  lemma WrittenLoads(t: Transaction)
    requires Recordable(t)
    ensures Load(Written(t)) == Valid(t)
  {
    hide HeaderOk, Printable, TransactionJson, Load;
    JournalRoundTrip(t);
  }

  lemma StateIrrelevant(t: Transaction, s: State)
    requires Recordable(t)
    ensures Recordable(t.(state := s))
  {
    hide Printable;
  }

  lemma KeepStage(w: World, v: World)
    requires Inv(w) && Stage(w, v)
    ensures Inv(v)
  {
    hide Load, Recordable, Printable, ParseFlatJson, TransactionJson, Written, NoControl;
    var t := if v.phase.Staging? then v.phase.t else Load(v.file).transaction;
    WrittenLoads(t);
  }

  lemma KeepEffect(w: World, v: World)
    requires Inv(w) && Effect(w, v)
    ensures Inv(v)
  {
    hide Load, Recordable, Printable, ParseFlatJson, NoControl, Validate, ToFlatJson, Fresh, Stale;
  }

  lemma KeepStageDone(w: World, v: World)
    requires Inv(w) && StageDone(w, v)
    ensures Inv(v)
  {
    hide Load, HeaderOk, Printable, ParseFlatJson, NoControl, Validate, Fresh;
  }

  lemma KeepBeginConfirm(w: World, v: World)
    requires Inv(w) && BeginConfirm(w, v)
    ensures Inv(v)
  {
    hide Load, Recordable, Printable, ParseFlatJson, TransactionJson, Written, NoControl;
    var t := Record(w).(state := Confirming);
    StateIrrelevant(Record(w), Confirming);
    WrittenLoads(t);
  }

  lemma KeepConfirmDone(w: World, v: World)
    requires Inv(w) && ConfirmDone(w, v)
    ensures Inv(v)
  {
    hide Load, Recordable, Printable, ParseFlatJson, NoControl, Validate, ToFlatJson, Stale;
  }

  lemma KeepCommit(w: World, v: World)
    requires Inv(w) && CommitChange(w, v)
    ensures Inv(v)
  {
    hide Load, Recordable, Printable, ParseFlatJson, TransactionJson, Written, NoControl;
    var t := w.phase.t;
    StateIrrelevant(t, Confirmed);
    WrittenLoads(t.(state := Confirmed));
  }

  lemma KeepRevert(w: World, v: World)
    requires Inv(w) && (BeginRevert(w, v) || RevertDone(w, v))
    ensures Inv(v)
  {
    hide Load, Recordable, Printable, ParseFlatJson, NoControl, Validate, ToFlatJson, Fresh;
  }

  lemma LoadNothing()
    ensures Load(None) == Absent
  {
  }

  lemma KeepSettle(w: World, v: World)
    requires Inv(w) && SettleRevert(w, v)
    ensures Inv(v)
  {
    hide Load, Recordable, Printable, ParseFlatJson, TransactionJson, Written, NoControl;
    var t := w.phase.t;
    LoadNothing();
    StateIrrelevant(t, RolledBack);
    WrittenLoads(t.(state := RolledBack));
  }

  lemma KeepClear(w: World, v: World)
    requires Inv(w) && ClearSettled(w, v)
    ensures Inv(v)
  {
    hide Load, Recordable, Printable, ParseFlatJson, NoControl;
    LoadNothing();
  }

  lemma KeepOther(w: World, v: World)
    requires Inv(w)
    requires v == w || GiveUp(w, v) || CrashDaemon(w, v) || CrashRecovery(w, v) || Reboot(w, v) || Tick(w, v)
              || StartRuntime(w, v)
    ensures Inv(v)
  {
    hide Load, Recordable, Printable, ParseFlatJson, NoControl, Addresses;
  }

  lemma StepKeepsInv(w: World, v: World)
    requires Inv(w) && Step(w, v)
    ensures Inv(v)
  {
    hide Inv, Stage, Effect, StageDone, BeginConfirm, ConfirmDone, CommitChange, BeginRevert, RevertDone, SettleRevert;
    hide GiveUp;
    hide ClearSettled, CrashDaemon, CrashRecovery, Reboot, Tick, StartRuntime;
    if Stage(w, v) {
      KeepStage(w, v);
    } else if Effect(w, v) {
      KeepEffect(w, v);
    } else if StageDone(w, v) {
      KeepStageDone(w, v);
    } else if BeginConfirm(w, v) {
      KeepBeginConfirm(w, v);
    } else if ConfirmDone(w, v) {
      KeepConfirmDone(w, v);
    } else if CommitChange(w, v) {
      KeepCommit(w, v);
    } else if BeginRevert(w, v) || RevertDone(w, v) {
      KeepRevert(w, v);
    } else if SettleRevert(w, v) {
      KeepSettle(w, v);
    } else if ClearSettled(w, v) {
      KeepClear(w, v);
    } else {
      KeepOther(w, v);
    }
  }
}
