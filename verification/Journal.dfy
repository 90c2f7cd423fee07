/** The write-ahead record of a network change and its file form. */
module Journal {
  import opened Wrappers
  import opened Text
  import opened FlatJson
  import opened NetworkConfig
  import JsonReader

  datatype State = Staged | Confirming | Confirmed | RolledBack

  datatype Transaction = Transaction(
    id: nat, bootId: string, staged: nat, deadline: nat, state: State,
    previous: NetworkConfig, candidate: NetworkConfig)

  function StateName(s: State): string {
    match s
    case Staged => "staged"
    case Confirming => "confirming"
    case Confirmed => "confirmed"
    case RolledBack => "rolled_back"
  }

  function StateFrom(name: string): Option<State> {
    if name == "staged" then Some(Staged)
    else if name == "confirming" then Some(Confirming)
    else if name == "confirmed" then Some(Confirmed)
    else if name == "rolled_back" then Some(RolledBack)
    else None
  }

  const JOURNAL_SCHEMA: Schema := [
    Slot("version", Number(1, 1)), Slot("id", Number(1, MAX64)), Slot("boot_id", Words(true)),
    Slot("staged_boottime_ns", Number(0, MAX64)), Slot("deadline_boottime_ns", AtLeast("staged_boottime_ns")),
    Slot("state", Words(false)), Slot("previous", Nested), Slot("candidate", Nested)]

  const JOURNAL_DIALECT := Plainly(true)

  const JOURNAL_STYLE := Style("", "", "", "", "\n")

  const MAX_JOURNAL_BYTES: nat := 65536

  function RecordEntries(t: Transaction): (es: seq<Entry>)
    ensures |es| == |JOURNAL_SCHEMA|
  {
    [Entry("version", Num(1)), Entry("id", Num(t.id)), Entry("boot_id", Str(t.bootId)),
     Entry("staged_boottime_ns", Num(t.staged)), Entry("deadline_boottime_ns", Num(t.deadline)),
     Entry("state", Str(StateName(t.state))), Entry("previous", Obj(ToFlatJson(t.previous))),
     Entry("candidate", Obj(ToFlatJson(t.candidate)))]
  }

  function TransactionJson(t: Transaction): string { PrintObject(JOURNAL_STYLE, RecordEntries(t)) }

  function ObjectOf(f: Fields, key: string): string { if key in f && f[key].Obj? then f[key].json else "" }

  /** All eight members present, a known state, two configurations that parse. */
  function TransactionFrom(f: Fields): Option<Transaction> {
    var state := StateFrom(TextOf(f, "state"));
    var previous, candidate := ParseFlatJson(ObjectOf(f, "previous")), ParseFlatJson(ObjectOf(f, "candidate"));
    if (exists i | 0 <= i < |JOURNAL_SCHEMA| :: JOURNAL_SCHEMA[i].key !in f) || state.None? || previous.None?
        || candidate.None? then None
    else Some(Transaction(
      NumberOf(f, "id", 0), TextOf(f, "boot_id"), NumberOf(f, "staged_boottime_ns", 0),
      NumberOf(f, "deadline_boottime_ns", 0), state.value, previous.value, candidate.value))
  }

  function ParseTransaction(s: string): Option<Transaction> {
    var f := ParseObject(JOURNAL_DIALECT, JOURNAL_SCHEMA, s);
    if f.None? then None else TransactionFrom(f.value)
  }

  datatype Loaded = Absent | Valid(transaction: Transaction) | Corrupt

  /** What the store makes of the file, or of its absence. */
  function Load(file: Option<string>): Loaded {
    match file
    case None => Absent
    case Some(s) =>
      if |s| > MAX_JOURNAL_BYTES then Corrupt
      else
        var t := ParseTransaction(s);
        if t.None? then Corrupt else Valid(t.value)
  }

  // ----- The record read back -----

  /** The part of a record the manager makes itself. */
  predicate HeaderOk(t: Transaction) {
    && 1 <= t.id <= MAX64 && t.bootId != "" && NoControl(t.bootId) && |t.bootId| <= 256
    && t.staged <= t.deadline <= MAX64
  }

  predicate Recordable(t: Transaction) { HeaderOk(t) && Printable(t.previous) && Printable(t.candidate) }

  lemma StateRoundTrip(s: State)
    ensures StateFrom(StateName(s)) == Some(s) && NoControl(StateName(s)) && |StateName(s)| <= 11
  {
  }

  /** The key lengths, with the first letters of the two keys of equal length. */
  lemma JournalKeyShape()
    ensures var k := JOURNAL_SCHEMA;
            && |k| == 8 && |k[0].key| == 7 && k[0].key[0] == 'v' && |k[1].key| == 2 && |k[2].key| == 7
                && k[2].key[0] == 'b'
            && |k[3].key| == 18 && |k[4].key| == 20 && |k[5].key| == 5 && |k[6].key| == 8 && |k[7].key| == 9
  {
  }

  lemma JournalKeysDistinct()
    ensures DistinctSlots(JOURNAL_SCHEMA)
  {
    hide JOURNAL_SCHEMA;
    JournalKeyShape();
  }

  lemma JournalKeysPlain()
    ensures forall i | 0 <= i < |JOURNAL_SCHEMA| :: NoControl(JOURNAL_SCHEMA[i].key) && |JOURNAL_SCHEMA[i].key| <= 20
  {
  }

  lemma ConfigSelfDelimiting(c: NetworkConfig)
    ensures SelfDelimiting(ToFlatJson(c))
  {
    hide SelfDelimiting, PrintObject;
    var es := Entries(c);
    forall i | 0 <= i < |es| ensures !es[i].value.Obj? {
      EntryAt(c, if i < FIELD_COUNT then i else i - FIELD_COUNT);
    }
    PrintedIsSelfDelimiting(es);
  }

  lemma RecordKeys(t: Transaction)
    ensures forall i | 0 <= i < |RecordEntries(t)| :: RecordEntries(t)[i].key == JOURNAL_SCHEMA[i].key
  {
    hide ToFlatJson, StateName;
  }

  lemma RecordDistinct(t: Transaction)
    ensures Distinct(RecordEntries(t))
    ensures forall i | 0 <= i < |RecordEntries(t)| :: RecordEntries(t)[i].key == JOURNAL_SCHEMA[i].key
  {
    hide RecordEntries;
    RecordKeys(t);
    JournalKeysDistinct();
    var es, keys := RecordEntries(t), JOURNAL_SCHEMA;
    forall i, j | 0 <= i < j < |es| ensures es[i].key != es[j].key {
      assert keys[i].key != keys[j].key;
    }
  }

  lemma StagedBeforeDeadline(t: Transaction)
    ensures Floor(Applied(RecordEntries(t)[..4]), "staged_boottime_ns") == t.staged
  {
    hide Applied;
    RecordDistinct(t);
    var es := RecordEntries(t)[..4];
    AppliedGet(es, 3);
  }

  lemma RecordAligned(t: Transaction)
    requires HeaderOk(t)
    ensures Aligned(JOURNAL_SCHEMA, RecordEntries(t))
  {
    hide Applied, ToFlatJson, SelfDelimiting, NoControl, Floor;
    JournalKeysPlain();
    RecordDistinct(t);
    StateRoundTrip(t.state);
    StagedBeforeDeadline(t);
    ConfigSelfDelimiting(t.previous);
    ConfigSelfDelimiting(t.candidate);
  }

  lemma JournalReaderFaithful()
    ensures Faithful(JOURNAL_DIALECT)
  {
    forall v: string, rest: string | NoControl(v) && |v| <= 256
      ensures JOURNAL_DIALECT.readString(Quoted(v) + rest) == Some((v, rest))
    {
      ReadStringQuoted(v, rest);
    }
  }

  /** A printed record parses to the fields it was printed from, whatever its configurations. */
  lemma RecordFields(t: Transaction)
    requires HeaderOk(t)
    ensures ParseObject(JOURNAL_DIALECT, JOURNAL_SCHEMA, TransactionJson(t)) == Some(Applied(RecordEntries(t)))
  {
    hide RecordEntries, PrintObject, Aligned, AllFit, Faithful, ParseObject;
    JournalReaderFaithful();
    RecordAligned(t);
    JournalKeysDistinct();
    AlignedFits(JOURNAL_SCHEMA, RecordEntries(t));
    assert Spaced(JOURNAL_DIALECT, JOURNAL_STYLE);
    ParsePrinted(JOURNAL_DIALECT, JOURNAL_SCHEMA, JOURNAL_STYLE, RecordEntries(t));
  }

  /** Exactly the two embedded configurations decide whether a record can be parsed again. */
  lemma ParseRecord(t: Transaction)
    requires HeaderOk(t)
    ensures ParseTransaction(TransactionJson(t)) ==
            (var p, c := ParseFlatJson(ToFlatJson(t.previous)), ParseFlatJson(ToFlatJson(t.candidate));
             if p.None? || c.None? then None else Some(t.(previous := p.value, candidate := c.value)))
  {
    hide TransactionJson, ParseObject, ParseFlatJson, ToFlatJson, Applied, NoControl;
    RecordFields(t);
    RecordDistinct(t);
    StateRoundTrip(t.state);
    var es := RecordEntries(t);
    var f := Applied(es);
    forall i | 0 <= i < 8 ensures es[i].key in f && f[es[i].key] == es[i].value {
      AppliedGet(es, i);
    }
    assert es[0].key in f && es[1].key in f && es[2].key in f && es[3].key in f;
    assert es[4].key in f && es[5].key in f && es[6].key in f && es[7].key in f;
  }

  lemma RecordMemberShort(t: Transaction, i: nat)
    requires Recordable(t) && i < 8
    ensures |PrintMember(JOURNAL_STYLE, RecordEntries(t)[i])| <= 4100
  {
    hide ToFlatJson, Printable, Decimal, Escape;
    var e := RecordEntries(t)[i];
    JournalKeysPlain();
    RecordKeys(t);
    EscapeLength(e.key);
    match e.value
    case Str(text) =>
      StateRoundTrip(t.state);
      EscapeLength(text);
    case Num(n) => DecimalShort(n);
    case Obj(_) =>
      FlatJsonShort(t.previous);
      FlatJsonShort(t.candidate);
  }

  lemma RecordShort(t: Transaction)
    requires Recordable(t)
    ensures |TransactionJson(t)| <= MAX_JOURNAL_BYTES
  {
    hide PrintMember, RecordEntries, Recordable, PrintMembers;
    var es := RecordEntries(t);
    forall i | 0 <= i < |es| ensures |PrintMember(JOURNAL_STYLE, es[i])| <= 4100 {
      RecordMemberShort(t, i);
    }
    MembersLength(JOURNAL_STYLE, es, 4100);
  }

  /** Every record with a proper header is read back equal exactly when both configurations are printable. */
  lemma JournalRoundTrip(t: Transaction)
    requires HeaderOk(t)
    ensures Load(Some(TransactionJson(t))) == Valid(t) <==> Printable(t.previous) && Printable(t.candidate)
  {
    hide HeaderOk, TransactionJson, ParseTransaction, ParseFlatJson, ToFlatJson, Printable;
    ParseRecord(t);
    FlatRoundTripIff(t.previous);
    FlatRoundTripIff(t.candidate);
    if Printable(t.previous) && Printable(t.candidate) {
      RecordShort(t);
    }
  }

  /** Whatever the file holds, a record that loads carries printable configurations and a usable header. */
  lemma LoadedIsSound(file: Option<string>)
    requires Load(file).Valid?
    ensures var t := Load(file).transaction;
            Printable(t.previous) && Printable(t.candidate) && 1 <= t.id <= MAX64 && t.bootId != ""
  {
    hide ParseMembers, ParseFlatJson, Printable, KindOf, StateFrom;
    var s := file.value;
    var f := ParseObject(JOURNAL_DIALECT, JOURNAL_SCHEMA, s).value;
    ParseTyped(JOURNAL_DIALECT, JOURNAL_SCHEMA, Skip(s)[1..], map[]);
    ParsedIsPrintable(ObjectOf(f, "previous"));
    ParsedIsPrintable(ObjectOf(f, "candidate"));
    JournalKeysDistinct();
    KindOfSlot(JOURNAL_SCHEMA, 1);
    KindOfSlot(JOURNAL_SCHEMA, 2);
    assert JOURNAL_SCHEMA[1].key in f && JOURNAL_SCHEMA[2].key in f;
  }

  /** A record of valid configurations either loads back equal or is refused as corrupt. */
  lemma ValidRecordVerdict(t: Transaction)
    requires HeaderOk(t) && Validate(t.previous) && Validate(t.candidate)
    ensures Load(Some(TransactionJson(t)))
            == if Printable(t.previous) && Printable(t.candidate) then Valid(t) else Corrupt
  {
    hide HeaderOk, TransactionJson, ParseTransaction, ParseFlatJson, ToFlatJson, Printable, Validate;
    ParseRecord(t);
    ValidRoundTrip(t.previous);
    ValidRoundTrip(t.candidate);
    JournalRoundTrip(t);
  }

  /** Such records exist: whatever the header and the valid previous configuration, staging either of two
      valid candidates, static with a zero timeout or DHCP with a zero prefix, writes a corrupt journal. */
  lemma UnprintableIsCorrupt(t: Transaction)
    requires HeaderOk(t) && Validate(t.previous)
    ensures Validate(ZeroTimeout()) && Load(Some(TransactionJson(t.(candidate := ZeroTimeout())))) == Corrupt
    ensures Validate(ZeroPrefix()) && Load(Some(TransactionJson(t.(candidate := ZeroPrefix())))) == Corrupt
  {
    hide NoControl, TransactionJson, Load, Printable, Validate, ZeroTimeout, ZeroPrefix;
    ValidButUnprintable();
    ValidRecordVerdict(t.(candidate := ZeroTimeout()));
    ValidRecordVerdict(t.(candidate := ZeroPrefix()));
  }

  /** Loading as the program runs it: the member loop, then both embedded configurations. */
  method LoadJournal(file: Option<string>) returns (l: Loaded)
    ensures l == Load(file)
  {
    if file.None? {
      return Absent;
    }
    if |file.value| > MAX_JOURNAL_BYTES {
      return Corrupt;
    }
    JsonReader.SchemaIsPlain(JOURNAL_SCHEMA);
    hide JOURNAL_SCHEMA, TransactionFrom;
    var fields := JsonReader.ParseObjectText(JOURNAL_SCHEMA, true, file.value);
    var t := if fields.None? then None else TransactionFrom(fields.value);
    l := if t.None? then Corrupt else Valid(t.value);
  }
}
