/** The versioned configuration store: values, their JSON file, and compare-and-swap updates. */
module ConfigStore {
  import opened Wrappers
  import opened Text
  import opened RichText
  import opened FlatJson
  import opened Ipv4

  datatype Values = Values(
    acquisitionDevice: string, slaveId: nat, periodMs: nat, responseTimeoutMs: nat, maxRetries: nat,
    rtuDevice: string, rtuUnitId: nat, tcpBind: string, tcpUnitId: nat, tcpPort: nat, webPort: nat,
    tlsEnabled: bool, iecEnabled: bool, iecPort: nat, iedName: string, ftpEnabled: bool, ftpPort: nat,
    title: string, device: string, phaseStart: nat, timeSync: bool, sntpServer: string,
    periodSeconds: nat, retentionDays: nat, minFreeBytes: nat,
    thresholdDbm: int, rearmDbm: int, deltaDb: nat, mergeSeconds: nat)

  datatype Snapshot = Snapshot(version: nat, values: Values)

  // ----- Validation -----

  predicate Letter(c: char) { 'a' <= c <= 'z' || 'A' <= c <= 'Z' }

  predicate ValidIedName(s: string) {
    1 <= |s| <= 32 && Letter(s[0]) && forall i | 0 <= i < |s| :: Letter(s[i]) || IsDigit(s[i]) || s[i] == '_'
  }

  predicate ValidText(s: string, limit: nat) {
    1 <= |s| <= limit && forall i | 0 <= i < |s| :: !Control(s[i]) && s[i] as int != 0x7F
  }

  predicate ServerChar(c: char) { Letter(c) || IsDigit(c) || c == '.' || c == '-' }

  predicate ValidServer(s: string) {
    && ValidText(s, 253) && s[0] != '.' && s[|s| - 1] != '.'
    && (forall i | 0 <= i < |s| :: ServerChar(s[i]))
    && forall i | 0 < i < |s| :: !(s[i - 1] == '.' && s[i] == '.')
  }

  predicate PortsApart(v: Values) {
    && v.webPort != v.tcpPort && (v.iecEnabled ==> v.webPort != v.iecPort && v.tcpPort != v.iecPort)
    && (v.ftpEnabled ==>
          v.ftpPort != v.webPort && v.ftpPort != v.tcpPort && (v.iecEnabled ==> v.ftpPort != v.iecPort))
  }

  predicate Validate(v: Values) {
    && v.tlsEnabled && PortsApart(v) && v.acquisitionDevice == "/dev/ttyS1" && v.rtuDevice == "/dev/ttyS4"
    && Pton(v.tcpBind).Some? && ValidIedName(v.iedName) && ValidText(v.title, 64) && ValidText(v.device, 64)
    && v.phaseStart <= 360 && ValidServer(v.sntpServer)
    && 1 <= v.slaveId <= 247 && 1 <= v.rtuUnitId <= 247 && 1 <= v.tcpUnitId <= 247 && v.tcpPort != 0
    && v.webPort >= 1024 && v.iecPort != 0 && v.periodSeconds >= 60 && 1 <= v.retentionDays <= 30
    && v.minFreeBytes >= 268435456 && -70 <= v.thresholdDbm <= 15 && -70 <= v.rearmDbm <= 15
    && v.rearmDbm < v.thresholdDbm && 1 <= v.deltaDb <= 85 && v.mergeSeconds <= 3600
  }

  // ----- The file -----

  // The keys in file order, in runs of five.
  const FIRST_KEYS: seq<string> :=
    ["version", "acquisition_device", "acquisition_slave_id", "acquisition_period_ms",
        "acquisition_response_timeout_ms"]
  const SECOND_KEYS: seq<string> :=
    ["acquisition_max_retries", "rtu_device", "rtu_unit_id", "modbus_tcp_bind", "modbus_tcp_unit_id"]
  const THIRD_KEYS: seq<string> :=
    ["modbus_tcp_port", "web_port", "tls_enabled", "iec_enabled", "iec_port"]
  const FOURTH_KEYS: seq<string> :=
    ["iec_ied_name", "ftp_enabled", "ftp_port", "overview_title", "overview_device"]
  const FIFTH_KEYS: seq<string> :=
    ["phase_start_degree", "time_sync_enabled", "sntp_server", "storage_period_seconds", "storage_retention_days"]
  const SIXTH_KEYS: seq<string> :=
    ["storage_min_free_bytes", "storage_event_threshold_dbm", "storage_event_rearm_dbm", "storage_event_delta_db",
        "storage_event_merge_seconds"]

  const CONFIG_KEYS: seq<string> :=
    FIRST_KEYS + SECOND_KEYS + THIRD_KEYS + FOURTH_KEYS + FIFTH_KEYS + SIXTH_KEYS

  const CONFIG_KINDS: seq<Kind> := [
    Number(1, MAX64), Words(false), Number(1, 247), Number(6000, 60000), Number(50, 180),
    Number(0, 3), Words(false), Number(1, 247), Words(false), Number(1, 247),
    Number(1, 65535), Number(1024, 65535), Flag, Flag, Number(1, 65535),
    Words(false), Flag, Number(1, 65535), Words(false), Words(false),
    Number(0, 360), Flag, Words(false), Number(60, 86400), Number(1, 30),
    Number(268435456, MAX64), Signed(-70, 15), Signed(-70, 15), Number(1, 85), Number(0, 3600)]

  function Slots(): (s: Schema)
    ensures |s| == FIELDS
  {
    seq(FIELDS, i requires 0 <= i < FIELDS => Slot(CONFIG_KEYS[i], CONFIG_KINDS[i]))
  }

  const CONFIG_SCHEMA: Schema := Slots()

  const FIELDS: nat := 30

  /** The values in file order, after the version. */
  function ToList(s: Snapshot): (vs: seq<Value>)
    ensures |vs| == FIELDS
  {
    var v := s.values;
    [Num(s.version), Str(v.acquisitionDevice), Num(v.slaveId), Num(v.periodMs), Num(v.responseTimeoutMs),
        Num(v.maxRetries),
     Str(v.rtuDevice), Num(v.rtuUnitId), Str(v.tcpBind), Num(v.tcpUnitId), Num(v.tcpPort), Num(v.webPort),
     Bool(v.tlsEnabled), Bool(v.iecEnabled), Num(v.iecPort), Str(v.iedName), Bool(v.ftpEnabled), Num(v.ftpPort),
     Str(v.title), Str(v.device), Num(v.phaseStart), Bool(v.timeSync), Str(v.sntpServer),
     Num(v.periodSeconds), Num(v.retentionDays), Num(v.minFreeBytes),
     Num(v.thresholdDbm), Num(v.rearmDbm), Num(v.deltaDb), Num(v.mergeSeconds)]
  }

  function TextIn(v: Value): string { if v.Str? then v.text else "" }

  function NumberIn(v: Value): nat { if v.Num? && v.n >= 0 then v.n else 0 }

  function IntIn(v: Value): int { if v.Num? then v.n else 0 }

  function FlagIn(v: Value): bool { v.Bool? && v.b }

  function FromList(l: seq<Value>): Values
    requires |l| == FIELDS
  {
    Values(
      TextIn(l[1]), NumberIn(l[2]), NumberIn(l[3]), NumberIn(l[4]), NumberIn(l[5]),
      TextIn(l[6]), NumberIn(l[7]), TextIn(l[8]), NumberIn(l[9]), NumberIn(l[10]), NumberIn(l[11]),
      FlagIn(l[12]), FlagIn(l[13]), NumberIn(l[14]), TextIn(l[15]), FlagIn(l[16]), NumberIn(l[17]),
      TextIn(l[18]), TextIn(l[19]), NumberIn(l[20]), FlagIn(l[21]), TextIn(l[22]),
      NumberIn(l[23]), NumberIn(l[24]), NumberIn(l[25]),
      IntIn(l[26]), IntIn(l[27]), NumberIn(l[28]), NumberIn(l[29]))
  }

  lemma FromToList(s: Snapshot)
    ensures FromList(ToList(s)) == s.values
  {
  }

  function ConfigEntries(s: Snapshot): (es: seq<Entry>)
    ensures |es| == FIELDS
  {
    seq(FIELDS, i requires 0 <= i < FIELDS => Entry(CONFIG_KEYS[i], ToList(s)[i]))
  }

  const CONFIG_STYLE := Style("\n  ", " ", "\n  ", "\n", "\n")

  const CONFIG_DIALECT := Dialect(false, s => ReadRichString(s))

  function Serialize(s: Snapshot): string { PrintObject(CONFIG_STYLE, ConfigEntries(s)) }

  const MAX_CONFIG_BYTES: nat := 16384

  const MEMBER_COUNTS: set<nat> := {18, 19, 22, 23, 27, 28, 29, 30}

  /** Fields that are missing keep their defaults. */
  function Filled(f: Fields, defaults: Snapshot): (vs: seq<Value>)
    ensures |vs| == FIELDS
  {
    seq(FIELDS, i requires 0 <= i < FIELDS =>
      if CONFIG_KEYS[i] in f then f[CONFIG_KEYS[i]] else ToList(defaults)[i])
  }

  function ParseValues(s: string, defaults: Snapshot): Option<Values> {
    if |s| > MAX_CONFIG_BYTES then None
    else
      var f := ParseObject(CONFIG_DIALECT, CONFIG_SCHEMA, s);
      if f.None? || |f.value| !in MEMBER_COUNTS then None else Some(FromList(Filled(f.value, defaults)))
  }

  // ----- The version -----

  const VERSION_KEY := "\"version\""

  /** The text from the first occurrence of a pattern on. */
  function FindFrom(s: string, pattern: string): (r: Option<string>)
    ensures r.Some? ==> |r.value| <= |s| && pattern <= r.value
    decreases |s|
  {
    if pattern <= s then Some(s) else if s == [] then None else FindFrom(s[1..], pattern)
  }

  predicate AnySpace(c: char) { c == ' ' || 9 <= c as int <= 13 }

  function SkipAny(s: string): string { if s == [] || !AnySpace(s[0]) then s else SkipAny(s[1..]) }

  /** A separate scan for the version: the first quoted `version` anywhere, then the next colon. */
  function ParseVersion(s: string): Option<nat> {
    var at := FindFrom(s, VERSION_KEY);
    if at.None? then None
    else
      var colon := FindFrom(at.value, ":");
      if colon.None? then None
      else
        var n := ReadUnsigned(SkipAny(colon.value[1..]));
        if n.None? || n.value.0 == 0 then None else Some(n.value.0)
  }

  /** Opening an existing file. */
  function Reopen(s: string, defaults: Snapshot): Option<Snapshot> {
    var values, version := ParseValues(s, defaults), ParseVersion(s);
    if values.None? || !Validate(values.value) || version.None? then None
    else Some(Snapshot(version.value, values.value))
  }

  // ----- Printing and reading back -----

  /** Beyond validity, the ranges that only the parser enforces. */
  predicate Printable(v: Values) {
    && Validate(v) && 6000 <= v.periodMs <= 60000 && 50 <= v.responseTimeoutMs <= 180 && v.maxRetries <= 3
    && v.tcpPort <= 65535 && v.webPort <= 65535 && v.iecPort <= 65535 && 1 <= v.ftpPort <= 65535
    && v.periodSeconds <= 86400 && v.minFreeBytes <= MAX64
  }

  /** Length, first letter and one inner letter tell all the keys apart. */
  function Mark(key: string): (nat, char, char)
    requires |key| > 0
  {
    (|key|, key[0], key[14 % |key|])
  }

  const MARKS: seq<(nat, char, char)> := [
    (7, 'v', 'v'), (18, 'a', 'v'), (20, 'a', 'a'), (21, 'a', 'r'), (31, 'a', 's'),
    (23, 'a', 'x'), (10, 'r', 'd'), (11, 'r', '_'), (15, 'm', 'd'), (18, 'm', 't'),
    (15, 'm', 't'), (8, 'w', 'r'), (11, 't', '_'), (11, 'i', '_'), (8, 'i', 'r'),
    (12, 'i', 'c'), (11, 'f', '_'), (8, 'f', 'r'), (14, 'o', 'o'), (15, 'o', 'e'),
    (18, 'p', 'g'), (17, 't', 'l'), (11, 's', 'p'), (22, 's', '_'), (22, 's', 'i'),
    (22, 's', 'e'), (27, 's', 't'), (23, 's', 'r'), (22, 's', 'd'), (27, 's', 'm')]

  predicate Marked(key: string, i: nat)
    requires i < |MARKS|
  {
    0 < |key| <= 31 && Mark(key) == MARKS[i]
  }

  lemma FirstMarked(i: nat)
    requires i < 5
    ensures Marked(FIRST_KEYS[i], 0 + i)
  {
    var k := FIRST_KEYS;
    assert |k[0]| == 7 && k[0][0] == 'v' && k[0][0] == 'v';
    assert |k[1]| == 18 && k[1][0] == 'a' && k[1][14] == 'v';
    assert |k[2]| == 20 && k[2][0] == 'a' && k[2][14] == 'a';
    assert |k[3]| == 21 && k[3][0] == 'a' && k[3][14] == 'r';
    assert |k[4]| == 31 && k[4][0] == 'a' && k[4][14] == 's';
  }

  lemma FirstPlain(i: nat)
    requires i < 5
    ensures NoControl(FIRST_KEYS[i])
  {
  }

  lemma SecondMarked(i: nat)
    requires i < 5
    ensures Marked(SECOND_KEYS[i], 5 + i)
  {
    var k := SECOND_KEYS;
    assert |k[0]| == 23 && k[0][0] == 'a' && k[0][14] == 'x';
    assert |k[1]| == 10 && k[1][0] == 'r' && k[1][4] == 'd';
    assert |k[2]| == 11 && k[2][0] == 'r' && k[2][3] == '_';
    assert |k[3]| == 15 && k[3][0] == 'm' && k[3][14] == 'd';
    assert |k[4]| == 18 && k[4][0] == 'm' && k[4][14] == 't';
  }

  lemma SecondPlain(i: nat)
    requires i < 5
    ensures NoControl(SECOND_KEYS[i])
  {
  }

  lemma ThirdMarked(i: nat)
    requires i < 5
    ensures Marked(THIRD_KEYS[i], 10 + i)
  {
    var k := THIRD_KEYS;
    assert |k[0]| == 15 && k[0][0] == 'm' && k[0][14] == 't';
    assert |k[1]| == 8 && k[1][0] == 'w' && k[1][6] == 'r';
    assert |k[2]| == 11 && k[2][0] == 't' && k[2][3] == '_';
    assert |k[3]| == 11 && k[3][0] == 'i' && k[3][3] == '_';
    assert |k[4]| == 8 && k[4][0] == 'i' && k[4][6] == 'r';
  }

  lemma ThirdPlain(i: nat)
    requires i < 5
    ensures NoControl(THIRD_KEYS[i])
  {
  }

  lemma FourthMarked(i: nat)
    requires i < 5
    ensures Marked(FOURTH_KEYS[i], 15 + i)
  {
    var k := FOURTH_KEYS;
    assert |k[0]| == 12 && k[0][0] == 'i' && k[0][2] == 'c';
    assert |k[1]| == 11 && k[1][0] == 'f' && k[1][3] == '_';
    assert |k[2]| == 8 && k[2][0] == 'f' && k[2][6] == 'r';
    assert |k[3]| == 14 && k[3][0] == 'o' && k[3][0] == 'o';
    assert |k[4]| == 15 && k[4][0] == 'o' && k[4][14] == 'e';
  }

  lemma FourthPlain(i: nat)
    requires i < 5
    ensures NoControl(FOURTH_KEYS[i])
  {
  }

  lemma FifthMarked(i: nat)
    requires i < 5
    ensures Marked(FIFTH_KEYS[i], 20 + i)
  {
    var k := FIFTH_KEYS;
    assert |k[0]| == 18 && k[0][0] == 'p' && k[0][14] == 'g';
    assert |k[1]| == 17 && k[1][0] == 't' && k[1][14] == 'l';
    assert |k[2]| == 11 && k[2][0] == 's' && k[2][3] == 'p';
    assert |k[3]| == 22 && k[3][0] == 's' && k[3][14] == '_';
    assert |k[4]| == 22 && k[4][0] == 's' && k[4][14] == 'i';
  }

  lemma FifthPlain(i: nat)
    requires i < 5
    ensures NoControl(FIFTH_KEYS[i])
  {
  }

  lemma SixthMarked(i: nat)
    requires i < 5
    ensures Marked(SIXTH_KEYS[i], 25 + i)
  {
    var k := SIXTH_KEYS;
    assert |k[0]| == 22 && k[0][0] == 's' && k[0][14] == 'e';
    assert |k[1]| == 27 && k[1][0] == 's' && k[1][14] == 't';
    assert |k[2]| == 23 && k[2][0] == 's' && k[2][14] == 'r';
    assert |k[3]| == 22 && k[3][0] == 's' && k[3][14] == 'd';
    assert |k[4]| == 27 && k[4][0] == 's' && k[4][14] == 'm';
  }

  lemma SixthPlain(i: nat)
    requires i < 5
    ensures NoControl(SIXTH_KEYS[i])
  {
  }

  lemma KeyKnown(i: nat)
    requires i < FIELDS
    ensures Marked(CONFIG_KEYS[i], i) && NoControl(CONFIG_KEYS[i])
  {
    assert |FIRST_KEYS| == |SECOND_KEYS| == |THIRD_KEYS| == |FOURTH_KEYS| == |FIFTH_KEYS| == 5;
    hide FIRST_KEYS, SECOND_KEYS, THIRD_KEYS, FOURTH_KEYS, FIFTH_KEYS, SIXTH_KEYS, Marked, NoControl, MARKS;
    if i < 5 {
      FirstMarked(i);
      FirstPlain(i);
    } else if i < 10 {
      SecondMarked(i - 5);
      SecondPlain(i - 5);
    } else if i < 15 {
      ThirdMarked(i - 10);
      ThirdPlain(i - 10);
    } else if i < 20 {
      FourthMarked(i - 15);
      FourthPlain(i - 15);
    } else if i < 25 {
      FifthMarked(i - 20);
      FifthPlain(i - 20);
    } else {
      SixthMarked(i - 25);
      SixthPlain(i - 25);
    }
  }

  lemma MarksDistinct()
    ensures forall i, j | 0 <= i < j < FIELDS :: MARKS[i] != MARKS[j]
  {
  }

  lemma ConfigKeysDistinct()
    ensures DistinctSlots(CONFIG_SCHEMA)
  {
    assert |CONFIG_KEYS| == |MARKS| == FIELDS;
    hide CONFIG_KEYS, MARKS, Mark;
    MarksDistinct();
    forall i, j | 0 <= i < j < FIELDS ensures CONFIG_KEYS[i] != CONFIG_KEYS[j] {
      KeyKnown(i);
      KeyKnown(j);
    }
  }

  // Every printable value can be read back

  predicate PrintableSnapshot(s: Snapshot) { Printable(s.values) && 1 <= s.version <= MAX64 }

  predicate PlainText(t: string) { NoControl(t) && |Escape(t)| <= 253 && |t| <= 253 }

  lemma {:induction false} EscapeUnmarked(t: string)
    requires forall i | 0 <= i < |t| :: t[i] != QUOTE && t[i] != BACKSLASH
    ensures |Escape(t)| == |t|
  {
    if t != [] {
      EscapeUnmarked(t[1..]);
    }
  }

  lemma TextsPlain(v: Values)
    requires Printable(v)
    ensures PlainText(v.acquisitionDevice) && PlainText(v.rtuDevice) && PlainText(v.tcpBind) && PlainText(v.iedName)
    ensures PlainText(v.title) && PlainText(v.device) && PlainText(v.sntpServer)
  {
    hide Pton, Escape, PortsApart;
    PtonShape(v.tcpBind);
    EscapeLength(v.tcpBind);
    assert forall i | 0 <= i < |v.tcpBind| :: AddressChar(v.tcpBind[i]) ==> !Control(v.tcpBind[i]);
    EscapeLength(v.acquisitionDevice);
    EscapeLength(v.rtuDevice);
    EscapeLength(v.iedName);
    EscapeLength(v.title);
    EscapeLength(v.device);
    EscapeUnmarked(v.sntpServer);
  }

  predicate PlainValue(v: Value) {
    match v
    case Str(t) => PlainText(t)
    case Num(n) => -100 <= n <= MAX64
    case Bool(_) => true
    case Obj(_) => false
  }

  lemma FirstHalfReadable(s: Snapshot, i: nat, st: Fields)
    requires PrintableSnapshot(s) && i < 15
    ensures Readable(CONFIG_KINDS[i], ToList(s)[i], st) && PlainValue(ToList(s)[i])
  {
    TextsPlain(s.values);
    hide NoControl, Escape, Pton, ValidIedName, ValidText, ValidServer, PortsApart;
  }

  lemma SecondHalfReadable(s: Snapshot, i: nat, st: Fields)
    requires PrintableSnapshot(s) && 15 <= i < FIELDS
    ensures Readable(CONFIG_KINDS[i], ToList(s)[i], st) && PlainValue(ToList(s)[i])
  {
    TextsPlain(s.values);
    hide NoControl, Escape, Pton, ValidIedName, ValidText, ValidServer, PortsApart;
  }

  lemma ListReadable(s: Snapshot, i: nat, st: Fields)
    requires PrintableSnapshot(s) && i < FIELDS
    ensures Readable(CONFIG_KINDS[i], ToList(s)[i], st) && PlainValue(ToList(s)[i])
  {
    hide PrintableSnapshot, Readable, PlainValue, CONFIG_KINDS, ToList;
    if i < 15 {
      FirstHalfReadable(s, i, st);
    } else {
      SecondHalfReadable(s, i, st);
    }
  }

  lemma ConfigAligned(s: Snapshot)
    requires PrintableSnapshot(s)
    ensures Aligned(CONFIG_SCHEMA, ConfigEntries(s))
  {
    hide ToList, Readable, PrintableSnapshot, CONFIG_KEYS, CONFIG_KINDS, NoControl, Applied;
    var es := ConfigEntries(s);
    forall i | 0 <= i < |es|
      ensures es[i].key == CONFIG_SCHEMA[i].key && NoControl(es[i].key) && |es[i].key| <= 256
      ensures Readable(CONFIG_SCHEMA[i].kind, es[i].value, Applied(es[..i]))
    {
      KeyKnown(i);
      ListReadable(s, i, Applied(es[..i]));
    }
  }

  lemma ConfigMemberShort(e: Entry)
    requires PlainValue(e.value) && |e.key| <= 31
    ensures |PrintMember(CONFIG_STYLE, e)| <= 330
  {
    hide Escape, Decimal;
    EscapeLength(e.key);
    if e.value.Num? {
      DecimalShort(if e.value.n < 0 then -e.value.n else e.value.n);
    }
  }

  lemma SerializedShort(s: Snapshot)
    requires PrintableSnapshot(s)
    ensures |Serialize(s)| <= MAX_CONFIG_BYTES
  {
    hide ToList, PrintableSnapshot, CONFIG_KEYS, CONFIG_KINDS, PrintMember, PrintMembers, Readable, NoControl;
    hide PlainValue;
    var es := ConfigEntries(s);
    forall i | 0 <= i < |es| ensures |PrintMember(CONFIG_STYLE, es[i])| <= 330 {
      KeyKnown(i);
      ListReadable(s, i, map[]);
      ConfigMemberShort(es[i]);
    }
    MembersLength(CONFIG_STYLE, es, 330);
  }

  lemma RichReaderFaithful()
    ensures Faithful(CONFIG_DIALECT)
  {
    forall v: string, rest: string | NoControl(v) && |v| <= 256
      ensures CONFIG_DIALECT.readString(Quoted(v) + rest) == Some((v, rest))
    {
      ReadRichQuoted(v, rest);
    }
  }

  /** The values of a printed snapshot are parsed back, whatever the defaults. */
  lemma ValuesRoundTrip(s: Snapshot, defaults: Snapshot)
    requires PrintableSnapshot(s)
    ensures ParseValues(Serialize(s), defaults) == Some(s.values)
  {
    hide ToList, FromList, PrintableSnapshot, CONFIG_KEYS, CONFIG_KINDS, PrintObject, Aligned, AllFit, Faithful;
    hide Applied;
    var es := ConfigEntries(s);
    SerializedShort(s);
    RichReaderFaithful();
    ConfigAligned(s);
    ConfigKeysDistinct();
    AlignedFits(CONFIG_SCHEMA, es);
    assert Spaced(CONFIG_DIALECT, CONFIG_STYLE);
    ParsePrinted(CONFIG_DIALECT, CONFIG_SCHEMA, CONFIG_STYLE, es);
    AppliedCount(es);
    var f := Applied(es);
    forall i | 0 <= i < FIELDS ensures Filled(f, defaults)[i] == ToList(s)[i] {
      AppliedGet(es, i);
    }
    assert Filled(f, defaults) == ToList(s);
    FromToList(s);
  }

  // ----- Files with some of the keys, in any order -----

  predicate Picks(order: seq<nat>) {
    && order != [] && (forall i | 0 <= i < |order| :: order[i] < FIELDS)
    && forall i, j | 0 <= i < j < |order| :: order[i] != order[j]
  }

  function Picked(s: Snapshot, order: seq<nat>): (es: seq<Entry>)
    requires Picks(order)
    ensures |es| == |order|
  {
    seq(|order|, i requires 0 <= i < |order| => ConfigEntries(s)[order[i]])
  }

  lemma {:induction false} PicksFew(order: seq<nat>, n: nat)
    requires forall i | 0 <= i < |order| :: order[i] < n
    requires forall i, j | 0 <= i < j < |order| :: order[i] != order[j]
    ensures |order| <= n
    decreases n
  {
    if order != [] {
      assert order[0] < n;
      if k :| 0 <= k < |order| && order[k] == n - 1 {
        var rest := order[..k] + order[k + 1..];
        PicksFew(rest, n - 1);
      } else {
        PicksFew(order, n - 1);
      }
    }
  }

  lemma PickedAt(s: Snapshot, order: seq<nat>, i: nat)
    requires Picks(order) && i < |order|
    ensures var e := Picked(s, order)[i];
            e.key == CONFIG_KEYS[order[i]] && e.key == CONFIG_SCHEMA[order[i]].key && e.value == ToList(s)[order[i]]
  {
    hide ToList, CONFIG_KEYS, CONFIG_KINDS;
    EntryFor(s, order[i]);
  }

  lemma KeysApart(i: nat, j: nat)
    requires i < FIELDS && j < FIELDS && i != j
    ensures CONFIG_KEYS[i] != CONFIG_KEYS[j]
  {
    hide CONFIG_KEYS, MARKS, Mark;
    assert |MARKS| == FIELDS by { MarksSize(); }
    MarksDistinct();
    KeyKnown(i);
    KeyKnown(j);
  }

  lemma MarksSize()
    ensures |MARKS| == FIELDS
  {
  }

  lemma PickedDistinct(s: Snapshot, order: seq<nat>)
    requires Picks(order)
    ensures Distinct(Picked(s, order))
  {
    hide Picked, CONFIG_KEYS, CONFIG_SCHEMA, ToList;
    forall i, j | 0 <= i < j < |order| ensures Picked(s, order)[i].key != Picked(s, order)[j].key {
      PickedAt(s, order, i);
      PickedAt(s, order, j);
      KeysApart(order[i], order[j]);
    }
  }

  lemma PickedFits(s: Snapshot, order: seq<nat>)
    requires PrintableSnapshot(s) && Picks(order)
    ensures AllFit(CONFIG_SCHEMA, Picked(s, order))
  {
    hide Picked, CONFIG_KEYS, CONFIG_KINDS, ToList, PrintableSnapshot, Readable, KindOf, NoControl, Applied;
    var es := Picked(s, order);
    PickedDistinct(s, order);
    ConfigKeysDistinct();
    forall i | 0 <= i < |es| ensures Fits(CONFIG_SCHEMA, es[i], Applied(es[..i])) {
      var k := order[i];
      PickedAt(s, order, i);
      KindOfSlot(CONFIG_SCHEMA, k);
      KeyKnown(k);
      ListReadable(s, k, Applied(es[..i]));
      forall j | 0 <= j < i ensures es[..i][j].key != es[i].key { }
      AppliedAbsent(es[..i], es[i].key);
    }
  }

  lemma PickedShort(s: Snapshot, order: seq<nat>)
    requires PrintableSnapshot(s) && Picks(order)
    ensures |PrintObject(CONFIG_STYLE, Picked(s, order))| <= MAX_CONFIG_BYTES
  {
    hide Picked, ToList, PrintableSnapshot, CONFIG_KEYS, CONFIG_SCHEMA, PrintMember, PrintMembers, Readable, NoControl;
    hide PlainValue;
    var es := Picked(s, order);
    forall i | 0 <= i < |es| ensures |PrintMember(CONFIG_STYLE, es[i])| <= 330 {
      PickedAt(s, order, i);
      KeyKnown(order[i]);
      ListReadable(s, order[i], map[]);
      ConfigMemberShort(es[i]);
    }
    PicksFew(order, FIELDS);
    MembersLength(CONFIG_STYLE, es, 330);
  }

  /** Field by field, the picked ones are the first snapshot's and the others the second's. */
  predicate Mixes(w: Values, s: Snapshot, rest: Snapshot, order: seq<nat>) {
    forall i | 1 <= i < FIELDS ::
      ToList(Snapshot(0, w))[i] == if i in order then ToList(s)[i] else ToList(rest)[i]
  }

  lemma FilledPicked(s: Snapshot, defaults: Snapshot, order: seq<nat>, i: nat)
    requires Picks(order) && i < FIELDS
    ensures Filled(Applied(Picked(s, order)), defaults)[i] == if i in order then ToList(s)[i] else ToList(defaults)[i]
  {
    assert |CONFIG_KEYS| == FIELDS;
    hide Picked, CONFIG_KEYS, CONFIG_SCHEMA, ToList, Applied;
    var es := Picked(s, order);
    PickedDistinct(s, order);
    if i in order {
      var k :| 0 <= k < |order| && order[k] == i;
      PickedAt(s, order, k);
      AppliedGet(es, k);
    } else {
      forall k | 0 <= k < |es| ensures es[k].key != CONFIG_KEYS[i] {
        PickedAt(s, order, k);
        KeysApart(order[k], i);
      }
      AppliedAbsent(es, CONFIG_KEYS[i]);
    }
  }

  predicate KindAt(i: nat, v: Value)
    requires i < FIELDS
  {
    match CONFIG_KINDS[i]
    case Words(_) => v.Str?
    case Flag => v.Bool?
    case Signed(_, _) => v.Num?
    case _ => v.Num? && v.n >= 0
  }

  predicate Kinds(l: seq<Value>) {
    |l| == FIELDS && forall i | 1 <= i < FIELDS :: KindAt(i, l[i])
  }

  /** A list of values of the right kinds is the list of the snapshot made from it. */
  lemma ToFromFirst(l: seq<Value>, i: nat)
    requires Kinds(l) && 1 <= i < 15
    ensures ToList(Snapshot(0, FromList(l)))[i] == l[i]
  {
  }

  lemma ToFromSecond(l: seq<Value>, i: nat)
    requires Kinds(l) && 15 <= i < FIELDS
    ensures ToList(Snapshot(0, FromList(l)))[i] == l[i]
  {
  }

  lemma FirstKinds(s: Snapshot, i: nat)
    requires 1 <= i < 15
    ensures KindAt(i, ToList(s)[i])
  {
  }

  lemma SecondKinds(s: Snapshot, i: nat)
    requires 15 <= i < FIELDS
    ensures KindAt(i, ToList(s)[i])
  {
  }

  lemma ListKinds(s: Snapshot)
    ensures Kinds(ToList(s))
  {
    hide ToList, KindAt;
    forall i | 1 <= i < FIELDS ensures KindAt(i, ToList(s)[i]) {
      if i < 15 {
        FirstKinds(s, i);
      } else {
        SecondKinds(s, i);
      }
    }
  }

  lemma PickedParses(s: Snapshot, defaults: Snapshot, order: seq<nat>)
    requires PrintableSnapshot(s) && Picks(order)
    ensures ParseValues(PrintObject(CONFIG_STYLE, Picked(s, order)), defaults)
            == if |order| in MEMBER_COUNTS then Some(FromList(Filled(Applied(Picked(s, order)), defaults))) else None
  {
    hide ToList, FromList, PrintableSnapshot, CONFIG_KEYS, CONFIG_KINDS, CONFIG_SCHEMA, PrintObject, AllFit, Faithful;
    hide Applied, Picked, Filled, ParseObject, Picks, MEMBER_COUNTS;
    var es := Picked(s, order);
    PickedShort(s, order);
    RichReaderFaithful();
    PickedFits(s, order);
    PickedDistinct(s, order);
    assert es != [] by { PicksSome(order); }
    assert Spaced(CONFIG_DIALECT, CONFIG_STYLE);
    ParsePrinted(CONFIG_DIALECT, CONFIG_SCHEMA, CONFIG_STYLE, es);
    AppliedCount(es);
  }

  lemma PicksSome(order: seq<nat>)
    requires Picks(order)
    ensures order != []
  {
  }

  lemma FilledMixes(s: Snapshot, defaults: Snapshot, order: seq<nat>)
    requires Picks(order)
    ensures Mixes(FromList(Filled(Applied(Picked(s, order)), defaults)), s, defaults, order)
  {
    hide ToList, FromList, Applied, Picked, Filled, Kinds, Picks;
    var l := Filled(Applied(Picked(s, order)), defaults);
    FilledKinds(s, defaults, order);
    forall i | 1 <= i < FIELDS
      ensures ToList(Snapshot(0, FromList(l)))[i] == if i in order then ToList(s)[i] else ToList(defaults)[i]
    {
      FilledPicked(s, defaults, order, i);
      if i < 15 {
        ToFromFirst(l, i);
      } else {
        ToFromSecond(l, i);
      }
    }
  }

  /** A file with any of the keys, in any order, is accepted exactly when their number is one of the eight
      allowed; the keys that are missing keep their defaults, and the others are what it says. */
  lemma PartialFile(s: Snapshot, defaults: Snapshot, order: seq<nat>)
    requires PrintableSnapshot(s) && Picks(order)
    ensures var parsed := ParseValues(PrintObject(CONFIG_STYLE, Picked(s, order)), defaults);
            && (parsed.Some? <==> |order| in {18, 19, 22, 23, 27, 28, 29, 30})
            && (parsed.Some? ==> Mixes(parsed.value, s, defaults, order))
  {
    hide ParseValues, FromList, PrintableSnapshot, PrintObject, Picks, Picked, Filled, Applied, Mixes;
    PickedParses(s, defaults, order);
    FilledMixes(s, defaults, order);
  }

  lemma FilledKinds(s: Snapshot, defaults: Snapshot, order: seq<nat>)
    requires Picks(order)
    ensures Kinds(Filled(Applied(Picked(s, order)), defaults))
  {
    hide ToList, Filled, Picked, Applied, KindAt;
    ListKinds(s);
    ListKinds(defaults);
    forall i | 0 <= i < FIELDS
      ensures Filled(Applied(Picked(s, order)), defaults)[i] == if i in order then ToList(s)[i] else ToList(defaults)[i]
    {
      FilledPicked(s, defaults, order, i);
    }
  }

  lemma {:induction false} FindBehind(prefix: string, pattern: string, rest: string)
    requires pattern != [] && forall i | 0 <= i < |prefix| :: prefix[i] != pattern[0]
    ensures FindFrom(prefix + (pattern + rest), pattern) == Some(pattern + rest)
    decreases |prefix|
  {
    var text := prefix + (pattern + rest);
    if prefix == [] {
      assert text == pattern + rest;
    } else {
      assert text[0] == prefix[0] && text[1..] == prefix[1..] + (pattern + rest);
      FindBehind(prefix[1..], pattern, rest);
    }
  }

  lemma {:induction false} EscapeNothing(t: string)
    requires forall i | 0 <= i < |t| :: t[i] != QUOTE && t[i] != BACKSLASH
    ensures Escape(t) == t
  {
    if t != [] {
      EscapeNothing(t[1..]);
    }
  }

  lemma VersionKeyPrinted()
    ensures Quoted(CONFIG_KEYS[0]) == VERSION_KEY
  {
    hide Escape, CONFIG_KEYS;
    FirstKey();
    EscapeNothing("version");
  }

  lemma FirstKey()
    ensures CONFIG_KEYS[0] == "version"
  {
    assert CONFIG_KEYS[0] == FIRST_KEYS[0];
  }

  lemma EntryFor(s: Snapshot, i: nat)
    requires i < FIELDS
    ensures ConfigEntries(s)[i].key == CONFIG_KEYS[i] && ConfigEntries(s)[i].value == ToList(s)[i]
  {
    hide ToList, CONFIG_KEYS;
  }

  lemma FirstEntry(s: Snapshot)
    ensures ConfigEntries(s)[0].key == CONFIG_KEYS[0] && ConfigEntries(s)[0].value == Num(s.version)
  {
    EntryFor(s, 0);
    hide CONFIG_KEYS, ConfigEntries;
    var vs := ToList(s);
    assert vs[0] == Num(s.version);
  }

  /** How a serialized snapshot begins. */
  lemma SerializedHead(s: Snapshot) returns (more: string)
    ensures Serialize(s) == "{\n  " + (VERSION_KEY + (":" + (" " + (Decimal(s.version) + ("," + more)))))
  {
    hide Quoted, CONFIG_KEYS, Decimal, VERSION_KEY, ConfigEntries;
    var es := ConfigEntries(s);
    VersionKeyPrinted();
    FirstEntry(s);
    var rest := PrintMembers(CONFIG_STYLE, es[1..]);
    more := "\n  " + rest;
    assert PrintMember(CONFIG_STYLE, es[0]) == VERSION_KEY + ":" + " " + Decimal(s.version);
    hide PrintMember;
    assert PrintMembers(CONFIG_STYLE, es) == PrintMember(CONFIG_STYLE, es[0]) + ("," + "\n  ") + rest;
  }

  lemma SkipOneSpace(rest: string)
    requires rest != [] && !AnySpace(rest[0])
    ensures SkipAny(" " + rest) == rest
  {
    assert (" " + rest)[1..] == rest;
  }

  /** The separate version scan finds the version of a printed snapshot, and refuses only zero. */
  lemma VersionRoundTrip(s: Snapshot)
    requires s.version <= MAX64
    ensures ParseVersion(Serialize(s)) == if s.version == 0 then None else Some(s.version)
  {
    hide Serialize, Decimal, FindFrom, ReadUnsigned, SkipAny;
    var more := SerializedHead(s);
    var number := Decimal(s.version) + ("," + more);
    FindBehind("{\n  ", VERSION_KEY, ":" + (" " + number));
    FindBehind(VERSION_KEY, ":", " " + number);
    assert (":" + (" " + number))[1..] == " " + number;
    assert number[0] == Decimal(s.version)[0];
    SkipOneSpace(number);
    ReadUnsignedDecimal(s.version, "," + more);
  }

  // ----- What parsing guarantees -----

  lemma FilledInRange(f: Fields, defaults: Snapshot, i: nat, lo: nat, hi: nat)
    requires i < FIELDS && CONFIG_KINDS[i] == Number(lo, hi) && Typed(CONFIG_SCHEMA, f)
    requires lo <= NumberIn(ToList(defaults)[i]) <= hi
    ensures lo <= NumberIn(Filled(f, defaults)[i]) <= hi
  {
    hide CONFIG_KEYS, CONFIG_KINDS, ToList, KindOf;
    ConfigKeysDistinct();
    KindOfSlot(CONFIG_SCHEMA, i);
  }

  lemma ListNumbers(s: Snapshot)
    ensures var l, v := ToList(s), s.values;
            && NumberIn(l[3]) == v.periodMs && NumberIn(l[4]) == v.responseTimeoutMs && NumberIn(l[5]) == v.maxRetries
            && NumberIn(l[10]) == v.tcpPort && NumberIn(l[11]) == v.webPort && NumberIn(l[14]) == v.iecPort
            && NumberIn(l[17]) == v.ftpPort && NumberIn(l[23]) == v.periodSeconds && NumberIn(l[25]) == v.minFreeBytes
  {
  }

  lemma KindRanges()
    ensures var k := CONFIG_KINDS;
            && k[3] == Number(6000, 60000) && k[4] == Number(50, 180) && k[5] == Number(0, 3)
                && k[10] == Number(1, 65535)
            && k[11] == Number(1024, 65535) && k[14] == Number(1, 65535) && k[17] == Number(1, 65535)
            && k[23] == Number(60, 86400) && k[25] == Number(268435456, MAX64)
  {
  }

  lemma FromListNumbers(l: seq<Value>)
    requires |l| == FIELDS
    ensures var v := FromList(l);
            && v.periodMs == NumberIn(l[3]) && v.responseTimeoutMs == NumberIn(l[4]) && v.maxRetries == NumberIn(l[5])
            && v.tcpPort == NumberIn(l[10]) && v.webPort == NumberIn(l[11]) && v.iecPort == NumberIn(l[14])
            && v.ftpPort == NumberIn(l[17]) && v.periodSeconds == NumberIn(l[23]) && v.minFreeBytes == NumberIn(l[25])
  {
  }

  lemma FilledPrintable(f: Fields, defaults: Snapshot)
    requires PrintableSnapshot(defaults) && Typed(CONFIG_SCHEMA, f) && Validate(FromList(Filled(f, defaults)))
    ensures Printable(FromList(Filled(f, defaults)))
  {
    hide CONFIG_KINDS, CONFIG_SCHEMA, ToList, Filled, Typed, FromList, PortsApart, ValidIedName, ValidText, ValidServer;
    hide Pton;
    ListNumbers(defaults);
    KindRanges();
    FromListNumbers(Filled(f, defaults));
    FilledInRange(f, defaults, 3, 6000, 60000);
    FilledInRange(f, defaults, 4, 50, 180);
    FilledInRange(f, defaults, 5, 0, 3);
    FilledInRange(f, defaults, 10, 1, 65535);
    FilledInRange(f, defaults, 11, 1024, 65535);
    FilledInRange(f, defaults, 14, 1, 65535);
    FilledInRange(f, defaults, 17, 1, 65535);
    FilledInRange(f, defaults, 23, 60, 86400);
    FilledInRange(f, defaults, 25, 268435456, MAX64);
  }

  /** Valid values that come out of the parser can be printed and parsed again. */
  lemma ParsedIsPrintable(text: string, defaults: Snapshot)
    requires PrintableSnapshot(defaults) && ParseValues(text, defaults).Some?
              && Validate(ParseValues(text, defaults).value)
    ensures Printable(ParseValues(text, defaults).value)
  {
    hide Printable, Validate, Filled, FromList, ParseMembers, CONFIG_SCHEMA;
    var f := ParseObject(CONFIG_DIALECT, CONFIG_SCHEMA, text).value;
    ParseTyped(CONFIG_DIALECT, CONFIG_SCHEMA, Skip(text)[1..], map[]);
    FilledPrintable(f, defaults);
  }

  /** A snapshot survives being written and reopened exactly when it is printable; in particular the
      version must not have wrapped to zero. */
  lemma ReopenIff(s: Snapshot, defaults: Snapshot)
    requires PrintableSnapshot(defaults)
    ensures Reopen(Serialize(s), defaults) == Some(s) <==> PrintableSnapshot(s)
  {
    hide Serialize, ParseValues, Validate;
    if PrintableSnapshot(s) {
      ValuesRoundTrip(s, defaults);
      VersionRoundTrip(s);
    } else if Reopen(Serialize(s), defaults) == Some(s) {
      ParsedIsPrintable(Serialize(s), defaults);
    }
  }

  // ----- Updates -----

  datatype Call = Update(expected: nat, json: string) | SetIedName(name: string)

  /** What became of the file: `Renamed` is a failure reported after the new file was in place. */
  datatype Write = Written | Failed | Renamed

  datatype Outcome = Updated | Kept | Invalid | Conflict | StorageError

  datatype Store = Store(snapshot: Snapshot, file: string)

  const VERSIONS: nat := 0x1_0000_0000_0000_0000

  /** The 64-bit counter: after the largest version comes zero. */
  function NextVersion(v: nat): nat { (v + 1) % VERSIONS }

  /** The snapshot a call wants to move to, or its refusal. */
  function Wanted(s: Snapshot, c: Call, defaults: Snapshot): (Outcome, Snapshot) {
    match c
    case Update(expected, json) =>
      var v := ParseValues(json, defaults);
      if expected != s.version then (Conflict, s)
      else if v.None? || !Validate(v.value) then (Invalid, s)
      else (Updated, Snapshot(NextVersion(s.version), v.value))
    case SetIedName(name) =>
      if !ValidIedName(name) then (Invalid, s)
      else if s.values.iedName == name then (Kept, s)
      else (Updated, Snapshot(NextVersion(s.version), s.values.(iedName := name)))
  }

  function Next(s: Store, c: Call, w: Write, defaults: Snapshot): (Outcome, Store) {
    var (outcome, wanted) := Wanted(s.snapshot, c, defaults);
    if outcome != Updated then (outcome, s)
    else match w
      case Written => (Updated, Store(wanted, Serialize(wanted)))
      case Failed => (StorageError, s)
      case Renamed => (StorageError, s.(file := Serialize(wanted)))
  }

  /** A snapshot the store can have in memory; its version is zero right after the counter wrapped. */
  predicate Good(s: Snapshot) { Printable(s.values) && s.version <= MAX64 }

  /** The file gives the snapshot back; with version zero it cannot be opened at all. */
  predicate Held(file: string, s: Snapshot, defaults: Snapshot) {
    Reopen(file, defaults) == if s.version == 0 then None else Some(s)
  }

  lemma SerializedIsHeld(s: Snapshot, defaults: Snapshot)
    requires Good(s) && PrintableSnapshot(defaults)
    ensures Held(Serialize(s), s, defaults)
  {
    hide Serialize, ParseValues, Validate, Printable;
    if s.version == 0 {
      VersionRoundTrip(s);
    } else {
      ReopenIff(s, defaults);
    }
  }

  /** The file holds the snapshot in memory, or the next one that a failed write left behind. */
  predicate Sound(s: Store, defaults: Snapshot) {
    && Good(s.snapshot) && PrintableSnapshot(defaults)
    && var r, next := Reopen(s.file, defaults), NextVersion(s.snapshot.version);
       || Held(s.file, s.snapshot, defaults)
       || (if next == 0 then r.None? else r.Some? && r.value.version == next && PrintableSnapshot(r.value))
  }

  lemma WantedGood(s: Snapshot, c: Call, defaults: Snapshot)
    requires Good(s) && PrintableSnapshot(defaults) && Wanted(s, c, defaults).0 == Updated
    ensures Good(Wanted(s, c, defaults).1) && Wanted(s, c, defaults).1.version == NextVersion(s.version)
  {
    hide ParseValues, ValidIedName, ValidText, ValidServer, Pton;
    if c.Update? {
      ParsedIsPrintable(c.json, defaults);
    }
  }

  /** One call keeps the store sound; a successful one moves to the next version and leaves the file holding
      what is in memory; a refused one changes nothing. */
  lemma NextSound(s: Store, c: Call, w: Write, defaults: Snapshot)
    requires Sound(s, defaults)
    ensures var (outcome, t) := Next(s, c, w, defaults);
            && Sound(t, defaults)
            && (outcome == Updated ==>
                  t.snapshot.version == NextVersion(s.snapshot.version) && Held(t.file, t.snapshot, defaults))
            && (outcome != Updated ==> t.snapshot == s.snapshot)
            && (outcome == Updated && c.Update? ==> c.expected == s.snapshot.version)
            && (outcome == Updated ==>
                  Some(t.snapshot.values) == (match c
                                              case Update(_, json) => ParseValues(json, defaults)
                                              case SetIedName(name) => Some(s.snapshot.values.(iedName := name))))
            && (w != Renamed && outcome != Updated ==> t == s)
  {
    hide Serialize, Reopen, ParseValues, Printable, Validate, ValidIedName;
    var (outcome, wanted) := Wanted(s.snapshot, c, defaults);
    if outcome == Updated {
      WantedGood(s.snapshot, c, defaults);
      SerializedIsHeld(wanted, defaults);
    }
  }

  /** Which outcome a call has, decided by the version, the text or name, and the write. */
  lemma OutcomeMeaning(s: Store, c: Call, w: Write, defaults: Snapshot)
    ensures var outcome := Next(s, c, w, defaults).0;
            match c
            case Update(expected, json) =>
              var v := ParseValues(json, defaults);
              var fine := v.Some? && Validate(v.value);
              && (outcome == Conflict <==> expected != s.snapshot.version)
              && (outcome == Invalid <==> expected == s.snapshot.version && !fine)
              && (outcome == Updated <==> expected == s.snapshot.version && fine && w == Written)
              && (outcome == StorageError <==> expected == s.snapshot.version && fine && w != Written)
            case SetIedName(name) =>
              && (outcome == Invalid <==> !ValidIedName(name))
              && (outcome == Kept <==> ValidIedName(name) && name == s.snapshot.values.iedName)
              && (outcome == Updated <==> ValidIedName(name) && name != s.snapshot.values.iedName && w == Written)
              && (outcome == StorageError <==> ValidIedName(name) && name != s.snapshot.values.iedName && w != Written)
  {
    hide Serialize, ParseValues, Validate, ValidIedName;
  }

  /** What an operator submits is what is stored: sending any printable values as text, under the version in
      force, leaves exactly them in memory at the next version, and reopening the file gives them back. */
  lemma UpdateStoresValues(s: Store, v: Values, oldVersion: nat, defaults: Snapshot)
    requires Sound(s, defaults) && Printable(v) && 1 <= oldVersion <= MAX64
    ensures var text := Serialize(Snapshot(oldVersion, v));
            var (outcome, t) := Next(s, Call.Update(s.snapshot.version, text), Written, defaults);
            && outcome == Updated && t.snapshot == Snapshot(NextVersion(s.snapshot.version), v)
            && Held(t.file, Snapshot(NextVersion(s.snapshot.version), v), defaults)
  {
    hide Serialize, Reopen, ParseValues, Held, PortsApart, Pton, ValidIedName, ValidServer, ValidText;
    var text := Serialize(Snapshot(oldVersion, v));
    ValuesRoundTrip(Snapshot(oldVersion, v), defaults);
    NextSound(s, Call.Update(s.snapshot.version, text), Written, defaults);
  }

  // ----- Runs -----

  datatype Event = Event(call: Call, write: Write)

  function After(s: Store, es: seq<Event>, defaults: Snapshot): Store {
    if es == [] then s
    else
      var before := After(s, es[..|es| - 1], defaults);
      Next(before, es[|es| - 1].call, es[|es| - 1].write, defaults).1
  }

  function OutcomeAt(s: Store, es: seq<Event>, defaults: Snapshot, i: nat): Outcome
    requires i < |es|
  {
    Next(After(s, es[..i], defaults), es[i].call, es[i].write, defaults).0
  }

  function Successes(s: Store, es: seq<Event>, defaults: Snapshot): nat {
    if es == [] then 0
    else Successes(s, es[..|es| - 1], defaults) + (if OutcomeAt(s, es, defaults, |es| - 1) == Updated then 1 else 0)
  }

  lemma NextModulo(v: nat, n: nat)
    ensures NextVersion((v + n) % VERSIONS) == (v + n + 1) % VERSIONS
  {
  }

  lemma AfterLast(s: Store, es: seq<Event>, defaults: Snapshot)
    requires es != []
    ensures var front, last := es[..|es| - 1], es[|es| - 1];
            var step := Next(After(s, front, defaults), last.call, last.write, defaults);
            && After(s, es, defaults) == step.1
            && Successes(s, es, defaults) == Successes(s, front, defaults) + (if step.0 == Updated then 1 else 0)
  {
    hide Next;
  }

  /** After any calls whatsoever the version has advanced by the number of successes, modulo 2^64, and the
      file holds exactly what is in memory as long as failed writes have no effect. */
  lemma {:induction false} ReloadRefinement(s: Store, es: seq<Event>, defaults: Snapshot)
    requires Sound(s, defaults) && Held(s.file, s.snapshot, defaults)
    ensures var t := After(s, es, defaults);
            && Sound(t, defaults)
            && t.snapshot.version == (s.snapshot.version + Successes(s, es, defaults)) % VERSIONS
            && ((forall i | 0 <= i < |es| :: es[i].write != Renamed) ==> Held(t.file, t.snapshot, defaults))
    decreases |es|
  {
    hide Next, Sound, Held, NextVersion, After, Successes;
    if es == [] {
      AfterNothing(s, defaults);
    } else {
      var front, last := es[..|es| - 1], es[|es| - 1];
      ReloadRefinement(s, front, defaults);
      NextSound(After(s, front, defaults), last.call, last.write, defaults);
      NextModulo(s.snapshot.version, Successes(s, front, defaults));
      AfterLast(s, es, defaults);
      if forall i | 0 <= i < |es| :: es[i].write != Renamed {
        assert forall i | 0 <= i < |front| :: front[i] == es[i];
      }
    }
  }

  lemma AfterNothing(s: Store, defaults: Snapshot)
    requires Sound(s, defaults)
    ensures After(s, [], defaults) == s && Successes(s, [], defaults) == 0
              && s.snapshot.version % VERSIONS == s.snapshot.version
  {
    hide Sound;
    SmallVersion(s, defaults);
  }

  lemma SmallVersion(s: Store, defaults: Snapshot)
    requires Sound(s, defaults)
    ensures s.snapshot.version % VERSIONS == s.snapshot.version
  {
    hide Held, Reopen, Printable;
  }

  /** Successes accumulate, at most one a call. */
  lemma {:induction false} SuccessesBetween(s: Store, es: seq<Event>, defaults: Snapshot, i: nat, j: nat)
    requires i < j <= |es|
    ensures var before, after := Successes(s, es[..i], defaults), Successes(s, es[..j], defaults);
            before + (if OutcomeAt(s, es, defaults, i) == Updated then 1 else 0) <= after <= before + (j - i)
    decreases j
  {
    hide Next, After;
    var upTo := es[..j];
    assert upTo[..j - 1] == es[..j - 1] && upTo[j - 1] == es[j - 1];
    assert OutcomeAt(s, upTo, defaults, j - 1) == OutcomeAt(s, es, defaults, j - 1);
    if i < j - 1 {
      SuccessesBetween(s, es, defaults, i, j - 1);
    }
  }

  /** Two updates of one run that expect the same version cannot both succeed, unless the whole 64-bit range
      of versions was used up between them. */
  lemma AtMostOneSucceeds(s: Store, es: seq<Event>, defaults: Snapshot, i: nat, j: nat)
    requires Sound(s, defaults) && Held(s.file, s.snapshot, defaults)
    requires i < j < |es| && es[i].call.Update? && es[j].call.Update? && es[i].call.expected == es[j].call.expected
    ensures OutcomeAt(s, es, defaults, i) == Updated && OutcomeAt(s, es, defaults, j) == Updated ==> j - i >= VERSIONS
  {
    hide Next, Sound, Held, After, Successes;
    SuccessesBetween(s, es, defaults, i, j);
    ReloadRefinement(s, es[..i], defaults);
    ReloadRefinement(s, es[..j], defaults);
    if OutcomeAt(s, es, defaults, i) == Updated && OutcomeAt(s, es, defaults, j) == Updated {
      UpdatedExpected(After(s, es[..i], defaults), es[i].call, es[i].write, defaults);
      UpdatedExpected(After(s, es[..j], defaults), es[j].call, es[j].write, defaults);
      SameRemainder(s.snapshot.version, Successes(s, es[..i], defaults), Successes(s, es[..j], defaults));
    }
  }

  lemma UpdatedExpected(s: Store, c: Call, w: Write, defaults: Snapshot)
    requires c.Update? && Next(s, c, w, defaults).0 == Updated
    ensures c.expected == s.snapshot.version
  {
    hide Serialize, ParseValues, Validate;
  }

  lemma SameRemainder(v: nat, a: nat, b: nat)
    requires a < b && (v + a) % VERSIONS == (v + b) % VERSIONS
    ensures b - a >= VERSIONS
  {
    var x, y := v + a, v + b;
    assert x == VERSIONS * (x / VERSIONS) + x % VERSIONS && y == VERSIONS * (y / VERSIONS) + y % VERSIONS;
  }

  // ----- Opening -----

  /** The constructor: an existing file is reopened, a missing one is created from the shipped defaults or
      the built-in ones. `None` is the exception it throws. */
  function Open(file: Option<string>, shipped: Option<string>, w: Write, defaults: Snapshot): Option<Store> {
    match file
    case Some(contents) =>
      var r := Reopen(contents, defaults);
      if r.None? then None else Some(Store(r.value, contents))
    case None =>
      var first :=
        if shipped.None? then Some(defaults)
        else if shipped.value == "" then None
        else Reopen(shipped.value, defaults);
      if first.None? || w != Written then None else Some(Store(first.value, Serialize(first.value)))
  }

  /** A store that opens is sound and agrees with its file from the start. */
  lemma OpenSound(file: Option<string>, shipped: Option<string>, w: Write, defaults: Snapshot)
    requires PrintableSnapshot(defaults) && Open(file, shipped, w, defaults).Some?
    ensures var s := Open(file, shipped, w, defaults).value;
            Sound(s, defaults) && Reopen(s.file, defaults) == Some(s.snapshot)
  {
    hide Reopen, Serialize, Printable;
    match file
    case Some(contents) => ReopenedPrintable(contents, defaults);
    case None =>
      if shipped.Some? {
        ReopenedPrintable(shipped.value, defaults);
      }
      ReopenIff(Open(file, shipped, w, defaults).value.snapshot, defaults);
  }

  /** What it opens with. A file that was written holds its snapshot, whatever else is there; without one
      the shipped configuration counts if there is one and the built-in defaults otherwise, and the store
      opens only once that is written. */
  lemma OpenMeaning(s: Snapshot, shipped: Option<string>, w: Write, defaults: Snapshot)
    requires PrintableSnapshot(s) && PrintableSnapshot(defaults)
    ensures Open(Some(Serialize(s)), shipped, w, defaults) == Some(Store(s, Serialize(s)))
    ensures Open(None, Some(Serialize(s)), Written, defaults) == Some(Store(s, Serialize(s)))
    ensures Open(None, None, Written, defaults) == Some(Store(defaults, Serialize(defaults)))
    ensures w != Written ==> Open(None, shipped, w, defaults) == None
  {
    hide Reopen, PrintableSnapshot;
    ReopenIff(s, defaults);
    assert Serialize(s)[0] == '{';
  }

  lemma ReopenedPrintable(contents: string, defaults: Snapshot)
    requires PrintableSnapshot(defaults) && Reopen(contents, defaults).Some?
    ensures PrintableSnapshot(Reopen(contents, defaults).value)
  {
    hide ParseValues, Validate;
    ParsedIsPrintable(contents, defaults);
  }

  // ----- The defaults built into the program -----

  function Utf8All(codePoints: seq<nat>): string
    requires forall i | 0 <= i < |codePoints| :: codePoints[i] <= 0x10FFFF
  {
    if codePoints == [] then [] else Utf8(codePoints[0]) + Utf8All(codePoints[1..])
  }

  const TITLE: seq<nat> := [0x5C40, 0x90E8, 0x653E, 0x7535, 0x5728, 0x7EBF, 0x76D1, 0x6D4B, 0x7CFB, 0x7EDF]
  const DEVICE: seq<nat> := [0x31, 0x53F7, 0x4E3B, 0x53D8]

  function BuiltIn(): Snapshot {
    Snapshot(1, Values(
      "/dev/ttyS1", 1, 6000, 150, 3, "/dev/ttyS4", 1, "192.168.3.230", 1, 502, 8080, true, true, 102, "UHFPD1", false,
      21, Utf8All(TITLE), Utf8All(DEVICE), 0, true, "pool.ntp.org", 300, 1, 536870912, -45, -50, 10, 60))
  }

  predicate Visible(s: string) { forall i | 0 <= i < |s| :: !Control(s[i]) && s[i] as int != 0x7F }

  lemma Utf8Visible(cp: nat)
    requires 0x20 <= cp <= 0x10FFFF && cp != 0x7F
    ensures Visible(Utf8(cp))
  {
  }

  lemma {:induction false} Utf8AllVisible(cps: seq<nat>)
    requires forall i | 0 <= i < |cps| :: 0x20 <= cps[i] <= 0x10FFFF && cps[i] != 0x7F
    ensures Visible(Utf8All(cps)) && |cps| <= |Utf8All(cps)| <= 4 * |cps|
  {
    hide Utf8;
    if cps != [] {
      Utf8Visible(cps[0]);
      Utf8AllVisible(cps[1..]);
    }
  }

  lemma BuiltInOctets()
    ensures Decimal(192) == "192" && Decimal(168) == "168" && Decimal(3) == "3" && Decimal(230) == "230"
  {
    assert Decimal(19) == "19" && Decimal(16) == "16" && Decimal(23) == "23";
  }

  lemma BuiltInAddress()
    ensures Pton("192.168.3.230").Some?
  {
    hide Pton, Decimal, Join;
    BuiltInOctets();
    PtonQuad(192, 168, 3, 230);
    assert "192" + "." + ("168" + "." + ("3" + "." + "230")) == "192.168.3.230";
  }

  lemma BuiltInServer()
    ensures ValidServer("pool.ntp.org") && ValidIedName("UHFPD1")
  {
  }

  /** The built-in defaults are valid, printable, and where a fresh installation starts: its file reopens to
      them. */
  lemma BuiltInPrintable()
    ensures PrintableSnapshot(BuiltIn())
    ensures Open(None, None, Written, BuiltIn()) == Some(Store(BuiltIn(), Serialize(BuiltIn())))
    ensures Reopen(Serialize(BuiltIn()), BuiltIn()) == Some(BuiltIn())
  {
    hide Pton, ValidServer, ValidIedName, Utf8All, Serialize, Reopen;
    BuiltInAddress();
    BuiltInServer();
    Utf8AllVisible(TITLE);
    Utf8AllVisible(DEVICE);
    assert PrintableSnapshot(BuiltIn());
    ReopenIff(BuiltIn(), BuiltIn());
  }

  // ----- The store object -----

  class ConfigStore {
    var snapshot: Snapshot
    var file: string
    const defaults: Snapshot

    ghost function State(): Store
      reads this
    {
      Store(snapshot, file)
    }

    ghost predicate Valid()
      reads this
    {
      Sound(State(), defaults)
    }

    constructor (contents: Option<string>, shipped: Option<string>, write: Write, defaults: Snapshot)
      requires PrintableSnapshot(defaults) && Open(contents, shipped, write, defaults).Some?
      ensures Valid() && State() == Open(contents, shipped, write, defaults).value && this.defaults == defaults
      ensures Reopen(file, defaults) == Some(snapshot)
    {
      hide Open, Reopen, Sound, PrintableSnapshot;
      OpenSound(contents, shipped, write, defaults);
      var s := Open(contents, shipped, write, defaults).value;
      this.snapshot, this.file, this.defaults := s.snapshot, s.file, defaults;
    }

    /** Replaces the file, as far as `write` says. */
    method WriteAtomic(contents: string, write: Write) returns (ok: bool)
      modifies this`file
      ensures ok <==> write == Written
      ensures file == if write == Failed then old(file) else contents
    {
      if write != Failed {
        file := contents;
      }
      ok := write == Written;
    }

    method Update(expected: nat, json: string, write: Write) returns (r: Outcome)
      requires Valid()
      modifies this
      ensures (r, State()) == Next(old(State()), Call.Update(expected, json), write, defaults)
      ensures Valid()
    {
      hide Sound, ParseValues, Validate, Serialize;
      NextSound(State(), Call.Update(expected, json), write, defaults);
      if expected != snapshot.version {
        return Conflict;
      }
      var values := ParseValues(json, defaults);
      if values.None? || !Validate(values.value) {
        return Invalid;
      }
      var candidate := Snapshot(NextVersion(snapshot.version), values.value);
      var ok := WriteAtomic(Serialize(candidate), write);
      if !ok {
        return StorageError;
      }
      snapshot := candidate;
      r := Updated;
    }

    method SetIedName(name: string, write: Write) returns (ok: bool)
      requires Valid()
      modifies this
      ensures var (r, s) := Next(old(State()), Call.SetIedName(name), write, defaults);
              State() == s && (ok <==> r == Updated || r == Kept)
      ensures Valid()
    {
      hide Sound, ValidIedName, Serialize;
      NextSound(State(), Call.SetIedName(name), write, defaults);
      if !ValidIedName(name) {
        return false;
      }
      if snapshot.values.iedName == name {
        return true;
      }
      var candidate := Snapshot(NextVersion(snapshot.version), snapshot.values.(iedName := name));
      ok := WriteAtomic(Serialize(candidate), write);
      if ok {
        snapshot := candidate;
      }
    }
  }
}
