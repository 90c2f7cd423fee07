/** Network configurations: validation, the flat JSON form and its parser. Only the first `dns_count`
    entries of the source's DNS array are kept, as the sequence `dns`. */
module NetworkConfig {
  import opened Wrappers
  import opened Text
  import opened FlatJson
  import opened Ipv4
  import JsonReader

  datatype Mode = Static | Dhcp

  datatype InterfaceConfig = InterfaceConfig(
    name: string, mode: Mode, address: string, prefix: nat, gateway: string, dns: seq<string>,
    hostname: string, dhcpTimeout: nat)

  datatype NetworkConfig = NetworkConfig(eth0: InterfaceConfig, eth1: InterfaceConfig)

  // ----- Validation -----

  predicate HostChar(c: char) {
    'a' <= c <= 'z' || 'A' <= c <= 'Z' || '0' <= c <= '9' || c == '-' || c == '_' || c == '.'
  }

  predicate ValidHostname(s: string) {
    && 1 <= |s| <= 63 && s[0] != '.' && s[|s| - 1] != '.'
    && (forall i | 0 <= i < |s| :: HostChar(s[i]))
    && forall i | 0 < i < |s| :: !(s[i - 1] == '.' && s[i] == '.')
  }

  predicate ValidInterface(c: InterfaceConfig, expected: string) {
    && c.name == expected && |c.dns| <= 2
    && (c.mode == Static ==>
          && ValidIpv4(c.address) && 1 <= c.prefix <= 32
          && (c.gateway != "" ==> ValidIpv4(c.gateway) && SameSubnet(c.address, c.prefix, c.gateway)))
    && (c.mode == Dhcp ==> c.address == "" && c.gateway == "" && c.dns == [] && c.dhcpTimeout == 15)
    && (c.hostname != "" ==> ValidHostname(c.hostname))
    && forall i | 0 <= i < |c.dns| :: ValidIpv4(c.dns[i])
  }

  predicate Validate(c: NetworkConfig) {
    && ValidInterface(c.eth0, "eth0") && ValidInterface(c.eth1, "eth1")
    && (c.eth0.mode == Static && c.eth1.mode == Static ==> c.eth0.address != c.eth1.address)
    && !(c.eth0.gateway != "" && c.eth1.gateway != "")
  }

  // ----- The flat form -----

  const SUFFIXES: seq<string> :=
    ["mode", "address", "prefix", "netmask", "gateway", "dns1", "dns2", "hostname", "dhcp_timeout_seconds"]

  const KINDS: seq<Kind> :=
    [Words(false), Words(false), Number(1, 32), Words(false), Words(false), Words(false), Words(false),
     Words(false), Number(1, 65535)]

  const FIELD_COUNT: nat := 9

  function InterfaceSlots(p: string): (s: Schema)
    ensures |s| == FIELD_COUNT
  {
    seq(FIELD_COUNT, i requires 0 <= i < FIELD_COUNT => Slot(p + SUFFIXES[i], KINDS[i]))
  }

  const NETWORK_SCHEMA: Schema := InterfaceSlots("eth0_") + InterfaceSlots("eth1_")

  const FLAT_DIALECT := Plainly(false)

  function ModeName(m: Mode): string { if m == Dhcp then "dhcp" else "static" }

  function DnsAt(c: InterfaceConfig, i: nat): string { if i < |c.dns| then c.dns[i] else "" }

  function InterfaceValues(c: InterfaceConfig): (vs: seq<Value>)
    ensures |vs| == FIELD_COUNT
  {
    [Str(ModeName(c.mode)), Str(c.address), Num(c.prefix), Str(NetmaskFor(c.prefix)), Str(c.gateway),
     Str(DnsAt(c, 0)), Str(DnsAt(c, 1)), Str(c.hostname), Num(c.dhcpTimeout)]
  }

  function InterfaceEntries(p: string, c: InterfaceConfig): (es: seq<Entry>)
    ensures |es| == FIELD_COUNT
  {
    seq(FIELD_COUNT, i requires 0 <= i < FIELD_COUNT => Entry(p + SUFFIXES[i], InterfaceValues(c)[i]))
  }

  function Entries(c: NetworkConfig): (es: seq<Entry>)
    ensures |es| == 2 * FIELD_COUNT
  {
    InterfaceEntries("eth0_", c.eth0) + InterfaceEntries("eth1_", c.eth1)
  }

  function ToFlatJson(c: NetworkConfig): string { PrintObject(COMPACT, Entries(c)) }

  /** The configuration file: the flat form as one line. */
  const LINE := Style("", "", "", "", "\n")

  function FileText(c: NetworkConfig): string { ToFlatJson(c) + "\n" }

  lemma {:induction false} LineMembers(es: seq<Entry>)
    ensures PrintMembers(COMPACT, es) + "\n" == PrintMembers(LINE, es)
    decreases |es|
  {
    if es != [] {
      LineMembers(es[1..]);
      assert PrintMember(COMPACT, es[0]) == PrintMember(LINE, es[0]);
    }
  }

  lemma FileTextIsLine(c: NetworkConfig)
    ensures FileText(c) == PrintObject(LINE, Entries(c))
  {
    hide PrintMembers, Entries;
    LineMembers(Entries(c));
  }

  // ----- Assembly of parsed fields -----

  function TextOf(f: Fields, key: string): string { if key in f && f[key].Str? then f[key].text else "" }

  function NumberOf(f: Fields, key: string, missing: nat): nat {
    if key in f && f[key].Num? && f[key].n >= 0 then f[key].n else missing
  }

  /** The prefix from the number, the netmask, or both when they agree. */
  function PrefixOf(f: Fields, p: string): Option<nat> {
    var byNumber := p + "prefix" in f;
    if p + "netmask" in f then
      var n := PrefixFrom(TextOf(f, p + "netmask"));
      if n.None? || (byNumber && NumberOf(f, p + "prefix", 24) != n.value) then None else n
    else if byNumber then Some(NumberOf(f, p + "prefix", 24))
    else None
  }

  /** A number, a netmask, or both are enough, and all that are given must agree. */
  lemma PrefixOfMeaning(f: Fields, p: string, n: nat)
    ensures PrefixOf(f, p) == Some(n) <==>
              && (p + "prefix" in f || p + "netmask" in f)
              && (p + "prefix" in f ==> NumberOf(f, p + "prefix", 24) == n)
              && (p + "netmask" in f ==> PrefixFrom(TextOf(f, p + "netmask")) == Some(n))
  {
    hide PrefixFrom;
  }

  function InterfaceFrom(f: Fields, p: string, name: string): Option<InterfaceConfig> {
    var prefix, mode := PrefixOf(f, p), TextOf(f, p + "mode");
    var dns1, dns2 := TextOf(f, p + "dns1"), TextOf(f, p + "dns2");
    if prefix.None? || (mode != "dhcp" && mode != "static") then None
    else Some(InterfaceConfig(
      name, if mode == "dhcp" then Dhcp else Static, TextOf(f, p + "address"), prefix.value,
      TextOf(f, p + "gateway"), (if dns1 == "" then [] else [dns1]) + (if dns2 == "" then [] else [dns2]),
      TextOf(f, p + "hostname"), NumberOf(f, p + "dhcp_timeout_seconds", 15)))
  }

  function ConfigFrom(f: Fields): Option<NetworkConfig> {
    var eth0, eth1 := InterfaceFrom(f, "eth0_", "eth0"), InterfaceFrom(f, "eth1_", "eth1");
    if (|f| != 16 && |f| != 18) || eth0.None? || eth1.None? then None
    else
      var c := NetworkConfig(eth0.value, eth1.value);
      if Validate(c) then Some(c) else None
  }

  const MAX_FLAT_BYTES: nat := 16384

  function ParseFlatJson(s: string): Option<NetworkConfig> {
    if |s| > MAX_FLAT_BYTES then None
    else
      var f := ParseObject(FLAT_DIALECT, NETWORK_SCHEMA, s);
      if f.None? then None else ConfigFrom(f.value)
  }

  // ----- Which configurations survive printing -----

  /** What a caller can check beyond validity: the two numbers the parser insists on. */
  predicate PrintableInterface(c: InterfaceConfig) { 1 <= c.prefix <= 32 && 1 <= c.dhcpTimeout <= 65535 }

  predicate Printable(c: NetworkConfig) {
    Validate(c) && PrintableInterface(c.eth0) && PrintableInterface(c.eth1)
  }

  // Keys

  lemma SuffixesDistinct(i: nat, j: nat)
    requires i < j < FIELD_COUNT
    ensures SUFFIXES[i] != SUFFIXES[j]
  {
    assert |SUFFIXES[0]| == 4 && SUFFIXES[0][0] == 'm';
    assert |SUFFIXES[1]| == 7 && SUFFIXES[1][0] == 'a';
    assert |SUFFIXES[2]| == 6;
    assert |SUFFIXES[3]| == 7 && SUFFIXES[3][0] == 'n';
    assert |SUFFIXES[4]| == 7 && SUFFIXES[4][0] == 'g';
    assert |SUFFIXES[5]| == 4 && SUFFIXES[5][0] == 'd' && SUFFIXES[5][3] == '1';
    assert |SUFFIXES[6]| == 4 && SUFFIXES[6][0] == 'd' && SUFFIXES[6][3] == '2';
    assert |SUFFIXES[7]| == 8;
    assert |SUFFIXES[8]| == 20;
  }

  lemma PrependInjective(p: string, a: string, b: string)
    requires p + a == p + b
    ensures a == b
  {
    assert (p + a)[|p|..] == a && (p + b)[|p|..] == b;
  }

  lemma SchemaDistinct()
    ensures DistinctSlots(NETWORK_SCHEMA)
  {
    var n := FIELD_COUNT;
    forall i, j | 0 <= i < j < 2 * n ensures NETWORK_SCHEMA[i].key != NETWORK_SCHEMA[j].key {
      if i < n <= j {
        assert NETWORK_SCHEMA[i].key[3] == '0' && NETWORK_SCHEMA[j].key[3] == '1';
      } else {
        var p, a, b := if j < n then "eth0_" else "eth1_", if j < n then i else i - n, if j < n then j else j - n;
        assert NETWORK_SCHEMA[i].key == p + SUFFIXES[a] && NETWORK_SCHEMA[j].key == p + SUFFIXES[b];
        SuffixesDistinct(a, b);
        if p + SUFFIXES[a] == p + SUFFIXES[b] {
          PrependInjective(p, SUFFIXES[a], SUFFIXES[b]);
        }
      }
    }
  }

  lemma SuffixShort(i: nat)
    requires i < FIELD_COUNT
    ensures |SUFFIXES[i]| <= 20 && NoControl(SUFFIXES[i])
  {
  }

  // Printed configurations are read back

  lemma AddressText(s: string)
    requires s == "" || ValidIpv4(s)
    ensures NoControl(s) && |s| <= 15
  {
    if s != "" {
      PtonShape(s);
      assert forall i | 0 <= i < |s| :: AddressChar(s[i]) ==> !Control(s[i]);
    }
  }

  lemma NetmaskText(prefix: nat)
    requires 1 <= prefix <= 32
    ensures ValidIpv4(NetmaskFor(prefix))
  {
    PrefixRoundTrip(prefix);
  }

  lemma NetmaskTextAny(prefix: nat)
    ensures NetmaskFor(prefix) == "" || ValidIpv4(NetmaskFor(prefix))
  {
    if 1 <= prefix <= 32 {
      NetmaskText(prefix);
    }
  }

  ghost predicate Plain(v: Value) { v.Str? ==> NoControl(v.text) && |v.text| <= 63 }

  lemma ValuesReadable(c: InterfaceConfig, name: string, i: nat, st: Fields)
    requires ValidInterface(c, name) && i < FIELD_COUNT
    requires (i == 2 ==> 1 <= c.prefix <= 32) && (i == 8 ==> 1 <= c.dhcpTimeout <= 65535)
    ensures Readable(KINDS[i], InterfaceValues(c)[i], st) && Plain(InterfaceValues(c)[i])
  {
    NetmaskTextAny(c.prefix);
    hide Pton, NetmaskFor, SameSubnet;
    AddressText("");
    if c.mode == Static {
      AddressText(c.address);
      if c.gateway != "" {
        AddressText(c.gateway);
      }
    }
    AddressText(NetmaskFor(c.prefix));
    AddressText(DnsAt(c, 0));
    AddressText(DnsAt(c, 1));
    assert NoControl(c.hostname) by {
      assert forall k | 0 <= k < |c.hostname| :: HostChar(c.hostname[k]) ==> !Control(c.hostname[k]);
    }
    assert NoControl("dhcp") && NoControl("static");
  }

  lemma KeyText(p: string, i: nat)
    requires (p == "eth0_" || p == "eth1_") && i < FIELD_COUNT
    ensures NoControl(p + SUFFIXES[i]) && |p + SUFFIXES[i]| <= 25
  {
    SuffixShort(i);
    assert NoControl(p);
  }

  lemma EntryAt(c: NetworkConfig, i: nat)
    requires i < FIELD_COUNT
    ensures Entries(c)[i] == Entry("eth0_" + SUFFIXES[i], InterfaceValues(c.eth0)[i])
    ensures Entries(c)[FIELD_COUNT + i] == Entry("eth1_" + SUFFIXES[i], InterfaceValues(c.eth1)[i])
    ensures NETWORK_SCHEMA[i] == Slot("eth0_" + SUFFIXES[i], KINDS[i])
    ensures NETWORK_SCHEMA[FIELD_COUNT + i] == Slot("eth1_" + SUFFIXES[i], KINDS[i])
  {
    hide InterfaceValues;
  }

  lemma EntriesAligned(c: NetworkConfig)
    requires Printable(c)
    ensures Aligned(NETWORK_SCHEMA, Entries(c))
    ensures forall i | 0 <= i < |Entries(c)| :: Plain(Entries(c)[i].value) && |Entries(c)[i].key| <= 25
  {
    hide InterfaceValues, Readable, Plain, Entries, ValidInterface, NoControl;
    var es := Entries(c);
    forall i | 0 <= i < |es|
      ensures es[i].key == NETWORK_SCHEMA[i].key && NoControl(es[i].key) && |es[i].key| <= 25
      ensures Readable(NETWORK_SCHEMA[i].kind, es[i].value, Applied(es[..i])) && Plain(es[i].value)
    {
      var k := if i < FIELD_COUNT then i else i - FIELD_COUNT;
      EntryAt(c, k);
      KeyText("eth0_", k);
      KeyText("eth1_", k);
      ValuesReadable(c.eth0, "eth0", k, Applied(es[..i]));
      ValuesReadable(c.eth1, "eth1", k, Applied(es[..i]));
    }
  }

  /** An interface is rebuilt from fields that hold its values. */
  lemma InterfaceBack(f: Fields, p: string, name: string, c: InterfaceConfig)
    requires ValidInterface(c, name) && PrintableInterface(c)
    requires forall i | 0 <= i < FIELD_COUNT ::
               p + SUFFIXES[i] in f ==> f[p + SUFFIXES[i]] == InterfaceValues(c)[i]
    requires forall i | 0 <= i < FIELD_COUNT && i != 2 && i != 3 :: p + SUFFIXES[i] in f
    requires p + SUFFIXES[2] in f || p + SUFFIXES[3] in f
    ensures InterfaceFrom(f, p, name) == Some(c)
  {
    hide ValidHostname, SameSubnet, Pton, NetmaskFor, PrefixFrom;
    assert SUFFIXES[0] == "mode" && SUFFIXES[1] == "address" && SUFFIXES[2] == "prefix" && SUFFIXES[3] == "netmask";
    assert SUFFIXES[4] == "gateway" && SUFFIXES[5] == "dns1" && SUFFIXES[6] == "dns2";
    assert SUFFIXES[7] == "hostname" && SUFFIXES[8] == "dhcp_timeout_seconds";
    PrefixRoundTrip(c.prefix);
    assert PrefixOf(f, p) == Some(c.prefix);
    var dns1, dns2 := DnsAt(c, 0), DnsAt(c, 1);
    assert (if dns1 == "" then [] else [dns1]) + (if dns2 == "" then [] else [dns2]) == c.dns;
  }

  lemma FlatReaderFaithful()
    ensures Faithful(FLAT_DIALECT)
  {
    forall v: string, rest: string | NoControl(v) && |v| <= 256
      ensures FLAT_DIALECT.readString(Quoted(v) + rest) == Some((v, rest))
    {
      ReadStringQuoted(v, rest);
    }
  }

  lemma MemberShort(y: Style, e: Entry)
    requires Plain(e.value) && |e.key| <= 25 && y.colon == ""
    requires (e.value.Num? && 0 <= e.value.n <= MAX64) || e.value.Str?
    ensures |PrintMember(y, e)| <= 200
  {
    EscapeLength(e.key);
    if e.value.Str? {
      EscapeLength(e.value.text);
    } else {
      DecimalShort(e.value.n);
    }
  }

  lemma FlatTextShort(y: Style, c: NetworkConfig)
    requires Printable(c) && (y == COMPACT || y == LINE)
    ensures |PrintObject(y, Entries(c))| <= 4000
  {
    hide PrintMember, PrintMembers, Plain, Validate, PrintableInterface, Entries;
    var es := Entries(c);
    EntriesAligned(c);
    forall i | 0 <= i < |es| ensures |PrintMember(y, es[i])| <= 200 {
      EntryNumbers(c, i);
      MemberShort(y, es[i]);
    }
    MembersLength(y, es, 200);
  }

  lemma FlatJsonShort(c: NetworkConfig)
    requires Printable(c)
    ensures |ToFlatJson(c)| <= 4000
  {
    hide PrintObject, Printable;
    FlatTextShort(COMPACT, c);
  }

  lemma EntryNumbers(c: NetworkConfig, i: nat)
    requires Printable(c) && i < 2 * FIELD_COUNT
    ensures var v := Entries(c)[i].value; (v.Num? && 0 <= v.n <= MAX64) || v.Str?
  {
    hide Validate, Entries, NetmaskFor;
    EntryAt(c, if i < FIELD_COUNT then i else i - FIELD_COUNT);
  }

  lemma AppliedBack(c: NetworkConfig)
    requires Printable(c)
    ensures ConfigFrom(Applied(Entries(c))) == Some(c)
  {
    hide Entries, InterfaceFrom, Aligned, AllFit, InterfaceValues;
    var es := Entries(c);
    EntriesAligned(c);
    SchemaDistinct();
    AlignedFits(NETWORK_SCHEMA, es);
    var f := Applied(es);
    AppliedCount(es);
    forall i | 0 <= i < FIELD_COUNT
      ensures "eth0_" + SUFFIXES[i] in f && f["eth0_" + SUFFIXES[i]] == InterfaceValues(c.eth0)[i]
      ensures "eth1_" + SUFFIXES[i] in f && f["eth1_" + SUFFIXES[i]] == InterfaceValues(c.eth1)[i]
    {
      EntryAt(c, i);
      AppliedGet(es, i);
      AppliedGet(es, FIELD_COUNT + i);
    }
    InterfaceBack(f, "eth0_", "eth0", c.eth0);
    InterfaceBack(f, "eth1_", "eth1", c.eth1);
  }

  lemma FlatTextRoundTrip(y: Style, c: NetworkConfig)
    requires Printable(c) && (y == COMPACT || y == LINE)
    ensures ParseFlatJson(PrintObject(y, Entries(c))) == Some(c)
  {
    hide Entries, PrintObject, ConfigFrom, Aligned, AllFit, Faithful, Printable;
    var es := Entries(c);
    FlatTextShort(y, c);
    FlatReaderFaithful();
    EntriesAligned(c);
    SchemaDistinct();
    AlignedFits(NETWORK_SCHEMA, es);
    ParsePrinted(FLAT_DIALECT, NETWORK_SCHEMA, y, es);
    AppliedBack(c);
  }

  /** Printing then parsing a printable configuration returns it. */
  lemma FlatRoundTrip(c: NetworkConfig)
    requires Printable(c)
    ensures ParseFlatJson(ToFlatJson(c)) == Some(c)
  {
    hide PrintObject, ParseFlatJson, Printable;
    FlatTextRoundTrip(COMPACT, c);
  }

  /** So does reading back the configuration file, which ends in a line feed. */
  lemma FileRoundTrip(c: NetworkConfig)
    requires Printable(c)
    ensures ParseFlatJson(FileText(c)) == Some(c)
  {
    hide FileText, PrintObject, ParseFlatJson, Printable;
    FileTextIsLine(c);
    FlatTextRoundTrip(LINE, c);
  }

  /** Whatever the text, a parsed configuration is printable. */
  lemma ParsedIsPrintable(s: string)
    requires ParseFlatJson(s).Some?
    ensures Printable(ParseFlatJson(s).value)
  {
    hide Validate, ParseMembers;
    var f := ParseObject(FLAT_DIALECT, NETWORK_SCHEMA, s).value;
    ParseTyped(FLAT_DIALECT, NETWORK_SCHEMA, Skip(s)[1..], map[]);
    InterfaceNumbers(f, "eth0_", "eth0", 0);
    InterfaceNumbers(f, "eth1_", "eth1", FIELD_COUNT);
  }

  lemma InterfaceNumbers(f: Fields, p: string, name: string, base: nat)
    requires Typed(NETWORK_SCHEMA, f) && InterfaceFrom(f, p, name).Some?
    requires (p == "eth0_" && base == 0) || (p == "eth1_" && base == FIELD_COUNT)
    ensures PrintableInterface(InterfaceFrom(f, p, name).value)
  {
    hide KindOf, PrefixFrom;
    SchemaDistinct();
    assert NETWORK_SCHEMA[base + 2] == Slot(p + "prefix", Number(1, 32));
    KindOfSlot(NETWORK_SCHEMA, base + 2);
    assert NETWORK_SCHEMA[base + 8] == Slot(p + "dhcp_timeout_seconds", Number(1, 65535));
    KindOfSlot(NETWORK_SCHEMA, base + 8);
  }

  /** A configuration survives the flat form exactly when it is printable: validity alone is not enough. */
  lemma FlatRoundTripIff(c: NetworkConfig)
    ensures ParseFlatJson(ToFlatJson(c)) == Some(c) <==> Printable(c)
  {
    hide Printable, ToFlatJson, ParseFlatJson;
    if Printable(c) {
      FlatRoundTrip(c);
    } else if ParseFlatJson(ToFlatJson(c)) == Some(c) {
      ParsedIsPrintable(ToFlatJson(c));
    }
  }

  // ----- Requests with a prefix or a netmask only -----

  /** The entries of one interface without its `skipped` one. */
  function WithoutEntry(es: seq<Entry>, skipped: nat): seq<Entry>
    requires skipped < |es|
  {
    es[..skipped] + es[skipped + 1..]
  }

  /** A stage request that gives only the prefix, or only the netmask, of each interface. */
  function ShortEntries(c: NetworkConfig, skipped: nat): (es: seq<Entry>)
    requires skipped == 2 || skipped == 3
    ensures |es| == 16
  {
    WithoutEntry(InterfaceEntries("eth0_", c.eth0), skipped) + WithoutEntry(InterfaceEntries("eth1_", c.eth1), skipped)
  }

  /** Where entry `k` of the short form stands in the full one. */
  function FullIndex(k: nat, skipped: nat): nat
    requires k < 16
  {
    var i := if k < 8 then k else k - 8;
    (if i < skipped then i else i + 1) + (if k < 8 then 0 else FIELD_COUNT)
  }

  lemma ShortAt(c: NetworkConfig, skipped: nat, k: nat)
    requires (skipped == 2 || skipped == 3) && k < 16
    ensures FullIndex(k, skipped) < 2 * FIELD_COUNT && ShortEntries(c, skipped)[k] == Entries(c)[FullIndex(k, skipped)]
  {
    hide InterfaceEntries;
  }

  lemma ShortDistinct(c: NetworkConfig, skipped: nat)
    requires skipped == 2 || skipped == 3
    ensures Distinct(ShortEntries(c, skipped))
  {
    hide ShortEntries, Entries, NETWORK_SCHEMA;
    var es := ShortEntries(c, skipped);
    SchemaDistinct();
    SchemaSize();
    forall i, j | 0 <= i < j < 16 ensures es[i].key != es[j].key {
      ShortAt(c, skipped, i);
      ShortAt(c, skipped, j);
      EntryKey(c, FullIndex(i, skipped));
      EntryKey(c, FullIndex(j, skipped));
    }
  }

  lemma ShortFits(c: NetworkConfig, skipped: nat)
    requires Printable(c) && (skipped == 2 || skipped == 3)
    ensures AllFit(NETWORK_SCHEMA, ShortEntries(c, skipped))
  {
    hide ShortEntries, Entries, NETWORK_SCHEMA, KindOf, Readable, NoControl, Validate;
    var es := ShortEntries(c, skipped);
    ShortDistinct(c, skipped);
    forall i | 0 <= i < 16 ensures Fits(NETWORK_SCHEMA, es[i], Applied(es[..i])) {
      var k := FullIndex(i, skipped);
      ShortAt(c, skipped, i);
      EntryKey(c, k);
      KeyIsNew(c, k);
      GoodEntryFits(c, k, Applied(es[..i]));
      forall j | 0 <= j < i ensures es[..i][j].key != es[i].key { }
      AppliedAbsent(es[..i], es[i].key);
    }
  }

  lemma ShortFields(c: NetworkConfig, skipped: nat, i: nat)
    requires (skipped == 2 || skipped == 3) && i < FIELD_COUNT
    ensures var f := Applied(ShortEntries(c, skipped));
            && ("eth0_" + SUFFIXES[i] in f <==> i != skipped) && ("eth1_" + SUFFIXES[i] in f <==> i != skipped)
            && (i != skipped ==> f["eth0_" + SUFFIXES[i]] == InterfaceValues(c.eth0)[i])
            && (i != skipped ==> f["eth1_" + SUFFIXES[i]] == InterfaceValues(c.eth1)[i])
  {
    hide ShortEntries, Entries, InterfaceValues, NETWORK_SCHEMA;
    var es := ShortEntries(c, skipped);
    ShortDistinct(c, skipped);
    EntryAt(c, i);
    if i != skipped {
      var k := if i < skipped then i else i - 1;
      ShortAt(c, skipped, k);
      ShortAt(c, skipped, k + 8);
      AppliedGet(es, k);
      AppliedGet(es, k + 8);
    } else {
      SchemaDistinct();
      SchemaSize();
      forall k | 0 <= k < 16
        ensures es[k].key != "eth0_" + SUFFIXES[i] && es[k].key != "eth1_" + SUFFIXES[i]
      {
        ShortAt(c, skipped, k);
        EntryKey(c, FullIndex(k, skipped));
        EntryKey(c, i);
        EntryKey(c, FIELD_COUNT + i);
      }
      AppliedAbsent(es, "eth0_" + SUFFIXES[i]);
      AppliedAbsent(es, "eth1_" + SUFFIXES[i]);
    }
  }

  lemma ShortBack(c: NetworkConfig, skipped: nat)
    requires Printable(c) && (skipped == 2 || skipped == 3)
    ensures ConfigFrom(Applied(ShortEntries(c, skipped))) == Some(c)
  {
    hide ShortEntries, InterfaceFrom, InterfaceValues, Applied, Distinct;
    var f := Applied(ShortEntries(c, skipped));
    ShortDistinct(c, skipped);
    AppliedCount(ShortEntries(c, skipped));
    forall i | 0 <= i < FIELD_COUNT
      ensures "eth0_" + SUFFIXES[i] in f <==> i != skipped
      ensures "eth1_" + SUFFIXES[i] in f <==> i != skipped
      ensures i != skipped ==> f["eth0_" + SUFFIXES[i]] == InterfaceValues(c.eth0)[i]
      ensures i != skipped ==> f["eth1_" + SUFFIXES[i]] == InterfaceValues(c.eth1)[i]
    {
      ShortFields(c, skipped, i);
    }
    InterfaceBack(f, "eth0_", "eth0", c.eth0);
    InterfaceBack(f, "eth1_", "eth1", c.eth1);
  }

  lemma ShortTextShort(c: NetworkConfig, skipped: nat)
    requires Printable(c) && (skipped == 2 || skipped == 3)
    ensures |PrintObject(COMPACT, ShortEntries(c, skipped))| <= 4000
  {
    hide PrintMember, PrintMembers, Plain, Validate, PrintableInterface, Entries, ShortEntries;
    var es := ShortEntries(c, skipped);
    EntriesAligned(c);
    forall i | 0 <= i < |es| ensures |PrintMember(COMPACT, es[i])| <= 200 {
      ShortAt(c, skipped, i);
      EntryNumbers(c, FullIndex(i, skipped));
      MemberShort(COMPACT, es[i]);
    }
    MembersLength(COMPACT, es, 200);
  }

  /** The prefix alone, or the netmask alone, says the same as both: either short text parses to the
      configuration it was made from. */
  lemma ShortTextRoundTrip(c: NetworkConfig, skipped: nat)
    requires Printable(c) && (skipped == 2 || skipped == 3)
    ensures ParseFlatJson(PrintObject(COMPACT, ShortEntries(c, skipped))) == Some(c)
  {
    hide ShortEntries, PrintObject, ConfigFrom, AllFit, Faithful, Printable, Applied;
    ShortTextShort(c, skipped);
    FlatReaderFaithful();
    ShortFits(c, skipped);
    ParsePrinted(FLAT_DIALECT, NETWORK_SCHEMA, COMPACT, ShortEntries(c, skipped));
    ShortBack(c, skipped);
  }

  // ----- Valid configurations that do not print -----

  /** Whether entry `i` of the flat form holds a number the parser refuses. */
  predicate BadEntry(c: NetworkConfig, i: nat) {
    || (i == 2 && !(1 <= c.eth0.prefix <= 32)) || (i == 8 && !(1 <= c.eth0.dhcpTimeout <= 65535))
    || (i == 11 && !(1 <= c.eth1.prefix <= 32)) || (i == 17 && !(1 <= c.eth1.dhcpTimeout <= 65535))
  }

  lemma GoodEntryFits(c: NetworkConfig, i: nat, st: Fields)
    requires Validate(c) && i < 2 * FIELD_COUNT && !BadEntry(c, i)
    ensures Readable(NETWORK_SCHEMA[i].kind, Entries(c)[i].value, st)
  {
    hide InterfaceValues, Readable, Plain, Entries, ValidInterface;
    var k := if i < FIELD_COUNT then i else i - FIELD_COUNT;
    EntryAt(c, k);
    if i < FIELD_COUNT {
      ValuesReadable(c.eth0, "eth0", k, st);
    } else {
      ValuesReadable(c.eth1, "eth1", k, st);
    }
  }

  lemma BadEntryValue(c: NetworkConfig, i: nat)
    requires BadEntry(c, i)
    ensures i < 2 * FIELD_COUNT && NETWORK_SCHEMA[i].kind.Number?
    ensures var k, v := NETWORK_SCHEMA[i].kind, Entries(c)[i].value; v.Num? && v.n >= 0 && !(k.lo <= v.n <= k.hi)
  {
    hide Entries, NetmaskFor;
    EntryAt(c, if i < FIELD_COUNT then i else i - FIELD_COUNT);
  }

  lemma EntryKey(c: NetworkConfig, i: nat)
    requires i < 2 * FIELD_COUNT
    ensures Entries(c)[i].key == NETWORK_SCHEMA[i].key && NoControl(Entries(c)[i].key) && |Entries(c)[i].key| <= 25
  {
    hide Entries, NoControl, InterfaceValues;
    var k := if i < FIELD_COUNT then i else i - FIELD_COUNT;
    EntryAt(c, k);
    KeyText("eth0_", k);
    KeyText("eth1_", k);
  }

  /** The fields before entry `i` do not contain its key yet. */
  lemma KeyIsNew(c: NetworkConfig, i: nat)
    requires i < 2 * FIELD_COUNT
    ensures Entries(c)[i].key !in Applied(Entries(c)[..i])
              && KindOf(NETWORK_SCHEMA, Entries(c)[i].key) == Some(NETWORK_SCHEMA[i].kind)
  {
    hide Entries, KindOf, NETWORK_SCHEMA;
    var es := Entries(c);
    SchemaDistinct();
    assert |NETWORK_SCHEMA| == 2 * FIELD_COUNT by { SchemaSize(); }
    EntryKey(c, i);
    KindOfSlot(NETWORK_SCHEMA, i);
    forall k | 0 <= k < i ensures es[..i][k].key != es[i].key {
      EntryKey(c, k);
    }
    AppliedAbsent(es[..i], es[i].key);
  }

  lemma SchemaSize()
    ensures |NETWORK_SCHEMA| == 2 * FIELD_COUNT
  {
  }

  /** A valid configuration with a number out of range prints to a text the parser refuses. */
  lemma FirstBadRefused(c: NetworkConfig, bad: nat)
    requires Validate(c) && BadEntry(c, bad) && forall i | 0 <= i < bad :: !BadEntry(c, i)
    ensures ParseFlatJson(ToFlatJson(c)) == None
  {
    hide Entries, Validate, BadEntry, KindOf, NETWORK_SCHEMA, PrintObject, NoControl, Faithful, Readable;
    var es := Entries(c);
    BadEntryValue(c, bad);
    forall k | 0 <= k < bad ensures Fits(NETWORK_SCHEMA, es[k], Applied(es[..k])) {
      EntryKey(c, k);
      KeyIsNew(c, k);
      GoodEntryFits(c, k, Applied(es[..k]));
    }
    EntryKey(c, bad);
    KeyIsNew(c, bad);
    FlatReaderFaithful();
    PrintedRefused(FLAT_DIALECT, NETWORK_SCHEMA, COMPACT, es, bad);
  }

  /** For valid configurations the round trip either returns the configuration or refuses its text, and
      the two numbers decide which. */
  lemma ValidRoundTrip(c: NetworkConfig)
    requires Validate(c)
    ensures ParseFlatJson(ToFlatJson(c)) == if Printable(c) then Some(c) else None
  {
    hide Validate, ParseFlatJson, ToFlatJson;
    if Printable(c) {
      FlatRoundTrip(c);
    } else {
      var bad := if BadEntry(c, 2) then 2 else if BadEntry(c, 8) then 8 else if BadEntry(c, 11) then 11 else 17;
      assert BadEntry(c, bad) && forall i | 0 <= i < bad :: !BadEntry(c, i);
      FirstBadRefused(c, bad);
    }
  }

  // Two such configurations

  function StaticAt(name: string, address: nat, timeout: nat): InterfaceConfig {
    InterfaceConfig(name, Static, Ntop(address), 24, "", [], "", timeout)
  }

  /** Static on both interfaces, the unused lease timeout left at zero. */
  function ZeroTimeout(): NetworkConfig { NetworkConfig(StaticAt("eth0", 1, 0), StaticAt("eth1", 2, 15)) }

  /** DHCP on one interface, its unused prefix left at zero. */
  function ZeroPrefix(): NetworkConfig {
    NetworkConfig(InterfaceConfig("eth0", Dhcp, "", 0, "", [], "", 15), StaticAt("eth1", 2, 15))
  }

  lemma ValidButUnprintable()
    ensures Validate(ZeroTimeout()) && !Printable(ZeroTimeout())
    ensures Validate(ZeroPrefix()) && !Printable(ZeroPrefix())
  {
    hide Ntop, Pton;
    PtonNtop(1);
    PtonNtop(2);
    PtonEmpty();
  }

  lemma PtonEmpty()
    ensures Pton("").None?
  {
  }

  lemma NetworkSchemaPlain()
    ensures JsonReader.PlainSchema(NETWORK_SCHEMA)
  {
    forall i | 0 <= i < |NETWORK_SCHEMA| ensures JsonReader.PlainKind(NETWORK_SCHEMA[i].kind) {
      var k := if i < FIELD_COUNT then i else i - FIELD_COUNT;
      assert NETWORK_SCHEMA[i].kind == KINDS[k];
    }
    JsonReader.SchemaIsPlain(NETWORK_SCHEMA);
  }

  /** The parser as the program runs it, position by position. */
  method ReadFlatJson(text: string) returns (r: Option<NetworkConfig>)
    ensures r == ParseFlatJson(text)
  {
    hide ConfigFrom, NETWORK_SCHEMA;
    if |text| > MAX_FLAT_BYTES {
      return None;
    }
    NetworkSchemaPlain();
    var fields := JsonReader.ParseObjectText(NETWORK_SCHEMA, false, text);
    r := if fields.None? then None else ConfigFrom(fields.value);
  }
}
