/** The object parser the three JSON files share: a flat object whose keys come from a schema, in any
    order, none twice, with optional space between tokens. */
module FlatJson {
  import opened Wrappers
  import opened Text

  datatype Kind =
    | Words(nonEmpty: bool)
    | Number(lo: nat, hi: nat)
    | AtLeast(key: string)
    | Signed(low: int, high: int)
    | Flag
    | Nested

  datatype Value = Str(text: string) | Num(n: int) | Bool(b: bool) | Obj(json: string)

  /** `tight` refuses space between a colon and a scalar; `readString` is the string reader in use. */
  datatype Dialect = Dialect(tight: bool, readString: string -> Option<(string, string)>)

  /** A dialect with the plain string reader. */
  function Plainly(tight: bool): Dialect { Dialect(tight, s => ReadString(s)) }

  datatype Slot = Slot(key: string, kind: Kind)

  type Schema = seq<Slot>

  function KindOf(schema: Schema, name: string): Option<Kind> {
    if schema == [] then None else if schema[0].key == name then Some(schema[0].kind) else KindOf(schema[1..], name)
  }

  type Fields = map<string, Value>

  // ----- Nested objects -----

  /** Length of the object text that starts here: braces are counted outside strings only. */
  function ScanObject(s: string, depth: nat, quoted: bool, escaped: bool): (n: Option<nat>)
    ensures n.Some? ==> 0 < n.value <= |s|
    decreases |s|
  {
    if s == [] then None
    else
      var c := s[0];
      var next :=
        if quoted then
          if escaped then ScanObject(s[1..], depth, true, false)
          else if c == BACKSLASH then ScanObject(s[1..], depth, true, true)
          else ScanObject(s[1..], depth, c != QUOTE, false)
        else if c == QUOTE then ScanObject(s[1..], depth, true, false)
        else if c == '{' then ScanObject(s[1..], depth + 1, false, false)
        else if c == '}' then
          if depth == 1 then Some(0) else ScanObject(s[1..], if depth == 0 then 0 else depth - 1, false, false)
        else ScanObject(s[1..], depth, false, false);
      if next.None? then None else Some(next.value + 1)
  }

  function ExtractObject(s: string): (r: Option<(string, string)>)
    ensures r.Some? ==> |r.value.1| < |s|
  {
    var t := Skip(s);
    if t == [] || t[0] != '{' then None
    else
      var n := ScanObject(t, 0, false, false);
      if n.None? then None else Some((t[..n.value], t[n.value..]))
  }

  // ----- Parsing -----

  function ReadFlag(s: string): (r: Option<(bool, string)>)
    ensures r.Some? ==> |r.value.1| < |s|
  {
    if "true" <= s then Some((true, s[4..])) else if "false" <= s then Some((false, s[5..])) else None
  }

  function Floor(st: Fields, key: string): int {
    if key in st && st[key].Num? then st[key].n else 0
  }

  function ReadValue(d: Dialect, kind: Kind, s: string, st: Fields): Option<(Value, string)> {
    match kind
    case Words(nonEmpty) =>
      var r := d.readString(s);
      if r.None? || (nonEmpty && r.value.0 == "") then None else Some((Str(r.value.0), r.value.1))
    case Number(lo, hi) =>
      var r := ReadUnsigned(s);
      if r.None? || !(lo <= r.value.0 <= hi) then None else Some((Num(r.value.0), r.value.1))
    case AtLeast(key) =>
      var r := ReadUnsigned(s);
      if r.None? || r.value.0 < Floor(st, key) then None else Some((Num(r.value.0), r.value.1))
    case Signed(lo, hi) =>
      var r := ReadSigned(s);
      if r.None? || !(lo <= r.value.0 <= hi) then None else Some((Num(r.value.0), r.value.1))
    case Flag =>
      var r := ReadFlag(s);
      if r.None? then None else Some((Bool(r.value.0), r.value.1))
    case Nested =>
      var r := ExtractObject(s);
      if r.None? then None else Some((Obj(r.value.0), r.value.1))
  }

  /** One `"key": value` pair. */
  function ReadMember(d: Dialect, schema: Schema, s: string, st: Fields): Option<(string, Value, string)> {
    var key := d.readString(Skip(s));
    if key.None? then None
    else
      var name, t := key.value.0, Skip(key.value.1);
      if t == [] || t[0] != ':' || name in st || KindOf(schema, name).None? then None
      else
        var value := ReadValue(d, KindOf(schema, name).value, if d.tight then t[1..] else Skip(t[1..]), st);
        if value.None? then None else Some((name, value.value.0, value.value.1))
  }

  /** The members after an opening brace, up to the closing one and the end of the text. */
  function ParseMembers(d: Dialect, schema: Schema, s: string, st: Fields): Option<Fields>
    decreases |s|
  {
    var m := ReadMember(d, schema, s, st);
    if m.None? then None
    else
      var (name, value, rest) := m.value;
      var t := Skip(rest);
      if t == [] || |t| > |s| then None
      else if t[0] == '}' then (if Skip(t[1..]) == [] then Some(st[name := value]) else None)
      else if t[0] == ',' then ParseMembers(d, schema, t[1..], st[name := value])
      else None
  }

  function ParseObject(d: Dialect, schema: Schema, s: string): Option<Fields> {
    var t := Skip(s);
    if t == [] || t[0] != '{' then None else ParseMembers(d, schema, t[1..], map[])
  }

  /** What a kind guarantees of the values read for it. */
  predicate Conforms(kind: Kind, v: Value) {
    match kind
    case Words(nonEmpty) => v.Str? && (nonEmpty ==> v.text != "")
    case Number(lo, hi) => v.Num? && lo <= v.n <= hi
    case AtLeast(_) => v.Num? && v.n >= 0
    case Signed(lo, hi) => v.Num? && lo <= v.n <= hi
    case Flag => v.Bool?
    case Nested => v.Obj?
  }

  ghost predicate Typed(schema: Schema, f: Fields) {
    forall k | k in f :: KindOf(schema, k).Some? && Conforms(KindOf(schema, k).value, f[k])
  }

  lemma ReadMemberTyped(d: Dialect, schema: Schema, s: string, st: Fields)
    requires ReadMember(d, schema, s, st).Some?
    ensures var (name, value, _) := ReadMember(d, schema, s, st).value;
            name !in st && KindOf(schema, name).Some? && Conforms(KindOf(schema, name).value, value)
  {
    hide ReadUnsigned, ReadSigned, ExtractObject, ReadFlag, KindOf;
  }

  /** Parsing only ever produces fields of the schema, within their ranges. */
  lemma {:induction false} ParseTyped(d: Dialect, schema: Schema, s: string, st: Fields)
    requires Typed(schema, st) && ParseMembers(d, schema, s, st).Some?
    ensures Typed(schema, ParseMembers(d, schema, s, st).value)
    decreases |s|
  {
    hide ReadMember, KindOf, Conforms;
    ReadMemberTyped(d, schema, s, st);
    var (name, value, rest) := ReadMember(d, schema, s, st).value;
    var t := Skip(rest);
    if t[0] == ',' {
      ParseTyped(d, schema, t[1..], st[name := value]);
    }
  }

  // ----- Printing -----

  datatype Entry = Entry(key: string, value: Value)

  /** The white space between tokens. */
  datatype Style = Style(open: string, colon: string, comma: string, close: string, end: string)

  const COMPACT := Style("", "", "", "", "")

  function PrintValue(v: Value): string {
    match v
    case Str(t) => Quoted(t)
    case Num(n) => SignedDecimal(n)
    case Bool(b) => if b then "true" else "false"
    case Obj(t) => t
  }

  function PrintMember(y: Style, e: Entry): string {
    Quoted(e.key) + ":" + y.colon + PrintValue(e.value)
  }

  /** The members with their separators, the closing brace and what follows it. */
  function PrintMembers(y: Style, es: seq<Entry>): string {
    if es == [] then y.close + "}" + y.end
    else PrintMember(y, es[0]) + (if |es| == 1 then "" else "," + y.comma) + PrintMembers(y, es[1..])
  }

  function PrintObject(y: Style, es: seq<Entry>): string { "{" + y.open + PrintMembers(y, es) }

  // ----- Reading back what was printed -----

  predicate AllSpace(s: string) { forall i | 0 <= i < |s| :: IsSpace(s[i]) }

  predicate Spaced(d: Dialect, y: Style) {
    && AllSpace(y.open) && AllSpace(y.colon) && AllSpace(y.comma) && AllSpace(y.close) && AllSpace(y.end)
    && (d.tight ==> y.colon == "")
  }

  lemma {:induction false} SkipSpaces(space: string, rest: string)
    requires AllSpace(space)
    ensures Skip(space + rest) == Skip(rest)
  {
    if space == [] {
      assert space + rest == rest;
    } else {
      assert (space + rest)[1..] == space[1..] + rest;
      SkipSpaces(space[1..], rest);
    }
  }

  /** A string reader that undoes the quoting of ordinary text. */
  ghost predicate Faithful(d: Dialect) {
    forall v: string, rest: string | NoControl(v) && |v| <= 256 :: d.readString(Quoted(v) + rest) == Some((v, rest))
  }

  ghost predicate SelfDelimiting(json: string) {
    json != [] && json[0] == '{' && forall rest: string :: ExtractObject(json + rest) == Some((json, rest))
  }

  /** A value its kind reads back from its printed form. */
  ghost predicate Readable(kind: Kind, v: Value, st: Fields) {
    match kind
    case Words(nonEmpty) => v.Str? && NoControl(v.text) && |v.text| <= 256 && (nonEmpty ==> v.text != "")
    case Number(lo, hi) => v.Num? && 0 <= v.n && lo <= v.n <= hi && v.n <= MAX64
    case AtLeast(key) => v.Num? && 0 <= v.n && v.n >= Floor(st, key) && v.n <= MAX64
    case Signed(lo, hi) => v.Num? && lo <= v.n <= hi && -0x8000_0000_0000_0000 <= v.n <= 0x7FFF_FFFF_FFFF_FFFF
    case Flag => v.Bool?
    case Nested => v.Obj? && SelfDelimiting(v.json)
  }

  lemma ReadPrintedValue(d: Dialect, kind: Kind, v: Value, st: Fields, rest: string)
    requires Faithful(d) && Readable(kind, v, st) && (rest == [] || !IsDigit(rest[0]))
    ensures ReadValue(d, kind, PrintValue(v) + rest, st) == Some((v, rest))
  {
    hide ReadUnsigned, ReadSigned, ExtractObject, Quoted, SignedDecimal;
    match kind
    case Words(_) =>
    case Number(_, _) => ReadPrintedNumber(v.n, rest);
    case AtLeast(_) => ReadPrintedNumber(v.n, rest);
    case Signed(_, _) => ReadSignedDecimal(v.n, rest);
    case Flag =>
      var text := PrintValue(v);
      assert (text + rest)[..|text|] == text && (text + rest)[|text|..] == rest;
      if !v.b {
        assert (text + rest)[0] == 'f';
      }
    case Nested =>
  }

  lemma ReadPrintedNumber(n: nat, rest: string)
    requires n <= MAX64 && (rest == [] || !IsDigit(rest[0]))
    ensures ReadUnsigned(SignedDecimal(n) + rest) == Some((n, rest))
  {
    ReadUnsignedDecimal(n, rest);
  }

  predicate NoSpaceFirst(s: string) { s != [] && !IsSpace(s[0]) }

  lemma PrintedFirst(kind: Kind, v: Value, st: Fields)
    requires Readable(kind, v, st)
    ensures NoSpaceFirst(PrintValue(v))
  {
    if v.Num? {
      var n := if v.n < 0 then -v.n else v.n;
      assert IsDigit(Decimal(n)[0]);
    }
  }

  /** A member that can follow the fields `st`. */
  ghost predicate Fits(schema: Schema, e: Entry, st: Fields) {
    && KindOf(schema, e.key).Some? && e.key !in st && NoControl(e.key) && |e.key| <= 256
    && Readable(KindOf(schema, e.key).value, e.value, st)
  }

  lemma ReadPrintedMember(d: Dialect, schema: Schema, y: Style, e: Entry, st: Fields, rest: string)
    requires Faithful(d) && Spaced(d, y) && Fits(schema, e, st) && (rest == [] || !IsDigit(rest[0]))
    ensures ReadMember(d, schema, PrintMember(y, e) + rest, st) == Some((e.key, e.value, rest))
  {
    hide Readable, PrintValue, ReadValue, ReadMember, PrintMember, KindOf;
    var kind := KindOf(schema, e.key).value;
    PrintedFirst(kind, e.value, st);
    ReadMemberValue(d, schema, y, e, st, rest);
    ReadPrintedValue(d, kind, e.value, st, rest);
  }

  /** A printed member reads as whatever its value reads as. */
  lemma ReadMemberValue(d: Dialect, schema: Schema, y: Style, e: Entry, st: Fields, rest: string)
    requires Faithful(d) && Spaced(d, y) && NoSpaceFirst(PrintValue(e.value))
    requires KindOf(schema, e.key).Some? && e.key !in st && NoControl(e.key) && |e.key| <= 256
    ensures var value := ReadValue(d, KindOf(schema, e.key).value, PrintValue(e.value) + rest, st);
            ReadMember(d, schema, PrintMember(y, e) + rest, st)
            == if value.None? then None else Some((e.key, value.value.0, value.value.1))
  {
    hide PrintValue, ReadValue, KindOf;
    var value := PrintValue(e.value) + rest;
    var text := PrintMember(y, e) + rest;
    assert text == Quoted(e.key) + (":" + y.colon + value);
    assert Skip(text) == text;
    hide Quoted;
    assert d.readString(text) == Some((e.key, ":" + y.colon + value));
    var after := ":" + y.colon + value;
    assert Skip(after) == after && after[1..] == y.colon + value;
    SkipSpaces(y.colon, value);
    assert Skip(value) == value;
    assert d.tight ==> y.colon + value == value;
  }

  /** A number its slot does not take. */
  predicate OutOfRange(schema: Schema, e: Entry, st: Fields) {
    && KindOf(schema, e.key).Some? && e.key !in st && NoControl(e.key) && |e.key| <= 256
    && KindOf(schema, e.key).value.Number? && e.value.Num? && e.value.n >= 0
    && !(KindOf(schema, e.key).value.lo <= e.value.n <= KindOf(schema, e.key).value.hi)
  }

  lemma ReadNumberAny(n: nat, rest: string)
    requires rest == [] || !IsDigit(rest[0])
    ensures var r := ReadUnsigned(SignedDecimal(n) + rest); r.None? || r.value.0 == n
  {
    hide DigitRun, Decimal, DecimalValue;
    DecimalPrefix(n, rest);
  }

  lemma ReadOutOfRange(d: Dialect, schema: Schema, y: Style, e: Entry, st: Fields, rest: string)
    requires Faithful(d) && Spaced(d, y) && OutOfRange(schema, e, st) && (rest == [] || !IsDigit(rest[0]))
    ensures ReadMember(d, schema, PrintMember(y, e) + rest, st) == None
  {
    hide ReadMember, PrintMember, KindOf, ReadUnsigned, SignedDecimal;
    NumberFirst(e.value.n);
    ReadMemberValue(d, schema, y, e, st, rest);
    ReadNumberAny(e.value.n, rest);
  }

  lemma NumberFirst(n: nat)
    ensures NoSpaceFirst(SignedDecimal(n))
  {
    assert IsDigit(Decimal(n)[0]);
  }

  /** The fields a list of entries amounts to. */
  function Applied(es: seq<Entry>): Fields {
    if es == [] then map[] else Applied(es[..|es| - 1])[es[|es| - 1].key := es[|es| - 1].value]
  }

  predicate Distinct(es: seq<Entry>) {
    forall i, j | 0 <= i < j < |es| :: es[i].key != es[j].key
  }

  /** Every entry can follow its predecessors. */
  ghost predicate AllFit(schema: Schema, es: seq<Entry>) {
    forall i | 0 <= i < |es| :: Fits(schema, es[i], Applied(es[..i]))
  }

  /** The end of a printed object closes it. */
  lemma ClosingTail(d: Dialect, schema: Schema, y: Style, s: string, st: Fields, name: string, value: Value)
    requires Spaced(d, y) && ReadMember(d, schema, s, st) == Some((name, value, y.close + "}" + y.end))
    requires |y.close + "}" + y.end| < |s|
    ensures ParseMembers(d, schema, s, st) == Some(st[name := value])
  {
    hide ReadMember;
    var brace := "}" + y.end;
    assert y.close + "}" + y.end == y.close + brace;
    SkipSpaces(y.close, brace);
    assert Skip(brace) == brace && brace[1..] == y.end && y.end + "" == y.end;
    SkipSpaces(y.end, "");
  }

  /** A separator leads on to the next member. */
  lemma CommaTail(d: Dialect, schema: Schema, s: string, st: Fields, name: string, value: Value, more: string)
    requires ReadMember(d, schema, s, st) == Some((name, value, "," + more)) && |more| + 1 < |s|
    ensures ParseMembers(d, schema, s, st) == ParseMembers(d, schema, more, st[name := value])
  {
    hide ReadMember;
    var tail := "," + more;
    assert Skip(tail) == tail && tail[1..] == more;
  }

  lemma {:induction false} ParsePrintedMembers(d: Dialect, schema: Schema, y: Style, space: string, es: seq<Entry>,
      i: nat)
    requires Faithful(d) && Spaced(d, y) && AllSpace(space) && i < |es| && AllFit(schema, es)
    ensures ParseMembers(d, schema, space + PrintMembers(y, es[i..]), Applied(es[..i])) == Some(Applied(es))
    decreases |es| - i
  {
    hide PrintMember, Fits, Faithful, ReadMember, ParseMembers, Skip, Applied;
    var e, more, st := es[i], es[i + 1..], Applied(es[..i]);
    AppliedNext(es, i);
    var tail := (if |more| == 0 then "" else "," + y.comma) + PrintMembers(y, more);
    var text := space + PrintMembers(y, es[i..]);
    PrintSplit(y, es, i);
    TailFirst(y, more);
    ReadPrintedMember(d, schema, y, e, st, tail);
    SkipMember(d, schema, space, PrintMembers(y, es[i..]), st);
    MemberNonEmpty(y, e);
    assert |tail| < |text|;
    if more == [] {
      assert es[..i + 1] == es;
      assert tail == y.close + "}" + y.end;
      ClosingTail(d, schema, y, text, st, e.key, e.value);
    } else {
      assert tail == "," + (y.comma + PrintMembers(y, more));
      CommaTail(d, schema, text, st, e.key, e.value, y.comma + PrintMembers(y, more));
      ParsePrintedMembers(d, schema, y, y.comma, es, i + 1);
    }
  }

  /** One number out of range, wherever it stands, and the whole object is refused. */
  lemma {:induction false} ParseRefused(d: Dialect, schema: Schema, y: Style, space: string, es: seq<Entry>, i: nat,
      bad: nat)
    requires Faithful(d) && Spaced(d, y) && AllSpace(space) && i <= bad < |es|
    requires forall k | 0 <= k < bad :: Fits(schema, es[k], Applied(es[..k]))
    requires OutOfRange(schema, es[bad], Applied(es[..bad]))
    ensures ParseMembers(d, schema, space + PrintMembers(y, es[i..]), Applied(es[..i])) == None
    decreases bad - i
  {
    hide PrintMember, Fits, OutOfRange, Faithful, ReadMember, Skip, Applied;
    var e, more, st := es[i], es[i + 1..], Applied(es[..i]);
    var tail := (if |more| == 0 then "" else "," + y.comma) + PrintMembers(y, more);
    var text := space + PrintMembers(y, es[i..]);
    PrintSplit(y, es, i);
    TailFirst(y, more);
    SkipMember(d, schema, space, PrintMembers(y, es[i..]), st);
    if i == bad {
      ReadOutOfRange(d, schema, y, e, st, tail);
    } else {
      hide ParseMembers;
      AppliedNext(es, i);
      ReadPrintedMember(d, schema, y, e, st, tail);
      MemberNonEmpty(y, e);
      assert tail == "," + (y.comma + PrintMembers(y, more));
      CommaTail(d, schema, text, st, e.key, e.value, y.comma + PrintMembers(y, more));
      ParseRefused(d, schema, y, y.comma, es, i + 1, bad);
    }
  }

  lemma PrintedRefused(d: Dialect, schema: Schema, y: Style, es: seq<Entry>, bad: nat)
    requires Faithful(d) && Spaced(d, y) && bad < |es|
    requires forall k | 0 <= k < bad :: Fits(schema, es[k], Applied(es[..k]))
    requires OutOfRange(schema, es[bad], Applied(es[..bad]))
    ensures ParseObject(d, schema, PrintObject(y, es)) == None
  {
    hide Faithful, Fits, OutOfRange, PrintMembers;
    var text := PrintObject(y, es);
    assert Skip(text) == text && text[1..] == y.open + PrintMembers(y, es);
    assert es[0..] == es && es[..0] == [];
    ParseRefused(d, schema, y, y.open, es, 0, bad);
  }

  lemma AppliedNext(es: seq<Entry>, i: nat)
    requires i < |es|
    ensures Applied(es[..i + 1]) == Applied(es[..i])[es[i].key := es[i].value]
  {
    assert es[..i + 1][..i] == es[..i];
  }

  lemma PrintSplit(y: Style, es: seq<Entry>, i: nat)
    requires i < |es|
    ensures PrintMembers(y, es[i..])
            == PrintMember(y, es[i])
               + ((if |es[i + 1..]| == 0 then "" else "," + y.comma) + PrintMembers(y, es[i + 1..]))
  {
    hide PrintMember;
    assert es[i..][0] == es[i] && es[i..][1..] == es[i + 1..];
  }

  lemma TailFirst(y: Style, more: seq<Entry>)
    requires AllSpace(y.close)
    ensures var tail := (if |more| == 0 then "" else "," + y.comma) + PrintMembers(y, more);
            tail != [] && !IsDigit(tail[0]) && |Skip(tail)| <= |tail|
  {
  }

  lemma MemberNonEmpty(y: Style, e: Entry)
    ensures PrintMember(y, e) != []
  {
  }

  /** Space before a member is skipped. */
  lemma SkipMember(d: Dialect, schema: Schema, space: string, s: string, st: Fields)
    requires AllSpace(space)
    ensures ReadMember(d, schema, space + s, st) == ReadMember(d, schema, s, st)
  {
    SkipSpaces(space, s);
  }

  /** A printed object is read back as the fields it was printed from. */
  lemma ParsePrinted(d: Dialect, schema: Schema, y: Style, es: seq<Entry>)
    requires Faithful(d) && Spaced(d, y) && es != [] && AllFit(schema, es)
    ensures ParseObject(d, schema, PrintObject(y, es)) == Some(Applied(es))
  {
    hide Faithful, AllFit, PrintMembers;
    var text := PrintObject(y, es);
    assert Skip(text) == text && text[1..] == y.open + PrintMembers(y, es);
    assert es[0..] == es && es[..0] == [];
    ParsePrintedMembers(d, schema, y, y.open, es, 0);
  }

  // ----- Entries in schema order -----

  predicate DistinctSlots(schema: Schema) {
    forall i, j | 0 <= i < j < |schema| :: schema[i].key != schema[j].key
  }

  lemma {:induction false} KindOfSlot(schema: Schema, i: nat)
    requires DistinctSlots(schema) && i < |schema|
    ensures KindOf(schema, schema[i].key) == Some(schema[i].kind)
    decreases |schema|
  {
    if i > 0 {
      KindOfSlot(schema[1..], i - 1);
    }
  }

  /** The fields hold exactly the entries, each under its own key. */
  lemma {:induction false} AppliedGet(es: seq<Entry>, i: nat)
    requires Distinct(es) && i < |es|
    ensures es[i].key in Applied(es) && Applied(es)[es[i].key] == es[i].value
    decreases |es|
  {
    if i < |es| - 1 {
      AppliedGet(es[..|es| - 1], i);
    }
  }

  lemma {:induction false} AppliedAbsent(es: seq<Entry>, key: string)
    requires forall i | 0 <= i < |es| :: es[i].key != key
    ensures key !in Applied(es)
    decreases |es|
  {
    if es != [] {
      AppliedAbsent(es[..|es| - 1], key);
    }
  }

  lemma {:induction false} AppliedCount(es: seq<Entry>)
    requires Distinct(es)
    ensures |Applied(es)| == |es|
    decreases |es|
  {
    if es != [] {
      var front, last := es[..|es| - 1], es[|es| - 1];
      AppliedCount(front);
      AppliedAbsent(front, last.key);
      assert Applied(es).Keys == Applied(front).Keys + {last.key};
    }
  }

  /** Entry for entry in schema order, each readable in its slot. */
  ghost predicate Aligned(schema: Schema, es: seq<Entry>) {
    && |schema| == |es|
    && forall i | 0 <= i < |es| ::
         && es[i].key == schema[i].key && NoControl(es[i].key) && |es[i].key| <= 256
         && Readable(schema[i].kind, es[i].value, Applied(es[..i]))
  }

  lemma AlignedFits(schema: Schema, es: seq<Entry>)
    requires DistinctSlots(schema) && Aligned(schema, es)
    ensures Distinct(es) && AllFit(schema, es)
  {
    hide Readable, KindOf;
    forall i | 0 <= i < |es| ensures Fits(schema, es[i], Applied(es[..i])) {
      KindOfSlot(schema, i);
      forall k | 0 <= k < i ensures es[..i][k].key != es[i].key { }
      AppliedAbsent(es[..i], es[i].key);
    }
  }

  // ----- Where a printed object ends -----

  function Shift(n: nat, r: Option<nat>): Option<nat> { if r.None? then None else Some(n + r.value) }

  /** Scanning goes over `text` inside an object and comes out as it went in. */
  predicate Passes(text: string, tail: string) {
    ScanObject(text + tail, 1, false, false) == Shift(|text|, ScanObject(tail, 1, false, false))
  }

  lemma PassesConcat(a: string, b: string, tail: string)
    requires Passes(a, b + tail) && Passes(b, tail)
    ensures Passes(a + b, tail)
  {
    hide ScanObject;
    assert a + b + tail == a + (b + tail);
  }

  predicate NoMarks(text: string) {
    forall i | 0 <= i < |text| :: text[i] != QUOTE && text[i] != '{' && text[i] != '}'
  }

  lemma {:induction false} ScanPlain(text: string, tail: string)
    requires NoMarks(text)
    ensures Passes(text, tail)
    decreases |text|
  {
    if text == [] {
      assert text + tail == tail;
    } else {
      ScanPlain(text[1..], tail);
      assert (text + tail)[1..] == text[1..] + tail;
    }
  }

  lemma ScanEscaped(c: char, rest: string)
    ensures ScanObject([BACKSLASH, c] + rest, 1, true, false) == Shift(2, ScanObject(rest, 1, true, false))
  {
    var text := [BACKSLASH, c] + rest;
    assert text[1..] == [c] + rest && text[1..][1..] == rest;
  }

  lemma ScanOrdinary(c: char, rest: string)
    requires c != QUOTE && c != BACKSLASH
    ensures ScanObject([c] + rest, 1, true, false) == Shift(1, ScanObject(rest, 1, true, false))
  {
    assert ([c] + rest)[1..] == rest;
  }

  lemma EscapeSplit(v: string, tail: string)
    requires v != []
    ensures Escape(v) + tail
            == (if v[0] == QUOTE || v[0] == BACKSLASH then [BACKSLASH, v[0]] else [v[0]]) + (Escape(v[1..]) + tail)
  {
  }

  lemma {:induction false} ScanInside(v: string, tail: string)
    ensures ScanObject(Escape(v) + tail, 1, true, false) == Shift(|Escape(v)|, ScanObject(tail, 1, true, false))
    decreases |v|
  {
    if v == [] {
      assert Escape(v) + tail == tail;
    } else {
      hide ScanObject;
      ScanInside(v[1..], tail);
      EscapeSplit(v, tail);
      if v[0] == QUOTE || v[0] == BACKSLASH {
        ScanEscaped(v[0], Escape(v[1..]) + tail);
      } else {
        ScanOrdinary(v[0], Escape(v[1..]) + tail);
      }
    }
  }

  lemma ScanQuoted(v: string, tail: string)
    ensures Passes(Quoted(v), tail)
  {
    hide Escape;
    var close := [QUOTE] + tail;
    ScanInside(v, close);
    assert (Quoted(v) + tail)[1..] == Escape(v) + close;
    assert close[1..] == tail;
  }

  lemma ScanValue(v: Value, tail: string)
    requires !v.Obj?
    ensures Passes(PrintValue(v), tail)
  {
    hide ScanObject, Passes;
    match v
    case Str(t) => ScanQuoted(t, tail);
    case Num(n) =>
      var digits := Decimal(if n < 0 then -n else n);
      assert NoMarks(digits);
      ScanPlain(SignedDecimal(n), tail);
    case Bool(_) => ScanPlain(PrintValue(v), tail);
  }

  lemma ScanMember(e: Entry, tail: string)
    requires !e.value.Obj?
    ensures Passes(PrintMember(COMPACT, e), tail)
  {
    hide ScanObject, Passes, PrintValue, Quoted;
    var value := PrintValue(e.value);
    ScanQuoted(e.key, ":" + (value + tail));
    ScanPlain(":", value + tail);
    PassesConcat(Quoted(e.key), ":", value + tail);
    ScanValue(e.value, tail);
    PassesConcat(Quoted(e.key) + ":", value, tail);
    assert PrintMember(COMPACT, e) == Quoted(e.key) + ":" + value;
  }

  lemma ScanClose(tail: string)
    ensures ScanObject("}" + tail, 1, false, false) == Some(1)
  {
  }

  lemma {:induction false} ScanMembers(es: seq<Entry>, tail: string)
    requires forall i | 0 <= i < |es| :: !es[i].value.Obj?
    ensures ScanObject(PrintMembers(COMPACT, es) + tail, 1, false, false) == Some(|PrintMembers(COMPACT, es)|)
    decreases |es|
  {
    hide PrintMember, ScanObject;
    if es == [] {
      assert PrintMembers(COMPACT, es) == "}";
      ScanClose(tail);
    } else {
      var comma := if |es| == 1 then "" else ",";
      var text, rest := PrintMember(COMPACT, es[0]) + comma, PrintMembers(COMPACT, es[1..]);
      ScanMember(es[0], comma + (rest + tail));
      ScanPlain(comma, rest + tail);
      PassesConcat(PrintMember(COMPACT, es[0]), comma, rest + tail);
      ScanMembers(es[1..], tail);
      assert "," + COMPACT.comma == ",";
      assert PrintMembers(COMPACT, es) == text + rest;
      assert text + rest + tail == text + (rest + tail);
    }
  }

  lemma ScanOpen(s: string)
    requires s != [] && s[0] == '{'
    ensures ScanObject(s, 0, false, false) == Shift(1, ScanObject(s[1..], 1, false, false))
  {
  }

  /** A compactly printed flat object is found whole inside any larger text, whatever its strings hold. */
  lemma PrintedIsSelfDelimiting(es: seq<Entry>)
    requires forall i | 0 <= i < |es| :: !es[i].value.Obj?
    ensures SelfDelimiting(PrintObject(COMPACT, es))
  {
    hide ScanObject, PrintMembers;
    var json := PrintObject(COMPACT, es);
    assert json == "{" + PrintMembers(COMPACT, es);
    forall rest: string ensures ExtractObject(json + rest) == Some((json, rest)) {
      var t := json + rest;
      assert Skip(t) == t;
      assert t[1..] == PrintMembers(COMPACT, es) + rest;
      ScanOpen(t);
      ScanMembers(es, rest);
      assert t[..|json|] == json && t[|json|..] == rest;
    }
  }

  // ----- Sizes -----

  lemma {:induction false} EscapeLength(v: string)
    ensures |Escape(v)| <= 2 * |v|
  {
    if v != [] {
      EscapeLength(v[1..]);
    }
  }

  lemma {:induction false} DecimalLength(n: nat, k: nat)
    requires k > 0 && n < Pow10(k)
    ensures |Decimal(n)| <= k
    decreases k
  {
    if n >= 10 {
      assert k > 1;
      DecimalLength(n / 10, k - 1);
    }
  }

  function Pow10(k: nat): nat { if k == 0 then 1 else 10 * Pow10(k - 1) }

  lemma DecimalShort(n: nat)
    requires n <= MAX64
    ensures |Decimal(n)| <= 20
  {
    assert Pow10(4) == 10000;
    assert Pow10(8) == 100000000 by { assert Pow10(6) == 1000000; }
    assert Pow10(12) == 1000000000000 by { assert Pow10(10) == 10000000000; }
    assert Pow10(16) == 10000000000000000 by { assert Pow10(14) == 100000000000000; }
    assert Pow10(20) == 100000000000000000000 by { assert Pow10(18) == 1000000000000000000; }
    DecimalLength(n, 20);
  }

  lemma {:induction false} MembersLength(y: Style, es: seq<Entry>, each: nat)
    requires forall i | 0 <= i < |es| :: |PrintMember(y, es[i])| <= each
    ensures |PrintMembers(y, es)| <= |es| * (each + 1 + |y.comma|) + |y.close| + 1 + |y.end|
    decreases |es|
  {
    hide PrintMember;
    if es != [] {
      MembersLength(y, es[1..], each);
      var step := each + 1 + |y.comma|;
      assert |es| * step == (|es| - 1) * step + step;
    }
  }
}
