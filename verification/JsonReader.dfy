/** The readers and printers as loops over a position in the text, each equal to its definition on the text
    that remains. */
module JsonReader {
  import opened Wrappers
  import opened Text
  import opened FlatJson
  import opened Ipv4

  lemma Drop(s: string, i: nat)
    requires i < |s|
    ensures s[i..] != [] && s[i..][0] == s[i] && s[i..][1..] == s[i + 1..]
  {
  }

  method SkipSpace(input: string, position: nat) returns (next: nat)
    requires position <= |input|
    ensures position <= next <= |input| && input[next..] == Skip(input[position..])
  {
    next := position;
    while next < |input| && IsSpace(input[next])
      invariant position <= next <= |input| && Skip(input[next..]) == Skip(input[position..])
    {
      Drop(input, next);
      next := next + 1;
    }
  }

  /** Space, then the expected character. */
  method Consume(input: string, position: nat, expected: char) returns (ok: bool, next: nat)
    requires position <= |input|
    ensures next <= |input|
    ensures var t := Skip(input[position..]);
            (ok <==> t != [] && t[0] == expected) && (ok ==> input[next..] == t[1..] && next > position)
  {
    next := SkipSpace(input, position);
    if next == |input| || input[next] != expected {
      return false, next;
    }
    Drop(input, next);
    return true, next + 1;
  }

  method ReadStringAt(input: string, position: nat) returns (ok: bool, next: nat, text: string)
    requires position <= |input|
    ensures next <= |input|
    ensures ReadString(input[position..]) == if ok then Some((text, input[next..])) else None
  {
    ok, next, text := false, position, "";
    if position == |input| || input[position] != QUOTE {
      return;
    }
    Drop(input, position);
    next := position + 1;
    ghost var whole := ReadString(input[position..]);
    while next < |input|
      invariant position < next <= |input| && ReadChars(input[next..], text) == whole
    {
      Drop(input, next);
      var c := input[next];
      next := next + 1;
      if c == QUOTE {
        return |text| <= 256, next, text;
      }
      if Control(c) {
        return;
      }
      if c == BACKSLASH {
        if next == |input| || (input[next] != QUOTE && input[next] != BACKSLASH) {
          return;
        }
        assert input[next - 1..][1] == input[next] && input[next - 1..][2..] == input[next + 1..];
        c := input[next];
        next := next + 1;
      }
      text := text + [c];
    }
  }

  /** All digits first, then their value with an overflow check. */
  method ReadUnsignedAt(input: string, position: nat) returns (ok: bool, next: nat, value: nat)
    requires position <= |input|
    ensures next <= |input|
    ensures ReadUnsigned(input[position..]) == if ok then Some((value, input[next..])) else None
  {
    next, value := position, 0;
    while next < |input| && IsDigit(input[next])
      invariant position <= next <= |input|
      invariant DigitRun(input[position..]) == next - position + DigitRun(input[next..])
    {
      Drop(input, next);
      next := next + 1;
    }
    var digits := input[position..next];
    assert input[position..][..next - position] == digits && input[position..][next - position..] == input[next..];
    if digits == "" {
      return false, next, 0;
    }
    var k := 0;
    while k < |digits|
      invariant 0 <= k <= |digits| && value == DecimalValue(digits[..k])
    {
      assert digits[..k + 1][..k] == digits[..k];
      value := 10 * value + DigitValue(digits[k]);
      k := k + 1;
    }
    assert digits[..k] == digits;
    ok := value <= MAX64;
  }

  /** The scanner's flags after one character that does not close the object. */
  function Scanned(c: char, depth: nat, quoted: bool, escaped: bool): (nat, bool, bool) {
    if quoted then (depth, escaped || c != QUOTE, !escaped && c == BACKSLASH)
    else if c == QUOTE then (depth, true, false)
    else if c == '{' then (depth + 1, false, false)
    else if c == '}' then (if depth == 0 then 0 else depth - 1, false, false)
    else (depth, false, false)
  }

  lemma ScanStep(input: string, i: nat, depth: nat, quoted: bool, escaped: bool)
    requires i < |input|
    ensures var (d, q, e) := Scanned(input[i], depth, quoted, escaped);
            ScanObject(input[i..], depth, quoted, escaped)
            == if !quoted && input[i] == '}' && depth == 1 then Some(1)
               else Shift(1, ScanObject(input[i + 1..], d, q, e))
  {
    Drop(input, i);
  }

  /** The brace scanner: one pass with a depth and two flags. */
  method ExtractObjectAt(input: string, position: nat) returns (ok: bool, next: nat, json: string)
    requires position <= |input|
    ensures next <= |input|
    ensures ExtractObject(input[position..]) == if ok then Some((json, input[next..])) else None
  {
    next := SkipSpace(input, position);
    ok, json := false, "";
    if next == |input| || input[next] != '{' {
      return;
    }
    var begin := next;
    ok, next := ScanAt(input, begin);
    if ok {
      json := input[begin..next];
      assert input[begin..][..next - begin] == json && input[begin..][next - begin..] == input[next..];
    }
  }

  method ScanAt(input: string, begin: nat) returns (ok: bool, next: nat)
    requires begin <= |input|
    ensures begin <= next <= |input|
    ensures ScanObject(input[begin..], 0, false, false) == if ok then Some(next - begin) else None
  {
    ScanEmpty();
    hide ScanObject;
    next := begin;
    var depth: nat, quoted, escaped := 0, false, false;
    while next < |input|
      invariant begin <= next <= |input| && (!quoted ==> !escaped)
      invariant ScanObject(input[begin..], 0, false, false)
                == Shift(next - begin, ScanObject(input[next..], depth, quoted, escaped))
    {
      ScanStep(input, next, depth, quoted, escaped);
      var c := input[next];
      next := next + 1;
      if quoted {
        if escaped {
          escaped := false;
        } else if c == BACKSLASH {
          escaped := true;
        } else if c == QUOTE {
          quoted := false;
        }
      } else if c == QUOTE {
        quoted := true;
      } else if c == '{' {
        depth := depth + 1;
      } else if c == '}' {
        if depth == 1 {
          return true, next;
        }
        depth := if depth == 0 then 0 else depth - 1;
      }
    }
    assert input[next..] == [];
    ok := false;
  }

  lemma ScanEmpty()
    ensures forall depth: nat, quoted: bool, escaped: bool :: ScanObject([], depth, quoted, escaped) == None
  {
  }

  predicate PlainKind(k: Kind) { !k.Signed? && !k.Flag? }

  method ReadValueAt(kind: Kind, input: string, position: nat, tight: bool, fields: Fields)
      returns (r: Option<Value>, next: nat)
    requires position <= |input| && PlainKind(kind)
    ensures next <= |input|
    ensures ReadValue(Plainly(tight), kind, input[position..], fields)
            == if r.Some? then Some((r.value, input[next..])) else None
  {
    hide ReadUnsigned, ReadString, ExtractObject;
    var ok: bool;
    match kind
    case Words(nonEmpty) =>
      var text;
      ok, next, text := ReadStringAt(input, position);
      r := if ok && !(nonEmpty && text == "") then Some(Str(text)) else None;
    case Number(lo, hi) =>
      var n;
      ok, next, n := ReadUnsignedAt(input, position);
      r := if ok && lo <= n <= hi then Some(Num(n)) else None;
    case AtLeast(key) =>
      var n;
      ok, next, n := ReadUnsignedAt(input, position);
      r := if ok && n >= Floor(fields, key) then Some(Num(n)) else None;
    case Nested =>
      var json;
      ok, next, json := ExtractObjectAt(input, position);
      r := if ok then Some(Obj(json)) else None;
  }

  ghost predicate PlainSchema(schema: Schema) {
    forall name: string :: KindOf(schema, name).Some? ==> PlainKind(KindOf(schema, name).value)
  }

  method ReadMemberAt(schema: Schema, tight: bool, input: string, position: nat, fields: Fields)
    returns (r: Option<(string, Value)>, next: nat)
    requires position <= |input| && PlainSchema(schema)
    ensures next <= |input|
    ensures ReadMember(Plainly(tight), schema, input[position..], fields)
            == if r.Some? then Some((r.value.0, r.value.1, input[next..])) else None
  {
    hide ReadString, ReadValue, KindOf, Skip;
    next := SkipSpace(input, position);
    var ok, name;
    ok, next, name := ReadStringAt(input, next);
    if !ok {
      return None, next;
    }
    ok, next := Consume(input, next, ':');
    var kind := KindOf(schema, name);
    if !ok || name in fields || kind.None? {
      return None, next;
    }
    if !tight {
      next := SkipSpace(input, next);
    }
    var value;
    value, next := ReadValueAt(kind.value, input, next, tight, fields);
    r := if value.Some? then Some((name, value.value)) else None;
  }

  /** The member loop of the network parsers: a position, the fields seen so far, one member a round. */
  method ParseObjectText(schema: Schema, tight: bool, input: string) returns (r: Option<Fields>)
    requires PlainSchema(schema)
    ensures r == ParseObject(Plainly(tight), schema, input)
  {
    hide ReadMember, KindOf, PlainSchema, Skip;
    assert input[0..] == input;
    var ok, position := Consume(input, 0, '{');
    if !ok {
      return None;
    }
    var fields: Fields := map[];
    while true
      invariant position <= |input|
      invariant ParseObject(Plainly(tight), schema, input)
                == ParseMembers(Plainly(tight), schema, input[position..], fields)
      decreases |input| - position
    {
      var member, next := ReadMemberAt(schema, tight, input, position, fields);
      if member.None? {
        return None;
      }
      MemberAdvances(schema, tight, input, position, fields, next);
      next := SkipSpace(input, next);
      if next == |input| {
        return None;
      }
      Drop(input, next);
      if input[next] == '}' {
        var end := SkipSpace(input, next + 1);
        return if end == |input| then Some(fields[member.value.0 := member.value.1]) else None;
      }
      if input[next] != ',' {
        return None;
      }
      fields, position := fields[member.value.0 := member.value.1], next + 1;
    }
  }

  /** A member takes up some of the text. */
  lemma MemberAdvances(schema: Schema, tight: bool, input: string, position: nat, fields: Fields, next: nat)
    requires position <= |input| && next <= |input| && PlainSchema(schema)
    requires var m := ReadMember(Plainly(tight), schema, input[position..], fields);
              m.Some?
              && m.value.2 == input[next..]
    ensures next > position
  {
    hide ReadUnsigned, ReadString, ExtractObject, KindOf;
    var s := input[position..];
    var key := ReadString(Skip(s));
    var t := Skip(key.value.1);
    assert |t| < |s|;
  }

  lemma {:induction false} PlainSlots(schema: Schema, name: string)
    requires forall i | 0 <= i < |schema| :: PlainKind(schema[i].kind)
    ensures KindOf(schema, name).Some? ==> PlainKind(KindOf(schema, name).value)
  {
    if schema != [] {
      PlainSlots(schema[1..], name);
    }
  }

  lemma SchemaIsPlain(schema: Schema)
    requires forall i | 0 <= i < |schema| :: PlainKind(schema[i].kind)
    ensures PlainSchema(schema)
  {
    hide PlainKind;
    forall name: string ensures KindOf(schema, name).Some? ==> PlainKind(KindOf(schema, name).value) {
      PlainSlots(schema, name);
    }
  }

  lemma EscapeEmpty()
    ensures Escape([]) == []
  {
  }

  lemma EscapeAt(value: string, k: nat, result: string)
    requires k < |value|
    ensures var c := value[k];
            var step := if c == QUOTE || c == BACKSLASH then result + [BACKSLASH] + [c] else result + [c];
            result + Escape(value[k..]) == step + Escape(value[k + 1..])
  {
    Drop(value, k);
  }

  /** The escaping loop of the printers. */
  method EscapeText(value: string) returns (result: string)
    ensures result == Escape(value)
  {
    assert value[0..] == value && value[|value|..] == [];
    EscapeEmpty();
    hide Escape;
    result := "";
    var k := 0;
    while k < |value|
      invariant 0 <= k <= |value| && result + Escape(value[k..]) == Escape(value)
    {
      EscapeAt(value, k, result);
      if value[k] == QUOTE || value[k] == BACKSLASH {
        result := result + [BACKSLASH];
      }
      result := result + [value[k]];
      k := k + 1;
    }
  }

  /** The bit loop of `prefix_from_netmask`: leading ones, refused when a one follows a zero. */
  method CountLeadingOnes(width: nat, mask: nat) returns (r: Option<nat>)
    requires mask < Pow2(width)
    ensures r == LeadingOnes(width, mask, false)
  {
    var bits: nat, rest: nat, prefix: nat, zeroSeen := width, mask, 0, false;
    while bits > 0
      invariant bits <= width && rest < Pow2(bits)
      invariant LeadingOnes(width, mask, false) == Shift(prefix, LeadingOnes(bits, rest, zeroSeen))
    {
      if rest >= Pow2(bits - 1) {
        if zeroSeen {
          return None;
        }
        rest, prefix := rest - Pow2(bits - 1), prefix + 1;
      } else {
        zeroSeen := true;
      }
      bits := bits - 1;
    }
    r := Some(prefix);
  }
}
