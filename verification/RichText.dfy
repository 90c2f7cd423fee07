/** JSON strings with the escapes of section 7 of RFC 8259, decoded to UTF-8. Characters stand for bytes. */
module RichText {
  import opened Wrappers
  import opened Text

  function HexValue(c: char): Option<nat> {
    if '0' <= c <= '9' then Some(c as int - '0' as int)
    else if 'a' <= c <= 'f' then Some(c as int - 'a' as int + 10)
    else if 'A' <= c <= 'F' then Some(c as int - 'A' as int + 10)
    else None
  }

  function ReadHex(s: string, digits: nat, value: nat): Option<nat>
    decreases digits
  {
    if digits == 0 then Some(value)
    else if s == [] || HexValue(s[0]).None? then None
    else ReadHex(s[1..], digits - 1, value * 16 + HexValue(s[0]).value)
  }

  function Byte(n: nat): char
    requires n < 256
  {
    n as char
  }

  /** UTF-8 (section 3 of RFC 3629). */
  function Utf8(cp: nat): (s: string)
    requires cp <= 0x10FFFF
    ensures 1 <= |s| <= 4
  {
    if cp <= 0x7F then [Byte(cp)]
    else if cp <= 0x7FF then [Byte(0xC0 + cp / 64), Byte(0x80 + cp % 64)]
    else if cp <= 0xFFFF then [Byte(0xE0 + cp / 4096), Byte(0x80 + cp / 64 % 64), Byte(0x80 + cp % 64)]
    else [Byte(0xF0 + cp / 262144), Byte(0x80 + cp / 4096 % 64), Byte(0x80 + cp / 64 % 64), Byte(0x80 + cp % 64)]
  }

  /** What follows `\u`: one code unit or a surrogate pair. */
  function ReadUnicode(s: string): (r: Option<(string, string)>)
    ensures r.Some? ==> |r.value.1| < |s|
  {
    if |s| < 4 || ReadHex(s[..4], 4, 0).None? then None
    else
      var unit := ReadHex(s[..4], 4, 0).value;
      if 0xD800 <= unit <= 0xDBFF then
        if |s| < 10 || s[4] != BACKSLASH || s[5] != 'u' || ReadHex(s[6..10], 4, 0).None? then None
        else
          var low := ReadHex(s[6..10], 4, 0).value;
          if low < 0xDC00 || low > 0xDFFF then None
          else Some((Utf8(0x10000 + (unit - 0xD800) * 1024 + (low - 0xDC00)), s[10..]))
      else if 0xDC00 <= unit <= 0xDFFF || unit < 0x20 || unit > 0xFFFF then None
      else Some((Utf8(unit), s[4..]))
  }

  /** What follows a backslash. */
  function ReadEscape(s: string): (r: Option<(string, string)>)
    ensures r.Some? ==> |r.value.1| < |s|
  {
    if s == [] then None
    else match s[0]
      case '\"' => Some(("\"", s[1..]))
      case '\\' => Some(("\\", s[1..]))
      case '/' => Some(("/", s[1..]))
      case 'b' => Some(([Byte(8)], s[1..]))
      case 'f' => Some(([Byte(12)], s[1..]))
      case 'n' => Some(("\n", s[1..]))
      case 'r' => Some(("\r", s[1..]))
      case 't' => Some(("\t", s[1..]))
      case 'u' => ReadUnicode(s[1..])
      case _ => None
  }

  function ReadRichChars(s: string, acc: string): (r: Option<(string, string)>)
    ensures r.Some? ==> |r.value.1| < |s| && |r.value.0| <= 256
    decreases |s|
  {
    if s == [] then None
    else if s[0] == QUOTE then (if |acc| <= 256 then Some((acc, s[1..])) else None)
    else if Control(s[0]) then None
    else if s[0] != BACKSLASH then ReadRichChars(s[1..], acc + [s[0]])
    else
      var e := ReadEscape(s[1..]);
      if e.None? then None else ReadRichChars(e.value.1, acc + e.value.0)
  }

  function ReadRichString(s: string): (r: Option<(string, string)>)
    ensures r.Some? ==> |r.value.1| < |s| && |r.value.0| <= 256
  {
    if s == [] || s[0] != QUOTE then None else ReadRichChars(s[1..], [])
  }

  // ----- Reading back what is printed -----

  lemma ReadMarkEscape(c: char, rest: string, acc: string)
    requires c == QUOTE || c == BACKSLASH
    ensures ReadRichChars([BACKSLASH, c] + rest, acc) == ReadRichChars(rest, acc + [c])
  {
    var text := [BACKSLASH, c] + rest;
    assert text[1..] == [c] + rest && ([c] + rest)[1..] == rest;
    assert ReadEscape(text[1..]) == Some(([c], rest));
  }

  lemma ReadOrdinary(c: char, rest: string, acc: string)
    requires c != QUOTE && c != BACKSLASH && !Control(c)
    ensures ReadRichChars([c] + rest, acc) == ReadRichChars(rest, acc + [c])
  {
    assert ([c] + rest)[1..] == rest;
  }

  lemma {:induction false} ReadRichEscaped(v: string, acc: string, rest: string)
    requires NoControl(v) && |acc| + |v| <= 256
    ensures ReadRichChars(Escape(v) + ([QUOTE] + rest), acc) == Some((acc + v, rest))
    decreases |v|
  {
    var close := [QUOTE] + rest;
    if v == [] {
      assert Escape(v) + close == close && close[1..] == rest && acc + v == acc;
    } else {
      var tail := Escape(v[1..]) + close;
      ReadRichEscaped(v[1..], acc + [v[0]], rest);
      assert acc + [v[0]] + v[1..] == acc + v;
      hide ReadRichChars;
      if v[0] == QUOTE || v[0] == BACKSLASH {
        assert Escape(v) + close == [BACKSLASH, v[0]] + tail;
        ReadMarkEscape(v[0], tail, acc);
      } else {
        assert Escape(v) + close == [v[0]] + tail;
        ReadOrdinary(v[0], tail, acc);
      }
    }
  }

  /** The printer's two escapes are understood by the richer reader too. */
  lemma ReadRichQuoted(v: string, rest: string)
    requires NoControl(v) && |v| <= 256
    ensures ReadRichString(Quoted(v) + rest) == Some((v, rest))
  {
    ReadRichEscaped(v, [], rest);
    assert (Quoted(v) + rest)[1..] == Escape(v) + ([QUOTE] + rest);
    assert [] + v == v;
  }

  // ----- Unicode escapes -----

  function HexChar(d: nat): (c: char)
    requires d < 16
    ensures HexValue(c) == Some(d)
  {
    if d < 10 then '0' + d as char else 'a' + (d - 10) as char
  }

  function Hex4(n: nat): (s: string)
    requires n < 0x10000
    ensures |s| == 4
  {
    [HexChar(n / 4096), HexChar(n / 256 % 16), HexChar(n / 16 % 16), HexChar(n % 16)]
  }

  predicate ScalarValue(cp: nat) { cp <= 0x10FFFF && !(0xD800 <= cp <= 0xDFFF) }

  /** How RFC 8259 writes a code point in escaped form. */
  function UnicodeEscape(cp: nat): string
    requires ScalarValue(cp)
  {
    if cp < 0x10000 then "\\u" + Hex4(cp)
    else "\\u" + Hex4(0xD800 + (cp - 0x10000) / 1024) + "\\u" + Hex4(0xDC00 + (cp - 0x10000) % 1024)
  }

  lemma ReadHexStep(d: nat, rest: string, digits: nat, value: nat)
    requires d < 16
    ensures ReadHex([HexChar(d)] + rest, digits + 1, value) == ReadHex(rest, digits, value * 16 + d)
  {
    assert ([HexChar(d)] + rest)[1..] == rest;
  }

  lemma HexDigits(n: nat)
    requires n < 0x10000
    ensures ((n / 4096 * 16 + n / 256 % 16) * 16 + n / 16 % 16) * 16 + n % 16 == n
  {
    var p := n / 16;
    assert p / 16 == n / 256 && p / 16 / 16 == n / 4096;
  }

  lemma ReadFourDigits(a: nat, b: nat, c: nat, d: nat)
    requires a < 16 && b < 16 && c < 16 && d < 16
    ensures ReadHex([HexChar(a), HexChar(b), HexChar(c), HexChar(d)], 4, 0) == Some(((a * 16 + b) * 16 + c) * 16 + d)
  {
    hide ReadHex, HexChar;
    assert [HexChar(a), HexChar(b), HexChar(c), HexChar(d)] == [HexChar(a)] + [HexChar(b), HexChar(c), HexChar(d)];
    ReadHexStep(a, [HexChar(b), HexChar(c), HexChar(d)], 3, 0);
    assert [HexChar(b), HexChar(c), HexChar(d)] == [HexChar(b)] + [HexChar(c), HexChar(d)];
    ReadHexStep(b, [HexChar(c), HexChar(d)], 2, a);
    assert [HexChar(c), HexChar(d)] == [HexChar(c)] + [HexChar(d)];
    ReadHexStep(c, [HexChar(d)], 1, a * 16 + b);
    assert [HexChar(d)] == [HexChar(d)] + [];
    ReadHexStep(d, [], 0, (a * 16 + b) * 16 + c);
    ReadHexEnd([], ((a * 16 + b) * 16 + c) * 16 + d);
  }

  lemma ReadHex4(n: nat)
    requires n < 0x10000
    ensures ReadHex(Hex4(n), 4, 0) == Some(n)
  {
    hide ReadHex, HexChar;
    HexDigits(n);
    ReadFourDigits(n / 4096, n / 256 % 16, n / 16 % 16, n % 16);
  }

  lemma ReadHexEnd(s: string, value: nat)
    ensures ReadHex(s, 0, value) == Some(value)
  {
  }

  lemma ReadUnit(unit: nat, rest: string)
    requires unit < 0x10000 && !(0xD800 <= unit <= 0xDFFF)
    ensures ReadUnicode(Hex4(unit) + rest) == if unit >= 0x20 then Some((Utf8(unit), rest)) else None
  {
    hide ReadHex, Hex4, Utf8;
    var body := Hex4(unit) + rest;
    ReadHex4(unit);
    assert body[..4] == Hex4(unit) && body[4..] == rest;
  }

  lemma ReadPair(high: nat, low: nat, rest: string)
    requires 0xD800 <= high <= 0xDBFF && 0xDC00 <= low <= 0xDFFF
    ensures ReadUnicode(Hex4(high) + ("\\u" + (Hex4(low) + rest)))
            == Some((Utf8(0x10000 + (high - 0xD800) * 1024 + (low - 0xDC00)), rest))
  {
    hide ReadHex, Hex4, Utf8;
    var body := Hex4(high) + ("\\u" + (Hex4(low) + rest));
    ReadHex4(high);
    ReadHex4(low);
    assert body[..4] == Hex4(high) && body[4] == BACKSLASH && body[5] == 'u';
    assert body[6..10] == Hex4(low) && body[10..] == rest;
  }

  /** Every code point from space upwards, escaped alone or as a surrogate pair, decodes to its UTF-8 form;
      below that it is refused. */
  lemma UnicodeEscapeDecodes(cp: nat, rest: string)
    requires ScalarValue(cp)
    ensures ReadEscape((UnicodeEscape(cp) + rest)[1..]) == if cp >= 0x20 then Some((Utf8(cp), rest)) else None
  {
    hide ReadUnicode, Hex4, Utf8;
    var text := UnicodeEscape(cp) + rest;
    assert text[1] == 'u' && text[1..][1..] == text[2..];
    if cp < 0x10000 {
      ReadUnit(cp, rest);
      assert text[2..] == Hex4(cp) + rest;
    } else {
      var high, low := 0xD800 + (cp - 0x10000) / 1024, 0xDC00 + (cp - 0x10000) % 1024;
      ReadPair(high, low, rest);
      assert text[2..] == Hex4(high) + ("\\u" + (Hex4(low) + rest));
    }
  }
}
