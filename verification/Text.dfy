/** Decimal numbers and the lexical pieces of the JSON files. A parser is a function of the text that
    remains; `None` is failure. */
module Text {
  import opened Wrappers

  const MAX64: nat := 0xFFFF_FFFF_FFFF_FFFF

  // ----- Decimal -----

  predicate IsDigit(c: char) { '0' <= c <= '9' }

  function DigitChar(d: nat): (c: char)
    requires d < 10
    ensures IsDigit(c)
  {
    '0' + d as char
  }

  function DigitValue(c: char): (d: nat)
    requires IsDigit(c)
    ensures d < 10
  {
    c as int - '0' as int
  }

  /** The decimal form of a number, no leading zeros. */
  function Decimal(n: nat): (s: string)
    ensures s != [] && forall i | 0 <= i < |s| :: IsDigit(s[i])
  {
    if n < 10 then [DigitChar(n)] else Decimal(n / 10) + [DigitChar(n % 10)]
  }

  function DecimalValue(s: string): nat
    requires forall i | 0 <= i < |s| :: IsDigit(s[i])
  {
    if s == [] then 0 else 10 * DecimalValue(s[..|s| - 1]) + DigitValue(s[|s| - 1])
  }

  lemma {:induction false} DecimalRoundTrip(n: nat)
    ensures DecimalValue(Decimal(n)) == n
  {
    if n >= 10 {
      DecimalRoundTrip(n / 10);
      var s := Decimal(n);
      assert s[..|s| - 1] == Decimal(n / 10);
    } else {
      assert Decimal(n)[..0] == [];
    }
  }

  /** Length of the run of digits a text starts with. */
  function DigitRun(s: string): (n: nat)
    ensures n <= |s| && forall i | 0 <= i < n :: IsDigit(s[i])
    ensures n < |s| ==> !IsDigit(s[n])
  {
    if s == [] || !IsDigit(s[0]) then 0 else 1 + DigitRun(s[1..])
  }

  lemma {:induction false} DigitRunOf(digits: string, rest: string)
    requires forall i | 0 <= i < |digits| :: IsDigit(digits[i])
    requires rest == [] || !IsDigit(rest[0])
    ensures DigitRun(digits + rest) == |digits|
  {
    if digits == [] {
      assert digits + rest == rest;
    } else {
      assert (digits + rest)[1..] == digits[1..] + rest;
      DigitRunOf(digits[1..], rest);
    }
  }

  /** An unsigned 64-bit number: all the digits there are, refused on overflow. */
  function ReadUnsigned(s: string): (r: Option<(nat, string)>)
    ensures r.Some? ==> r.value.0 <= MAX64 && |r.value.1| < |s|
  {
    var n := DigitRun(s);
    if n == 0 then None
    else
      var v := DecimalValue(s[..n]);
      if v > MAX64 then None else Some((v, s[n..]))
  }

  lemma DecimalPrefix(n: nat, rest: string)
    requires rest == [] || !IsDigit(rest[0])
    ensures var s := Decimal(n) + rest;
            && DigitRun(s) == |Decimal(n)| && s[..DigitRun(s)] == Decimal(n) && s[DigitRun(s)..] == rest
            && DecimalValue(s[..DigitRun(s)]) == n
  {
    DigitRunOf(Decimal(n), rest);
    DecimalRoundTrip(n);
    assert (Decimal(n) + rest)[..|Decimal(n)|] == Decimal(n);
    assert (Decimal(n) + rest)[|Decimal(n)|..] == rest;
  }

  lemma ReadUnsignedDecimal(n: nat, rest: string)
    requires n <= MAX64 && (rest == [] || !IsDigit(rest[0]))
    ensures ReadUnsigned(Decimal(n) + rest) == Some((n, rest))
  {
    hide DigitRun, Decimal, DecimalValue;
    DecimalPrefix(n, rest);
  }

  /** A signed 64-bit number with an optional minus. */
  function ReadSigned(s: string): (r: Option<(int, string)>)
    ensures r.Some? ==> |r.value.1| < |s|
  {
    var negative := s != [] && s[0] == '-';
    var digits := if negative then s[1..] else s;
    var n := DigitRun(digits);
    if n == 0 then None
    else
      var v: int := DecimalValue(digits[..n]);
      if v > (if negative then 0x8000_0000_0000_0000 else 0x7FFF_FFFF_FFFF_FFFF) then None
      else Some((if negative then -v else v, digits[n..]))
  }

  function SignedDecimal(v: int): string { if v < 0 then "-" + Decimal(-v) else Decimal(v) }

  lemma ReadNegativeDecimal(v: int, rest: string)
    requires -0x8000_0000_0000_0000 <= v < 0 && (rest == [] || !IsDigit(rest[0]))
    ensures ReadSigned("-" + Decimal(-v) + rest) == Some((v, rest))
  {
    hide DigitRun, Decimal, DecimalValue;
    DecimalPrefix(-v, rest);
    assert ("-" + Decimal(-v) + rest)[1..] == Decimal(-v) + rest;
  }

  lemma ReadPositiveDecimal(n: nat, rest: string)
    requires n <= 0x7FFF_FFFF_FFFF_FFFF && (rest == [] || !IsDigit(rest[0]))
    ensures ReadSigned(Decimal(n) + rest) == Some((n as int, rest))
  {
    hide DigitRun, Decimal, DecimalValue;
    DecimalPrefix(n, rest);
    assert (Decimal(n) + rest)[0] == Decimal(n)[0];
  }

  lemma ReadSignedDecimal(v: int, rest: string)
    requires -0x8000_0000_0000_0000 <= v <= 0x7FFF_FFFF_FFFF_FFFF && (rest == [] || !IsDigit(rest[0]))
    ensures ReadSigned(SignedDecimal(v) + rest) == Some((v, rest))
  {
    hide Decimal, ReadSigned;
    if v < 0 {
      ReadNegativeDecimal(v, rest);
    } else {
      ReadPositiveDecimal(v, rest);
    }
  }

  // ----- Space -----

  predicate IsSpace(c: char) { c == ' ' || c == '\t' || c == '\r' || c == '\n' }

  function Skip(s: string): (r: string)
    ensures |r| <= |s| && (r != [] ==> !IsSpace(r[0]))
  {
    if s == [] || !IsSpace(s[0]) then s else Skip(s[1..])
  }

  // ----- Quoted strings -----

  const QUOTE: char := '\"'
  const BACKSLASH: char := '\\'

  predicate Control(c: char) { c < ' ' }

  /** Backslash before quote and backslash, nothing else. */
  function Escape(v: string): string {
    if v == [] then []
    else (if v[0] == QUOTE || v[0] == BACKSLASH then [BACKSLASH, v[0]] else [v[0]]) + Escape(v[1..])
  }

  function Quoted(v: string): string { [QUOTE] + Escape(v) + [QUOTE] }

  predicate NoControl(v: string) { forall i | 0 <= i < |v| :: !Control(v[i]) }

  /** The inside of a quoted string after `acc`; only the two escapes above are understood. */
  function ReadChars(s: string, acc: string): (r: Option<(string, string)>)
    ensures r.Some? ==> |r.value.1| < |s| && |r.value.0| <= 256 && acc <= r.value.0
    decreases |s|
  {
    if s == [] then None
    else if s[0] == QUOTE then (if |acc| <= 256 then Some((acc, s[1..])) else None)
    else if Control(s[0]) then None
    else if s[0] != BACKSLASH then ReadChars(s[1..], acc + [s[0]])
    else if |s| < 2 || (s[1] != QUOTE && s[1] != BACKSLASH) then None
    else ReadChars(s[2..], acc + [s[1]])
  }

  function ReadString(s: string): (r: Option<(string, string)>)
    ensures r.Some? ==> |r.value.1| < |s| && |r.value.0| <= 256
  {
    if s == [] || s[0] != QUOTE then None else ReadChars(s[1..], [])
  }

  lemma {:induction false} ReadCharsEscaped(v: string, acc: string, rest: string)
    ensures ReadChars(Escape(v) + [QUOTE] + rest, acc)
            == if NoControl(v) && |acc| + |v| <= 256 then Some((acc + v, rest)) else None
    decreases |v|
  {
    var text := Escape(v) + [QUOTE] + rest;
    if v == [] {
      assert text == [QUOTE] + rest && text[1..] == rest && acc + v == acc;
    } else {
      var tail := Escape(v[1..]) + [QUOTE] + rest;
      ReadCharsEscaped(v[1..], acc + [v[0]], rest);
      assert acc + [v[0]] + v[1..] == acc + v;
      assert NoControl(v) <==> !Control(v[0]) && NoControl(v[1..]) by { assert v == [v[0]] + v[1..]; }
      if v[0] == QUOTE || v[0] == BACKSLASH {
        assert text[2..] == tail;
      } else {
        assert text[1..] == tail;
      }
    }
  }

  /** A quoted text is read back exactly when it has no control characters and at most 256 bytes. */
  lemma ReadStringQuoted(v: string, rest: string)
    ensures ReadString(Quoted(v) + rest) == if NoControl(v) && |v| <= 256 then Some((v, rest)) else None
  {
    ReadCharsEscaped(v, [], rest);
    assert (Quoted(v) + rest)[1..] == Escape(v) + [QUOTE] + rest;
    assert [] + v == v;
  }
}
