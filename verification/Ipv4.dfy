/** Dotted-decimal IPv4 text as `inet_pton` and `inet_ntop` treat it, and netmasks. Addresses are
    unsigned 32-bit numbers in host order. */
module Ipv4 {
  import opened Wrappers
  import opened Text

  // ----- Reading -----

  function Join(octets: seq<nat>): nat {
    if octets == [] then 0 else Join(octets[..|octets| - 1]) * 256 + octets[|octets| - 1]
  }

  /** `octets` are complete; `current` is the octet being read, none before its first digit. */
  function ReadFrom(s: string, octets: seq<nat>, current: Option<nat>): Option<nat>
    decreases |s|
  {
    if s == [] then (if current.Some? && |octets| == 3 then Some(Join(octets + [current.value])) else None)
    else if IsDigit(s[0]) then
      var d := DigitValue(s[0]);
      if current.None? then (if |octets| >= 4 then None else ReadFrom(s[1..], octets, Some(d)))
      else if current.value == 0 || 10 * current.value + d > 255 then None
      else ReadFrom(s[1..], octets, Some(10 * current.value + d))
    else if s[0] == '.' && current.Some? && |octets| < 3 then ReadFrom(s[1..], octets + [current.value], None)
    else None
  }

  function Pton(s: string): Option<nat> { ReadFrom(s, [], None) }

  // ----- Writing -----

  function Quad(a: nat, b: nat, c: nat, d: nat): string {
    Decimal(a) + "." + (Decimal(b) + "." + (Decimal(c) + "." + Decimal(d)))
  }

  function Ntop(v: nat): string { Quad(v / 0x1000000, v / 0x10000 % 256, v / 0x100 % 256, v % 256) }

  lemma ReadDigit(d: nat, rest: string, octets: seq<nat>, current: Option<nat>)
    requires d < 10 && |octets| < 4
    requires current.Some? ==> current.value != 0 && 10 * current.value + d <= 255
    ensures ReadFrom([DigitChar(d)] + rest, octets, current)
            == ReadFrom(rest, octets, Some(if current.None? then d else 10 * current.value + d))
  {
    var text := [DigitChar(d)] + rest;
    assert text[0] == DigitChar(d) && text[1..] == rest && DigitValue(text[0]) == d;
  }

  lemma ReadTwo(x: nat, y: nat, rest: string, octets: seq<nat>)
    requires 0 < x < 10 && y < 10 && |octets| < 4
    ensures ReadFrom([DigitChar(x), DigitChar(y)] + rest, octets, None) == ReadFrom(rest, octets, Some(10 * x + y))
  {
    hide ReadFrom, DigitChar;
    assert [DigitChar(x), DigitChar(y)] + rest == [DigitChar(x)] + ([DigitChar(y)] + rest);
    ReadDigit(x, [DigitChar(y)] + rest, octets, None);
    ReadDigit(y, rest, octets, Some(x));
  }

  lemma ReadThree(x: nat, y: nat, z: nat, rest: string, octets: seq<nat>)
    requires 0 < x < 10 && y < 10 && z < 10 && 100 * x + 10 * y + z < 256 && |octets| < 4
    ensures ReadFrom([DigitChar(x), DigitChar(y), DigitChar(z)] + rest, octets, None)
            == ReadFrom(rest, octets, Some(100 * x + 10 * y + z))
  {
    hide ReadFrom, DigitChar;
    assert [DigitChar(x), DigitChar(y), DigitChar(z)] + rest == [DigitChar(x), DigitChar(y)] + ([DigitChar(z)] + rest);
    ReadTwo(x, y, [DigitChar(z)] + rest, octets);
    ReadDigit(z, rest, octets, Some(10 * x + y));
  }

  lemma ReadOctet(n: nat, rest: string, octets: seq<nat>)
    requires n < 256 && |octets| < 4
    ensures ReadFrom(Decimal(n) + rest, octets, None) == ReadFrom(rest, octets, Some(n))
  {
    hide ReadFrom, DigitChar;
    if n < 10 {
      ReadDigit(n, rest, octets, None);
    } else if n < 100 {
      assert Decimal(n) == [DigitChar(n / 10), DigitChar(n % 10)];
      ReadTwo(n / 10, n % 10, rest, octets);
    } else {
      assert Decimal(n / 10) == [DigitChar(n / 100), DigitChar(n / 10 % 10)];
      assert Decimal(n) == [DigitChar(n / 100), DigitChar(n / 10 % 10), DigitChar(n % 10)];
      ReadThree(n / 100, n / 10 % 10, n % 10, rest, octets);
    }
  }

  lemma ReadDot(rest: string, octets: seq<nat>, n: nat)
    requires |octets| < 3
    ensures ReadFrom("." + rest, octets, Some(n)) == ReadFrom(rest, octets + [n], None)
  {
    assert ("." + rest)[1..] == rest;
  }

  lemma ReadOctetDot(n: nat, rest: string, octets: seq<nat>)
    requires n < 256 && |octets| < 3
    ensures ReadFrom(Decimal(n) + "." + rest, octets, None) == ReadFrom(rest, octets + [n], None)
  {
    hide ReadFrom, Decimal;
    assert Decimal(n) + "." + rest == Decimal(n) + ("." + rest);
    ReadOctet(n, "." + rest, octets);
    ReadDot(rest, octets, n);
  }

  lemma JoinFour(a: nat, b: nat, c: nat, d: nat)
    ensures Join([a, b, c, d]) == a * 0x1000000 + b * 0x10000 + c * 0x100 + d
  {
    assert [a, b, c, d][..3] == [a, b, c] && [a, b, c][..2] == [a, b] && [a, b][..1] == [a] && [a][..0] == [];
    assert Join([a]) == a;
    assert Join([a, b]) == a * 256 + b;
    assert Join([a, b, c]) == (a * 256 + b) * 256 + c;
  }

  lemma PtonQuad(a: nat, b: nat, c: nat, d: nat)
    requires a < 256 && b < 256 && c < 256 && d < 256
    ensures Pton(Quad(a, b, c, d)) == Some(Join([a, b, c, d]))
  {
    hide ReadFrom, Decimal, Join;
    ReadOctetDot(a, Decimal(b) + "." + (Decimal(c) + "." + Decimal(d)), []);
    ReadOctetDot(b, Decimal(c) + "." + Decimal(d), [a]);
    ReadOctetDot(c, Decimal(d), [a, b]);
    assert [] + [a] == [a] && [a] + [b] == [a, b] && [a, b] + [c] == [a, b, c];
    assert Decimal(d) + "" == Decimal(d);
    ReadOctet(d, "", [a, b, c]);
    ReadEnd([a, b, c], d);
    assert [a, b, c] + [d] == [a, b, c, d];
  }

  /** Every address is read back from its text. */
  lemma PtonNtop(v: nat)
    requires v < 0x1_0000_0000
    ensures Pton(Ntop(v)) == Some(v)
  {
    hide Pton, Quad, Join;
    var a, b, c, d := v / 0x1000000, v / 0x10000 % 256, v / 0x100 % 256, v % 256;
    PtonQuad(a, b, c, d);
    JoinFour(a, b, c, d);
    SplitOctets(v);
  }

  lemma SplitOctets(v: nat)
    ensures v == v / 0x1000000 * 0x1000000 + v / 0x10000 % 256 * 0x10000 + v / 0x100 % 256 * 0x100 + v % 256
  {
    var q := v / 256;
    assert v / 0x10000 == q / 256;
    assert v / 0x1000000 == q / 256 / 256;
  }

  lemma ReadEnd(octets: seq<nat>, n: nat)
    requires |octets| == 3
    ensures ReadFrom("", octets, Some(n)) == Some(Join(octets + [n]))
  {
  }

  // ----- What an address text looks like -----

  predicate AddressChar(c: char) { IsDigit(c) || c == '.' }

  function Room(octets: nat, current: Option<nat>): int {
    4 * (3 - octets) + (if current.None? then 3 else if current.value == 0 then 0
                        else if current.value < 10 then 2 else if current.value < 100 then 1 else 0)
  }

  lemma {:induction false} ReadFromShape(s: string, octets: seq<nat>, current: Option<nat>)
    requires ReadFrom(s, octets, current).Some? && |octets| <= 3
    ensures forall i | 0 <= i < |s| :: AddressChar(s[i])
    ensures |s| <= Room(|octets|, current)
    decreases |s|
  {
    if s != [] {
      if IsDigit(s[0]) {
        var d := DigitValue(s[0]);
        ReadFromShape(s[1..], octets, Some(if current.None? then d else 10 * current.value + d));
      } else {
        ReadFromShape(s[1..], octets + [current.value], None);
      }
      assert s == [s[0]] + s[1..];
    }
  }

  /** An accepted address is at most 15 digits and dots. */
  lemma PtonShape(s: string)
    requires Pton(s).Some?
    ensures |s| <= 15 && forall i | 0 <= i < |s| :: AddressChar(s[i])
  {
    ReadFromShape(s, [], None);
  }

  // ----- Only one text for an address -----

  function Dotted(octets: seq<nat>): string {
    if octets == [] then "" else Dotted(octets[..|octets| - 1]) + Decimal(octets[|octets| - 1]) + "."
  }

  /** What has been read so far. */
  function ReadText(octets: seq<nat>, current: Option<nat>): string {
    Dotted(octets) + (if current.None? then "" else Decimal(current.value))
  }

  predicate Octets(octets: seq<nat>, current: Option<nat>) {
    && (forall i | 0 <= i < |octets| :: octets[i] < 256) && |octets| <= 3
    && (current.Some? ==> current.value < 256)
  }

  lemma DigitText(c: char, rest: string, octets: seq<nat>, current: Option<nat>)
    requires IsDigit(c) && (current.Some? ==> current.value != 0)
    ensures var d := DigitValue(c);
            var next := if current.None? then d else 10 * current.value + d;
            ReadText(octets, Some(next)) + rest == ReadText(octets, current) + ([c] + rest)
  {
    hide Dotted;
    var d := DigitValue(c);
    assert DigitChar(d) == c;
    if current.None? {
      assert Decimal(d) == [c];
      assert Dotted(octets) + "" == Dotted(octets);
    } else {
      assert (10 * current.value + d) / 10 == current.value && (10 * current.value + d) % 10 == d;
      assert Decimal(10 * current.value + d) == Decimal(current.value) + [c];
    }
  }

  lemma DotText(rest: string, octets: seq<nat>, n: nat)
    ensures ReadText(octets + [n], None) + rest == ReadText(octets, Some(n)) + ("." + rest)
  {
    hide Decimal;
    assert (octets + [n])[..|octets|] == octets;
    assert Dotted(octets + [n]) == Dotted(octets) + Decimal(n) + ".";
  }

  lemma EndText(octets: seq<nat>, n: nat)
    requires |octets| == 3 && Octets(octets, Some(n))
    ensures Join(octets + [n]) < 0x1_0000_0000 && ReadText(octets, Some(n)) == Ntop(Join(octets + [n]))
  {
    hide Decimal;
    var a, b, c := octets[0], octets[1], octets[2];
    assert octets + [n] == [a, b, c, n] && octets == [a, b, c];
    JoinFour(a, b, c, n);
    JoinSplits(a, b, c, n);
    assert octets[..2] == [a, b] && [a, b][..1] == [a] && [a][..0] == [];
    assert Dotted([a]) == "" + Decimal(a) + ".";
    assert Dotted([a, b]) == Dotted([a]) + Decimal(b) + ".";
    assert Dotted(octets) == Dotted([a, b]) + Decimal(c) + ".";
  }

  lemma JoinSplits(a: nat, b: nat, c: nat, d: nat)
    requires a < 256 && b < 256 && c < 256 && d < 256
    ensures var v := a * 0x1000000 + b * 0x10000 + c * 0x100 + d;
            && v < 0x1_0000_0000
            && v / 0x1000000 == a && v / 0x10000 % 256 == b && v / 0x100 % 256 == c && v % 256 == d
  {
    var q := a * 256 + b;
    var p := q * 256 + c;
    var v := p * 256 + d;
    LastDigit(p, d);
    LastDigit(q, c);
    LastDigit(a, b);
    assert v / 0x10000 == v / 256 / 256 && v / 0x1000000 == v / 256 / 256 / 256;
  }

  lemma LastDigit(p: nat, d: nat)
    requires d < 256
    ensures (p * 256 + d) / 256 == p && (p * 256 + d) % 256 == d
  {
  }

  lemma {:induction false} ReadFromText(s: string, octets: seq<nat>, current: Option<nat>)
    requires ReadFrom(s, octets, current).Some? && Octets(octets, current)
    ensures var v := ReadFrom(s, octets, current).value;
            v < 0x1_0000_0000 && ReadText(octets, current) + s == Ntop(v)
    decreases |s|
  {
    hide ReadText, Ntop, Join;
    if s == [] {
      EndText(octets, current.value);
      assert ReadText(octets, current) + s == ReadText(octets, current);
    } else {
      assert s == [s[0]] + s[1..];
      if IsDigit(s[0]) {
        var d := DigitValue(s[0]);
        var next := if current.None? then d else 10 * current.value + d;
        DigitText(s[0], s[1..], octets, current);
        ReadFromText(s[1..], octets, Some(next));
      } else {
        DotText(s[1..], octets, current.value);
        ReadFromText(s[1..], octets + [current.value], None);
      }
    }
  }

  /** An address has exactly one text: what is accepted is what is printed, so that two different texts,
      such as one with a leading zero, never name the same address. */
  lemma PtonExact(s: string, v: nat)
    ensures Pton(s) == Some(v) <==> v < 0x1_0000_0000 && s == Ntop(v)
  {
    hide ReadFrom, Ntop;
    if Pton(s) == Some(v) {
      ReadFromText(s, [], None);
      assert ReadText([], None) + s == s;
    }
    if v < 0x1_0000_0000 && s == Ntop(v) {
      PtonNtop(v);
    }
  }

  // ----- Netmasks -----

  function Pow2(n: nat): (p: nat)
    ensures p >= 1
  {
    if n == 0 then 1 else 2 * Pow2(n - 1)
  }

  /** `bits` ones and zeros with the top `prefix` set. */
  function Mask(bits: nat, prefix: nat): (m: nat)
    requires prefix <= bits
    ensures m < Pow2(bits)
  {
    if prefix == 0 then 0 else Pow2(bits - 1) + Mask(bits - 1, prefix - 1)
  }

  /** The bit loop: the number of leading ones, refused when a one follows a zero. */
  function LeadingOnes(bits: nat, mask: nat, zeroSeen: bool): Option<nat>
    requires mask < Pow2(bits)
    decreases bits
  {
    if bits == 0 then Some(0)
    else if mask >= Pow2(bits - 1) then
      if zeroSeen then None
      else
        var r := LeadingOnes(bits - 1, mask - Pow2(bits - 1), false);
        if r.None? then None else Some(r.value + 1)
    else LeadingOnes(bits - 1, mask, true)
  }

  lemma {:induction false} LeadingOnesZero(bits: nat)
    ensures LeadingOnes(bits, 0, true) == Some(0) && LeadingOnes(bits, 0, false) == Some(0)
  {
    if bits > 0 {
      LeadingOnesZero(bits - 1);
    }
  }

  lemma {:induction false} LeadingOnesMask(bits: nat, prefix: nat)
    requires prefix <= bits
    ensures LeadingOnes(bits, Mask(bits, prefix), false) == Some(prefix)
  {
    if prefix == 0 {
      LeadingOnesZero(bits);
    } else {
      LeadingOnesMask(bits - 1, prefix - 1);
    }
  }

  lemma Pow2Of32()
    ensures Pow2(32) == 0x1_0000_0000
  {
    assert Pow2(8) == 256;
    assert Pow2(16) == 0x10000 by { assert Pow2(12) == 0x1000; }
    assert Pow2(24) == 0x1000000 by { assert Pow2(20) == 0x100000; }
    assert Pow2(28) == 0x10000000;
  }

  /** The dotted netmask of a prefix; empty when the prefix is out of range. */
  function NetmaskFor(prefix: nat): string {
    if prefix == 0 || prefix > 32 then "" else Ntop(Mask(32, prefix))
  }

  function PrefixFrom(netmask: string): (r: Option<nat>)
    ensures r.Some? ==> 1 <= r.value <= 32
  {
    var v := Pton(netmask);
    if v.None? || v.value >= Pow2(32) then None
    else
      var n := LeadingOnes(32, v.value, false);
      LeadingOnesBound(32, v.value, false);
      if n.None? || n.value == 0 then None else n
  }

  lemma {:induction false} LeadingOnesBound(bits: nat, mask: nat, zeroSeen: bool)
    requires mask < Pow2(bits)
    ensures LeadingOnes(bits, mask, zeroSeen).Some? ==> LeadingOnes(bits, mask, zeroSeen).value <= bits
    decreases bits
  {
    if bits > 0 {
      if mask >= Pow2(bits - 1) {
        LeadingOnesBound(bits - 1, mask - Pow2(bits - 1), false);
      } else {
        LeadingOnesBound(bits - 1, mask, true);
      }
    }
  }

  /** A prefix survives the trip through its netmask, exactly for 1 to 32. */
  lemma PrefixRoundTrip(prefix: nat)
    ensures PrefixFrom(NetmaskFor(prefix)) == Some(prefix) <==> 1 <= prefix <= 32
  {
    if 1 <= prefix <= 32 {
      hide Ntop, Pton, Mask, LeadingOnes, Pow2;
      Pow2Of32();
      PtonNtop(Mask(32, prefix));
      LeadingOnesMask(32, prefix);
    }
  }

  /** Two different addresses in one subnet of the given prefix length. */
  predicate SameSubnet(address: string, prefix: nat, gateway: string)
    requires prefix <= 32
  {
    var a, g := Pton(address), Pton(gateway);
    a.Some? && g.Some? && a.value / Pow2(32 - prefix) == g.value / Pow2(32 - prefix) && a.value != g.value
  }

  /** The block of `size` addresses an address lies in. */
  predicate InBlock(v: nat, size: nat, block: nat) { block * size <= v < (block + 1) * size }

  ghost predicate ShareBlock(a: nat, g: nat, size: nat) {
    exists block: nat :: InBlock(a, size, block) && InBlock(g, size, block)
  }

  /** A gateway is acceptable exactly when it is another address in the same block of 2^(32 - prefix). */
  lemma SameSubnetMeaning(address: string, prefix: nat, gateway: string)
    requires prefix <= 32
    ensures SameSubnet(address, prefix, gateway) <==>
              && Pton(address).Some? && Pton(gateway).Some? && Pton(address) != Pton(gateway)
              && ShareBlock(Pton(address).value, Pton(gateway).value, Pow2(32 - prefix))
  {
    hide Pton, Pow2, ShareBlock;
    if Pton(address).Some? && Pton(gateway).Some? {
      ShareBlockMeaning(Pton(address).value, Pton(gateway).value, Pow2(32 - prefix));
    }
  }

  lemma ShareBlockMeaning(a: nat, g: nat, size: nat)
    requires size > 0
    ensures ShareBlock(a, g, size) <==> a / size == g / size
  {
    BlockOf(a, size, a / size);
    BlockOf(g, size, g / size);
    forall block: nat | InBlock(a, size, block) && InBlock(g, size, block) ensures a / size == g / size {
      BlockOf(a, size, block);
      BlockOf(g, size, block);
    }
  }

  lemma BlockOf(v: nat, size: nat, block: nat)
    requires size > 0
    ensures InBlock(v, size, block) <==> v / size == block
  {
    var q := v / size;
    assert v == q * size + v % size;
    if InBlock(v, size, block) {
      if block < q {
        Monotone(block + 1, q, size);
      } else if q < block {
        Monotone(q + 1, block, size);
      }
    }
    assert (q + 1) * size == q * size + size;
  }

  lemma Monotone(a: nat, b: nat, size: nat)
    requires a <= b
    ensures a * size <= b * size
  {
    assert b * size == a * size + (b - a) * size;
  }

  predicate ValidIpv4(s: string) { s != "" && Pton(s).Some? }
}
