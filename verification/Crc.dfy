/** The two checksums: CRC-16/Modbus on the serial line and CRC-32 on event files. */
module Crc {
  import opened Bytes

  // ----- Bytes as bit vectors -----

  function ToBv(b: byte): bv8 { b as bv8 }

  function OfBv(v: bv8): byte {
    BvSmall(v);
    (v as int) as byte
  }

  lemma BvSmall(v: bv8)
    ensures 0 <= v as int < 256
  {
  }

  lemma BvCast(v: bv8)
    ensures (v as int) as bv8 == v
  {
  }

  lemma BvSuccessor(v: bv8)
    requires v != 0xFF
    ensures (v + 1) as int == v as int + 1
  {
  }

  lemma BvMaximum(v: bv8)
    requires v == 0xFF
    ensures v as int == 255
  {
  }

  lemma {:induction false} Represented(x: nat) returns (v: bv8)
    requires x < 256
    ensures v as int == x
  {
    if x == 0 {
      v := 0;
    } else {
      var w := Represented(x - 1);
      if w == 0xFF {
        BvMaximum(w);
        assert false;
      }
      BvSuccessor(w);
      v := w + 1;
    }
  }

  lemma CastRoundTrip(b: byte)
    ensures (b as bv8) as int == b as int
  {
    var v := Represented(b as int);
    BvCast(v);
  }

  lemma OfToBv(b: byte)
    ensures OfBv(ToBv(b)) == b
  {
    CastRoundTrip(b);
  }

  lemma ToOfBv(v: bv8)
    ensures ToBv(OfBv(v)) == v
  {
    BvCast(v);
  }

  lemma ToBvInjective(x: byte, y: byte)
    requires ToBv(x) == ToBv(y)
    ensures x == y
  {
    OfToBv(x);
    OfToBv(y);
  }

  // ----- CRC-16 -----

  function Bit16(crc: bv16): bv16 {
    if crc & 1 != 0 then (crc >> 1) ^ 0xA001 else crc >> 1
  }

  function Bits16(crc: bv16, n: nat): bv16
    decreases n
  {
    if n == 0 then crc else Bits16(Bit16(crc), n - 1)
  }

  function Mix16(crc: bv16, v: bv8): bv16 { crc ^ (v as bv16) }

  function Step16(crc: bv16, b: byte): bv16 {
    Bits16(Mix16(crc, ToBv(b)), 8)
  }

  function Fold16(crc: bv16, data: seq<byte>): bv16
    decreases |data|
  {
    if data == [] then crc else Fold16(Step16(crc, data[0]), data[1..])
  }

  function Crc16(data: seq<byte>): bv16 {
    Fold16(0xFFFF, data)
  }

  function Low16(crc: bv16): byte { OfBv((crc & 0xFF) as bv8) }

  function High16(crc: bv16): byte { OfBv((crc >> 8) as bv8) }

  function Pair16(lo: byte, hi: byte): bv16 { (ToBv(lo) as bv16) | ((ToBv(hi) as bv16) << 8) }

  /** A frame body with its checksum appended, low byte first. */
  function WithCrc16(data: seq<byte>): (frame: seq<byte>)
    ensures |frame| == |data| + 2
  {
    data + [Low16(Crc16(data)), High16(Crc16(data))]
  }

  predicate Crc16Ok(frame: seq<byte>)
    requires |frame| >= 2
  {
    Crc16(frame[..|frame| - 2]) == Pair16(frame[|frame| - 2], frame[|frame| - 1])
  }

  /** The bit loop over one byte. */
  method FeedByte16(start: bv16, v: bv8, bits: nat) returns (crc: bv16)
    ensures crc == Bits16(Mix16(start, v), bits)
  {
    crc := start ^ (v as bv16);
    for bit := 0 to bits
      invariant Bits16(crc, bits - bit) == Bits16(Mix16(start, v), bits)
    {
      if crc & 1 != 0 {
        crc := (crc >> 1) ^ 0xA001;
      } else {
        crc := crc >> 1;
      }
    }
  }

  /** The byte loop around it. */
  method ComputeCrc16(data: seq<byte>) returns (crc: bv16)
    ensures crc == Crc16(data)
  {
    crc := 0xFFFF;
    for index := 0 to |data|
      invariant Fold16(crc, data[index..]) == Fold16(0xFFFF, data)
    {
      assert data[index..][1..] == data[index + 1..];
      crc := FeedByte16(crc, ToBv(data[index]), 8);
    }
  }

  lemma Pair16Split(crc: bv16)
    ensures Pair16(Low16(crc), High16(crc)) == crc
  {
    ToOfBv((crc & 0xFF) as bv8);
    ToOfBv((crc >> 8) as bv8);
    BvPair16Split(crc);
  }

  lemma BvPair16Split(crc: bv16)
    ensures (((crc & 0xFF) as bv8) as bv16) | ((((crc >> 8) as bv8) as bv16) << 8) == crc
  {
  }

  lemma BvPair16Injective(a: bv8, b: bv8, c: bv8, d: bv8)
    requires (a as bv16) | ((b as bv16) << 8) == (c as bv16) | ((d as bv16) << 8)
    ensures a == c && b == d
  {
  }

  lemma Pair16Injective(lo: byte, hi: byte, lo': byte, hi': byte)
    requires Pair16(lo, hi) == Pair16(lo', hi')
    ensures lo == lo' && hi == hi'
  {
    BvPair16Injective(ToBv(lo), ToBv(hi), ToBv(lo'), ToBv(hi'));
    ToBvInjective(lo, lo');
    ToBvInjective(hi, hi');
  }

  /** What the sender appends always passes the receiver's test. */
  lemma WithCrc16Ok(data: seq<byte>)
    ensures Crc16Ok(WithCrc16(data))
  {
    Pair16Split(Crc16(data));
    assert WithCrc16(data)[..|data|] == data;
  }

  lemma Bit16Injective(a: bv16, b: bv16)
    requires Bit16(a) == Bit16(b)
    ensures a == b
  {
  }

  lemma {:induction false} Bits16Injective(a: bv16, b: bv16, n: nat)
    requires Bits16(a, n) == Bits16(b, n)
    ensures a == b
    decreases n
  {
    if n > 0 {
      Bits16Injective(Bit16(a), Bit16(b), n - 1);
      Bit16Injective(a, b);
    }
  }

  lemma Mix16InState(a: bv16, b: bv16, x: bv8)
    requires Mix16(a, x) == Mix16(b, x)
    ensures a == b
  {
  }

  lemma Mix16InByte(a: bv16, x: bv8, y: bv8)
    requires Mix16(a, x) == Mix16(a, y)
    ensures x == y
  {
  }

  lemma MixBits16InState(a: bv16, b: bv16, x: bv8, n: nat)
    requires Bits16(Mix16(a, x), n) == Bits16(Mix16(b, x), n)
    ensures a == b
  {
    Bits16Injective(Mix16(a, x), Mix16(b, x), n);
    Mix16InState(a, b, x);
  }

  lemma MixBits16InByte(a: bv16, x: bv8, y: bv8, n: nat)
    requires Bits16(Mix16(a, x), n) == Bits16(Mix16(a, y), n)
    ensures x == y
  {
    Bits16Injective(Mix16(a, x), Mix16(a, y), n);
    Mix16InByte(a, x, y);
  }

  /** A byte step is injective in the register ... */
  lemma Step16InState(a: bv16, b: bv16, x: byte)
    requires Step16(a, x) == Step16(b, x)
    ensures a == b
  {
    MixBits16InState(a, b, ToBv(x), 8);
  }

  /** ... and in the byte. */
  lemma Step16InByte(a: bv16, x: byte, y: byte)
    requires Step16(a, x) == Step16(a, y)
    ensures x == y
  {
    MixBits16InByte(a, ToBv(x), ToBv(y), 8);
    ToBvInjective(x, y);
  }

  lemma {:induction false} Fold16Injective(a: bv16, b: bv16, data: seq<byte>)
    requires Fold16(a, data) == Fold16(b, data)
    ensures a == b
    decreases |data|
  {
    if data != [] {
      Fold16Injective(Step16(a, data[0]), Step16(b, data[0]), data[1..]);
      Step16InState(a, b, data[0]);
    }
  }

  /** Two strings that differ in exactly the byte at `k` have different checksums. */
  lemma {:induction false} Fold16Detects(crc: bv16, data: seq<byte>, k: nat, v: byte)
    requires k < |data| && v != data[k]
    ensures Fold16(crc, data) != Fold16(crc, data[k := v])
    decreases |data|
  {
    var other := data[k := v];
    if Fold16(crc, data) == Fold16(crc, other) {
      if k == 0 {
        assert other[1..] == data[1..];
        Fold16Injective(Step16(crc, data[0]), Step16(crc, v), data[1..]);
        Step16InByte(crc, data[0], v);
      } else {
        assert other[1..] == data[1..][k - 1 := v];
        Fold16Detects(Step16(crc, data[0]), data[1..], k - 1, v);
      }
    }
  }

  /** One corrupted byte anywhere in an intact frame, trailer included, is always noticed. */
  lemma Crc16DetectsOneByte(frame: seq<byte>, k: nat, v: byte)
    requires |frame| >= 2 && Crc16Ok(frame) && k < |frame| && v != frame[k]
    ensures !Crc16Ok(frame[k := v])
  {
    var n := |frame| - 2;
    var other := frame[k := v];
    if k < n {
      assert other[..n] == frame[..n][k := v];
      Fold16Detects(0xFFFF, frame[..n], k, v);
    } else {
      assert other[..n] == frame[..n];
      if Crc16Ok(other) {
        Pair16Injective(frame[n], frame[n + 1], other[n], other[n + 1]);
      }
    }
  }

  // ----- CRC-32 -----

  function Bit32(crc: bv32): bv32 {
    if crc & 1 != 0 then (crc >> 1) ^ 0xEDB88320 else crc >> 1
  }

  function Bits32(crc: bv32, n: nat): bv32
    decreases n
  {
    if n == 0 then crc else Bits32(Bit32(crc), n - 1)
  }

  function Mix32(crc: bv32, v: bv8): bv32 { crc ^ (v as bv32) }

  function Step32(crc: bv32, b: byte): bv32 {
    Bits32(Mix32(crc, ToBv(b)), 8)
  }

  function Fold32(crc: bv32, data: seq<byte>): bv32
    decreases |data|
  {
    if data == [] then crc else Fold32(Step32(crc, data[0]), data[1..])
  }

  function Crc32(data: seq<byte>): bv32 {
    Fold32(0xFFFFFFFF, data) ^ 0xFFFFFFFF
  }

  /** The checksum as four bytes, least significant first. */
  function Split32(crc: bv32): (bs: seq<byte>)
    ensures |bs| == 4
  {
    [OfBv((crc & 0xFF) as bv8), OfBv(((crc >> 8) & 0xFF) as bv8),
     OfBv(((crc >> 16) & 0xFF) as bv8), OfBv((crc >> 24) as bv8)]
  }

  function BvJoin32(a: bv8, b: bv8, c: bv8, d: bv8): bv32 {
    (a as bv32) | ((b as bv32) << 8) | ((c as bv32) << 16) | ((d as bv32) << 24)
  }

  function Join32(a: byte, b: byte, c: byte, d: byte): bv32 {
    BvJoin32(ToBv(a), ToBv(b), ToBv(c), ToBv(d))
  }

  function WithCrc32(data: seq<byte>): (file: seq<byte>)
    ensures |file| == |data| + 4
  {
    data + Split32(Crc32(data))
  }

  predicate Crc32Ok(file: seq<byte>)
    requires |file| >= 4
  {
    var n := |file| - 4;
    Crc32(file[..n]) == Join32(file[n], file[n + 1], file[n + 2], file[n + 3])
  }

  /** The bit loop over one byte. */
  method FeedByte32(start: bv32, v: bv8, bits: nat) returns (crc: bv32)
    ensures crc == Bits32(Mix32(start, v), bits)
  {
    crc := start ^ (v as bv32);
    for bit := 0 to bits
      invariant Bits32(crc, bits - bit) == Bits32(Mix32(start, v), bits)
    {
      if crc & 1 != 0 {
        crc := (crc >> 1) ^ 0xEDB88320;
      } else {
        crc := crc >> 1;
      }
    }
  }

  /** The byte loop around it. */
  method ComputeCrc32(data: seq<byte>) returns (crc: bv32)
    ensures crc == Crc32(data)
  {
    crc := 0xFFFFFFFF;
    for index := 0 to |data|
      invariant Fold32(crc, data[index..]) == Fold32(0xFFFFFFFF, data)
    {
      assert data[index..][1..] == data[index + 1..];
      crc := FeedByte32(crc, ToBv(data[index]), 8);
    }
    crc := crc ^ 0xFFFFFFFF;
  }

  lemma Join32Split(crc: bv32)
    ensures var s := Split32(crc); Join32(s[0], s[1], s[2], s[3]) == crc
  {
    ToOfBv((crc & 0xFF) as bv8);
    ToOfBv(((crc >> 8) & 0xFF) as bv8);
    ToOfBv(((crc >> 16) & 0xFF) as bv8);
    ToOfBv((crc >> 24) as bv8);
    BvJoin32Split(crc);
  }

  lemma BvJoin32Split(crc: bv32)
    ensures BvJoin32((crc & 0xFF) as bv8, ((crc >> 8) & 0xFF) as bv8,
                     ((crc >> 16) & 0xFF) as bv8, (crc >> 24) as bv8) == crc
  {
  }

  lemma BvJoin32Injective(a: bv8, b: bv8, c: bv8, d: bv8, a': bv8, b': bv8, c': bv8, d': bv8)
    requires BvJoin32(a, b, c, d) == BvJoin32(a', b', c', d')
    ensures a == a' && b == b' && c == c' && d == d'
  {
  }

  lemma Join32Injective(a: byte, b: byte, c: byte, d: byte, a': byte, b': byte, c': byte, d': byte)
    requires Join32(a, b, c, d) == Join32(a', b', c', d')
    ensures a == a' && b == b' && c == c' && d == d'
  {
    BvJoin32Injective(ToBv(a), ToBv(b), ToBv(c), ToBv(d), ToBv(a'), ToBv(b'), ToBv(c'), ToBv(d'));
    ToBvInjective(a, a');
    ToBvInjective(b, b');
    ToBvInjective(c, c');
    ToBvInjective(d, d');
  }

  lemma WithCrc32Ok(data: seq<byte>)
    ensures Crc32Ok(WithCrc32(data))
  {
    Join32Split(Crc32(data));
    assert WithCrc32(data)[..|data|] == data;
  }

  /** The trailer is determined by the body: an intact file is its body with the checksum put back. */
  lemma Crc32OkIsWithCrc32(file: seq<byte>)
    requires |file| >= 4 && Crc32Ok(file)
    ensures file == WithCrc32(file[..|file| - 4])
  {
    var n := |file| - 4;
    var s := Split32(Crc32(file[..n]));
    Join32Split(Crc32(file[..n]));
    Join32Injective(file[n], file[n + 1], file[n + 2], file[n + 3], s[0], s[1], s[2], s[3]);
    assert file == file[..n] + [file[n], file[n + 1], file[n + 2], file[n + 3]];
  }

  lemma Bit32Injective(a: bv32, b: bv32)
    requires Bit32(a) == Bit32(b)
    ensures a == b
  {
  }

  lemma {:induction false} Bits32Injective(a: bv32, b: bv32, n: nat)
    requires Bits32(a, n) == Bits32(b, n)
    ensures a == b
    decreases n
  {
    if n > 0 {
      Bits32Injective(Bit32(a), Bit32(b), n - 1);
      Bit32Injective(a, b);
    }
  }

  lemma Xor32Cancel(a: bv32, b: bv32, x: bv32)
    requires a ^ x == b ^ x
    ensures a == b
  {
  }

  lemma Mix32InState(a: bv32, b: bv32, x: bv8)
    requires Mix32(a, x) == Mix32(b, x)
    ensures a == b
  {
  }

  lemma Mix32InByte(a: bv32, x: bv8, y: bv8)
    requires Mix32(a, x) == Mix32(a, y)
    ensures x == y
  {
  }

  lemma MixBits32InState(a: bv32, b: bv32, x: bv8, n: nat)
    requires Bits32(Mix32(a, x), n) == Bits32(Mix32(b, x), n)
    ensures a == b
  {
    Bits32Injective(Mix32(a, x), Mix32(b, x), n);
    Mix32InState(a, b, x);
  }

  lemma MixBits32InByte(a: bv32, x: bv8, y: bv8, n: nat)
    requires Bits32(Mix32(a, x), n) == Bits32(Mix32(a, y), n)
    ensures x == y
  {
    Bits32Injective(Mix32(a, x), Mix32(a, y), n);
    Mix32InByte(a, x, y);
  }

  /** A byte step is injective in the register ... */
  lemma Step32InState(a: bv32, b: bv32, x: byte)
    requires Step32(a, x) == Step32(b, x)
    ensures a == b
  {
    MixBits32InState(a, b, ToBv(x), 8);
  }

  /** ... and in the byte. */
  lemma Step32InByte(a: bv32, x: byte, y: byte)
    requires Step32(a, x) == Step32(a, y)
    ensures x == y
  {
    MixBits32InByte(a, ToBv(x), ToBv(y), 8);
    ToBvInjective(x, y);
  }

  lemma {:induction false} Fold32Injective(a: bv32, b: bv32, data: seq<byte>)
    requires Fold32(a, data) == Fold32(b, data)
    ensures a == b
    decreases |data|
  {
    if data != [] {
      Fold32Injective(Step32(a, data[0]), Step32(b, data[0]), data[1..]);
      Step32InState(a, b, data[0]);
    }
  }

  lemma {:induction false} Fold32Detects(crc: bv32, data: seq<byte>, k: nat, v: byte)
    requires k < |data| && v != data[k]
    ensures Fold32(crc, data) != Fold32(crc, data[k := v])
    decreases |data|
  {
    var other := data[k := v];
    if Fold32(crc, data) == Fold32(crc, other) {
      if k == 0 {
        assert other[1..] == data[1..];
        Fold32Injective(Step32(crc, data[0]), Step32(crc, v), data[1..]);
        Step32InByte(crc, data[0], v);
      } else {
        assert other[1..] == data[1..][k - 1 := v];
        Fold32Detects(Step32(crc, data[0]), data[1..], k - 1, v);
      }
    }
  }

  /** One corrupted byte anywhere in an intact file, trailer included, is always noticed. */
  lemma Crc32DetectsOneByte(file: seq<byte>, k: nat, v: byte)
    requires |file| >= 4 && Crc32Ok(file) && k < |file| && v != file[k]
    ensures !Crc32Ok(file[k := v])
  {
    var n := |file| - 4;
    var other := file[k := v];
    if Crc32Ok(other) {
      if k < n {
        assert other[..n] == file[..n][k := v];
        Fold32Detects(0xFFFFFFFF, file[..n], k, v);
        Xor32Cancel(Fold32(0xFFFFFFFF, file[..n]), Fold32(0xFFFFFFFF, other[..n]), 0xFFFFFFFF);
      } else {
        assert other[..n] == file[..n];
        Join32Injective(file[n], file[n + 1], file[n + 2], file[n + 3],
                        other[n], other[n + 1], other[n + 2], other[n + 3]);
      }
    }
  }
}
