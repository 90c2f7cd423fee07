/** What the two checksums are: remainders of polynomial division over GF(2). A polynomial is the sequence
    of its coefficients, highest power first. */
module CrcLaw {
  import opened Bytes
  import opened Crc

  // ----- Division -----

  /** Adds a polynomial to the leading coefficients of another. */
  function AddFront(p: seq<bool>, q: seq<bool>): (r: seq<bool>)
    requires |q| <= |p|
    ensures |r| == |p|
  {
    seq(|p|, i requires 0 <= i < |p| => if i < |q| then p[i] != q[i] else p[i])
  }

  /** Long division: subtract the divisor while the dividend is not shorter than it. */
  function Remainder(p: seq<bool>, divisor: seq<bool>): seq<bool>
    requires |divisor| > 0
    decreases |p|
  {
    if |p| < |divisor| then p
    else Remainder((if p[0] then AddFront(p, divisor) else p)[1..], divisor)
  }

  function Zeros(n: nat): (z: seq<bool>)
    ensures |z| == n && forall i | 0 <= i < n :: !z[i]
  {
    seq(n, _ => false)
  }

  function Ones(n: nat): (z: seq<bool>)
    ensures |z| == n && forall i | 0 <= i < n :: z[i]
  {
    seq(n, _ => true)
  }

  predicate Odd(v: bv8) { v & 1 != 0 }

  function Half(v: bv8): bv8 { v >> 1 }

  /** The low `n` bits of a byte, from the lowest up. */
  function LowFirst(v: bv8, n: nat): (bits: seq<bool>)
    ensures |bits| == n
  {
    if n == 0 then [] else [Odd(v)] + LowFirst(Half(v), n - 1)
  }

  /** Message bits, each byte from its low bit up, as both line and file send them. */
  function ByteBits(b: byte): (bits: seq<bool>)
    ensures |bits| == 8
  {
    LowFirst(ToBv(b), 8)
  }

  function MessageBits(data: seq<byte>): seq<bool> {
    if data == [] then [] else MessageBits(data[..|data| - 1]) + ByteBits(data[|data| - 1])
  }

  /** The checksum polynomial of a message: its bits followed by as many zeros as the checksum is wide, the
      first of them complemented, divided by the generator. */
  function CheckBits(data: seq<byte>, generator: seq<bool>): seq<bool>
    requires |generator| > 0
  {
    var width := |generator| - 1;
    Remainder(AddFront(MessageBits(data) + Zeros(width), Ones(width)), generator)
  }

  // ----- The shift register -----

  /** One message bit: the register shifts, and takes the generator's lower coefficients when the bit that
      falls out differs from the message bit. */
  function Shifted(r: seq<bool>, m: bool, taps: seq<bool>): (s: seq<bool>)
    requires |r| == |taps| > 0
    ensures |s| == |r|
  {
    var moved := r[1..] + [false];
    if r[0] != m then AddFront(moved, taps) else moved
  }

  function ShiftAll(r: seq<bool>, ms: seq<bool>, taps: seq<bool>): (s: seq<bool>)
    requires |r| == |taps| > 0
    ensures |s| == |r|
    decreases |ms|
  {
    if ms == [] then r else ShiftAll(Shifted(r, ms[0], taps), ms[1..], taps)
  }

  lemma {:induction false} ShiftConcat(r: seq<bool>, xs: seq<bool>, ys: seq<bool>, taps: seq<bool>)
    requires |r| == |taps| > 0
    ensures ShiftAll(r, xs + ys, taps) == ShiftAll(ShiftAll(r, xs, taps), ys, taps)
    decreases |xs|
  {
    if xs == [] {
      assert xs + ys == ys;
    } else {
      assert (xs + ys)[1..] == xs[1..] + ys;
      ShiftConcat(Shifted(r, xs[0], taps), xs[1..], ys, taps);
    }
  }

  /** One division step is one shift. */
  lemma DivideStep(r: seq<bool>, ms: seq<bool>, taps: seq<bool>)
    requires |r| == |taps| > 0 && ms != []
    ensures var w := |r|;
            var p := AddFront(ms + Zeros(w), r);
            (if p[0] then AddFront(p, [true] + taps) else p)[1..]
            == AddFront(ms[1..] + Zeros(w), Shifted(r, ms[0], taps))
  {
    var w := |r|;
    var p := AddFront(ms + Zeros(w), r);
    var left := (if p[0] then AddFront(p, [true] + taps) else p)[1..];
    var right := AddFront(ms[1..] + Zeros(w), Shifted(r, ms[0], taps));
    assert |left| == |right|;
    forall i | 0 <= i < |left| ensures left[i] == right[i] {
      assert (ms[1..] + Zeros(w))[i] == (ms + Zeros(w))[i + 1];
    }
  }

  /** The register holds the remainder: shifting a message through it divides. */
  lemma {:induction false} ShiftDivides(r: seq<bool>, ms: seq<bool>, taps: seq<bool>)
    requires |r| == |taps| > 0
    ensures ShiftAll(r, ms, taps) == Remainder(AddFront(ms + Zeros(|r|), r), [true] + taps)
    decreases |ms|
  {
    var p := AddFront(ms + Zeros(|r|), r);
    if ms == [] {
      assert p == r;
    } else {
      DivideStep(r, ms, taps);
      ShiftDivides(Shifted(r, ms[0], taps), ms[1..], taps);
    }
  }

  lemma {:induction false} MessageFirst(data: seq<byte>)
    requires data != []
    ensures MessageBits(data) == ByteBits(data[0]) + MessageBits(data[1..])
    decreases |data|
  {
    hide ByteBits;
    var n := |data| - 1;
    if n == 0 {
      assert data[..0] == [] && data[1..] == [];
    } else {
      MessageFirst(data[..n]);
      assert data[..n][1..] == data[1..][..n - 1] && data[1..][n - 1] == data[n];
    }
  }

  // ----- Bytes, four bits at a time -----

  function Rest(v: bv8): bv8 { Half(Half(Half(Half(v)))) }

  function Nibble(v: bv8): (bits: seq<bool>)
    ensures |bits| == 4
  {
    [Odd(v), Odd(Half(v)), Odd(Half(Half(v))), Odd(Half(Half(Half(v))))]
  }

  lemma LowStep(v: bv8, n: nat)
    ensures LowFirst(v, n + 1) == [Odd(v)] + LowFirst(Half(v), n)
  {
  }

  lemma LowNibble(v: bv8, n: nat)
    ensures LowFirst(v, n + 4) == Nibble(v) + LowFirst(Rest(v), n)
  {
    hide Odd, Half, LowFirst;
    var a, b, c := Half(v), Half(Half(v)), Half(Half(Half(v)));
    LowStep(v, n + 3);
    LowStep(a, n + 2);
    LowStep(b, n + 1);
    LowStep(c, n);
  }

  lemma ByteNibbles(v: bv8)
    ensures LowFirst(v, 8) == Nibble(v) + Nibble(Rest(v))
  {
    hide Nibble, Rest;
    LowNibble(v, 4);
    LowNibble(Rest(v), 0);
    assert LowFirst(Rest(Rest(v)), 0) == [];
  }

  /** What is left of a byte once its low `n` bits are gone. */
  function Dropped(v: bv8, n: nat): bv8 { if n == 0 then v else Dropped(Half(v), n - 1) }

  lemma DroppedFour(v: bv8, n: nat)
    ensures Dropped(v, n + 4) == Dropped(Rest(v), n)
  {
    hide Half;
    assert Dropped(v, n + 4) == Dropped(Half(v), n + 3);
    assert Dropped(Half(v), n + 3) == Dropped(Half(Half(v)), n + 2);
  }

  lemma DroppedAll(v: bv8)
    ensures Dropped(v, 8) == 0
  {
    hide Rest;
    DroppedFour(v, 4);
    DroppedFour(Rest(v), 0);
    assert Dropped(Rest(Rest(v)), 0) == Rest(Rest(v));
    ByteGone(v);
  }

  lemma ByteGone(v: bv8)
    ensures Rest(Rest(v)) == 0
  {
  }

  lemma NibblesDecide(v: bv8, u: bv8)
    requires Nibble(v) == Nibble(u) && Nibble(Rest(v)) == Nibble(Rest(u))
    ensures v == u
  {
    NibbleParts(v, u);
    NibbleParts(Rest(v), Rest(u));
    hide Nibble;
  }

  lemma NibbleParts(v: bv8, u: bv8)
    requires Nibble(v) == Nibble(u)
    ensures Odd(v) == Odd(u) && Odd(Half(v)) == Odd(Half(u)) && Odd(Half(Half(v))) == Odd(Half(Half(u)))
    ensures Odd(Half(Half(Half(v)))) == Odd(Half(Half(Half(u))))
  {
    hide Odd, Half;
    var p, q := Nibble(v), Nibble(u);
    assert p[0] == q[0] && p[1] == q[1] && p[2] == q[2] && p[3] == q[3];
  }

  lemma SplitEqual(a: seq<bool>, b: seq<bool>, c: seq<bool>, d: seq<bool>)
    requires |a| == |c| && a + b == c + d
    ensures a == c && b == d
  {
    assert a == (a + b)[..|a|] && c == (c + d)[..|a|] && b == (a + b)[|a|..] && d == (c + d)[|a|..];
  }

  lemma ByteBitsInjective(a: byte, b: byte)
    requires ByteBits(a) == ByteBits(b)
    ensures a == b
  {
    hide LowFirst, Nibble, Rest, ToBv;
    ByteNibbles(ToBv(a));
    ByteNibbles(ToBv(b));
    SplitEqual(Nibble(ToBv(a)), Nibble(Rest(ToBv(a))), Nibble(ToBv(b)), Nibble(Rest(ToBv(b))));
    NibblesDecide(ToBv(a), ToBv(b));
    ToBvInjective(a, b);
  }

  // ----- CRC-16/MODBUS -----

  /** x^16 + x^15 + x^2 + 1. */
  const GENERATOR_16: seq<bool> := [
    true, true, false, false, false, false, false, false, false, false, false, false, false, false, true,
    false, true]

  lemma Width16()
    ensures |GENERATOR_16| == 17
  {
  }

  predicate Odd16(c: bv16) { c & 1 != 0 }

  function Half16(c: bv16): bv16 { c >> 1 }

  function Plus16(a: bv16, b: bv16): bv16 { a ^ b }

  function Wide16(v: bv8): bv16 { v as bv16 }

  /** The low `n` bits of the register, from the lowest up. */
  function From16(c: bv16, n: nat): (bits: seq<bool>)
    ensures |bits| == n
  {
    if n == 0 then [] else [Odd16(c)] + From16(Half16(c), n - 1)
  }

  function Rest16(c: bv16): bv16 { Half16(Half16(Half16(Half16(c)))) }

  function Nibble16(c: bv16): (bits: seq<bool>)
    ensures |bits| == 4
  {
    [Odd16(c), Odd16(Half16(c)), Odd16(Half16(Half16(c))), Odd16(Half16(Half16(Half16(c))))]
  }

  lemma BitsFirst16(c: bv16, n: nat)
    ensures From16(c, n + 1) == [Odd16(c)] + From16(Half16(c), n)
  {
  }

  lemma BitsNibble16(c: bv16, n: nat)
    ensures From16(c, n + 4) == Nibble16(c) + From16(Rest16(c), n)
  {
    hide Odd16, Half16, From16;
    var d, e, f := Half16(c), Half16(Half16(c)), Half16(Half16(Half16(c)));
    BitsFirst16(c, n + 3);
    BitsFirst16(d, n + 2);
    BitsFirst16(e, n + 1);
    BitsFirst16(f, n);
  }

  lemma BitsNone16(c: bv16)
    ensures From16(c, 0) == []
  {
  }

  /** The constant of the byte loop holds the generator's lower coefficients. */
  lemma Taps16()
    ensures From16(0xA001, 16) == GENERATOR_16[1..]
  {
    hide From16;
    BitsNibble16(0xA001, 12);
    BitsNibble16(0xA00, 8);
    BitsNibble16(0xA0, 4);
    BitsNibble16(0xA, 0);
    BitsNone16(0);
  }

  lemma AllOnes16()
    ensures From16(0xFFFF, 16) == Ones(16)
  {
    hide From16;
    BitsNibble16(0xFFFF, 12);
    BitsNibble16(0xFFF, 8);
    BitsNibble16(0xFF, 4);
    BitsNibble16(0xF, 0);
    BitsNone16(0);
  }

  lemma PlusParts16(a: bv16, b: bv16)
    ensures Half16(Plus16(a, b)) == Plus16(Half16(a), Half16(b))
    ensures Odd16(Plus16(a, b)) == (Odd16(a) != Odd16(b))
  {
  }

  lemma {:induction false} BitsPlus16(a: bv16, b: bv16, n: nat)
    ensures From16(Plus16(a, b), n) == AddFront(From16(a, n), From16(b, n))
    decreases n
  {
    hide Odd16, Half16, Plus16;
    if n > 0 {
      PlusParts16(a, b);
      BitsPlus16(Half16(a), Half16(b), n - 1);
    }
  }

  function Dropped16(c: bv16, n: nat): bv16 { if n == 0 then c else Dropped16(Half16(c), n - 1) }

  lemma DroppedFour16(c: bv16, n: nat)
    ensures Dropped16(c, n + 4) == Dropped16(Rest16(c), n)
  {
    hide Half16;
    assert Dropped16(c, n + 4) == Dropped16(Half16(c), n + 3);
    assert Dropped16(Half16(c), n + 3) == Dropped16(Half16(Half16(c)), n + 2);
  }

  lemma DroppedAll16(c: bv16)
    ensures Dropped16(c, 16) == 0
  {
    hide Rest16, Dropped16;
    DroppedFour16(c, 12);
    var c1 := Rest16(c);
    DroppedFour16(c1, 8);
    var c2 := Rest16(c1);
    DroppedFour16(c2, 4);
    var c3 := Rest16(c2);
    DroppedFour16(c3, 0);
    var c4 := Rest16(c3);
    assert Dropped16(c4, 0) == c4 by { DroppedNone16(c4); }
    Gone16(c);
  }

  lemma DroppedNone16(c: bv16)
    ensures Dropped16(c, 0) == c
  {
  }

  lemma Gone16(c: bv16)
    ensures Rest16(Rest16(Rest16(Rest16(c)))) == 0
  {
  }

  lemma {:induction false} BitsLast16(c: bv16, n: nat)
    ensures From16(c, n + 1) == From16(c, n) + [Odd16(Dropped16(c, n))]
    decreases n
  {
    hide Odd16, Half16;
    if n > 0 {
      BitsLast16(Half16(c), n - 1);
    }
  }

  lemma BitsHalf16(c: bv16)
    ensures From16(Half16(c), 16) == From16(c, 16)[1..] + [false] && From16(c, 16)[0] == Odd16(c)
  {
    hide Half16, Dropped16, From16;
    BitsLast16(c, 16);
    DroppedAll16(c);
    BitsFirst16(c, 16);
    BitsFirst16(c, 15);
    assert From16(Half16(c), 16) == (From16(c, 16) + [false])[1..];
  }

  // One message bit

  function Take16(c: bv16, m: bool): bv16 {
    if Odd16(c) != m then Plus16(Half16(c), 0xA001) else Half16(c)
  }

  lemma Take16Shifts(c: bv16, m: bool)
    ensures |GENERATOR_16| == 17
    ensures From16(Take16(c, m), 16) == Shifted(From16(c, 16), m, GENERATOR_16[1..])
  {
    hide GENERATOR_16, Odd16, Half16, Plus16, From16;
    Width16();
    BitsHalf16(c);
    Taps16();
    BitsPlus16(Half16(c), 0xA001, 16);
  }

  lemma BitParts16(c: bv16)
    ensures Bit16(c) == Take16(c, false)
  {
  }

  lemma WideParts16(v: bv8)
    ensures Odd16(Wide16(v)) == Odd(v) && Half16(Wide16(v)) == Wide16(Half(v))
  {
  }

  lemma MixParts16(c: bv16, v: bv8)
    ensures Mix16(c, v) == Plus16(c, Wide16(v))
  {
  }

  lemma PlusAssociates16(a: bv16, b: bv16, d: bv16)
    ensures Plus16(Plus16(a, b), d) == Plus16(a, Plus16(b, d)) && Plus16(b, d) == Plus16(d, b)
  {
  }

  lemma PlusSwap16(a: bv16, b: bv16, d: bv16)
    ensures Plus16(Plus16(a, b), d) == Plus16(Plus16(a, d), b)
  {
    hide Plus16;
    PlusAssociates16(a, b, d);
    PlusAssociates16(a, d, b);
  }

  /** Mixing a byte in and shifting once takes its low bit and leaves the rest mixed in. */
  lemma TakeLow16(c: bv16, v: bv8)
    ensures Bit16(Mix16(c, v)) == Mix16(Take16(c, Odd(v)), Half(v))
  {
    hide Bit16, Odd, Half, Mix16, Plus16, Wide16, Half16, Odd16;
    MixParts16(c, v);
    MixParts16(Take16(c, Odd(v)), Half(v));
    BitParts16(Plus16(c, Wide16(v)));
    PlusParts16(c, Wide16(v));
    WideParts16(v);
    PlusSwap16(Half16(c), Wide16(Half(v)), 0xA001);
  }

  /** The register fed with the low `n` bits of a byte one at a time. */
  function Fed16(c: bv16, v: bv8, n: nat): bv16
    decreases n
  {
    if n == 0 then c else Fed16(Take16(c, Odd(v)), Half(v), n - 1)
  }

  lemma {:induction false} Bits16Feed(c: bv16, v: bv8, n: nat)
    ensures Bits16(Mix16(c, v), n) == Mix16(Fed16(c, v, n), Dropped(v, n))
    decreases n
  {
    hide Bit16, Mix16, Take16, Odd, Half;
    if n > 0 {
      TakeLow16(c, v);
      Bits16Feed(Take16(c, Odd(v)), Half(v), n - 1);
    }
  }

  lemma {:induction false} Fed16Shifts(c: bv16, v: bv8, n: nat)
    ensures |GENERATOR_16| == 17
    ensures From16(Fed16(c, v, n), 16) == ShiftAll(From16(c, 16), LowFirst(v, n), GENERATOR_16[1..])
    decreases n
  {
    hide GENERATOR_16, Take16, From16, Odd, Half, Shifted;
    Width16();
    if n > 0 {
      Take16Shifts(c, Odd(v));
      Fed16Shifts(Take16(c, Odd(v)), Half(v), n - 1);
      assert LowFirst(v, n)[1..] == LowFirst(Half(v), n - 1);
    }
  }

  lemma MixNothing16(d: bv16)
    ensures Mix16(d, 0) == d
  {
  }

  lemma Step16Shifts(c: bv16, b: byte)
    ensures |GENERATOR_16| == 17
    ensures From16(Step16(c, b), 16) == ShiftAll(From16(c, 16), ByteBits(b), GENERATOR_16[1..])
  {
    hide GENERATOR_16, From16, ShiftAll, LowFirst, Fed16, Bits16, Dropped, Mix16, ToBv;
    var v := ToBv(b);
    Bits16Feed(c, v, 8);
    Fed16Shifts(c, v, 8);
    DroppedAll(v);
    MixNothing16(Fed16(c, v, 8));
  }

  lemma {:induction false} Fold16Shifts(c: bv16, data: seq<byte>)
    ensures |GENERATOR_16| == 17
    ensures From16(Fold16(c, data), 16) == ShiftAll(From16(c, 16), MessageBits(data), GENERATOR_16[1..])
    decreases |data|
  {
    hide GENERATOR_16, From16, Step16, ByteBits;
    Width16();
    if data != [] {
      Step16Shifts(c, data[0]);
      Fold16Shifts(Step16(c, data[0]), data[1..]);
      MessageFirst(data);
      ShiftConcat(From16(c, 16), ByteBits(data[0]), MessageBits(data[1..]), GENERATOR_16[1..]);
    }
  }

  lemma Fold16Divides(data: seq<byte>)
    ensures |GENERATOR_16| == 17 && From16(Fold16(0xFFFF, data), 16) == CheckBits(data, GENERATOR_16)
  {
    Leading16();
    hide GENERATOR_16, Fold16, ShiftAll, Remainder, MessageBits, From16;
    Fold16Shifts(0xFFFF, data);
    AllOnes16();
    ShiftDivides(Ones(16), MessageBits(data), GENERATOR_16[1..]);
  }

  lemma Leading16()
    ensures |GENERATOR_16| == 17 && [true] + GENERATOR_16[1..] == GENERATOR_16
  {
  }

  // The register as bytes

  function First16(c: bv16): bv8 { (c & 0xFF) as bv8 }

  function Later16(c: bv16): bv16 { c >> 8 }

  lemma FirstParts16(c: bv16)
    ensures var v := First16(c);
            && Odd(v) == Odd16(c) && Odd(Half(v)) == Odd16(Half16(c))
            && Odd(Half(Half(v))) == Odd16(Half16(Half16(c)))
            && Odd(Half(Half(Half(v)))) == Odd16(Half16(Half16(Half16(c))))
  {
  }

  lemma FirstRest16(c: bv16)
    ensures var v, d := Rest(First16(c)), Rest16(c);
            && Odd(v) == Odd16(d) && Odd(Half(v)) == Odd16(Half16(d))
            && Odd(Half(Half(v))) == Odd16(Half16(Half16(d)))
            && Odd(Half(Half(Half(v)))) == Odd16(Half16(Half16(Half16(d))))
  {
  }

  lemma LaterRest16(c: bv16)
    ensures Rest16(Rest16(c)) == Later16(c)
  {
  }

  lemma FirstNibbles16(c: bv16)
    ensures Nibble(First16(c)) == Nibble16(c) && Nibble(Rest(First16(c))) == Nibble16(Rest16(c))
  {
    hide Odd, Half, Odd16, Half16, First16, Rest, Rest16;
    FirstParts16(c);
    FirstRest16(c);
  }

  lemma FirstByte16(c: bv16, n: nat)
    ensures From16(c, n + 8) == LowFirst(First16(c), 8) + From16(Later16(c), n)
  {
    hide From16, Nibble, Nibble16, Rest, Rest16, First16, Later16, LowFirst;
    BitsNibble16(c, n + 4);
    BitsNibble16(Rest16(c), n);
    LaterRest16(c);
    FirstNibbles16(c);
    ByteNibbles(First16(c));
  }

  /** The serial checksum is the remainder by x^16 + x^15 + x^2 + 1, its first coefficient in the low bit. */
  lemma Crc16IsRemainder(data: seq<byte>)
    ensures From16(Crc16(data), 16) == CheckBits(data, GENERATOR_16)
  {
    hide Fold16, From16, CheckBits, GENERATOR_16;
    Fold16Divides(data);
  }

  lemma SecondByte16(c: bv16)
    ensures (c >> 8) as bv8 == First16(Later16(c))
  {
  }

  lemma Halves16(c: bv16)
    ensures ToBv(Low16(c)) == First16(c) && ToBv(High16(c)) == First16(Later16(c))
  {
    hide OfBv, ToBv;
    SecondByte16(c);
    ToOfBv(First16(c));
    ToOfBv(First16(Later16(c)));
  }

  lemma Bytes16(c: bv16)
    ensures ByteBits(Low16(c)) + ByteBits(High16(c)) == From16(c, 16)
  {
    hide LowFirst, From16, ToBv, Low16, High16, First16, Later16;
    Halves16(c);
    FirstByte16(c, 8);
    FirstByte16(Later16(c), 0);
    BitsNone16(Later16(Later16(c)));
  }

  /** A frame carries its checksum as the remainder's coefficients, in the order of the bits on the line. */
  lemma Trailer16(frame: seq<byte>)
    requires |frame| >= 2
    ensures var n := |frame| - 2;
            Crc16Ok(frame) <==> ByteBits(frame[n]) + ByteBits(frame[n + 1]) == CheckBits(frame[..n], GENERATOR_16)
  {
    hide Crc16, CheckBits, ByteBits, From16, GENERATOR_16, Pair16, Low16, High16;
    var n := |frame| - 2;
    var c := Crc16(frame[..n]);
    Crc16IsRemainder(frame[..n]);
    Bytes16(c);
    Pair16Split(c);
    if ByteBits(frame[n]) + ByteBits(frame[n + 1]) == From16(c, 16) {
      SplitEqual(ByteBits(frame[n]), ByteBits(frame[n + 1]), ByteBits(Low16(c)), ByteBits(High16(c)));
      ByteBitsInjective(frame[n], Low16(c));
      ByteBitsInjective(frame[n + 1], High16(c));
    }
    if Crc16Ok(frame) {
      Pair16Injective(frame[n], frame[n + 1], Low16(c), High16(c));
    }
  }

  // ----- CRC-32 -----

  /** x^32 + x^26 + x^23 + x^22 + x^16 + x^12 + x^11 + x^10 + x^8 + x^7 + x^5 + x^4 + x^2 + x + 1. */
  const GENERATOR_32: seq<bool> := [true] + UPPER_TAPS_32 + LOWER_TAPS_32

  const UPPER_TAPS_32: seq<bool> := [
    false, false, false, false, false, true, false, false, true, true, false, false, false, false, false, true]

  const LOWER_TAPS_32: seq<bool> := [
    false, false, false, true, true, true, false, true, true, false, true, true, false, true, true, true]

  lemma Width32()
    ensures |GENERATOR_32| == 33
  {
  }

  predicate Odd32(c: bv32) { c & 1 != 0 }

  function Half32(c: bv32): bv32 { c >> 1 }

  function Plus32(a: bv32, b: bv32): bv32 { a ^ b }

  function Wide32(v: bv8): bv32 { v as bv32 }

  /** The low `n` bits of the register, from the lowest up. */
  function From32(c: bv32, n: nat): (bits: seq<bool>)
    ensures |bits| == n
  {
    if n == 0 then [] else [Odd32(c)] + From32(Half32(c), n - 1)
  }

  function Rest32(c: bv32): bv32 { Half32(Half32(Half32(Half32(c)))) }

  function Nibble32(c: bv32): (bits: seq<bool>)
    ensures |bits| == 4
  {
    [Odd32(c), Odd32(Half32(c)), Odd32(Half32(Half32(c))), Odd32(Half32(Half32(Half32(c))))]
  }

  lemma BitsFirst32(c: bv32, n: nat)
    ensures From32(c, n + 1) == [Odd32(c)] + From32(Half32(c), n)
  {
  }

  lemma BitsNibble32(c: bv32, n: nat)
    ensures From32(c, n + 4) == Nibble32(c) + From32(Rest32(c), n)
  {
    hide Odd32, Half32, From32;
    var d, e, f := Half32(c), Half32(Half32(c)), Half32(Half32(Half32(c)));
    BitsFirst32(c, n + 3);
    BitsFirst32(d, n + 2);
    BitsFirst32(e, n + 1);
    BitsFirst32(f, n);
  }

  lemma BitsNone32(c: bv32)
    ensures From32(c, 0) == []
  {
  }

  lemma LowTaps32()
    ensures From32(0xEDB88320, 32) == UPPER_TAPS_32 + From32(0xEDB8, 16)
  {
    hide From32;
    BitsNibble32(0xEDB88320, 28);
    BitsNibble32(0xEDB8832, 24);
    BitsNibble32(0xEDB883, 20);
    BitsNibble32(0xEDB88, 16);
    assert GENERATOR_32[1..17] == Nibble32(0xEDB88320) + Nibble32(0xEDB8832) + Nibble32(0xEDB883) + Nibble32(0xEDB88);
  }

  lemma HighTaps32()
    ensures From32(0xEDB8, 16) == LOWER_TAPS_32
  {
    hide From32;
    BitsNibble32(0xEDB8, 12);
    BitsNibble32(0xEDB, 8);
    BitsNibble32(0xED, 4);
    BitsNibble32(0xE, 0);
    BitsNone32(0);
  }

  /** The constant of the byte loop holds the generator's lower coefficients. */
  lemma Taps32()
    ensures From32(0xEDB88320, 32) == GENERATOR_32[1..]
  {
    assert GENERATOR_32[1..] == UPPER_TAPS_32 + LOWER_TAPS_32;
    hide From32, GENERATOR_32, UPPER_TAPS_32, LOWER_TAPS_32;
    LowTaps32();
    HighTaps32();
  }

  lemma AllOnes32()
    ensures From32(0xFFFFFFFF, 32) == Ones(32)
  {
    hide From32;
    BitsNibble32(0xFFFFFFFF, 28);
    BitsNibble32(0xFFFFFFF, 24);
    BitsNibble32(0xFFFFFF, 20);
    BitsNibble32(0xFFFFF, 16);
    BitsNibble32(0xFFFF, 12);
    BitsNibble32(0xFFF, 8);
    BitsNibble32(0xFF, 4);
    BitsNibble32(0xF, 0);
    BitsNone32(0);
  }

  lemma PlusParts32(a: bv32, b: bv32)
    ensures Half32(Plus32(a, b)) == Plus32(Half32(a), Half32(b))
    ensures Odd32(Plus32(a, b)) == (Odd32(a) != Odd32(b))
  {
  }

  lemma {:induction false} BitsPlus32(a: bv32, b: bv32, n: nat)
    ensures From32(Plus32(a, b), n) == AddFront(From32(a, n), From32(b, n))
    decreases n
  {
    hide Odd32, Half32, Plus32;
    if n > 0 {
      PlusParts32(a, b);
      BitsPlus32(Half32(a), Half32(b), n - 1);
    }
  }

  function Dropped32(c: bv32, n: nat): bv32 { if n == 0 then c else Dropped32(Half32(c), n - 1) }

  lemma DroppedFour32(c: bv32, n: nat)
    ensures Dropped32(c, n + 4) == Dropped32(Rest32(c), n)
  {
    hide Half32;
    assert Dropped32(c, n + 4) == Dropped32(Half32(c), n + 3);
    assert Dropped32(Half32(c), n + 3) == Dropped32(Half32(Half32(c)), n + 2);
  }

  lemma DroppedAll32(c: bv32)
    ensures Dropped32(c, 32) == 0
  {
    hide Rest32, Dropped32;
    DroppedFour32(c, 28);
    var c1 := Rest32(c);
    DroppedFour32(c1, 24);
    var c2 := Rest32(c1);
    DroppedFour32(c2, 20);
    var c3 := Rest32(c2);
    DroppedFour32(c3, 16);
    var c4 := Rest32(c3);
    DroppedFour32(c4, 12);
    var c5 := Rest32(c4);
    DroppedFour32(c5, 8);
    var c6 := Rest32(c5);
    DroppedFour32(c6, 4);
    var c7 := Rest32(c6);
    DroppedFour32(c7, 0);
    var c8 := Rest32(c7);
    assert Dropped32(c8, 0) == c8 by { DroppedNone32(c8); }
    Gone32(c);
  }

  lemma DroppedNone32(c: bv32)
    ensures Dropped32(c, 0) == c
  {
  }

  lemma Gone32(c: bv32)
    ensures Rest32(Rest32(Rest32(Rest32(Rest32(Rest32(Rest32(Rest32(c)))))))) == 0
  {
  }

  lemma {:induction false} BitsLast32(c: bv32, n: nat)
    ensures From32(c, n + 1) == From32(c, n) + [Odd32(Dropped32(c, n))]
    decreases n
  {
    hide Odd32, Half32;
    if n > 0 {
      BitsLast32(Half32(c), n - 1);
    }
  }

  lemma BitsHalf32(c: bv32)
    ensures From32(Half32(c), 32) == From32(c, 32)[1..] + [false] && From32(c, 32)[0] == Odd32(c)
  {
    hide Half32, Dropped32, From32;
    BitsLast32(c, 32);
    DroppedAll32(c);
    BitsFirst32(c, 32);
    BitsFirst32(c, 31);
    assert From32(Half32(c), 32) == (From32(c, 32) + [false])[1..];
  }

  // One message bit

  function Take32(c: bv32, m: bool): bv32 {
    if Odd32(c) != m then Plus32(Half32(c), 0xEDB88320) else Half32(c)
  }

  lemma Take32Shifts(c: bv32, m: bool)
    ensures |GENERATOR_32| == 33
    ensures From32(Take32(c, m), 32) == Shifted(From32(c, 32), m, GENERATOR_32[1..])
  {
    hide GENERATOR_32, Odd32, Half32, Plus32, From32;
    Width32();
    BitsHalf32(c);
    Taps32();
    BitsPlus32(Half32(c), 0xEDB88320, 32);
  }

  lemma BitParts32(c: bv32)
    ensures Bit32(c) == Take32(c, false)
  {
  }

  lemma WideParts32(v: bv8)
    ensures Odd32(Wide32(v)) == Odd(v) && Half32(Wide32(v)) == Wide32(Half(v))
  {
  }

  lemma MixParts32(c: bv32, v: bv8)
    ensures Mix32(c, v) == Plus32(c, Wide32(v))
  {
  }

  lemma PlusAssociates32(a: bv32, b: bv32, d: bv32)
    ensures Plus32(Plus32(a, b), d) == Plus32(a, Plus32(b, d)) && Plus32(b, d) == Plus32(d, b)
  {
  }

  lemma PlusSwap32(a: bv32, b: bv32, d: bv32)
    ensures Plus32(Plus32(a, b), d) == Plus32(Plus32(a, d), b)
  {
    hide Plus32;
    PlusAssociates32(a, b, d);
    PlusAssociates32(a, d, b);
  }

  /** Mixing a byte in and shifting once takes its low bit and leaves the rest mixed in. */
  lemma TakeLow32(c: bv32, v: bv8)
    ensures Bit32(Mix32(c, v)) == Mix32(Take32(c, Odd(v)), Half(v))
  {
    hide Bit32, Odd, Half, Mix32, Plus32, Wide32, Half32, Odd32;
    MixParts32(c, v);
    MixParts32(Take32(c, Odd(v)), Half(v));
    BitParts32(Plus32(c, Wide32(v)));
    PlusParts32(c, Wide32(v));
    WideParts32(v);
    PlusSwap32(Half32(c), Wide32(Half(v)), 0xEDB88320);
  }

  /** The register fed with the low `n` bits of a byte one at a time. */
  function Fed32(c: bv32, v: bv8, n: nat): bv32
    decreases n
  {
    if n == 0 then c else Fed32(Take32(c, Odd(v)), Half(v), n - 1)
  }

  lemma {:induction false} Bits32Feed(c: bv32, v: bv8, n: nat)
    ensures Bits32(Mix32(c, v), n) == Mix32(Fed32(c, v, n), Dropped(v, n))
    decreases n
  {
    hide Bit32, Mix32, Take32, Odd, Half;
    if n > 0 {
      TakeLow32(c, v);
      Bits32Feed(Take32(c, Odd(v)), Half(v), n - 1);
    }
  }

  lemma {:induction false} Fed32Shifts(c: bv32, v: bv8, n: nat)
    ensures |GENERATOR_32| == 33
    ensures From32(Fed32(c, v, n), 32) == ShiftAll(From32(c, 32), LowFirst(v, n), GENERATOR_32[1..])
    decreases n
  {
    hide GENERATOR_32, Take32, From32, Odd, Half, Shifted;
    Width32();
    if n > 0 {
      Take32Shifts(c, Odd(v));
      Fed32Shifts(Take32(c, Odd(v)), Half(v), n - 1);
      assert LowFirst(v, n)[1..] == LowFirst(Half(v), n - 1);
    }
  }

  lemma MixNothing32(d: bv32)
    ensures Mix32(d, 0) == d
  {
  }

  lemma Step32Shifts(c: bv32, b: byte)
    ensures |GENERATOR_32| == 33
    ensures From32(Step32(c, b), 32) == ShiftAll(From32(c, 32), ByteBits(b), GENERATOR_32[1..])
  {
    hide GENERATOR_32, From32, ShiftAll, LowFirst, Fed32, Bits32, Dropped, Mix32, ToBv;
    var v := ToBv(b);
    Bits32Feed(c, v, 8);
    Fed32Shifts(c, v, 8);
    DroppedAll(v);
    MixNothing32(Fed32(c, v, 8));
  }

  lemma {:induction false} Fold32Shifts(c: bv32, data: seq<byte>)
    ensures |GENERATOR_32| == 33
    ensures From32(Fold32(c, data), 32) == ShiftAll(From32(c, 32), MessageBits(data), GENERATOR_32[1..])
    decreases |data|
  {
    hide GENERATOR_32, From32, Step32, ByteBits;
    Width32();
    if data != [] {
      Step32Shifts(c, data[0]);
      Fold32Shifts(Step32(c, data[0]), data[1..]);
      MessageFirst(data);
      ShiftConcat(From32(c, 32), ByteBits(data[0]), MessageBits(data[1..]), GENERATOR_32[1..]);
    }
  }

  lemma Fold32Divides(data: seq<byte>)
    ensures |GENERATOR_32| == 33 && From32(Fold32(0xFFFFFFFF, data), 32) == CheckBits(data, GENERATOR_32)
  {
    Leading32();
    hide GENERATOR_32, Fold32, ShiftAll, Remainder, MessageBits, From32;
    Fold32Shifts(0xFFFFFFFF, data);
    AllOnes32();
    ShiftDivides(Ones(32), MessageBits(data), GENERATOR_32[1..]);
  }

  lemma Leading32()
    ensures |GENERATOR_32| == 33 && [true] + GENERATOR_32[1..] == GENERATOR_32
  {
  }

  // The register as bytes

  function First32(c: bv32): bv8 { (c & 0xFF) as bv8 }

  function Later32(c: bv32): bv32 { c >> 8 }

  lemma FirstParts32(c: bv32)
    ensures var v := First32(c);
            && Odd(v) == Odd32(c) && Odd(Half(v)) == Odd32(Half32(c))
            && Odd(Half(Half(v))) == Odd32(Half32(Half32(c)))
            && Odd(Half(Half(Half(v)))) == Odd32(Half32(Half32(Half32(c))))
  {
  }

  lemma FirstRest32(c: bv32)
    ensures var v, d := Rest(First32(c)), Rest32(c);
            && Odd(v) == Odd32(d) && Odd(Half(v)) == Odd32(Half32(d))
            && Odd(Half(Half(v))) == Odd32(Half32(Half32(d)))
            && Odd(Half(Half(Half(v)))) == Odd32(Half32(Half32(Half32(d))))
  {
  }

  lemma LaterRest32(c: bv32)
    ensures Rest32(Rest32(c)) == Later32(c)
  {
  }

  lemma FirstNibbles32(c: bv32)
    ensures Nibble(First32(c)) == Nibble32(c) && Nibble(Rest(First32(c))) == Nibble32(Rest32(c))
  {
    hide Odd, Half, Odd32, Half32, First32, Rest, Rest32;
    FirstParts32(c);
    FirstRest32(c);
  }

  lemma FirstByte32(c: bv32, n: nat)
    ensures From32(c, n + 8) == LowFirst(First32(c), 8) + From32(Later32(c), n)
  {
    hide From32, Nibble, Nibble32, Rest, Rest32, First32, Later32, LowFirst;
    BitsNibble32(c, n + 4);
    BitsNibble32(Rest32(c), n);
    LaterRest32(c);
    FirstNibbles32(c);
    ByteNibbles(First32(c));
  }

  function Complemented(bits: seq<bool>): (r: seq<bool>)
    ensures |r| == |bits|
  {
    seq(|bits|, k requires 0 <= k < |bits| => !bits[k])
  }

  function Not32(c: bv32): bv32 { c ^ 0xFFFFFFFF }

  lemma NotTwice32(c: bv32)
    ensures c == Plus32(Not32(c), 0xFFFFFFFF)
  {
  }

  lemma Finished32(data: seq<byte>)
    ensures Crc32(data) == Not32(Fold32(0xFFFFFFFF, data))
  {
    hide Fold32;
  }

  lemma Unfinished32(data: seq<byte>)
    ensures Fold32(0xFFFFFFFF, data) == Plus32(Crc32(data), 0xFFFFFFFF)
  {
    hide Fold32, Plus32, Crc32, Not32;
    Finished32(data);
    NotTwice32(Fold32(0xFFFFFFFF, data));
  }

  lemma OnesComplement(bits: seq<bool>)
    ensures AddFront(bits, Ones(|bits|)) == Complemented(bits)
  {
  }

  /** The file checksum is the complement of the remainder. */
  lemma Crc32IsRemainder(data: seq<byte>)
    ensures Complemented(From32(Crc32(data), 32)) == CheckBits(data, GENERATOR_32)
  {
    hide Fold32, Crc32, From32, CheckBits, GENERATOR_32, Plus32, AddFront, Complemented, Ones;
    Fold32Divides(data);
    Unfinished32(data);
    BitsPlus32(Crc32(data), 0xFFFFFFFF, 32);
    AllOnes32();
    OnesComplement(From32(Crc32(data), 32));
  }

  lemma LaterBytes32(c: bv32)
    ensures ((c >> 8) & 0xFF) as bv8 == First32(Later32(c))
    ensures ((c >> 16) & 0xFF) as bv8 == First32(Later32(Later32(c)))
    ensures (c >> 24) as bv8 == First32(Later32(Later32(Later32(c))))
  {
  }

  lemma Quarters32(c: bv32)
    ensures var s := Split32(c);
            && ToBv(s[0]) == First32(c) && ToBv(s[1]) == First32(Later32(c))
            && ToBv(s[2]) == First32(Later32(Later32(c))) && ToBv(s[3]) == First32(Later32(Later32(Later32(c))))
  {
    hide OfBv, ToBv;
    LaterBytes32(c);
    ToOfBv(First32(c));
    ToOfBv(First32(Later32(c)));
    ToOfBv(First32(Later32(Later32(c))));
    ToOfBv(First32(Later32(Later32(Later32(c)))));
  }

  lemma FourBytes(s: seq<byte>)
    requires |s| == 4
    ensures MessageBits(s) == ByteBits(s[0]) + ByteBits(s[1]) + ByteBits(s[2]) + ByteBits(s[3])
  {
    hide ByteBits;
    assert s[..3][..2] == s[..2] && s[..2][..1] == s[..1] && s[..1][..0] == [];
    assert MessageBits(s[..1]) == ByteBits(s[0]);
    assert MessageBits(s[..2]) == ByteBits(s[0]) + ByteBits(s[1]);
    assert MessageBits(s[..3]) == ByteBits(s[0]) + ByteBits(s[1]) + ByteBits(s[2]);
  }

  lemma Bytes32(c: bv32)
    ensures MessageBits(Split32(c)) == From32(c, 32)
  {
    hide LowFirst, From32, ToBv, Split32, First32, Later32, MessageBits;
    Quarters32(c);
    FourBytes(Split32(c));
    FirstByte32(c, 24);
    FirstByte32(Later32(c), 16);
    FirstByte32(Later32(Later32(c)), 8);
    FirstByte32(Later32(Later32(Later32(c))), 0);
    BitsNone32(Later32(Later32(Later32(Later32(c)))));
  }

  lemma {:induction false} MessageBitsInjective(a: seq<byte>, b: seq<byte>)
    requires |a| == |b| && MessageBits(a) == MessageBits(b)
    ensures a == b
    decreases |a|
  {
    hide ByteBits;
    if a != [] {
      var n := |a| - 1;
      MessageSize(a[..n]);
      MessageSize(b[..n]);
      SplitEqual(MessageBits(a[..n]), ByteBits(a[n]), MessageBits(b[..n]), ByteBits(b[n]));
      MessageBitsInjective(a[..n], b[..n]);
      ByteBitsInjective(a[n], b[n]);
      assert a == a[..n] + [a[n]] && b == b[..n] + [b[n]];
    }
  }

  lemma {:induction false} MessageSize(a: seq<byte>)
    ensures |MessageBits(a)| == 8 * |a|
  {
    if a != [] {
      MessageSize(a[..|a| - 1]);
    }
  }

  lemma ComplementInjective(a: seq<bool>, b: seq<bool>)
    requires Complemented(a) == Complemented(b)
    ensures a == b
  {
    forall k | 0 <= k < |a| ensures a[k] == b[k] {
      assert Complemented(a)[k] == Complemented(b)[k];
    }
  }

  /** A file carries its checksum as the complement of the remainder, low bits first. */
  lemma Trailer32(file: seq<byte>)
    requires |file| >= 4
    ensures var n := |file| - 4;
            Crc32Ok(file) <==> Complemented(MessageBits(file[n..])) == CheckBits(file[..n], GENERATOR_32)
  {
    hide Crc32, CheckBits, MessageBits, From32, GENERATOR_32, Join32, Split32;
    var n := |file| - 4;
    var c := Crc32(file[..n]);
    Crc32IsRemainder(file[..n]);
    Bytes32(c);
    var s := Split32(c);
    Join32Split(c);
    var t := file[n..];
    if Crc32Ok(file) {
      Join32Injective(t[0], t[1], t[2], t[3], s[0], s[1], s[2], s[3]);
      assert t == s;
    }
    if Complemented(MessageBits(t)) == Complemented(MessageBits(s)) {
      ComplementInjective(MessageBits(t), MessageBits(s));
      MessageBitsInjective(t, s);
    }
  }
}
