/** Bytes and the fixed-width integers the formats are built from. */
module Bytes {
  newtype byte = x: int | 0 <= x < 256

  function ByteOf(v: nat): byte { (v % 256) as byte }

  function Pow256(n: nat): (p: nat)
    ensures p >= 1
  {
    if n == 0 then 1 else 256 * Pow256(n - 1)
  }

  /** The `n` low-order bytes of `v`, least significant first. */
  function ToLE(n: nat, v: nat): (bs: seq<byte>)
    ensures |bs| == n
  {
    if n == 0 then [] else [ByteOf(v)] + ToLE(n - 1, v / 256)
  }

  function FromLE(bs: seq<byte>): (v: nat)
    ensures v < Pow256(|bs|)
  {
    if bs == [] then 0 else bs[0] as int + 256 * FromLE(bs[1..])
  }

  lemma {:induction false} FromToLE(n: nat, v: nat)
    requires v < Pow256(n)
    ensures FromLE(ToLE(n, v)) == v
  {
    if n > 0 {
      FromToLE(n - 1, v / 256);
      assert ToLE(n, v)[1..] == ToLE(n - 1, v / 256);
    }
  }

  lemma {:induction false} ToFromLE(bs: seq<byte>)
    ensures ToLE(|bs|, FromLE(bs)) == bs
  {
    if bs != [] {
      ToFromLE(bs[1..]);
      assert bs == [bs[0]] + bs[1..];
    }
  }

  /** A 16-bit value in network order, as both Modbus framings carry it. */
  function ToBE16(v: nat): (bs: seq<byte>)
    ensures |bs| == 2
  {
    [ByteOf(v / 256), ByteOf(v)]
  }

  function FromBE16(hi: byte, lo: byte): (v: nat)
    ensures v < 65536
  {
    hi as int * 256 + lo as int
  }

  lemma FromToBE16(v: nat)
    requires v < 65536
    ensures FromBE16(ToBE16(v)[0], ToBE16(v)[1]) == v
  {
  }

  /** Two's complement of a 32-bit signed value, and back. */
  function FromInt32(v: int): (u: nat)
    requires -0x8000_0000 <= v < 0x8000_0000
    ensures u < 0x1_0000_0000
  {
    if v < 0 then v + 0x1_0000_0000 else v
  }

  function ToInt32(u: nat): (v: int)
    requires u < 0x1_0000_0000
    ensures -0x8000_0000 <= v < 0x8000_0000
    ensures FromInt32(v) == u
  {
    if u >= 0x8000_0000 then u - 0x1_0000_0000 else u
  }
}
