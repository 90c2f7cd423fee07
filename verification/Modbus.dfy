/** The acquisition request plan (MODBUS Application Protocol V1.1b3 section 6.4). */
module Modbus {
  import opened Bytes
  import opened Crc
  import opened Snapshot

  const REQUEST_COUNT: nat := 31
  const READ_INPUT_REGISTERS: byte := 4
  const FIRST_ADDRESS: nat := 10001
  const LAST_ADDRESS: nat := 13615

  datatype ReadRequest = ReadRequest(
    slaveId: byte, function_: byte, startAddress: nat, registerCount: nat, wireFrame: seq<byte>)

  function PlanStart(i: nat): nat {
    if i == 0 then FIRST_ADDRESS else 10016 + (i - 1) * 120
  }

  function PlanCount(i: nat): nat {
    if i == 0 then 15 else 120
  }

  function RequestBody(slave: byte, start: nat, count: nat): (body: seq<byte>)
    ensures |body| == 6
  {
    [slave, READ_INPUT_REGISTERS] + ToBE16(start) + ToBE16(count)
  }

  function PlannedRequest(slave: byte, i: nat): (r: ReadRequest)
    ensures |r.wireFrame| == 8
  {
    ReadRequest(slave, READ_INPUT_REGISTERS, PlanStart(i), PlanCount(i),
                WithCrc16(RequestBody(slave, PlanStart(i), PlanCount(i))))
  }

  /** The plan array, filled slot by slot and byte by byte. */
  method RequestPlan(slave: byte) returns (plan: array<ReadRequest>)
    ensures fresh(plan) && plan.Length == REQUEST_COUNT
    ensures forall i | 0 <= i < REQUEST_COUNT :: plan[i] == PlannedRequest(slave, i)
  {
    hide Crc16, Low16, High16;
    plan := new ReadRequest[REQUEST_COUNT](_ => ReadRequest(0, 0, 0, 0, []));
    for index := 0 to REQUEST_COUNT
      invariant forall i | 0 <= i < index :: plan[i] == PlannedRequest(slave, i)
    {
      var start := if index == 0 then FIRST_ADDRESS else 10016 + (index - 1) * 120;
      var count := if index == 0 then 15 else 120;
      var frame := [slave, READ_INPUT_REGISTERS,
                    ByteOf(start / 256), ByteOf(start), ByteOf(count / 256), ByteOf(count)];
      assert frame == RequestBody(slave, start, count);
      var crc := ComputeCrc16(frame);
      frame := frame + [Low16(crc), High16(crc)];
      plan[index] := ReadRequest(slave, READ_INPUT_REGISTERS, start, count, frame);
    }
  }

  /** The request that covers an address. */
  function Covering(address: nat): nat
    requires FIRST_ADDRESS <= address <= LAST_ADDRESS
  {
    if address < 10016 then 0 else (address - 10016) / 120 + 1
  }

  /** The 31 requests tile 10001..13615: every address is read by exactly one of them, none outside. */
  lemma PlanTiles(address: nat, i: nat)
    requires i < REQUEST_COUNT
    ensures PlanStart(i) <= address < PlanStart(i) + PlanCount(i)
            <==> FIRST_ADDRESS <= address <= LAST_ADDRESS && i == Covering(address)
    ensures 1 <= PlanCount(i) <= 125 && PlanStart(i) + PlanCount(i) < 65536
  {
  }

  // ----- Register words on the wire -----

  function WordBytes(words: seq<Word>): (bs: seq<byte>)
    ensures |bs| == 2 * |words|
  {
    if words == [] then [] else ToBE16(words[0]) + WordBytes(words[1..])
  }

  function BytesToWords(bs: seq<byte>): (words: seq<Word>)
    requires |bs| % 2 == 0
    ensures |words| == |bs| / 2
    ensures forall k | 0 <= k < |words| :: words[k] == FromBE16(bs[2 * k], bs[2 * k + 1])
  {
    seq(|bs| / 2, k requires 0 <= k < |bs| / 2 => FromBE16(bs[2 * k], bs[2 * k + 1]))
  }

  lemma {:induction false} WordBytesAt(words: seq<Word>, k: nat)
    requires k < |words|
    ensures [WordBytes(words)[2 * k], WordBytes(words)[2 * k + 1]] == ToBE16(words[k])
  {
    if k > 0 {
      WordBytesAt(words[1..], k - 1);
    }
  }

  /** Decoding the data bytes of a response gives the registers that were encoded. */
  lemma WordsRoundTrip(words: seq<Word>)
    ensures BytesToWords(WordBytes(words)) == words
  {
    forall k | 0 <= k < |words|
      ensures BytesToWords(WordBytes(words))[k] == words[k]
    {
      WordBytesAt(words, k);
      FromToBE16(words[k]);
    }
  }

  lemma WordBytesSnoc(words: seq<Word>, w: Word)
    ensures WordBytes(words + [w]) == WordBytes(words) + ToBE16(w)
  {
    if words == [] {
      assert words + [w] == [w] && [w][1..] == [];
    } else {
      assert (words + [w])[1..] == words[1..] + [w];
      WordBytesSnoc(words[1..], w);
    }
  }
}
