/** The serial server: request handling and the 8-byte framing loop. */
module RtuServer {
  import opened Wrappers
  import opened Bytes
  import opened Crc
  import opened Snapshot
  import opened Modbus

  const REQUEST_BYTES: nat := 8
  const READ_BYTES: nat := 256
  const DEFAULT_MAX_FRAME: nat := 512

  datatype Options = Options(unitId: byte, maxFrameBytes: nat)

  predicate ValidOptions(o: Options) {
    1 <= o.unitId <= 247 && o.maxFrameBytes >= 8
  }

  function SetHighBit(f: byte): byte {
    if f >= 128 then f else f + 128
  }

  function ExceptionResponse(unit: byte, function_: byte, code: byte): (r: seq<byte>)
    ensures |r| == 5
  {
    WithCrc16([unit, SetHighBit(function_), code])
  }

  function DataResponse(unit: byte, words: seq<Word>): (r: seq<byte>)
    requires |words| <= 125
    ensures |r| == 5 + 2 * |words|
  {
    WithCrc16([unit, READ_INPUT_REGISTERS, (2 * |words|) as byte] + WordBytes(words))
  }

  /** What the server answers, as one decision over the request. */
  function Respond(o: Options, latest: Option<Registers>, request: seq<byte>): (r: seq<byte>) {
    if |request| < REQUEST_BYTES || |request| > o.maxFrameBytes || !Crc16Ok(request) then []
    else if request[0] != o.unitId then []
    else if |request| != REQUEST_BYTES then ExceptionResponse(o.unitId, request[1], 3)
    else if request[1] != READ_INPUT_REGISTERS then ExceptionResponse(o.unitId, request[1], 1)
    else
      var start := FromBE16(request[2], request[3]);
      var count := FromBE16(request[4], request[5]);
      if count == 0 || count > 125 then ExceptionResponse(o.unitId, request[1], 3)
      else if start < FIRST_ADDRESS || start + count - 1 > LAST_ADDRESS then
        ExceptionResponse(o.unitId, request[1], 2)
      else if latest.None? then ExceptionResponse(o.unitId, request[1], 4)
      else DataResponse(o.unitId, latest.value[start - FIRST_ADDRESS..start - FIRST_ADDRESS + count])
  }

  /** The same decision as the code takes it, appending the response byte by byte. */
  method HandleRequest(o: Options, latest: Option<Registers>, request: seq<byte>) returns (response: seq<byte>)
    ensures response == Respond(o, latest, request)
  {
    hide Crc16, Pair16, Low16, High16;
    if |request| < REQUEST_BYTES || |request| > o.maxFrameBytes {
      return [];
    }
    var crc := ComputeCrc16(request[..|request| - 2]);
    if crc != Pair16(request[|request| - 2], request[|request| - 1]) {
      return [];
    }
    if request[0] != o.unitId {
      return [];
    }
    if |request| != REQUEST_BYTES {
      return ExceptionResponse(o.unitId, request[1], 3);
    }
    var function_ := request[1];
    if function_ != READ_INPUT_REGISTERS {
      return ExceptionResponse(o.unitId, function_, 1);
    }
    var start := FromBE16(request[2], request[3]);
    var count := FromBE16(request[4], request[5]);
    if count == 0 || count > 125 {
      return ExceptionResponse(o.unitId, function_, 3);
    }
    var last := start + count - 1;
    if start < FIRST_ADDRESS || last > LAST_ADDRESS {
      return ExceptionResponse(o.unitId, function_, 2);
    }
    if latest.None? {
      return ExceptionResponse(o.unitId, function_, 4);
    }
    var offset := start - FIRST_ADDRESS;
    response := BuildData(o.unitId, latest.value[offset..offset + count]);
  }

  method BuildData(unit: byte, words: seq<Word>) returns (response: seq<byte>)
    requires |words| <= 125
    ensures response == DataResponse(unit, words)
  {
    hide Crc16, Low16, High16;
    response := [unit, READ_INPUT_REGISTERS, (|words| * 2) as byte];
    ghost var head := response;
    for index := 0 to |words|
      invariant response == head + WordBytes(words[..index])
    {
      assert words[..index + 1] == words[..index] + [words[index]];
      WordBytesSnoc(words[..index], words[index]);
      response := response + [ByteOf(words[index] / 256), ByteOf(words[index])];
    }
    assert words[..|words|] == words;
    var trailer := ComputeCrc16(response);
    response := response + [Low16(trailer), High16(trailer)];
  }

  /** Every answer carries a checksum its reader accepts. */
  lemma ResponsesIntact(o: Options, latest: Option<Registers>, request: seq<byte>)
    ensures var r := Respond(o, latest, request); r == [] || (|r| >= 5 && Crc16Ok(r))
  {
    var r := Respond(o, latest, request);
    if r != [] {
      WithCrc16Ok(r[..|r| - 2]);
      assert r == WithCrc16(r[..|r| - 2]);
    }
  }

  /** A request damaged in exactly one byte is never answered. */
  lemma DamagedRequestIgnored(o: Options, latest: Option<Registers>, request: seq<byte>, k: nat, v: byte)
    requires k < |request| && v != request[k]
    requires Respond(o, latest, request) != []
    ensures Respond(o, latest, request[k := v]) == []
  {
    Crc16DetectsOneByte(request, k, v);
  }

  /** What a planned frame says, field by field. */
  lemma PlannedFields(slave: byte, i: nat)
    requires i < REQUEST_COUNT
    ensures var f := PlannedRequest(slave, i).wireFrame;
            && Crc16Ok(f) && f[0] == slave && f[1] == READ_INPUT_REGISTERS
            && FromBE16(f[2], f[3]) == PlanStart(i) && FromBE16(f[4], f[5]) == PlanCount(i)
  {
    PlanTiles(PlanStart(i), i);
    WithCrc16Ok(RequestBody(slave, PlanStart(i), PlanCount(i)));
    FromToBE16(PlanStart(i));
    FromToBE16(PlanCount(i));
  }

  lemma RespondInRange(o: Options, registers: Registers, f: seq<byte>, start: nat, count: nat)
    requires |f| == REQUEST_BYTES <= o.maxFrameBytes && Crc16Ok(f)
    requires f[0] == o.unitId && f[1] == READ_INPUT_REGISTERS
    requires FromBE16(f[2], f[3]) == start && FromBE16(f[4], f[5]) == count
    requires 1 <= count <= 125 && FIRST_ADDRESS <= start && start + count <= LAST_ADDRESS + 1
    ensures Respond(o, Some(registers), f)
            == DataResponse(o.unitId, registers[start - FIRST_ADDRESS..start - FIRST_ADDRESS + count])
  {
    hide Crc16Ok, DataResponse, ExceptionResponse, FromBE16;
  }

  /** Each planned request is accepted and answered with exactly the registers it names. */
  lemma AnswersPlan(o: Options, registers: Registers, i: nat)
    requires ValidOptions(o) && i < REQUEST_COUNT
    ensures var start := PlanStart(i) - FIRST_ADDRESS;
            Respond(o, Some(registers), PlannedRequest(o.unitId, i).wireFrame)
              == DataResponse(o.unitId, registers[start..start + PlanCount(i)])
  {
    PlanTiles(PlanStart(i), i);
    PlanTiles(PlanStart(i) + PlanCount(i) - 1, i);
    PlannedFields(o.unitId, i);
    RespondInRange(o, registers, PlannedRequest(o.unitId, i).wireFrame, PlanStart(i), PlanCount(i));
  }

  /** Function codes come back with their top bit set. */
  predicate Exception(r: seq<byte>, unit: byte, function_: byte, code: byte) {
    && |r| == 5 && Crc16Ok(r) && r[0] == unit && r[2] == code
    && r[1] as int == (if function_ < 128 then function_ as int + 128 else function_ as int)
  }

  lemma ExceptionShape(unit: byte, function_: byte, code: byte)
    ensures Exception(ExceptionResponse(unit, function_, code), unit, function_, code)
  {
    hide Crc16Ok;
    HighBitSet(function_);
    WithCrc16Ok([unit, SetHighBit(function_), code]);
  }

  lemma HighBitSet(f: byte)
    ensures SetHighBit(f) as int == (if f < 128 then f as int + 128 else f as int)
  {
  }

  /** What is not answered at all, and the code of each refusal, by the bytes of the request. */
  lemma Refusals(o: Options, latest: Option<Registers>, q: seq<byte>)
    ensures var r := Respond(o, latest, q);
            && (r == [] <==> |q| < 8 || |q| > o.maxFrameBytes || !Crc16Ok(q) || q[0] != o.unitId)
            && (r != [] && |q| != 8 ==> Exception(r, o.unitId, q[1], 3))
            && (r != [] && |q| == 8 && q[1] != 4 ==> Exception(r, o.unitId, q[1], 1))
            && (r != [] && |q| == 8 && q[1] == 4 ==>
                  var start, count := 256 * q[2] as int + q[3] as int, 256 * q[4] as int + q[5] as int;
                  && (count == 0 || count > 125 ==> Exception(r, o.unitId, 4, 3))
                  && (1 <= count <= 125 && (start < 10001 || start + count > 13616) ==> Exception(r, o.unitId, 4, 2))
                  && (1 <= count <= 125 && 10001 <= start && start + count <= 13616 && latest.None? ==>
                        Exception(r, o.unitId, 4, 4)))
  {
    hide Crc16Ok, Exception, ExceptionResponse, DataResponse;
    if |q| >= 8 {
      ExceptionShape(o.unitId, q[1], 1);
      ExceptionShape(o.unitId, q[1], 2);
      ExceptionShape(o.unitId, q[1], 3);
      ExceptionShape(o.unitId, q[1], 4);
      ExceptionLong(o.unitId, q[1]);
      if latest.Some? {
        DataLong(o.unitId, latest.value);
      }
    }
  }

  lemma ExceptionLong(unit: byte, function_: byte)
    ensures forall code: byte :: ExceptionResponse(unit, function_, code) != []
  {
    hide Crc16;
  }

  lemma DataLong(unit: byte, registers: Registers)
    ensures forall lo: nat, hi: nat | lo <= hi <= REGISTER_COUNT && hi - lo <= 125 ::
              DataResponse(unit, registers[lo..hi]) != []
  {
    hide Crc16;
  }

  // ----- Stream framing -----

  /** The unique cutting of a byte stream into 8-byte requests. */
  function Requests(stream: seq<byte>): seq<seq<byte>> {
    if |stream| < REQUEST_BYTES then []
    else [stream[..REQUEST_BYTES]] + Requests(stream[REQUEST_BYTES..])
  }

  /** What is left over: fewer than 8 bytes. */
  function Residue(stream: seq<byte>): (rest: seq<byte>)
    ensures |rest| < REQUEST_BYTES
  {
    if |stream| < REQUEST_BYTES then stream else Residue(stream[REQUEST_BYTES..])
  }

  /** Cutting loses and invents nothing: the pieces have 8 bytes each and with the rest make up the stream. */
  lemma {:induction false} RequestsRejoin(stream: seq<byte>)
    ensures Joined(Requests(stream)) + Residue(stream) == stream && |Residue(stream)| < 8
    ensures forall i | 0 <= i < |Requests(stream)| :: |Requests(stream)[i]| == 8
  {
    if |stream| >= REQUEST_BYTES {
      var head, rest := stream[..REQUEST_BYTES], stream[REQUEST_BYTES..];
      RequestsRejoin(rest);
      assert Joined(Requests(stream)) == head + Joined(Requests(rest));
      assert head + Joined(Requests(rest)) + Residue(rest) == head + (Joined(Requests(rest)) + Residue(rest));
    }
  }

  /** And it is the only such cutting: 8-byte requests sent one after the other are found again. */
  lemma {:induction false} RequestsFound(requests: seq<seq<byte>>, rest: seq<byte>)
    requires (forall i | 0 <= i < |requests| :: |requests[i]| == 8) && |rest| < 8
    ensures Requests(Joined(requests) + rest) == requests && Residue(Joined(requests) + rest) == rest
  {
    if requests == [] {
      assert Joined(requests) + rest == rest;
    } else {
      var stream := Joined(requests) + rest;
      RequestsFound(requests[1..], rest);
      assert stream[..8] == requests[0] && stream[8..] == Joined(requests[1..]) + rest;
    }
  }

  function Joined(pieces: seq<seq<byte>>): seq<byte> {
    if pieces == [] then [] else pieces[0] + Joined(pieces[1..])
  }

  lemma {:induction false} RequestsAppend(stream: seq<byte>, more: seq<byte>)
    ensures Requests(stream + more) == Requests(stream) + Requests(Residue(stream) + more)
    ensures Residue(stream + more) == Residue(Residue(stream) + more)
  {
    if |stream| >= REQUEST_BYTES {
      var rest := stream[REQUEST_BYTES..];
      RequestsAppend(rest, more);
      assert (stream + more)[..REQUEST_BYTES] == stream[..REQUEST_BYTES];
      assert (stream + more)[REQUEST_BYTES..] == rest + more;
    }
  }

  /** A read of 1..256 bytes and what is served at that moment. */
  datatype Read = Read(chunk: seq<byte>, latest: Option<Registers>)

  function Arrived(incoming: seq<Read>): seq<byte> {
    if incoming == [] then [] else Arrived(incoming[..|incoming| - 1]) + incoming[|incoming| - 1].chunk
  }

  function Repeated(v: Option<Registers>, n: int): (vs: seq<Option<Registers>>)
    ensures |vs| == (if n < 0 then 0 else n) && forall i | 0 <= i < |vs| :: vs[i] == v
  {
    seq(if n < 0 then 0 else n, _ => v)
  }

  /** For each request of the stream, what was served at the read that completed it. */
  function Served(incoming: seq<Read>): seq<Option<Registers>> {
    if incoming == [] then []
    else
      var front := incoming[..|incoming| - 1];
      var completed := |Requests(Arrived(incoming))| - |Requests(Arrived(front))|;
      Served(front) + Repeated(incoming[|incoming| - 1].latest, completed)
  }

  /** The answers to requests one after the other; a request without an answer adds nothing. */
  function Replies(o: Options, requests: seq<seq<byte>>, served: seq<Option<Registers>>): seq<byte>
    requires |requests| == |served|
  {
    if requests == [] then []
    else
      var n := |requests| - 1;
      Replies(o, requests[..n], served[..n]) + Respond(o, served[n], requests[n])
  }

  lemma RepliesNext(
      o: Options, requests: seq<seq<byte>>, request: seq<byte>, served: seq<Option<Registers>>, v: Option<Registers>)
    requires |requests| == |served|
    ensures Replies(o, requests + [request], served + [v]) == Replies(o, requests, served) + Respond(o, v, request)
  {
    hide Respond;
    var all, vs, n := requests + [request], served + [v], |requests|;
    assert all[..n] == requests && vs[..n] == served && all[n] == request && vs[n] == v && |all| - 1 == n;
    assert Replies(o, all, vs) == Replies(o, all[..n], vs[..n]) + Respond(o, vs[n], all[n]);
  }

  /** The receive loop's buffer. `handled` collects what is passed to the request handler, `written` what
      goes back on the line, and `cleared` counts how often the oversize branch threw the buffer away. */
  class Framer {
    const options: Options
    var input: seq<byte>
    var handled: seq<seq<byte>>
    var written: seq<byte>
    var cleared: nat
    ghost var served: seq<Option<Registers>>

    ghost predicate Holds(received: seq<byte>)
      reads this
    {
      && input == Residue(received) && handled == Requests(received)
      && |served| == |handled| && written == Replies(options, handled, served)
    }

    constructor (o: Options)
      ensures Holds([]) && options == o && cleared == 0 && served == []
    {
      options := o;
      input, handled, written, cleared := [], [], [], 0;
      served := [];
    }

    /** One successful read. The buffer is discarded exactly when it would outgrow the limit; otherwise
        every request now complete is handled and its answer written, in order. */
    method Receive(chunk: seq<byte>, latest: Option<Registers>, ghost received: seq<byte>)
      requires Holds(received)
      modifies this
      ensures |old(input)| + |chunk| > options.maxFrameBytes ==>
                && input == [] && handled == old(handled) && written == old(written) && served == old(served)
                && cleared == old(cleared) + 1
      ensures |old(input)| + |chunk| <= options.maxFrameBytes ==>
                && Holds(received + chunk) && cleared == old(cleared)
                && served == old(served) + Repeated(latest, |handled| - |old(handled)|)
    {
      hide Respond, Replies, Requests, Residue;
      RequestsAppend(received, chunk);
      input := input + chunk;
      if |input| > options.maxFrameBytes {
        input, cleared := [], cleared + 1;
        return;
      }
      ghost var all := received + chunk;
      while |input| >= REQUEST_BYTES
        invariant cleared == old(cleared) && |handled| >= |old(handled)|
        invariant handled + Requests(input) == Requests(all) && Residue(input) == Residue(all)
        invariant |served| == |handled| && written == Replies(options, handled, served)
        invariant served == old(served) + Repeated(latest, |handled| - |old(handled)|)
      {
        RequestsStep(input);
        var request := input[..REQUEST_BYTES];
        RepliesNext(options, handled, request, served, latest);
        RepeatedNext(latest, |handled| - |old(handled)|);
        input := input[REQUEST_BYTES..];
        handled := handled + [request];
        var response := HandleRequest(options, latest, request);
        written := written + response;
        served := served + [latest];
      }
      RequestsStep(input);
      assert handled + [] == handled;
    }
  }

  lemma RequestsStep(s: seq<byte>)
    ensures |s| < 8 ==> Requests(s) == [] && Residue(s) == s
    ensures |s| >= 8 ==> Requests(s) == [s[..8]] + Requests(s[8..]) && Residue(s) == Residue(s[8..])
  {
  }

  lemma RepeatedNext(v: Option<Registers>, n: nat)
    ensures Repeated(v, n + 1) == Repeated(v, n) + [v]
  {
  }

  /** However a stream is split into reads, the handler sees the same requests, the 8-byte cutting of the
      whole stream, what goes back is their answers in order, and nothing is ever discarded. */
  method RunReads(unit: byte, incoming: seq<Read>)
    returns (handled: seq<seq<byte>>, written: seq<byte>, left: seq<byte>, cleared: nat)
    requires forall r | r in incoming :: |r.chunk| <= READ_BYTES
    ensures handled == Requests(Arrived(incoming)) && left == Residue(Arrived(incoming)) && cleared == 0
    ensures |Served(incoming)| == |handled|
    ensures written == Replies(Options(unit, DEFAULT_MAX_FRAME), handled, Served(incoming))
  {
    hide Respond, Replies, Requests, Residue, Repeated;
    var framer := new Framer(Options(unit, DEFAULT_MAX_FRAME));
    assert incoming[..0] == [];
    for k := 0 to |incoming|
      invariant framer.Holds(Arrived(incoming[..k])) && framer.served == Served(incoming[..k])
      invariant fresh(framer) && framer.options == Options(unit, DEFAULT_MAX_FRAME) && framer.cleared == 0
    {
      assert incoming[..k + 1][..k] == incoming[..k];
      framer.Receive(incoming[k].chunk, incoming[k].latest, Arrived(incoming[..k]));
    }
    assert incoming[..|incoming|] == incoming;
    return framer.handled, framer.written, framer.input, framer.cleared;
  }
}
