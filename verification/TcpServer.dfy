/** The TCP server: request handling and per-client framing by the MBAP length field
    (MODBUS Messaging on TCP/IP V1.0b section 3.1.3). */
module TcpServer {
  import opened Wrappers
  import opened Bytes
  import opened Snapshot
  import opened Modbus
  import RtuServer

  const HEADER_BYTES: nat := 6
  const MAX_PDU: nat := 253
  const MAX_ADU: nat := 259
  const MAX_INPUT: nat := 1024
  const MAX_OUTPUT: nat := 2048
  const READ_BYTES: nat := 512

  type Latest = Option<Registers>

  /** The request's transaction id, protocol 0, the length that follows, and the unit. */
  function Framed(request: seq<byte>, pdu: seq<byte>): (r: seq<byte>)
    requires |request| >= 7
    ensures |r| == 7 + |pdu|
  {
    [request[0], request[1], 0, 0] + ToBE16(1 + |pdu|) + [request[6]] + pdu
  }

  type Pdu = p: seq<byte> | 2 <= |p| < MAX_PDU witness [0, 0]

  function ExceptionPdu(function_: byte, code: byte): Pdu {
    [RtuServer.SetHighBit(function_), code]
  }

  function DataPdu(words: seq<Word>): Pdu
    requires |words| <= 125
  {
    [READ_INPUT_REGISTERS, (2 * |words|) as byte] + WordBytes(words)
  }

  predicate WellFramed(request: seq<byte>) {
    && HEADER_BYTES + 6 <= |request| <= MAX_ADU
    && FromBE16(request[2], request[3]) == 0
    && FromBE16(request[4], request[5]) + HEADER_BYTES == |request|
  }

  function Respond(unit: byte, latest: Latest, request: seq<byte>): seq<byte> {
    if !WellFramed(request) then [] else Framed(request, Serve(unit, latest, request))
  }

  function Serve(unit: byte, latest: Latest, request: seq<byte>): Pdu
    requires |request| >= HEADER_BYTES + 6
  {
    if request[6] != unit then ExceptionPdu(request[7], 0x0B)
    else if request[7] != READ_INPUT_REGISTERS then ExceptionPdu(request[7], 1)
    else if |request| != HEADER_BYTES + 6 then ExceptionPdu(request[7], 3)
    else ServeRead(latest, request[7], FromBE16(request[8], request[9]), FromBE16(request[10], request[11]))
  }

  function ServeRead(latest: Latest, function_: byte, start: nat, count: nat): Pdu {
    if count == 0 || count > 125 then ExceptionPdu(function_, 3)
    else if start < FIRST_ADDRESS || start + count - 1 > LAST_ADDRESS then ExceptionPdu(function_, 2)
    else if latest.None? then ExceptionPdu(function_, 4)
    else DataPdu(latest.value[start - FIRST_ADDRESS..start - FIRST_ADDRESS + count])
  }

  /** The header a client matches a response by. */
  predicate Matches(request: seq<byte>, r: seq<byte>) {
    && |request| >= 7 && 9 <= |r| <= MAX_ADU
    && FromBE16(r[4], r[5]) + HEADER_BYTES == |r|
    && r[0] == request[0] && r[1] == request[1] && r[2] == 0 && r[3] == 0 && r[6] == request[6]
  }

  lemma FramedMatches(request: seq<byte>, pdu: Pdu)
    requires |request| >= 7
    ensures Matches(request, Framed(request, pdu))
  {
    FromToBE16(1 + |pdu|);
  }

  /** Every answer echoes the transaction id and unit and carries its own length. */
  lemma ResponseMatches(unit: byte, latest: Latest, request: seq<byte>)
    ensures var r := Respond(unit, latest, request);
            if WellFramed(request) then Matches(request, r) else r == []
  {
    hide Serve, Framed, Matches;
    if WellFramed(request) {
      FramedMatches(request, Serve(unit, latest, request));
    }
  }

  /** A read request for one of the served registers on this unit. */
  predicate GoodRead(unit: byte, request: seq<byte>, start: nat, count: nat) {
    && |request| == HEADER_BYTES + 6 && WellFramed(request) && request[6] == unit && request[7] == READ_INPUT_REGISTERS
    && FromBE16(request[8], request[9]) == start && FromBE16(request[10], request[11]) == count
    && 1 <= count <= 125 && FIRST_ADDRESS <= start && start + count - 1 <= LAST_ADDRESS
  }

  lemma FramedTail(request: seq<byte>, words: seq<Word>)
    requires |request| >= 7 && 1 <= |words| <= 125
    ensures var r := Framed(request, DataPdu(words));
            && |r| == 9 + 2 * |words| && r[7] == READ_INPUT_REGISTERS && r[8] as int == 2 * |words|
            && r[9..] == WordBytes(words)
  {
    hide ToBE16, WordBytes;
    var pdu := DataPdu(words);
    var r := Framed(request, pdu);
    assert r[7..] == pdu && pdu[2..] == WordBytes(words);
    assert r[9..] == r[7..][2..];
  }

  lemma GoodReadServed(unit: byte, registers: Registers, request: seq<byte>, start: nat, count: nat)
    requires GoodRead(unit, request, start, count)
    ensures Respond(unit, Some(registers), request)
            == Framed(request, DataPdu(registers[start - FIRST_ADDRESS..start - FIRST_ADDRESS + count]))
  {
    hide FromBE16, ToBE16, Framed, DataPdu, ExceptionPdu;
  }

  /** A good read is answered with exactly the registers asked for, whatever else is served. */
  lemma ReadIsServed(unit: byte, registers: Registers, request: seq<byte>, start: nat, count: nat)
    requires GoodRead(unit, request, start, count)
    ensures var r := Respond(unit, Some(registers), request);
            && |r| == 9 + 2 * count && r[7] == READ_INPUT_REGISTERS && r[8] as int == 2 * count
            && r[9..] == WordBytes(registers[start - FIRST_ADDRESS..start - FIRST_ADDRESS + count])
  {
    hide Respond, Framed, DataPdu, WordBytes, FromBE16;
    var words := registers[start - FIRST_ADDRESS..start - FIRST_ADDRESS + count];
    GoodReadServed(unit, registers, request, start, count);
    FramedTail(request, words);
  }

  /** The request handler; the data response is appended register by register. */
  method HandleRequest(unit: byte, latest: Latest, request: seq<byte>) returns (response: seq<byte>)
    ensures response == Respond(unit, latest, request)
  {
    hide FromBE16, ToBE16, Framed, DataPdu, ExceptionPdu;
    if |request| < HEADER_BYTES + 6 || |request| > MAX_ADU || FromBE16(request[2], request[3]) != 0
       || FromBE16(request[4], request[5]) + HEADER_BYTES != |request|
    {
      return [];
    }
    var function_ := request[7];
    if request[6] != unit {
      return Framed(request, ExceptionPdu(function_, 0x0B));
    }
    if function_ != READ_INPUT_REGISTERS {
      return Framed(request, ExceptionPdu(function_, 1));
    }
    if |request| != HEADER_BYTES + 6 {
      return Framed(request, ExceptionPdu(function_, 3));
    }
    var start, count := FromBE16(request[8], request[9]), FromBE16(request[10], request[11]);
    if count == 0 || count > 125 {
      return Framed(request, ExceptionPdu(function_, 3));
    }
    if start < FIRST_ADDRESS || start + count - 1 > LAST_ADDRESS {
      return Framed(request, ExceptionPdu(function_, 2));
    }
    if latest.None? {
      return Framed(request, ExceptionPdu(function_, 4));
    }
    var offset := start - FIRST_ADDRESS;
    response := BuildData(request, latest.value[offset..offset + count]);
  }

  method BuildData(request: seq<byte>, words: seq<Word>) returns (response: seq<byte>)
    requires |request| >= 7 && 1 <= |words| <= 125
    ensures response == Framed(request, DataPdu(words))
  {
    response := [request[0], request[1], 0, 0] + ToBE16(3 + 2 * |words|);
    response := response + [request[6], READ_INPUT_REGISTERS, (2 * |words|) as byte];
    ghost var head := response;
    for index := 0 to |words|
      invariant response == head + WordBytes(words[..index])
    {
      assert words[..index + 1] == words[..index] + [words[index]];
      WordBytesSnoc(words[..index], words[index]);
      response := response + ToBE16(words[index]);
    }
    assert words[..|words|] == words;
  }

  predicate Exception(q: seq<byte>, r: seq<byte>, code: byte) {
    && |q| >= 8 && |r| == 9 && r[..6] == [q[0], q[1], 0, 0, 0, 3] && r[6] == q[6] && r[8] == code
    && r[7] as int == (if q[7] < 128 then q[7] as int + 128 else q[7] as int)
  }

  lemma ExceptionShape(q: seq<byte>, code: byte)
    requires |q| >= 8
    ensures Exception(q, Framed(q, ExceptionPdu(q[7], code)), code)
  {
    RtuServer.HighBitSet(q[7]);
  }

  /** The code of each refusal, by the bytes of a well-framed request. */
  lemma Refusals(unit: byte, latest: Latest, q: seq<byte>)
    requires WellFramed(q)
    ensures var r := Respond(unit, latest, q);
            && (q[6] != unit ==> Exception(q, r, 11))
            && (q[6] == unit && q[7] != 4 ==> Exception(q, r, 1))
            && (q[6] == unit && q[7] == 4 && |q| != 12 ==> Exception(q, r, 3))
            && (q[6] == unit && q[7] == 4 && |q| == 12 ==>
                  var start, count := 256 * q[8] as int + q[9] as int, 256 * q[10] as int + q[11] as int;
                  && (count == 0 || count > 125 ==> Exception(q, r, 3))
                  && (1 <= count <= 125 && (start < 10001 || start + count > 13616) ==> Exception(q, r, 2))
                  && (1 <= count <= 125 && 10001 <= start && start + count <= 13616 && latest.None? ==>
                        Exception(q, r, 4)))
  {
    hide Exception, ExceptionPdu, DataPdu, Framed;
    ExceptionShape(q, 11);
    ExceptionShape(q, 1);
    ExceptionShape(q, 2);
    ExceptionShape(q, 3);
    ExceptionShape(q, 4);
  }

  // ----- Framing -----

  datatype Cut = NeedMore | BadLength | Frame(size: nat)

  function NextCut(s: seq<byte>): (c: Cut)
    ensures c.Frame? ==> HEADER_BYTES + 2 <= c.size <= MAX_ADU && c.size <= |s|
    ensures c.NeedMore? ==> |s| < MAX_ADU
  {
    if |s| < HEADER_BYTES then NeedMore
    else
      var length := FromBE16(s[4], s[5]);
      if length < 2 || length > MAX_PDU then BadLength
      else if |s| < HEADER_BYTES + length then NeedMore
      else Frame(HEADER_BYTES + length)
  }

  /** The header test of the receive loop. */
  method ReadHeader(input: seq<byte>) returns (cut: Cut)
    requires |input| >= HEADER_BYTES
    ensures cut == NextCut(input)
  {
    var length := FromBE16(input[4], input[5]);
    if length < 2 || length > MAX_PDU {
      return BadLength;
    }
    var size := HEADER_BYTES + length;
    if |input| < size {
      return NeedMore;
    }
    return Frame(size);
  }

  /** The unique cutting of a stream by its length fields, up to an incomplete or malformed frame. */
  function Segments(s: seq<byte>): seq<seq<byte>> {
    var c := NextCut(s);
    if c.Frame? then [s[..c.size]] + Segments(s[c.size..]) else []
  }

  function Leftover(s: seq<byte>): seq<byte> {
    var c := NextCut(s);
    if c.Frame? then Leftover(s[c.size..]) else s
  }

  lemma SegmentsStep(s: seq<byte>)
    ensures var c := NextCut(s);
            if c.Frame? then Segments(s) == [s[..c.size]] + Segments(s[c.size..])
                && Leftover(s) == Leftover(s[c.size..])
            else Segments(s) == [] && Leftover(s) == s
  {
  }

  lemma ShortNeedsMore(s: seq<byte>)
    requires |s| < HEADER_BYTES
    ensures NextCut(s) == NeedMore
  {
  }

  lemma CutStable(s: seq<byte>, more: seq<byte>)
    requires NextCut(s) != NeedMore
    ensures NextCut(s + more) == NextCut(s)
  {
  }

  lemma {:induction false} SegmentsAppend(s: seq<byte>, more: seq<byte>)
    ensures Segments(s + more) == Segments(s) + Segments(Leftover(s) + more)
    ensures Leftover(s + more) == Leftover(Leftover(s) + more)
    decreases |s|
  {
    var c := NextCut(s);
    if c.Frame? {
      CutStable(s, more);
      assert (s + more)[..c.size] == s[..c.size];
      assert (s + more)[c.size..] == s[c.size..] + more;
      SegmentsAppend(s[c.size..], more);
    }
  }

  function Joined(pieces: seq<seq<byte>>): seq<byte> {
    if pieces == [] then [] else pieces[0] + Joined(pieces[1..])
  }

  /** A frame says how long it is: bytes 4 and 5, high byte first, count what follows them. */
  predicate SaysItsLength(g: seq<byte>) { |g| >= 8 && 256 * g[4] as int + g[5] as int + 6 == |g| <= 259 }

  /** The beginning of a frame, short of its end. */
  ghost predicate Unfinished(rest: seq<byte>) {
    exists g: seq<byte> :: SaysItsLength(g) && |rest| < |g| && rest == g[..|rest|]
  }

  lemma CutFrame(g: seq<byte>, more: seq<byte>)
    requires SaysItsLength(g)
    ensures NextCut(g + more) == Frame(|g|)
  {
  }

  lemma CutUnfinished(rest: seq<byte>)
    requires Unfinished(rest)
    ensures NextCut(rest) == NeedMore
  {
    var g :| SaysItsLength(g) && |rest| < |g| && rest == g[..|rest|];
    if |rest| >= HEADER_BYTES {
      assert rest[4] == g[4] && rest[5] == g[5];
    }
  }

  /** Frames sent one after the other are found again, with whatever has arrived of the next one. */
  lemma {:induction false} SegmentsFound(frames: seq<seq<byte>>, rest: seq<byte>)
    requires (forall i | 0 <= i < |frames| :: SaysItsLength(frames[i])) && (rest == [] || Unfinished(rest))
    ensures Segments(Joined(frames) + rest) == frames && Leftover(Joined(frames) + rest) == rest
  {
    hide NextCut, SaysItsLength, Unfinished;
    if frames == [] {
      assert Joined(frames) + rest == rest;
      if rest == [] {
        ShortNeedsMore(rest);
      } else {
        CutUnfinished(rest);
      }
      SegmentsStep(rest);
    } else {
      var g, tail := frames[0], Joined(frames[1..]) + rest;
      assert Joined(frames) + rest == g + tail;
      CutFrame(g, tail);
      SegmentsStep(g + tail);
      assert (g + tail)[..|g|] == g && (g + tail)[|g|..] == tail;
      SegmentsFound(frames[1..], rest);
    }
  }

  lemma CutSays(s: seq<byte>)
    ensures var c := NextCut(s);
            if c.Frame? then SaysItsLength(s[..c.size])
            else |s| < 6 || var n := 256 * s[4] as int + s[5] as int; n < 2 || n > 253 || |s| < 6 + n
  {
  }

  /** Segmentation loses and invents nothing, each segment says its own length, and it stops only where the
      rest is too short or names a length no frame can have. */
  lemma {:induction false} SegmentsRejoin(s: seq<byte>)
    ensures Joined(Segments(s)) + Leftover(s) == s
    ensures forall i | 0 <= i < |Segments(s)| :: SaysItsLength(Segments(s)[i])
    ensures var rest := Leftover(s);
            |rest| < 6 || var n := 256 * rest[4] as int + rest[5] as int; n < 2 || n > 253 || |rest| < 6 + n
    decreases |s|
  {
    hide NextCut, SaysItsLength;
    CutSays(s);
    SegmentsStep(s);
    var c := NextCut(s);
    if c.Frame? {
      hide Segments, Leftover;
      var g, tail := s[..c.size], s[c.size..];
      SegmentsRejoin(tail);
      assert Joined(Segments(s)) == g + Joined(Segments(tail));
      assert g + Joined(Segments(tail)) + Leftover(tail) == g + (Joined(Segments(tail)) + Leftover(tail));
    }
  }

  // ----- When a connection ends -----

  predicate AllFramed(segments: seq<seq<byte>>) { forall i | 0 <= i < |segments| :: WellFramed(segments[i]) }

  /** The segments up to and including the first that gets no answer. */
  function Taken(segments: seq<seq<byte>>): seq<seq<byte>> {
    if segments == [] then []
    else if WellFramed(segments[0]) then [segments[0]] + Taken(segments[1..])
    else [segments[0]]
  }

  /** The stream holds a request that gets no answer, or a length no frame can have. */
  predicate Fatal(s: seq<byte>) { !AllFramed(Segments(s)) || NextCut(Leftover(s)).BadLength? }

  /** By the bytes: a segment that is no request, or a rest that names an impossible length. */
  lemma FatalMeaning(s: seq<byte>)
    ensures Fatal(s) <==>
              || !AllFramed(Segments(s))
              || (|Leftover(s)| >= 6
                  && !(2 <= 256 * Leftover(s)[4] as int + Leftover(s)[5] as int <= 253))
  {
    hide Segments, Leftover, WellFramed;
  }

  /** Ordinary requests, one after the other and however far the next has come, are all taken, and the
      connection stays open. */
  lemma OrdinaryStream(requests: seq<seq<byte>>, rest: seq<byte>)
    requires AllFramed(requests) && (rest == [] || Unfinished(rest))
    ensures var s := Joined(requests) + rest; Taken(Segments(s)) == requests && !Fatal(s)
  {
    hide NextCut, Segments, Leftover, WellFramed, Unfinished, SaysItsLength;
    forall i | 0 <= i < |requests| ensures SaysItsLength(requests[i]) {
      FramedSaysLength(requests[i]);
    }
    SegmentsFound(requests, rest);
    TakenAll(requests);
    if rest == [] {
      ShortNeedsMore(rest);
    } else {
      CutUnfinished(rest);
    }
  }

  lemma FramedSaysLength(g: seq<byte>)
    requires WellFramed(g)
    ensures SaysItsLength(g)
  {
  }

  lemma {:induction false} TakenAll(segments: seq<seq<byte>>)
    requires AllFramed(segments)
    ensures Taken(segments) == segments
  {
    hide WellFramed;
    if segments != [] {
      TakenAll(segments[1..]);
    }
  }

  lemma {:induction false} TakenUpTo(good: seq<seq<byte>>, bad: seq<byte>, rest: seq<seq<byte>>)
    requires AllFramed(good) && !WellFramed(bad)
    ensures Taken(good + [bad] + rest) == good + [bad] && !AllFramed(good + [bad] + rest)
    decreases |good|
  {
    hide WellFramed;
    var all := good + [bad] + rest;
    assert all[|good|] == bad;
    if good != [] {
      assert all[0] == good[0] && all[1..] == good[1..] + [bad] + rest;
      TakenUpTo(good[1..], bad, rest);
    }
  }

  // ----- What a connection is answered -----

  /** What the handler is given besides the request. */
  datatype View = View(unit: byte, latest: Latest)

  function Repeated(v: View, n: int): (vs: seq<View>)
    ensures |vs| == (if n < 0 then 0 else n) && forall i | 0 <= i < |vs| :: vs[i] == v
  {
    seq(if n < 0 then 0 else n, _ => v)
  }

  /** The answers to requests, each under its own view, one after the other. */
  function Answers(requests: seq<seq<byte>>, views: seq<View>): seq<byte>
    requires |requests| == |views|
  {
    if requests == [] then []
    else
      var n := |requests| - 1;
      Answers(requests[..n], views[..n]) + Respond(views[n].unit, views[n].latest, requests[n])
  }

  lemma AnswersNext(requests: seq<seq<byte>>, request: seq<byte>, views: seq<View>)
    requires |requests| < |views|
    ensures var n := |requests|;
            Answers(requests + [request], views[..n + 1])
            == Answers(requests, views[..n]) + Respond(views[n].unit, views[n].latest, request)
  {
    hide Respond;
    var n := |requests|;
    var all, vs := requests + [request], views[..n + 1];
    assert all[..n] == requests && vs[..n] == views[..n] && |all| - 1 == n;
    assert all[n] == request && vs[n] == views[n];
    assert Answers(all, vs) == Answers(all[..n], vs[..n]) + Respond(vs[n].unit, vs[n].latest, all[n]);
  }

  /** What happens on one connection: a read of 1..512 bytes, or part of the output sent. */
  datatype Event = Received(chunk: seq<byte>, latest: Latest) | Sent(count: nat)

  class Client {
    var input: seq<byte>
    var output: seq<byte>
    var closed: bool
    var handled: seq<seq<byte>>
    var oversize: nat
    ghost var sent: seq<byte>
    ghost var overflow: bool

    /** `received` is what has arrived and `views` what each request in it is to be answered from. Unless an
        answer did not fit, the requests handled are those up to the first fatal one, the connection is
        closed exactly if there is something fatal, and everything handled has been answered in order. */
    ghost predicate Exact(received: seq<byte>, views: seq<View>)
      requires |views| == |Segments(received)|
      reads this
    {
      && handled <= Segments(received)
      && (!closed ==> !overflow && input == Leftover(received))
      && (!overflow ==>
            && handled == Taken(Segments(received)) && (closed <==> Fatal(received))
            && sent + output == Answers(handled, views[..|handled|]))
      && (overflow ==> Overflowed(views))
    }

    /** The last request handled is the first whose answer did not fit the output. */
    ghost predicate Overflowed(views: seq<View>)
      requires |handled| <= |views|
      reads this
    {
      && closed && handled != [] && AllFramed(handled)
      && var n := |handled| - 1;
         && sent + output == Answers(handled[..n], views[..n])
         && |output| + |Respond(views[n].unit, views[n].latest, handled[n])| > MAX_OUTPUT
    }

    ghost predicate Holds(received: seq<byte>, views: seq<View>)
      reads this
    {
      |output| <= MAX_OUTPUT && |views| == |Segments(received)| && (oversize == 0 ==> Exact(received, views))
    }

    constructor ()
      ensures Holds([], []) && !closed && oversize == 0
    {
      input, output, closed, handled, oversize := [], [], false, [], 0;
      sent, overflow := [], false;
    }

    /** Answering one request: no answer, or no room for it, closes the connection. */
    method Answer(unit: byte, latest: Latest, request: seq<byte>)
      requires |output| <= MAX_OUTPUT && !overflow
      modifies this`output, this`closed, this`overflow
      ensures |output| <= MAX_OUTPUT
      ensures var r := Respond(unit, latest, request);
              && overflow == (|old(output)| + |r| > MAX_OUTPUT)
              && (r == [] <==> !WellFramed(request))
              && if r == [] || overflow then closed && output == old(output)
                 else closed == old(closed) && output == old(output) + r
    {
      hide Respond, Matches;
      ResponseMatches(unit, latest, request);
      AnsweredIffFramed(unit, latest, request);
      var response := HandleRequest(unit, latest, request);
      if response == [] || |output| + |response| > MAX_OUTPUT {
        closed, overflow := true, |output| + |response| > MAX_OUTPUT;
        return;
      }
      output := output + response;
    }

    /** Part of the output goes out. */
    method Send(count: nat, ghost received: seq<byte>, ghost views: seq<View>)
      requires Holds(received, views) && !closed && oversize == 0 && count <= |output|
      modifies this`output, this`sent
      ensures Holds(received, views)
    {
      hide Segments, Leftover, Taken, Fatal, Answers;
      assert sent + output == (sent + output[..count]) + output[count..];
      sent := sent + output[..count];
      output := output[count..];
    }

    /** One read and the segmentation loop after it. */
    method Receive(chunk: seq<byte>, unit: byte, latest: Latest, ghost received: seq<byte>, ghost views: seq<View>)
      requires Holds(received, views) && !closed && oversize == 0
      modifies this
      ensures Holds(received + chunk, NextViews(received, chunk, views, View(unit, latest)))
      ensures oversize == old(oversize) + (if |old(input)| + |chunk| > MAX_INPUT then 1 else 0)
    {
      hide Respond, NextCut, Segments, Leftover, WellFramed, Taken, Answers;
      ghost var all, due := Segments(received + chunk), NextViews(received, chunk, views, View(unit, latest));
      StartsClean(received);
      NextViewsSize(received, chunk, views, View(unit, latest));
      SegmentsAppend(received, chunk);
      input := input + chunk;
      if |input| > MAX_INPUT {
        closed, oversize := true, oversize + 1;
        return;
      }
      assert due[..|handled|] == views == views[..|handled|];
      while !closed && |input| >= HEADER_BYTES
        invariant |output| <= MAX_OUTPUT && oversize == 0 && |due| == |all|
        invariant forall i | |views| <= i < |due| :: due[i] == View(unit, latest)
        invariant |handled| >= |views|
        invariant !closed ==> Under(received + chunk, due)
        invariant closed ==> Exact(received + chunk, due)
        decreases |input|, !closed
      {
        SegmentsStep(input);
        var cut := ReadHeader(input);
        if cut.BadLength? {
          EndsBadly(received + chunk, due);
          closed := true;
          return;
        }
        if cut.NeedMore? {
          break;
        }
        HandleNext(cut.size, unit, latest, received + chunk, due);
      }
      if !closed {
        if |input| < HEADER_BYTES {
          ShortNeedsMore(input);
        }
        SegmentsStep(input);
        EndsOpen(received + chunk, due);
      }
    }

    /** Inside the loop: everything handled was answered, the rest of the stream is still in the input. */
    ghost predicate Under(stream: seq<byte>, due: seq<View>)
      requires |due| == |Segments(stream)|
      reads this
    {
      && !overflow && AllFramed(handled) && handled + Segments(input) == Segments(stream)
      && Leftover(input) == Leftover(stream) && sent + output == Answers(handled, due[..|handled|])
    }

    /** Cutting off one request and answering it. */
    method HandleNext(size: nat, unit: byte, latest: Latest, ghost stream: seq<byte>, ghost due: seq<View>)
      requires |output| <= MAX_OUTPUT && !closed && |due| == |Segments(stream)| && Under(stream, due)
      requires NextCut(input) == Frame(size) && |handled| < |due| && due[|handled|] == View(unit, latest)
      modifies this`input, this`output, this`closed, this`handled, this`overflow
      ensures |output| <= MAX_OUTPUT && |input| < |old(input)| && |handled| == |old(handled)| + 1
      ensures !closed ==> Under(stream, due)
      ensures closed ==> Exact(stream, due)
    {
      hide Respond, NextCut, Segments, Leftover, WellFramed, Taken, Answers;
      SegmentsStep(input);
      var request := input[..size];
      ghost var before, rest := handled, Segments(input[size..]);
      assert before + ([request] + rest) == before + [request] + rest;
      AnswersNext(before, request, due);
      input := input[size..];
      handled := handled + [request];
      Answer(unit, latest, request);
      assert handled <= Segments(stream);
      if WellFramed(request) {
        FramedNext(before, request);
        assert !overflow ==> sent + output == (sent + old(output)) + Respond(unit, latest, request);
        assert handled[..|handled| - 1] == before;
      } else {
        TakenUpTo(before, request, rest);
      }
    }

    lemma EndsBadly(stream: seq<byte>, due: seq<View>)
      requires |due| == |Segments(stream)| && Under(stream, due) && NextCut(input) == BadLength
      ensures handled == Taken(Segments(stream)) == Segments(stream) && Fatal(stream)
    {
      hide NextCut, WellFramed, Taken, Answers;
      SegmentsStep(input);
      assert handled + [] == handled;
      TakenAll(handled);
    }

    lemma EndsOpen(stream: seq<byte>, due: seq<View>)
      requires |due| == |Segments(stream)| && Under(stream, due) && !closed && NextCut(input) == NeedMore
      ensures Exact(stream, due)
    {
      hide NextCut, WellFramed, Taken, Answers;
      SegmentsStep(input);
      assert handled + [] == handled;
      TakenAll(handled);
    }
  }

  lemma AnsweredIffFramed(unit: byte, latest: Latest, request: seq<byte>)
    ensures Respond(unit, latest, request) == [] <==> !WellFramed(request)
  {
    hide Serve, WellFramed;
  }

  lemma FramedNext(good: seq<seq<byte>>, request: seq<byte>)
    requires AllFramed(good) && WellFramed(request)
    ensures AllFramed(good + [request])
  {
    hide WellFramed;
  }

  /** A connection that is still open has taken every segment. */
  lemma StartsClean(received: seq<byte>)
    ensures !Fatal(received) ==> AllFramed(Segments(received)) && Taken(Segments(received)) == Segments(received)
  {
    hide Segments, WellFramed;
    if !Fatal(received) {
      TakenAll(Segments(received));
    }
  }

  /** Requests completed by a read are answered from the view at that read. */
  function NextViews(received: seq<byte>, chunk: seq<byte>, views: seq<View>, v: View): seq<View> {
    views + Repeated(v, |Segments(received + chunk)| - |Segments(received)|)
  }

  lemma NextViewsSize(received: seq<byte>, chunk: seq<byte>, views: seq<View>, v: View)
    requires |views| == |Segments(received)|
    ensures var due := NextViews(received, chunk, views, v);
            && |due| == |Segments(received + chunk)| && due[..|views|] == views
            && forall i | |views| <= i < |due| :: due[i] == v
  {
    hide Segments;
    SegmentsAppend(received, chunk);
  }

  function Arrived(events: seq<Event>): seq<byte> {
    if events == [] then []
    else Arrived(events[..|events| - 1]) +
         (match events[|events| - 1] case Received(chunk, _) => chunk case Sent(_) => [])
  }

  /** For each request of the stream, the view at the read that completed it. */
  function Views(unit: byte, events: seq<Event>): seq<View> {
    if events == [] then []
    else
      var front, last := events[..|events| - 1], events[|events| - 1];
      if last.Received? then NextViews(Arrived(front), last.chunk, Views(unit, front), View(unit, last.latest))
      else Views(unit, front)
  }

  /** However a connection's bytes are split and whatever is sent in between: unless an answer finds no
      room, the requests handled are those of the unique segmentation up to the first that gets no answer,
      the connection is closed exactly when there is one or a length no frame can have, and what was sent
      and what waits to be sent are the answers in order. If an answer finds no room, it is the answer to
      the last request handled, all before it having been answered. Input never outgrows its limit. */
  method RunConnection(unit: byte, events: seq<Event>)
    returns (handled: seq<seq<byte>>, closed: bool, served: nat, oversize: nat, waiting: seq<byte>,
             ghost sent: seq<byte>, ghost overflow: bool)
    requires forall e | e in events && e.Received? :: 1 <= |e.chunk| <= READ_BYTES
    ensures served <= |events| && (!closed ==> served == |events|)
    ensures oversize == 0 && |waiting| <= MAX_OUTPUT
    ensures var stream, views := Arrived(events[..served]), Views(unit, events[..served]);
            && |views| == |Segments(stream)| && handled <= Segments(stream)
            && (!overflow ==>
                  && handled == Taken(Segments(stream)) && (closed <==> Fatal(stream))
                  && sent + waiting == Answers(handled, views[..|handled|]))
            && (overflow ==>
                  && closed && handled != [] && AllFramed(handled)
                  && var n := |handled| - 1;
                     && sent + waiting == Answers(handled[..n], views[..n])
                     && |waiting| + |Respond(unit, views[n].latest, handled[n])| > MAX_OUTPUT)
    ensures !closed ==> handled == Segments(Arrived(events)) && !overflow
  {
    hide Respond, NextCut, Segments, Leftover, WellFramed, Taken, Answers, NextViews;
    var client := new Client();
    served := 0;
    assert events[..0] == [];
    while served < |events| && !client.closed
      invariant served <= |events| && fresh(client)
      invariant client.Holds(Arrived(events[..served]), Views(unit, events[..served])) && client.oversize == 0
    {
      ghost var stream, views := Arrived(events[..served]), Views(unit, events[..served]);
      EventStep(unit, events, served);
      match events[served] {
        case Received(chunk, latest) =>
          assert events[served] in events;
          OpenInputShort(stream);
          client.Receive(chunk, unit, latest, stream, views);
        case Sent(count) =>
          if count <= |client.output| {
            client.Send(count, stream, views);
          }
      }
      served := served + 1;
    }
    assert events[..|events|] == events;
    ViewsUnit(unit, events[..served]);
    StartsClean(Arrived(events[..served]));
    handled, closed, oversize, waiting := client.handled, client.closed, client.oversize, client.output;
    sent, overflow := client.sent, client.overflow;
  }

  lemma EventStep(unit: byte, events: seq<Event>, n: nat)
    requires n < |events|
    ensures var stream, views := Arrived(events[..n]), Views(unit, events[..n]);
            var e := events[n];
            if e.Received? then
              && Arrived(events[..n + 1]) == stream + e.chunk
              && Views(unit, events[..n + 1]) == NextViews(stream, e.chunk, views, View(unit, e.latest))
            else Arrived(events[..n + 1]) == stream && Views(unit, events[..n + 1]) == views
  {
    hide NextViews;
    assert events[..n + 1][..n] == events[..n];
    assert Arrived(events[..n]) + [] == Arrived(events[..n]);
  }

  lemma {:induction false} ViewsUnit(unit: byte, events: seq<Event>)
    ensures forall i | 0 <= i < |Views(unit, events)| :: Views(unit, events)[i].unit == unit
    decreases |events|
  {
    hide Segments;
    if events != [] {
      ViewsUnit(unit, events[..|events| - 1]);
    }
  }

  /** What is left of a stream without fatal errors is shorter than a frame. */
  lemma OpenInputShort(s: seq<byte>)
    ensures !Fatal(s) ==> |Leftover(s)| < MAX_ADU
  {
    LeftoverCut(s);
  }

  lemma {:induction false} LeftoverCut(s: seq<byte>)
    ensures !NextCut(Leftover(s)).Frame?
    decreases |s|
  {
    var c := NextCut(s);
    if c.Frame? {
      LeftoverCut(s[c.size..]);
    }
  }
}
