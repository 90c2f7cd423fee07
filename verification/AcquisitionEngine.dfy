/** The engine's loops in place, each poll recorded in the snapshot store, and end-to-end acquisition
    against the serial server. */
module AcquisitionEngine {
  import opened Wrappers
  import opened Bytes
  import opened Crc
  import opened Snapshot
  import opened Modbus
  import opened Acquisition
  import RtuServer
  import SnapshotStore

  class Engine {
    var line: Line

    constructor (l: Line)
      ensures line == l
    {
      line := l;
    }

    method ReadAll(size: nat) returns (ok: bool, bytes: seq<byte>)
      modifies this
      ensures ReadOutcome(ok, bytes, line) == ReadExact(old(line), size, [])
    {
      bytes := [];
      while |bytes| < size
        invariant |bytes| <= size
        invariant ReadExact(line, size, bytes) == ReadExact(old(line), size, [])
        decreases size - |bytes|
      {
        var late := line.late(line.checks);
        line := Check(line);
        if late {
          return false, bytes;
        }
        var r := ReadSome(line, size - |bytes|);
        line := r.line;
        if !r.ok || r.bytes == [] {
          return false, bytes;
        }
        bytes := bytes + r.bytes;
      }
      ok := true;
    }

    method AwaitResponse(s: Setup, request: ReadRequest) returns (result: ResponseResult, response: seq<byte>)
      modifies this
      ensures ResponseOutcome(result, response, line) == ReadResponse(old(line), s, request)
    {
      hide ReadExact;
      var ok, header := ReadAll(HEADER_BYTES);
      if !ok {
        return if header == [] then NoResponse else FatalError, [];
      }
      if header[0] != s.slave {
        return FatalError, header;
      }
      var tail;
      if header[1] == 0x84 {
        ok, tail := ReadAll(CRC_BYTES);
        return if ok then RetryableError else FatalError, header + tail;
      }
      if header[1] != READ_INPUT_REGISTERS || header[2] as int != 2 * request.registerCount {
        return FatalError, header;
      }
      ok, tail := ReadAll(2 * request.registerCount + CRC_BYTES);
      if !ok {
        return FatalError, header + tail;
      }
      return if s.intact(header + tail) then Complete else RetryableError, header + tail;
    }

    method Pause() returns (ok: bool)
      modifies this
      ensures (ok, line) == Sleep(old(line))
    {
      var late := line.late(line.checks);
      line := Check(line);
      if late {
        return false;
      }
      ok := !line.late(line.checks);
      line := Check(line);
    }

    method Exchange(s: Setup, request: ReadRequest, pause: bool) returns (o: AttemptOutcome)
      modifies this
      ensures o == Attempt(old(line), s, request, pause) && line == o.line
    {
      if pause {
        var ok := Pause();
        if !ok {
          return Stop(Other, line);
        }
      }
      var late := line.late(line.checks);
      line := Check(line);
      if late || !line.writeOk(|line.exchanges|) {
        return Stop(Other, line);
      }
      line := Send(line, request.wireFrame);
      var result, response := AwaitResponse(s, request);
      match result
      case NoResponse => o := Stop(NoReply, line);
      case FatalError => o := Stop(Other, line);
      case RetryableError => o := Retry(line);
      case Complete => o := Got(response, line);
    }

    /** The two nested loops around the exchanges, filling the register array in place. */
    method PollOnce(s: Setup) returns (result: PollResult)
      requires PlanShape(s.plan)
      modifies this
      ensures PollOutcome(result, line) == Poll(old(line), s)
    {
      hide Attempt, PollFrom, Splice;
      var raw := new Word[REGISTER_COUNT](_ => 0);
      assert raw[..] == ZeroRegisters();
      for i := 0 to REQUEST_COUNT
        invariant PollFrom(line, s, i, 0, raw[..]) == Poll(old(line), s)
      {
        var attempt, complete := 0, false;
        while attempt <= s.maxRetries && !complete
          invariant attempt <= s.maxRetries + 1
          invariant Poll(old(line), s)
                    == PollFrom(line, s, if complete then i + 1 else i, if complete then 0 else attempt, raw[..])
          decreases s.maxRetries + 1 - attempt, !complete
        {
          PollStep(line, s, i, attempt, raw[..]);
          var o := Exchange(s, s.plan[i], attempt > 0 || i != 0);
          match o
          case Stop(reason, _) => return Failed(reason);
          case Retry(_) => attempt := attempt + 1;
          case Got(response, _) =>
            StoreWords(raw, PlanEnd(i), DataWords(response));
            complete := true;
        }
        if !complete {
          PollExhausted(line, s, i, attempt, raw[..]);
          return Failed(Other);
        }
      }
      PollComplete(line, s, raw[..]);
      var late := line.late(line.checks);
      line := Check(line);
      result := if late then Failed(Other) else Published(raw[..]);
    }
  }

  lemma PollStep(l: Line, s: Setup, i: nat, attempt: nat, r: Registers)
    requires i < REQUEST_COUNT && attempt <= s.maxRetries && PlanShape(s.plan)
    ensures PollFrom(l, s, i, attempt, r) ==
            match Attempt(l, s, s.plan[i], attempt > 0 || i != 0)
            case Stop(reason, l') => PollOutcome(Failed(reason), l')
            case Retry(l') => PollFrom(l', s, i, attempt + 1, r)
            case Got(response, l') => PollFrom(l', s, i + 1, 0, Gather(r, s, i, response))
  {
    hide Attempt;
  }

  lemma PollExhausted(l: Line, s: Setup, i: nat, attempt: nat, r: Registers)
    requires i < REQUEST_COUNT && attempt == s.maxRetries + 1 && PlanShape(s.plan)
    ensures PollFrom(l, s, i, attempt, r) == PollOutcome(Failed(Other), l)
  {
  }

  lemma PollComplete(l: Line, s: Setup, r: Registers)
    requires PlanShape(s.plan)
    ensures PollFrom(l, s, REQUEST_COUNT, 0, r)
            == PollOutcome(if l.late(l.checks) then Failed(Other) else Published(r), Check(l))
  {
  }

  /** A poll as readers of the store see it: it publishes once, or is noted as failed. */
  method PollInto(engine: Engine, store: SnapshotStore.Store, s: Setup) returns (ok: bool)
    requires PlanShape(s.plan)
    modifies engine, store
    ensures var o := Poll(old(engine.line), s);
            && engine.line == o.line && ok == o.result.Published?
            && store.Model() == SnapshotStore.Absorb(old(store.Model()), o.result)
  {
    hide Poll;
    var result := engine.PollOnce(s);
    ok := result.Published?;
    match result
    case Published(registers) =>
      var payload := ParseRegisters(registers);
      store.PublishPayload(payload);
    case Failed(reason) => store.NoteFailure(reason);
  }

  method StoreWords(raw: array<Word>, at: nat, words: seq<Word>)
    requires raw.Length == REGISTER_COUNT && at + |words| <= REGISTER_COUNT
    modifies raw
    ensures raw[..] == Splice(old(raw[..]), at, words)
  {
    for k := 0 to |words|
      invariant raw[at..at + k] == words[..k]
      invariant raw[..at] == old(raw[..at]) && raw[at + k..] == old(raw[at + k..])
    {
      raw[at + k] := words[k];
    }
    assert raw[..] == raw[..at] + raw[at..at + |words|] + raw[at + |words|..];
  }

  // ----- End to end -----

  function Flatten(pieces: seq<seq<byte>>): seq<byte> {
    if pieces == [] then [] else pieces[0] + Flatten(pieces[1..])
  }

  predicate NonEmpty(pieces: seq<seq<byte>>) {
    forall i | 0 <= i < |pieces| :: pieces[i] != []
  }

  function Arrivals(pieces: seq<seq<byte>>): (es: seq<ReadEvent>)
    ensures |es| == |pieces|
  {
    seq(|pieces|, i requires 0 <= i < |pieces| => Data(pieces[i]))
  }

  ghost predicate Delivers(l: Line, pieces: seq<seq<byte>>, rest: seq<ReadEvent>) {
    Undisturbed(l) && NonEmpty(pieces) && l.events == Arrivals(pieces) + rest
  }

  lemma DeliversTail(l: Line, pieces: seq<seq<byte>>, rest: seq<ReadEvent>, capacity: nat)
    returns (left: seq<seq<byte>>)
    requires Delivers(l, pieces, rest) && pieces != [] && capacity > 0
    ensures var r := ReadSome(Check(l), capacity);
            && !l.late(l.checks) && r.ok && r.bytes != [] && Delivers(r.line, left, rest)
            && Flatten(pieces) == r.bytes + Flatten(left)
  {
    var p, more := pieces[0], pieces[1..];
    assert l.events[1..] == Arrivals(more) + rest;
    if |p| <= capacity {
      left := more;
    } else {
      left := [p[capacity..]] + more;
      assert Arrivals(left) == [Data(p[capacity..])] + Arrivals(more);
      assert left[1..] == more;
      assert p == p[..capacity] + p[capacity..];
    }
  }

  /** However the bytes arrive, a full read returns exactly the next `size` of them. */
  lemma {:induction false} ReadExactDelivers(
    l: Line, size: nat, got: seq<byte>, pieces: seq<seq<byte>>, rest: seq<ReadEvent>)
    returns (left: seq<seq<byte>>)
    requires Delivers(l, pieces, rest) && |got| <= size <= |got| + |Flatten(pieces)|
    ensures var r := ReadExact(l, size, got);
            && r.ok && Delivers(r.line, left, rest)
            && got + Flatten(pieces) == r.bytes + Flatten(left)
    decreases size - |got|
  {
    hide Delivers, ReadSome;
    if |got| == size {
      left := pieces;
    } else {
      var r := ReadSome(Check(l), size - |got|);
      var after := DeliversTail(l, pieces, rest, size - |got|);
      left := ReadExactDelivers(r.line, size, got + r.bytes, after, rest);
      assert got + Flatten(pieces) == (got + r.bytes) + Flatten(after);
    }
  }

  lemma FlattenNonEmpty(pieces: seq<seq<byte>>)
    requires NonEmpty(pieces) && pieces != []
    ensures Flatten(pieces) != []
  {
    assert pieces[0] != [];
  }

  /** A valid response that arrives whole, in any pieces, completes the exchange and leaves nothing. */
  lemma ResponseDelivered(
    l: Line, s: Setup, request: ReadRequest, response: seq<byte>, pieces: seq<seq<byte>>, rest: seq<ReadEvent>)
    requires Delivers(l, pieces, rest) && Flatten(pieces) == response && ValidResponse(s, request, response)
    ensures var o := ReadResponse(l, s, request);
            && o.result == Complete && o.response == response
            && o.line.events == rest && Undisturbed(o.line)
  {
    hide ReadExact;
    var header := ReadExact(l, HEADER_BYTES, []);
    var left := ReadExactDelivers(l, HEADER_BYTES, [], pieces, rest);
    assert [] + Flatten(pieces) == response;
    assert header.bytes == response[..HEADER_BYTES];
    var n := 2 * request.registerCount + CRC_BYTES;
    assert Flatten(left) == response[HEADER_BYTES..];
    var tail := ReadExact(header.line, n, []);
    var none := ReadExactDelivers(header.line, n, [], left, rest);
    assert [] + Flatten(left) == Flatten(left);
    assert |Flatten(none)| == 0;
    if none != [] {
      FlattenNonEmpty(none);
    }
    assert header.bytes + tail.bytes == response;
    assert Arrivals(none) + rest == rest;
  }

  lemma AttemptDelivered(
    l: Line, s: Setup, request: ReadRequest, pause: bool, pieces: seq<seq<byte>>, rest: seq<ReadEvent>)
    requires Delivers(l, pieces, rest) && ValidResponse(s, request, Flatten(pieces))
    ensures var o := Attempt(l, s, request, pause);
            o.Got? && o.response == Flatten(pieces) && o.line.events == rest && Undisturbed(o.line)
  {
    hide ReadResponse, ValidResponse;
    var waited := if pause then Sleep(l).1 else l;
    ResponseDelivered(Send(Check(waited), request.wireFrame), s, request, Flatten(pieces), pieces, rest);
  }

  /** The remaining deliveries, request by request. */
  function AllArrivals(replies: seq<seq<seq<byte>>>): seq<ReadEvent> {
    if replies == [] then [] else Arrivals(replies[0]) + AllArrivals(replies[1..])
  }

  ghost predicate Answers(s: Setup, registers: Registers, i: nat, pieces: seq<seq<byte>>)
    requires i < REQUEST_COUNT && PlanShape(s.plan)
  {
    && NonEmpty(pieces)
    && ValidResponse(s, s.plan[i], Flatten(pieces))
    && DataWords(Flatten(pieces)) == registers[PlanEnd(i)..PlanEnd(i) + PlanCount(i)]
  }

  lemma SpliceExtends(r: Registers, registers: Registers, i: nat, words: seq<Word>)
    requires i < REQUEST_COUNT && r[..PlanEnd(i)] == registers[..PlanEnd(i)]
    requires words == registers[PlanEnd(i)..PlanEnd(i) + PlanCount(i)]
    ensures Splice(r, PlanEnd(i), words)[..PlanEnd(i + 1)] == registers[..PlanEnd(i + 1)]
  {
    var a, b := PlanEnd(i), PlanEnd(i + 1);
    var r' := Splice(r, a, words);
    assert registers[..b] == registers[..a] + registers[a..b];
    assert r'[..b] == r'[..a] + r'[a..b];
  }

  lemma {:induction false} PollDelivered(
    l: Line, s: Setup, i: nat, r: Registers, registers: Registers, replies: seq<seq<seq<byte>>>)
    requires i <= REQUEST_COUNT && PlanShape(s.plan) && Undisturbed(l)
    requires |replies| == REQUEST_COUNT - i && l.events == AllArrivals(replies)
    requires forall k | 0 <= k < |replies| :: Answers(s, registers, i + k, replies[k])
    requires r[..PlanEnd(i)] == registers[..PlanEnd(i)]
    ensures PollFrom(l, s, i, 0, r).result == Published(registers)
    decreases REQUEST_COUNT - i
  {
    hide Attempt, Splice;
    if i == REQUEST_COUNT {
      assert r[..PlanEnd(i)] == r && registers[..PlanEnd(i)] == registers;
    } else {
      assert Answers(s, registers, i + 0, replies[0]);
      var response := Flatten(replies[0]);
      AttemptDelivered(l, s, s.plan[i], 0 > 0 || i != 0, replies[0], AllArrivals(replies[1..]));
      var o := Attempt(l, s, s.plan[i], 0 > 0 || i != 0);
      var r' := Splice(r, PlanEnd(i), DataWords(response));
      SpliceExtends(r, registers, i, DataWords(response));
      forall k | 0 <= k < |replies| - 1 ensures Answers(s, registers, (i + 1) + k, replies[1..][k]) {
        assert Answers(s, registers, i + (k + 1), replies[k + 1]);
      }
      PollDelivered(o.line, s, i + 1, r', registers, replies[1..]);
    }
  }

  lemma DataResponseAnswers(slave: byte, maxRetries: nat, registers: Registers, i: nat, pieces: seq<seq<byte>>)
    requires i < REQUEST_COUNT && NonEmpty(pieces)
    requires Flatten(pieces) == RtuServer.DataResponse(slave, registers[PlanEnd(i)..PlanEnd(i) + PlanCount(i)])
    ensures Answers(Pd1000(slave, maxRetries), registers, i, pieces)
  {
    hide Crc16, Low16, High16, Crc16Ok;
    var words := registers[PlanEnd(i)..PlanEnd(i) + PlanCount(i)];
    var body := [slave, READ_INPUT_REGISTERS, (2 * |words|) as byte] + WordBytes(words);
    var response := Flatten(pieces);
    WithCrc16Ok(body);
    assert response[3..|response| - 2] == WordBytes(words);
    WordsRoundTrip(words);
  }

  lemma AnswerOf(slave: byte, maxRetries: nat, registers: Registers, i: nat, pieces: seq<seq<byte>>)
    requires 1 <= slave <= 247 && i < REQUEST_COUNT && NonEmpty(pieces)
    requires Flatten(pieces) == RtuServer.Respond(RtuServer.Options(slave, RtuServer.DEFAULT_MAX_FRAME),
                                                  Some(registers), PlannedRequest(slave, i).wireFrame)
    ensures Answers(Pd1000(slave, maxRetries), registers, i, pieces)
  {
    hide RtuServer.Respond, PlannedRequest, Answers, RtuServer.DataResponse;
    RtuServer.AnswersPlan(RtuServer.Options(slave, RtuServer.DEFAULT_MAX_FRAME), registers, i);
    DataResponseAnswers(slave, maxRetries, registers, i, pieces);
  }

  /** Acquisition is the identity: polling a serial server that serves `registers`, over a line that
      loses nothing but splits replies anywhere, publishes exactly `registers`. */
  lemma AcquisitionIsIdentity(l: Line, slave: byte, maxRetries: nat, registers: Registers, replies: seq<seq<seq<byte>>>)
    requires 1 <= slave <= 247 && Undisturbed(l)
    requires |replies| == REQUEST_COUNT && l.events == AllArrivals(replies)
    requires forall i | 0 <= i < REQUEST_COUNT ::
               NonEmpty(replies[i]) &&
               Flatten(replies[i]) == RtuServer.Respond(RtuServer.Options(slave, RtuServer.DEFAULT_MAX_FRAME),
                                                        Some(registers), PlannedRequest(slave, i).wireFrame)
    ensures Poll(l, Pd1000(slave, maxRetries)).result == Published(registers)
  {
    var s := Pd1000(slave, maxRetries);
    forall i | 0 <= i < REQUEST_COUNT ensures Answers(s, registers, 0 + i, replies[i]) {
      AnswerOf(slave, maxRetries, registers, i, replies[i]);
    }
    PollDelivered(l, s, 0, ZeroRegisters(), registers, replies);
  }

  /** A reply damaged in exactly one byte never supplies registers. */
  lemma DamagedReplyRejected(slave: byte, maxRetries: nat, request: ReadRequest, reply: seq<byte>, k: nat, v: byte)
    requires ValidResponse(Pd1000(slave, maxRetries), request, reply) && k < |reply| && v != reply[k]
    ensures !ValidResponse(Pd1000(slave, maxRetries), request, reply[k := v])
  {
    Crc16DetectsOneByte(reply, k, v);
  }
}
