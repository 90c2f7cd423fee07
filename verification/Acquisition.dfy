/** The polling engine: serial reads, response validation and the retry loops.

    The serial line and the clock are oracles. `events` is what the line will deliver, in order and in
    arbitrary pieces; `late` answers each successive deadline check; `writeOk` each successive write.
    `exchanges` records every request written and every byte received after it. */
module Acquisition {
  import opened Bytes
  import opened Crc
  import opened Snapshot
  import opened Modbus

  const HEADER_BYTES: nat := 3
  const CRC_BYTES: nat := 2

  datatype ReadEvent = Data(bytes: seq<byte>) | Silence | Broken

  datatype Exchange = Exchange(request: seq<byte>, reply: seq<byte>)

  datatype Line = Line(
    events: seq<ReadEvent>,
    exchanges: seq<Exchange>,
    late: nat -> bool,
    checks: nat,
    writeOk: nat -> bool)

  /** What one poll is run with: the slave, the retry budget, the request plan and the frame test. */
  datatype Setup = Setup(slave: byte, maxRetries: nat, plan: seq<ReadRequest>, intact: seq<byte> -> bool)

  predicate PlanShape(plan: seq<ReadRequest>) {
    && |plan| == REQUEST_COUNT
    && forall i | 0 <= i < REQUEST_COUNT ::
         plan[i].startAddress == PlanStart(i) && plan[i].registerCount == PlanCount(i)
  }

  /** The setup every poll of the program uses. */
  function Pd1000(slave: byte, maxRetries: nat): (s: Setup)
    ensures PlanShape(s.plan) && s.slave == slave && s.maxRetries == maxRetries
  {
    Setup(slave, maxRetries, seq(REQUEST_COUNT, i requires 0 <= i => PlannedRequest(slave, i)),
          (f: seq<byte>) => |f| >= 2 && Crc16Ok(f))
  }

  // ----- Serial reads -----

  datatype ReadOutcome = ReadOutcome(ok: bool, bytes: seq<byte>, line: Line)

  /** One deadline check. */
  function Check(l: Line): Line { l.(checks := l.checks + 1) }

  function Note(xs: seq<Exchange>, bytes: seq<byte>): seq<Exchange> {
    if xs == [] then [] else
      var last := xs[|xs| - 1];
      xs[..|xs| - 1] + [last.(reply := last.reply + bytes)]
  }

  /** A read of at most `capacity` bytes; what does not fit stays in the line. */
  function ReadSome(l: Line, capacity: nat): (r: ReadOutcome)
    ensures |r.bytes| <= capacity && (!r.ok ==> r.bytes == [])
  {
    if l.events == [] then ReadOutcome(true, [], l)
    else match l.events[0]
      case Silence => ReadOutcome(true, [], l.(events := l.events[1..]))
      case Broken => ReadOutcome(false, [], l.(events := l.events[1..]))
      case Data(bs) =>
        if |bs| <= capacity then
          ReadOutcome(true, bs, l.(events := l.events[1..], exchanges := Note(l.exchanges, bs)))
        else
          ReadOutcome(true, bs[..capacity],
                      l.(events := [Data(bs[capacity..])] + l.events[1..],
                         exchanges := Note(l.exchanges, bs[..capacity])))
  }

  /** Reads until `size` bytes are in, checking the deadline before each read. */
  function ReadExact(l: Line, size: nat, got: seq<byte>): (r: ReadOutcome)
    requires |got| <= size
    ensures got <= r.bytes && |r.bytes| <= size && (r.ok <==> |r.bytes| == size)
    decreases size - |got|
  {
    if |got| == size then ReadOutcome(true, got, l)
    else if l.late(l.checks) then ReadOutcome(false, got, Check(l))
    else
      var r := ReadSome(Check(l), size - |got|);
      if !r.ok || r.bytes == [] then ReadOutcome(false, got, r.line)
      else ReadExact(r.line, size, got + r.bytes)
  }

  // ----- One response -----

  datatype ResponseResult = Complete | RetryableError | NoResponse | FatalError

  datatype ResponseOutcome = ResponseOutcome(result: ResponseResult, response: seq<byte>, line: Line)

  /** The response a request is allowed to take registers from. */
  predicate ValidResponse(s: Setup, request: ReadRequest, response: seq<byte>) {
    && |response| == 5 + 2 * request.registerCount
    && response[0] == s.slave
    && response[1] == READ_INPUT_REGISTERS
    && response[2] as int == 2 * request.registerCount
    && s.intact(response)
  }

  function ReadResponse(l: Line, s: Setup, request: ReadRequest): (o: ResponseOutcome)
    ensures o.result == Complete ==> ValidResponse(s, request, o.response)
  {
    var header := ReadExact(l, HEADER_BYTES, []);
    if !header.ok then
      ResponseOutcome(if header.bytes == [] then NoResponse else FatalError, [], header.line)
    else
      var h := header.bytes;
      if h[0] != s.slave then ResponseOutcome(FatalError, h, header.line)
      else if h[1] == 0x84 then
        var tail := ReadExact(header.line, CRC_BYTES, []);
        ResponseOutcome(if tail.ok then RetryableError else FatalError, h + tail.bytes, tail.line)
      else if h[1] != READ_INPUT_REGISTERS || h[2] as int != 2 * request.registerCount then
        ResponseOutcome(FatalError, h, header.line)
      else
        var tail := ReadExact(header.line, 2 * request.registerCount + CRC_BYTES, []);
        if !tail.ok then ResponseOutcome(FatalError, h + tail.bytes, tail.line)
        else ResponseOutcome(if s.intact(h + tail.bytes) then Complete else RetryableError, h + tail.bytes, tail.line)
  }

  // ----- One poll -----

  datatype FailureReason = Other | NoReply

  datatype PollResult = Published(registers: Registers) | Failed(reason: FailureReason)

  datatype PollOutcome = PollOutcome(result: PollResult, line: Line)

  function DataWords(response: seq<byte>): (w: seq<Word>)
    requires |response| >= 5 && |response| % 2 == 1
    ensures |w| == (|response| - 5) / 2
  {
    BytesToWords(response[3..|response| - 2])
  }

  function Splice(r: Registers, at: nat, words: seq<Word>): (r': Registers)
    requires at + |words| <= REGISTER_COUNT
    ensures r'[at..at + |words|] == words
    ensures r'[..at] == r[..at] && r'[at + |words|..] == r[at + |words|..]
  {
    r[..at] + words + r[at + |words|..]
  }

  function Send(l: Line, frame: seq<byte>): Line {
    l.(exchanges := l.exchanges + [Exchange(frame, [])])
  }

  /** A pause that ends early, and fails, when the cycle deadline is reached: two checks. */
  function Sleep(l: Line): (bool, Line) {
    if l.late(l.checks) then (false, Check(l))
    else (!l.late(l.checks + 1), Check(Check(l)))
  }

  datatype AttemptOutcome =
    | Stop(reason: FailureReason, line: Line)
    | Retry(line: Line)
    | Got(response: seq<byte>, line: Line)

  /** One attempt at a request: pause unless it is the first of the poll, check, write, read. */
  function Attempt(l: Line, s: Setup, request: ReadRequest, pause: bool): (o: AttemptOutcome)
    ensures o.Got? ==> ValidResponse(s, request, o.response)
  {
    var waited := if pause then Sleep(l) else (true, l);
    var ready := Check(waited.1);
    if !waited.0 then Stop(Other, waited.1)
    else if waited.1.late(waited.1.checks) then Stop(Other, ready)
    else if !ready.writeOk(|ready.exchanges|) then Stop(Other, ready)
    else
      var got := ReadResponse(Send(ready, request.wireFrame), s, request);
      match got.result
      case NoResponse => Stop(NoReply, got.line)
      case FatalError => Stop(Other, got.line)
      case RetryableError => Retry(got.line)
      case Complete => Got(got.response, got.line)
  }

  /** Offset of the first register not yet read before request `i`. */
  function PlanEnd(i: nat): (n: nat)
    requires i <= REQUEST_COUNT
    ensures n <= REGISTER_COUNT && (i < REQUEST_COUNT ==> n + PlanCount(i) <= REGISTER_COUNT)
  {
    PlanStart(i) - FIRST_ADDRESS
  }

  /** The registers with those of request `i` taken from its response. */
  function Gather(r: Registers, s: Setup, i: nat, response: seq<byte>): Registers
    requires i < REQUEST_COUNT && PlanShape(s.plan) && ValidResponse(s, s.plan[i], response)
  {
    Splice(r, PlanEnd(i), DataWords(response))
  }

  /** The rest of a poll from request `i`, attempt `attempt`, with the registers gathered so far. */
  function PollFrom(l: Line, s: Setup, i: nat, attempt: nat, r: Registers): (o: PollOutcome)
    requires i <= REQUEST_COUNT && attempt <= s.maxRetries + 1 && PlanShape(s.plan)
    decreases REQUEST_COUNT - i, s.maxRetries + 1 - attempt
  {
    if i == REQUEST_COUNT then
      PollOutcome(if l.late(l.checks) then Failed(Other) else Published(r), Check(l))
    else if attempt > s.maxRetries then PollOutcome(Failed(Other), l)
    else match Attempt(l, s, s.plan[i], attempt > 0 || i != 0)
      case Stop(reason, l') => PollOutcome(Failed(reason), l')
      case Retry(l') => PollFrom(l', s, i, attempt + 1, r)
      case Got(response, l') => PollFrom(l', s, i + 1, 0, Gather(r, s, i, response))
  }

  function Poll(l: Line, s: Setup): PollOutcome
    requires PlanShape(s.plan)
  {
    PollFrom(l, s, 0, 0, ZeroRegisters())
  }

  // ----- What a published snapshot is made of -----

  lemma NoteTwice(xs: seq<Exchange>, a: seq<byte>, b: seq<byte>)
    requires xs != []
    ensures Note(Note(xs, a), b) == Note(xs, a + b)
    ensures Note(xs, []) == xs
  {
    assert xs[|xs| - 1].reply + a + b == xs[|xs| - 1].reply + (a + b);
    assert xs[|xs| - 1].reply + [] == xs[|xs| - 1].reply;
  }

  lemma ReadSomeNotes(l: Line, capacity: nat)
    requires l.exchanges != []
    ensures var r := ReadSome(l, capacity); r.line.exchanges == Note(l.exchanges, r.bytes) && r.line.exchanges != []
  {
    NoteTwice(l.exchanges, [], []);
  }

  /** Reading appends exactly the bytes read to the exchange in progress. */
  lemma {:induction false} ReadExactNotes(l: Line, size: nat, got: seq<byte>)
    requires l.exchanges != [] && |got| <= size
    ensures var r := ReadExact(l, size, got);
            r.line.exchanges == Note(l.exchanges, r.bytes[|got|..])
    decreases size - |got|
  {
    hide Note, ReadSome;
    NoteTwice(l.exchanges, [], []);
    assert got[|got|..] == [];
    if |got| < size && !l.late(l.checks) {
      ReadSomeNotes(Check(l), size - |got|);
      var r := ReadSome(Check(l), size - |got|);
      if r.ok && r.bytes != [] {
        ReadExactNotes(r.line, size, got + r.bytes);
        var all := ReadExact(r.line, size, got + r.bytes).bytes;
        assert all[|got|..] == r.bytes + all[|got + r.bytes|..];
        NoteTwice(l.exchanges, r.bytes, all[|got + r.bytes|..]);
      }
    }
  }

  lemma ReadResponseNotes(l: Line, s: Setup, request: ReadRequest)
    requires l.exchanges != []
    ensures var o := ReadResponse(l, s, request);
            && |o.line.exchanges| == |l.exchanges|
            && o.line.exchanges[..|l.exchanges| - 1] == l.exchanges[..|l.exchanges| - 1]
            && (o.result == Complete ==> o.line.exchanges == Note(l.exchanges, o.response))
  {
    hide ReadExact, Note;
    var header := ReadExact(l, HEADER_BYTES, []);
    ReadFrom(l, HEADER_BYTES);
    if header.ok {
      ReadFrom(header.line, CRC_BYTES);
      var n := 2 * request.registerCount + CRC_BYTES;
      ReadFrom(header.line, n);
      NoteTwice(l.exchanges, header.bytes, ReadExact(header.line, n, []).bytes);
    }
  }

  /** Reading from the start of an exchange touches its reply only. */
  lemma ReadFrom(l: Line, size: nat)
    requires l.exchanges != []
    ensures var r := ReadExact(l, size, []);
            && r.line.exchanges == Note(l.exchanges, r.bytes) && |r.line.exchanges| == |l.exchanges|
            && r.line.exchanges[..|l.exchanges| - 1] == l.exchanges[..|l.exchanges| - 1]
  {
    hide ReadExact;
    ReadExactNotes(l, size, []);
    var bytes := ReadExact(l, size, []).bytes;
    assert bytes[0..] == bytes;
  }

  /** What one attempt may do to the record of exchanges. */
  lemma AttemptNotes(l: Line, s: Setup, request: ReadRequest, pause: bool)
    ensures var o := Attempt(l, s, request, pause);
            && l.exchanges <= o.line.exchanges
            && |o.line.exchanges| <= |l.exchanges| + 1
            && (o.Got? ==> o.line.exchanges == l.exchanges + [Exchange(request.wireFrame, o.response)])
  {
    hide ReadResponse;
    var waited := if pause then Sleep(l) else (true, l);
    var sent := Send(Check(waited.1), request.wireFrame);
    ReadResponseNotes(sent, s, request);
    var response := ReadResponse(sent, s, request).response;
    assert [] + response == response;
    assert sent.exchanges[..|sent.exchanges| - 1] == l.exchanges;
  }

  /** The registers of request `j` come from the reply to that very request in exchange `k`. */
  predicate SourcedAt(r: Registers, s: Setup, j: nat, xs: seq<Exchange>, k: nat)
    requires j < REQUEST_COUNT && PlanShape(s.plan)
  {
    && k < |xs|
    && xs[k].request == s.plan[j].wireFrame
    && ValidResponse(s, s.plan[j], xs[k].reply)
    && r[PlanEnd(j)..PlanEnd(j) + PlanCount(j)] == DataWords(xs[k].reply)
  }

  ghost predicate Sourced(r: Registers, s: Setup, j: nat, xs: seq<Exchange>, from: nat)
    requires j < REQUEST_COUNT && PlanShape(s.plan)
  {
    exists k: nat :: from <= k && SourcedAt(r, s, j, xs, k)
  }

  lemma SliceOfPrefix(r: seq<Word>, n: nat, a: nat, b: nat)
    requires a <= b <= n <= |r|
    ensures r[a..b] == r[..n][a..b]
  {
  }

  lemma SourcedKept(r: Registers, r': Registers, s: Setup, j: nat, i: nat, xs: seq<Exchange>, ys: seq<Exchange>,
      from: nat)
    requires j < i <= REQUEST_COUNT && PlanShape(s.plan) && xs <= ys && Sourced(r, s, j, xs, from)
    requires r'[..PlanEnd(i)] == r[..PlanEnd(i)]
    ensures Sourced(r', s, j, ys, from)
  {
    var k: nat :| from <= k && SourcedAt(r, s, j, xs, k);
    var a, b, n := PlanEnd(j), PlanEnd(j) + PlanCount(j), PlanEnd(i);
    assert b <= n;
    SliceOfPrefix(r', n, a, b);
    SliceOfPrefix(r, n, a, b);
    hide ValidResponse, DataWords;
    assert SourcedAt(r', s, j, ys, k);
  }

  /** Induction over the nested loops. */
  lemma {:induction false} PollFromSources(l: Line, s: Setup, i: nat, attempt: nat, r: Registers, from: nat)
    requires i <= REQUEST_COUNT && attempt <= s.maxRetries + 1 && PlanShape(s.plan) && from <= |l.exchanges|
    requires forall j | 0 <= j < i :: Sourced(r, s, j, l.exchanges, from)
    ensures var o := PollFrom(l, s, i, attempt, r);
            && l.exchanges <= o.line.exchanges
            && (o.result.Published? ==>
                  forall j | 0 <= j < REQUEST_COUNT :: Sourced(o.result.registers, s, j, o.line.exchanges, from))
    decreases REQUEST_COUNT - i, s.maxRetries + 1 - attempt
  {
    hide Attempt;
    if i < REQUEST_COUNT && attempt <= s.maxRetries {
      AttemptNotes(l, s, s.plan[i], attempt > 0 || i != 0);
      match Attempt(l, s, s.plan[i], attempt > 0 || i != 0)
      case Stop(_, _) =>
      case Retry(l') =>
        forall j | 0 <= j < i ensures Sourced(r, s, j, l'.exchanges, from) {
          SourcedKept(r, r, s, j, i, l.exchanges, l'.exchanges, from);
        }
        PollFromSources(l', s, i, attempt + 1, r, from);
      case Got(response, l') =>
        var r' := Splice(r, PlanEnd(i), DataWords(response));
        forall j | 0 <= j < i ensures Sourced(r', s, j, l'.exchanges, from) {
          SourcedKept(r, r', s, j, i, l.exchanges, l'.exchanges, from);
        }
        assert SourcedAt(r', s, i, l'.exchanges, |l.exchanges|);
        PollFromSources(l', s, i + 1, 0, r', from);
    }
  }

  /** `n` requests at `w` writes each. */
  function Budget(n: nat, w: nat): nat {
    if n == 0 then 0 else w + Budget(n - 1, w)
  }

  lemma {:induction false} BudgetIsProduct(n: nat, w: nat)
    ensures Budget(n, w) == n * w
  {
    if n > 0 {
      BudgetIsProduct(n - 1, w);
      assert n * w == (n - 1) * w + w;
    }
  }

  lemma {:induction false} PollFromWrites(l: Line, s: Setup, i: nat, attempt: nat, r: Registers)
    requires i < REQUEST_COUNT && attempt <= s.maxRetries + 1 && PlanShape(s.plan)
    ensures |PollFrom(l, s, i, attempt, r).line.exchanges|
            <= |l.exchanges| + Budget(REQUEST_COUNT - i, s.maxRetries + 1) - attempt
    decreases REQUEST_COUNT - i, s.maxRetries + 1 - attempt
  {
    hide Attempt;
    if attempt <= s.maxRetries {
      AttemptNotes(l, s, s.plan[i], attempt > 0 || i != 0);
      match Attempt(l, s, s.plan[i], attempt > 0 || i != 0)
      case Stop(_, _) =>
      case Retry(l') => PollFromWrites(l', s, i, attempt + 1, r);
      case Got(response, l') =>
        if i + 1 < REQUEST_COUNT {
          PollFromWrites(l', s, i + 1, 0, Gather(r, s, i, response));
        }
    }
  }

  /** Whatever the line and the clock do, a poll that publishes took every register from an intact
      reply to its own request, written during this poll; and the number of writes is bounded. */
  lemma PublishedIsSourced(l: Line, slave: byte, maxRetries: nat)
    ensures var s := Pd1000(slave, maxRetries);
            var o := Poll(l, s);
            && |o.line.exchanges| - |l.exchanges| <= 31 * (maxRetries + 1)
            && (o.result.Published? ==>
                  forall j | 0 <= j < REQUEST_COUNT ::
                    Sourced(o.result.registers, s, j, o.line.exchanges, |l.exchanges|))
  {
    var s := Pd1000(slave, maxRetries);
    PollFromSources(l, s, 0, 0, ZeroRegisters(), |l.exchanges|);
    PollFromWrites(l, s, 0, 0, ZeroRegisters());
    BudgetIsProduct(31, maxRetries + 1);
  }

  // ----- How a poll ends -----

  /** No deadline fires and every write goes out. */
  ghost predicate Undisturbed(l: Line) {
    (forall n: nat :: !l.late(n)) && (forall n: nat :: l.writeOk(n))
  }

  /** What the bytes that came back after a request amount to. */
  function ReplyVerdict(s: Setup, request: ReadRequest, reply: seq<byte>): ResponseResult {
    if reply == [] then NoResponse
    else if |reply| < 3 || reply[0] != s.slave then FatalError
    else if reply[1] == 0x84 then (if |reply| == 5 then RetryableError else FatalError)
    else if reply[1] != 4 || reply[2] as int != 2 * request.registerCount then FatalError
    else if |reply| < 5 + 2 * request.registerCount then FatalError
    else if s.intact(reply) then Complete
    else RetryableError
  }

  lemma NoteLast(xs: seq<Exchange>, bytes: seq<byte>)
    requires xs != []
    ensures Note(xs, bytes) != [] && |Note(xs, bytes)| == |xs|
    ensures var last := xs[|xs| - 1];
            && Note(xs, bytes)[|xs| - 1] == last.(reply := last.reply + bytes)
            && Note(xs, bytes)[..|xs| - 1] == xs[..|xs| - 1]
  {
  }

  /** The reader's result is decided by the bytes recorded for the exchange, whatever timing and pieces. */
  lemma ResponseJudged(l: Line, s: Setup, request: ReadRequest)
    requires l.exchanges != [] && l.exchanges[|l.exchanges| - 1].reply == []
    ensures var o, n := ReadResponse(l, s, request), |l.exchanges|;
            && |o.line.exchanges| == n && o.line.exchanges[..n - 1] == l.exchanges[..n - 1]
            && o.line.exchanges[n - 1].request == l.exchanges[n - 1].request
            && o.result == ReplyVerdict(s, request, o.line.exchanges[n - 1].reply)
            && (o.result == Complete ==> o.response == o.line.exchanges[n - 1].reply)
  {
    hide ReadExact, Note;
    var header := ReadExact(l, HEADER_BYTES, []);
    ReadFrom(l, HEADER_BYTES);
    NoteLast(l.exchanges, header.bytes);
    assert [] + header.bytes == header.bytes;
    if header.ok {
      var size := if header.bytes[1] == 0x84 then CRC_BYTES else 2 * request.registerCount + CRC_BYTES;
      ReadFrom(header.line, size);
      NoteLast(header.line.exchanges, ReadExact(header.line, size, []).bytes);
    }
  }

  /** An attempt either writes nothing, because of the clock or a failed write, or is decided by its reply. */
  lemma AttemptJudged(l: Line, s: Setup, request: ReadRequest, pause: bool)
    ensures var o := Attempt(l, s, request, pause);
            || (o.line.exchanges == l.exchanges && o == Stop(Other, o.line) && !Undisturbed(l))
            || (|o.line.exchanges| == |l.exchanges| + 1 && l.exchanges == o.line.exchanges[..|l.exchanges|]
                && var x := o.line.exchanges[|l.exchanges|];
                   && x.request == request.wireFrame
                   && match ReplyVerdict(s, request, x.reply)
                      case Complete => o == Got(x.reply, o.line)
                      case RetryableError => o == Retry(o.line)
                      case NoResponse => o == Stop(NoReply, o.line)
                      case FatalError => o == Stop(Other, o.line))
  {
    hide ReadResponse, ReplyVerdict;
    var waited := if pause then Sleep(l) else (true, l);
    var sent := Send(Check(waited.1), request.wireFrame);
    ResponseJudged(sent, s, request);
    assert sent.exchanges[..|l.exchanges|] == l.exchanges;
  }

  lemma AttemptUndisturbed(l: Line, s: Setup, request: ReadRequest, pause: bool)
    ensures var o := Attempt(l, s, request, pause); o.line.late == l.late && o.line.writeOk == l.writeOk
  {
    hide ReadExact;
    var waited := if pause then Sleep(l) else (true, l);
    var sent := Send(Check(waited.1), request.wireFrame);
    var header := ReadExact(sent, HEADER_BYTES, []);
    ReadKeepsOracles(sent, HEADER_BYTES, []);
    if header.ok {
      ReadKeepsOracles(header.line, CRC_BYTES, []);
      ReadKeepsOracles(header.line, 2 * request.registerCount + CRC_BYTES, []);
    }
  }

  lemma {:induction false} ReadKeepsOracles(l: Line, size: nat, got: seq<byte>)
    requires |got| <= size
    ensures var r := ReadExact(l, size, got); r.line.late == l.late && r.line.writeOk == l.writeOk
    decreases size - |got|
  {
    if |got| < size && !l.late(l.checks) {
      var r := ReadSome(Check(l), size - |got|);
      if r.ok && r.bytes != [] {
        ReadKeepsOracles(r.line, size, got + r.bytes);
      }
    }
  }

  /** How far a poll is: the request due and the attempts already made at it, or how it failed. */
  datatype Progress = At(request: nat, attempt: nat) | Over(reason: FailureReason)

  function AfterReply(s: Setup, p: Progress, reply: seq<byte>): Progress
    requires p.At? && p.request < |s.plan|
  {
    match ReplyVerdict(s, s.plan[p.request], reply)
    case Complete => At(p.request + 1, 0)
    case RetryableError => if p.attempt < s.maxRetries then At(p.request, p.attempt + 1) else Over(Other)
    case NoResponse => Over(NoReply)
    case FatalError => Over(Other)
  }

  /** The exchanges of a poll, in order: each writes the request that is due. */
  predicate Follows(s: Setup, xs: seq<Exchange>, p: Progress) {
    xs == [] ||
      (p.At? && p.request < |s.plan| && xs[0].request == s.plan[p.request].wireFrame
       && Follows(s, xs[1..], AfterReply(s, p, xs[0].reply)))
  }

  function Replay(s: Setup, xs: seq<Exchange>, p: Progress): Progress
    requires Follows(s, xs, p)
  {
    if xs == [] then p else Replay(s, xs[1..], AfterReply(s, p, xs[0].reply))
  }

  /** The exchanges a poll adds to the record. */
  function Added(l: Line, o: PollOutcome): seq<Exchange> {
    if |l.exchanges| <= |o.line.exchanges| then o.line.exchanges[|l.exchanges|..] else []
  }

  /** The result matches where the exchanges lead. */
  ghost predicate Ends(l: Line, s: Setup, o: PollOutcome, p: Progress) {
    var xs := Added(l, o);
    && l.exchanges <= o.line.exchanges && Follows(s, xs, p)
    && (o.result == Failed(NoReply) <==> xs != [] && xs[|xs| - 1].reply == [])
    && var q := Replay(s, xs, p);
       && (q.Over? ==> o.result == Failed(q.reason))
       && (q.At? && q.request < |s.plan| ==> o.result == Failed(Other) && !Undisturbed(l))
       && (q.At? && q.request == |s.plan| ==> o.result.Published? || (o.result == Failed(Other) && !Undisturbed(l)))
       && (q.At? ==> q.request <= |s.plan|)
  }

  lemma {:induction false} PollFromEnds(l: Line, s: Setup, i: nat, attempt: nat, r: Registers)
    requires i <= REQUEST_COUNT && attempt <= s.maxRetries && PlanShape(s.plan)
    ensures Ends(l, s, PollFrom(l, s, i, attempt, r), At(i, attempt))
    decreases REQUEST_COUNT - i, s.maxRetries + 1 - attempt
  {
    hide Attempt, ReplyVerdict;
    var o := PollFrom(l, s, i, attempt, r);
    if i < REQUEST_COUNT {
      var a := Attempt(l, s, s.plan[i], attempt > 0 || i != 0);
      AttemptJudged(l, s, s.plan[i], attempt > 0 || i != 0);
      AttemptUndisturbed(l, s, s.plan[i], attempt > 0 || i != 0);
      EmptyIsNoReply(s, s.plan[i]);
      match a
      case Stop(reason, l') =>
        if |l'.exchanges| > |l.exchanges| {
          EndsHere(l, s, o, At(i, attempt));
        } else {
          assert Added(l, o) == [];
        }
      case Retry(l') =>
        if attempt < s.maxRetries {
          PollFromEnds(l', s, i, attempt + 1, r);
          EndsEarlier(l, l', s, o, At(i, attempt), At(i, attempt + 1));
        } else {
          EndsHere(l, s, o, At(i, attempt));
        }
      case Got(response, l') =>
        PollFromEnds(l', s, i + 1, 0, Gather(r, s, i, response));
        EndsEarlier(l, l', s, o, At(i, attempt), At(i + 1, 0));
    }
  }

  lemma EmptyIsNoReply(s: Setup, request: ReadRequest)
    ensures forall reply: seq<byte> :: ReplyVerdict(s, request, reply) == NoResponse <==> reply == []
  {
  }

  /** The poll fails on its last exchange. */
  lemma EndsHere(l: Line, s: Setup, o: PollOutcome, p: Progress)
    requires |o.line.exchanges| == |l.exchanges| + 1 && l.exchanges == o.line.exchanges[..|l.exchanges|]
    requires p.At? && p.request < |s.plan|
    requires o.line.exchanges[|l.exchanges|].request == s.plan[p.request].wireFrame
    requires var q := AfterReply(s, p, o.line.exchanges[|l.exchanges|].reply); q.Over? && o.result == Failed(q.reason)
    ensures Ends(l, s, o, p)
  {
    hide ReplyVerdict;
    EmptyIsNoReply(s, s.plan[p.request]);
    var x, xs := o.line.exchanges[|l.exchanges|], Added(l, o);
    assert l.exchanges <= o.line.exchanges by { assert o.line.exchanges == l.exchanges + [x]; }
    assert xs == [x] && xs[1..] == [];
    assert Follows(s, xs, p);
    assert Replay(s, xs, p) == AfterReply(s, p, x.reply);
  }

  /** One more exchange in front. */
  lemma EndsEarlier(l: Line, l': Line, s: Setup, o: PollOutcome, p: Progress, p': Progress)
    requires |l'.exchanges| == |l.exchanges| + 1 && l.exchanges == l'.exchanges[..|l.exchanges|]
    requires p.At? && p.request < |s.plan| && l'.exchanges[|l.exchanges|].request == s.plan[p.request].wireFrame
    requires AfterReply(s, p, l'.exchanges[|l.exchanges|].reply) == p' && p'.At?
    requires l'.late == l.late && l'.writeOk == l.writeOk && Ends(l', s, o, p')
    ensures Ends(l, s, o, p)
  {
    hide ReplyVerdict, AfterReply;
    var xs, ys := Added(l, o), Added(l', o);
    assert xs == [l'.exchanges[|l.exchanges|]] + ys && xs[1..] == ys;
    if ys == [] {
      hide AfterReply;
      LastReply(s, p, xs[0].reply);
    } else {
      assert xs[|xs| - 1] == ys[|ys| - 1];
    }
  }

  lemma LastReply(s: Setup, p: Progress, reply: seq<byte>)
    requires p.At? && p.request < |s.plan| && AfterReply(s, p, reply).At?
    ensures reply != []
  {
  }

  /** How every poll ends is decided by what came back: each exchange writes the request then due; a damaged
      reply or an exception is tried again up to `max_retries` times, a silent one ends the poll as not
      answered, anything else foreign ends it; and unless the clock or a write interferes, it publishes
      exactly when every request got its intact reply. */
  lemma PollEnds(l: Line, slave: byte, maxRetries: nat)
    ensures var s := Pd1000(slave, maxRetries); Ends(l, s, Poll(l, s), At(0, 0))
    ensures var s := Pd1000(slave, maxRetries);
            Undisturbed(l) ==>
              (Poll(l, s).result.Published? <==> Replay(s, Added(l, Poll(l, s)), At(0, 0)).At?)
  {
    hide PollFrom;
    PollFromEnds(l, Pd1000(slave, maxRetries), 0, 0, ZeroRegisters());
  }

  /** A poll counts as not answered exactly when its last request got no byte back. */
  lemma UnansweredIffSilent(l: Line, slave: byte, maxRetries: nat)
    ensures var o := Poll(l, Pd1000(slave, maxRetries));
            o.result == Failed(NoReply) <==>
              |o.line.exchanges| > |l.exchanges| && o.line.exchanges[|o.line.exchanges| - 1].reply == []
  {
    hide Poll, Pd1000, Follows, Replay;
    PollEnds(l, slave, maxRetries);
  }

  /** An unplugged sensor: nothing ever arrives. */
  lemma SilenceIsUnanswered(l: Line, slave: byte, maxRetries: nat)
    requires Undisturbed(l) && l.events == []
    ensures Poll(l, Pd1000(slave, maxRetries)).result == Failed(NoReply)
  {
    var s := Pd1000(slave, maxRetries);
    var sent := Send(Check(l), s.plan[0].wireFrame);
    assert ReadSome(Check(sent), HEADER_BYTES) == ReadOutcome(true, [], Check(sent));
    assert ReadExact(sent, HEADER_BYTES, []) == ReadOutcome(false, [], Check(sent));
    assert Attempt(l, s, s.plan[0], false) == Stop(NoReply, Check(sent));
  }
}
