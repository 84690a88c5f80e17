/** The admin-socket client of the ceph plugin: one connection's state machine with partial reads and
    writes and a length-prefixed reply, and the loop that drives all connections. */
module CephConn {
  import opened Common

  type bytes = seq<byte>

  datatype State = Unconnected | WriteRequest | ReadVersion | ReadAmt | ReadJson

  datatype Request = ReqVersion | ReqData | ReqSchema | ReqNone

  const UINT32: nat := 0x1_0000_0000
  const EDOM := 33
  const ENOTSUP := 95
  const ENOMEM := 12

  function Code(r: Request): nat
  {
    match r
    case ReqVersion => 0
    case ReqData => 1
    case ReqSchema => 2
    case ReqNone => 1000
  }

  /** The request line written to the daemon. */
  function Command(r: Request): string
  {
    "{ \"prefix\": \"" + Decimal(Code(r)) + "\" }\n"
  }

  /** `ntohl` of four received bytes. */
  function BigEndian(b: bytes): (n: nat)
    requires |b| == 4
    ensures n < UINT32
  {
    (b[0] as int) * 0x100_0000 + (b[1] as int) * 0x1_0000 + (b[2] as int) * 0x100 + b[3] as int
  }

  /** A length as the daemon writes it: most significant byte first. */
  function Spelled(n: nat): (r: bytes)
    requires n < UINT32
    ensures |r| == 4
  {
    [n / 0x100_0000, n / 0x1_0000 % 256, n / 0x100 % 256, n % 256]
  }

  /** Reading undoes writing. */
  lemma {:induction false} SpelledReads(n: nat)
    requires n < UINT32
    ensures BigEndian(Spelled(n)) == n
  {
    var a, b, c := n / 0x100, n / 0x1_0000, n / 0x100_0000;
    assert n == 0x100 * a + n % 0x100;
    assert a == 0x100 * (a / 0x100) + a % 0x100 && a / 0x100 == b;
    assert b == 0x100 * (b / 0x100) + b % 0x100 && b / 0x100 == c;
  }

  /** The three request lines. */
  lemma {:induction false} RequestLines()
    ensures Command(ReqVersion) == "{ \"prefix\": \"0\" }\n"
    ensures Command(ReqData) == "{ \"prefix\": \"1\" }\n"
    ensures Command(ReqSchema) == "{ \"prefix\": \"2\" }\n"
  {
    assert Decimal(0) == "0" && Decimal(1) == "1" && Decimal(2) == "2";
  }

  /** `struct cconn`. The last three fields are history: what was written and read on the current
      connection, and every text handed to the JSON parser together with its request. */
  datatype Conn = Conn(
    request: Request, state: State, asok: int, amt: nat, raw: bytes, jsonLen: nat, json: Option<bytes>,
    sent: string, received: bytes, parsed: seq<(Request, bytes)>)

  /** What one `read` or `write` gave. */
  datatype IO = Failed(errno: nat) | Wrote(n: nat) | Got(data: bytes)

  datatype Reply = Reply(c: Conn, ret: int) | Overrun

  function Fresh(r: Request): Conn
  {
    Conn(r, Unconnected, -1, 0, [0, 0, 0, 0], 0, None, "", [], [])
  }

  function Connect(c: Conn, fd: nat): Conn
  {
    c.(asok := fd, state := WriteRequest, amt := 0, jsonLen := 0, json := None, sent := "", received := [])
  }

  function Close(c: Conn): Conn
  {
    c.(state := Unconnected, asok := -1, amt := 0, jsonLen := 0, json := None)
  }

  /** Put received bytes at their place in a buffer. */
  function Place(buffer: bytes, at: nat, data: bytes): (r: bytes)
    requires at + |data| <= |buffer|
    ensures |r| == |buffer| && r[..at] == buffer[..at] && r[at..at + |data|] == data
  {
    buffer[..at] + data + buffer[at + |data|..]
  }

  /** How many bytes the connection still wants in its state. */
  function Left(c: Conn): int
  {
    match c.state
    case Unconnected => 0
    case WriteRequest => |Command(c.request)| - c.amt
    case ReadVersion => 4 - c.amt
    case ReadAmt => 4 - c.amt
    case ReadJson => c.jsonLen - c.amt
  }

  /** `read` and `write` never transfer more than they were asked for. */
  predicate Possible(c: Conn, io: IO)
  {
    match io
    case Failed(e) => e > 0
    case Wrote(n) => c.state.WriteRequest? && n <= Left(c)
    case Got(d) => (c.state.ReadVersion? || c.state.ReadAmt? || c.state.ReadJson?) && |d| <= Left(c)
  }

  /** `cconn_process_json` as seen by the connection: the status of parsing this text. */
  type Processor = (Request, bytes) -> int

  /** `cconn_handle_event`; `alloc` tells whether `calloc` succeeds. The size passed to `calloc` is
      computed in 32 bits. */
  function HandleEvent(c: Conn, io: IO, alloc: bool, process: Processor): Reply
    requires Possible(c, io) && |c.raw| == 4
  {
    if c.state.Unconnected? then Reply(c, -EDOM)
    else if io.Failed? then Reply(c, -(io.errno as int))
    else match c.state
      case WriteRequest =>
        var amt := c.amt + io.n;
        var c' := c.(amt := amt, sent := c.sent + Command(c.request)[c.amt..amt]);
        Reply(if amt < |Command(c.request)| then c'
              else c'.(amt := 0, state := if c.request.ReqVersion? then ReadVersion else ReadAmt), 0)
      case ReadVersion =>
        var c' := c.(amt := c.amt + |io.data|, raw := Place(c.raw, c.amt, io.data), received := c.received + io.data);
        if c'.amt < 4 then Reply(c', 0)
        else if BigEndian(c'.raw) != 1 then Reply(c', -ENOTSUP)
        else Reply(Close(c').(request := ReqSchema), 0)
      case ReadAmt =>
        var c' := c.(amt := c.amt + |io.data|, raw := Place(c.raw, c.amt, io.data), received := c.received + io.data);
        if c'.amt < 4 then Reply(c', 0)
        else
          var len := BigEndian(c'.raw);
          var size := (len + 1) % UINT32;
          var c'' := c'.(amt := 0, jsonLen := len, state := ReadJson);
          if alloc then Reply(c''.(json := Some(seq(size, _ => 0))), 0) else Reply(c'', -ENOMEM)
      case ReadJson =>
        if c.json.None? || c.amt + |io.data| > |c.json.value| then Overrun
        else
          var c' := c.(amt := c.amt + |io.data|, json := Some(Place(c.json.value, c.amt, io.data)),
                       received := c.received + io.data);
          if c'.amt < c'.jsonLen then Reply(c', 0)
          else
            var text := c'.json.value[..c'.jsonLen];
            var done := c'.(parsed := c'.parsed + [(c'.request, text)]);
            var ret := process(c'.request, text);
            if ret != 0 then Reply(done, ret) else Reply(Close(done).(request := ReqNone), 0)
      case Unconnected => Reply(c, -EDOM)
  }

  // ------------------------------------------------------------------- one step of the loop

  datatype Event =
    | Connected(fd: nat)                // prepare: socket and connect succeeded
    | ConnectFailed                     // prepare: they did not
    | PollError                         // the poll result does not fit the state
    | Transfer(io: IO, alloc: bool)     // a read or write was made

  function GiveUp(c: Conn): Conn
  {
    Close(c).(request := ReqNone)
  }

  predicate Enabled(c: Conn, ev: Event, counters: nat)
  {
    match ev
    case Connected(_) => c.state.Unconnected? && WantsConnection(c, counters)
    case ConnectFailed => c.state.Unconnected? && WantsConnection(c, counters)
    case PollError => !c.state.Unconnected?
    case Transfer(io, _) => !c.state.Unconnected? && Possible(c, io)
  }

  /** `cconn_prepare` connects only for a request not yet served, and for data only if there are counters. */
  predicate WantsConnection(c: Conn, counters: nat)
  {
    !c.request.ReqNone? && !(c.request.ReqData? && counters == 0)
  }

  /** One transition as `cconn_main_loop` makes it: any error closes the connection for good. */
  function Step(c: Conn, ev: Event, process: Processor): Option<Conn>
    requires |c.raw| == 4 && (ev.Transfer? ==> Possible(c, ev.io))
  {
    match ev
    case Connected(fd) => Some(Connect(c, fd))
    case ConnectFailed => Some(GiveUp(c))
    case PollError => Some(GiveUp(c))
    case Transfer(io, alloc) =>
      var r := HandleEvent(c, io, alloc, process);
      if r.Overrun? then None else if r.ret != 0 then Some(GiveUp(r.c)) else Some(r.c)
  }

  // --------------------------------------------------------------------------- invariant

  ghost predicate Inv(c: Conn)
  {
    && |c.raw| == 4
    && (c.state.Unconnected? <==> c.asok == -1)
    && (c.json.Some? <==> c.state.ReadJson?)
    && (c.request.ReqNone? ==> c.state.Unconnected?)
    && (c.state.ReadVersion? ==> c.request.ReqVersion?)
    && (c.state.ReadAmt? || c.state.ReadJson? ==> c.request.ReqData? || c.request.ReqSchema?)
    && (c.state.ReadVersion? || c.state.ReadAmt? || c.state.ReadJson? ==> c.sent == Command(c.request))
    && Accounted(c)
  }

  /** What was transferred is exactly accounted for, and the target of the state is not yet reached. */
  ghost predicate Accounted(c: Conn)
    requires |c.raw| == 4 && (c.json.Some? <==> c.state.ReadJson?)
  {
    match c.state
    case Unconnected => c.amt == 0 && c.jsonLen == 0
    case WriteRequest =>
      c.amt < |Command(c.request)| && c.sent == Command(c.request)[..c.amt] && c.received == []
    case ReadVersion => c.amt < 4 && c.received == c.raw[..c.amt]
    case ReadAmt => c.amt < 4 && c.received == c.raw[..c.amt]
    case ReadJson =>
      && |c.received| == 4 + c.amt && c.received[..4] == c.raw && c.jsonLen == BigEndian(c.raw)
      && (c.amt < c.jsonLen || c.jsonLen == 0 == c.amt)
      && |c.json.value| == (c.jsonLen + 1) % UINT32
      && c.amt <= |c.json.value| && c.json.value[..c.amt] == c.received[4..]
  }

  lemma {:induction false} CommandLength(r: Request)
    ensures 18 <= |Command(r)| < 32
  {
    var d := Decimal(Code(r));
    assert |Decimal(100)| == 3 by { assert |Decimal(10)| == 2; }
  }

  lemma {:induction false} FreshInv(r: Request)
    ensures Inv(Fresh(r))
  {
  }

  /** One more piece of the four-byte header or version. */
  lemma {:induction false} RawGrows(raw: bytes, amt: nat, data: bytes)
    requires |raw| == 4 && amt + |data| <= 4
    ensures Place(raw, amt, data)[..amt + |data|] == raw[..amt] + data
  {
  }

  lemma {:induction false} PayloadGrows(buffer: bytes, amt: nat, data: bytes, received: bytes)
    requires amt + |data| <= |buffer| && |received| == 4 + amt && buffer[..amt] == received[4..]
    ensures Place(buffer, amt, data)[..amt + |data|] == (received + data)[4..]
    ensures (received + data)[..4] == received[..4]
  {
    assert (received + data)[4..] == received[4..] + data;
  }

  lemma {:induction false} WriteInv(c: Conn, io: IO, process: Processor)
    requires Inv(c) && c.state.WriteRequest? && Possible(c, io) && io.Wrote?
    ensures Inv(HandleEvent(c, io, true, process).c) && HandleEvent(c, io, true, process).ret == 0
  {
    hide Command;
    CommandLength(c.request);
    var cmd := Command(c.request);
    assert cmd[..c.amt] + cmd[c.amt..c.amt + io.n] == cmd[..c.amt + io.n];
    assert cmd[..|cmd|] == cmd;
  }

  lemma {:induction false} HeaderInv(c: Conn, io: IO, alloc: bool, process: Processor)
    requires Inv(c) && (c.state.ReadVersion? || c.state.ReadAmt?) && Possible(c, io) && io.Got?
    ensures var r := HandleEvent(c, io, alloc, process); r.Reply? && (r.ret == 0 ==> Inv(r.c))
  {
    hide Command, BigEndian;
    RawGrows(c.raw, c.amt, io.data);
    var raw := Place(c.raw, c.amt, io.data);
    assert c.amt + |io.data| == 4 ==> raw[..4] == raw && (c.received + io.data)[..4] == c.received + io.data;
  }

  lemma {:induction false} PayloadInv(c: Conn, io: IO, process: Processor)
    requires Inv(c) && c.state.ReadJson? && Possible(c, io) && io.Got?
    ensures var r := HandleEvent(c, io, true, process);
            && (r.Overrun? <==> c.jsonLen == UINT32 - 1 && io.data != [])
            && (r.Reply? && r.ret == 0 ==> Inv(r.c))
  {
    hide Command, BigEndian;
    if c.amt + |io.data| <= |c.json.value| { PayloadGrows(c.json.value, c.amt, io.data, c.received); }
  }

  /** Every transition keeps the invariant, and the only way out of bounds is the wrapped buffer size. */
  lemma {:induction false} StepInv(c: Conn, ev: Event, counters: nat, process: Processor)
    requires Inv(c) && Enabled(c, ev, counters)
    ensures Step(c, ev, process).Some? ==> Inv(Step(c, ev, process).value)
    ensures Step(c, ev, process).None? <==>
            c.state.ReadJson? && c.jsonLen == UINT32 - 1 && ev.Transfer? && ev.io.Got? && ev.io.data != []
  {
    hide Command, BigEndian, Place;
    CommandLength(c.request);
    if ev.Transfer? && ev.io.Wrote? {
      hide HandleEvent;
      WriteInv(c, ev.io, process);
      SameWithoutAlloc(c, ev.io, ev.alloc, process);
    } else if ev.Transfer? && ev.io.Got? {
      hide HandleEvent;
      if c.state.ReadJson? {
        PayloadInv(c, ev.io, process);
        SameWithoutAlloc(c, ev.io, ev.alloc, process);
      } else {
        HeaderInv(c, ev.io, ev.alloc, process);
      }
      GiveUpInv(c, ev.io, ev.alloc, process);
    }
  }

  lemma {:induction false} SameWithoutAlloc(c: Conn, io: IO, alloc: bool, process: Processor)
    requires Possible(c, io) && |c.raw| == 4 && !c.state.ReadAmt?
    ensures HandleEvent(c, io, alloc, process) == HandleEvent(c, io, true, process)
  {
  }

  lemma {:induction false} GiveUpInv(c: Conn, io: IO, alloc: bool, process: Processor)
    requires Possible(c, io) && |c.raw| == 4
    ensures HandleEvent(c, io, alloc, process).Reply? ==> Inv(GiveUp(HandleEvent(c, io, alloc, process).c))
  {
    hide Command;
  }

  // ------------------------------------------------------------------- phases and progress

  function Phase(r: Request): nat
  {
    match r
    case ReqVersion => 2
    case ReqSchema => 1
    case ReqData => 1
    case ReqNone => 0
  }

  function Stage(s: State): nat
  {
    match s
    case Unconnected => 4
    case WriteRequest => 3
    case ReadVersion => 2
    case ReadAmt => 2
    case ReadJson => 1
  }

  /** Lexicographic: request phase, then connection state, then bytes left. */
  predicate Ahead(a: Conn, b: Conn)
  {
    || Phase(a.request) < Phase(b.request)
    || (Phase(a.request) == Phase(b.request) && Stage(a.state) < Stage(b.state))
    || (Phase(a.request) == Phase(b.request) && Stage(a.state) == Stage(b.state) && Left(a) < Left(b))
  }

  /** Being ahead is a strict order over natural numbers, so a connection can only get ahead finitely often. */
  lemma {:induction false} AheadStrict(a: Conn, b: Conn, c: Conn)
    ensures !Ahead(a, a) && !(Ahead(a, b) && Ahead(b, a))
    ensures Ahead(a, b) && Ahead(b, c) ==> Ahead(a, c)
    ensures Inv(a) ==> Left(a) >= 0
  {
    hide Command;
  }

  /** A request only moves on: version to schema to done, data to done; a served one never reconnects. */
  lemma {:induction false} RequestsMoveOn(c: Conn, ev: Event, counters: nat, process: Processor)
    requires Inv(c) && Enabled(c, ev, counters) && Step(c, ev, process).Some?
    ensures !c.request.ReqNone?
    ensures var r := Step(c, ev, process).value.request;
            r == c.request || r.ReqNone? || (c.request.ReqVersion? && r.ReqSchema?)
  {
    hide Command, BigEndian, Place;
  }

  /** Every transition makes progress, except one that transfers no byte, which changes nothing. */
  lemma {:induction false} StepProgress(c: Conn, ev: Event, counters: nat, process: Processor)
    requires Inv(c) && Enabled(c, ev, counters) && Step(c, ev, process).Some?
    ensures Ahead(Step(c, ev, process).value, c) || Step(c, ev, process).value == c
    ensures !Ahead(Step(c, ev, process).value, c) ==> ev.Transfer? && (ev.io == Wrote(0) || ev.io == Got([]))
  {
    hide Command, BigEndian, Place;
    CommandLength(c.request);
    if ev.Transfer? && ev.io.Got? && ev.io.data == [] {
      PlaceNothing(c.raw, c.amt);
      if c.json.Some? { PlaceNothing(c.json.value, c.amt); }
      assert c.received + [] == c.received;
    } else if ev.Transfer? && ev.io == Wrote(0) {
      assert c.sent + Command(c.request)[c.amt..c.amt] == c.sent;
    }
  }

  lemma {:induction false} PlaceNothing(buffer: bytes, at: nat)
    ensures at <= |buffer| ==> Place(buffer, at, []) == buffer
  {
  }

  /** A run of one connection: each event is possible where it happens and stays within the buffer. */
  ghost predicate ValidRun(c: Conn, events: seq<Event>, counters: nat, process: Processor)
    decreases |events|
  {
    events != [] ==>
      && |c.raw| == 4 && Enabled(c, events[0], counters) && Step(c, events[0], process).Some?
      && ValidRun(Step(c, events[0], process).value, events[1..], counters, process)
  }

  ghost function Final(c: Conn, events: seq<Event>, counters: nat, process: Processor): Conn
    requires ValidRun(c, events, counters, process)
    decreases |events|
  {
    if events == [] then c else Final(Step(c, events[0], process).value, events[1..], counters, process)
  }

  /** Safety over whole runs, and a served request stays served. */
  lemma {:induction false} RunSafe(c: Conn, events: seq<Event>, counters: nat, process: Processor)
    requires Inv(c) && ValidRun(c, events, counters, process)
    ensures var d := Final(c, events, counters, process);
            && Inv(d)
            && (d.request == c.request || d.request.ReqNone? || (c.request.ReqVersion? && d.request.ReqSchema?))
            && (c.request.ReqNone? ==> d == c)
    decreases |events|
  {
    hide Inv, Step;
    if events != [] {
      StepInv(c, events[0], counters, process);
      RequestsMoveOn(c, events[0], counters, process);
      RunSafe(Step(c, events[0], process).value, events[1..], counters, process);
    }
  }

  /** Some run of events leads from `c` to `d`. */
  ghost predicate Reachable(c: Conn, d: Conn, counters: nat, process: Processor)
  {
    exists events :: ValidRun(c, events, counters, process) && Final(c, events, counters, process) == d
  }

  /** Nothing happened to a connection, or one transition. */
  ghost predicate Moves(c: Conn, d: Conn, counters: nat, process: Processor)
  {
    d == c || (|c.raw| == 4 && exists ev :: Enabled(c, ev, counters) && Step(c, ev, process) == Some(d))
  }

  lemma {:induction false} RunSnoc(c: Conn, events: seq<Event>, ev: Event, counters: nat, process: Processor)
    requires ValidRun(c, events, counters, process)
    requires var d := Final(c, events, counters, process);
             |d.raw| == 4 && Enabled(d, ev, counters) && Step(d, ev, process).Some?
    ensures ValidRun(c, events + [ev], counters, process)
    ensures Some(Final(c, events + [ev], counters, process)) == Step(Final(c, events, counters, process), ev, process)
    decreases |events|
  {
    hide Step;
    if events == [] {
      assert [] + [ev] == [ev] && [ev][1..] == [];
      assert ValidRun(Step(c, ev, process).value, [], counters, process);
    } else {
      assert (events + [ev])[1..] == events[1..] + [ev];
      RunSnoc(Step(c, events[0], process).value, events[1..], ev, counters, process);
    }
  }

  lemma {:induction false} ReachableMove(c: Conn, d: Conn, e: Conn, counters: nat, process: Processor)
    requires Reachable(c, d, counters, process) && Moves(d, e, counters, process)
    ensures Reachable(c, e, counters, process)
  {
    hide Step, ValidRun, Final;
    if d != e {
      var events :| ValidRun(c, events, counters, process) && Final(c, events, counters, process) == d;
      var ev :| Enabled(d, ev, counters) && Step(d, ev, process) == Some(e);
      RunSnoc(c, events, ev, counters, process);
    }
  }

  lemma {:induction false} ReachableHere(c: Conn, counters: nat, process: Processor)
    ensures Reachable(c, c, counters, process)
  {
    assert ValidRun(c, [], counters, process);
  }

  /** The announced length for which the size of the buffer wraps to nothing. */
  const WRAPPED: bytes := [255, 255, 255, 255]

  /** The wrapped size is reached: connect, write the request, read this header; whatever is read next does not
      fit. */
  lemma {:induction false} OverrunReached(fd: nat, counters: nat, data: bytes, process: Processor)
    requires data != [] && |data| < UINT32
    ensures var command := |Command(ReqSchema)|;
            var run := [Connected(fd), Transfer(Wrote(command), true), Transfer(Got(WRAPPED), true)];
            && ValidRun(Fresh(ReqSchema), run, counters, process)
            && var c := Final(Fresh(ReqSchema), run, counters, process);
               |c.raw| == 4 && Enabled(c, Transfer(Got(data), true), counters)
               && Step(c, Transfer(Got(data), true), process) == None
  {
    hide Command;
    CommandLength(ReqSchema);
    var n := |Command(ReqSchema)|;
    var c1 := Connect(Fresh(ReqSchema), fd);
    var c2 := Step(c1, Transfer(Wrote(n), true), process).value;
    var c3 := Step(c2, Transfer(Got(WRAPPED), true), process).value;
    assert Place([0, 0, 0, 0], 0, WRAPPED) == WRAPPED;
    assert BigEndian(WRAPPED) == UINT32 - 1;
    assert c3.state == ReadJson && c3.jsonLen == UINT32 - 1 && c3.amt == 0 && |c3.json.value| == 0;
    var run1 := [Transfer(Wrote(n), true), Transfer(Got(WRAPPED), true)];
    var run2 := [Transfer(Got(WRAPPED), true)];
    assert ValidRun(c3, [], counters, process);
    assert run2[1..] == [];
    assert ValidRun(c2, run2, counters, process) && Final(c2, run2, counters, process) == c3;
    assert run1[1..] == run2;
    assert ValidRun(c1, run1, counters, process) && Final(c1, run1, counters, process) == c3;
    assert ([Connected(fd)] + run1)[1..] == run1;
    assert [Connected(fd)] + run1 == [Connected(fd), Transfer(Wrote(n), true), Transfer(Got(WRAPPED), true)];
  }

  // ------------------------------------------------------------------------------ framing

  /** The parser is handed exactly the announced number of bytes behind the header, and only then. */
  lemma {:induction false} HandsOver(c: Conn, data: bytes, process: Processor)
    requires Inv(c) && c.state.ReadJson? && |data| <= Left(c) && c.jsonLen < UINT32 - 1
    ensures var all := c.received + data;
            var c' := Step(c, Transfer(Got(data), true), process);
            && |all| >= 4 && c'.Some?
            && (if |all| == 4 + BigEndian(all[..4])
                then c'.value.parsed == c.parsed + [(c.request, all[4..])] && c'.value.state.Unconnected?
                else c'.value.parsed == c.parsed && c'.value.state.ReadJson? && c'.value.received == all
                     && c'.value.request == c.request)
  {
    hide Command, BigEndian;
    PayloadGrows(c.json.value, c.amt, data, c.received);
  }

  lemma {:induction false} ReadsHeader(c: Conn, data: bytes, process: Processor)
    requires Inv(c) && c.state.ReadAmt? && |data| <= Left(c)
    ensures var all := c.received + data;
            var c' := Step(c, Transfer(Got(data), true), process);
            && c'.Some? && c'.value.parsed == c.parsed && c'.value.received == all && c'.value.request == c.request
            && (if |all| == 4 then c'.value.state.ReadJson? && c'.value.amt == 0 && c'.value.jsonLen == BigEndian(all)
                else c'.value.state.ReadAmt? && |all| < 4)
  {
    hide Command;
    RawGrows(c.raw, c.amt, data);
    assert c.amt + |data| == 4 ==> Place(c.raw, c.amt, data)[..4] == Place(c.raw, c.amt, data);
  }

  /** The reply arriving as this list of reads, none longer than what was asked for. */
  ghost predicate Arrives(c: Conn, chunks: seq<bytes>, process: Processor)
    requires |c.raw| == 4
    decreases |chunks|
  {
    chunks != [] ==>
      && (c.state.ReadAmt? || c.state.ReadJson?) && |chunks[0]| <= Left(c)
      && (var c' := Step(c, Transfer(Got(chunks[0]), true), process);
          c'.Some? ==> |c'.value.raw| == 4 && Arrives(c'.value, chunks[1..], process))
  }

  ghost function Receive(c: Conn, chunks: seq<bytes>, process: Processor): Option<Conn>
    requires |c.raw| == 4 && Arrives(c, chunks, process)
    decreases |chunks|
  {
    if chunks == [] then Some(c)
    else
      var c' := Step(c, Transfer(Got(chunks[0]), true), process);
      if c'.None? then None else Receive(c'.value, chunks[1..], process)
  }

  lemma {:induction false} ReceivesReply(c: Conn, chunks: seq<bytes>, reply: bytes, process: Processor)
    requires Inv(c) && (c.state.ReadAmt? || c.state.ReadJson?) && Arrives(c, chunks, process)
    requires c.received + Concat(chunks) == reply
    requires |reply| >= 4 && |reply| == 4 + BigEndian(reply[..4]) && BigEndian(reply[..4]) < UINT32 - 1
    requires chunks != [] || BigEndian(reply[..4]) > 0
    ensures var r := Receive(c, chunks, process);
            && r.Some?
            && (r.value.parsed == c.parsed + [(c.request, reply[4..])] ||
                (reply[4..] == [] && r.value.state.ReadJson? && r.value.received == reply && r.value.parsed == c.parsed))
    decreases |chunks|
  {
    hide BigEndian, Step, Inv;
    StillReading(c);
    assert chunks == [] ==> c.received == reply;
    if chunks == [] {
      assert false;
    } else {
      var data, rest := chunks[0], chunks[1..];
      var all := c.received + data;
      assert reply == all + Concat(rest);
      assert |c.received| >= 4 ==> c.received[..4] == reply[..4];
      assert |all| >= 4 ==> all[..4] == reply[..4];
      if c.state.ReadAmt? { ReadsHeader(c, data, process); } else { HandsOver(c, data, process); }
      StepInv(c, Transfer(Got(data), true), 1, process);
      var c' := Step(c, Transfer(Got(data), true), process).value;
      StillReadingRaw(c');
      if c'.state.Unconnected? {
        assert all == reply;
      } else if rest == [] && BigEndian(reply[..4]) == 0 {
        assert all == reply;
      } else {
        ReceivesReply(c', rest, reply, process);
      }
    }
  }

  /** For every payload and every split of its framed reply into reads, the parser gets exactly the payload. An
      empty payload is handed over by the next read event. */
  lemma {:induction false} Framing(c: Conn, chunks: seq<bytes>, payload: bytes, process: Processor)
    requires Inv(c) && (c.state.ReadAmt? || c.state.ReadJson?) && Arrives(c, chunks, process)
    requires |payload| < UINT32 - 1 && c.received + Concat(chunks) == Spelled(|payload|) + payload
    requires chunks != [] || payload != []
    ensures var r := Receive(c, chunks, process);
            && r.Some?
            && (r.value.parsed == c.parsed + [(c.request, payload)] ||
                (payload == [] && r.value.state.ReadJson? && r.value.received == Spelled(0) && r.value.parsed == c.parsed))
  {
    hide Receive, Inv, Arrives, BigEndian, Spelled;
    var reply := Spelled(|payload|) + payload;
    SpelledReads(|payload|);
    assert reply[..4] == Spelled(|payload|) && reply[4..] == payload;
    ReceivesReply(c, chunks, reply, process);
    assert payload == [] ==> reply == Spelled(0);
  }

  /** A complete version reply leads to the schema exactly when it spells 1, and to nothing otherwise. */
  lemma {:induction false} VersionReply(c: Conn, data: bytes, process: Processor)
    requires Inv(c) && c.state.ReadVersion? && |c.received + data| == 4
    ensures |data| <= Left(c)
    ensures var r := Step(c, Transfer(Got(data), true), process);
            && r.Some? && r.value.state.Unconnected?
            && r.value.request == if c.received + data == [0, 0, 0, 1] then ReqSchema else ReqNone
  {
    var all := c.received + data;
    assert Place(c.raw, c.amt, data) == all;
    assert all == [all[0], all[1], all[2], all[3]];
    assert BigEndian(all) == 1 <==> all == [0, 0, 0, 1];
  }

  lemma {:induction false} StillReadingRaw(c: Conn)
    requires Inv(c)
    ensures |c.raw| == 4
  {
  }

  lemma {:induction false} StillReading(c: Conn)
    requires Inv(c) && (c.state.ReadAmt? || c.state.ReadJson?)
    ensures |c.raw| == 4
    ensures c.state.ReadAmt? ==> |c.received| < 4
    ensures c.state.ReadJson? ==>
              && |c.received| == 4 + c.amt && c.jsonLen == BigEndian(c.received[..4])
              && (c.amt < c.jsonLen || c.jsonLen == 0 == c.amt)
  {
  }

  // ---------------------------------------------------------------- connections and the loop

  /** `struct cconn`; buffers are sequences, the last three fields record the history. */
  class Connection {
    var request: Request
    var state: State
    var asok: int
    var amt: nat
    var raw: bytes
    var jsonLen: nat
    var json: Option<bytes>
    var sent: string
    var received: bytes
    var parsed: seq<(Request, bytes)>

    function Now(): Conn
      reads this
    {
      Conn(request, state, asok, amt, raw, jsonLen, json, sent, received, parsed)
    }

    method Init(r: Request)
      modifies this
      ensures Now() == Fresh(r)
    {
      request, state, asok, amt, raw, jsonLen, json := r, Unconnected, -1, 0, [0, 0, 0, 0], 0, None;
      sent, received, parsed := "", [], [];
    }

    method Shut()
      modifies this
      ensures Now() == Close(old(Now()))
    {
      state, asok, amt, jsonLen, json := Unconnected, -1, 0, 0, None;
    }

    /** The error path of the loop: close and never try again. */
    method Abandon()
      modifies this
      ensures Now() == GiveUp(old(Now()))
    {
      Shut();
      request := ReqNone;
    }

    /** `socket` is the connected descriptor, or nothing when connecting failed. */
    method Prepare(counters: nat, socket: Option<nat>) returns (ret: int)
      modifies this
      ensures !WantsConnection(old(Now()), counters) ==> ret == 0 && Now() == old(Now())
      ensures WantsConnection(old(Now()), counters) && !old(state).Unconnected? ==> ret == 1 && Now() == old(Now())
      ensures WantsConnection(old(Now()), counters) && old(state).Unconnected? ==>
                if socket.Some? then ret == 1 && Now() == Connect(old(Now()), socket.value)
                else ret == -1 && Now() == old(Now())
    {
      if request.ReqNone? || (request.ReqData? && counters == 0) {
        return 0;
      }
      if state.Unconnected? {
        if socket.None? {
          return -1;
        }
        asok, state, amt, jsonLen, json := socket.value, WriteRequest, 0, 0, None;
        sent, received := "", [];
      }
      return 1;
    }

    /** The length state: collect four bytes, then get a buffer. */
    method ReadLength(data: bytes, alloc: bool, ghost process: Processor) returns (ret: int)
      requires |raw| == 4 && state.ReadAmt? && |data| <= Left(Now())
      modifies this
      ensures HandleEvent(old(Now()), Got(data), alloc, process) == Reply(Now(), ret)
    {
      hide Command, BigEndian, Place;
      raw := Place(raw, amt, data);
      amt, received := amt + |data|, received + data;
      if amt >= 4 {
        jsonLen := BigEndian(raw);
        amt, state := 0, ReadJson;
        if !alloc {
          return -ENOMEM;
        }
        json := Some(seq((jsonLen + 1) % UINT32, _ => 0));
      }
      return 0;
    }

    /** The payload state: collect, and hand over to the parser when all is there. */
    method ReadPayload(data: bytes, ghost alloc: bool, process: Processor) returns (ret: int, fault: bool)
      requires |raw| == 4 && state.ReadJson? && |data| <= Left(Now())
      modifies this
      ensures HandleEvent(old(Now()), Got(data), alloc, process) == if fault then Overrun else Reply(Now(), ret)
      ensures fault ==> Now() == old(Now())
    {
      hide Command, BigEndian, Place;
      fault := false;
      if json.None? || amt + |data| > |json.value| {
        return 0, true;
      }
      json := Some(Place(json.value, amt, data));
      amt, received := amt + |data|, received + data;
      if amt >= jsonLen {
        var text := json.value[..jsonLen];
        parsed := parsed + [(request, text)];
        ret := process(request, text);
        if ret != 0 {
          return;
        }
        Shut();
        request := ReqNone;
      }
      return 0, false;
    }

    /** `fault` is a write outside the buffer, before which everything is as it was. */
    method Handle(io: IO, alloc: bool, process: Processor) returns (ret: int, fault: bool)
      requires |raw| == 4 && Possible(Now(), io)
      modifies this
      ensures HandleEvent(old(Now()), io, alloc, process) == if fault then Overrun else Reply(Now(), ret)
      ensures fault ==> Now() == old(Now())
    {
      hide Command, BigEndian, Place;
      fault := false;
      if state.Unconnected? {
        return -EDOM, false;
      }
      if io.Failed? {
        return -(io.errno as int), false;
      }
      match state
      case WriteRequest =>
        var cmd := Command(request);
        sent := sent + cmd[amt..amt + io.n];
        amt := amt + io.n;
        if amt >= |cmd| {
          amt := 0;
          state := if request.ReqVersion? then ReadVersion else ReadAmt;
        }
        return 0, false;
      case ReadVersion =>
        raw := Place(raw, amt, io.data);
        amt, received := amt + |io.data|, received + io.data;
        if amt >= 4 {
          if BigEndian(raw) != 1 {
            return -ENOTSUP, false;
          }
          Shut();
          request := ReqSchema;
        }
        return 0, false;
      case ReadAmt =>
        ret := ReadLength(io.data, alloc, process);
        return;
      case ReadJson =>
        ret, fault := ReadPayload(io.data, alloc, process);
        return;
      case Unconnected =>
        return -EDOM, false;
    }
  }

  ghost predicate Distinct(ios: seq<Connection>)
  {
    forall i, j :: 0 <= i < j < |ios| ==> ios[i] != ios[j]
  }

  ghost predicate AllInv(ios: seq<Connection>)
    reads ios
  {
    forall i :: 0 <= i < |ios| ==> Inv(ios[i].Now())
  }

  /** Nothing more to do for this daemon. */
  ghost predicate Served(c: Conn, counters: nat)
  {
    c.request.ReqNone? || (c.request.ReqData? && counters == 0)
  }

  lemma {:induction false} PrepareInv(c: Conn, fd: nat)
    requires Inv(c) && c.state.Unconnected? && !c.request.ReqNone?
    ensures Inv(Connect(c, fd)) && Inv(GiveUp(c))
  {
    hide Command;
    CommandLength(c.request);
  }

  lemma {:induction false} GivenUp(c: Conn)
    requires |c.raw| == 4
    ensures Inv(GiveUp(c)) && forall n :: Served(GiveUp(c), n)
  {
  }

  /** One connection in the first half of a round; the descriptor is any, or none when connecting fails. */
  method PrepareOne(io: Connection, counters: nat, process: Processor) returns (poll: bool)
    requires Inv(io.Now())
    modifies io
    ensures Inv(io.Now()) && Moves(old(io.Now()), io.Now(), counters, process)
    ensures poll <==> !Served(io.Now(), counters)
    ensures poll ==> !io.state.Unconnected?
  {
    hide Inv, Command, HandleEvent;
    var socket := None;
    if * {
      var fd: nat :| true;
      socket := Some(fd);
    }
    ghost var before := io.Now();
    if before.state.Unconnected? && !before.request.ReqNone? {
      PrepareInv(before, if socket.Some? then socket.value else 0);
    }
    StillReadingRaw(before);
    GivenUp(before);
    var ret := io.Prepare(counters, socket);
    poll := ret == 1;
    if ret < 0 {
      io.Abandon();
      assert Enabled(before, ConnectFailed, counters) && Step(before, ConnectFailed, process) == Some(io.Now());
    } else if io.Now() != before {
      assert Enabled(before, Connected(socket.value), counters);
      assert Step(before, Connected(socket.value), process) == Some(io.Now());
    }
  }

  /** The first half of one round: connect where needed and collect whom to poll. */
  method PrepareAll(ios: seq<Connection>, counters: seq<nat>, process: Processor) returns (polled: seq<nat>)
    requires Distinct(ios) && AllInv(ios) && |counters| == |ios|
    modifies ios
    ensures AllInv(ios)
    ensures forall i :: 0 <= i < |ios| ==> Moves(old(ios[i].Now()), ios[i].Now(), counters[i], process)
    ensures forall k :: 0 <= k < |polled| ==> polled[k] < |ios| && !ios[polled[k]].state.Unconnected?
    ensures forall a, b :: 0 <= a < b < |polled| ==> polled[a] != polled[b]
    ensures forall i :: 0 <= i < |ios| ==> (i in polled <==> !Served(ios[i].Now(), counters[i]))
  {
    hide Inv, Moves, Served;
    polled := [];
    for i := 0 to |ios|
      invariant AllInv(ios)
      invariant forall j :: 0 <= j < i ==> Moves(old(ios[j].Now()), ios[j].Now(), counters[j], process)
      invariant forall j :: i <= j < |ios| ==> ios[j].Now() == old(ios[j].Now())
      invariant forall k :: 0 <= k < |polled| ==> polled[k] < i && !ios[polled[k]].state.Unconnected?
      invariant forall a, b :: 0 <= a < b < |polled| ==> polled[a] != polled[b]
      invariant forall j :: 0 <= j < i ==> (j in polled <==> !Served(ios[j].Now(), counters[j]))
    {
      var poll := PrepareOne(ios[i], counters[i], process);
      if poll {
        polled := polled + [i];
      }
    }
  }

  /** The buffer of this connection has no room although a reply is expected. */
  ghost predicate Wrapped(c: Conn)
  {
    c.state.ReadJson? && c.jsonLen == UINT32 - 1
  }

  /** One connection in the second half: no event, an error, or any transfer that is possible. */
  method HandleOne(io: Connection, counters: nat, process: Processor) returns (fault: bool)
    requires Inv(io.Now()) && !io.state.Unconnected?
    modifies io
    ensures Inv(io.Now()) && Moves(old(io.Now()), io.Now(), counters, process)
    ensures fault ==> io.Now() == old(io.Now()) && Wrapped(io.Now())
  {
    hide Inv, Command, HandleEvent;
    ghost var before := io.Now();
    StillReadingRaw(before);
    GivenUp(before);
    fault := false;
    if * {
      return;
    } else if * {
      io.Abandon();
      assert Enabled(before, PollError, counters) && Step(before, PollError, process) == Some(io.Now());
      return;
    }
    var alloc: bool := *;
    assert Possible(io.Now(), Failed(1));
    var transfer: IO :| Possible(io.Now(), transfer);
    ghost var ev := Transfer(transfer, alloc);
    StepInv(before, ev, counters, process);
    HandledRaw(before, transfer, alloc, process);
    var ret;
    ret, fault := io.Handle(transfer, alloc, process);
    if !fault && ret != 0 {
      GivenUp(io.Now());
      io.Abandon();
    }
    assert fault || (Enabled(before, ev, counters) && Step(before, ev, process) == Some(io.Now()));
  }

  /** The second half: what poll reported for each polled connection, up to a write outside a buffer. */
  method HandleAll(ios: seq<Connection>, polled: seq<nat>, counters: seq<nat>, process: Processor)
    returns (fault: bool)
    requires Distinct(ios) && AllInv(ios) && |counters| == |ios|
    requires forall k :: 0 <= k < |polled| ==> polled[k] < |ios| && !ios[polled[k]].state.Unconnected?
    requires forall a, b :: 0 <= a < b < |polled| ==> polled[a] != polled[b]
    modifies ios
    ensures AllInv(ios)
    ensures forall i :: 0 <= i < |ios| ==> Moves(old(ios[i].Now()), ios[i].Now(), counters[i], process)
    ensures fault ==> exists i :: 0 <= i < |ios| && Wrapped(ios[i].Now())
  {
    hide Inv, Moves;
    fault := false;
    forall i | 0 <= i < |ios| ensures Moves(ios[i].Now(), ios[i].Now(), counters[i], process) {
      MovesNot(ios[i].Now(), counters[i], process);
    }
    for k := 0 to |polled|
      invariant AllInv(ios)
      invariant forall i :: 0 <= i < |ios| ==> Moves(old(ios[i].Now()), ios[i].Now(), counters[i], process)
      invariant forall a :: k <= a < |polled| ==> ios[polled[a]].Now() == old(ios[polled[a]].Now())
    {
      fault := HandleOne(ios[polled[k]], counters[polled[k]], process);
      if fault {
        return;
      }
    }
  }

  lemma {:induction false} MovesNot(c: Conn, counters: nat, process: Processor)
    ensures Moves(c, c, counters, process)
  {
  }

  lemma {:induction false} HandledRaw(c: Conn, io: IO, alloc: bool, process: Processor)
    requires |c.raw| == 4 && Possible(c, io)
    ensures HandleEvent(c, io, alloc, process).Reply? ==> |HandleEvent(c, io, alloc, process).c.raw| == 4
  {
  }

  /** How the loop is left: all served, time or poll failure, or a write outside a buffer. */
  datatype Exit = AllServed | GaveUp | Fault

  /** Every connection is where some run of its state machine leads. */
  ghost predicate AllReachable(ios: seq<Connection>, request: Request, counters: seq<nat>, process: Processor)
    requires |counters| == |ios|
    reads ios
  {
    forall i :: 0 <= i < |ios| ==> Reachable(Fresh(request), ios[i].Now(), counters[i], process)
  }

  /** A connection was closed at the end of some run of its state machine. */
  ghost predicate ClosedAfterRun(request: Request, c: Conn, counters: nat, process: Processor)
  {
    exists d :: Reachable(Fresh(request), d, counters, process) && c == Close(d)
  }

  lemma {:induction false} ReachableMovedOn(request: Request, d: Conn, counters: nat, process: Processor)
    requires Reachable(Fresh(request), d, counters, process)
    ensures d.request == request || d.request.ReqNone? || (request.ReqVersion? && d.request.ReqSchema?)
  {
    hide Inv;
    var events :| ValidRun(Fresh(request), events, counters, process) && Final(Fresh(request), events, counters, process) == d;
    FreshInv(request);
    RunSafe(Fresh(request), events, counters, process);
  }

  /** One round keeps every connection on a run of its state machine. */
  lemma {:induction false} RoundReaches(request: Request, before: seq<Conn>, after: seq<Conn>, counters: seq<nat>, process: Processor)
    requires |before| == |after| == |counters|
    requires forall i :: 0 <= i < |before| ==> Reachable(Fresh(request), before[i], counters[i], process)
    requires forall i :: 0 <= i < |before| ==> Moves(before[i], after[i], counters[i], process)
    ensures forall i :: 0 <= i < |before| ==> Reachable(Fresh(request), after[i], counters[i], process)
  {
    hide Reachable, Moves;
    forall i | 0 <= i < |before| ensures Reachable(Fresh(request), after[i], counters[i], process) {
      ReachableMove(Fresh(request), before[i], after[i], counters[i], process);
    }
  }

  function States(ios: seq<Connection>): (r: seq<Conn>)
    reads ios
    ensures |r| == |ios| && forall i :: 0 <= i < |ios| ==> r[i] == ios[i].Now()
  {
    seq(|ios|, i requires 0 <= i < |ios| reads ios => ios[i].Now())
  }

  method InitAll(ios: seq<Connection>, request: Request, counters: seq<nat>, process: Processor)
    requires Distinct(ios) && |counters| == |ios|
    modifies ios
    ensures AllInv(ios) && AllReachable(ios, request, counters, process)
  {
    hide Inv, Reachable;
    for i := 0 to |ios|
      invariant forall j :: 0 <= j < i ==> ios[j].Now() == Fresh(request)
    {
      ios[i].Init(request);
    }
    FreshInv(request);
    forall i | 0 <= i < |ios| ensures Reachable(Fresh(request), ios[i].Now(), counters[i], process) {
      ReachableHere(Fresh(request), counters[i], process);
    }
  }

  /** The loop over all daemons, for every behaviour of the sockets, until all are served, poll fails,
      or the time is up (after any number of rounds). Every connection only ever takes steps of its state
      machine, and unless a buffer was left all are closed at the end. */
  method MainLoop(ios: seq<Connection>, request: Request, counters: seq<nat>, process: Processor)
    returns (exit: Exit)
    requires Distinct(ios) && |counters| == |ios|
    modifies ios
    ensures AllInv(ios)
    ensures forall i :: 0 <= i < |ios| ==>
              ios[i].request == request || ios[i].request.ReqNone? || (request.ReqVersion? && ios[i].request.ReqSchema?)
    ensures exit.Fault? ==>
              AllReachable(ios, request, counters, process) && exists i :: 0 <= i < |ios| && Wrapped(ios[i].Now())
    ensures !exit.Fault? ==> forall i :: 0 <= i < |ios| ==>
              && ios[i].state.Unconnected? && ios[i].asok == -1 && ios[i].json == None
              && ClosedAfterRun(request, ios[i].Now(), counters[i], process)
    ensures exit.AllServed? ==> forall i :: 0 <= i < |ios| ==> Served(ios[i].Now(), counters[i])
  {
    hide Inv, Reachable, Moves, Wrapped;
    InitAll(ios, request, counters, process);
    exit := GaveUp;
    var rounds: nat :| true;
    while rounds > 0 && exit.GaveUp?
      invariant AllInv(ios) && AllReachable(ios, request, counters, process)
      invariant exit.AllServed? ==> forall i :: 0 <= i < |ios| ==> Served(ios[i].Now(), counters[i])
      invariant exit.Fault? ==> exists i :: 0 <= i < |ios| && Wrapped(ios[i].Now())
      decreases rounds
    {
      rounds := rounds - 1;
      exit := Round(ios, request, counters, process);
    }
    forall i | 0 <= i < |ios|
      ensures ios[i].request == request || ios[i].request.ReqNone? || (request.ReqVersion? && ios[i].request.ReqSchema?)
    {
      ReachableMovedOn(request, ios[i].Now(), counters[i], process);
    }
    if !exit.Fault? {
      CloseAll(ios, counters);
    }
  }

  /** One round of the loop; leaving it early is giving up. */
  method Round(ios: seq<Connection>, request: Request, counters: seq<nat>, process: Processor) returns (exit: Exit)
    requires Distinct(ios) && |counters| == |ios| && AllInv(ios) && AllReachable(ios, request, counters, process)
    modifies ios
    ensures AllInv(ios) && AllReachable(ios, request, counters, process)
    ensures exit.AllServed? ==> forall i :: 0 <= i < |ios| ==> Served(ios[i].Now(), counters[i])
    ensures exit.Fault? ==> exists i :: 0 <= i < |ios| && Wrapped(ios[i].Now())
  {
    hide Inv, Reachable, Moves, Wrapped;
    ghost var before := States(ios);
    var polled := PrepareAll(ios, counters, process);
    ghost var between := States(ios);
    RoundReaches(request, before, between, counters, process);
    if polled == [] {
      return AllServed;
    }
    exit := GaveUp;
    if * {
      return;
    }
    var fault := HandleAll(ios, polled, counters, process);
    RoundReaches(request, between, States(ios), counters, process);
    if fault {
      exit := Fault;
    }
  }

  method CloseAll(ios: seq<Connection>, counters: seq<nat>)
    requires Distinct(ios) && |counters| == |ios| && AllInv(ios)
    modifies ios
    ensures AllInv(ios)
    ensures forall i :: 0 <= i < |ios| ==> ios[i].Now() == Close(old(ios[i].Now()))
  {
    hide Inv, Command;
    for i := 0 to |ios|
      invariant AllInv(ios)
      invariant forall j :: 0 <= j < i ==> ios[j].Now() == Close(old(ios[j].Now()))
      invariant forall j :: i <= j < |ios| ==> ios[j].Now() == old(ios[j].Now())
    {
      CloseInv(ios[i].Now());
      ios[i].Shut();
    }
  }

  lemma {:induction false} CloseInv(c: Conn)
    requires Inv(c)
    ensures Inv(Close(c))
  {
    hide Command;
  }
}
