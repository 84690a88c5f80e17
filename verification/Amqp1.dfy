/** The send queue of the amqp1 plugin: producers append under a lock and evict when a limit is reached,
    the event thread takes batches as large as the link credit allows and sends them with consecutive
    delivery tags. Tags and credit are those of sections 2.6.7 and 2.6.12 of OASIS AMQP 1.0 Part 2. */
module Amqp1 {
  import opened Common

  datatype Message = Message(id: nat, preSettled: bool)

  const UINT64: nat := 0x1_0000_0000_0000_0000

  /** Arithmetic of `uint64_t`. */
  function Wrap(n: nat): (r: nat)
    ensures r < 0x1_0000_0000_0000_0000 && (n - r) % 0x1_0000_0000_0000_0000 == 0
    ensures n < 0x1_0000_0000_0000_0000 ==> r == n
  {
    n % UINT64
  }

  lemma {:induction false} WrapAdd(a: nat, b: nat)
    ensures Wrap(Wrap(a) + b) == Wrap(a + b)
  {
  }

  /** How a message left the queue. */
  datatype Fate = Evicted | Taken | Drained

  datatype Delivery = Delivery(tag: nat, message: Message)

  /** `out`, `tag` and `stopping` are the shared globals; `batch` and `next` belong to the event thread
      inside one call of `amqp1_send_out_messages`; the other fields are history: everything enqueued,
      the messages that left the queue in order with their fate, and everything sent. */
  datatype Queue = Queue(
    out: seq<Message>, tag: nat, stopping: bool, batch: seq<Message>, next: nat,
    enqueued: seq<Message>, left: seq<(Message, Fate)>, sent: seq<Delivery>)

  datatype Action =
    | Enqueue(m: Message)
    | Take(credit: int)
    | SendNext
    | Stop
    | DrainNext

  const INITIAL := Queue([], 1, false, [], 0, [], [], [])

  function Leave(q: Queue, n: nat, fate: Fate): Queue
    requires n <= |q.out|
  {
    q.(out := q.out[n..], left := q.left + Tagged(q.out[..n], fate))
  }

  function Tagged(ms: seq<Message>, fate: Fate): (r: seq<(Message, Fate)>)
    ensures |r| == |ms|
  {
    seq(|ms|, i requires 0 <= i < |ms| => (ms[i], fate))
  }

  function Min(a: int, b: int): int { if a < b then a else b }

  /** The queue part of `encqueue`; a limit of zero or less means none. */
  function Enqueued(q: Queue, m: Message, limit: int): Queue
  {
    var room := if limit > 0 && |q.out| >= limit then Leave(q, 1, Evicted) else q;
    room.(out := room.out + [m], enqueued := room.enqueued + [m])
  }

  /** The locked part of `amqp1_send_out_messages`. */
  function BatchTaken(q: Queue, credit: int): Queue
  {
    if q.stopping || credit <= 0 then q
    else
      var n := Min(credit, |q.out|);
      Leave(q, n, Taken).(batch := q.batch + q.out[..n], next := q.tag, tag := Wrap(q.tag + n))
  }

  function OneSent(q: Queue): Queue
    requires q.batch != []
  {
    var tag := Wrap(q.next + 1);
    q.(batch := q.batch[1..], next := tag, sent := q.sent + [Delivery(tag, q.batch[0])])
  }

  /** What the threads may do next; the event thread starts a batch or drains only between batches. */
  predicate Enabled(q: Queue, a: Action)
  {
    match a
    case Enqueue(_) => true
    case Take(_) => q.batch == []
    case SendNext => q.batch != []
    case Stop => true
    case DrainNext => q.stopping && q.batch == [] && q.out != []
  }

  function Step(q: Queue, a: Action, limit: int): Queue
    requires Enabled(q, a)
  {
    match a
    case Enqueue(m) => Enqueued(q, m, limit)
    case Take(credit) => BatchTaken(q, credit)
    case SendNext => OneSent(q)
    case Stop => q.(stopping := true)
    case DrainNext => Leave(q, 1, Drained)
  }

  // ------------------------------------------------------------------------------- invariant

  function Messages(left: seq<(Message, Fate)>): (r: seq<Message>)
    ensures |r| == |left|
  {
    seq(|left|, i requires 0 <= i < |left| => left[i].0)
  }

  /** The taken messages, in the order in which they left. */
  function TakenOf(left: seq<(Message, Fate)>): seq<Message>
  {
    if left == [] then []
    else
      var n := |left| - 1;
      TakenOf(left[..n]) + (if left[n].1.Taken? then [left[n].0] else [])
  }

  function SentMessages(sent: seq<Delivery>): (r: seq<Message>)
    ensures |r| == |sent|
  {
    seq(|sent|, i requires 0 <= i < |sent| => sent[i].message)
  }

  ghost predicate Inv(q: Queue, limit: int)
  {
    // the queue is what remains of everything enqueued once the messages that left are cut off the front
    && q.enqueued == Messages(q.left) + q.out
    // the taken ones are sent in that order; the rest of the batch is still to be sent
    && TakenOf(q.left) == SentMessages(q.sent) + q.batch
    // delivery tags are consecutive across batches, starting at 2
    && (forall i :: 0 <= i < |q.sent| ==> q.sent[i].tag == Wrap(2 + i))
    && q.tag == Wrap(1 + |q.sent| + |q.batch|)
    && (q.batch != [] ==> q.next == Wrap(1 + |q.sent|))
    && (limit > 0 ==> |q.out| <= limit)
  }

  lemma {:induction false} TakenConcat(a: seq<(Message, Fate)>, b: seq<(Message, Fate)>)
    ensures TakenOf(a + b) == TakenOf(a) + TakenOf(b)
    decreases |b|
  {
    if b == [] {
      assert a + b == a;
    } else {
      var n := |b| - 1;
      assert (a + b)[..|a| + n] == a + b[..n];
      TakenConcat(a, b[..n]);
    }
  }

  /** Tagging one message more. */
  lemma {:induction false} TaggedSnoc(ms: seq<Message>, n: nat, fate: Fate)
    requires n < |ms|
    ensures Tagged(ms[..n + 1], fate) == Tagged(ms[..n], fate) + [(ms[n], fate)]
  {
  }

  lemma {:induction false} TakenTagged(ms: seq<Message>, fate: Fate)
    ensures TakenOf(Tagged(ms, fate)) == if fate.Taken? then ms else []
  {
    if ms != [] {
      hide Tagged;
      var n := |ms| - 1;
      assert ms == ms[..n] + [ms[n]] == ms[..n + 1];
      TaggedSnoc(ms, n, fate);
      TakenTagged(ms[..n], fate);
      assert TakenOf([(ms[n], fate)]) == if fate.Taken? then [ms[n]] else [];
      TakenConcat(Tagged(ms[..n], fate), [(ms[n], fate)]);
    }
  }

  lemma {:induction false} MessagesConcat(a: seq<(Message, Fate)>, b: seq<(Message, Fate)>)
    ensures Messages(a + b) == Messages(a) + Messages(b)
  {
  }

  lemma {:induction false} MessagesTagged(ms: seq<Message>, fate: Fate)
    ensures Messages(Tagged(ms, fate)) == ms
  {
  }

  /** Messages leave from the front: the accounting of a removal with any fate. */
  lemma {:induction false} LeaveKeeps(q: Queue, n: nat, fate: Fate)
    requires n <= |q.out| && q.enqueued == Messages(q.left) + q.out
    ensures var r := Leave(q, n, fate);
            && r.enqueued == Messages(r.left) + r.out
            && TakenOf(r.left) == TakenOf(q.left) + (if fate.Taken? then q.out[..n] else [])
  {
    hide TakenOf, Messages, Tagged;
    var front, rest := q.out[..n], q.out[n..];
    MessagesConcat(q.left, Tagged(front, fate));
    MessagesTagged(front, fate);
    assert Messages(q.left) + q.out == (Messages(q.left) + front) + rest;
    TakenConcat(q.left, Tagged(front, fate));
    TakenTagged(front, fate);
  }

  lemma {:induction false} EnqueueInv(q: Queue, m: Message, limit: int)
    requires Inv(q, limit)
    ensures Inv(Enqueued(q, m, limit), limit)
  {
    hide Wrap, TakenOf;
    LeaveKeeps(q, if limit > 0 && |q.out| >= limit then 1 else 0, Evicted);
  }

  lemma {:induction false} TakeInv(q: Queue, credit: int, limit: int)
    requires Inv(q, limit) && q.batch == []
    ensures var r := BatchTaken(q, credit);
            && Inv(r, limit)
            && (q.stopping || credit <= 0 ==> r == q)
            && (!q.stopping && credit > 0 ==>
                  && |r.batch| == (if credit < |q.out| then credit else |q.out|)
                  && r.batch + r.out == q.out)
  {
    hide Wrap, TakenOf, Messages, SentMessages;
    if !q.stopping && credit > 0 {
      WrapAdd(1 + |q.sent|, Min(credit, |q.out|));
      LeaveKeeps(q, Min(credit, |q.out|), Taken);
      assert q.out[..Min(credit, |q.out|)] + q.out[Min(credit, |q.out|)..] == q.out;
    }
  }

  lemma {:induction false} SendInv(q: Queue, limit: int)
    requires Inv(q, limit) && q.batch != []
    ensures Inv(OneSent(q), limit)
  {
    hide Wrap, TakenOf, Messages;
    WrapAdd(1 + |q.sent|, 1);
    var r := OneSent(q);
    assert SentMessages(r.sent) == SentMessages(q.sent) + [q.batch[0]];
    assert q.batch == [q.batch[0]] + q.batch[1..];
  }

  /** Every action of every thread keeps the invariant. */
  lemma {:induction false} StepInv(q: Queue, a: Action, limit: int)
    requires Inv(q, limit) && Enabled(q, a)
    ensures Inv(Step(q, a, limit), limit)
  {
    hide Inv;
    match a
    case Enqueue(m) => EnqueueInv(q, m, limit);
    case Take(credit) => TakeInv(q, credit, limit);
    case SendNext => SendInv(q, limit);
    case Stop => StopInv(q, limit);
    case DrainNext => DrainInv(q, limit);
  }

  lemma {:induction false} StopInv(q: Queue, limit: int)
    requires Inv(q, limit)
    ensures Inv(q.(stopping := true), limit)
  {
  }

  lemma {:induction false} DrainInv(q: Queue, limit: int)
    requires Inv(q, limit) && q.out != []
    ensures Inv(Leave(q, 1, Drained), limit)
  {
    hide Wrap, TakenOf;
    LeaveKeeps(q, 1, Drained);
  }

  ghost predicate ValidRun(q: Queue, run: seq<Action>, limit: int)
    decreases |run|
  {
    run != [] ==> Enabled(q, run[0]) && ValidRun(Step(q, run[0], limit), run[1..], limit)
  }

  ghost function Final(q: Queue, run: seq<Action>, limit: int): Queue
    requires ValidRun(q, run, limit)
    decreases |run|
  {
    if run == [] then q else Final(Step(q, run[0], limit), run[1..], limit)
  }

  lemma {:induction false} RunInv(q: Queue, run: seq<Action>, limit: int)
    requires Inv(q, limit) && ValidRun(q, run, limit)
    ensures Inv(Final(q, run, limit), limit)
    decreases |run|
  {
    hide Inv, Step;
    if run != [] {
      StepInv(q, run[0], limit);
      RunInv(Step(q, run[0], limit), run[1..], limit);
    }
  }

  /** Over all interleavings: the queue is a suffix of everything enqueued, every message is exactly one
      of evicted, taken, drained or queued, what is sent is sent in enqueue order with tags 2, 3, 4, ...,
      and a positive limit is never exceeded. */
  lemma {:induction false} EveryInterleaving(run: seq<Action>, limit: int)
    requires ValidRun(INITIAL, run, limit)
    ensures var q := Final(INITIAL, run, limit);
            && |q.out| <= |q.enqueued| && q.enqueued[|q.enqueued| - |q.out|..] == q.out
            && |q.enqueued| == |q.left| + |q.out|
            && (forall i :: 0 <= i < |q.left| ==> q.left[i].0 == q.enqueued[i])
            && SentMessages(q.sent) + q.batch == TakenOf(q.left)
            && (forall i :: 0 <= i < |q.sent| ==> q.sent[i].tag == Wrap(2 + i))
            && (limit > 0 ==> |q.out| <= limit)
            && (|q.sent| < 0x1_0000_0000_0000_0000 - 2 ==> forall i :: 0 <= i < |q.sent| ==> q.sent[i].tag == 2 + i)
  {
    assert Inv(INITIAL, limit);
    RunInv(INITIAL, run, limit);
    var q := Final(INITIAL, run, limit);
    assert forall i :: 0 <= i < |q.left| ==> Messages(q.left)[i] == q.enqueued[i];
  }

  // ----------------------------------------------------------------------------- eviction

  /** How many messages were evicted. */
  function EvictedIn(left: seq<(Message, Fate)>): nat
  {
    if left == [] then 0 else EvictedIn(left[..|left| - 1]) + (if left[|left| - 1].1.Evicted? then 1 else 0)
  }

  lemma {:induction false} EvictedConcat(a: seq<(Message, Fate)>, b: seq<(Message, Fate)>)
    ensures EvictedIn(a + b) == EvictedIn(a) + EvictedIn(b)
    decreases |b|
  {
    if b == [] {
      assert a + b == a;
    } else {
      var n := |b| - 1;
      assert (a + b)[..|a| + n] == a + b[..n];
      EvictedConcat(a, b[..n]);
    }
  }

  lemma {:induction false} EvictedTagged(ms: seq<Message>, fate: Fate)
    ensures EvictedIn(Tagged(ms, fate)) == if fate.Evicted? then |ms| else 0
  {
    if ms != [] {
      var n := |ms| - 1;
      assert Tagged(ms, fate)[..n] == Tagged(ms[..n], fate);
      EvictedTagged(ms[..n], fate);
    }
  }

  /** The length of the queue after an action, from its length before and whether sending has stopped. */
  function LengthAfter(length: nat, stopping: bool, a: Action, limit: int): nat
  {
    match a
    case Enqueue(_) => if limit > 0 && length == limit then length else length + 1
    case Take(credit) => if stopping || credit <= 0 then length else if credit < length then length - credit else 0
    case SendNext => length
    case Stop => length
    case DrainNext => if length > 0 then length - 1 else 0
  }

  /** The enqueues of a run that find the queue full: exactly `limit` messages, and a limit at all. */
  function FullEnqueues(length: nat, stopping: bool, run: seq<Action>, limit: int): nat
    decreases |run|
  {
    if run == [] then 0
    else
      (if run[0].Enqueue? && limit > 0 && length == limit then 1 else 0)
      + FullEnqueues(LengthAfter(length, stopping, run[0], limit), stopping || run[0].Stop?, run[1..], limit)
  }

  function LengthAtEnd(length: nat, stopping: bool, run: seq<Action>, limit: int): nat
    decreases |run|
  {
    if run == [] then length
    else LengthAtEnd(LengthAfter(length, stopping, run[0], limit), stopping || run[0].Stop?, run[1..], limit)
  }

  /** One action evicts one message if it is an enqueue on a full queue, and none otherwise. */
  lemma {:induction false} StepEvicts(q: Queue, a: Action, limit: int)
    requires Inv(q, limit) && Enabled(q, a)
    ensures var r := Step(q, a, limit);
            && |r.out| == LengthAfter(|q.out|, q.stopping, a, limit) && r.stopping == (q.stopping || a.Stop?)
            && EvictedIn(r.left) ==
               EvictedIn(q.left) + (if a.Enqueue? && limit > 0 && |q.out| == limit then 1 else 0)
  {
    hide EvictedIn, TakenOf, Wrap, Tagged, Messages;
    var n := if a.Enqueue? then (if limit > 0 && |q.out| >= limit then 1 else 0)
             else if a.Take? then (if q.stopping || a.credit <= 0 then 0 else Min(a.credit, |q.out|))
             else if a.DrainNext? then 1 else 0;
    var fate := if a.Enqueue? then Evicted else if a.Take? then Taken else Drained;
    EvictedConcat(q.left, Tagged(q.out[..n], fate));
    EvictedTagged(q.out[..n], fate);
  }

  lemma {:induction false} RunEvicts(q: Queue, run: seq<Action>, limit: int)
    requires Inv(q, limit) && ValidRun(q, run, limit)
    ensures var r := Final(q, run, limit);
            && |r.out| == LengthAtEnd(|q.out|, q.stopping, run, limit)
            && EvictedIn(r.left) == EvictedIn(q.left) + FullEnqueues(|q.out|, q.stopping, run, limit)
    decreases |run|
  {
    hide Inv, Step, EvictedIn;
    if run != [] {
      StepInv(q, run[0], limit);
      StepEvicts(q, run[0], limit);
      RunEvicts(Step(q, run[0], limit), run[1..], limit);
    }
  }

  lemma {:induction false} NeverFull(length: nat, stopping: bool, run: seq<Action>, limit: int)
    requires limit <= 0
    ensures FullEnqueues(length, stopping, run, limit) == 0
    decreases |run|
  {
    if run != [] {
      NeverFull(LengthAfter(length, stopping, run[0], limit), stopping || run[0].Stop?, run[1..], limit);
    }
  }

  /** Over all interleavings: as many messages are evicted as enqueues found exactly `limit` messages queued, and
      without a limit none is. */
  lemma {:induction false} EvictsOnlyWhenFull(run: seq<Action>, limit: int)
    requires ValidRun(INITIAL, run, limit)
    ensures var q := Final(INITIAL, run, limit);
            && EvictedIn(q.left) == FullEnqueues(0, false, run, limit)
            && (limit <= 0 ==> forall i :: 0 <= i < |q.left| ==> !q.left[i].1.Evicted?)
  {
    hide ValidRun, Final;
    assert Inv(INITIAL, limit);
    RunEvicts(INITIAL, run, limit);
    if limit <= 0 {
      NeverFull(0, false, run, limit);
      NoneEvicted(Final(INITIAL, run, limit).left);
    }
  }

  lemma {:induction false} NoneEvicted(left: seq<(Message, Fate)>)
    requires EvictedIn(left) == 0
    ensures forall i :: 0 <= i < |left| ==> !left[i].1.Evicted?
  {
    if left != [] {
      var n := |left| - 1;
      NoneEvicted(left[..n]);
      assert forall i :: 0 <= i < n ==> left[..n][i] == left[i];
    }
  }

  /** Nobody takes messages away. */
  predicate OnlyEnqueues(run: seq<Action>)
  {
    forall i :: 0 <= i < |run| ==> !run[i].Take? && !run[i].DrainNext?
  }

  lemma {:induction false} FillsUp(q: Queue, run: seq<Action>, limit: int)
    requires ValidRun(q, run, limit) && OnlyEnqueues(run) && (limit > 0 ==> |q.out| <= limit)
    ensures var r := Final(q, run, limit); var more := |r.enqueued| - |q.enqueued|;
            more >= 0 && |r.out| == if limit > 0 && |q.out| + more > limit then limit else |q.out| + more
    decreases |run|
  {
    hide Tagged, Wrap;
    if run != [] {
      assert OnlyEnqueues(run[1..]) by {
        assert forall i :: 0 <= i < |run| - 1 ==> run[1..][i] == run[i + 1];
      }
      FillsUp(Step(q, run[0], limit), run[1..], limit);
    }
  }

  /** Without anyone taking messages the queue is the last `limit` messages enqueued, or all of them. */
  lemma {:induction false} KeepsTheLast(run: seq<Action>, limit: int)
    requires ValidRun(INITIAL, run, limit) && OnlyEnqueues(run)
    ensures var q := Final(INITIAL, run, limit);
            var n := if limit > 0 && |q.enqueued| > limit then limit else |q.enqueued|;
            q.out == q.enqueued[|q.enqueued| - n..]
  {
    hide ValidRun, Final;
    EveryInterleaving(run, limit);
    FillsUp(INITIAL, run, limit);
  }

  // ------------------------------------------------------------------- what can always happen

  function Enqueues(ms: seq<Message>): (r: seq<Action>)
    ensures |r| == |ms|
  {
    seq(|ms|, i requires 0 <= i < |ms| => Enqueue(ms[i]))
  }

  /** Producers are never refused: any messages can be enqueued at any time. */
  lemma {:induction false} AlwaysAccepts(q: Queue, ms: seq<Message>, limit: int)
    ensures ValidRun(q, Enqueues(ms), limit) && Final(q, Enqueues(ms), limit).enqueued == q.enqueued + ms
    ensures OnlyEnqueues(Enqueues(ms))
    decreases |ms|
  {
    hide Tagged, Wrap;
    if ms == [] {
      assert q.enqueued + [] == q.enqueued;
    } else {
      var r := Step(q, Enqueue(ms[0]), limit);
      AlwaysAccepts(r, ms[1..], limit);
      assert Enqueues(ms)[1..] == Enqueues(ms[1..]);
      assert q.enqueued + ms == (q.enqueued + [ms[0]]) + ms[1..];
    }
  }

  /** What the event thread does from any point to shut down: send the batch it has, stop, drain. */
  function ShutDown(q: Queue): seq<Action>
  {
    seq(|q.batch|, _ => SendNext) + [Stop] + seq(|q.out|, _ => DrainNext)
  }

  lemma {:induction false} Drains(q: Queue, limit: int)
    requires q.stopping && q.batch == []
    ensures var run := seq(|q.out|, _ => DrainNext); ValidRun(q, run, limit) && Final(q, run, limit).out == []
    decreases |q.out|
  {
    hide Tagged;
    var run := seq(|q.out|, _ => DrainNext);
    if q.out != [] {
      var r := Step(q, DrainNext, limit);
      assert run[1..] == seq(|r.out|, _ => DrainNext);
      Drains(r, limit);
    }
  }

  /** Shutting down is always possible and leaves nothing queued or half sent. */
  lemma {:induction false} ShutsDown(q: Queue, limit: int)
    ensures ValidRun(q, ShutDown(q), limit)
    ensures var r := Final(q, ShutDown(q), limit); r.out == [] && r.batch == [] && r.stopping
    decreases |q.batch|
  {
    hide Tagged, Wrap;
    var run := ShutDown(q);
    if q.batch == [] {
      var r := Step(q, Stop, limit);
      Drains(r, limit);
      assert run == [Stop] + seq(|q.out|, _ => DrainNext);
      assert run[1..] == seq(|r.out|, _ => DrainNext);
      StaysStopped(r, run[1..], limit);
    } else {
      var r := Step(q, SendNext, limit);
      assert seq(|q.batch|, _ => SendNext) == [SendNext] + seq(|r.batch|, _ => SendNext);
      assert run == [SendNext] + ShutDown(r);
      assert run[1..] == ShutDown(r);
      ShutsDown(r, limit);
    }
  }

  lemma {:induction false} StaysStopped(q: Queue, run: seq<Action>, limit: int)
    requires ValidRun(q, run, limit) && q.stopping && q.batch == []
    ensures Final(q, run, limit).stopping && Final(q, run, limit).batch == []
    decreases |run|
  {
    hide Tagged, Wrap;
    if run != [] {
      StaysStopped(Step(q, run[0], limit), run[1..], limit);
    }
  }

  // ---------------------------------------------------------------------------- the plugin

  lemma {:induction false} NothingLeft(q: Queue, fate: Fate)
    ensures Leave(q, 0, fate) == q
  {
    assert q.out[0..] == q.out && Tagged(q.out[..0], fate) == [];
    assert q.left + [] == q.left;
  }

  lemma {:induction false} LeaveOneMore(q: Queue, n: nat, fate: Fate)
    requires n < |q.out|
    ensures var r := Leave(q, n, fate);
            Leave(q, n + 1, fate) == r.(out := r.out[1..], left := r.left + [(r.out[0], fate)])
  {
    hide Tagged;
    TaggedSnoc(q.out, n, fate);
    assert q.out[n..][1..] == q.out[n + 1..] && q.out[n..][0] == q.out[n];
    assert q.left + (Tagged(q.out[..n], fate) + [(q.out[n], fate)]) == (q.left + Tagged(q.out[..n], fate)) + [(q.out[n], fate)];
  }

  /** Everything in the batch sent. */
  function AllSent(q: Queue): Queue
    decreases |q.batch|
  {
    if q.batch == [] then q else AllSent(OneSent(q))
  }

  class Sender {
    const limit: int
    var out: seq<Message>
    var tag: nat
    var stopping: bool
    var batch: seq<Message>
    var next: nat
    ghost var enqueued: seq<Message>
    ghost var left: seq<(Message, Fate)>
    ghost var sent: seq<Delivery>

    ghost function Now(): Queue
      reads this
    {
      Queue(out, tag, stopping, batch, next, enqueued, left, sent)
    }

    constructor (limit: int)
      ensures this.limit == limit && Now() == INITIAL
    {
      this.limit := limit;
      out, tag, stopping, batch, next := [], 1, false, [], 0;
      enqueued, left, sent := [], [], [];
    }

    method Encqueue(m: Message)
      modifies this
      ensures Now() == Enqueued(old(Now()), m, limit)
    {
      if limit > 0 && |out| >= limit {
        left := left + [(out[0], Evicted)];
        assert Tagged(old(out)[..1], Evicted) == [(old(out)[0], Evicted)];
        out := out[1..];
      }
      out := out + [m];
      enqueued := enqueued + [m];
    }

    /** One message at a time moves from the queue to the batch until either credit or queue is used up. */
    method TakeBatch(credit: int)
      requires batch == []
      modifies this
      ensures Now() == BatchTaken(old(Now()), credit)
    {
      if stopping || credit <= 0 {
        return;
      }
      hide Wrap, Tagged;
      next := tag;
      while out != [] && |batch| < credit
        invariant |batch| <= credit && |batch| <= |old(out)| && batch == old(out)[..|batch|] && out == old(out)[|batch|..]
        invariant left == old(left) + Tagged(old(out)[..|batch|], Taken)
        invariant next == old(tag) == tag && sent == old(sent) && enqueued == old(enqueued) && !stopping
        decreases |out|
      {
        TaggedSnoc(old(out), |batch|, Taken);
        left := left + [(out[0], Taken)];
        batch := batch + [out[0]];
        out := out[1..];
      }
      tag := Wrap(tag + |batch|);
    }

    method SendOutMessages(credit: int) returns (count: nat)
      requires batch == []
      modifies this
      ensures Now() == AllSent(BatchTaken(old(Now()), credit))
      ensures count == |BatchTaken(old(Now()), credit).batch| && (count > 0 ==> count <= credit)
    {
      hide Wrap;
      TakeBatch(credit);
      ghost var taken := Now();
      count := 0;
      while batch != []
        invariant AllSent(Now()) == AllSent(taken) && count + |batch| == |taken.batch|
        decreases |batch|
      {
        next := Wrap(next + 1);
        sent := sent + [Delivery(next, batch[0])];
        batch := batch[1..];
        count := count + 1;
      }
    }

    /** What the event thread does with the queue after it was told to stop. */
    method Drain()
      modifies this
      ensures Now() == Leave(old(Now()), |old(out)|, Drained)
    {
      hide Tagged;
      ghost var n, all, before := 0, out, Now();
      NothingLeft(before, Drained);
      while out != []
        invariant n <= |all|
        invariant Now() == Leave(before, n, Drained)
        decreases |out|
      {
        LeaveOneMore(before, n, Drained);
        left := left + [(out[0], Drained)];
        out := out[1..];
        n := n + 1;
      }
    }
  }
}
