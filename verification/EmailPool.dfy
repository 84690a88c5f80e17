/** The connection pool of the email plugin: one connector thread reserves a collector, accepts a
    connection and queues it; collector threads serve queued connections and give the reservation back. */
module EmailPool {
  import opened Common

  type ConnId = nat

  /** Where the connector is in its loop. A failed `accept` ends the thread with its reservation. */
  datatype Connector = Waiting | Reserved | Holding(conn: ConnId) | Exited

  /** `leaked` counts reservations dropped after a failed allocation or `fdopen`; `arrived` and `served`
      are history: connections in the order they were queued and in the order they were taken. */
  datatype Pool = Pool(
    available: nat, connector: Connector, queue: seq<ConnId>, busy: map<nat, ConnId>,
    leaked: nat, arrived: seq<ConnId>, served: seq<ConnId>)

  datatype Action =
    | Reserve
    | Accept(conn: ConnId)
    | AcceptFails
    | SetUpFails
    | Submit
    | Take(collector: nat)
    | Finish(collector: nat)

  function Start(maxConns: nat): Pool
  {
    Pool(maxConns, Waiting, [], map[], 0, [], [])
  }

  /** `created` are the collector threads that could be started. */
  predicate Enabled(p: Pool, a: Action, created: set<nat>)
  {
    match a
    case Reserve => p.connector.Waiting? && p.available > 0
    case Accept(_) => p.connector.Reserved?
    case AcceptFails => p.connector.Reserved?
    case SetUpFails => p.connector.Reserved?
    case Submit => p.connector.Holding?
    case Take(i) => i in created && i !in p.busy && p.queue != []
    case Finish(i) => i in p.busy
  }

  function Step(p: Pool, a: Action, created: set<nat>): Pool
    requires Enabled(p, a, created)
  {
    match a
    case Reserve => p.(available := p.available - 1, connector := Reserved)
    case Accept(c) => p.(connector := Holding(c))
    case AcceptFails => p.(connector := Exited)
    case SetUpFails => p.(connector := Waiting, leaked := p.leaked + 1)
    case Submit =>
      p.(connector := Waiting, queue := p.queue + [p.connector.conn], arrived := p.arrived + [p.connector.conn])
    case Take(i) =>
      p.(queue := p.queue[1..], busy := p.busy[i := p.queue[0]], served := p.served + [p.queue[0]])
    case Finish(i) => p.(busy := p.busy - {i}, available := p.available + 1)
  }

  function Held(c: Connector): nat { if c.Waiting? then 0 else 1 }

  ghost predicate Inv(p: Pool, maxConns: nat, created: set<nat>)
  {
    // conservation: every collector is free, reserved, waited for, at work, or lost
    && p.available + Held(p.connector) + |p.queue| + |p.busy| + p.leaked == maxConns
    // first come, first served
    && p.arrived == p.served + p.queue
    && p.busy.Keys <= created
  }

  lemma {:induction false} StepInv(p: Pool, a: Action, maxConns: nat, created: set<nat>)
    requires Inv(p, maxConns, created) && Enabled(p, a, created)
    ensures Inv(Step(p, a, created), maxConns, created)
  {
    match a
    case Take(i) =>
      var r := Step(p, a, created);
      assert r.busy.Keys == p.busy.Keys + {i};
      assert p.queue == [p.queue[0]] + p.queue[1..];
    case Finish(i) =>
      var r := Step(p, a, created);
      assert p.busy.Keys == r.busy.Keys + {i};
    case _ =>
  }

  ghost predicate ValidRun(p: Pool, run: seq<Action>, created: set<nat>)
    decreases |run|
  {
    run != [] ==> Enabled(p, run[0], created) && ValidRun(Step(p, run[0], created), run[1..], created)
  }

  ghost function Final(p: Pool, run: seq<Action>, created: set<nat>): Pool
    requires ValidRun(p, run, created)
    decreases |run|
  {
    if run == [] then p else Final(Step(p, run[0], created), run[1..], created)
  }

  /** Reservations dropped in a run. */
  function Failures(run: seq<Action>): nat
  {
    if run == [] then 0 else (if run[0].SetUpFails? then 1 else 0) + Failures(run[1..])
  }

  lemma {:induction false} RunInv(p: Pool, run: seq<Action>, maxConns: nat, created: set<nat>)
    requires Inv(p, maxConns, created) && ValidRun(p, run, created)
    ensures Inv(Final(p, run, created), maxConns, created)
    ensures Final(p, run, created).leaked == p.leaked + Failures(run)
    decreases |run|
  {
    hide Inv;
    if run != [] {
      StepInv(p, run[0], maxConns, created);
      RunInv(Step(p, run[0], created), run[1..], maxConns, created);
    }
  }

  /** The collectors without a connection. */
  ghost function Idle(p: Pool, created: set<nat>): set<nat> { created - p.busy.Keys }

  /** In every run: the four places add up to the limit minus the allocations and `fdopen`s that failed;
      connections are served in arrival order; and when all threads could be created, there is an idle
      collector for every queued connection. */
  lemma {:induction false} EveryRun(run: seq<Action>, maxConns: nat, created: set<nat>)
    requires ValidRun(Start(maxConns), run, created)
    ensures var p := Final(Start(maxConns), run, created);
            var total := p.available + Held(p.connector) + |p.queue| + |p.busy|;
            && total + Failures(run) == maxConns
            && p.served <= p.arrived && p.queue == p.arrived[|p.served|..]
            && (|created| == maxConns ==> |p.queue| <= |Idle(p, created)|)
  {
    assert Inv(Start(maxConns), maxConns, created);
    RunInv(Start(maxConns), run, maxConns, created);
    var p := Final(Start(maxConns), run, created);
    assert created == Idle(p, created) + p.busy.Keys;
    assert |created| == |Idle(p, created)| + |p.busy.Keys|;
    assert |p.busy.Keys| == |p.busy|;
  }

  /** After as many failed set-ups as there are collectors the connector waits for ever. */
  lemma {:induction false} AllLeaked(p: Pool, maxConns: nat, created: set<nat>, run: seq<Action>)
    requires Inv(p, maxConns, created) && p.leaked == maxConns && ValidRun(p, run, created)
    ensures run == []
  {
    assert |p.busy.Keys| == |p.busy|;
    assert p.busy.Keys == {};
  }

  /** One failed set-up after the other. */
  function FailingRun(n: nat): seq<Action>
  {
    if n == 0 then [] else [Reserve, SetUpFails] + FailingRun(n - 1)
  }

  /** Every pool gets there: as many failed set-ups as there are free collectors lose them all. */
  lemma {:induction false} LosesAll(p: Pool, created: set<nat>)
    requires p.connector.Waiting?
    ensures ValidRun(p, FailingRun(p.available), created)
    ensures Final(p, FailingRun(p.available), created) == p.(available := 0, leaked := p.leaked + p.available)
    decreases p.available
  {
    if p.available > 0 {
      var run, rest := FailingRun(p.available), FailingRun(p.available - 1);
      var q := Step(p, Reserve, created);
      var r := Step(q, SetUpFails, created);
      LosesAll(r, created);
      assert run[1..] == [SetUpFails] + rest && run[1..][1..] == rest;
      assert ValidRun(q, run[1..], created);
    }
  }

  /** A fresh pool of any size can end with every collector lost, and then nothing can happen. */
  lemma {:induction false} LostForGood(maxConns: nat, created: set<nat>, more: seq<Action>)
    ensures ValidRun(Start(maxConns), FailingRun(maxConns), created)
    ensures var p := Final(Start(maxConns), FailingRun(maxConns), created);
            p.leaked == maxConns && (ValidRun(p, more, created) ==> more == [])
  {
    LosesAll(Start(maxConns), created);
    var p := Final(Start(maxConns), FailingRun(maxConns), created);
    assert Inv(Start(maxConns), maxConns, created);
    RunInv(Start(maxConns), FailingRun(maxConns), maxConns, created);
    if ValidRun(p, more, created) {
      AllLeaked(p, maxConns, created, more);
    }
  }

  // --------------------------------------------------------------------- the linked queue

  class Node {
    const socket: ConnId
    var next: Node?

    constructor (socket: ConnId)
      ensures this.socket == socket && next == null
    {
      this.socket, next := socket, null;
    }
  }

  function Sockets(nodes: seq<Node>): (r: seq<ConnId>)
    ensures |r| == |nodes|
  {
    seq(|nodes|, i requires 0 <= i < |nodes| => nodes[i].socket)
  }

  /** `conn_list_t`: a singly linked list with head and tail. */
  class ConnList {
    var head: Node?
    var tail: Node?
    ghost var nodes: seq<Node>

    ghost predicate Valid()
      reads this, nodes
    {
      && (forall i, j :: 0 <= i < j < |nodes| ==> nodes[i] != nodes[j])
      && (forall i :: 0 <= i < |nodes| - 1 ==> nodes[i].next == nodes[i + 1])
      && (if nodes == [] then head == null && tail == null
          else head == nodes[0] && tail == nodes[|nodes| - 1] && nodes[|nodes| - 1].next == null)
    }

    ghost function Contents(): seq<ConnId>
      reads this
    {
      Sockets(nodes)
    }

    constructor ()
      ensures Valid() && Contents() == [] && nodes == []
    {
      head, tail, nodes := null, null, [];
    }

    /** The connector's part: append at the tail. */
    method Append(socket: ConnId)
      requires Valid()
      modifies this, nodes
      ensures Valid() && Contents() == old(Contents()) + [socket]
      ensures |nodes| == |old(nodes)| + 1 && nodes[..|nodes| - 1] == old(nodes) && fresh(nodes[|nodes| - 1])
    {
      var node := new Node(socket);
      if head == null {
        head := node;
        tail := node;
      } else {
        tail.next := node;
        tail := tail.next;
      }
      nodes := nodes + [node];
      assert Sockets(nodes) == Sockets(old(nodes)) + [socket];
    }

    /** A collector's part: take the head; an emptied list forgets its tail. */
    method Take() returns (socket: ConnId)
      requires Valid() && Contents() != []
      modifies this
      ensures Valid() && old(Contents()) == [socket] + Contents()
      ensures nodes == old(nodes)[1..]
    {
      assert nodes == [nodes[0]] + nodes[1..];
      assert Sockets(nodes) == [nodes[0].socket] + Sockets(nodes[1..]);
      assert |nodes| > 1 ==> nodes[0].next == nodes[0 + 1];
      socket := head.socket;
      head := head.next;
      if head == null {
        tail := null;
      }
      nodes := nodes[1..];
      assert forall i :: 0 <= i < |nodes| ==> nodes[i] == old(nodes)[i + 1];
    }
  }
}
