/** The connectivity plugin: a netlink thread records link states, a dequeue thread sends notifications.
    Every critical section of the data lock is one step. */
module Connectivity {
  import opened Common

  datatype Status = Down | Up | Unknown

  /** An entry of the interface list. */
  datatype Interface = Interface(name: string, status: Status, prev: Status, sent: bool)

  /** What happened so far: observed transitions, dispatched notifications, restarts of the netlink thread. */
  datatype Event =
    | Changed(name: string, was: Status, now: Status)
    | Notified(name: string, was: Status, now: Status)
    | Restarted

  datatype State = State(list: seq<Interface>, statusesToSend: bool, log: seq<Event>)

  const INITIAL := State([], false, [])

  predicate Pending(il: Interface)
  {
    il.status != il.prev && !il.sent
  }

  function Find(list: seq<Interface>, name: string): nat
  {
    FindBy(list, (il: Interface) => il.name, name)
  }

  /** `connectivity_link_state` on an entry of the list. */
  function Observe(s: State, k: nat, status: Status): State
    requires k < |s.list|
  {
    var il := s.list[k];
    if status == il.status then s
    else State(s.list[k := Interface(il.name, status, il.status, false)], true,
               s.log + [Changed(il.name, il.status, status)])
  }

  /** `connectivity_link_state` for a monitored interface; new ones are added at the front. */
  function LinkState(s: State, name: string, running: bool): State
  {
    var k := Find(s.list, name);
    var status := if running then Up else Down;
    if k < |s.list| then Observe(s, k, status)
    else Observe(s.(list := [Interface(name, Unknown, Unknown, false)] + s.list), 0, status)
  }

  function Sent(il: Interface): Interface
  {
    if Pending(il) then il.(sent := true) else il
  }

  /** The log after `send_interface_status` has gone through a list. */
  function PassLog(log: seq<Event>, list: seq<Interface>): seq<Event>
  {
    if list == [] then log
    else var n := |list| - 1;
         PassLog(log, list[..n]) + (if Pending(list[n]) then [Notified(list[n].name, list[n].prev, list[n].status)] else [])
  }

  /** `send_interface_status`. */
  function Pass(s: State): State
  {
    State(seq(|s.list|, i requires 0 <= i < |s.list| => Sent(s.list[i])), false, PassLog(s.log, s.list))
  }

  function Forgotten(il: Interface): Interface
  {
    Interface(il.name, Unknown, Unknown, false)
  }

  /** The restart in `connectivity_read`; the flag keeps its value. */
  function Restart(s: State): State
  {
    State(seq(|s.list|, i requires 0 <= i < |s.list| => Forgotten(s.list[i])), s.statusesToSend, s.log + [Restarted])
  }

  /** A link message (of an interface the ignorelist lets through), a pass of the dequeue thread, a restart. */
  datatype Action = Message(name: string, running: bool) | Dequeue | Reset

  function Step(s: State, a: Action): State
  {
    match a
    case Message(name, running) => LinkState(s, name, running)
    case Dequeue => Pass(s)
    case Reset => Restart(s)
  }

  function Run(run: seq<Action>): State
  {
    if run == [] then INITIAL else Step(Run(run[..|run| - 1]), run[|run| - 1])
  }

  // ------------------------------------------------------------------------- invariant

  predicate Concerns(e: Event, name: string)
  {
    e.Restarted? || e.name == name
  }

  /** The last thing that happened to an interface. */
  function Last(log: seq<Event>, name: string): Option<Event>
  {
    if log == [] then None
    else var n := |log| - 1;
         if Concerns(log[n], name) then Some(log[n]) else Last(log[..n], name)
  }

  function Known(last: Option<Event>): Status
  {
    if last.None? || last.value.Restarted? then Unknown else last.value.now
  }

  /** An event may follow a log: a change continues from the known status; a notification reports the
      transition that is the very last thing that happened to the interface. */
  predicate Justified(log: seq<Event>, e: Event)
  {
    match e
    case Changed(name, was, now) => was == Known(Last(log, name)) && was != now && now != Unknown
    case Notified(name, was, now) => Last(log, name) == Some(Changed(name, was, now)) && was != now
    case Restarted => true
  }

  predicate WellFormed(log: seq<Event>)
  {
    log == [] || (WellFormed(log[..|log| - 1]) && Justified(log[..|log| - 1], log[|log| - 1]))
  }

  /** An entry says exactly what the last event about it was. */
  predicate Reflects(il: Interface, last: Option<Event>)
  {
    if last.None? || last.value.Restarted? then il == Forgotten(il)
    else il == Interface(last.value.name, last.value.now, last.value.was, last.value.Notified?)
  }

  ghost predicate Inv(s: State)
  {
    && WellFormed(s.log)
    && (forall i, j :: 0 <= i < j < |s.list| ==> s.list[i].name != s.list[j].name)
    && (forall i :: 0 <= i < |s.list| ==> Reflects(s.list[i], Last(s.log, s.list[i].name)))
    && (forall name :: Find(s.list, name) == |s.list| ==> Known(Last(s.log, name)) == Unknown)
    && ((exists i :: 0 <= i < |s.list| && Pending(s.list[i])) ==> s.statusesToSend)
  }

  lemma {:induction false} LastSnoc(log: seq<Event>, e: Event, name: string)
    ensures Last(log + [e], name) == if Concerns(e, name) then Some(e) else Last(log, name)
    ensures WellFormed(log + [e]) <==> WellFormed(log) && Justified(log, e)
  {
    assert (log + [e])[..|log|] == log;
  }

  /** A justified transition is always a real one. */
  lemma {:induction false} RealTransition(log: seq<Event>, name: string)
    requires WellFormed(log)
    ensures var e := Last(log, name); e.Some? && !e.value.Restarted? ==>
              && e.value.name == name && e.value.was != e.value.now && e.value.now != Unknown
  {
    if log != [] {
      RealTransition(log[..|log| - 1], name);
      if log[|log| - 1].Notified? {
        RealTransition(log[..|log| - 1], log[|log| - 1].name);
      }
    }
  }

  lemma {:induction false} ObserveInv(s: State, k: nat, status: Status)
    requires Inv(s) && k < |s.list| && status != Unknown
    ensures Inv(Observe(s, k, status))
    ensures forall name :: Find(s.list, name) == Find(Observe(s, k, status).list, name)
  {
    hide Last, WellFormed;
    var il, r := s.list[k], Observe(s, k, status);
    forall name ensures Find(s.list, name) == Find(r.list, name) {
      FindUnique(s.list, r.list, name);
    }
    if status != il.status {
      var e := Changed(il.name, il.status, status);
      forall name ensures Last(r.log, name) == if name == il.name then Some(e) else Last(s.log, name) {
        LastSnoc(s.log, e, name);
      }
      LastSnoc(s.log, e, il.name);
    }
  }

  lemma {:induction false} FindUnique(a: seq<Interface>, b: seq<Interface>, name: string)
    requires |a| == |b| && forall i :: 0 <= i < |a| ==> a[i].name == b[i].name
    ensures Find(a, name) == Find(b, name)
  {
    hide FindBy;
    var i, j := Find(a, name), Find(b, name);
    assert i < |a| ==> a[i].name == b[i].name;
    assert j < |b| ==> a[j].name == b[j].name;
  }

  lemma {:induction false} AddInv(s: State, name: string)
    requires Inv(s) && Find(s.list, name) == |s.list|
    ensures Inv(s.(list := [Interface(name, Unknown, Unknown, false)] + s.list))
  {
    hide Last, WellFormed;
    var il := Interface(name, Unknown, Unknown, false);
    var r := s.(list := [il] + s.list);
    assert Reflects(il, Last(s.log, name)) by {
      RealTransition(s.log, name);
    }
    forall other | Find(r.list, other) == |r.list| ensures Find(s.list, other) == |s.list| {
      assert r.list[0].name != other;
      assert r.list[1..] == s.list;
    }
    forall i | 0 <= i < |r.list| && Pending(r.list[i]) ensures s.statusesToSend {
      assert i > 0 && r.list[i] == s.list[i - 1];
    }
  }

  /** A pass touches the pending entries, each once. */
  lemma {:induction false} PassLast(log: seq<Event>, list: seq<Interface>, name: string)
    requires forall i, j :: 0 <= i < j < |list| ==> list[i].name != list[j].name
    ensures var k := Find(list, name);
            Last(PassLog(log, list), name) ==
              if k < |list| && Pending(list[k]) then Some(Notified(name, list[k].prev, list[k].status))
              else Last(log, name)
  {
    hide Last;
    if list != [] {
      var n := |list| - 1;
      PassLast(log, list[..n], name);
      var k, m := Find(list, name), Find(list[..n], name);
      assert m < n ==> list[..n][m] == list[m];
      assert k < n ==> list[..n][k] == list[k];
      assert m == if k < n then k else n;
      if Pending(list[n]) {
        LastSnoc(PassLog(log, list[..n]), Notified(list[n].name, list[n].prev, list[n].status), name);
      }
      assert PassLog(log, list[..n]) + [] == PassLog(log, list[..n]);
    }
  }

  lemma {:induction false} PassWellFormed(log: seq<Event>, list: seq<Interface>)
    requires WellFormed(log)
    requires forall i, j :: 0 <= i < j < |list| ==> list[i].name != list[j].name
    requires forall i :: 0 <= i < |list| ==> Reflects(list[i], Last(log, list[i].name))
    ensures WellFormed(PassLog(log, list))
  {
    hide Last, WellFormed;
    if list != [] {
      var n, il := |list| - 1, list[|list| - 1];
      PassWellFormed(log, list[..n]);
      var before := PassLog(log, list[..n]);
      if Pending(il) {
        PassLast(log, list[..n], il.name);
        RealTransition(log, il.name);
        assert Find(list[..n], il.name) == n;
        LastSnoc(before, Notified(il.name, il.prev, il.status), il.name);
      }
      assert before + [] == before;
    }
  }

  /** One entry after a pass. */
  lemma {:induction false} PassEntry(s: State, i: nat)
    requires Inv(s) && i < |s.list|
    ensures var il, last := Pass(s).list[i], Last(Pass(s).log, s.list[i].name);
            && il.name == s.list[i].name && Reflects(il, last) && !Pending(il)
            && (il.status != Unknown ==> last == Some(Notified(il.name, il.prev, il.status)))
  {
    hide Last, WellFormed, PassLog;
    PassLast(s.log, s.list, s.list[i].name);
    RealTransition(s.log, s.list[i].name);
    assert Find(s.list, s.list[i].name) == i;
  }

  /** After a pass nothing is pending, the flag is clear, and every interface with a known status was last notified
      with it. */
  lemma {:induction false} PassInv(s: State)
    requires Inv(s)
    ensures Inv(Pass(s)) && !Pass(s).statusesToSend
    ensures var r := Pass(s);
            forall i :: 0 <= i < |r.list| ==>
              && !Pending(r.list[i])
              && (r.list[i].status != Unknown ==>
                   Last(r.log, r.list[i].name) == Some(Notified(r.list[i].name, r.list[i].prev, r.list[i].status)))
  {
    hide Last, WellFormed, PassLog, Reflects, Pending, FindBy, Sent;
    var r := Pass(s);
    PassWellFormed(s.log, s.list);
    forall i | 0 <= i < |r.list|
      ensures r.list[i].name == s.list[i].name && Reflects(r.list[i], Last(r.log, r.list[i].name)) && !Pending(r.list[i])
      ensures r.list[i].status != Unknown ==>
                Last(r.log, r.list[i].name) == Some(Notified(r.list[i].name, r.list[i].prev, r.list[i].status))
    {
      PassEntry(s, i);
    }
    forall name | Find(r.list, name) == |r.list| ensures Known(Last(r.log, name)) == Unknown {
      FindUnique(s.list, r.list, name);
      PassLast(s.log, s.list, name);
    }
  }

  lemma {:induction false} RestartInv(s: State)
    requires Inv(s)
    ensures Inv(Restart(s))
  {
    hide Last, WellFormed;
    var r := Restart(s);
    forall name ensures Last(r.log, name) == Some(Restarted) {
      LastSnoc(s.log, Restarted, name);
    }
    LastSnoc(s.log, Restarted, "");
  }

  lemma {:induction false} StepInv(s: State, a: Action)
    requires Inv(s)
    ensures Inv(Step(s, a))
  {
    hide Inv, Observe, Pass, Restart, FindBy;
    match a
    case Message(name, running) =>
      var k := Find(s.list, name);
      if k < |s.list| {
        ObserveInv(s, k, if running then Up else Down);
      } else {
        AddInv(s, name);
        ObserveInv(s.(list := [Interface(name, Unknown, Unknown, false)] + s.list), 0, if running then Up else Down);
      }
    case Dequeue => PassInv(s);
    case Reset => RestartInv(s);
  }

  lemma {:induction false} RunInv(run: seq<Action>)
    ensures Inv(Run(run))
  {
    if run == [] {
      assert forall name :: Last([], name) == None;
    } else {
      hide Inv, Step;
      RunInv(run[..|run| - 1]);
      StepInv(Run(run[..|run| - 1]), run[|run| - 1]);
    }
  }

  // -------------------------------------------------------------------------- meaning

  /** The state of a link according to the messages alone: the last one since the last restart. */
  function Current(run: seq<Action>, name: string): Status
  {
    if run == [] then Unknown
    else match run[|run| - 1]
         case Message(n, running) => if n == name then (if running then Up else Down) else Current(run[..|run| - 1], name)
         case Dequeue => Current(run[..|run| - 1], name)
         case Reset => Unknown
  }

  /** The status an interface list has for a name. */
  function Listed(list: seq<Interface>, name: string): Status
  {
    var k := Find(list, name);
    if k < |list| then list[k].status else Unknown
  }

  lemma {:induction false} MessageListed(s: State, n: string, running: bool, name: string)
    ensures Listed(LinkState(s, n, running).list, name) ==
              if n == name then (if running then Up else Down) else Listed(s.list, name)
  {
    var k, r := Find(s.list, n), LinkState(s, n, running);
    if k < |s.list| {
      FindUnique(s.list, r.list, name);
    } else {
      assert r.list[1..] == s.list;
    }
  }

  lemma {:induction false} StepListed(s: State, a: Action, name: string)
    ensures Listed(Step(s, a).list, name) ==
              match a
              case Message(n, running) => if n == name then (if running then Up else Down) else Listed(s.list, name)
              case Dequeue => Listed(s.list, name)
              case Reset => Unknown
  {
    hide PassLog, LinkState, FindBy;
    match a
    case Message(n, running) => MessageListed(s, n, running, name);
    case Dequeue => FindUnique(s.list, Pass(s).list, name);
    case Reset => FindUnique(s.list, Restart(s).list, name);
  }

  lemma {:induction false} RunListed(run: seq<Action>, name: string)
    ensures Listed(Run(run).list, name) == Current(run, name)
  {
    if run != [] {
      hide Step, Listed;
      RunListed(run[..|run| - 1], name);
      StepListed(Run(run[..|run| - 1]), run[|run| - 1], name);
    }
    assert Listed([], name) == Unknown;
  }

  /** In every interleaving: a change that is not yet notified keeps the dequeue thread from waiting. */
  lemma {:induction false} NoLostChange(run: seq<Action>, name: string)
    ensures var s := Run(run); var last := Last(s.log, name);
            && Known(last) == Current(run, name)
            && (last.Some? && last.value.Changed? ==> s.statusesToSend)
  {
    hide Last;
    RunInv(run);
    RunListed(run, name);
    var s := Run(run);
    RealTransition(s.log, name);
    assert Find(s.list, name) < |s.list| ==> Reflects(s.list[Find(s.list, name)], Last(s.log, name));
  }

  /** After every pass an interface whose status is known was last notified with its current status. */
  lemma {:induction false} UpToDate(run: seq<Action>, name: string)
    requires Current(run, name) != Unknown
    ensures var last := Last(Run(run + [Dequeue]).log, name);
            && last.Some? && last.value.Notified? && last.value.now == Current(run, name)
            && !Run(run + [Dequeue]).statusesToSend
  {
    hide Last, Inv, Current, Pass;
    RunInv(run);
    RunListed(run, name);
    assert (run + [Dequeue])[..|run|] == run;
    var s := Run(run);
    PassInv(s);
    StepListed(s, Dequeue, name);
    var r := Pass(s);
    var k := Find(r.list, name);
    assert Listed(r.list, name) == r.list[k].status;
  }

  /** Position of the last event about an interface. */
  lemma {:induction false} LastPosition(log: seq<Event>, name: string) returns (k: nat)
    requires Last(log, name).Some?
    ensures k < |log| && log[k] == Last(log, name).value
    ensures forall i :: k < i < |log| ==> !Concerns(log[i], name)
  {
    var n := |log| - 1;
    if Concerns(log[n], name) {
      k := n;
    } else {
      k := LastPosition(log[..n], name);
    }
  }

  lemma {:induction false} JustifiedAt(log: seq<Event>, k: nat)
    requires WellFormed(log) && k < |log|
    ensures Justified(log[..k], log[k])
  {
    hide Justified;
    if k < |log| - 1 {
      JustifiedAt(log[..|log| - 1], k);
      assert log[..|log| - 1][..k] == log[..k];
    }
  }

  /** Every notification of every run reports a transition observed before it, with nothing else about the
      interface in between; so the transition is the latest one, and is not notified twice. */
  lemma {:induction false} NotifiedOnce(run: seq<Action>, j: nat) returns (k: nat)
    requires j < |Run(run).log| && Run(run).log[j].Notified?
    ensures var log := Run(run).log;
            && k < j && log[k] == Changed(log[j].name, log[j].was, log[j].now) && log[j].was != log[j].now
            && forall i :: k < i < j ==> !Concerns(log[i], log[j].name)
  {
    hide Last;
    RunInv(run);
    var log := Run(run).log;
    JustifiedAt(log, j);
    k := LastPosition(log[..j], log[j].name);
    forall i | k < i < j ensures !Concerns(log[i], log[j].name) {
      assert log[..j][i] == log[i];
    }
  }

  // -------------------------------------------------------------------------- the plugin

  class Monitor {
    var list: seq<Interface>
    var statusesToSend: bool
    ghost var log: seq<Event>

    ghost function Now(): State
      reads this
    {
      State(list, statusesToSend, log)
    }

    constructor ()
      ensures Now() == INITIAL
    {
      list, statusesToSend, log := [], false, [];
    }

    /** `connectivity_link_state`; `ignored` is the answer of the ignorelist. */
    method HandleMessage(name: string, running: bool, ignored: bool)
      modifies this
      ensures Now() == if ignored then old(Now()) else Step(old(Now()), Message(name, running))
    {
      if ignored {
        return;
      }
      var k := 0;
      while k < |list| && list[k].name != name
        invariant 0 <= k <= Find(list, name)
      {
        k := k + 1;
      }
      if k == |list| {
        list := [Interface(name, Unknown, Unknown, false)] + list;
        k := 0;
      }
      var il := list[k];
      var status := if running then Up else Down;
      list := list[k := il.(status := status)];
      if status != il.status {
        list := list[k := list[k].(prev := il.status, sent := false)];
        statusesToSend := true;
        log := log + [Changed(il.name, il.status, status)];
      }
    }

    /** `send_interface_status`. */
    method SendInterfaceStatus()
      modifies this
      ensures Now() == Step(old(Now()), Dequeue)
    {
      var k := 0;
      while k < |list|
        invariant 0 <= k <= |list| == |old(list)|
        invariant forall i :: 0 <= i < |list| ==> list[i] == if i < k then Sent(old(list)[i]) else old(list)[i]
        invariant log == PassLog(old(log), old(list)[..k])
      {
        assert old(list)[..k + 1][..k] == old(list)[..k];
        if list[k].status != list[k].prev && !list[k].sent {
          log := log + [Notified(list[k].name, list[k].prev, list[k].status)];
          list := list[k := list[k].(sent := true)];
        }
        k := k + 1;
      }
      assert old(list)[..k] == old(list);
      statusesToSend := false;
    }

    /** The reset loop of `connectivity_read`. */
    method ResetAll()
      modifies this
      ensures Now() == Step(old(Now()), Reset)
    {
      var k := 0;
      while k < |list|
        invariant 0 <= k <= |list| == |old(list)|
        invariant statusesToSend == old(statusesToSend) && log == old(log)
        invariant forall i :: 0 <= i < |list| ==> list[i] == if i < k then Forgotten(old(list)[i]) else old(list)[i]
      {
        list := list[k := list[k].(status := Unknown, prev := Unknown, sent := false)];
        k := k + 1;
      }
      log := log + [Restarted];
    }
  }
}
