/** Event groups of the intel_pmu plugin: building the event list from the configuration and choosing the
    group leader every event is opened with. */
module IntelPmu {
  import opened Common

  /** What the event library says about a name: whether the event lives on several PMUs, on how many further
      ones, and whether enumerating them fails. */
  datatype Resolution = Unresolved | Resolved(multiPmu: bool, furtherPmus: nat, cloneFails: bool)

  datatype PerfEvent = PerfEvent(name: string, groupLeader: bool, inGroup: bool, endGroup: bool, clone: bool)

  /** An event and the position of the leader it is opened with. */
  datatype Opened = Opened(name: string, leader: Option<nat>)

  // ------------------------------------------------------------------------- the list

  function Plain(names: seq<string>): seq<PerfEvent>
  {
    seq(|names|, i requires 0 <= i < |names| => PerfEvent(names[i], false, false, false, false))
  }

  function Clones(name: string, count: nat): seq<PerfEvent>
  {
    seq(count, i => PerfEvent(name, false, false, false, true))
  }

  /** The events one entry adds, before the last one is marked; None when the entry is refused. */
  function EntryEvents(tokens: seq<string>, group: bool, resolve: string -> Resolution): Option<seq<PerfEvent>>
  {
    if tokens == [] then Some([])
    else
      var n := |tokens| - 1;
      var before, t, r := EntryEvents(tokens[..n], group, resolve), tokens[n], resolve(tokens[n]);
      if before.None? || r.Unresolved? then before
      else if r.multiPmu && (group || r.cloneFails) then None
      else Some(before.value + [PerfEvent(t, group && before.value == [], group, false, false)]
                + Clones(t, if r.multiPmu then r.furtherPmus else 0))
  }

  function Ended(events: seq<PerfEvent>, group: bool): seq<PerfEvent>
  {
    if group && events != [] then events[|events| - 1 := events[|events| - 1].(endGroup := true)] else events
  }

  predicate IsGroup(entry: string)
  {
    ',' in entry
  }

  /** `pmu_add_hw_events`. */
  function Build(entries: seq<string>, resolve: string -> Resolution): Option<seq<PerfEvent>>
  {
    if entries == [] then Some([])
    else
      var n := |entries| - 1;
      var before := Build(entries[..n], resolve);
      var here := EntryEvents(Tokens(entries[n], ','), IsGroup(entries[n]), resolve);
      if before.None? || here.None? then None else Some(before.value + Ended(here.value, IsGroup(entries[n])))
  }

  /** The `leader` variable of `pmu_setup_events` after some events. */
  function LeaderAfter(events: seq<PerfEvent>): Option<nat>
  {
    if events == [] then None
    else
      var n := |events| - 1;
      if events[n].endGroup then None else if events[n].groupLeader then Some(n) else LeaderAfter(events[..n])
  }

  /** Every event with the leader it is opened with. */
  function Setup(events: seq<PerfEvent>): seq<Opened>
  {
    seq(|events|, i requires 0 <= i < |events| => Opened(events[i].name, LeaderAfter(events[..i])))
  }

  // ------------------------------------------------------------------------ the reference

  /** The names of an entry that resolve. */
  function Names(tokens: seq<string>, resolve: string -> Resolution): seq<string>
  {
    if tokens == [] then []
    else
      var n := |tokens| - 1;
      Names(tokens[..n], resolve) + (if resolve(tokens[n]).Unresolved? then [] else [tokens[n]])
  }

  function Copies(name: string, count: nat): seq<Opened>
  {
    seq(count, i => Opened(name, None))
  }

  /** Plain entries: every resolved name once per PMU, all without a leader. */
  function Single(tokens: seq<string>, resolve: string -> Resolution): seq<Opened>
  {
    if tokens == [] then []
    else
      var n := |tokens| - 1;
      var r := resolve(tokens[n]);
      Single(tokens[..n], resolve)
      + Copies(tokens[n], if r.Unresolved? then 0 else if r.multiPmu then 1 + r.furtherPmus else 1)
  }

  /** Comma entries: the first resolved name without a leader, all others with the first as leader. */
  function Grouped(names: seq<string>, base: nat): seq<Opened>
  {
    seq(|names|, i requires 0 <= i < |names| => Opened(names[i], if i == 0 then None else Some(base)))
  }

  function ExpectedEntry(entry: string, resolve: string -> Resolution, base: nat): seq<Opened>
  {
    var tokens := Tokens(entry, ',');
    if ',' in entry then Grouped(Names(tokens, resolve), base) else Single(tokens, resolve)
  }

  function Expected(entries: seq<string>, resolve: string -> Resolution, base: nat): seq<Opened>
  {
    if entries == [] then []
    else
      var n := |entries| - 1;
      var before := Expected(entries[..n], resolve, base);
      before + ExpectedEntry(entries[n], resolve, base + |before|)
  }

  /** No multi-PMU event in a comma entry, no failing enumeration elsewhere. */
  ghost predicate Accepted(entry: string, resolve: string -> Resolution)
  {
    forall t :: t in Tokens(entry, ',') ==>
      var r := resolve(t); r.Resolved? && r.multiPmu ==> ',' !in entry && !r.cloneFails
  }

  // --------------------------------------------------------------------------- proofs

  lemma {:induction false} BuiltWhenAccepted(tokens: seq<string>, group: bool, resolve: string -> Resolution)
    ensures EntryEvents(tokens, group, resolve).Some? <==>
            forall t :: t in tokens ==> var r := resolve(t); r.Resolved? && r.multiPmu ==> !group && !r.cloneFails
  {
    if tokens != [] {
      var n := |tokens| - 1;
      BuiltWhenAccepted(tokens[..n], group, resolve);
      assert tokens == tokens[..n] + [tokens[n]];
    }
  }

  /** A comma entry becomes one bracketed run of events. */
  lemma {:induction false} GroupShape(tokens: seq<string>, resolve: string -> Resolution)
    requires EntryEvents(tokens, true, resolve).Some?
    ensures var es := EntryEvents(tokens, true, resolve).value; var names := Names(tokens, resolve);
            |es| == |names| && forall i :: 0 <= i < |es| ==> es[i] == PerfEvent(names[i], i == 0, true, false, false)
  {
    if tokens != [] {
      GroupShape(tokens[..|tokens| - 1], resolve);
    }
  }

  /** A plain entry sets no flag. */
  lemma {:induction false} SingleShape(tokens: seq<string>, resolve: string -> Resolution)
    requires EntryEvents(tokens, false, resolve).Some?
    ensures var es := EntryEvents(tokens, false, resolve).value; var ref := Single(tokens, resolve);
            |es| == |ref| && forall i :: 0 <= i < |es| ==>
              !es[i].groupLeader && !es[i].endGroup && !es[i].inGroup && ref[i] == Opened(es[i].name, None)
  {
    if tokens != [] {
      SingleShape(tokens[..|tokens| - 1], resolve);
    }
  }

  /** The names of the events that are not clones. */
  function Originals(events: seq<PerfEvent>): seq<string>
  {
    if events == [] then []
    else Originals(events[..|events| - 1]) + (if events[|events| - 1].clone then [] else [events[|events| - 1].name])
  }

  lemma {:induction false} OriginalsSnoc(a: seq<PerfEvent>, e: PerfEvent)
    ensures Originals(a + [e]) == Originals(a) + (if e.clone then [] else [e.name])
  {
    assert (a + [e])[..|a|] == a;
  }

  lemma {:induction false} OriginalsClones(a: seq<PerfEvent>, name: string, count: nat)
    ensures Originals(a + Clones(name, count)) == Originals(a)
  {
    if count == 0 {
      assert a + Clones(name, 0) == a;
    } else {
      OriginalsClones(a, name, count - 1);
      var more := Clones(name, count - 1);
      assert a + Clones(name, count) == (a + more) + [PerfEvent(name, false, false, false, true)];
      OriginalsSnoc(a + more, PerfEvent(name, false, false, false, true));
    }
  }

  /** Each resolved name of an entry is one event of its own; all others are marked as clones. */
  lemma {:induction false} OriginalsOnce(tokens: seq<string>, group: bool, resolve: string -> Resolution)
    requires EntryEvents(tokens, group, resolve).Some?
    ensures Originals(EntryEvents(tokens, group, resolve).value) == Names(tokens, resolve)
  {
    hide Clones, Originals;
    if tokens == [] {
      NoOriginals();
    } else {
      var n := |tokens| - 1;
      OriginalsOnce(tokens[..n], group, resolve);
      var before, r := EntryEvents(tokens[..n], group, resolve).value, resolve(tokens[n]);
      if r.Resolved? {
        var e := PerfEvent(tokens[n], group && before == [], group, false, false);
        OriginalsSnoc(before, e);
        OriginalsClones(before + [e], tokens[n], if r.multiPmu then r.furtherPmus else 0);
      }
    }
  }

  lemma {:induction false} NoOriginals()
    ensures Originals([]) == []
  {
  }

  /** The leader with which event `i` of `b` is opened when `b` follows `a`. */
  function Before(a: seq<PerfEvent>, b: seq<PerfEvent>, i: nat): Option<nat>
    requires i <= |b|
  {
    LeaderAfter((a + b)[..|a| + i])
  }

  lemma {:induction false} LeaderSnoc(a: seq<PerfEvent>, b: seq<PerfEvent>, i: nat)
    requires i < |b|
    ensures Before(a, b, i + 1) ==
              if b[i].endGroup then None else if b[i].groupLeader then Some(|a| + i) else Before(a, b, i)
  {
    var n := |a| + i;
    assert (a + b)[..n + 1][..n] == (a + b)[..n];
  }

  /** Events without flags leave the leader alone. */
  lemma {:induction false} NoFlags(a: seq<PerfEvent>, b: seq<PerfEvent>, i: nat)
    requires i <= |b| && forall j :: 0 <= j < |b| ==> !b[j].groupLeader && !b[j].endGroup
    ensures Before(a, b, i) == LeaderAfter(a)
  {
    if i == 0 {
      assert (a + b)[..|a|] == a;
    } else {
      NoFlags(a, b, i - 1);
      LeaderSnoc(a, b, i - 1);
    }
  }

  lemma {:induction false} InGroup(a: seq<PerfEvent>, b: seq<PerfEvent>, i: nat)
    requires 0 < i < |b| && forall j :: 0 <= j < |b| ==> b[j].groupLeader == (j == 0) && b[j].endGroup == (j == |b| - 1)
    ensures Before(a, b, i) == Some(|a|)
  {
    LeaderSnoc(a, b, i - 1);
    if i > 1 {
      InGroup(a, b, i - 1);
    }
  }

  lemma {:induction false} SetupAppend(a: seq<PerfEvent>, b: seq<PerfEvent>, ref: seq<Opened>)
    requires |b| == |ref|
    requires forall i :: 0 <= i < |b| ==> ref[i] == Opened(b[i].name, Before(a, b, i))
    ensures Setup(a + b) == Setup(a) + ref
  {
    hide LeaderAfter;
    forall i | 0 <= i < |a + b| ensures Setup(a + b)[i] == (Setup(a) + ref)[i] {
      if i < |a| {
        assert (a + b)[..i] == a[..i];
      } else {
        assert Before(a, b, i - |a|) == LeaderAfter((a + b)[..i]);
      }
    }
  }

  lemma {:induction false} BeforeEnds(a: seq<PerfEvent>, b: seq<PerfEvent>)
    ensures Before(a, b, 0) == LeaderAfter(a) && Before(a, b, |b|) == LeaderAfter(a + b)
  {
    assert (a + b)[..|a| + |b|] == a + b && (a + b)[..|a|] == a;
  }

  lemma {:induction false} AddSingle(a: seq<PerfEvent>, tokens: seq<string>, resolve: string -> Resolution)
    requires LeaderAfter(a) == None && EntryEvents(tokens, false, resolve).Some?
    ensures var b := EntryEvents(tokens, false, resolve).value;
            LeaderAfter(a + b) == None && Setup(a + b) == Setup(a) + Single(tokens, resolve)
  {
    hide Before, LeaderAfter, EntryEvents, Single, Setup;
    var b := EntryEvents(tokens, false, resolve).value;
    SingleShape(tokens, resolve);
    BeforeEnds(a, b);
    forall i | 0 <= i <= |b| ensures Before(a, b, i) == None {
      NoFlags(a, b, i);
    }
    SetupAppend(a, b, Single(tokens, resolve));
  }

  /** A bracketed run of events is opened as a group. */
  lemma {:induction false} Bracketed(a: seq<PerfEvent>, b: seq<PerfEvent>, names: seq<string>)
    requires LeaderAfter(a) == None && |b| == |names|
    requires forall i :: 0 <= i < |b| ==> b[i] == PerfEvent(names[i], i == 0, true, i == |b| - 1, false)
    ensures LeaderAfter(a + b) == None && Setup(a + b) == Setup(a) + Grouped(names, |a|)
  {
    hide Before, LeaderAfter, Setup;
    BeforeEnds(a, b);
    if |b| > 0 {
      LeaderSnoc(a, b, |b| - 1);
    }
    forall i | 0 < i < |b| ensures Before(a, b, i) == Some(|a|) {
      InGroup(a, b, i);
    }
    SetupAppend(a, b, Grouped(names, |a|));
  }

  lemma {:induction false} AddGroup(a: seq<PerfEvent>, tokens: seq<string>, resolve: string -> Resolution)
    requires LeaderAfter(a) == None && EntryEvents(tokens, true, resolve).Some?
    ensures var b := Ended(EntryEvents(tokens, true, resolve).value, true);
            LeaderAfter(a + b) == None && Setup(a + b) == Setup(a) + Grouped(Names(tokens, resolve), |a|)
  {
    hide LeaderAfter, EntryEvents, Names, Setup, Grouped;
    GroupShape(tokens, resolve);
    Bracketed(a, Ended(EntryEvents(tokens, true, resolve).value, true), Names(tokens, resolve));
  }

  lemma {:induction false} AddEntryEvents(a: seq<PerfEvent>, entry: string, resolve: string -> Resolution)
    requires LeaderAfter(a) == None && EntryEvents(Tokens(entry, ','), IsGroup(entry), resolve).Some?
    ensures var b := Ended(EntryEvents(Tokens(entry, ','), IsGroup(entry), resolve).value, IsGroup(entry));
            LeaderAfter(a + b) == None && Setup(a + b) == Setup(a) + ExpectedEntry(entry, resolve, |a|)
  {
    hide LeaderAfter, EntryEvents, Names, Setup, Grouped, Single, Tokens;
    if IsGroup(entry) {
      AddGroup(a, Tokens(entry, ','), resolve);
    } else {
      AddSingle(a, Tokens(entry, ','), resolve);
    }
  }

  lemma {:induction false} SetupLength(events: seq<PerfEvent>)
    ensures |Setup(events)| == |events|
  {
  }

  lemma {:induction false} BuildLeaders(entries: seq<string>, resolve: string -> Resolution, pre: seq<PerfEvent>)
    requires LeaderAfter(pre) == None && Build(entries, resolve).Some?
    ensures var all := pre + Build(entries, resolve).value;
            LeaderAfter(all) == None && Setup(all) == Setup(pre) + Expected(entries, resolve, |pre|)
  {
    hide LeaderAfter, EntryEvents, ExpectedEntry, Ended, Setup, Tokens;
    if entries == [] {
      assert pre + [] == pre && Setup(pre) + [] == Setup(pre);
    } else {
      var n := |entries| - 1;
      BuildLeaders(entries[..n], resolve, pre);
      var before, ref := Build(entries[..n], resolve).value, Expected(entries[..n], resolve, |pre|);
      SetupLength(pre + before);
      SetupLength(pre);
      AddEntryEvents(pre + before, entries[n], resolve);
      var here := Ended(EntryEvents(Tokens(entries[n], ','), IsGroup(entries[n]), resolve).value, IsGroup(entries[n]));
      assert pre + (before + here) == (pre + before) + here;
      assert Setup(pre) + (ref + ExpectedEntry(entries[n], resolve, |pre + before|))
          == (Setup(pre) + ref) + ExpectedEntry(entries[n], resolve, |pre + before|);
    }
  }

  lemma {:induction false} BuildAccepts(entries: seq<string>, resolve: string -> Resolution)
    ensures Build(entries, resolve).Some? <==> forall i :: 0 <= i < |entries| ==> Accepted(entries[i], resolve)
  {
    hide EntryEvents, Ended;
    if entries != [] {
      var n := |entries| - 1;
      BuildAccepts(entries[..n], resolve);
      BuiltWhenAccepted(Tokens(entries[n], ','), IsGroup(entries[n]), resolve);
      assert forall i :: 0 <= i < n ==> entries[..n][i] == entries[i];
    }
  }

  /** Events opened on their own. */
  function Alone(names: seq<string>): seq<Opened>
  {
    seq(|names|, i requires 0 <= i < |names| => Opened(names[i], None))
  }

  lemma {:induction false} AddPlain(a: seq<PerfEvent>, names: seq<string>)
    requires LeaderAfter(a) == None
    ensures LeaderAfter(a + Plain(names)) == None && Setup(a + Plain(names)) == Setup(a) + Alone(names)
    ensures forall i :: 0 <= i < |Plain(names)| ==> !Plain(names)[i].inGroup && !Plain(names)[i].clone
  {
    hide Before, LeaderAfter, Setup;
    var b := Plain(names);
    BeforeEnds(a, b);
    forall i | 0 <= i <= |b| ensures Before(a, b, i) == None {
      NoFlags(a, b, i);
    }
    SetupAppend(a, b, Alone(names));
  }

  lemma {:induction false} Nothing()
    ensures LeaderAfter([]) == None && Setup([]) == []
  {
  }

  /** The whole list of `pmu_init`: it is built exactly when every hardware entry is acceptable, and then every
      event is opened with the leader the configuration asks for. */
  lemma {:induction false} Leaders(first: seq<string>, entries: seq<string>, last: seq<string>, resolve: string -> Resolution)
    ensures Build(entries, resolve).Some? <==> forall i :: 0 <= i < |entries| ==> Accepted(entries[i], resolve)
    ensures Build(entries, resolve).Some? ==>
              Setup(Plain(first) + Build(entries, resolve).value + Plain(last)) ==
              Alone(first) + Expected(entries, resolve, |first|) + Alone(last)
  {
    hide LeaderAfter, Build, Expected, Setup, Alone, Accepted;
    BuildAccepts(entries, resolve);
    Nothing();
    AddPlain([], first);
    assert [] + Plain(first) == Plain(first) && [] + Alone(first) == Alone(first);
    if Build(entries, resolve).Some? {
      BuildLeaders(entries, resolve, Plain(first));
      AddPlain(Plain(first) + Build(entries, resolve).value, last);
    }
  }

  // -------------------------------------------------------------------------- the plugin

  lemma {:induction false} NothingYet(tokens: seq<string>, group: bool, resolve: string -> Resolution)
    ensures EntryEvents(tokens[..0], group, resolve) == Some([])
  {
  }

  lemma {:induction false} EntrySnoc(tokens: seq<string>, i: nat, group: bool, resolve: string -> Resolution)
    requires i < |tokens| && EntryEvents(tokens[..i], group, resolve).Some?
    ensures var before, t, r := EntryEvents(tokens[..i], group, resolve).value, tokens[i], resolve(tokens[i]);
            EntryEvents(tokens[..i + 1], group, resolve) ==
              if r.Unresolved? then Some(before)
              else if r.multiPmu && (group || r.cloneFails) then None
              else if r.multiPmu then
                Some(before + [PerfEvent(t, group && before == [], group, false, false)] + Clones(t, r.furtherPmus))
              else Some(before + [PerfEvent(t, group && before == [], group, false, false)])
  {
    var t := tokens[i];
    assert forall es: seq<PerfEvent> :: es + Clones(t, 0) == es;
    assert tokens[..i + 1][..i] == tokens[..i];
  }

  class EventList {
    var events: seq<PerfEvent>

    constructor ()
      ensures events == []
    {
      events := [];
    }

    /** `pmu_add_events`. */
    method AddEvents(names: seq<string>)
      modifies this
      ensures events == old(events) + Plain(names)
    {
      var i := 0;
      while i < |names|
        invariant 0 <= i <= |names|
        invariant events == old(events) + Plain(names[..i])
      {
        assert Plain(names[..i + 1]) == Plain(names[..i]) + [PerfEvent(names[i], false, false, false, false)];
        events := events + [PerfEvent(names[i], false, false, false, false)];
        i := i + 1;
      }
      assert names[..i] == names;
    }

    /** `pmu_add_cloned_pmus` when the enumeration succeeds. */
    method AddClonedPmus(name: string, count: nat)
      modifies this
      ensures events == old(events) + Clones(name, count)
    {
      var i := 0;
      while i < count
        invariant 0 <= i <= count
        invariant events == old(events) + Clones(name, i)
      {
        assert Clones(name, i + 1) == Clones(name, i) + [PerfEvent(name, false, false, false, true)];
        events := events + [PerfEvent(name, false, false, false, true)];
        i := i + 1;
      }
    }

    /** The token loop of `pmu_add_hw_events`. */
    method AddEntry(entry: string, resolve: string -> Resolution) returns (ok: bool)
      modifies this
      ensures var here := EntryEvents(Tokens(entry, ','), IsGroup(entry), resolve);
              ok == here.Some? && (ok ==> events == old(events) + Ended(here.value, IsGroup(entry)))
    {
      hide EntryEvents, Clones, Tokens;
      var tokens, group := Tokens(entry, ','), ',' in entry;
      var count, i := 0, 0;
      ghost var before := events;
      ok := true;
      NothingYet(tokens, group, resolve);
      while i < |tokens|
        invariant 0 <= i <= |tokens|
        invariant var here := EntryEvents(tokens[..i], group, resolve);
                  here.Some? && events == before + here.value && (count == 0 <==> here.value == [])
      {
        var t, r := tokens[i], resolve(tokens[i]);
        EntrySnoc(tokens, i, group, resolve);
        i := i + 1;
        if r.Unresolved? {
          continue;
        }
        if r.multiPmu && (group || r.cloneFails) {
          ok := false;
          RefusedOnce(tokens, i, group, resolve);
          return;
        }
        events := events + [PerfEvent(t, group && count == 0, group, false, false)];
        if r.multiPmu {
          AddClonedPmus(t, r.furtherPmus);
        }
        count := count + 1;
      }
      assert tokens[..i] == tokens;
      if group && count > 0 {
        events := events[|events| - 1 := events[|events| - 1].(endGroup := true)];
      }
    }

    /** `pmu_add_hw_events`. */
    method AddHwEvents(entries: seq<string>, resolve: string -> Resolution) returns (ok: bool)
      modifies this
      ensures var all := Build(entries, resolve);
              ok == all.Some? && (ok ==> events == old(events) + all.value)
    {
      hide EntryEvents, Ended, Tokens;
      var i := 0;
      while i < |entries|
        invariant 0 <= i <= |entries|
        invariant Build(entries[..i], resolve).Some? && events == old(events) + Build(entries[..i], resolve).value
      {
        assert entries[..i + 1][..i] == entries[..i];
        ok := AddEntry(entries[i], resolve);
        if !ok {
          BuildRefused(entries, i + 1, resolve);
          return;
        }
        i := i + 1;
      }
      assert entries[..i] == entries;
      ok := true;
    }

    /** `pmu_setup_events`: which leader every event is opened with. */
    method SetupEvents() returns (calls: seq<Opened>)
      ensures calls == Setup(events)
    {
      var leader: Option<nat> := None;
      calls := [];
      var i := 0;
      while i < |events|
        invariant 0 <= i <= |events|
        invariant calls == Setup(events[..i]) && leader == LeaderAfter(events[..i])
      {
        assert events[..i + 1][..i] == events[..i];
        BeforeEnds(events[..i], [events[i]]);
        SetupAppend(events[..i], [events[i]], [Opened(events[i].name, leader)]);
        assert events[..i + 1] == events[..i] + [events[i]];
        calls := calls + [Opened(events[i].name, leader)];
        if events[i].groupLeader {
          leader := Some(i);
        }
        if events[i].endGroup {
          leader := None;
        }
        i := i + 1;
      }
      assert events[..i] == events;
    }
  }

  lemma {:induction false} RefusedOnce(tokens: seq<string>, i: nat, group: bool, resolve: string -> Resolution)
    requires i <= |tokens| && EntryEvents(tokens[..i], group, resolve).None?
    ensures EntryEvents(tokens, group, resolve).None?
  {
    BuiltWhenAccepted(tokens, group, resolve);
    BuiltWhenAccepted(tokens[..i], group, resolve);
    assert forall t :: t in tokens[..i] ==> t in tokens;
  }

  lemma {:induction false} BuildRefused(entries: seq<string>, i: nat, resolve: string -> Resolution)
    requires i <= |entries| && Build(entries[..i], resolve).None?
    ensures Build(entries, resolve).None?
  {
    hide Build, Accepted;
    BuildAccepts(entries, resolve);
    BuildAccepts(entries[..i], resolve);
    assert forall k :: 0 <= k < i ==> entries[..i][k] == entries[k];
  }
}
