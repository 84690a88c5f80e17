/** The streaming JSON matcher of the curl_json plugin: SAX callbacks that drive a
    depth-indexed stack of configuration contexts. The reference it is proved against
    lists the document's scalars with their paths and resolves each path from the root. */
module CurlJson {
  import opened Common

  const DATA_MAX_NAME_LEN: nat := 128
  const CJ_ANY: string := "*"

  // ---------------------------------------------------------------- documents

  datatype Json =
    | JNull
    | JBool(b: bool)
    | JNumber(text: string)
    | JString(text: string)
    | JObject(members: Members)
    | JArray(elements: Elements)

  datatype Members = NoMembers | Member(name: string, value: Json, rest: Members)

  datatype Elements = NoElements | Element(head: Json, tail: Elements)

  datatype Event =
    | Null
    | Boolean(b: bool)
    | Number(text: string)
    | String(text: string)
    | StartMap
    | MapKey(name: string)
    | EndMap
    | StartArray
    | EndArray

  /** The callbacks yajl makes for a document, in order. */
  function Events(j: Json): seq<Event>
  {
    match j
    case JNull => [Null]
    case JBool(b) => [Boolean(b)]
    case JNumber(t) => [Number(t)]
    case JString(t) => [String(t)]
    case JObject(ms) => [StartMap] + MemberEvents(ms)
    case JArray(es) => [StartArray] + ElementEvents(es)
  }

  function MemberEvents(ms: Members): seq<Event>
  {
    match ms
    case NoMembers => [EndMap]
    case Member(n, v, rest) => [MapKey(n)] + Events(v) + MemberEvents(rest)
  }

  function ElementEvents(es: Elements): seq<Event>
  {
    match es
    case NoElements => [EndArray]
    case Element(v, rest) => Events(v) + ElementEvents(rest)
  }

  // ------------------------------------------------------------ configuration

  datatype KeyConfig = KeyConfig(path: string, typeName: string, instance: Option<string>)

  datatype Entry = Key(key: KeyConfig) | Tree(children: map<string, Entry>)

  /** The entry a name selects below `e`: the exact name first, then the wildcard. */
  function Lookup(e: Option<Entry>, name: string): Option<Entry>
  {
    if e.None? || e.value.Key? then None
    else if name in e.value.children then Some(e.value.children[name])
    else if CJ_ANY in e.value.children then Some(e.value.children[CJ_ANY])
    else None
  }

  function Resolve(e: Option<Entry>, path: seq<string>): Option<Entry>
    decreases |path|
  {
    if path == [] then e else Resolve(Lookup(e, path[0]), path[1..])
  }

  datatype Value = Counter(n: nat) | Gauge(x: real) | Derive(i: int)

  /** `cj_get_type` followed by `parse_value`: type name and text to a value, if both succeed. */
  type Parser = (string, string) -> Option<Value>

  datatype Submission = Submission(key: KeyConfig, value: Value, names: seq<string>)

  // ---------------------------------------------------------------- reference

  datatype Scalar = Scalar(path: seq<string>, text: string)

  /** The scalars of a document in order; `complete` is false when a container would nest too deep. */
  datatype Listing = Listing(scalars: seq<Scalar>, complete: bool)

  function Under(name: string, scalars: seq<Scalar>): (r: seq<Scalar>)
    ensures |r| == |scalars|
  {
    seq(|scalars|, i requires 0 <= i < |scalars| => Scalar([name] + scalars[i].path, scalars[i].text))
  }

  function Then(a: Listing, b: Listing): Listing
  {
    if a.complete then Listing(a.scalars + b.scalars, b.complete) else a
  }

  function ScalarsOf(j: Json, depth: nat, max: nat): Listing
  {
    match j
    case JNull => Listing([], true)
    case JBool(b) => Listing([Scalar([], if b then "1" else "0")], true)
    case JNumber(t) => Listing([Scalar([], CString(t))], true)
    case JString(t) => Listing([Scalar([], CString(t))], true)
    case JObject(ms) => if depth + 1 >= max then Listing([], false) else MemberScalars(ms, depth + 1, max)
    case JArray(es) => if depth + 1 >= max then Listing([], false) else ElementScalars(es, 0, depth + 1, max)
  }

  function MemberScalars(ms: Members, depth: nat, max: nat): Listing
  {
    match ms
    case NoMembers => Listing([], true)
    case Member(n, v, rest) =>
      var w := ScalarsOf(v, depth, max);
      Then(Listing(Under(CString(n), w.scalars), w.complete), MemberScalars(rest, depth, max))
  }

  function ElementScalars(es: Elements, i: nat, depth: nat, max: nat): Listing
  {
    match es
    case NoElements => Listing([], true)
    case Element(v, rest) =>
      var w := ScalarsOf(v, depth, max);
      Then(Listing(Under(Decimal(i), w.scalars), w.complete), ElementScalars(rest, i + 1, depth, max))
  }

  function StoredName(name: string): string { Truncate(name, DATA_MAX_NAME_LEN) }

  function StoredNames(path: seq<string>): (r: seq<string>)
    ensures |r| == |path|
  {
    seq(|path|, i requires 0 <= i < |path| => StoredName(path[i]))
  }

  /** What one scalar submits when the configuration at its parent context is `e`. */
  function Offer(parse: Parser, e: Option<Entry>, names: seq<string>, s: Scalar): seq<Submission>
  {
    var target := Resolve(e, s.path);
    if target.Some? && target.value.Key? then
      var v := parse(target.value.key.typeName, s.text);
      if v.Some? then [Submission(target.value.key, v.value, names + StoredNames(s.path))] else []
    else []
  }

  function Offers(parse: Parser, e: Option<Entry>, names: seq<string>, scalars: seq<Scalar>): seq<Submission>
  {
    if scalars == [] then []
    else Offer(parse, e, names, scalars[0]) + Offers(parse, e, names, scalars[1..])
  }

  lemma {:induction false} OffersConcat(parse: Parser, e: Option<Entry>, names: seq<string>, a: seq<Scalar>, b: seq<Scalar>)
    ensures Offers(parse, e, names, a + b) == Offers(parse, e, names, a) + Offers(parse, e, names, b)
  {
    if a == [] {
      assert a + b == b;
    } else {
      assert (a + b)[1..] == a[1..] + b;
      OffersConcat(parse, e, names, a[1..], b);
    }
  }

  /** Descending into a name first and matching the rest there is the same as matching the longer paths. */
  lemma {:induction false} OffersUnder(parse: Parser, e: Option<Entry>, names: seq<string>, name: string, s: seq<Scalar>)
    ensures Offers(parse, e, names, Under(name, s))
         == Offers(parse, Lookup(e, name), names + [StoredName(name)], s)
  {
    if s != [] {
      var u := Under(name, s);
      assert u[0].path[1..] == s[0].path;
      assert names + StoredNames(u[0].path) == names + [StoredName(name)] + StoredNames(s[0].path);
      assert u[1..] == Under(name, s[1..]);
      OffersUnder(parse, e, names, name, s[1..]);
    }
  }

  // ------------------------------------------------------- the event machine

  datatype Slot = Slot(entry: Option<Entry>, inArray: bool, index: nat, name: string)

  const ZERO_SLOT := Slot(None, false, 0, "")

  /** `state` and `depth` of `cj_t`, and everything submitted so far. */
  datatype Machine = Machine(depth: nat, slots: seq<Slot>, out: seq<Submission>)
  {
    ghost predicate Ok() { depth < |slots| }
    function Here(): Slot requires Ok() { slots[depth] }
    function Put(s: Slot): Machine requires Ok() { this.(slots := slots[depth := s]) }
  }

  datatype Outcome =
    | Continue(m: Machine)
    | Abort(m: Machine)
    | Unmatched(m: Machine) // an end callback without a start: never made for a JSON document

  function LoadKey(m: Machine, key: string): (r: Machine)
    requires m.Ok() && m.depth > 0
    ensures r.Ok() && r.depth == m.depth
  {
    var parent := m.slots[m.depth - 1].entry;
    var named := m.Here().(name := StoredName(key));
    m.Put(if parent.None? || parent.value.Key? then named else named.(entry := Lookup(parent, key)))
  }

  function AdvanceArray(m: Machine): (r: Machine)
    requires m.Ok()
    ensures r.Ok() && r.depth == m.depth
  {
    var here := m.Here();
    if !here.inArray then m
    else
      var next := m.Put(here.(index := here.index + 1));
      if m.depth == 0 then next else LoadKey(next, Decimal(here.index + 1))
  }

  function TakeScalar(parse: Parser, m: Machine, text: string): (r: Machine)
    requires m.Ok()
    ensures r.Ok()
  {
    var e := m.Here().entry;
    if e.None? || e.value.Tree? then AdvanceArray(m)
    else
      var v := parse(e.value.key.typeName, text);
      if v.None? then AdvanceArray(m)
      else AdvanceArray(m.(out := m.out + [Submission(e.value.key, v.value, Names(m))]))
  }

  /** The names along the stack, which `cj_submit_impl` joins into the type instance. */
  function Names(m: Machine): (r: seq<string>)
    requires m.Ok()
    ensures |r| == m.depth
  {
    seq(m.depth, i requires 0 <= i < m.depth => m.slots[i + 1].name)
  }

  function EndContainer(m: Machine): (r: Machine)
    requires m.Ok() && m.depth > 0
    ensures r.Ok()
  {
    AdvanceArray(m.Put(ZERO_SLOT).(depth := m.depth - 1))
  }

  function Step(parse: Parser, m: Machine, ev: Event): (r: Outcome)
    requires m.Ok()
    ensures r.m.Ok()
  {
    match ev
    case Null => Continue(AdvanceArray(m))
    case Boolean(b) => Continue(TakeScalar(parse, m, if b then "1" else "0"))
    case Number(t) => Continue(TakeScalar(parse, m, CString(t)))
    case String(t) => Continue(TakeScalar(parse, m, CString(t)))
    case MapKey(n) => if m.depth == 0 then Abort(m) else Continue(LoadKey(m, CString(n)))
    case StartMap =>
      if m.depth + 1 >= |m.slots| then Abort(m) else Continue(m.(depth := m.depth + 1))
    case StartArray =>
      if m.depth + 1 >= |m.slots| then Abort(m) else
      var inner := m.(depth := m.depth + 1);
      Continue(LoadKey(inner.Put(inner.Here().(inArray := true, index := 0)), "0"))
    case EndMap => if m.depth == 0 then Unmatched(m) else Continue(EndContainer(m))
    case EndArray => if m.depth == 0 then Unmatched(m) else Continue(EndContainer(m))
  }

  function Run(parse: Parser, m: Machine, events: seq<Event>): (r: Outcome)
    requires m.Ok()
    ensures r.m.Ok()
    decreases |events|
  {
    if events == [] then Continue(m)
    else
      var s := Step(parse, m, events[0]);
      if s.Continue? then Run(parse, s.m, events[1..]) else s
  }

  lemma {:induction false} RunCons(parse: Parser, m: Machine, ev: Event, rest: seq<Event>)
    requires m.Ok()
    ensures Run(parse, m, [ev] + rest)
         == var s := Step(parse, m, ev); if s.Continue? then Run(parse, s.m, rest) else s
  {
    assert ([ev] + rest)[1..] == rest;
  }

  // --------------------------------------------------------------- refinement

  /** Every slot above the current depth is zeroed. */
  ghost predicate Clean(m: Machine)
  {
    m.Ok() && forall k :: m.depth < k < |m.slots| ==> m.slots[k] == ZERO_SLOT
  }

  /** The machine after a run of matched scalars below it was submitted. */
  ghost function Submitted(parse: Parser, m: Machine, e: Option<Entry>, names: seq<string>, w: Listing): (r: Machine)
    ensures r.depth == m.depth && r.slots == m.slots
  {
    m.(out := m.out + Offers(parse, e, names, w.scalars))
  }

  /** How a run that starts at `m` ends: aborted on a too deep container, or continuing from `after`. */
  ghost predicate Ends(parse: Parser, run: Outcome, w: Listing, sub: Machine, after: Machine, rest: seq<Event>)
  {
    if w.complete then after.Ok() && run == Run(parse, after, rest)
    else run.Abort? && run.m.out == sub.out
  }

  lemma {:induction false} OneOffer(parse: Parser, m: Machine, text: string)
    requires m.Ok()
    ensures TakeScalar(parse, m, text)
         == AdvanceArray(Submitted(parse, m, m.Here().entry, Names(m), Listing([Scalar([], text)], true)))
  {
    var s := Scalar([], text);
    assert Names(m) + StoredNames([]) == Names(m);
    var offer := Offer(parse, m.Here().entry, Names(m), s);
    assert [s][1..] == [];
    assert Offers(parse, m.Here().entry, Names(m), [s]) == offer + [] == offer;
    assert m.(out := m.out + []) == m;
  }

  /** The slot of an open object: its entry is only set below a tree context. */
  ghost predicate InMap(m: Machine)
  {
    Clean(m) && m.depth > 0 && !m.Here().inArray &&
    (var parent := m.slots[m.depth - 1].entry; (parent.None? || parent.value.Key?) ==> m.Here().entry == None)
  }

  /** The slot of an open array about to see element `i`. */
  ghost predicate InArray(m: Machine, i: nat)
  {
    Clean(m) && m.depth > 0 &&
    m.Here() == Slot(Lookup(m.slots[m.depth - 1].entry, Decimal(i)), true, i, StoredName(Decimal(i)))
  }

  /** The inductive core: one complete value submits its scalars in order, keeps the depth and all
      lower slots, leaves the higher slots zeroed, and advances only the enclosing array. */
  lemma {:induction false} RunValue(parse: Parser, m: Machine, j: Json, rest: seq<Event>)
    requires Clean(m)
    ensures var w := ScalarsOf(j, m.depth, |m.slots|);
            var sub := Submitted(parse, m, m.Here().entry, Names(m), w);
            Ends(parse, Run(parse, m, Events(j) + rest), w, sub, AdvanceArray(sub), rest)
    decreases j
  {
    match j
    case JObject(ms) => RunObject(parse, m, ms, rest);
    case JArray(es) => RunArray(parse, m, es, rest);
    case _ => RunScalar(parse, m, j, rest);
  }

  lemma {:induction false} RunObject(parse: Parser, m: Machine, ms: Members, rest: seq<Event>)
    requires Clean(m)
    ensures var w := ScalarsOf(JObject(ms), m.depth, |m.slots|);
            var sub := Submitted(parse, m, m.Here().entry, Names(m), w);
            Ends(parse, Run(parse, m, Events(JObject(ms)) + rest), w, sub, AdvanceArray(sub), rest)
    decreases ms, 1
  {
    hide Run;
    assert Events(JObject(ms)) + rest == [StartMap] + (MemberEvents(ms) + rest);
    RunCons(parse, m, StartMap, MemberEvents(ms) + rest);
    if m.depth + 1 < |m.slots| {
      var inner := OpenObject(parse, m);
      RunMembers(parse, inner, ms, rest);
      Reopen(parse, m, inner, MemberScalars(ms, inner.depth, |m.slots|));
    }
  }

  lemma {:induction false} RunArray(parse: Parser, m: Machine, es: Elements, rest: seq<Event>)
    requires Clean(m)
    ensures var w := ScalarsOf(JArray(es), m.depth, |m.slots|);
            var sub := Submitted(parse, m, m.Here().entry, Names(m), w);
            Ends(parse, Run(parse, m, Events(JArray(es)) + rest), w, sub, AdvanceArray(sub), rest)
    decreases es, 1
  {
    hide Run, AdvanceArray, EndContainer;
    assert Events(JArray(es)) + rest == [StartArray] + (ElementEvents(es) + rest);
    RunCons(parse, m, StartArray, ElementEvents(es) + rest);
    if m.depth + 1 < |m.slots| {
      hide Offers, InArray;
      var inner := OpenArray(parse, m);
      RunElements(parse, inner, es, 0, rest);
      Reopen(parse, m, inner, ElementScalars(es, 0, inner.depth, |m.slots|));
    }
  }

  lemma {:induction false} RunScalar(parse: Parser, m: Machine, j: Json, rest: seq<Event>)
    requires Clean(m) && !j.JObject? && !j.JArray?
    ensures var w := ScalarsOf(j, m.depth, |m.slots|);
            w.complete && Run(parse, m, Events(j) + rest)
                       == Run(parse, AdvanceArray(Submitted(parse, m, m.Here().entry, Names(m), w)), rest)
  {
    RunCons(parse, m, Events(j)[0], rest);
    assert Events(j) == [Events(j)[0]];
    if j.JNull? {
      assert m.(out := m.out + []) == m;
    } else {
      OneOffer(parse, m, ScalarsOf(j, m.depth, |m.slots|).scalars[0].text);
    }
  }

  lemma {:induction false} OpenObject(parse: Parser, m: Machine) returns (inner: Machine)
    requires Clean(m) && m.depth + 1 < |m.slots|
    ensures Step(parse, m, StartMap) == Continue(inner) && InMap(inner) && Opened(m, inner)
  {
    inner := m.(depth := m.depth + 1);
    assert inner.slots == m.slots[inner.depth := inner.Here()];
  }

  lemma {:induction false} OpenArray(parse: Parser, m: Machine) returns (inner: Machine)
    requires Clean(m) && m.depth + 1 < |m.slots|
    ensures Step(parse, m, StartArray) == Continue(inner) && InArray(inner, 0) && Opened(m, inner)
  {
    inner := Step(parse, m, StartArray).m;
    assert Decimal(0) == "0";
  }

  /** `inner` is `m` with one more slot in use. */
  ghost predicate Opened(m: Machine, inner: Machine)
  {
    && m.Ok() && inner.Ok() && inner.depth == m.depth + 1 < |m.slots| && inner.out == m.out
    && inner.slots == m.slots[inner.depth := inner.Here()]
  }

  /** Closing a container undoes exactly what opening it did to the stack. */
  lemma {:induction false} Reopen(parse: Parser, m: Machine, inner: Machine, w: Listing)
    requires Clean(m) && Opened(m, inner)
    ensures Names(inner)[..m.depth] == Names(m)
    ensures EndContainer(Submitted(parse, inner, m.Here().entry, Names(m), w))
         == AdvanceArray(Submitted(parse, m, m.Here().entry, Names(m), w))
  {
    assert inner.Put(ZERO_SLOT).slots == m.slots;
  }

  lemma {:induction false} RunMembers(parse: Parser, m: Machine, ms: Members, rest: seq<Event>)
    requires InMap(m)
    ensures var w := MemberScalars(ms, m.depth, |m.slots|);
            var sub := Submitted(parse, m, m.slots[m.depth - 1].entry, Names(m)[..m.depth - 1], w);
            Ends(parse, Run(parse, m, MemberEvents(ms) + rest), w, sub, EndContainer(sub), rest)
    decreases ms, 0
  {
    hide Run;
    var parent, names := m.slots[m.depth - 1].entry, Names(m)[..m.depth - 1];
    match ms
    case NoMembers =>
      RunCons(parse, m, EndMap, rest);
      assert m.(out := m.out + []) == m;
    case Member(n, v, more) =>
      var tail := MemberEvents(more) + rest;
      assert MemberEvents(ms) + rest == [MapKey(n)] + (Events(v) + tail);
      RunCons(parse, m, MapKey(n), Events(v) + tail);
      var m1 := LoadKey(m, CString(n));
      assert Names(m1) == names + [StoredName(CString(n))];
      RunValue(parse, m1, v, tail);
      var w1 := ScalarsOf(v, m.depth, |m.slots|);
      var m2 := Submitted(parse, m1, m1.Here().entry, Names(m1), w1);
      OffersUnder(parse, parent, names, CString(n), w1.scalars);
      if w1.complete {
        assert Names(m2)[..m.depth - 1] == names;
        RunMembers(parse, m2, more, rest);
        NextChild(parse, m, m2, parent, names, Under(CString(n), w1.scalars), MemberScalars(more, m.depth, |m.slots|));
      }
  }

  /** Gluing the first child's submissions to those of its later siblings. */
  lemma {:induction false} NextChild(parse: Parser, m: Machine, m2: Machine, e: Option<Entry>, names: seq<string>,
                  first: seq<Scalar>, w2: Listing)
    requires m.Ok() && m2.Ok() && m.depth > 0 && m2.depth == m.depth
    requires m2.slots == m.slots[m.depth := m2.Here()]
    requires m2.out == m.out + Offers(parse, e, names, first)
    ensures var both := Submitted(parse, m, e, names, Listing(first + w2.scalars, w2.complete));
            both.out == Submitted(parse, m2, e, names, w2).out &&
            EndContainer(both) == EndContainer(Submitted(parse, m2, e, names, w2))
  {
    OffersConcat(parse, e, names, first, w2.scalars);
    assert m.Put(ZERO_SLOT).slots == m2.Put(ZERO_SLOT).slots;
  }

  lemma {:induction false} NextElement(m: Machine, i: nat)
    requires InArray(m, i)
    ensures var m2 := AdvanceArray(m);
            && InArray(m2, i + 1) && m2.out == m.out
            && m2.slots == m.slots[m.depth := m2.Here()]
            && Names(m2)[..m.depth - 1] == Names(m)[..m.depth - 1]
  {
  }

  lemma {:induction false} RunElements(parse: Parser, m: Machine, es: Elements, i: nat, rest: seq<Event>)
    requires InArray(m, i)
    ensures var w := ElementScalars(es, i, m.depth, |m.slots|);
            var sub := Submitted(parse, m, m.slots[m.depth - 1].entry, Names(m)[..m.depth - 1], w);
            Ends(parse, Run(parse, m, ElementEvents(es) + rest), w, sub, EndContainer(sub), rest)
    decreases es, 0
  {
    hide Run, AdvanceArray, EndContainer;
    var parent, names := m.slots[m.depth - 1].entry, Names(m)[..m.depth - 1];
    match es
    case NoElements =>
      RunCons(parse, m, EndArray, rest);
      assert m.(out := m.out + []) == m;
    case Element(v, more) =>
      var tail := ElementEvents(more) + rest;
      assert ElementEvents(es) + rest == Events(v) + tail;
      assert Names(m) == names + [StoredName(Decimal(i))];
      RunValue(parse, m, v, tail);
      var w1 := ScalarsOf(v, m.depth, |m.slots|);
      var sub := Submitted(parse, m, m.Here().entry, Names(m), w1);
      OffersUnder(parse, parent, names, Decimal(i), w1.scalars);
      if w1.complete {
        var m2 := AdvanceArray(sub);
        NextElement(sub, i);
        RunElements(parse, m2, more, i + 1, rest);
        NextChild(parse, m, m2, parent, names, Under(Decimal(i), w1.scalars), ElementScalars(more, i + 1, m.depth, |m.slots|));
      }
  }

  /** The stack as `cj_read` sets it up: the root context holds the configuration, the rest is zeroed. */
  function Fresh(tree: map<string, Entry>, max: nat, out: seq<Submission>): Machine
    requires max > 0
  {
    Machine(0, seq(max, i => if i == 0 then ZERO_SLOT.(entry := Some(Tree(tree))) else ZERO_SLOT), out)
  }

  /** For every document and every configuration, the callbacks submit exactly the scalars whose path
      resolves to a key, in document order, with their names; a container nested too deep aborts the
      parse after the scalars in front of it. */
  lemma {:induction false} ReadSubmits(parse: Parser, tree: map<string, Entry>, max: nat, out: seq<Submission>, j: Json)
    requires max > 0
    ensures var w := ScalarsOf(j, 0, max);
            var r := Run(parse, Fresh(tree, max, out), Events(j));
            && r.m.out == out + Offers(parse, Some(Tree(tree)), [], w.scalars)
            && (w.complete ==> r == Continue(Fresh(tree, max, r.m.out)))
            && (!w.complete ==> r.Abort?)
  {
    var m := Fresh(tree, max, out);
    RunValue(parse, m, j, []);
    assert Events(j) + [] == Events(j);
    assert Names(m) == [];
  }

  // ------------------------------------------------------------ the callbacks

  const EINVAL := 22

  /** The parser state of `cj_t`; `state` has as many slots as yajl allows nesting. */
  class Database {
    const parse: Parser
    const tree: map<string, Entry>
    const state: array<Slot>
    var depth: nat
    var submitted: seq<Submission>

    ghost predicate Valid()
      reads this
    {
      depth < state.Length
    }

    ghost function Now(): Machine
      reads this, state
    {
      Machine(depth, state[..], submitted)
    }

    constructor (parse: Parser, tree: map<string, Entry>, maxDepth: nat)
      requires maxDepth > 0
      ensures Valid() && fresh(state) && state.Length == maxDepth
      ensures this.parse == parse && this.tree == tree && submitted == []
    {
      this.parse, this.tree, depth, submitted := parse, tree, 0, [];
      state := new Slot[maxDepth](_ => ZERO_SLOT);
    }

    method OnKey(key: string) returns (status: int)
      requires Valid()
      modifies state
      ensures depth == 0 ==> status == EINVAL && Now() == old(Now())
      ensures depth > 0 ==> status == 0 && Now() == LoadKey(old(Now()), key)
    {
      if depth == 0 {
        return EINVAL;
      }
      state[depth] := state[depth].(name := StoredName(key));
      var parent := state[depth - 1].entry;
      if parent.None? || parent.value.Key? {
        return 0;
      }
      var children := parent.value.children;
      if key in children {
        state[depth] := state[depth].(entry := Some(children[key]));
      } else if CJ_ANY in children {
        state[depth] := state[depth].(entry := Some(children[CJ_ANY]));
      } else {
        state[depth] := state[depth].(entry := None);
      }
      assert state[..] == LoadKey(old(Now()), key).slots;
      return 0;
    }

    method Advance()
      requires Valid()
      modifies state
      ensures Now() == AdvanceArray(old(Now()))
    {
      if !state[depth].inArray {
        return;
      }
      state[depth] := state[depth].(index := state[depth].index + 1);
      var _ := OnKey(Decimal(state[depth].index));
    }

    method OnScalar(text: string)
      requires Valid()
      modifies this, state
      ensures Valid() && Now() == TakeScalar(parse, old(Now()), text)
    {
      var entry := state[depth].entry;
      if entry.Some? && entry.value.Key? {
        var v := parse(entry.value.key.typeName, text);
        if v.Some? {
          var open := state[..depth + 1];
          var names := seq(depth, i requires 0 <= i < |open| - 1 => open[i + 1].name);
          assert names == Names(Now());
          submitted := submitted + [Submission(entry.value.key, v.value, names)];
        }
      }
      Advance();
    }

    method OnStart(isArray: bool) returns (go: bool)
      requires Valid()
      modifies this, state
      ensures Valid()
      ensures Step(parse, old(Now()), if isArray then StartArray else StartMap)
           == if go then Continue(Now()) else Abort(Now())
    {
      if depth + 1 >= state.Length {
        return false;
      }
      depth := depth + 1;
      if isArray {
        state[depth] := state[depth].(inArray := true, index := 0);
        var _ := OnKey("0");
      }
      return true;
    }

    method OnEnd()
      requires Valid() && depth > 0
      modifies this, state
      ensures Valid() && Now() == EndContainer(old(Now()))
    {
      state[depth] := ZERO_SLOT;
      depth := depth - 1;
      Advance();
    }

    method Callback(ev: Event) returns (go: bool)
      requires Valid() && ((ev.EndMap? || ev.EndArray?) ==> depth > 0)
      modifies this, state
      ensures Valid() && Step(parse, old(Now()), ev) == if go then Continue(Now()) else Abort(Now())
    {
      go := true;
      match ev
      case Null => Advance();
      case Boolean(b) => OnScalar(if b then "1" else "0");
      case Number(t) => OnScalar(CString(t));
      case String(t) => OnScalar(CString(t));
      case MapKey(n) =>
        var status := OnKey(CString(n));
        go := status == 0;
      case StartMap => go := OnStart(false);
      case StartArray => go := OnStart(true);
      case EndMap => OnEnd();
      case EndArray => OnEnd();
    }

    /** One poll: reset the stack, install the root context, feed the document's callbacks. */
    method Read(doc: Json) returns (go: bool)
      requires Valid()
      modifies this, state
      ensures Valid() && go == ScalarsOf(doc, 0, state.Length).complete
      ensures submitted == old(submitted) +
                           Offers(parse, Some(Tree(tree)), [], ScalarsOf(doc, 0, state.Length).scalars)
      ensures state[0].entry == None
    {
      hide TakeScalar, AdvanceArray, LoadKey, EndContainer, Offers, ScalarsOf;
      depth := 0;
      forall i | 0 <= i < state.Length {
        state[i] := ZERO_SLOT;
      }
      state[0] := state[0].(entry := Some(Tree(tree)));
      assert Now() == Fresh(tree, state.Length, submitted);
      ReadSubmits(parse, tree, state.Length, submitted, doc);
      var events := Events(doc);
      ghost var r := Run(parse, Now(), events);
      var i := 0;
      go := true;
      while go && i < |events|
        invariant Valid() && 0 <= i <= |events|
        invariant r == if go then Run(parse, Now(), events[i..]) else Abort(Now())
      {
        assert events[i..][0] == events[i] && events[i..][1..] == events[i + 1..];
        go := Callback(events[i]);
        i := i + 1;
      }
      state[0] := state[0].(entry := None);
    }
  }
}
