/** Staging of multi-source metrics in the gmond plugin: values arrive one source at a time and are dispatched
    once a bit mask says that every source was updated. */
module Gmond {
  import opened Common

  datatype Kind = CounterKind | GaugeKind | DeriveKind

  /** A value of one source; a gauge that is not a number is None. */
  datatype Value = Counter(c: int) | Gauge(x: Option<real>) | Derive(d: int)

  predicate Fits(v: Value, k: Kind)
  {
    match k
    case CounterKind => v.Counter?
    case GaugeKind => v.Gauge?
    case DeriveKind => v.Derive?
  }

  const TWO_TO_63 := 0x8000_0000_0000_0000
  const TWO_TO_64 := 0x1_0000_0000_0000_0000

  /** `uint64_t`: the one number in range that differs by a multiple of 2^64. */
  function Unsigned(n: int): (r: int)
    ensures 0 <= r < 0x1_0000_0000_0000_0000 && (n - r) % 0x1_0000_0000_0000_0000 == 0
  {
    n % TWO_TO_64
  }

  /** `int64_t` in two's complement. */
  function Signed(n: int): (r: int)
    ensures -0x8000_0000_0000_0000 <= r < 0x8000_0000_0000_0000 && (n - r) % 0x1_0000_0000_0000_0000 == 0
  {
    (n + TWO_TO_63) % TWO_TO_64 - TWO_TO_63
  }

  function Zero(k: Kind): Value
  {
    match k
    case CounterKind => Counter(0)
    case GaugeKind => Gauge(Some(0.0))
    case DeriveKind => Derive(0)
  }

  function Zeros(kinds: seq<Kind>): (r: seq<Value>)
    ensures |r| == |kinds|
  {
    seq(|kinds|, i requires 0 <= i < |kinds| => Zero(kinds[i]))
  }

  /** Values of another kind, which would reinterpret the union, are outside every theorem below. */
  function Accumulate(current: Value, v: Value): Value
  {
    if current.Counter? && v.Counter? then Counter(Unsigned(current.c + v.c))
    else if current.Derive? && v.Derive? then Derive(Signed(current.d + v.d))
    else v
  }

  // ----------------------------------------------------------------------------- bit masks

  function Pow2(n: nat): nat
  {
    if n == 0 then 1 else 2 * Pow2(n - 1)
  }

  /** `flags | (1 << i)`, bit by bit. */
  function OrBit(flags: nat, i: nat): nat
  {
    if i == 0 then (if flags % 2 == 1 then flags else flags + 1) else flags % 2 + 2 * OrBit(flags / 2, i - 1)
  }

  /** The number whose bit i is `bits[i]`. */
  function Mask(bits: seq<bool>): nat
  {
    if bits == [] then 0 else (if bits[0] then 1 else 0) + 2 * Mask(bits[1..])
  }

  function Clear(n: nat): seq<bool>
  {
    seq(n, i => false)
  }

  ghost predicate Full(bits: seq<bool>)
  {
    forall i :: 0 <= i < |bits| ==> bits[i]
  }

  lemma {:induction false} OrBitSets(bits: seq<bool>, i: nat)
    requires i < |bits|
    ensures OrBit(Mask(bits), i) == Mask(bits[i := true])
  {
    var m := Mask(bits[1..]);
    assert Mask(bits) % 2 == (if bits[0] then 1 else 0) && Mask(bits) / 2 == m;
    if i == 0 {
      assert bits[0 := true][1..] == bits[1..];
    } else {
      OrBitSets(bits[1..], i - 1);
      assert bits[i := true][1..] == bits[1..][i - 1 := true];
    }
  }

  /** The comparison with `(1 << n) - 1` is the question whether all bits are set. */
  lemma {:induction false} FullMask(bits: seq<bool>)
    ensures Mask(bits) < Pow2(|bits|)
    ensures Mask(bits) == Pow2(|bits|) - 1 <==> Full(bits)
  {
    if bits != [] {
      FullMask(bits[1..]);
      assert Full(bits) <==> bits[0] && Full(bits[1..]) by {
        assert forall i :: 0 < i < |bits| ==> bits[i] == bits[1..][i - 1];
      }
    }
  }

  lemma {:induction false} ClearMask(n: nat)
    ensures Mask(Clear(n)) == 0
  {
    if n > 0 {
      assert Clear(n)[1..] == Clear(n - 1);
      ClearMask(n - 1);
    }
  }

  // ------------------------------------------------------------------------------ staging

  datatype Entry = Entry(kinds: seq<Kind>, values: seq<Value>, flags: nat, interval: nat)

  datatype Output = Dispatch(key: string, values: seq<Value>, interval: nat) | RequestMetaData(key: string)

  datatype State = State(tree: map<string, Entry>, log: seq<Output>)

  const INITIAL := State(map[], [])

  /** A value or metadata message; `kinds` is what the type lookup finds. */
  datatype Action =
    | Update(key: string, kinds: Option<seq<Kind>>, index: nat, value: Value)
    | MetaData(key: string, kinds: Option<seq<Kind>>, tmax: nat)

  /** The key under which a metric is staged. */
  function Key(host: string, typ: string, instance: string): string
  {
    Truncate(host + "/" + typ + "/" + instance, 256)
  }

  predicate Effective(a: Action)
  {
    match a
    case Update(_, kinds, index, _) => kinds.Some? && index < |kinds.value|
    case MetaData(_, kinds, tmax) => tmax != 0 && kinds.Some?
  }

  /** `staging_entry_get`. */
  function Get(tree: map<string, Entry>, key: string, kinds: seq<Kind>): Entry
  {
    if key in tree then tree[key] else Entry(kinds, Zeros(kinds), 0, 0)
  }

  /** `staging_entry_update` and `mc_handle_metadata_msg`. */
  function Step(s: State, a: Action): State
  {
    if !Effective(a) then s
    else
      var e := Get(s.tree, a.key, a.kinds.value);
      match a
      case MetaData(key, _, tmax) => s.(tree := s.tree[key := e.(interval := tmax * 0x4000_0000)])
      case Update(key, kinds, i, v) => if |e.values| != |kinds.value| then s else Store(s, key, e, i, v)
  }

  function Store(s: State, key: string, e: Entry, i: nat, v: Value): State
    requires i < |e.values|
  {
    var e1 := e.(values := e.values[i := Accumulate(e.values[i], v)], flags := OrBit(e.flags, i));
    if e1.flags != Pow2(|e1.values|) - 1 then s.(tree := s.tree[key := e1])
    else State(s.tree[key := e1.(flags := 0)],
               s.log + [if e1.interval == 0 then RequestMetaData(key) else Dispatch(key, e1.values, e1.interval)])
  }

  function Run(run: seq<Action>): State
  {
    if run == [] then INITIAL else Step(Run(run[..|run| - 1]), run[|run| - 1])
  }

  // ---------------------------------------------------------------------------- reference

  /** What happens to one entry. */
  datatype Event = Set(index: nat, value: Value) | Interval(tmax: nat)

  predicate Proper(events: seq<Event>, kinds: seq<Kind>)
  {
    forall i :: 0 <= i < |events| ==>
      match events[i]
      case Set(k, v) => k < |kinds| && Fits(v, kinds[k])
      case Interval(tmax) => tmax != 0
  }

  function Amount(v: Value): int
  {
    match v
    case Counter(c) => c
    case Gauge(_) => 0
    case Derive(d) => d
  }

  /** Unbounded sum of everything received for a source. */
  function Sum(events: seq<Event>, i: nat): int
  {
    if events == [] then 0
    else var e := events[|events| - 1];
         Sum(events[..|events| - 1], i) + (if e.Set? && e.index == i then Amount(e.value) else 0)
  }

  /** The latest value received for a source. */
  function Latest(events: seq<Event>, i: nat): Value
  {
    if events == [] then Gauge(Some(0.0))
    else var e := events[|events| - 1];
         if e.Set? && e.index == i then e.value else Latest(events[..|events| - 1], i)
  }

  function Received(events: seq<Event>, kind: Kind, i: nat): Value
  {
    match kind
    case CounterKind => Counter(Unsigned(Sum(events, i)))
    case GaugeKind => Latest(events, i)
    case DeriveKind => Derive(Signed(Sum(events, i)))
  }

  function AllReceived(events: seq<Event>, kinds: seq<Kind>): seq<Value>
  {
    seq(|kinds|, i requires 0 <= i < |kinds| => Received(events, kinds[i], i))
  }

  function KnownInterval(events: seq<Event>): nat
  {
    if events == [] then 0
    else var e := events[|events| - 1];
         if e.Interval? then e.tmax * 0x4000_0000 else KnownInterval(events[..|events| - 1])
  }

  ghost predicate Touches(events: seq<Event>, i: nat)
  {
    exists k :: 0 <= k < |events| && events[k].Set? && events[k].index == i
  }

  /** The sources updated by some events. */
  ghost function Touched(events: seq<Event>, n: nat): (r: seq<bool>)
    ensures |r| == n
  {
    seq(n, i requires 0 <= i => Touches(events, i))
  }

  /** Where the current round began: after the last update that made the round complete. */
  ghost function RoundStart(events: seq<Event>, n: nat): (r: nat)
    ensures r <= |events|
  {
    if events == [] then 0
    else
      var m := RoundStart(events[..|events| - 1], n);
      if events[|events| - 1].Set? && Full(Touched(events[m..], n)) then |events| else m
  }

  /** What one more event puts out: at the end of a round the values if the interval is known, else a request. */
  ghost function Emits(key: string, before: seq<Event>, e: Event, kinds: seq<Kind>): seq<Output>
  {
    var after := before + [e];
    if e.Set? && Full(Touched(after[RoundStart(before, |kinds|)..], |kinds|)) then
      [if KnownInterval(before) == 0 then RequestMetaData(key)
       else Dispatch(key, AllReceived(after, kinds), KnownInterval(before))]
    else []
  }

  ghost function Outputs(key: string, events: seq<Event>, kinds: seq<Kind>): seq<Output>
  {
    if events == [] then []
    else
      var before := events[..|events| - 1];
      Outputs(key, before, kinds) + Emits(key, before, events[|events| - 1], kinds)
  }

  ghost function EntryOf(events: seq<Event>, kinds: seq<Kind>): Entry
  {
    Entry(kinds, AllReceived(events, kinds), Mask(Touched(events[RoundStart(events, |kinds|)..], |kinds|)),
          KnownInterval(events))
  }

  // ------------------------------------------------------------------------------- proofs

  lemma {:induction false} UnsignedAdd(a: int, b: int)
    ensures Unsigned(Unsigned(a) + b) == Unsigned(a + b)
  {
  }

  lemma {:induction false} SignedAdd(a: int, b: int)
    ensures Signed(Signed(a) + b) == Signed(a + b)
  {
    UnsignedAdd(a + TWO_TO_63, b);
  }

  lemma {:induction false} ReceivedSet(events: seq<Event>, kinds: seq<Kind>, i: nat, v: Value)
    requires Proper(events, kinds) && i < |kinds| && Fits(v, kinds[i])
    ensures AllReceived(events + [Set(i, v)], kinds) ==
              AllReceived(events, kinds)[i := Accumulate(Received(events, kinds[i], i), v)]
  {
    hide Unsigned, Signed;
    var after := events + [Set(i, v)];
    assert after[..|events|] == events;
    forall k | 0 <= k < |kinds|
      ensures Received(after, kinds[k], k) ==
                if k == i then Accumulate(Received(events, kinds[i], i), v) else Received(events, kinds[k], k)
    {
      assert Sum(after, k) == Sum(events, k) + (if k == i then Amount(v) else 0);
      UnsignedAdd(Sum(events, i), Amount(v));
      SignedAdd(Sum(events, i), Amount(v));
    }
  }

  lemma {:induction false} ReceivedInterval(events: seq<Event>, kinds: seq<Kind>, tmax: nat)
    ensures AllReceived(events + [Interval(tmax)], kinds) == AllReceived(events, kinds)
  {
    hide Unsigned, Signed;
    assert (events + [Interval(tmax)])[..|events|] == events;
  }

  lemma {:induction false} TouchedSet(events: seq<Event>, n: nat, i: nat, v: Value)
    requires i < n
    ensures Touched(events + [Set(i, v)], n) == Touched(events, n)[i := true]
  {
    var after := events + [Set(i, v)];
    forall k | 0 <= k < n ensures Touches(after, k) == (k == i || Touches(events, k)) {
      if k == i {
        assert after[|events|].Set?;
      } else if Touches(events, k) {
        var j :| 0 <= j < |events| && events[j].Set? && events[j].index == k;
        assert after[j] == events[j];
      }
    }
  }

  lemma {:induction false} TouchedInterval(events: seq<Event>, n: nat, tmax: nat)
    ensures Touched(events + [Interval(tmax)], n) == Touched(events, n)
  {
    var after := events + [Interval(tmax)];
    forall k | 0 <= k < n ensures Touches(after, k) == Touches(events, k) {
      if Touches(events, k) {
        var j :| 0 <= j < |events| && events[j].Set? && events[j].index == k;
        assert after[j] == events[j];
      }
    }
  }

  lemma {:induction false} TouchedNothing(n: nat)
    ensures Touched([], n) == Clear(n)
  {
  }

  lemma {:induction false} RoundSnoc(events: seq<Event>, e: Event, n: nat)
    ensures var after := events + [e]; var m := RoundStart(events, n);
            && after[m..] == events[m..] + [e]
            && RoundStart(after, n) == (if e.Set? && Full(Touched(after[m..], n)) then |after| else m)
            && KnownInterval(after) == if e.Interval? then e.tmax * 0x4000_0000 else KnownInterval(events)
  {
    assert (events + [e])[..|events|] == events;
  }

  /** One update of an entry that reflects its history: the history grows by that update. */
  lemma {:induction false} SetStep(s: State, key: string, events: seq<Event>, kinds: seq<Kind>, i: nat, v: Value)
    requires Proper(events, kinds) && i < |kinds| && Fits(v, kinds[i])
    ensures var after := events + [Set(i, v)];
            Store(s, key, EntryOf(events, kinds), i, v) ==
            State(s.tree[key := EntryOf(after, kinds)], s.log + Emits(key, events, Set(i, v), kinds))
  {
    hide Mask, OrBit, Pow2, Touched, RoundStart, KnownInterval, Full, Received, Accumulate;
    var n, after := |kinds|, events + [Set(i, v)];
    var m := RoundStart(events, n);
    var seen := Touched(events[m..], n);
    RoundSnoc(events, Set(i, v), n);
    TouchedSet(events[m..], n, i, v);
    OrBitSets(seen, i);
    FullMask(seen[i := true]);
    ReceivedSet(events, kinds, i, v);
    TouchedNothing(n);
    ClearMask(n);
    assert after[|after|..] == [];
    assert s.log + [] == s.log;
  }

  lemma {:induction false} IntervalStep(key: string, events: seq<Event>, kinds: seq<Kind>, tmax: nat)
    ensures EntryOf(events + [Interval(tmax)], kinds) == EntryOf(events, kinds).(interval := tmax * 0x4000_0000)
    ensures Emits(key, events, Interval(tmax), kinds) == []
  {
    hide Mask, Touched, RoundStart, KnownInterval, Full, Received;
    RoundSnoc(events, Interval(tmax), |kinds|);
    TouchedInterval(events[RoundStart(events, |kinds|)..], |kinds|, tmax);
    ReceivedInterval(events, kinds, tmax);
  }

  lemma {:induction false} FreshEntry(kinds: seq<Kind>)
    ensures EntryOf([], kinds) == Entry(kinds, Zeros(kinds), 0, 0)
  {
    TouchedNothing(|kinds|);
    ClearMask(|kinds|);
  }

  // -------------------------------------------------------------------------------- runs

  /** The events of a run for one key. */
  function Project(run: seq<Action>, key: string): seq<Event>
  {
    if run == [] then []
    else
      var a := run[|run| - 1];
      Project(run[..|run| - 1], key) +
      (if a.key != key || !Effective(a) then [] else if a.Update? then [Set(a.index, a.value)] else [Interval(a.tmax)])
  }

  /** The outputs for one key. */
  function ForKey(log: seq<Output>, key: string): seq<Output>
  {
    if log == [] then []
    else ForKey(log[..|log| - 1], key) + (if log[|log| - 1].key == key then [log[|log| - 1]] else [])
  }

  /** Every key is used with one data set, of at most 30 sources, as long as data sets do not change and keys do
      not collide. */
  ghost predicate Consistent(run: seq<Action>, kindsOf: string -> seq<Kind>)
  {
    forall k :: 0 <= k < |run| ==> Agrees(run[k], kindsOf)
  }

  predicate Agrees(a: Action, kindsOf: string -> seq<Kind>)
  {
    Effective(a) ==>
      && a.kinds.value == kindsOf(a.key) && |a.kinds.value| <= 30
      && (a.Update? ==> Fits(a.value, a.kinds.value[a.index]))
  }

  ghost predicate Inv(s: State, run: seq<Action>, kindsOf: string -> seq<Kind>)
  {
    forall key ::
      var events := Project(run, key);
      && Proper(events, kindsOf(key))
      && (key in s.tree <==> events != [])
      && (key in s.tree ==> s.tree[key] == EntryOf(events, kindsOf(key)))
      && ForKey(s.log, key) == Outputs(key, events, kindsOf(key))
  }

  lemma {:induction false} ForKeyConcat(log: seq<Output>, more: seq<Output>, key: string)
    requires |more| <= 1
    ensures ForKey(log + more, key) == ForKey(log, key) + (if more != [] && more[0].key == key then more else [])
  {
    if more == [] {
      assert log + more == log && ForKey(log, key) + [] == ForKey(log, key);
    } else {
      assert (log + more)[..|log|] == log && more == [more[0]];
    }
  }

  lemma {:induction false} OutputsSnoc(key: string, events: seq<Event>, e: Event, kinds: seq<Kind>)
    ensures Outputs(key, events + [e], kinds) == Outputs(key, events, kinds) + Emits(key, events, e, kinds)
  {
    hide Emits;
    assert (events + [e])[..|events|] == events;
  }

  lemma {:induction false} ProjectSnoc(run: seq<Action>, a: Action, key: string)
    ensures Project(run + [a], key) ==
              Project(run, key) +
              if a.key != key || !Effective(a) then [] else if a.Update? then [Set(a.index, a.value)] else [Interval(a.tmax)]
  {
    assert (run + [a])[..|run|] == run;
  }

  /** An effective message extends the history of its key. */
  lemma {:induction false} Extends(s: State, run: seq<Action>, a: Action, e: Event, kindsOf: string -> seq<Kind>)
    requires Inv(s, run, kindsOf) && Agrees(a, kindsOf) && Effective(a)
    requires e == if a.Update? then Set(a.index, a.value) else Interval(a.tmax)
    ensures var events, kinds := Project(run, a.key), kindsOf(a.key);
            Step(s, a) == State(s.tree[a.key := EntryOf(events + [e], kinds)], s.log + Emits(a.key, events, e, kinds))
  {
    hide EntryOf, Emits, Project, Proper, Store, Zeros, Outputs, ForKey;
    var events, kinds := Project(run, a.key), kindsOf(a.key);
    FreshEntry(kinds);
    assert Get(s.tree, a.key, kinds) == EntryOf(events, kinds);
    EntrySize(events, kinds);
    if a.Update? {
      SetStep(s, a.key, events, kinds, a.index, a.value);
    } else {
      IntervalStep(a.key, events, kinds, a.tmax);
      assert s.log + [] == s.log;
    }
  }

  lemma {:induction false} EntrySize(events: seq<Event>, kinds: seq<Kind>)
    ensures |EntryOf(events, kinds).values| == |kinds|
  {
  }

  lemma {:induction false} StepInv(s: State, run: seq<Action>, a: Action, kindsOf: string -> seq<Kind>)
    requires Inv(s, run, kindsOf) && Agrees(a, kindsOf)
    ensures Inv(Step(s, a), run + [a], kindsOf)
  {
    hide EntryOf, Emits, Step, Outputs, ForKey, Project;
    forall key
      ensures var events, r := Project(run + [a], key), Step(s, a);
              && Proper(events, kindsOf(key))
              && (key in r.tree <==> events != [])
              && (key in r.tree ==> r.tree[key] == EntryOf(events, kindsOf(key)))
              && ForKey(r.log, key) == Outputs(key, events, kindsOf(key))
    {
      ProjectSnoc(run, a, key);
      var events := Project(run, key);
      assert events + [] == events;
      if Effective(a) {
        var e := if a.Update? then Set(a.index, a.value) else Interval(a.tmax);
        var here := Project(run, a.key);
        Extends(s, run, a, e, kindsOf);
        EmitsKey(a.key, here, e, kindsOf(a.key));
        ForKeyConcat(s.log, Emits(a.key, here, e, kindsOf(a.key)), key);
        OutputsSnoc(a.key, here, e, kindsOf(a.key));
      } else {
        Ignored(s, a);
      }
    }
  }

  lemma {:induction false} Ignored(s: State, a: Action)
    requires !Effective(a)
    ensures Step(s, a) == s
  {
  }

  lemma {:induction false} EmitsKey(key: string, events: seq<Event>, e: Event, kinds: seq<Kind>)
    ensures var more := Emits(key, events, e, kinds); |more| <= 1 && (more != [] ==> more[0].key == key)
  {
  }

  /** After every run of messages: each entry holds the totals of everything received for it, and the outputs
      are exactly one per complete round of updates. */
  lemma {:induction false} StagingExact(run: seq<Action>, kindsOf: string -> seq<Kind>)
    requires Consistent(run, kindsOf)
    ensures Inv(Run(run), run, kindsOf)
  {
    hide Inv, Step;
    if run == [] {
      StartInv(kindsOf);
    } else {
      var n := |run| - 1;
      assert run == run[..n] + [run[n]];
      StagingExact(run[..n], kindsOf);
      StepInv(Run(run[..n]), run[..n], run[n], kindsOf);
    }
  }

  lemma {:induction false} StartInv(kindsOf: string -> seq<Kind>)
    ensures Inv(INITIAL, [], kindsOf)
  {
  }

  lemma {:induction false} NoneTouched(n: nat)
    requires n > 0
    ensures !Full(Touched([], n))
  {
    TouchedNothing(n);
    assert !Clear(n)[0];
  }

  /** The current round is never complete: it would have been closed. */
  lemma {:induction false} RoundOpen(events: seq<Event>, n: nat)
    requires n > 0
    ensures !Full(Touched(events[RoundStart(events, n)..], n))
  {
    hide Touched, Full, RoundStart;
    NoneTouched(n);
    if events == [] {
      assert events[RoundStart(events, n)..] == [];
    } else {
      var k, e := |events| - 1, events[|events| - 1];
      RoundOpen(events[..k], n);
      assert events == events[..k] + [e];
      RoundSnoc(events[..k], e, n);
      assert events[|events|..] == [];
      if e.Interval? {
        TouchedInterval(events[..k][RoundStart(events[..k], n)..], n, e.tmax);
      }
    }
  }

  /** The current round began right after an update that completed the round before it. */
  lemma {:induction false} RoundBegan(events: seq<Event>, n: nat)
    ensures var m := RoundStart(events, n);
            m > 0 ==> events[m - 1].Set? && Full(Touched(events[..m][RoundStart(events[..m - 1], n)..], n))
  {
    hide Touched, Full;
    if events != [] {
      var k := |events| - 1;
      RoundBegan(events[..k], n);
      var m := RoundStart(events, n);
      if m == |events| {
        assert events[..m] == events;
      } else if m > 0 {
        assert events[..k][..m] == events[..m] && events[..k][..m - 1] == events[..m - 1];
      }
    }
  }

  lemma {:induction false} Pow2Bound(n: nat, k: nat)
    requires n <= k
    ensures Pow2(n) <= Pow2(k)
  {
    if n < k {
      Pow2Bound(n, k - 1);
    }
  }

  /** With at most 30 sources the mask stays inside a C `int`. */
  lemma {:induction false} FlagsFit(events: seq<Event>, kinds: seq<Kind>)
    requires |kinds| <= 30
    ensures EntryOf(events, kinds).flags < Pow2(|kinds|) <= Pow2(30) == 0x4000_0000
  {
    hide Mask, Touched, RoundStart;
    FullMask(Touched(events[RoundStart(events, |kinds|)..], |kinds|));
    Pow2Bound(|kinds|, 30);
    Thirty();
  }

  lemma {:induction false} Thirty()
    ensures Pow2(30) == 0x4000_0000
  {
    assert Pow2(10) == 1024;
    assert Pow2(20) == 1024 * 1024;
  }

  // -------------------------------------------------------------------------------- keys

  /** Short keys of types and instances without a slash do not collide. */
  lemma {:induction false} KeysDistinct(host1: string, type1: string, inst1: string, host2: string, type2: string, inst2: string)
    requires |host1| + |type1| + |inst1| < 254 && |host2| + |type2| + |inst2| < 254
    requires '/' !in type1 && '/' !in type2 && '/' !in inst1 && '/' !in inst2
    requires Key(host1, type1, inst1) == Key(host2, type2, inst2)
    ensures host1 == host2 && type1 == type2 && inst1 == inst2
  {
    LastSlash(host1 + "/" + type1, inst1, host2 + "/" + type2, inst2);
    LastSlash(host1, type1, host2, type2);
  }

  lemma {:induction false} LastSlash(a1: string, b1: string, a2: string, b2: string)
    requires '/' !in b1 && '/' !in b2 && a1 + "/" + b1 == a2 + "/" + b2
    ensures a1 == a2 && b1 == b2
  {
    var s := a1 + "/" + b1;
    assert s[|a1|] == '/' && s[|a2|] == '/' by { assert (a2 + "/" + b2)[|a2|] == '/'; }
    assert forall i :: |a1| < i < |s| ==> s[i] == b1[i - |a1| - 1];
    assert forall i :: |a2| < i < |s| ==> s[i] == b2[i - |a2| - 1];
    assert |a1| == |a2|;
    assert a1 == s[..|a1|] && a2 == s[..|a2|] && b1 == s[|a1| + 1..] && b2 == s[|a2| + 1..];
  }

  // ------------------------------------------------------------------------------ the plugin

  class Plugin {
    var tree: map<string, Entry>
    var log: seq<Output>

    function Now(): State
      reads this
    {
      State(tree, log)
    }

    constructor ()
      ensures Now() == INITIAL
    {
      tree, log := map[], [];
    }

    /** `staging_entry_get`. */
    method StagingEntryGet(key: string, kinds: seq<Kind>) returns (e: Entry)
      modifies this
      ensures e == Get(old(tree), key, kinds)
      ensures tree == old(tree)[key := e] && log == old(log)
    {
      if key !in tree {
        tree := tree[key := Entry(kinds, Zeros(kinds), 0, 0)];
      }
      e := tree[key];
    }

    /** `staging_entry_update`. */
    method StagingEntryUpdate(host: string, typ: string, inst: string, ds: Option<seq<Kind>>, index: nat, value: Value)
      returns (status: int)
      modifies this
      ensures Now() == Step(old(Now()), Update(Key(host, typ, inst), ds, index, value))
      ensures status == 0 <==>
                && Effective(Update(Key(host, typ, inst), ds, index, value))
                && |Get(old(tree), Key(host, typ, inst), ds.value).values| == |ds.value|
    {
      if ds.None? {
        return -1;
      }
      if |ds.value| <= index {
        return -1;
      }
      var key := Key(host, typ, inst);
      var e := StagingEntryGet(key, ds.value);
      if |e.values| != |ds.value| {
        return -1;
      }
      status := 0;
      e := e.(values := e.values[index := Accumulate(e.values[index], value)], flags := OrBit(e.flags, index));
      tree := tree[key := e];
      if e.flags != Pow2(|e.values|) - 1 {
        return;
      }
      tree := tree[key := e.(flags := 0)];
      if e.interval == 0 {
        log := log + [RequestMetaData(key)];
        return;
      }
      log := log + [Dispatch(key, e.values, e.interval)];
    }

    /** `mc_handle_metadata_msg`. */
    method HandleMetaData(host: string, typ: string, inst: string, ds: Option<seq<Kind>>, tmax: nat)
      modifies this
      ensures Now() == Step(old(Now()), MetaData(Key(host, typ, inst), ds, tmax))
    {
      if tmax == 0 || ds.None? {
        return;
      }
      var key := Key(host, typ, inst);
      var e := StagingEntryGet(key, ds.value);
      tree := tree[key := e.(interval := tmax * 0x4000_0000)];
    }
  }
}
