/** The counters of the email plugin: increments from collector threads, copied and reset by the reader,
    and the running spam score. */
module EmailCounters {
  import opened Common

  datatype Item = Item(name: string, value: int)

  function Names(items: seq<Item>): (r: seq<string>)
    ensures |r| == |items|
  {
    seq(|items|, i requires 0 <= i < |items| => items[i].name)
  }

  function Find(items: seq<Item>, name: string): nat
  {
    FindBy(items, (item: Item) => item.name, name)
  }

  /** `type_list_incr`. */
  function Incremented(items: seq<Item>, name: string, amount: int): seq<Item>
  {
    var k := Find(items, name);
    if k < |items| then items[k := items[k].(value := items[k].value + amount)] else items + [Item(name, amount)]
  }

  /** `copy_type_list`: positional; names are only filled in where the copy had no entry yet. */
  function Copied(live: seq<Item>, copy: seq<Item>): (r: seq<Item>)
    ensures |r| == if |copy| < |live| then |live| else |copy|
  {
    seq(if |copy| < |live| then |live| else |copy|,
        i requires 0 <= i < |live| || 0 <= i < |copy| =>
          Item(if i < |copy| then copy[i].name else live[i].name, if i < |live| then live[i].value else copy[i].value))
  }

  function Zeroed(live: seq<Item>): (r: seq<Item>)
    ensures |r| == |live|
  {
    seq(|live|, i requires 0 <= i < |live| => live[i].(value := 0))
  }

  /** One kind of counter: the live list, its copy, and as history every increment and every report. */
  datatype Channel = Channel(live: seq<Item>, copy: seq<Item>, added: seq<Item>, reported: seq<Item>)

  function Add(c: Channel, name: string, amount: int): Channel
  {
    c.(live := Incremented(c.live, name, amount), added := c.added + [Item(name, amount)])
  }

  /** Copy, reset, and submit every entry of the copy. */
  function Report(c: Channel): Channel
  {
    var copy := Copied(c.live, c.copy);
    c.(live := Zeroed(c.live), copy := copy, reported := c.reported + copy)
  }

  /** Total of one name over a list of amounts. */
  function Total(items: seq<Item>, name: string): int
  {
    if items == [] then 0
    else var n := |items| - 1;
         Total(items[..n], name) + (if items[n].name == name then items[n].value else 0)
  }

  ghost predicate Distinct(items: seq<Item>)
  {
    forall i, j :: 0 <= i < j < |items| ==> items[i].name != items[j].name
  }

  ghost predicate Inv(c: Channel)
  {
    // conservation, for every type: reported so far plus still counted is everything counted
    && (forall name :: Total(c.reported, name) + Total(c.live, name) == Total(c.added, name))
    // positional copying never mixes types
    && Names(c.copy) <= Names(c.live)
    && Distinct(c.live)
  }

  lemma {:induction false} TotalConcat(a: seq<Item>, b: seq<Item>, name: string)
    ensures Total(a + b, name) == Total(a, name) + Total(b, name)
    decreases |b|
  {
    if b == [] {
      assert a + b == a;
    } else {
      var n := |b| - 1;
      assert (a + b)[..|a| + n] == a + b[..n];
      TotalConcat(a, b[..n], name);
    }
  }

  lemma {:induction false} TotalOne(item: Item, name: string)
    ensures Total([item], name) == if item.name == name then item.value else 0
  {
    assert [item][..0] == [];
  }

  /** An increment adds to its own type and to no other. */
  lemma {:induction false} TotalIncremented(items: seq<Item>, key: string, amount: int, name: string)
    ensures Total(Incremented(items, key, amount), name) == Total(items, name) + (if key == name then amount else 0)
  {
    hide Total;
    var k := Find(items, key);
    if k < |items| {
      var a, b := items[..k], items[k + 1..];
      var x := items[k].(value := items[k].value + amount);
      assert items == a + [items[k]] + b && items[k := x] == a + [x] + b;
      forall y: Item ensures Total(a + [y] + b, name) == Total(a, name) + Total([y], name) + Total(b, name) {
        TotalConcat(a + [y], b, name);
        TotalConcat(a, [y], name);
      }
      TotalOne(items[k], name);
      TotalOne(x, name);
    } else {
      TotalConcat(items, [Item(key, amount)], name);
      TotalOne(Item(key, amount), name);
    }
  }

  lemma {:induction false} TotalZeroed(live: seq<Item>, name: string)
    ensures Total(Zeroed(live), name) == 0
  {
    if live != [] {
      assert Zeroed(live)[..|live| - 1] == Zeroed(live[..|live| - 1]);
      TotalZeroed(live[..|live| - 1], name);
    }
  }

  lemma {:induction false} AddInv(c: Channel, key: string, amount: int)
    requires Inv(c)
    ensures Inv(Add(c, key, amount))
  {
    hide Total;
    var r := Add(c, key, amount);
    forall name ensures Total(r.reported, name) + Total(r.live, name) == Total(r.added, name) {
      TotalIncremented(c.live, key, amount, name);
      TotalConcat(c.added, [Item(key, amount)], name);
      TotalOne(Item(key, amount), name);
    }
    assert Names(c.live) <= Names(r.live);
  }

  /** While the copy's names are a prefix of the live ones, copying by position copies by name. */
  lemma {:induction false} CopyByName(live: seq<Item>, copy: seq<Item>)
    requires Names(copy) <= Names(live)
    ensures Copied(live, copy) == live
  {
    assert forall i :: 0 <= i < |copy| ==> Names(copy)[i] == Names(live)[i];
    forall i | 0 <= i < |live| ensures Copied(live, copy)[i] == live[i] {
      assert i < |copy| ==> copy[i].name == Names(copy)[i] && live[i].name == Names(live)[i];
      assert Copied(live, copy)[i].value == live[i].value;
    }
  }

  lemma {:induction false} ReportInv(c: Channel)
    requires Inv(c)
    ensures Inv(Report(c)) && Report(c).copy == c.live && Names(Report(c).live) == Names(c.live)
  {
    hide Total;
    var r := Report(c);
    CopyByName(c.live, c.copy);
    assert Names(r.live) == Names(c.live);
    forall name ensures Total(r.reported, name) + Total(r.live, name) == Total(r.added, name) {
      TotalConcat(c.reported, c.live, name);
      TotalZeroed(c.live, name);
    }
    assert forall i :: 0 <= i < |c.live| ==> r.live[i].name == c.live[i].name;
  }

  // ------------------------------------------------------------------------------- score

  /** The running mean; `scores` are the values since the last report, `means` every report made. */
  datatype Score = Score(score: real, count: nat, scores: seq<real>, means: seq<real>)

  function Sum(xs: seq<real>): real
  {
    if xs == [] then 0.0 else Sum(xs[..|xs| - 1]) + xs[|xs| - 1]
  }

  function Scored(s: Score, x: real): Score
  {
    Score((s.score * (s.count as real) + x) / ((s.count + 1) as real), s.count + 1, s.scores + [x], s.means)
  }

  function ScoreReport(s: Score): Score
  {
    Score(0.0, 0, [], if s.count > 0 then s.means + [s.score] else s.means)
  }

  /** The score is the mean of the scores since the last report. */
  ghost predicate ScoreInv(s: Score)
  {
    s.count == |s.scores| && if s.count == 0 then s.score == 0.0 else s.score == Sum(s.scores) / (s.count as real)
  }

  lemma {:induction false} ScoredInv(s: Score, x: real)
    requires ScoreInv(s)
    ensures ScoreInv(Scored(s, x))
  {
    assert (s.scores + [x])[..|s.scores|] == s.scores;
    assert s.score * (s.count as real) == Sum(s.scores);
  }

  // ------------------------------------------------------------------------------- runs

  datatype Kind = Count | Size | Check

  /** One critical section: an increment or a report of one kind, or of the score. */
  datatype Action = Incr(kind: Kind, name: string, amount: int) | Read(kind: Kind) | AddScore(x: real) | ReadScore

  /** A parsed input line; the number conversions are done by the C library. */
  datatype Line = Mail(mailType: string, bytes: int) | SpamScore(x: real) | Checks(types: seq<string>)

  /** What `collect` does with a line, one critical section at a time. */
  function LineActions(line: Line): seq<Action>
  {
    match line
    case Mail(t, b) => [Incr(Count, t, 1)] + (if b > 0 then [Incr(Size, t, b)] else [])
    case SpamScore(x) => [AddScore(x)]
    case Checks(ts) => seq(|ts|, i requires 0 <= i < |ts| => Incr(Check, ts[i], 1))
  }

  datatype State = State(channels: map<Kind, Channel>, score: Score)

  const NO_CHANNEL := Channel([], [], [], [])

  const INITIAL := State(map[Count := NO_CHANNEL, Size := NO_CHANNEL, Check := NO_CHANNEL], Score(0.0, 0, [], []))

  lemma {:induction false} KindListed(k: Kind)
    ensures k in {Count, Size, Check}
  {
    match k
    case Count =>
    case Size =>
    case Check =>
  }

  function Step(s: State, a: Action): (r: State)
    requires s.channels.Keys == {Count, Size, Check}
    ensures r.channels.Keys == {Count, Size, Check}
  {
    match a
    case Incr(k, name, amount) => KindListed(k); s.(channels := s.channels[k := Add(s.channels[k], name, amount)])
    case Read(k) => KindListed(k); s.(channels := s.channels[k := Report(s.channels[k])])
    case AddScore(x) => s.(score := Scored(s.score, x))
    case ReadScore => s.(score := ScoreReport(s.score))
  }

  ghost predicate AllInv(s: State)
  {
    && s.channels.Keys == {Count, Size, Check} && ScoreInv(s.score)
    && forall k :: k in s.channels ==> Inv(s.channels[k])
  }

  function Run(s: State, run: seq<Action>): (r: State)
    requires s.channels.Keys == {Count, Size, Check}
    ensures r.channels.Keys == {Count, Size, Check}
  {
    if run == [] then s else Step(Run(s, run[..|run| - 1]), run[|run| - 1])
  }

  lemma {:induction false} StepInv(s: State, a: Action)
    requires AllInv(s)
    ensures AllInv(Step(s, a))
  {
    hide Inv, Scored, ScoreReport, Report, Add;
    match a
    case Incr(k, name, amount) => KindListed(k); AddInv(s.channels[k], name, amount);
    case Read(k) => KindListed(k); ReportInv(s.channels[k]);
    case AddScore(x) => ScoredInv(s.score, x);
    case ReadScore => assert ScoreInv(ScoreReport(s.score)) by { EmptyScore(s.score); }
  }

  lemma {:induction false} EmptyScore(s: Score)
    ensures ScoreInv(ScoreReport(s))
  {
  }

  lemma {:induction false} RunInv(run: seq<Action>)
    ensures AllInv(Run(INITIAL, run))
  {
    if run == [] {
      assert Inv(NO_CHANNEL);
    } else {
      hide Step, AllInv;
      RunInv(run[..|run| - 1]);
      StepInv(Run(INITIAL, run[..|run| - 1]), run[|run| - 1]);
    }
  }

  /** Amount added to one type of one kind by a run. */
  function Added(run: seq<Action>, kind: Kind, name: string): int
  {
    if run == [] then 0
    else var a := run[|run| - 1];
         Added(run[..|run| - 1], kind, name) + (if a.Incr? && a.kind == kind && a.name == name then a.amount else 0)
  }

  lemma {:induction false} AddedIsRecorded(run: seq<Action>, kind: Kind, name: string)
    ensures kind in Run(INITIAL, run).channels
    ensures Total(Run(INITIAL, run).channels[kind].added, name) == Added(run, kind, name)
  {
    KindListed(kind);
    if run != [] {
      var n := |run| - 1;
      AddedIsRecorded(run[..n], kind, name);
      var before, a := Run(INITIAL, run[..n]), run[n];
      if a.Incr? && a.kind == kind {
        TotalConcat(before.channels[kind].added, [Item(a.name, a.amount)], name);
        TotalOne(Item(a.name, a.amount), name);
      }
    }
  }

  lemma {:induction false} AddedConcat(a: seq<Action>, b: seq<Action>, kind: Kind, name: string)
    ensures Added(a + b, kind, name) == Added(a, kind, name) + Added(b, kind, name)
    decreases |b|
  {
    if b == [] {
      assert a + b == a;
    } else {
      var n := |b| - 1;
      assert (a + b)[..|a| + n] == a + b[..n];
      AddedConcat(a, b[..n], kind, name);
    }
  }

  lemma {:induction false} AddedAround(a: seq<Action>, x: Action, b: seq<Action>, kind: Kind, name: string)
    ensures Added(a + [x] + b, kind, name) == Added(a + b, kind, name) + Added([x], kind, name)
  {
    AddedConcat(a + [x], b, kind, name);
    AddedConcat(a, [x], kind, name);
    AddedConcat(a, b, kind, name);
  }

  /** The order in which the threads get the locks does not matter. */
  lemma {:induction false} AddedPermuted(a: seq<Action>, b: seq<Action>, kind: Kind, name: string)
    requires multiset(a) == multiset(b)
    ensures Added(a, kind, name) == Added(b, kind, name)
    decreases |a|
  {
    hide Added;
    assert |a| == |multiset(a)| == |multiset(b)| == |b|;
    if a == [] {
      assert b == [];
    } else {
      assert a[0] in multiset(b);
      var k :| 0 <= k < |b| && b[k] == a[0];
      var restA, restB := a[..0] + a[1..], b[..k] + b[k + 1..];
      Without(a, 0);
      Without(b, k);
      AddedPermuted(restA, restB, kind, name);
      AddedAround(a[..0], a[0], a[1..], kind, name);
      AddedAround(b[..k], a[0], b[k + 1..], kind, name);
    }
  }

  /** The actions of the collector threads in a run, without those of the reader. */
  function Inputs(run: seq<Action>): seq<Action>
  {
    if run == [] then []
    else var a := run[|run| - 1];
         Inputs(run[..|run| - 1]) + if a.Incr? || a.AddScore? then [a] else []
  }

  lemma {:induction false} AddedByInputs(run: seq<Action>, kind: Kind, name: string)
    ensures Added(Inputs(run), kind, name) == Added(run, kind, name)
  {
    if run != [] {
      var n := |run| - 1;
      AddedByInputs(run[..n], kind, name);
      var i := Inputs(run[..n]);
      assert (i + [run[n]])[..|i|] == i;
      assert i + [] == i;
    }
  }

  /** What one line should add to a type of a kind. */
  function Contribution(line: Line, kind: Kind, name: string): int
  {
    match line
    case Mail(t, b) => if t != name then 0
                       else if kind == Count then 1
                       else if kind == Size && b > 0 then b else 0
    case SpamScore(_) => 0
    case Checks(ts) => if kind == Check then multiset(ts)[name] else 0
  }

  function Contributions(lines: seq<Line>, kind: Kind, name: string): int
  {
    if lines == [] then 0 else Contribution(lines[0], kind, name) + Contributions(lines[1..], kind, name)
  }

  function AllActions(lines: seq<Line>): seq<Action>
  {
    if lines == [] then [] else LineActions(lines[0]) + AllActions(lines[1..])
  }

  lemma {:induction false} ChecksAdd(ts: seq<string>, kind: Kind, name: string)
    ensures Added(LineActions(Checks(ts)), kind, name) == Contribution(Checks(ts), kind, name)
  {
    if ts == [] {
      assert multiset(ts) == multiset{};
    } else {
      var n := |ts| - 1;
      ChecksAdd(ts[..n], kind, name);
      assert LineActions(Checks(ts))[..n] == LineActions(Checks(ts[..n]));
      assert ts == ts[..n] + [ts[n]];
    }
  }

  lemma {:induction false} LineAdds(line: Line, kind: Kind, name: string)
    ensures Added(LineActions(line), kind, name) == Contribution(line, kind, name)
  {
    match line
    case Mail(t, b) => AddedConcat([Incr(Count, t, 1)], if b > 0 then [Incr(Size, t, b)] else [], kind, name);
    case SpamScore(x) =>
    case Checks(ts) => ChecksAdd(ts, kind, name);
  }

  lemma {:induction false} LinesAdd(lines: seq<Line>, kind: Kind, name: string)
    ensures Added(AllActions(lines), kind, name) == Contributions(lines, kind, name)
  {
    if lines != [] {
      LineAdds(lines[0], kind, name);
      AddedConcat(LineActions(lines[0]), AllActions(lines[1..]), kind, name);
      LinesAdd(lines[1..], kind, name);
    }
  }

  /** However the lines of all connections are interleaved with each other and with the reader: for every type,
      what was reported plus what is still counted is exactly what the lines contribute. */
  lemma {:induction false} Conservation(lines: seq<Line>, run: seq<Action>, kind: Kind, name: string)
    requires multiset(Inputs(run)) == multiset(AllActions(lines))
    ensures kind in Run(INITIAL, run).channels
    ensures var c := Run(INITIAL, run).channels[kind];
            Total(c.reported, name) + Total(c.live, name) == Contributions(lines, kind, name)
  {
    RunInv(run);
    AddedIsRecorded(run, kind, name);
    AddedByInputs(run, kind, name);
    AddedPermuted(Inputs(run), AllActions(lines), kind, name);
    LinesAdd(lines, kind, name);
  }

  // -------------------------------------------------------------------------- the scores

  /** The scores of a run since its last report. */
  function ScoresSince(run: seq<Action>): seq<real>
  {
    if run == [] then []
    else match run[|run| - 1]
         case AddScore(x) => ScoresSince(run[..|run| - 1]) + [x]
         case ReadScore => []
         case Incr(_, _, _) => ScoresSince(run[..|run| - 1])
         case Read(_) => ScoresSince(run[..|run| - 1])
  }

  /** The means that should have been reported: one for every report that had any scores. */
  function Means(run: seq<Action>): seq<real>
  {
    if run == [] then []
    else
      var before := run[..|run| - 1];
      var scores := ScoresSince(before);
      Means(before) +
      (if run[|run| - 1].ReadScore? && scores != [] then [Sum(scores) / (|scores| as real)] else [])
  }

  /** In every run the reported scores are the means of the scores between two reports. */
  lemma {:induction false} ScoresExact(run: seq<Action>)
    ensures var s := Run(INITIAL, run).score;
            s.means == Means(run) && s.scores == ScoresSince(run) && s.count == |ScoresSince(run)|
  {
    hide Inv, Add, Report;
    RunInv(run);
    if run != [] {
      var n := |run| - 1;
      ScoresExact(run[..n]);
      RunInv(run[..n]);
      assert Means(run[..n]) + [] == Means(run[..n]);
    }
  }

  lemma {:induction false} LineScores(lines: seq<Line>, x: real)
    ensures multiset(AllActions(lines))[AddScore(x)] == multiset(lines)[SpamScore(x)]
  {
    if lines != [] {
      var first := LineActions(lines[0]);
      LineScores(lines[1..], x);
      assert lines == [lines[0]] + lines[1..];
      assert multiset(lines) == multiset{lines[0]} + multiset(lines[1..]);
      assert multiset(AllActions(lines)) == multiset(first) + multiset(AllActions(lines[1..]));
      OneLineScores(lines[0], x);
    }
  }

  lemma {:induction false} OneLineScores(line: Line, x: real)
    ensures multiset(LineActions(line))[AddScore(x)] == if line == SpamScore(x) then 1 else 0
  {
    var actions := LineActions(line);
    if !line.SpamScore? {
      assert forall i :: 0 <= i < |actions| ==> actions[i].Incr?;
      assert AddScore(x) !in actions;
      assert AddScore(x) !in multiset(actions);
    }
  }

  /** However the lines interleave, a score is added once for every line that says so. */
  lemma {:induction false} ScoresArrive(lines: seq<Line>, run: seq<Action>, x: real)
    requires multiset(Inputs(run)) == multiset(AllActions(lines))
    ensures multiset(Inputs(run))[AddScore(x)] == multiset(lines)[SpamScore(x)]
  {
    LineScores(lines, x);
  }

  // -------------------------------------------------------------------------- the lists

  class TypeList {
    var items: seq<Item>

    constructor ()
      ensures items == []
    {
      items := [];
    }

    method Increment(name: string, amount: int)
      modifies this
      ensures items == Incremented(old(items), name, amount)
    {
      var k := 0;
      while k < |items| && items[k].name != name
        invariant 0 <= k <= Find(items, name)
      {
        k := k + 1;
      }
      if k == |items| {
        items := items + [Item(name, amount)];
      } else {
        items := items[k := items[k].(value := items[k].value + amount)];
      }
    }

    /** Copy this list to `copy` entry by entry and reset the values. */
    method CopyTo(copy: TypeList)
      requires copy != this
      modifies this, copy
      ensures items == Zeroed(old(items)) && copy.items == Copied(old(items), old(copy.items))
    {
      var k := 0;
      while k < |items|
        invariant 0 <= k <= |items| == |old(items)|
        invariant forall i :: 0 <= i < |items| ==> items[i] == if i < k then old(items)[i].(value := 0) else old(items)[i]
        invariant |copy.items| == if |old(copy.items)| < k then k else |old(copy.items)|
        invariant forall i :: 0 <= i < |copy.items| ==>
                    copy.items[i] == if i < k then Copied(old(items), old(copy.items))[i] else old(copy.items)[i]
      {
        if k == |copy.items| {
          copy.items := copy.items + [Item(items[k].name, 0)];
        }
        copy.items := copy.items[k := copy.items[k].(value := items[k].value)];
        items := items[k := items[k].(value := 0)];
        k := k + 1;
      }
    }
  }
}
