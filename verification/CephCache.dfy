/** The last-poll cache of the ceph plugin: an array addressed by a guessed index that should behave
    as a map from latency counter to its last (sum, count). */
module CephCache {
  import opened Common

  datatype Last = Last(name: string, sum: real, count: nat)

  datatype Sample = Sample(name: string, sum: real, count: nat)

  /** Result of one lookup: the average (`None` is NaN) and the new array, or an access outside of it. */
  datatype Outcome = Ok(avg: Option<real>, cache: seq<Last>) | OutOfBounds

  /** Index of the first entry with this name, or -1. */
  function Search(c: seq<Last>, name: string): (i: int)
    ensures -1 <= i < |c|
    ensures i >= 0 ==> c[i].name == name && forall k :: 0 <= k < i ==> c[k].name != name
    ensures i == -1 ==> forall k :: 0 <= k < |c| ==> c[k].name != name
  {
    if c == [] then -1
    else if c[0].name == name then 0
    else var i := Search(c[1..], name); if i == -1 then -1 else i + 1
  }

  function Guess(c: seq<Last>, name: string, index: nat): int
  {
    if index >= |c| then 0
    else if c[index].name == name then index
    else if index > 0 && c[index - 1].name == name then index - 1
    else Search(c, name)
  }

  const UNSET := -1.1

  function Ratio(sum: real, count: nat, prev: Last): real
    requires count > prev.count
  {
    (sum - prev.sum) / ((count - prev.count) as real)
  }

  function UpdateLast(c: seq<Last>, s: Sample, index: nat): seq<Last>
  {
    var entry := Last(s.name, s.sum, s.count);
    if index < |c| && c[index].name == s.name then c[index := entry] else c + [entry]
  }

  /** `get_last_avg`: the search result -1 is used as an index by the update. */
  function GetLastAvg(c: seq<Last>, s: Sample, index: nat): Outcome
  {
    var t := Guess(c, s.name, index);
    if t < 0 then OutOfBounds
    else
      var result := if index < |c| && t < |c| && s.count > c[t].count then Ratio(s.sum, s.count, c[t]) else UNSET;
      Ok(if result == UNSET then None else Some(result), UpdateLast(c, s, t))
  }

  // ------------------------------------------------------------------ the map it stands for

  datatype Pair = Pair(sum: real, count: nat)

  function MapAvg(m: map<string, Pair>, s: Sample): Option<real>
  {
    if s.name in m && s.count > m[s.name].count
    then Some((s.sum - m[s.name].sum) / ((s.count - m[s.name].count) as real)) else None
  }

  function MapPut(m: map<string, Pair>, s: Sample): map<string, Pair>
  {
    m[s.name := Pair(s.sum, s.count)]
  }

  /** The array holds exactly the bindings of the map, one entry each. */
  ghost predicate Models(c: seq<Last>, m: map<string, Pair>)
  {
    && (forall i, j :: 0 <= i < j < |c| ==> c[i].name != c[j].name)
    && (forall i :: 0 <= i < |c| ==> c[i].name in m && m[c[i].name] == Pair(c[i].sum, c[i].count))
    && (forall n :: n in m ==> Search(c, n) >= 0)
  }

  lemma {:induction false} SameSize(c: seq<Last>, m: map<string, Pair>)
    requires Models(c, m)
    ensures |c| == |m|
  {
    hide Search;
    var names := seq(|c|, i requires 0 <= i < |c| => c[i].name);
    SetSize(names);
    assert m.Keys == set n | n in names by {
      forall n | n in m ensures n in names { assert names[Search(c, n)] == n; }
    }
    assert |m| == |m.Keys|;
  }

  /** Whether the guessed position tells known from new names, which is all the array relies on. */
  predicate InStep(c: seq<Last>, s: Sample, index: nat)
  {
    if index < |c| then Search(c, s.name) >= 0
    else Search(c, s.name) == -1 || (Search(c, s.name) == 0 && s.count <= c[0].count)
  }

  /** The true average happens to be the number the code uses for "none". */
  predicate Sentinel(c: seq<Last>, s: Sample)
  {
    var t := Search(c, s.name);
    t >= 0 && s.count > c[t].count && Ratio(s.sum, s.count, c[t]) == UNSET
  }

  lemma {:induction false} GuessFinds(c: seq<Last>, m: map<string, Pair>, name: string, index: nat)
    requires Models(c, m) && index < |c|
    ensures Guess(c, name, index) == Search(c, name)
  {
  }

  lemma {:induction false} ReplaceKeeps(c: seq<Last>, m: map<string, Pair>, s: Sample, t: nat)
    requires Models(c, m) && Search(c, s.name) == t
    ensures Models(c[t := Last(s.name, s.sum, s.count)], MapPut(m, s))
  {
    hide Search;
    var c' := c[t := Last(s.name, s.sum, s.count)];
    assert forall i :: 0 <= i < |c| ==> c'[i].name == c[i].name;
    forall n | n in m ensures Search(c', n) >= 0 { assert c'[Search(c, n)].name == n; }
  }

  lemma {:induction false} AppendKeeps(c: seq<Last>, m: map<string, Pair>, s: Sample)
    requires Models(c, m) && Search(c, s.name) == -1
    ensures Models(c + [Last(s.name, s.sum, s.count)], MapPut(m, s))
  {
    hide Search;
    var c' := c + [Last(s.name, s.sum, s.count)];
    assert c'[|c|].name == s.name;
    forall n | n in m ensures Search(c', n) >= 0 { assert c'[Search(c, n)].name == n; }
  }

  lemma {:induction false} Bound(c: seq<Last>, m: map<string, Pair>, name: string)
    requires Models(c, m)
    ensures var t := Search(c, name);
            (name in m <==> t >= 0) && (t >= 0 ==> m[name] == Pair(c[t].sum, c[t].count))
  {
  }

  /** The exact condition under which one call behaves as the map does: the position is in step with
      the name, and the average is not the sentinel. */
  lemma {:induction false} CallExact(c: seq<Last>, m: map<string, Pair>, s: Sample, index: nat)
    requires Models(c, m)
    ensures (InStep(c, s, index) && !Sentinel(c, s)) <==>
            (var r := GetLastAvg(c, s, index);
             r.Ok? && r.avg == MapAvg(m, s) && Models(r.cache, MapPut(m, s)))
  {
    hide MapPut, Models, Search;
    var t := Search(c, s.name);
    Bound(c, m, s.name);
    if index < |c| {
      GuessFinds(c, m, s.name, index);
      if t >= 0 { ReplaceKeeps(c, m, s, t); }
    } else if t == -1 {
      AppendKeeps(c, m, s);
    } else if t == 0 {
      ReplaceKeeps(c, m, s, 0);
    } else {
      Duplicated(c, m, s, t);
    }
  }

  /** A known name reported behind the remembered positions is appended a second time. */
  lemma {:induction false} Duplicated(c: seq<Last>, m: map<string, Pair>, s: Sample, t: nat)
    requires Models(c, m) && Search(c, s.name) == t > 0
    ensures UpdateLast(c, s, 0) == c + [Last(s.name, s.sum, s.count)]
    ensures !Models(UpdateLast(c, s, 0), MapPut(m, s))
  {
    var c' := UpdateLast(c, s, 0);
    assert c'[t].name == c'[|c|].name;
  }

  /** Concrete misses: a new name in a remembered position, and a known name behind them. */
  lemma {:induction false} OutOfStepExamples()
    ensures GetLastAvg([Last("a", 0.0, 1)], Sample("b", 1.0, 1), 0) == OutOfBounds
    ensures GetLastAvg([Last("a", 0.0, 1), Last("b", 0.0, 1)], Sample("b", 1.0, 2), 2)
         == Ok(None, [Last("a", 0.0, 1), Last("b", 0.0, 1), Last("b", 1.0, 2)])
  {
    var c := [Last("a", 0.0, 1)];
    assert Search(c[1..], "b") == -1;
  }

  // -------------------------------------------------------------------------- whole runs

  /** One poll: the samples in reporting order, each looked up with its running index. */
  datatype PollResult = Polled(avgs: seq<Option<real>>, cache: seq<Last>) | Faulted

  function Poll(c: seq<Last>, samples: seq<Sample>, index: nat): PollResult
    decreases |samples|
  {
    if samples == [] then Polled([], c)
    else
      var r := GetLastAvg(c, samples[0], index);
      if r.OutOfBounds? then Faulted
      else
        var rest := Poll(r.cache, samples[1..], index + 1);
        if rest.Faulted? then Faulted else Polled([r.avg] + rest.avgs, rest.cache)
  }

  function MapPoll(m: map<string, Pair>, samples: seq<Sample>): (seq<Option<real>>, map<string, Pair>)
    decreases |samples|
  {
    if samples == [] then ([], m)
    else
      var rest := MapPoll(MapPut(m, samples[0]), samples[1..]);
      ([MapAvg(m, samples[0])] + rest.0, rest.1)
  }

  /** A poll whose positions stay in step: known names first, as many as remembered, then new ones. */
  ghost predicate Orderly(m: map<string, Pair>, samples: seq<Sample>, index: nat)
    decreases |samples|
  {
    samples != [] ==>
      && (index < |m| <==> samples[0].name in m)
      && (samples[0].name in m ==> samples[0].sum >= m[samples[0].name].sum)
      && Orderly(MapPut(m, samples[0]), samples[1..], index + 1)
  }

  lemma {:induction false} NotSentinel(sum: real, count: nat, prev: Last)
    requires count > prev.count && sum >= prev.sum
    ensures Ratio(sum, count, prev) != UNSET
  {
    var d, n := sum - prev.sum, (count - prev.count) as real;
    assert d / n >= 0.0;
  }

  /** Every orderly poll gives the map's answers and leaves the map's bindings. */
  lemma {:induction false} PollRefines(c: seq<Last>, m: map<string, Pair>, samples: seq<Sample>, index: nat)
    requires Models(c, m) && Orderly(m, samples, index)
    ensures var r, (avgs, m') := Poll(c, samples, index), MapPoll(m, samples);
            r.Polled? && r.avgs == avgs && Models(r.cache, m')
    decreases |samples|
  {
    hide Models, MapAvg, GetLastAvg;
    if samples != [] {
      var s := samples[0];
      FirstInStep(c, m, s, index);
      CallExact(c, m, s, index);
      PollRefines(GetLastAvg(c, s, index).cache, MapPut(m, s), samples[1..], index + 1);
    }
  }

  lemma {:induction false} FirstInStep(c: seq<Last>, m: map<string, Pair>, s: Sample, index: nat)
    requires Models(c, m) && (index < |m| <==> s.name in m) && (s.name in m ==> s.sum >= m[s.name].sum)
    ensures InStep(c, s, index) && !Sentinel(c, s)
  {
    SameSize(c, m);
    var t := Search(c, s.name);
    if t >= 0 && s.count > c[t].count { NotSentinel(s.sum, s.count, c[t]); }
  }

  /** The first poll after the schema was read, with distinct names, is orderly. */
  lemma {:induction false} FirstPollOrderly(m: map<string, Pair>, samples: seq<Sample>)
    requires forall i, j :: 0 <= i < j < |samples| ==> samples[i].name != samples[j].name
    requires forall i :: 0 <= i < |samples| ==> samples[i].name !in m
    ensures Orderly(m, samples, |m|)
    decreases |samples|
  {
    if samples != [] {
      assert MapPut(m, samples[0]).Keys == m.Keys + {samples[0].name};
      FirstPollOrderly(MapPut(m, samples[0]), samples[1..]);
    }
  }

  /** A later poll over remembered names, not more of them than remembered, with no sum decreasing. */
  lemma {:induction false} LaterPollOrderly(m: map<string, Pair>, samples: seq<Sample>, index: nat)
    requires index + |samples| <= |m|
    requires forall i :: 0 <= i < |samples| ==> samples[i].name in m && samples[i].sum >= m[samples[i].name].sum
    requires forall i, j :: 0 <= i < j < |samples| ==> samples[i].name != samples[j].name
    ensures Orderly(m, samples, index)
    decreases |samples|
  {
    if samples != [] {
      var m' := MapPut(m, samples[0]);
      assert m'.Keys == m.Keys;
      LaterPollOrderly(m', samples[1..], index + 1);
    }
  }

  function Names(samples: seq<Sample>): (r: seq<string>)
    ensures |r| == |samples| && forall i :: 0 <= i < |r| ==> r[i] == samples[i].name
  {
    seq(|samples|, i requires 0 <= i < |samples| => samples[i].name)
  }

  lemma {:induction false} PollNames(m: map<string, Pair>, samples: seq<Sample>)
    ensures MapPoll(m, samples).1.Keys == m.Keys + set n | n in Names(samples)
    decreases |samples|
  {
    if samples != [] {
      PollNames(MapPut(m, samples[0]), samples[1..]);
      assert Names(samples) == [samples[0].name] + Names(samples[1..]);
    }
  }

  /** Every later poll reports a rearrangement of the first, and no sum ever decreases. */
  ghost predicate Stable(m: map<string, Pair>, first: seq<string>, polls: seq<seq<Sample>>)
    decreases |polls|
  {
    polls != [] ==>
      && multiset(Names(polls[0])) == multiset(first)
      && (forall i :: 0 <= i < |polls[0]| && polls[0][i].name in m ==> polls[0][i].sum >= m[polls[0][i].name].sum)
      && Stable(MapPoll(m, polls[0]).1, first, polls[1..])
  }

  /** A run of polls: the answers of each, and the array at the end; None when one faults. */
  function Polls(c: seq<Last>, polls: seq<seq<Sample>>): Option<(seq<seq<Option<real>>>, seq<Last>)>
    decreases |polls|
  {
    if polls == [] then Some(([], c))
    else
      var r := Poll(c, polls[0], 0);
      if r.Faulted? then None
      else
        var rest := Polls(r.cache, polls[1..]);
        if rest.None? then None else Some(([r.avgs] + rest.value.0, rest.value.1))
  }

  function MapPolls(m: map<string, Pair>, polls: seq<seq<Sample>>): (seq<seq<Option<real>>>, map<string, Pair>)
    decreases |polls|
  {
    if polls == [] then ([], m)
    else
      var first := MapPoll(m, polls[0]);
      var rest := MapPolls(first.1, polls[1..]);
      ([first.0] + rest.0, rest.1)
  }

  /** The run of the array and that of the map agree: in every answer, and in the bindings at the end, one entry
      for each of these names. */
  ghost predicate Agree(c: seq<Last>, m: map<string, Pair>, polls: seq<seq<Sample>>, names: seq<string>)
  {
    var r, (answers, last) := Polls(c, polls), MapPolls(m, polls);
    && r.Some? && r.value.0 == answers
    && Models(r.value.1, last) && last.Keys == (set n | n in names)
  }

  lemma {:induction false} DistinctByCount(first: seq<string>, names: seq<string>)
    requires multiset(names) == multiset(first)
    requires forall i, j :: 0 <= i < j < |first| ==> first[i] != first[j]
    ensures |names| == |first|
    ensures forall i, j :: 0 <= i < j < |names| ==> names[i] != names[j]
    ensures (set n | n in names) == (set n | n in first)
  {
    assert |names| == |multiset(names)|;
    forall n ensures n in names <==> n in first {
      assert n in names <==> n in multiset(names);
      assert n in first <==> n in multiset(first);
    }
    forall i, j | 0 <= i < j < |names| ensures names[i] != names[j] {
      var a, b := names[..j], names[j..];
      assert names == a + b && a[i] == names[i] && b[0] == names[j];
      assert multiset(names) == multiset(a) + multiset(b);
      assert names[i] in multiset(a) && names[j] in multiset(b);
      OnceEach(first, names[i]);
    }
  }

  lemma {:induction false} OnceEach(first: seq<string>, n: string)
    requires forall i, j :: 0 <= i < j < |first| ==> first[i] != first[j]
    ensures multiset(first)[n] <= 1
  {
    if first != [] {
      var k := |first| - 1;
      assert first == first[..k] + [first[k]];
      OnceEach(first[..k], n);
    }
  }

  /** One later poll: the map's answers, and the same names as before. */
  lemma {:induction false} OneLaterPoll(c: seq<Last>, m: map<string, Pair>, first: seq<string>, p: seq<Sample>)
    requires forall i, j :: 0 <= i < j < |first| ==> first[i] != first[j]
    requires Models(c, m) && m.Keys == (set n | n in first) && |m| == |first| && multiset(Names(p)) == multiset(first)
    requires forall i :: 0 <= i < |p| && p[i].name in m ==> p[i].sum >= m[p[i].name].sum
    ensures var r, (avgs, m') := Poll(c, p, 0), MapPoll(m, p);
            r.Polled? && r.avgs == avgs && Models(r.cache, m') && m'.Keys == m.Keys
  {
    hide Models, Poll, MapPoll, Orderly;
    DistinctByCount(first, Names(p));
    forall i | 0 <= i < |p| ensures p[i].name in m { assert Names(p)[i] in first; }
    forall i, j | 0 <= i < j < |p| ensures p[i].name != p[j].name { assert Names(p)[i] != Names(p)[j]; }
    LaterPollOrderly(m, p, 0);
    PollRefines(c, m, p, 0);
    PollNames(m, p);
  }

  /** Agreement on one poll and on the polls behind it is agreement on all. */
  lemma {:induction false} AgreeCons(c: seq<Last>, m: map<string, Pair>, polls: seq<seq<Sample>>, names: seq<string>)
    requires polls != [] && Poll(c, polls[0], 0).Polled? && Poll(c, polls[0], 0).avgs == MapPoll(m, polls[0]).0
    requires Agree(Poll(c, polls[0], 0).cache, MapPoll(m, polls[0]).1, polls[1..], names)
    ensures Agree(c, m, polls, names)
  {
    hide Poll, MapPoll, Models;
  }

  lemma {:induction false} LaterPolls(c: seq<Last>, m: map<string, Pair>, first: seq<string>, polls: seq<seq<Sample>>)
    requires forall i, j :: 0 <= i < j < |first| ==> first[i] != first[j]
    requires Models(c, m) && m.Keys == (set n | n in first) && |m| == |first| && Stable(m, first, polls)
    ensures Agree(c, m, polls, first)
    decreases |polls|
  {
    hide Models, Poll, MapPoll;
    if polls != [] {
      hide Agree;
      OneLaterPoll(c, m, first, polls[0]);
      var m1 := MapPoll(m, polls[0]).1;
      assert |m1| == |m1.Keys| == |m.Keys| == |m|;
      LaterPolls(Poll(c, polls[0], 0).cache, m1, first, polls[1..]);
      AgreeCons(c, m, polls, first);
    }
  }

  /** For every run whose first poll has distinct counters and whose later polls rearrange them with no
      sum decreasing, the array answers exactly as the map would, never faults, and ends with exactly one
      entry per counter, the map's binding. */
  lemma {:induction false} RunRefines(polls: seq<seq<Sample>>)
    requires polls != []
    requires forall i, j :: 0 <= i < j < |polls[0]| ==> polls[0][i].name != polls[0][j].name
    requires Stable(map[], Names(polls[0]), polls)
    ensures Agree([], map[], polls, Names(polls[0]))
  {
    hide Poll, MapPoll, Models, Orderly, Search, Agree;
    var p, first := polls[0], Names(polls[0]);
    var m: map<string, Pair> := map[];
    FirstPollOrderly(m, p);
    EmptyModels();
    PollRefines([], m, p, 0);
    PollNames(m, p);
    var c1, m1 := Poll([], p, 0).cache, MapPoll(m, p).1;
    assert m1.Keys == (set n | n in first);
    SetSize(first);
    assert |m1| == |m1.Keys|;
    LaterPolls(c1, m1, first, polls[1..]);
    AgreeCons([], m, polls, first);
  }

  lemma {:induction false} EmptyModels()
    ensures Models([], map[])
  {
  }

  lemma {:induction false} SetSize(first: seq<string>)
    requires forall i, j :: 0 <= i < j < |first| ==> first[i] != first[j]
    ensures |set n | n in first| == |first|
  {
    if first != [] {
      var k := |first| - 1;
      SetSize(first[..k]);
      assert (set n | n in first) == (set n | n in first[..k]) + {first[k]};
    }
  }

  // ------------------------------------------------------------------------ the daemon record

  class Daemon {
    var lastPoll: seq<Last>

    method BackupSearch(name: string) returns (i: int)
      ensures i == Search(lastPoll, name)
    {
      i := 0;
      while i < |lastPoll|
        invariant 0 <= i <= |lastPoll|
        invariant forall k :: 0 <= k < i ==> lastPoll[k].name != name
      {
        if lastPoll[i].name == name {
          return;
        }
        i := i + 1;
      }
      i := -1;
    }

    method Update(s: Sample, index: nat)
      modifies this
      ensures lastPoll == UpdateLast(old(lastPoll), s, index)
    {
      if index < |lastPoll| && lastPoll[index].name == s.name {
        lastPoll := lastPoll[index := lastPoll[index].(sum := s.sum, count := s.count)];
        return;
      }
      lastPoll := lastPoll + [Last(s.name, s.sum, s.count)];
    }

    /** `get_last_avg`; `fault` is the access in front of the array, before which everything is as it was. */
    method Average(s: Sample, index: nat) returns (avg: Option<real>, fault: bool)
      modifies this
      ensures GetLastAvg(old(lastPoll), s, index) == if fault then OutOfBounds else Ok(avg, lastPoll)
      ensures fault ==> lastPoll == old(lastPoll)
    {
      var result, t := UNSET, 0;
      if index < |lastPoll| {
        if lastPoll[index].name == s.name {
          t := index;
        } else if index > 0 && lastPoll[index - 1].name == s.name {
          t := index - 1;
        } else {
          t := BackupSearch(s.name);
        }
        if t > -1 && s.count > lastPoll[t].count {
          var sumDelta := s.sum - lastPoll[t].sum;
          result := sumDelta / ((s.count - lastPoll[t].count) as real);
        }
      }
      avg := if result == UNSET then None else Some(result);
      if t < 0 {
        return avg, true;
      }
      Update(s, t);
      fault := false;
    }
  }
}
