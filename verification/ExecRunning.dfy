/** The `PL_RUNNING` protocol of the exec plugin: the read callback starts at most one reader thread per
    program; the reader forks the child, waits for it and clears the flag. */
module ExecRunning {
  import opened Common

  /** Where a reader thread is: not yet forked, child running, child reaped but flag not yet cleared. */
  datatype Reader = Starting | Reading | Exiting

  /** A program with its flags and pid; `pending` counts claims whose thread is not created yet, `lost` those
      whose thread could not be created. */
  datatype Program = Program(normal: bool, running: bool, pid: int, pending: nat, readers: seq<Reader>, lost: nat)

  datatype Action =
    | Claim                       // the locked section of exec_read
    | Create(ok: bool)            // plugin_thread_create
    | Fork(r: nat, child: int)    // fork_child; a negative child is a failure
    | Reap(r: nat)                // waitpid, pid = 0
    | Clear(r: nat)               // the locked section at the end of exec_read_one

  predicate Enabled(p: Program, a: Action)
  {
    match a
    case Claim => p.normal
    case Create(_) => p.pending > 0
    case Fork(r, child) => r < |p.readers| && p.readers[r] == Starting && child != 0
    case Reap(r) => r < |p.readers| && p.readers[r] == Reading
    case Clear(r) => r < |p.readers| && p.readers[r] == Exiting
  }

  function Removed(readers: seq<Reader>, r: nat): seq<Reader>
    requires r < |readers|
  {
    readers[..r] + readers[r + 1..]
  }

  function Step(p: Program, a: Action): Program
    requires Enabled(p, a)
  {
    match a
    case Claim => if p.running then p else p.(running := true, pending := p.pending + 1)
    case Create(ok) =>
      if ok then p.(pending := p.pending - 1, readers := p.readers + [Starting])
      else p.(pending := p.pending - 1, lost := p.lost + 1)
    case Fork(r, child) =>
      // fork_child refuses when a pid is already recorded
      if p.pid != 0 || child < 0 then p.(running := false, readers := Removed(p.readers, r))
      else p.(pid := child, readers := p.readers[r := Reading])
    case Reap(r) => p.(pid := 0, readers := p.readers[r := Exiting])
    case Clear(r) => p.(running := false, readers := Removed(p.readers, r))
  }

  function Fresh(normal: bool): Program
  {
    Program(normal, false, 0, 0, [], 0)
  }

  ghost predicate Inv(p: Program)
  {
    // the flag accounts for exactly one claim, reader or failed creation
    && p.pending + |p.readers| + p.lost == (if p.running then 1 else 0)
    // the pid is set exactly while the child of that reader runs
    && (p.pid != 0 <==> |p.readers| == 1 && p.readers[0] == Reading)
    && p.pid >= 0
  }

  ghost predicate ValidRun(p: Program, run: seq<Action>)
    decreases |run|
  {
    run == [] || (Enabled(p, run[0]) && ValidRun(Step(p, run[0]), run[1..]))
  }

  function Final(p: Program, run: seq<Action>): Program
    requires ValidRun(p, run)
    decreases |run|
  {
    if run == [] then p else Final(Step(p, run[0]), run[1..])
  }

  lemma {:induction false} StepInv(p: Program, a: Action)
    requires Inv(p) && Enabled(p, a)
    ensures Inv(Step(p, a))
  {
    assert p.readers == [] || p.readers == [p.readers[0]];
    assert !a.Claim? && !a.Create? ==> a.r == 0 && Removed(p.readers, 0) == [];
  }

  lemma {:induction false} RunInv(p: Program, run: seq<Action>)
    requires Inv(p) && ValidRun(p, run)
    ensures Inv(Final(p, run))
    decreases |run|
  {
    if run != [] {
      StepInv(p, run[0]);
      RunInv(Step(p, run[0]), run[1..]);
    }
  }

  /** At every point of every run: at most one reader, a reader means the flag is set, a reader about to fork
      finds no pid, and the flag without a reader or pending creation means that a creation failed. */
  lemma {:induction false} OneReader(normal: bool, run: seq<Action>)
    requires ValidRun(Fresh(normal), run)
    ensures var p := Final(Fresh(normal), run);
            && |p.readers| <= 1
            && (p.readers != [] ==> p.running)
            && (Starting in p.readers ==> p.pid == 0) && p.pid >= 0
            && (p.running && p.readers == [] && p.pending == 0 <==> p.lost == 1)
  {
    hide ValidRun, Final;
    RunInv(Fresh(normal), run);
  }

  /** A failed thread creation is final: nothing can happen to the program any more. */
  lemma {:induction false} NeverAgain(p: Program, run: seq<Action>)
    requires Inv(p) && p.lost == 1 && ValidRun(p, run)
    ensures Final(p, run) == p && forall i :: 0 <= i < |run| ==> run[i] == Claim
  {
    if run != [] {
      assert p.running && p.pending == 0 && p.readers == [];
      NeverAgain(p, run[1..]);
      forall i | 0 <= i < |run| ensures run[i] == Claim {
        assert i > 0 ==> run[i] == run[1..][i - 1];
      }
    }
  }

  /** One failed creation is enough. */
  lemma {:induction false} LostAtOnce()
    ensures var run := [Claim, Create(false)]; ValidRun(Fresh(true), run) && Final(Fresh(true), run).lost == 1
  {
    var run := [Claim, Create(false)];
    var p := Step(Fresh(true), Claim);
    assert run[1..] == [Create(false)] && run[1..][1..] == [];
    assert ValidRun(Step(p, Create(false)), []);
    assert ValidRun(p, [Create(false)]) && Final(p, [Create(false)]).lost == 1;
  }

  lemma {:induction false} KeepsNormal(p: Program, run: seq<Action>)
    requires ValidRun(p, run)
    ensures Final(p, run).normal == p.normal
    decreases |run|
  {
    if run != [] {
      KeepsNormal(Step(p, run[0]), run[1..]);
    }
  }

  /** What one `exec_read` does to one program when nothing else runs meanwhile. */
  function Poll(p: Program, ok: bool): Program
  {
    if p.normal && !p.running then Step(Step(p, Claim), Create(ok)) else p
  }

  /** While no creation has failed, a poll starts every idle normal program, and it gets its child. */
  lemma {:induction false} RunsAgain(run: seq<Action>, child: int)
    requires child > 0 && ValidRun(Fresh(true), run)
    ensures var p := Final(Fresh(true), run); var q := Poll(p, true);
            !p.running ==> Enabled(q, Fork(0, child)) && Step(q, Fork(0, child)).pid == child
  {
    hide ValidRun, Final;
    RunInv(Fresh(true), run);
    KeepsNormal(Fresh(true), run);
  }

  /** A whole life of the program: started, forked, reaped and cleared, it is as it was; and so it is when the fork
      fails. */
  lemma {:induction false} FullCycle(p: Program, child: int)
    requires Inv(p) && p.normal && !p.running && child > 0
    ensures var life := [Claim, Create(true)] + [Fork(0, child), Reap(0), Clear(0)];
            ValidRun(p, life) && Final(p, life) == p
    ensures var life := [Claim, Create(true)] + [Fork(0, -1)]; ValidRun(p, life) && Final(p, life) == p
  {
    hide ValidRun, Final;
    var p2 := Step(Step(p, Claim), Create(true));
    assert p.readers == [] && p2.readers == [Starting];
    Served(p2, p, child);
    Started(p, [Fork(0, child), Reap(0), Clear(0)], p);
    Started(p, [Fork(0, -1)], p);
  }

  lemma {:induction false} Started(p: Program, rest: seq<Action>, end: Program)
    requires p.normal && !p.running && p.pending == 0
    requires var p2 := Step(Step(p, Claim), Create(true)); ValidRun(p2, rest) && Final(p2, rest) == end
    ensures ValidRun(p, [Claim, Create(true)] + rest) && Final(p, [Claim, Create(true)] + rest) == end
  {
    hide ValidRun, Final;
    RunCons(end, rest, Step(p, Claim), Create(true));
    RunCons(end, [Create(true)] + rest, p, Claim);
    assert [Claim] + ([Create(true)] + rest) == [Claim, Create(true)] + rest;
  }

  /** What a started reader does, with and without a child. */
  lemma {:induction false} Served(p: Program, end: Program, child: int)
    requires p.running && p.pid == 0 && p.readers == [Starting] && child > 0
    requires end == p.(running := false, readers := [])
    ensures ValidRun(p, [Fork(0, child), Reap(0), Clear(0)]) && Final(p, [Fork(0, child), Reap(0), Clear(0)]) == end
    ensures ValidRun(p, [Fork(0, -1)]) && Final(p, [Fork(0, -1)]) == end
  {
    hide ValidRun, Final;
    var p1 := Step(p, Fork(0, child));
    assert p1.readers == [Reading];
    var p2 := Step(p1, Reap(0));
    assert p2.readers == [Exiting];
    assert Step(p2, Clear(0)) == end && Step(p, Fork(0, -1)) == end;
    assert [Clear(0)] + [] == [Clear(0)] && [Reap(0)] + [Clear(0)] == [Reap(0), Clear(0)];
    assert [Fork(0, child)] + [Reap(0), Clear(0)] == [Fork(0, child), Reap(0), Clear(0)];
    assert [Fork(0, -1)] + [] == [Fork(0, -1)];
    NoRun(end);
    RunCons(end, [], p2, Clear(0));
    RunCons(end, [Clear(0)], p1, Reap(0));
    RunCons(end, [Reap(0), Clear(0)], p, Fork(0, child));
    RunCons(end, [], p, Fork(0, -1));
  }

  lemma {:induction false} NoRun(p: Program)
    ensures ValidRun(p, []) && Final(p, []) == p
  {
  }

  lemma {:induction false} RunCons(end: Program, rest: seq<Action>, p: Program, a: Action)
    requires Enabled(p, a) && ValidRun(Step(p, a), rest) && Final(Step(p, a), rest) == end
    ensures ValidRun(p, [a] + rest) && Final(p, [a] + rest) == end
  {
    assert ([a] + rest)[0] == a && ([a] + rest)[1..] == rest;
  }

  // ------------------------------------------------------------------------- the threads

  class Exec {
    var programs: seq<Program>

    constructor (normal: seq<bool>)
      ensures |programs| == |normal| && forall k :: 0 <= k < |normal| ==> programs[k] == Fresh(normal[k])
    {
      programs := seq(|normal|, k requires 0 <= k < |normal| => Fresh(normal[k]));
    }

    /** `exec_read`; `created` says for which programs the thread creation succeeds. */
    method ReadAll(created: seq<bool>)
      requires |created| == |programs|
      modifies this
      ensures |programs| == |old(programs)|
      ensures forall k :: 0 <= k < |programs| ==>
                programs[k] == Poll(old(programs)[k], created[k])
    {
      var k := 0;
      while k < |programs|
        invariant 0 <= k <= |programs| == |created| == |old(programs)|
        invariant forall i :: k <= i < |programs| ==> programs[i] == old(programs)[i]
        invariant forall i :: 0 <= i < k ==>
                    programs[i] == Poll(old(programs)[i], created[i])
      {
        var pl := programs[k];
        if pl.normal && !pl.running {
          pl := pl.(running := true, pending := pl.pending + 1);
          if created[k] {
            pl := pl.(pending := pl.pending - 1, readers := pl.readers + [Starting]);
          } else {
            pl := pl.(pending := pl.pending - 1, lost := pl.lost + 1);
          }
          programs := programs[k := pl];
        }
        k := k + 1;
      }
    }

    /** `exec_read_one` for program `k`, from its start to its end; `child` is what `fork` returns. */
    method ReadOne(k: nat, child: int)
      requires k < |programs| && Inv(programs[k]) && programs[k].readers == [Starting] && child != 0
      modifies this
      ensures |programs| == |old(programs)|
      ensures forall i :: 0 <= i < |programs| && i != k ==> programs[i] == old(programs)[i]
      ensures programs[k] == old(programs)[k].(running := false, readers := [])
      ensures Inv(programs[k]) && programs[k].pid == 0
    {
      programs := programs[k := Step(programs[k], Fork(0, child))];
      if child < 0 {
        return;
      }
      programs := programs[k := Step(programs[k], Reap(0))];
      programs := programs[k := Step(programs[k], Clear(0))];
    }
  }
}
