/**
 Deadlock of calls with worker processes (src/spl/embedded.py:1641-1798), decided by
 the calls: one family alone can reach a state in which nobody can go on exactly if
 some worker makes a call that shares a bundle or an environment with an execution
 that waits for it.
 */
module CacheDeadlock {
  import opened Common
  import opened CacheLocks
  import opened CacheSafety
  import opened CacheProgress
  import opened CacheScripts
  import opened CacheCalls
  import opened CacheWorkers
  import opened CacheFamilies

  // ----------------------------------------------------- scripts stay what they are

  /** Every thread has ahead only executions and locks of its own program's calls. */
  ghost predicate Follows(s: State, programs: seq<Program>) {
    |s.threads| == |programs| && forall a | 0 <= a < |programs| :: KeepsTo(s.threads[a].ops, programs[a])
  }

  ghost predicate KeepsTo(ops: seq<Op>, p: Program) { Marked(ops, Inside(p.calls)) && TakesOf(ops, Inside(p.calls)) }

  lemma StartFollows(programs: seq<Program>, dirs: map<Dir, nat>, clock: nat)
    requires FreshIds(programs, dirs)
    ensures Follows(Start(programs, dirs, clock), programs)
  {
    var s := Start(programs, dirs, clock);
    forall a | 0 <= a < |programs| ensures KeepsTo(s.threads[a].ops, programs[a]) {
      ScriptKeepsTo(programs[a]);
      assert s.threads[a] == StartThread(programs[a]);
    }
  }

  lemma ScriptKeepsTo(p: Program)
    requires NoRepeats(RunIds(p.calls))
    ensures KeepsTo(Scripts(p.calls), p)
  {
    hide Scripts, Inside, RunIds;
    NoOpsRun([]);
    ScriptsAreMarked(p.calls, [], [], Inside(p.calls));
    assert Scripts(p.calls) + [] == Scripts(p.calls);
    ScriptsTakeOf(p.calls, Inside(p.calls));
  }

  lemma StepFollows(s: State, s': State, a: Actor, programs: seq<Program>)
    requires Follows(s, programs) && Step(s, s', a)
    ensures Follows(s', programs)
  {
    hide Progress, RaiseStep, KeepsTo;
    OneThreadMoves(s, s', a);
    if Progress(s, s', a) {
      OpsAfter(s, s', a);
      HeadAfter(s, s', a);
      StepHasOps(s, s', a);
      assert KeepsTo(s.threads[a].ops, programs[a]);
      ProgressKeepsTo(s.threads[a].ops, s'.threads[a].ops, programs[a]);
    } else {
      RaiseRecovers(s, s', a);
      RecoveredKeepsTo(s.threads[a], s'.threads[a].ops, programs[a]);
    }
  }

  lemma RaiseRecovers(s: State, s': State, a: Actor)
    requires a < |s.threads| && s.threads[a].ops != [] && RaiseStep(s, s', a) && a < |s'.threads|
    ensures Recovers(s.threads[a], s'.threads[a].ops)
  {
    hide Recovers;
    var rest :| Recovers(s.threads[a], rest) && Unwound(s, s', a, rest);
  }

  /** If the first operation is replaced, then by a sweep. */
  lemma HeadAfter(s: State, s': State, a: Actor)
    requires Progress(s, s', a) && a < |s'.threads|
    ensures var ops, ops' := s.threads[a].ops, s'.threads[a].ops;
      ops' == ops || ops' == ops[1..] || (ops' != [] && ops'[0].Sweep?)
    ensures s'.threads[a].ops == s.threads[a].ops ==> !s.threads[a].ops[0].Execute?
  {
    hide SweepStep, CleanupStep;
    match s.threads[a].ops[0]
    case Sweep(_, _, _, _, _) => SweepHead(s, s', a, s.threads[a].ops[0]);
    case Cleanup(_, _, _, _) => CleanupHead(s, s', a, s.threads[a].ops[0]);
    case _ =>
  }

  lemma SweepHead(s: State, s': State, a: Actor, op: Op)
    requires Unfinished(s, a) && s.threads[a].ops[0] == op && op.Sweep? && SweepStep(s, s', a, op) && a < |s'.threads|
    ensures var ops, ops' := s.threads[a].ops, s'.threads[a].ops; ops' == ops[1..] || (ops' != [] && ops'[0].Sweep?)
  {
  }

  lemma CleanupHead(s: State, s': State, a: Actor, op: Op)
    requires Unfinished(s, a) && s.threads[a].ops[0] == op && op.Cleanup? && CleanupStep(s, s', a, op)
    requires a < |s'.threads|
    ensures var ops, ops' := s.threads[a].ops, s'.threads[a].ops; ops' == ops[1..] || (ops' != [] && ops'[0].Sweep?)
  {
    hide Lists;
  }

  lemma ProgressKeepsTo(ops: seq<Op>, ops': seq<Op>, p: Program)
    requires ops != [] && KeepsTo(ops, p)
    requires ops' == ops || ops' == ops[1..] || (ops' != [] && ops'[0].Sweep? && ops'[1..] == ops[1..])
    ensures KeepsTo(ops', p)
  {
    if ops' != ops && ops' != ops[1..] {
      forall op | op in ops' && op.Acquire? ensures op in ops {
        var i :| 0 <= i < |ops'| && ops'[i] == op;
        assert op == ops'[1..][i - 1];
      }
    }
  }

  lemma RecoveredKeepsTo(t: Thread, rest: seq<Op>, p: Program)
    requires Recovers(t, rest) && KeepsTo(t.ops, p)
    ensures KeepsTo(rest, p)
  {
    hide Unwinds, Runs, Marked;
    var left, unwinding, later :|
      Unwinds(t.held, left, unwinding) && Catches(t.ops, left, later) && rest == unwinding + later;
    UnwindingExecutesNothing(t.held, left, unwinding);
    UnwindingTakesNothing(t.held, left, unwinding);
    if later == [] {
      NothingMarked(Inside(p.calls));
    } else {
      var j :| 0 <= j < |t.ops| && t.ops[j].Resume? && later == t.ops[j..] && Runs(left, later) == Some([]);
      MarkedSuffix(t.ops, j, Inside(p.calls));
    }
    MarkedPrefix(unwinding, later, Inside(p.calls));
  }

  lemma NothingMarked(calls: seq<Call>)
    ensures Marked([], calls)
  {
  }

  lemma {:induction false} UnwindingTakesNothing(held: seq<Lock>, left: seq<Lock>, rest: seq<Op>)
    requires Unwinds(held, left, rest)
    ensures forall op | op in rest :: !op.Acquire?
    decreases |rest|
  {
    if rest != [] {
      UnwindingTakesNothing(if rest[0].Cleanup? then held else held[..|held| - 1], left, rest[1..]);
    }
  }

  /** What holds in every state of every run of programs with workers, exceptions included. */
  ghost predicate Reached(crew: Crew, programs: seq<Program>, s: State) {
    Inv(s) && CrewInv(crew, s) && Follows(s, programs)
  }

  lemma {:induction false} RunIsReached(crew: Crew, programs: seq<Program>, dirs: map<Dir, nat>, clock: nat,
                                        run: seq<State>, who: seq<Actor>, k: nat)
    requires CrewOk(crew, |programs|) && FreshIds(programs, dirs)
    requires IsCrewRun(crew, run, who) && run[0] == Start(programs, dirs, clock) && k < |run|
    ensures Reached(crew, programs, run[k])
  {
    hide Inv, CrewInv, Follows, FreshIds, Step;
    CrewKeepsInv(crew, programs, dirs, clock, run, who, k);
    if k == 0 { StartFollows(programs, dirs, clock); }
    else {
      RunIsReached(crew, programs, dirs, clock, run, who, k - 1);
      StepFollows(run[k - 1], run[k], who[k - 1], programs);
    }
  }

  // ----------------------------------------------------- a need is a clash of calls

  /** An executing thread holds exactly the bundle and environment locks of the call that it executes. */
  lemma HoldsOfCall(s: State, p: Program, b: Actor) returns (d: Call)
    requires Executing(s, b) && Orderly(s.threads[b]) && KeepsTo(s.threads[b].ops, p)
    ensures d in Inside(p.calls) && d.Isolated? && d.run == s.threads[b].ops[0].run && Holds(s.threads[b].held, d)
  {
    var t := s.threads[b];
    hide Runs, Inside, Holds;
    assert ExecutesOne(t.ops, Inside(p.calls));
    var held;
    d, held :|
      d in Inside(p.calls) && d.Isolated? && d.run == t.ops[0].run && Holds(held, d) && Runs(held, t.ops) == Some([]);
    RestTellsHeld(held, t.held, t.ops);
  }

  /** If a worker needs a lock of somebody who waits for it, some of their calls share a bundle or an environment. */
  lemma NeedIsClash(crew: Crew, programs: seq<Program>, s: State, w: Actor, b: Actor, n: Lock)
    requires Reached(crew, programs, s) && CrewOk(crew, |programs|) && Needs(crew, s, w, b, n)
    ensures Clash(crew, programs)
  {
    hide Inside, Inv, CrewInv, KeepsTo, Above, Holds;
    var x := WorksFor(crew, w, b);
    BegunAbove(crew, s, w, b);
    assert Working(crew, s, x) && KeepsTo(s.threads[b].ops, programs[b]) && KeepsTo(s.threads[w].ops, programs[w]);
    IsOrderly(s, b);
    AboveIsOther(crew, w);
    var d := HoldsOfCall(s, programs[b], b);
    NotARunLock(s, w, b, n);
    HeldIsUsed(s.threads[b].held, d, n);
    var c := TakerOf(s.threads[w].ops, programs[w], n);
    OneLockShared(d, c, n);
    InCrew(crew, w, b);
    assert ClashAt(crew, programs, w, x, d, c);
  }

  lemma IsOrderly(s: State, b: Actor)
    requires Inv(s) && b < |s.threads|
    ensures Orderly(s.threads[b])
  {
  }

  lemma InCrew(crew: Crew, w: Actor, b: Actor)
    requires b in Above(crew, w)
    ensures w in crew
  {
  }

  lemma HeldIsUsed(held: seq<Lock>, d: Call, n: Lock)
    requires Holds(held, d) && n in held && n.space != Artifacts
    ensures UsedBy(d, n)
  {
  }

  lemma TakerOf(ops: seq<Op>, p: Program, n: Lock) returns (c: Call)
    requires KeepsTo(ops, p) && Acquire(n) in ops && (n.space == Bundles || n.space == Environments)
    ensures c in Inside(p.calls) && UsedBy(c, n)
  {
    hide Marked, Inside;
    var op := Acquire(n);
    assert op in ops && op.Acquire?;
    c :| c in Inside(p.calls) && UsedBy(c, op.lock);
  }

  lemma OneLockShared(d: Call, c: Call, n: Lock)
    requires d.Isolated? && UsedBy(d, n) && UsedBy(c, n)
    ensures Share(d, c) && (n.space == Bundles || n.space == Environments)
  {
  }

  /** Nobody else holds the lock of a run that is still to be taken. */
  lemma NotARunLock(s: State, w: Actor, b: Actor, n: Lock)
    requires Inv(s) && b < |s.threads| && w < |s.threads| && w != b && Acquire(n) in s.threads[w].ops
    requires n in s.threads[b].held
    ensures n.space != Artifacts
  {
    hide Pending, TakenOnce;
    if n.space == Artifacts {
      PendingIn(s.threads[w].ops, n);
      NobodyElseOwns(s, w, b, n.key);
    }
  }

  lemma {:induction false} PendingIn(ops: seq<Op>, n: Lock)
    requires Acquire(n) in ops && n.space == Artifacts
    ensures n.key in Pending(ops)
  {
    if ops[0] != Acquire(n) { PendingIn(ops[1..], n); }
  }

  // ---------------------------------------------------------- a clash is never resolved

  /** Every job that is not done is still ahead of its boss. */
  ghost predicate JobsAhead(crew: Crew, s: State) {
    forall w | w in crew && Unfinished(s, w) ::
      crew[w].boss < |s.threads| && StillToDo(s.threads[crew[w].boss].ops, crew[w].run)
  }

  ghost predicate StillToDo(ops: seq<Op>, run: Key) {
    exists i :: 0 <= i < |ops| && ops[i].Execute? && ops[i].run == run
  }

  lemma StartHasJobs(crew: Crew, programs: seq<Program>, dirs: map<Dir, nat>, clock: nat)
    requires CrewOk(crew, |programs|) && JobsExist(crew, programs)
    ensures JobsAhead(crew, Start(programs, dirs, clock))
  {
    hide Inside, Scripts;
    var s := Start(programs, dirs, clock);
    forall w | w in crew ensures StillToDo(s.threads[crew[w].boss].ops, crew[w].run) {
      var calls := programs[crew[w].boss].calls;
      var d :| d in Inside(calls) && d.Isolated? && d.run == crew[w].run;
      InsideIsDone(calls, d);
      assert s.threads[crew[w].boss] == StartThread(programs[crew[w].boss]);
      var i :| 0 <= i < |Scripts(calls)| && Scripts(calls)[i] == Execute(d.run, Digests(d.runtimes));
    }
  }

  lemma ProgressKeepsJobs(crew: Crew, s: State, s': State, a: Actor)
    requires JobsAhead(crew, s) && CrewProgress(crew, s, s', a)
    ensures JobsAhead(crew, s')
  {
    hide Progress;
    ProgressMovesOne(s, s', a);
    OpsAfter(s, s', a);
    HeadAfter(s, s', a);
    StepHasOps(s, s', a);
    forall w | w in crew && Unfinished(s', w)
      ensures crew[w].boss < |s'.threads| && StillToDo(s'.threads[crew[w].boss].ops, crew[w].run)
    {
      UnfinishedBefore(s, s', a, w);
      var j := crew[w];
      if j.boss == a {
        var ops, ops' := s.threads[a].ops, s'.threads[a].ops;
        var i :| 0 <= i < |ops| && ops[i].Execute? && ops[i].run == j.run;
        if ops' == ops { assert ops'[i] == ops[i]; }
        else if i == 0 { JobEnds(crew, s, a, w); }
        else if ops' == ops[1..] { assert ops'[i - 1] == ops[i]; }
        else { assert ops'[1..][i - 1] == ops[1..][i - 1]; assert ops'[i] == ops[i]; }
      }
    }
  }

  lemma UnfinishedBefore(s: State, s': State, a: Actor, w: Actor)
    requires a < |s.threads| == |s'.threads| && s'.threads == s.threads[a := s'.threads[a]]
    requires s.threads[a].ops != [] && Unfinished(s', w)
    ensures Unfinished(s, w)
  {
  }

  /** An execution does not end before its workers have. */
  lemma JobEnds(crew: Crew, s: State, a: Actor, w: Actor)
    requires w in crew && crew[w].boss == a && AtWork(s, crew[w]) && Attended(crew, s, a)
    ensures !Unfinished(s, w)
  {
  }

  /** Whoever has a worker that is not done is not done. */
  lemma {:induction false} AllAboveUnfinished(crew: Crew, s: State, w: Actor)
    requires JobsAhead(crew, s) && Unfinished(s, w)
    ensures forall x | x in Above(crew, w) :: Unfinished(s, x)
  {
    if w in crew && crew[w].boss < w { AllAboveUnfinished(crew, s, crew[w].boss); }
  }

  /** Worker `w` is yet to take lock `n`, and does not get it: call `d`, whose execution waits for it, holds it. */
  lemma ClashKeepsWaiting(crew: Crew, programs: seq<Program>, s: State, s': State, a: Actor,
                          w: Actor, x: Actor, d: Call, c: Call, n: Lock)
    requires Reached(crew, programs, s) && CrewProgress(crew, s, s', a) && CrewOk(crew, |programs|)
    requires ClashAt(crew, programs, w, x, d, c) && NoRepeats(RunIds(programs[crew[x].boss].calls))
    requires UsedBy(d, n) && Acquire(n) in s.threads[w].ops
    ensures w < |s'.threads| && Acquire(n) in s'.threads[w].ops
  {
    hide Progress, Inv, CrewInv, Inside, NoRepeats, RunIds, KeepsTo, Above, UsedBy, Holds;
    ProgressMovesOne(s, s', a);
    if a == w {
      WorkerIsUnfinished(s, w, n);
      HasBegun(crew, s, w);
      var b := crew[x].boss;
      assert Working(crew, s, x) && KeepsTo(s.threads[b].ops, programs[b]);
      IsOrderly(s, b);
      var e := HoldsOfCall(s, programs[b], b);
      OneCallPerRun(programs[b].calls, d, e);
      UsedIsHeld(s.threads[b].held, d, n);
      OwnedByHolder(s, b, n);
      AcquireRemains(s, s', w, n);
    }
  }

  lemma WorkerIsUnfinished(s: State, w: Actor, n: Lock)
    requires w < |s.threads| && Acquire(n) in s.threads[w].ops
    ensures Unfinished(s, w)
  {
  }

  lemma UsedIsHeld(held: seq<Lock>, d: Call, n: Lock)
    requires Holds(held, d) && UsedBy(d, n)
    ensures n in held
  {
  }

  /**
   In a clash, whatever else runs, the worker never finishes without an exception,
   and nor does anybody who waits for it.
   */
  lemma {:induction false} ClashNeverFinishes(crew: Crew, programs: seq<Program>, dirs: map<Dir, nat>, clock: nat,
                                              run: seq<State>, who: seq<Actor>, k: nat,
                                              w: Actor, x: Actor, d: Call, c: Call, n: Lock)
    requires CrewOk(crew, |programs|) && JobsExist(crew, programs) && FreshIds(programs, dirs)
    requires IsSmooth(crew, run, who) && run[0] == Start(programs, dirs, clock) && k < |run|
    requires ClashAt(crew, programs, w, x, d, c) && UsedBy(d, n) && UsedBy(c, n)
    ensures w < |run[k].threads| && Acquire(n) in run[k].threads[w].ops && JobsAhead(crew, run[k])
    ensures Unfinished(run[k], w) && forall y | y in Above(crew, w) :: Unfinished(run[k], y)
  {
    hide Progress, Step, Inside, NoRepeats, RunIds, Above, UsedBy, Reached, JobsAhead, JobsExist, Scripts, Share;
    SmoothIsRun(crew, run, who);
    if k == 0 {
      StartHasJobs(crew, programs, dirs, clock);
      InsideIsDone(programs[w].calls, c);
      assert run[0].threads[w] == StartThread(programs[w]);
    } else {
      ClashNeverFinishes(crew, programs, dirs, clock, run, who, k - 1, w, x, d, c, n);
      RunIsReached(crew, programs, dirs, clock, run, who, k - 1);
      ClashKeepsWaiting(crew, programs, run[k - 1], run[k], who[k - 1], w, x, d, c, n);
      ProgressKeepsJobs(crew, run[k - 1], run[k], who[k - 1]);
    }
    WorkerIsUnfinished(run[k], w, n);
    AllAboveUnfinished(crew, run[k], w);
  }

  lemma SmoothIsRun(crew: Crew, run: seq<State>, who: seq<Actor>)
    requires IsSmooth(crew, run, who)
    ensures IsCrewRun(crew, run, who)
  {
    hide Progress, RaiseStep;
  }

  // ---------------------------------------------------------------- every run ends

  /** How much of its operations a thread has ahead, and of a sweep under way. */
  function OpsLeft(t: Thread): nat {
    if t.ops == [] then 0
    else (if t.ops[0].Sweep? || t.phase > 2 then 0 else 3 - t.phase) + 3 * (|t.ops| - 1)
  }

  function SweepLeft(t: Thread): nat {
    if t.ops == [] || !t.ops[0].Sweep? then 0
    else 3 * |t.ops[0].entries| + (if t.phase > 2 then 1 else 3 - t.phase)
  }

  function Sum(f: Thread -> nat, threads: seq<Thread>): nat {
    if threads == [] then 0 else f(threads[0]) + Sum(f, threads[1..])
  }

  lemma {:induction false} SumUpdate(f: Thread -> nat, threads: seq<Thread>, a: Actor, t: Thread)
    requires a < |threads|
    ensures Sum(f, threads[a := t]) + f(threads[a]) == Sum(f, threads) + f(t)
  {
    var ts := threads[a := t];
    if a == 0 {
      assert ts[1..] == threads[1..];
    } else {
      SumUpdate(f, threads[1..], a - 1, t);
      assert ts[1..] == threads[1..][a - 1 := t];
    }
  }

  /** Every step leaves less to do: fewer operations, or the same and less of a sweep. */
  lemma ProgressLeavesLess(s: State, s': State, a: Actor)
    requires Progress(s, s', a) && a < |s.threads| && a < |s'.threads| && Orderly(s.threads[a])
    ensures var t, t' := s.threads[a], s'.threads[a];
      OpsLeft(t') < OpsLeft(t) || (OpsLeft(t') == OpsLeft(t) && SweepLeft(t') < SweepLeft(t))
  {
    hide Runs, SweepStep, CleanupStep, SweptThread;
    var t := s.threads[a];
    NextIsNoSweep(t);
    match t.ops[0]
    case Sweep(_, _, _, _, _) => SweepLeavesLess(s, s', a, t.ops[0]);
    case Cleanup(_, _, _, _) => CleanupLeavesLess(s, s', a, t.ops[0]);
    case _ =>
  }

  lemma NextIsNoSweep(t: Thread)
    requires Orderly(t) && t.ops != []
    ensures t.ops[1..] != [] ==> !t.ops[1].Sweep?
  {
    if t.ops[0].Sweep? { SweptAhead(t); } else { AheadOfNext(t); }
  }

  lemma SweepLeavesLess(s: State, s': State, a: Actor, op: Op)
    requires Unfinished(s, a) && s.threads[a].ops[0] == op && op.Sweep? && SweepStep(s, s', a, op) && a < |s'.threads|
    requires s.threads[a].phase <= 2 && (s.threads[a].ops[1..] != [] ==> !s.threads[a].ops[1].Sweep?)
    ensures var t, t' := s.threads[a], s'.threads[a]; OpsLeft(t') == OpsLeft(t) && SweepLeft(t') < SweepLeft(t)
  {
  }

  lemma CleanupLeavesLess(s: State, s': State, a: Actor, op: Op)
    requires Unfinished(s, a) && s.threads[a].ops[0] == op && op.Cleanup? && CleanupStep(s, s', a, op)
    requires a < |s'.threads|
    requires s.threads[a].phase == 0 && (s.threads[a].ops[1..] != [] ==> !s.threads[a].ops[1].Sweep?)
    ensures OpsLeft(s'.threads[a]) < OpsLeft(s.threads[a])
  {
    hide Lists;
  }

  /** Nobody can take a step. */
  ghost predicate Halted(crew: Crew, s: State) { forall b, s' :: !CrewProgress(crew, s, s', b) }

  /** Without exceptions, every interleaving comes to a state in which nobody can go on. */
  lemma {:induction false} RunToEnd(crew: Crew, s: State) returns (run: seq<State>, who: seq<Actor>)
    requires Inv(s)
    ensures IsSmooth(crew, run, who) && run[0] == s
    ensures Halted(crew, run[|run| - 1])
    decreases Sum(OpsLeft, s.threads), Sum(SweepLeft, s.threads)
  {
    hide Progress, Inv, Sum, OpsLeft, SweepLeft;
    if b: Actor, s': State :| CrewProgress(crew, s, s', b) {
      ProgressMovesOne(s, s', b);
      IsOrderly(s, b);
      ProgressLeavesLess(s, s', b);
      SumUpdate(OpsLeft, s.threads, b, s'.threads[b]);
      SumUpdate(SweepLeft, s.threads, b, s'.threads[b]);
      StepKeepsInv(s, s', b);
      run, who := RunToEnd(crew, s');
      run, who := [s] + run, [b] + who;
    } else {
      run, who := [s], [];
    }
  }

  // ------------------------------------------------------------------- the exact condition

  /** The first caller has work left, but nobody can take a step. */
  ghost predicate Stuck(crew: Crew, s: State) { Unfinished(s, 0) && Halted(crew, s) }

  /** Without a clash, no state that one family alone reaches is stuck, whatever exceptions there were. */
  lemma NoClashNeverStuck(crew: Crew, programs: seq<Program>, dirs: map<Dir, nat>, clock: nat, run: seq<State>,
                          who: seq<Actor>)
    requires IsFamily(crew, |programs|) && FreshIds(programs, dirs) && !Clash(crew, programs)
    requires IsCrewRun(crew, run, who) && run[0] == Start(programs, dirs, clock)
    ensures !Stuck(crew, run[|run| - 1])
  {
    hide Progress, Step, Clash, Needs, Inv, CrewInv, FreshIds, Follows;
    var s := run[|run| - 1];
    RunIsReached(crew, programs, dirs, clock, run, who, |run| - 1);
    if Unfinished(s, 0) {
      SameSize(s, programs);
      forall w, b, n ensures !Needs(crew, s, w, b, n) {
        if Needs(crew, s, w, b, n) { NeedIsClash(crew, programs, s, w, b, n); }
      }
      var b, s' := AloneMoves(crew, s);
    }
  }

  lemma SameSize(s: State, programs: seq<Program>)
    requires Follows(s, programs)
    ensures |s.threads| == |programs|
  {
  }

  /** With a clash, some run of the family without any exception comes to a stuck state. */
  lemma ClashGetsStuck(crew: Crew, programs: seq<Program>, dirs: map<Dir, nat>, clock: nat)
    returns (run: seq<State>, who: seq<Actor>)
    requires IsFamily(crew, |programs|) && JobsExist(crew, programs) && FreshIds(programs, dirs)
    requires Clash(crew, programs)
    ensures IsSmooth(crew, run, who) && run[0] == Start(programs, dirs, clock) && Stuck(crew, run[|run| - 1])
  {
    hide Progress, Inside, Above, Inv, UsedBy, Share, FreshIds, JobsExist;
    var w, x, d, c :| ClashAt(crew, programs, w, x, d, c);
    var n := SharedLock(d, c);
    StartHasInv(programs, dirs, clock);
    run, who := RunToEnd(crew, Start(programs, dirs, clock));
    ClashNeverFinishes(crew, programs, dirs, clock, run, who, |run| - 1, w, x, d, c, n);
    FirstIsAbove(crew, |programs|, w);
  }

  /**
   One family alone: no interleaving of the call and its workers reaches a state in
   which there is work left but nobody can go on, if and only if no worker makes a
   call that shares a bundle or an environment with an execution that waits for it.
   */
  lemma NeverStuckExactly(crew: Crew, programs: seq<Program>, dirs: map<Dir, nat>, clock: nat)
    requires IsFamily(crew, |programs|) && JobsExist(crew, programs) && FreshIds(programs, dirs)
    ensures !Clash(crew, programs) <==>
            forall run, who | IsCrewRun(crew, run, who) && run[0] == Start(programs, dirs, clock) ::
              !Stuck(crew, run[|run| - 1])
  {
    hide Progress, Step, Clash, FreshIds, JobsExist, IsFamily, Stuck, Start;
    if Clash(crew, programs) {
      var run, who := ClashGetsStuck(crew, programs, dirs, clock);
      SmoothIsRun(crew, run, who);
    } else {
      forall run, who | IsCrewRun(crew, run, who) && run[0] == Start(programs, dirs, clock)
        ensures !Stuck(crew, run[|run| - 1])
      {
        NoClashNeverStuck(crew, programs, dirs, clock, run, who);
      }
    }
  }

  /** A worker that calls the release that its caller executes: such a family gets stuck. */
  lemma SameReleaseGetsStuck(bundle: Key, clock: nat) returns (run: seq<State>, who: seq<Actor>)
    ensures var crew := map[1 := Job(0, 0)];
      var programs :=
        [Program(0, [Isolated(Resolved, bundle, [], 0)]), Program(1, [Isolated(Resolved, bundle, [], 1)])];
      IsSmooth(crew, run, who) && run[0] == Start(programs, map[], clock) && Stuck(crew, run[|run| - 1])
  {
    var crew := map[1 := Job(0, 0)];
    var d, c := Isolated(Resolved, bundle, [], 0), Isolated(Resolved, bundle, [], 1);
    var programs := [Program(0, [d]), Program(1, [c])];
    OneInside(d);
    OneInside(c);
    hide Inside, RunIds, Start, IsSmooth, Stuck;
    assert programs[0].calls == [d] && programs[1].calls == [c];
    assert d in Inside(programs[0].calls) && c in Inside(programs[1].calls);
    assert ClashAt(crew, programs, 1, 1, d, c);
    run, who := ClashGetsStuck(crew, programs, map[], clock);
  }

  lemma OneInside(c: Call)
    requires c.Isolated?
    ensures Inside([c]) == [c] && RunIds([c]) == [c.run]
  {
    assert [c][1..] == [];
  }

  // --------------------------------------------------------------------- in any company

  /** Workers that make no calls. */
  predicate IdleWorkers(crew: Crew, programs: seq<Program>) {
    forall w | w in crew && w < |programs| :: programs[w].calls == []
  }

  lemma {:induction false} IdleStayIdle(crew: Crew, programs: seq<Program>, dirs: map<Dir, nat>, clock: nat,
                                        run: seq<State>, who: seq<Actor>, k: nat, w: Actor)
    requires IsCrewRun(crew, run, who) && run[0] == Start(programs, dirs, clock) && k < |run|
    requires w < |programs| && programs[w].calls == []
    ensures w < |run[k].threads| && run[k].threads[w].ops == []
  {
    hide Step;
    if k == 0 {
      assert run[0].threads[w] == StartThread(programs[w]);
    } else {
      IdleStayIdle(crew, programs, dirs, clock, run, who, k - 1, w);
      StepHasOps(run[k - 1], run[k], who[k - 1]);
      OneThreadMoves(run[k - 1], run[k], who[k - 1]);
    }
  }

  /** If workers make no calls, nobody deadlocks, in any company of calls and families. */
  lemma IdleWorkersNeverDeadlock(crew: Crew, programs: seq<Program>, dirs: map<Dir, nat>, clock: nat,
                                 run: seq<State>, who: seq<Actor>, a: Actor)
    returns (b: Actor, s': State)
    requires CrewOk(crew, |programs|) && FreshIds(programs, dirs) && IdleWorkers(crew, programs)
    requires IsCrewRun(crew, run, who) && run[0] == Start(programs, dirs, clock)
    requires a !in crew && Unfinished(run[|run| - 1], a)
    ensures CrewProgress(crew, run[|run| - 1], s', b)
  {
    hide Progress, Step, Inv, CrewInv, FreshIds, Start;
    var s := run[|run| - 1];
    CrewKeepsInv(crew, programs, dirs, clock, run, who, |run| - 1);
    forall w | w in crew ensures !Blocked(s, w) { IdleStayIdle(crew, programs, dirs, clock, run, who, |run| - 1, w); }
    b, s' := SomebodyMoves(crew, s, a);
  }

  // --------------------------------------------------------------- two families together

  /** Worker `w` of `b` is yet to take `n`, which the other caller holds while it waits for its own worker. */
  ghost predicate WaitsFor(crew: Crew, s: State, w: Actor, b: Actor, n: Lock, other: Actor) {
    && w in crew && w < |s.threads| && crew[w].boss == b && AtWork(s, crew[w]) && Acquire(n) in s.threads[w].ops
    && w != b && w != other
    && other < |s.threads| && n in s.threads[other].held
  }

  lemma CrossStays(crew: Crew, s: State, s': State, a: Actor, v: Actor, b: Actor, m: Lock, w: Actor, c: Actor, n: Lock)
    requires Inv(s) && WaitsFor(crew, s, v, b, m, c) && WaitsFor(crew, s, w, c, n, b) && v != w
    requires CrewProgress(crew, s, s', a)
    ensures WaitsFor(crew, s', v, b, m, c) && WaitsFor(crew, s', w, c, n, b)
  {
    hide Progress, Inv;
    ProgressMovesOne(s, s', a);
    WorkerIsUnfinished(s, v, m);
    WorkerIsUnfinished(s, w, n);
    OwnedByHolder(s, c, m);
    OwnedByHolder(s, b, n);
    if a == v { AcquireRemains(s, s', v, m); }
    if a == w { AcquireRemains(s, s', w, n); }
  }

  lemma {:induction false} CrossNeverEnds(crew: Crew, run: seq<State>, who: seq<Actor>, k: nat,
                                          v: Actor, b: Actor, m: Lock, w: Actor, c: Actor, n: Lock)
    requires IsSmooth(crew, run, who) && Inv(run[0]) && k < |run| && v != w
    requires WaitsFor(crew, run[0], v, b, m, c) && WaitsFor(crew, run[0], w, c, n, b)
    ensures Inv(run[k]) && WaitsFor(crew, run[k], v, b, m, c) && WaitsFor(crew, run[k], w, c, n, b)
  {
    hide Inv, Progress, WaitsFor;
    if k > 0 {
      CrossNeverEnds(crew, run, who, k - 1, v, b, m, w, c, n);
      CrossStays(crew, run[k - 1], run[k], who[k - 1], v, b, m, w, c, n);
      StepKeepsInv(run[k - 1], run[k], who[k - 1]);
    }
  }

  /** A free lock is taken in two steps. */
  lemma TakeFree(s: State, a: Actor, n: Lock) returns (s1: State, s2: State)
    requires Unfinished(s, a) && s.threads[a].ops[0] == Acquire(n) && s.threads[a].phase == 0
    requires (s.threads[a].pid, n) !in s.threadLocks && n !in s.fileLocks
    ensures Progress(s, s1, a) && Progress(s1, s2, a) && s1.threads == s.threads[a := s.threads[a].(phase := 1)]
    ensures s2.threads == s.threads[a := Popped(s.threads[a]).(held := s.threads[a].held + [n])]
    ensures s2.threadLocks == s.threadLocks[(s.threads[a].pid, n) := a] && s2.fileLocks == s.fileLocks[n := a]
  {
    s1 := AcquireMoves(s, a, n);
    s2 := AcquireMoves(s1, a, n);
  }

  /** A script that takes a bundle lock, then the lock of its run, and executes. */
  predicate Starts(t: Thread, bundle: Key, run: Key) {
    && |t.ops| > 3 && t.phase == 0 && t.held == [] && t.ops[0] == Acquire(Lock(Bundles, bundle))
    && t.ops[1] == Acquire(Lock(Artifacts, run))
    && t.ops[2] == MakeDir(Dir(Artifacts, run)) && t.ops[3].Execute? && t.ops[3].run == run
  }

  /** The five steps to the execution. */
  lemma FiveSteps(s: State, a: Actor, bundle: Key, run: Key) returns (ss: seq<State>)
    requires a < |s.threads| && Starts(s.threads[a], bundle, run)
    requires forall p | p in s.threadLocks :: p.0 != s.threads[a].pid
    requires Lock(Bundles, bundle) !in s.fileLocks && Lock(Artifacts, run) !in s.fileLocks
    ensures |ss| == 6 && ss[0] == s && forall i | 0 <= i < 5 :: Progress(ss[i], ss[i + 1], a)
    ensures forall i | 0 <= i < 5 :: a < |ss[i].threads| && !Executing(ss[i], a)
    ensures var t, n, m := ss[5], Lock(Bundles, bundle), Lock(Artifacts, run);
      && t.threads == s.threads[a := s.threads[a].(ops := s.threads[a].ops[3..], held := [n, m])]
      && t.threadLocks == s.threadLocks[(s.threads[a].pid, n) := a][(s.threads[a].pid, m) := a]
      && t.fileLocks == s.fileLocks[n := a][m := a]
  {
    hide Progress;
    var s1, s2 := TakeFree(s, a, Lock(Bundles, bundle));
    assert s2.threads[a].ops[0] == s.threads[a].ops[1];
    var s3, s4 := TakeFree(s2, a, Lock(Artifacts, run));
    assert s4.threads[a].ops[0] == s.threads[a].ops[2];
    var s5 := MakesDir(s4, a, Dir(Artifacts, run));
    var u := s.threads[a].(ops := s.threads[a].ops[3..], held := [Lock(Bundles, bundle), Lock(Artifacts, run)]);
    assert s5.threads[a] == u;
    assert s5.threads == s.threads[a := u];
    ss := [s, s1, s2, s3, s4, s5];
  }

  /** Where nobody has the locks of a caller, it comes to its execution by itself. */
  lemma ComesToExecution(crew: Crew, s: State, a: Actor, bundle: Key, run: Key)
    returns (states: seq<State>, who: seq<Actor>)
    requires Inv(s) && a < |s.threads| && Starts(s.threads[a], bundle, run) && a !in crew
    requires forall p | p in s.threadLocks :: p.0 != s.threads[a].pid
    requires Lock(Bundles, bundle) !in s.fileLocks && Lock(Artifacts, run) !in s.fileLocks
    ensures IsSmooth(crew, states, who) && states[0] == s
    ensures var t := states[|states| - 1];
      && Inv(t) && |t.threads| == |s.threads|
      && (forall b | 0 <= b < |s.threads| && b != a :: t.threads[b] == s.threads[b])
      && AtWork(t, Job(a, run)) && Lock(Bundles, bundle) in t.threads[a].held
      && (forall p | p in t.threadLocks :: p in s.threadLocks || p.0 == s.threads[a].pid)
      && forall n | n in t.fileLocks :: n in s.fileLocks || n == Lock(Bundles, bundle) || n == Lock(Artifacts, run)
  {
    hide Inv, Progress, Step;
    states := FiveSteps(s, a, bundle, run);
    who := [a, a, a, a, a];
    forall i | 0 <= i < 5 ensures CrewProgress(crew, states[i], states[i + 1], who[i]) {}
    for i := 0 to 5
      invariant Inv(states[i])
    {
      ProgressIsStep(states[i], states[i + 1], a);
      StepKeepsInv(states[i], states[i + 1], a);
    }
  }

  lemma ProgressIsStep(s: State, s': State, a: Actor)
    requires Progress(s, s', a)
    ensures Step(s, s', a)
  {
  }

  lemma MakesDir(s: State, a: Actor, e: Dir) returns (s': State)
    requires Unfinished(s, a) && s.threads[a].ops[0] == MakeDir(e)
    ensures Progress(s, s', a) && s'.threads == s.threads[a := Popped(s.threads[a])]
    ensures s'.threadLocks == s.threadLocks && s'.fileLocks == s.fileLocks
  {
    s' := With(s, a, Popped(s.threads[a])).(dirs := s.dirs[e := s.clock], clock := s.clock + 1);
  }

  lemma SmoothChain(crew: Crew, x: seq<State>, xs: seq<Actor>, y: seq<State>, ys: seq<Actor>)
    requires IsSmooth(crew, x, xs) && IsSmooth(crew, y, ys) && x[|x| - 1] == y[0]
    ensures IsSmooth(crew, x + y[1..], xs + ys) && (x + y[1..])[0] == x[0]
    ensures (x + y[1..])[|x + y[1..]| - 1] == y[|y| - 1]
  {
    hide CrewProgress;
    var run, who := x + y[1..], xs + ys;
    forall i | 0 <= i < |who| ensures CrewProgress(crew, run[i], run[i + 1], who[i]) {
      if i >= |xs| { assert run[i] == y[i - |xs|] && run[i + 1] == y[i - |xs| + 1]; }
    }
  }

  lemma SimpleScript(bundle: Key, run: Key)
    ensures forall pid :: Starts(StartThread(Program(pid, [Isolated(Resolved, bundle, [], run)])), bundle, run)
    ensures Acquire(Lock(Bundles, bundle)) in Scripts([Isolated(Resolved, bundle, [], run)])
  {
    var d := Isolated(Resolved, bundle, [], run);
    IsolatedInParts(d);
    assert Environs(d) == [] && Opening(d) == [];
    assert Before(d) == [Acquire(Lock(Bundles, bundle))] + Entering(run);
    assert [d][1..] == [];
    assert Scripts([d])[0] == Acquire(Lock(Bundles, bundle));
    assert Scripts([d])[..4] == Before(d) + [Execute(run, Digests([]))];
  }

  function Simple(pid: Pid, bundle: Key, run: Key): Program { Program(pid, [Isolated(Resolved, bundle, [], run)]) }

  /** Two callers, each with a worker that calls the release of the other. */
  function Crossed(x: Key, y: Key): seq<Program> {
    [Simple(0, x, 0), Simple(1, y, 1), Simple(2, y, 2), Simple(3, x, 3)]
  }

  const CROSSED_CREW: Crew := map[1 := Job(0, 0), 3 := Job(2, 2)]

  /** Each of these calls has its own run, and no worker shares anything with its own caller. */
  lemma CrossedAreApart(x: Key, y: Key)
    requires x != y
    ensures FreshIds(Crossed(x, y), map[]) && !Clash(CROSSED_CREW, Crossed(x, y))
  {
    var crew, programs := CROSSED_CREW, Crossed(x, y);
    OneInside(Isolated(Resolved, x, [], 0));
    OneInside(Isolated(Resolved, y, [], 1));
    OneInside(Isolated(Resolved, y, [], 2));
    OneInside(Isolated(Resolved, x, [], 3));
    hide Inside, RunIds;
    assert Above(crew, 1) == {0} && Above(crew, 3) == {2};
    forall w, v, d, c ensures !ClashAt(crew, programs, w, v, d, c) {}
  }

  lemma CrossedStart(x: Key, y: Key, clock: nat, a: Actor)
    requires a < 4
    ensures var s := Start(Crossed(x, y), map[], clock);
      var bundle := if a == 0 || a == 3 then x else y;
      && |s.threads| == 4 && s.threadLocks == map[] && s.fileLocks == map[] && s.threads[a].pid == a
      && Starts(s.threads[a], bundle, a) && Acquire(Lock(Bundles, bundle)) in s.threads[a].ops
  {
    hide Scripts;
    var s := Start(Crossed(x, y), map[], clock);
    assert s.threads[a] == StartThread(Crossed(x, y)[a]);
    SimpleScript(if a == 0 || a == 3 then x else y, a);
  }

  /** Both callers come to their executions, and then each worker needs what the other's caller holds. */
  lemma CrossedBegin(x: Key, y: Key, clock: nat) returns (run: seq<State>, who: seq<Actor>)
    requires x != y
    ensures IsSmooth(CROSSED_CREW, run, who) && run[0] == Start(Crossed(x, y), map[], clock)
    ensures var t := run[|run| - 1];
      Inv(t) && WaitsFor(CROSSED_CREW, t, 1, 0, Lock(Bundles, y), 2)
      && WaitsFor(CROSSED_CREW, t, 3, 2, Lock(Bundles, x), 0)
  {
    hide Inv, Scripts, Start, FreshIds, Clash, CrewProgress, Starts, Crossed;
    var s := Start(Crossed(x, y), map[], clock);
    CrossedAreApart(x, y);
    StartHasInv(Crossed(x, y), map[], clock);
    CrossedStart(x, y, clock, 0);
    CrossedStart(x, y, clock, 1);
    CrossedStart(x, y, clock, 2);
    CrossedStart(x, y, clock, 3);
    var r0, w0 := ComesToExecution(CROSSED_CREW, s, 0, x, 0);
    var r2, w2 := ComesToExecution(CROSSED_CREW, r0[|r0| - 1], 2, y, 2);
    var t := r2[|r2| - 1];
    assert t.threads[0] == r0[|r0| - 1].threads[0];
    assert AtWork(t, Job(0, 0)) && AtWork(t, Job(2, 2));
    SmoothChain(CROSSED_CREW, r0, w0, r2, w2);
    run, who := r0 + r2[1..], w0 + w2;
  }

  /**
   In company, no call of a worker is harmless: two families in which each worker
   calls the release that the other's caller executes get stuck, although no worker
   shares anything with its own caller.
   */
  lemma CrossedReleasesGetStuck(x: Key, y: Key, clock: nat) returns (run: seq<State>, who: seq<Actor>)
    requires x != y
    ensures !Clash(CROSSED_CREW, Crossed(x, y))
    ensures IsSmooth(CROSSED_CREW, run, who) && run[0] == Start(Crossed(x, y), map[], clock)
    ensures var t := run[|run| - 1]; Halted(CROSSED_CREW, t) && Unfinished(t, 0) && Unfinished(t, 2)
  {
    hide Inv, Start, Clash, Crossed, WaitsFor, IsSmooth, Halted;
    CrossedAreApart(x, y);
    var r, w := CrossedBegin(x, y, clock);
    SmoothLength(CROSSED_CREW, r, w);
    var r', w' := RunToEnd(CROSSED_CREW, r[|r| - 1]);
    SmoothLength(CROSSED_CREW, r', w');
    CrossNeverEnds(CROSSED_CREW, r', w', |r'| - 1, 1, 0, Lock(Bundles, y), 3, 2, Lock(Bundles, x));
    CallersWait(CROSSED_CREW, r'[|r'| - 1], 1, 0, Lock(Bundles, y), 2);
    CallersWait(CROSSED_CREW, r'[|r'| - 1], 3, 2, Lock(Bundles, x), 0);
    SmoothChain(CROSSED_CREW, r, w, r', w');
    run, who := r + r'[1..], w + w';
  }

  lemma SmoothLength(crew: Crew, run: seq<State>, who: seq<Actor>)
    requires IsSmooth(crew, run, who)
    ensures |run| == |who| + 1
  {
  }

  lemma CallersWait(crew: Crew, s: State, w: Actor, b: Actor, n: Lock, other: Actor)
    requires WaitsFor(crew, s, w, b, n, other)
    ensures Unfinished(s, b)
  {
  }
}
