/**
 Isolated calls run in worker processes (src/spl/embedded.py:1667-1760), and the
 code in a worker may call the same cache while its caller waits with all its locks.
 A worker is one more thread, of another process; `crew` says for whom it works:
 for which thread, and for which of its executions.
 */
module CacheWorkers {
  import opened Common
  import opened CacheLocks
  import opened CacheSafety
  import opened CacheProgress
  import opened CacheScripts
  import opened CacheCalls

  /** The execution of one run by one thread. */
  datatype Job = Job(boss: Actor, run: Key)

  type Crew = map<Actor, Job>

  ghost predicate Executing(s: State, a: Actor) { Unfinished(s, a) && s.threads[a].ops[0].Execute? }

  ghost predicate AtWork(s: State, j: Job) { Executing(s, j.boss) && s.threads[j.boss].ops[0].run == j.run }

  /** A worker runs only during the execution that it works for. */
  ghost predicate Working(crew: Crew, s: State, w: Actor) { w in crew ==> AtWork(s, crew[w]) }

  /** An execution ends only when its workers have. */
  ghost predicate Attended(crew: Crew, s: State, a: Actor) {
    Executing(s, a) ==> forall w | w in crew && crew[w] == Job(a, s.threads[a].ops[0].run) :: !Unfinished(s, w)
  }

  ghost predicate CrewStep(crew: Crew, s: State, s': State, a: Actor) {
    Step(s, s', a) && Working(crew, s, a) && Attended(crew, s, a)
  }

  ghost predicate CrewProgress(crew: Crew, s: State, s': State, a: Actor) {
    Progress(s, s', a) && Working(crew, s, a) && Attended(crew, s, a)
  }

  ghost predicate IsCrewRun(crew: Crew, run: seq<State>, who: seq<Actor>) {
    |run| == |who| + 1 && forall i | 0 <= i < |who| :: CrewStep(crew, run[i], run[i + 1], who[i])
  }

  /** A run without exceptions. */
  ghost predicate IsSmooth(crew: Crew, run: seq<State>, who: seq<Actor>) {
    |run| == |who| + 1 && forall i | 0 <= i < |who| :: CrewProgress(crew, run[i], run[i + 1], who[i])
  }

  /** Callers come before their workers. */
  predicate CrewOk(crew: Crew, n: nat) { forall w | w in crew :: crew[w].boss < w < n }

  ghost predicate Untouched(s: State, w: Actor) {
    w < |s.threads| && OwnsThread(s.threads[w]) == {} && !Executing(s, w)
  }

  /** A worker whose execution is not going on has finished, or has not begun. */
  ghost predicate CrewInv(crew: Crew, s: State) {
    CrewOk(crew, |s.threads|) && forall w | w in crew :: AtWork(s, crew[w]) || !Unfinished(s, w) || Untouched(s, w)
  }

  lemma CrewStepKeepsInv(crew: Crew, s: State, s': State, a: Actor)
    requires CrewInv(crew, s) && CrewStep(crew, s, s', a)
    ensures CrewInv(crew, s')
  {
    hide Step, OwnsThread;
    OneThreadMoves(s, s', a);
    forall w | w in crew ensures AtWork(s', crew[w]) || !Unfinished(s', w) || Untouched(s', w) {
      if a == w { assert s'.threads[crew[w].boss] == s.threads[crew[w].boss]; }
      else {
        assert s'.threads[w] == s.threads[w];
        if a != crew[w].boss { assert s'.threads[crew[w].boss] == s.threads[crew[w].boss]; }
      }
    }
  }

  /** Programs that run with workers keep everything that holds of any interleaving. */
  lemma {:induction false} CrewKeepsInv(crew: Crew, programs: seq<Program>, dirs: map<Dir, nat>, clock: nat,
                                        run: seq<State>, who: seq<Actor>, k: nat)
    requires CrewOk(crew, |programs|) && FreshIds(programs, dirs)
    requires IsCrewRun(crew, run, who) && run[0] == Start(programs, dirs, clock) && k < |run|
    ensures IsRun(run, who) && Inv(run[k]) && AllBacked(run[k]) && CrewInv(crew, run[k])
    ensures |run[k].threads| == |programs|
  {
    hide Inv, AllBacked, FreshIds, Step;
    CallsKeepInv(programs, dirs, clock, run, who, k);
    if k == 0 {
      forall w | w in crew
        ensures !Unfinished(run[0], w) || Untouched(run[0], w)
      {
        NotBegun(programs, dirs, clock, w);
      }
    } else {
      CrewKeepsInv(crew, programs, dirs, clock, run, who, k - 1);
      CrewStepKeepsInv(crew, run[k - 1], run[k], who[k - 1]);
      OneThreadMoves(run[k - 1], run[k], who[k - 1]);
    }
  }

  lemma NotBegun(programs: seq<Program>, dirs: map<Dir, nat>, clock: nat, w: Actor)
    requires w < |programs|
    ensures var s := Start(programs, dirs, clock); !Unfinished(s, w) || Untouched(s, w)
  {
    var s, calls := Start(programs, dirs, clock), programs[w].calls;
    assert s.threads[w] == StartThread(programs[w]);
    if calls != [] { FirstOp(calls[0], [Resume] + Scripts(calls[1..])); }
  }

  lemma FirstOp(call: Call, rest: seq<Op>)
    ensures (Script(call) + rest)[0].Acquire?
  {
    hide IsolatedBody, Running;
  }

  // ------------------------------------------------------- who is to blame when all wait

  /** If nobody who works for others waits for a lock, then somebody can go on. */
  lemma SomebodyMoves(crew: Crew, s: State, a: Actor) returns (b: Actor, s': State)
    requires Inv(s) && CrewInv(crew, s) && Unfinished(s, a) && a !in crew
    requires forall w | w in crew && AtWork(s, crew[w]) :: !Blocked(s, w)
    ensures CrewProgress(crew, s, s', b)
  {
    hide Inv, Blocked, Progress, OwnsThread;
    b := a;
    if Blocked(s, a) { b := FindRunner(s, a); }
    b, s' := DeepestMoves(crew, s, b);
  }

  lemma {:induction false} DeepestMoves(crew: Crew, s: State, a: Actor) returns (b: Actor, s': State)
    requires Inv(s) && CrewOk(crew, |s.threads|) && Unfinished(s, a) && !Blocked(s, a) && Working(crew, s, a)
    requires forall w | w in crew && AtWork(s, crew[w]) :: !Blocked(s, w)
    ensures CrewProgress(crew, s, s', b)
    decreases |s.threads| - a
  {
    hide Inv, Blocked, Progress;
    if Attended(crew, s, a) {
      b := a;
      s' := UnblockedMoves(s, a);
    } else {
      var w :| w in crew && crew[w] == Job(a, s.threads[a].ops[0].run) && Unfinished(s, w);
      b, s' := DeepestMoves(crew, s, w);
    }
  }

  // ------------------------------------------------------------ a lock that is needed above

  /** All those who wait for worker `w` to finish. */
  function Above(crew: Crew, w: Actor): set<Actor> {
    if w in crew && crew[w].boss < w then {crew[w].boss} + Above(crew, crew[w].boss) else {}
  }

  /** Worker `w` works for somebody who executes, who works for somebody who executes, and so on. */
  ghost predicate Begun(crew: Crew, s: State, w: Actor) {
    forall x | x == w || x in Above(crew, w) :: Working(crew, s, x)
  }

  /** Worker `w` is yet to take a lock that `b`, who waits for it, holds. */
  ghost predicate Needs(crew: Crew, s: State, w: Actor, b: Actor, n: Lock) {
    && Unfinished(s, w) && Acquire(n) in s.threads[w].ops && Begun(crew, s, w)
    && b in Above(crew, w) && b < |s.threads| && n in s.threads[b].held
  }

  /** On the way from `w` up to `a` there is somebody who works for `a`. */
  lemma {:induction false} WorksFor(crew: Crew, w: Actor, a: Actor) returns (x: Actor)
    requires a in Above(crew, w)
    ensures x in crew && crew[x].boss == a && (x == w || x in Above(crew, w))
  {
    if crew[w].boss == a { x := w; } else { x := WorksFor(crew, crew[w].boss, a); }
  }

  lemma {:induction false} AboveIsOther(crew: Crew, w: Actor)
    ensures forall x | x in Above(crew, w) :: x < w
  {
    if w in crew && crew[w].boss < w { AboveIsOther(crew, crew[w].boss); }
  }

  lemma {:induction false} AboveTwice(crew: Crew, w: Actor, x: Actor)
    requires x in Above(crew, w)
    ensures Above(crew, x) <= Above(crew, w)
  {
    if crew[w].boss != x { AboveTwice(crew, crew[w].boss, x); }
  }

  /** Whoever has begun is waited for by threads that execute. */
  lemma BegunAbove(crew: Crew, s: State, w: Actor, a: Actor)
    requires Begun(crew, s, w) && a in Above(crew, w)
    ensures Executing(s, a)
  {
    var x := WorksFor(crew, w, a);
    assert Working(crew, s, x);
  }

  /** Whoever may move, or owns anything, has begun. */
  lemma {:induction false} HasBegun(crew: Crew, s: State, w: Actor)
    requires CrewInv(crew, s) && Unfinished(s, w) && (Working(crew, s, w) || !Untouched(s, w))
    ensures Begun(crew, s, w)
  {
    hide OwnsThread;
    if w in crew {
      assert AtWork(s, crew[w]);
      HasBegun(crew, s, crew[w].boss);
    }
  }

  /** A thread does not get past a lock that another one owns. */
  lemma AcquireRemains(s: State, s': State, w: Actor, n: Lock)
    requires Progress(s, s', w) && w < |s'.threads| && Acquire(n) in s.threads[w].ops && n in s.fileLocks
    ensures Acquire(n) in s'.threads[w].ops
  {
    hide ReleaseStep, EnsureStep, CleanupStep, SweepStep, MakeDirStep, AcquireStep;
    var t, t' := s.threads[w], s'.threads[w];
    OpsAfter(s, s', w);
    if t.ops[0] == Acquire(n) {
      StillWaits(s, s', w, n);
    } else {
      var i :| 0 <= i < |t.ops| && t.ops[i] == Acquire(n);
      assert t.ops[1..][i - 1] == Acquire(n);
      if t'.ops != t.ops && t'.ops != t.ops[1..] { assert t'.ops[1..][i - 1] == Acquire(n); }
    }
  }

  lemma StillWaits(s: State, s': State, w: Actor, n: Lock)
    requires Unfinished(s, w) && s.threads[w].ops[0] == Acquire(n) && AcquireStep(s, s', w, n) && n in s.fileLocks
    requires w < |s'.threads|
    ensures s'.threads[w].ops == s.threads[w].ops
  {
  }

  /** The operations afterwards: the same, one less, or another first one. */
  lemma OpsAfter(s: State, s': State, a: Actor)
    requires Progress(s, s', a) && a < |s'.threads|
    ensures var ops, ops' := s.threads[a].ops, s'.threads[a].ops;
      ops' == ops || ops' == ops[1..] || (ops' != [] && ops'[1..] == ops[1..])
  {
    hide SweepStep, CleanupStep;
    match s.threads[a].ops[0]
    case Sweep(_, _, _, _, _) => SweepOpsAfter(s, s', a, s.threads[a].ops[0]);
    case Cleanup(_, _, _, _) => CleanupOpsAfter(s, s', a, s.threads[a].ops[0]);
    case _ =>
  }

  lemma SweepOpsAfter(s: State, s': State, a: Actor, op: Op)
    requires Unfinished(s, a) && s.threads[a].ops[0] == op && op.Sweep? && SweepStep(s, s', a, op) && a < |s'.threads|
    ensures var ops, ops' := s.threads[a].ops, s'.threads[a].ops;
      ops' == ops || ops' == ops[1..] || (ops' != [] && ops'[1..] == ops[1..])
  {
  }

  lemma CleanupOpsAfter(s: State, s': State, a: Actor, op: Op)
    requires Unfinished(s, a) && s.threads[a].ops[0] == op && op.Cleanup? && CleanupStep(s, s', a, op)
    requires a < |s'.threads|
    ensures var ops, ops' := s.threads[a].ops, s'.threads[a].ops;
      ops' == ops[1..] || (ops' != [] && ops'[1..] == ops[1..])
  {
    hide Lists;
  }

  lemma NeedStays(crew: Crew, s: State, s': State, a: Actor, w: Actor, b: Actor, n: Lock)
    requires Inv(s) && CrewOk(crew, |s.threads|) && Needs(crew, s, w, b, n) && CrewProgress(crew, s, s', a)
    ensures Needs(crew, s', w, b, n)
  {
    hide Progress, Inv, Above, Begun;
    ProgressMovesOne(s, s', a);
    AboveIsOther(crew, w);
    NobodyAboveMoves(crew, s, w, a);
    BegunStays(crew, s, s', a, w);
    if a == w {
      OwnedByHolder(s, b, n);
      AcquireRemains(s, s', w, n);
    }
  }

  /** Whoever waits for a worker that has begun and is not finished cannot move. */
  lemma NobodyAboveMoves(crew: Crew, s: State, w: Actor, a: Actor)
    requires Begun(crew, s, w) && Unfinished(s, w) && Attended(crew, s, a)
    ensures a !in Above(crew, w)
  {
    if a in Above(crew, w) {
      var x := WorksFor(crew, w, a);
      assert Working(crew, s, x);
      if x != w { BegunAbove(crew, s, w, x); }
    }
  }

  lemma BegunStays(crew: Crew, s: State, s': State, a: Actor, w: Actor)
    requires Begun(crew, s, w) && CrewOk(crew, |s.threads|)
    requires a < |s.threads| == |s'.threads| && s'.threads == s.threads[a := s'.threads[a]]
    requires a !in Above(crew, w) && forall x | x in Above(crew, w) :: x < w
    ensures Begun(crew, s', w)
  {
    forall x | x == w || x in Above(crew, w) ensures Working(crew, s', x) {
      assert Working(crew, s, x);
      if x in crew {
        if x != w { AboveTwice(crew, w, x); }
        assert crew[x].boss in Above(crew, x);
      }
    }
  }

  lemma OwnedByHolder(s: State, b: Actor, n: Lock)
    requires Inv(s) && b < |s.threads| && n in s.threads[b].held
    ensures n in s.fileLocks
  {
    assert n in OwnsFile(s.threads[b]);
  }

  /**
   A worker that needs a lock of somebody who waits for it is never done, and nor
   are they, whatever others do: only an exception, such as the timeout, ends it.
   */
  lemma {:induction false} NeedNeverEnds(crew: Crew, run: seq<State>, who: seq<Actor>, w: Actor, b: Actor, n: Lock,
                                         k: nat)
    requires IsSmooth(crew, run, who) && Inv(run[0]) && CrewOk(crew, |run[0].threads|)
    requires Needs(crew, run[0], w, b, n) && k < |run|
    ensures Inv(run[k]) && |run[k].threads| == |run[0].threads| && Needs(crew, run[k], w, b, n)
  {
    hide Inv, Progress, Needs;
    if k > 0 {
      NeedNeverEnds(crew, run, who, w, b, n, k - 1);
      NeedStays(crew, run[k - 1], run[k], who[k - 1], w, b, n);
      ProgressMovesOne(run[k - 1], run[k], who[k - 1]);
      StepKeepsInv(run[k - 1], run[k], who[k - 1]);
    }
  }

  // ------------------------------------------------------------------ one family alone

  /** Thread 0 calls, all others work for it or for each other, and no execution has two workers. */
  ghost predicate IsFamily(crew: Crew, n: nat) {
    && CrewOk(crew, n) && (forall w: Actor | w < n :: w in crew <==> w > 0)
    && forall v, w | v in crew && w in crew && crew[v] == crew[w] :: v == w
  }

  lemma {:induction false} FirstIsAbove(crew: Crew, n: nat, w: Actor)
    requires IsFamily(crew, n) && 0 < w < n
    ensures 0 in Above(crew, w)
  {
    if crew[w].boss > 0 { FirstIsAbove(crew, n, crew[w].boss); }
  }

  /** In a family, of any two that have begun one waits for the other. */
  lemma {:induction false} OneWaitsForOther(crew: Crew, s: State, v: Actor, w: Actor)
    requires IsFamily(crew, |s.threads|) && v < |s.threads| && w < |s.threads| && Begun(crew, s, v) && Begun(crew, s, w)
    ensures v == w || v in Above(crew, w) || w in Above(crew, v)
    decreases v + w
  {
    if v != w {
      if v == 0 { FirstIsAbove(crew, |s.threads|, w); }
      else if w == 0 { FirstIsAbove(crew, |s.threads|, v); }
      else {
        var x, y := crew[v].boss, crew[w].boss;
        AboveTwice(crew, v, x);
        AboveTwice(crew, w, y);
        OneWaitsForOther(crew, s, x, y);
        assert Working(crew, s, v) && Working(crew, s, w);
        if x in Above(crew, y) { SameWay(crew, s, v, w); }
        if y in Above(crew, x) { SameWay(crew, s, w, v); }
      }
    }
  }

  /** If the caller of `v` waits for the caller of `w`, then through `v`. */
  lemma SameWay(crew: Crew, s: State, v: Actor, w: Actor)
    requires IsFamily(crew, |s.threads|) && v in crew && w in crew && Begun(crew, s, v) && Begun(crew, s, w)
    requires crew[v].boss in Above(crew, crew[w].boss)
    ensures v in Above(crew, w)
  {
    var z := WorksFor(crew, crew[w].boss, crew[v].boss);
    assert Working(crew, s, v) && Working(crew, s, z);
    assert crew[z] == crew[v];
  }

  /** Alone, a call and its workers can take the next step, unless a worker needs a lock of those who wait for it. */
  lemma AloneMoves(crew: Crew, s: State) returns (b: Actor, s': State)
    requires Inv(s) && IsFamily(crew, |s.threads|) && CrewInv(crew, s) && Unfinished(s, 0)
    requires forall w, x, n :: !Needs(crew, s, w, x, n)
    ensures CrewProgress(crew, s, s', b)
  {
    hide CrewInv;
    b, s' := InnermostMoves(crew, s, 0);
  }

  lemma {:induction false} InnermostMoves(crew: Crew, s: State, a: Actor) returns (b: Actor, s': State)
    requires Inv(s) && IsFamily(crew, |s.threads|) && CrewInv(crew, s) && Unfinished(s, a) && Begun(crew, s, a)
    requires forall w, x, n :: !Needs(crew, s, w, x, n)
    ensures CrewProgress(crew, s, s', b)
    decreases |s.threads| - a
  {
    hide Inv, Progress, Needs, Above, CrewInv, Begun;
    if !Attended(crew, s, a) {
      var w :| w in crew && crew[w] == Job(a, s.threads[a].ops[0].run) && Unfinished(s, w);
      HasBegun(crew, s, w);
      b, s' := InnermostMoves(crew, s, w);
    } else if Blocked(s, a) {
      InnermostWaitsAbove(crew, s, a);
    } else {
      BegunWorks(crew, s, a);
      b := a;
      s' := UnblockedMoves(s, a);
    }
  }

  lemma BegunWorks(crew: Crew, s: State, a: Actor)
    requires Begun(crew, s, a)
    ensures Working(crew, s, a)
  {
  }

  /** Whoever runs alone waits only for locks of those who wait for it. */
  lemma InnermostWaitsAbove(crew: Crew, s: State, a: Actor)
    requires Inv(s) && IsFamily(crew, |s.threads|) && CrewInv(crew, s) && Blocked(s, a) && Begun(crew, s, a)
    ensures Needs(crew, s, a, Owner(s, a), s.threads[a].ops[0].lock)
  {
    hide Inv, Orderly, OwnsFile, OwnsThread, IsFamily, CrewInv, Blocked, Owner, CrewOk, Begun, Above;
    var o := Owner(s, a);
    OwnerOwns(s, a);
    OwnerIsFurther(s, a);
    BlockedAcquires(s, a);
    FileOwnerOwns(s.threads[o]);
    HasBegun(crew, s, o);
    OneWaitsForOther(crew, s, a, o);
    if a in Above(crew, o) { BegunAbove(crew, s, o, a); }
    BegunAbove(crew, s, a, o);
    HeldByExecuting(s, o);
  }

  lemma FileOwnerOwns(t: Thread)
    ensures OwnsFile(t) <= OwnsThread(t)
  {
  }

  lemma BlockedAcquires(s: State, a: Actor)
    requires Blocked(s, a)
    ensures Unfinished(s, a) && !Executing(s, a) && Acquire(s.threads[a].ops[0].lock) in s.threads[a].ops
  {
    assert s.threads[a].ops[0] in s.threads[a].ops;
  }

  /** What an executing thread owns, it holds. */
  lemma HeldByExecuting(s: State, o: Actor)
    requires Executing(s, o) && Orderly(s.threads[o])
    ensures forall n | n in OwnsThread(s.threads[o]) || n in OwnsFile(s.threads[o]) :: n in s.threads[o].held
  {
  }
}
