/**
 What is in the cache when a call needs it, whatever else runs
 (src/spl/embedded.py:1761-1766, 2180-2191, 2271-2312, 2405-2414): the wheels of an
 environment when it is built, and the directory of a run when its code is executed.
 */
module CacheContents {
  import opened Common
  import opened CacheLocks
  import opened CacheSafety
  import opened CacheProgress
  import opened CacheScripts
  import opened CacheCalls
  import opened CacheWorkers
  import opened CacheFamilies
  import opened CacheDeadlock

  // ------------------------------------------------------- what nobody takes away

  /** A directory that nobody else may remove from this thread: a wheel, or one whose lock the thread holds. */
  ghost predicate IsSafe(t: Thread, e: Dir) {
    e.space == Wheels || (e.space != Environments && Lock(e.space, e.key) in t.held)
  }

  /** No step of anybody removes it, as long as it stays safe. */
  lemma SafeStays(s: State, s': State, mover: Actor, a: Actor, e: Dir)
    requires Inv(s) && Step(s, s', mover) && a < |s.threads| && IsSafe(s.threads[a], e) && e in s.dirs
    ensures e in s'.dirs
  {
    hide FreshRuns, AllProtected, Step, Runs;
    OneThreadMoves(s, s', mover);
    StepHasOps(s, s', mover);
    var t := s.threads[mover];
    assert Orderly(t);
    WritesUnderLock(s, s', mover);
    if !SameAt(s.dirs, s'.dirs, e) {
      NotSwept(s, mover, a, e);
      MadeIsThere(s, s', mover, e);
    }
  }

  lemma MadeIsThere(s: State, s': State, a: Actor, e: Dir)
    requires Step(s, s', a) && a < |s.threads| && s.threads[a].ops != [] && s.threads[a].ops[0] == MakeDir(e)
    requires e in s.dirs || Progress(s, s', a)
    ensures e in s'.dirs
  {
    if !Progress(s, s', a) {
      var rest :| Recovers(s.threads[a], rest) && Unwound(s, s', a, rest);
    }
  }

  /** Nobody may write what is safe but to make it. */
  lemma NotSwept(s: State, mover: Actor, a: Actor, e: Dir)
    requires Inv(s) && mover < |s.threads| && a < |s.threads| && IsSafe(s.threads[a], e)
    ensures var t := s.threads[mover];
      t.ops != [] && MayWrite(t, e) && Lock(e.space, e.key) in OwnsFile(t) ==> t.ops[0] == MakeDir(e)
  {
    hide FreshRuns, AllProtected, Runs;
    var t, n := s.threads[mover], Lock(e.space, e.key);
    assert Orderly(t) && Orderly(s.threads[a]);
    if e.space != Wheels && n in OwnsFile(t) {
      assert n in HeldSet(s.threads[a]) && n in OwnsFile(s.threads[a]);
      SoleOwner(s, mover, a, n);
    }
  }

  // ------------------------------------------------------------ what a script relies on

  /** Some runtime of one of these calls has this environment, and its wheels are among `known`. */
  ghost predicate HasWheels(calls: seq<Call>, digest: Key, known: set<Dir>) {
    exists c, i :: c in calls && WheelsOf(c, i, digest, known)
  }

  predicate WheelsOf(c: Call, i: nat, digest: Key, known: set<Dir>) {
    && c.Isolated? && i < |c.runtimes| && c.runtimes[i].digest == digest
    && forall w | w in c.runtimes[i].wheels :: Dir(Wheels, w) in known
  }

  /** What is still known to be there after an operation. */
  function Next(known: set<Dir>, op: Op): set<Dir> {
    match op
    case MakeDir(e) => known + {e}
    case Release(n) => if n.space == Wheels then known else known - {Dir(n.space, n.key)}
    case Resume => {}
    case _ => known
  }

  /** Each environment is ensured after its wheels were made, each execution after the directory of its run. */
  ghost predicate Ready(known: set<Dir>, ops: seq<Op>, calls: seq<Call>)
    decreases |ops|
  {
    ops == []
    || (&& (ops[0].Ensure? ==> HasWheels(calls, ops[0].digest, known))
        && (ops[0].Execute? ==> Dir(Artifacts, ops[0].run) in known)
        && Ready(Next(known, ops[0]), ops[1..], calls))
  }

  function After(known: set<Dir>, ops: seq<Op>): set<Dir>
    decreases |ops|
  {
    if ops == [] then known else After(Next(known, ops[0]), ops[1..])
  }

  lemma {:induction false} ReadyAppend(known: set<Dir>, x: seq<Op>, y: seq<Op>, calls: seq<Call>)
    ensures Ready(known, x + y, calls) <==> Ready(known, x, calls) && Ready(After(known, x), y, calls)
    ensures After(known, x + y) == After(After(known, x), y)
    decreases |x|
  {
    if x == [] {
      assert x + y == y;
    } else {
      assert (x + y)[0] == x[0] && (x + y)[1..] == x[1..] + y;
      ReadyAppend(Next(known, x[0]), x[1..], y, calls);
    }
  }

  lemma {:induction false} ReadyWithMore(known: set<Dir>, more: set<Dir>, ops: seq<Op>, calls: seq<Call>)
    requires known <= more && Ready(known, ops, calls)
    ensures Ready(more, ops, calls) && After(known, ops) <= After(more, ops)
    decreases |ops|
  {
    if ops != [] {
      if ops[0].Ensure? {
        var c, i :| c in calls && WheelsOf(c, i, ops[0].digest, known);
        assert WheelsOf(c, i, ops[0].digest, more);
      }
      ReadyWithMore(Next(known, ops[0]), Next(more, ops[0]), ops[1..], calls);
    }
  }

  /** Operations that neither build environments nor execute rely on nothing. */
  lemma {:induction false} PlainIsReady(known: set<Dir>, ops: seq<Op>, calls: seq<Call>)
    requires forall op | op in ops :: !op.Ensure? && !op.Execute?
    ensures Ready(known, ops, calls)
    decreases |ops|
  {
    if ops != [] { PlainIsReady(Next(known, ops[0]), ops[1..], calls); }
  }

  lemma {:induction false} ResumedIsReady(known: set<Dir>, ops: seq<Op>, j: nat, calls: seq<Call>)
    requires Ready(known, ops, calls) && j < |ops| && ops[j].Resume?
    ensures Ready({}, ops[j..], calls)
    decreases j
  {
    if j == 0 {
      assert ops[0..] == ops;
    } else {
      ResumedIsReady(Next(known, ops[0]), ops[1..], j - 1, calls);
      assert ops[1..][j - 1..] == ops[j..];
    }
  }

  // ---------------------------------------------------------------- scripts are ready

  function WheelDirs(wheels: seq<Key>): set<Dir> { set w | w in wheels :: Dir(Wheels, w) }

  lemma OneWheel(known: set<Dir>, w: Key, calls: seq<Call>)
    ensures var one := [Acquire(Lock(Wheels, w)), MakeDir(Dir(Wheels, w)), Release(Lock(Wheels, w))];
      Ready(known, one, calls) && After(known, one) == known + {Dir(Wheels, w)}
  {
    var one := [Acquire(Lock(Wheels, w)), MakeDir(Dir(Wheels, w)), Release(Lock(Wheels, w))];
    assert one[1..] == [MakeDir(Dir(Wheels, w)), Release(Lock(Wheels, w))];
    assert one[1..][1..] == [Release(Lock(Wheels, w))] && one[1..][1..][1..] == [];
    PlainIsReady(known, one, calls);
    assert After(known + {Dir(Wheels, w)}, [Release(Lock(Wheels, w))]) == known + {Dir(Wheels, w)};
  }

  lemma {:induction false} WheelsAreMade(known: set<Dir>, wheels: seq<Key>, calls: seq<Call>)
    ensures Ready(known, WheelOps(wheels), calls)
    ensures known <= After(known, WheelOps(wheels)) && WheelDirs(wheels) <= After(known, WheelOps(wheels))
    decreases |wheels|
  {
    if wheels != [] {
      var e, n := Dir(Wheels, wheels[0]), Lock(Wheels, wheels[0]);
      var one := [Acquire(n), MakeDir(e), Release(n)];
      OneWheel(known, wheels[0], calls);
      WheelsAreMade(known + {e}, wheels[1..], calls);
      ReadyAppend(known, one, WheelOps(wheels[1..]), calls);
    }
  }

  lemma {:induction false} PreparingIsReady(known: set<Dir>, c: Call, j: nat, ready: set<Key>, calls: seq<Call>)
    requires c.Isolated? && c in calls && j <= |c.runtimes|
    ensures Ready(known, Preparing(c.runtimes[j..], ready), calls)
    ensures known <= After(known, Preparing(c.runtimes[j..], ready))
    decreases |c.runtimes| - j
  {
    if j < |c.runtimes| {
      hide WheelOps, Ready, After, HasWheels;
      var r := c.runtimes[j];
      assert c.runtimes[j..][0] == r && c.runtimes[j..][1..] == c.runtimes[j + 1..];
      if r.digest in ready { PreparingIsReady(known, c, j + 1, ready, calls); }
      else {
        var now := After(known, WheelOps(r.wheels));
        WheelsAreMade(known, r.wheels, calls);
        EnsureIsReady(now, c, j, calls);
        PreparingIsReady(now, c, j + 1, ready + {r.digest}, calls);
        ReadyAppend(known, WheelOps(r.wheels), [Ensure(r.digest)], calls);
        ReadyAppend(known, WheelOps(r.wheels) + [Ensure(r.digest)], Preparing(c.runtimes[j + 1..], ready + {r.digest}),
                    calls);
      }
    }
  }

  lemma EnsureIsReady(known: set<Dir>, c: Call, j: nat, calls: seq<Call>)
    requires c.Isolated? && c in calls && j < |c.runtimes| && WheelDirs(c.runtimes[j].wheels) <= known
    ensures Ready(known, [Ensure(c.runtimes[j].digest)], calls)
    ensures After(known, [Ensure(c.runtimes[j].digest)]) == known
  {
    assert WheelsOf(c, j, c.runtimes[j].digest, known);
  }

  lemma {:induction false} LocksArePlain(locks: seq<Lock>)
    ensures forall op | op in Acquires(locks) + Releases(locks) :: !op.Ensure? && !op.Execute?
  {
    if locks != [] { LocksArePlain(locks[1..]); }
  }

  lemma FetchingIsPlain(fetch: Fetch, bundle: Key)
    ensures forall op | op in Fetching(fetch, bundle) :: !op.Ensure? && !op.Execute?
  {
  }

  lemma IsolatedIsReady(known: set<Dir>, c: Call, calls: seq<Call>)
    requires c.Isolated? && c in calls
    ensures Ready(known, Script(c), calls)
  {
    hide Ready, After, Fetching, Acquires, Releases, Preparing, Environs;
    var execute := [Execute(c.run, Digests(c.runtimes))];
    IsolatedInParts(c);
    FetchingIsPlain(c.fetch, c.bundle);
    LocksArePlain(Environs(c));
    var first := Fetching(c.fetch, c.bundle) + [Acquire(Lock(Bundles, c.bundle))] + Acquires(Environs(c));
    PlainIsReady(known, first, calls);
    PreparingIsReady(After(known, first), c, 0, {}, calls);
    assert c.runtimes[0..] == c.runtimes;
    ReadyAppend(known, first, Preparing(c.runtimes, {}), calls);
    assert first + Preparing(c.runtimes, {}) + Entering(c.run) == Before(c);
    var ready := After(known, first + Preparing(c.runtimes, {}));
    EnteringIsReady(ready, c.run, execute, calls);
    ReadyAppend(known, first + Preparing(c.runtimes, {}), Entering(c.run) + execute, calls);
    PlainIsReady(After(known, Before(c) + execute), Afterwards(c), calls);
    assert first + Preparing(c.runtimes, {}) + (Entering(c.run) + execute) == Before(c) + execute;
    ReadyAppend(known, Before(c) + execute, Afterwards(c), calls);
    assert Before(c) + execute + Afterwards(c) == Before(c) + (execute + Afterwards(c));
  }

  lemma EnteringIsReady(known: set<Dir>, run: Key, execute: seq<Op>, calls: seq<Call>)
    requires |execute| == 1 && execute[0].Execute? && execute[0].run == run
    ensures Ready(known, Entering(run) + execute, calls)
  {
    var e := Dir(Artifacts, run);
    var make := [MakeDir(e)] + execute;
    assert execute[1..] == [] && Ready(known + {e}, execute, calls);
    assert make[1..] == execute && Ready(known, make, calls);
    assert (Entering(run) + execute)[1..] == make;
  }

  lemma {:induction false} ScriptsAreReady(calls: seq<Call>, all: seq<Call>)
    requires forall c | c in Inside(calls) :: c in all
    ensures Ready({}, Scripts(calls), all)
    decreases calls, 0
  {
    hide Ready, After, Script, Inside;
    if calls == [] { NothingIsReady(all); }
    else {
      InsideSplit(calls);
      ScriptsAreReady(calls[1..], all);
      CallIsReady({}, calls[0], all);
      ResumeIsReady(After({}, Script(calls[0])), Scripts(calls[1..]), all);
      ReadyAppend({}, Script(calls[0]), [Resume] + Scripts(calls[1..]), all);
    }
  }

  lemma CallIsReady(known: set<Dir>, c: Call, all: seq<Call>)
    requires c in all && (c.InProcess? ==> forall d | d in Inside(c.user) :: d in all)
    ensures Ready(known, Script(c), all)
    decreases c, 1
  {
    hide Ready, After, Script, Scripts, Inside, Entering, Leaving, Entry;
    if c.Isolated? { IsolatedIsReady(known, c, all); }
    else {
      InProcessInParts(c);
      EntryIsPlain(c);
      PlainIsReady(known, Entry(c), all);
      ScriptsAreReady(c.user, all);
      ReadyWithMore({}, After(known, Entry(c)), Scripts(c.user), all);
      PlainIsReady(After(After(known, Entry(c)), Scripts(c.user)), Leaving(c.run), all);
      ReadyAppend(After(known, Entry(c)), Scripts(c.user), Leaving(c.run), all);
      ReadyAppend(known, Entry(c), Scripts(c.user) + Leaving(c.run), all);
    }
  }

  lemma EntryIsPlain(c: Call)
    requires c.InProcess?
    ensures forall op | op in Entry(c) + Leaving(c.run) :: !op.Ensure? && !op.Execute?
  {
  }

  lemma NothingIsReady(all: seq<Call>)
    ensures Ready({}, Scripts([]), all)
  {
  }

  lemma ResumeIsReady(known: set<Dir>, rest: seq<Op>, all: seq<Call>)
    requires Ready({}, rest, all)
    ensures Ready(known, [Resume] + rest, all)
  {
    assert ([Resume] + rest)[1..] == rest;
  }

  // -------------------------------------------------------------------- in any company

  /** What this thread has made and nobody may take away is there, and it is enough for what is ahead. */
  ghost predicate Supplied(t: Thread, dirs: map<Dir, nat>, calls: seq<Call>) {
    exists known :: SuppliedBy(known, t, dirs) && Ready(known, t.ops, calls)
  }

  ghost predicate SuppliedBy(known: set<Dir>, t: Thread, dirs: map<Dir, nat>) {
    forall e | e in known :: e in dirs && IsSafe(t, e)
  }

  ghost predicate AllSupplied(s: State, programs: seq<Program>) {
    |s.threads| == |programs|
    && forall a | 0 <= a < |programs| :: Supplied(s.threads[a], s.dirs, Inside(programs[a].calls))
  }

  lemma OthersStaySupplied(s: State, s': State, mover: Actor, a: Actor, calls: seq<Call>)
    requires Inv(s) && Step(s, s', mover) && a < |s.threads| == |s'.threads| && s'.threads[a] == s.threads[a]
    requires Supplied(s.threads[a], s.dirs, calls)
    ensures Supplied(s'.threads[a], s'.dirs, calls)
  {
    hide Inv, Step, Ready, IsSafe;
    var known :| SuppliedBy(known, s.threads[a], s.dirs) && Ready(known, s.threads[a].ops, calls);
    forall e | e in known ensures e in s'.dirs { SafeStays(s, s', mover, a, e); }
    assert SuppliedBy(known, s'.threads[a], s'.dirs);
  }

  /** The thread that moves knows one thing more, or no longer relies on what it gives back. */
  lemma MoverStaysSupplied(s: State, s': State, a: Actor, calls: seq<Call>)
    requires Inv(s) && Progress(s, s', a) && a < |s.threads| == |s'.threads|
    requires Supplied(s.threads[a], s.dirs, calls)
    ensures Supplied(s'.threads[a], s'.dirs, calls)
  {
    hide Inv, Progress, Ready, IsSafe, Next, SuppliedBy, OwnsThread;
    var t := s.threads[a];
    var known :| SuppliedBy(known, t, s.dirs) && Ready(known, t.ops, calls);
    ProgressHasOps(s, s', a);
    NextIsSupplied(s, s', a, known);
    NextIsReady(s, s', a, known, calls);
  }

  lemma ProgressHasOps(s: State, s': State, a: Actor)
    requires Progress(s, s', a)
    ensures a < |s.threads| && s.threads[a].ops != [] && Step(s, s', a)
  {
  }

  lemma NextIsReady(s: State, s': State, a: Actor, known: set<Dir>, calls: seq<Call>)
    requires Progress(s, s', a) && a < |s.threads| == |s'.threads| && s.threads[a].ops != []
    requires Ready(known, s.threads[a].ops, calls)
    ensures Ready(Next(known, s.threads[a].ops[0]), s'.threads[a].ops, calls)
  {
    hide Progress;
    OpsAfter(s, s', a);
    HeadAfter(s, s', a);
    var op := s.threads[a].ops[0];
    assert Next(Next(known, op), op) == Next(known, op);
  }

  /** What a thread holds after its own step. */
  lemma HeldAfter(s: State, s': State, a: Actor)
    requires Progress(s, s', a) && a < |s.threads| == |s'.threads| && s.threads[a].ops != []
    ensures var t, t' := s.threads[a], s'.threads[a];
      || t'.held == t.held || (t.ops[0].Acquire? && t'.held == t.held + [t.ops[0].lock])
      || (t.ops[0].Release? && t.held != [] && t.held[|t.held| - 1] == t.ops[0].lock
          && t'.held == t.held[..|t.held| - 1])
  {
    hide SweepStep, CleanupStep;
    var t := s.threads[a];
    match t.ops[0]
    case Sweep(_, _, _, _, _) => SweepHeld(s, s', a, t.ops[0]);
    case Cleanup(_, _, _, _) => CleanupHeld(s, s', a, t.ops[0]);
    case _ =>
  }

  lemma SweepHeld(s: State, s': State, a: Actor, op: Op)
    requires Unfinished(s, a) && op.Sweep? && SweepStep(s, s', a, op) && a < |s'.threads|
    ensures s'.threads[a].held == s.threads[a].held
  {
  }

  lemma CleanupHeld(s: State, s': State, a: Actor, op: Op)
    requires Unfinished(s, a) && op.Cleanup? && CleanupStep(s, s', a, op) && a < |s'.threads|
    ensures s'.threads[a].held == s.threads[a].held
  {
    hide Lists;
  }

  lemma NextIsSupplied(s: State, s': State, a: Actor, known: set<Dir>)
    requires Inv(s) && Progress(s, s', a) && a < |s.threads| == |s'.threads| && s.threads[a].ops != []
    requires SuppliedBy(known, s.threads[a], s.dirs)
    ensures SuppliedBy(Next(known, s.threads[a].ops[0]), s'.threads[a], s'.dirs)
  {
    hide Inv, Progress, Step;
    ProgressHasOps(s, s', a);
    HeldAfter(s, s', a);
    var t, t' := s.threads[a], s'.threads[a];
    if t.held != [] { KeepsOthers(t.held); }
    forall e | e in Next(known, t.ops[0]) ensures e in s'.dirs && IsSafe(t', e) {
      if e in known { SafeStays(s, s', a, a, e); }
      else { JustMade(s, s', a, e); }
    }
  }

  lemma JustMade(s: State, s': State, a: Actor, e: Dir)
    requires Inv(s) && Progress(s, s', a) && a < |s.threads| == |s'.threads|
    requires s.threads[a].ops != [] && s.threads[a].ops[0] == MakeDir(e)
    ensures e in s'.dirs && IsSafe(s'.threads[a], e)
  {
    hide FreshRuns, AllProtected, ThreadOwned, FileOwned;
    assert Orderly(s.threads[a]);
  }

  lemma RaiseStaysSupplied(s: State, s': State, a: Actor, calls: seq<Call>)
    requires a < |s.threads| == |s'.threads| && s.threads[a].ops != [] && RaiseStep(s, s', a)
    requires Supplied(s.threads[a], s.dirs, calls)
    ensures Supplied(s'.threads[a], s'.dirs, calls)
  {
    hide Recovers, Ready;
    var known :| SuppliedBy(known, s.threads[a], s.dirs) && Ready(known, s.threads[a].ops, calls);
    var rest :| Recovers(s.threads[a], rest) && Unwound(s, s', a, rest);
    RecoveredIsReady(s.threads[a], known, rest, calls);
    assert SuppliedBy({}, s'.threads[a], s'.dirs);
  }

  lemma RecoveredIsReady(t: Thread, known: set<Dir>, rest: seq<Op>, calls: seq<Call>)
    requires Recovers(t, rest) && Ready(known, t.ops, calls)
    ensures Ready({}, rest, calls)
  {
    hide Unwinds, Runs, Ready, After;
    var left, unwinding, later :|
      Unwinds(t.held, left, unwinding) && Catches(t.ops, left, later) && rest == unwinding + later;
    UnwindingIsPlain(t.held, left, unwinding);
    PlainIsReady({}, unwinding, calls);
    if left == [] && later == [] {
      PlainIsReady(After({}, unwinding), later, calls);
    } else {
      var j :| 0 <= j < |t.ops| && t.ops[j].Resume? && later == t.ops[j..] && Runs(left, later) == Some([]);
      ResumedIsReady(known, t.ops, j, calls);
      ReadyWithMore({}, After({}, unwinding), later, calls);
    }
    ReadyAppend({}, unwinding, later, calls);
  }

  lemma {:induction false} UnwindingIsPlain(held: seq<Lock>, left: seq<Lock>, rest: seq<Op>)
    requires Unwinds(held, left, rest)
    ensures forall op | op in rest :: !op.Ensure? && !op.Execute?
    decreases |rest|
  {
    if rest != [] { UnwindingIsPlain(if rest[0].Cleanup? then held else held[..|held| - 1], left, rest[1..]); }
  }

  lemma StepKeepsSupplied(s: State, s': State, a: Actor, programs: seq<Program>)
    requires Inv(s) && Step(s, s', a) && AllSupplied(s, programs)
    ensures AllSupplied(s', programs)
  {
    hide Inv, Progress, RaiseStep, Supplied, Inside, OwnsThread;
    OneThreadMoves(s, s', a);
    StepHasOps(s, s', a);
    forall b | 0 <= b < |programs| ensures Supplied(s'.threads[b], s'.dirs, Inside(programs[b].calls)) {
      if b != a { OthersStaySupplied(s, s', a, b, Inside(programs[b].calls)); }
      else if Progress(s, s', a) { MoverStaysSupplied(s, s', a, Inside(programs[a].calls)); }
      else { RaiseStaysSupplied(s, s', a, Inside(programs[a].calls)); }
    }
  }

  lemma StartIsSupplied(programs: seq<Program>, dirs: map<Dir, nat>, clock: nat)
    ensures AllSupplied(Start(programs, dirs, clock), programs)
  {
    hide Ready, Scripts, Inside;
    var s := Start(programs, dirs, clock);
    forall a | 0 <= a < |programs| ensures Supplied(s.threads[a], s.dirs, Inside(programs[a].calls)) {
      assert s.threads[a] == StartThread(programs[a]);
      ScriptsAreReady(programs[a].calls, Inside(programs[a].calls));
      assert SuppliedBy({}, s.threads[a], s.dirs);
    }
  }

  lemma {:induction false} RunIsSupplied(programs: seq<Program>, dirs: map<Dir, nat>, clock: nat, run: seq<State>,
                                         who: seq<Actor>, k: nat)
    requires FreshIds(programs, dirs) && IsRun(run, who) && run[0] == Start(programs, dirs, clock) && k < |run|
    ensures AllSupplied(run[k], programs)
  {
    hide Inv, Step, AllSupplied, FreshIds, AllBacked;
    if k == 0 { StartIsSupplied(programs, dirs, clock); }
    else {
      RunIsSupplied(programs, dirs, clock, run, who, k - 1);
      CallsKeepInv(programs, dirs, clock, run, who, k - 1);
      StepKeepsSupplied(run[k - 1], run[k], who[k - 1], programs);
    }
  }

  /**
   Whenever an environment is about to be verified or built, by whichever call in whatever interleaving, all wheels
   of the runtime that asks for it are in the cache.
   */
  lemma BuildsFromWheels(programs: seq<Program>, dirs: map<Dir, nat>, clock: nat, run: seq<State>, who: seq<Actor>,
                         k: nat, a: Actor)
    returns (c: Call, i: nat)
    requires FreshIds(programs, dirs) && IsRun(run, who) && run[0] == Start(programs, dirs, clock) && k < |run|
    requires Unfinished(run[k], a) && run[k].threads[a].ops[0].Ensure?
    ensures a < |programs| && c in Inside(programs[a].calls) && c.Isolated? && i < |c.runtimes|
    ensures c.runtimes[i].digest == run[k].threads[a].ops[0].digest
    ensures forall w | w in c.runtimes[i].wheels :: Dir(Wheels, w) in run[k].dirs
  {
    hide Inv, Step, FreshIds, Inside, Start;
    RunIsSupplied(programs, dirs, clock, run, who, k);
    var t, calls := run[k].threads[a], Inside(programs[a].calls);
    assert Supplied(t, run[k].dirs, calls);
    var known :| SuppliedBy(known, t, run[k].dirs) && Ready(known, t.ops, calls);
    c, i :| c in calls && WheelsOf(c, i, t.ops[0].digest, known);
  }

  /** Whenever code is about to be executed, the directory of its run is there, under a lock that the call holds. */
  lemma ExecutesInDirectory(programs: seq<Program>, dirs: map<Dir, nat>, clock: nat, run: seq<State>, who: seq<Actor>,
                            k: nat, a: Actor)
    requires FreshIds(programs, dirs) && IsRun(run, who) && run[0] == Start(programs, dirs, clock) && k < |run|
    requires Unfinished(run[k], a) && run[k].threads[a].ops[0].Execute?
    ensures var r := run[k].threads[a].ops[0].run;
      Dir(Artifacts, r) in run[k].dirs && Lock(Artifacts, r) in run[k].threads[a].held
  {
    hide Inv, Step, FreshIds, Inside, Start;
    RunIsSupplied(programs, dirs, clock, run, who, k);
    var t, calls := run[k].threads[a], Inside(programs[a].calls);
    assert Supplied(t, run[k].dirs, calls);
    var known :| SuppliedBy(known, t, run[k].dirs) && Ready(known, t.ops, calls);
    assert IsSafe(t, Dir(Artifacts, t.ops[0].run));
  }

  /**
   What is in the cache under a lock that a thread holds stays there as long as the thread holds it, in every
   interleaving: the bundle of a call that runs it, and the directory of a run whose code calls again.
   */
  lemma {:induction false} HeldStaysThere(run: seq<State>, who: seq<Actor>, a: Actor, e: Dir, from: nat, to: nat)
    requires IsRun(run, who) && Inv(run[0]) && from <= to < |run| && e in run[from].dirs && e.space != Environments
    requires forall k | from <= k <= to ::
               a < |run[k].threads| && (e.space == Wheels || Lock(e.space, e.key) in run[k].threads[a].held)
    ensures e in run[to].dirs
  {
    hide Inv, Step;
    if from < to {
      HeldStaysThere(run, who, a, e, from, to - 1);
      RunKeepsInv(run, who, to - 1);
      assert IsSafe(run[to - 1].threads[a], e);
      SafeStays(run[to - 1], run[to], who[to - 1], a, e);
    }
  }
}
