/**
 Any number of threads in any number of processes making any calls of the
 embedded backend (src/spl/embedded.py): every interleaving is safe, none
 deadlocks, and user code runs only on environments that its own call verified.
 */
module CacheCalls {
  import opened Common
  import opened CacheLocks
  import opened CacheSafety
  import opened CacheProgress
  import opened CacheScripts

  // ------------------------------------------------------- run ids of a script

  /** The run ids whose locks a list of operations takes, in order. */
  function Taken(ops: seq<Op>): seq<Key> {
    if ops == [] then []
    else (if ops[0].Acquire? && ops[0].lock.space == Artifacts then [ops[0].lock.key] else []) + Taken(ops[1..])
  }

  lemma {:induction false} TakenAppend(x: seq<Op>, y: seq<Op>)
    ensures Taken(x + y) == Taken(x) + Taken(y)
  {
    if x == [] {
      assert x + y == y;
    } else {
      assert (x + y)[1..] == x[1..] + y && (x + y)[0] == x[0];
      TakenAppend(x[1..], y);
    }
  }

  lemma {:induction false} TakenMeansPending(ops: seq<Op>)
    ensures forall r: Key :: r in Pending(ops) <==> r in Taken(ops)
    ensures NoRepeats(Taken(ops)) ==> TakenOnce(ops)
  {
    if ops != [] {
      TakenMeansPending(ops[1..]);
      var first := if ops[0].Acquire? && ops[0].lock.space == Artifacts then [ops[0].lock.key] else [];
      if NoRepeats(Taken(ops)) { PartsNoRepeats(first, Taken(ops[1..])); }
    }
  }

  lemma {:induction false} LocksTakeNoRuns(locks: seq<Lock>)
    requires forall n | n in locks :: n.space != Artifacts
    ensures Taken(Acquires(locks)) == [] && Taken(Releases(locks)) == []
  {
    if locks != [] {
      LocksTakeNoRuns(locks[1..]);
      TakenAppend(Releases(locks[1..]), [Release(locks[0])]);
    }
  }

  lemma {:induction false} PreparingTakesNoRuns(runtimes: seq<Runtime>, ready: set<Key>)
    ensures Taken(Preparing(runtimes, ready)) == []
    decreases |runtimes|
  {
    if runtimes != [] {
      var d := runtimes[0].digest;
      if d in ready { PreparingTakesNoRuns(runtimes[1..], ready); }
      else {
        PreparingTakesNoRuns(runtimes[1..], ready + {d});
        WheelsTakeNoRuns(runtimes[0].wheels);
        TakenAppend(WheelOps(runtimes[0].wheels), [Ensure(d)]);
        TakenAppend(WheelOps(runtimes[0].wheels) + [Ensure(d)], Preparing(runtimes[1..], ready + {d}));
      }
    }
  }

  lemma {:induction false} WheelsTakeNoRuns(wheels: seq<Key>)
    ensures Taken(WheelOps(wheels)) == []
  {
    if wheels != [] {
      var first := [Acquire(Lock(Wheels, wheels[0])), MakeDir(Dir(Wheels, wheels[0])),
                    Release(Lock(Wheels, wheels[0]))];
      WheelsTakeNoRuns(wheels[1..]);
      TakenAppend(first, WheelOps(wheels[1..]));
      ThreeTakeNoRuns(first[0], first[1], first[2]);
    }
  }

  lemma ThreeTakeNoRuns(x: Op, y: Op, z: Op)
    requires forall op | op in {x, y, z} :: op.Acquire? ==> op.lock.space != Artifacts
    ensures Taken([x, y, z]) == []
  {
    OneTakes(x);
    OneTakes(y);
    OneTakes(z);
    TakenAppend([x], [y]);
    TakenAppend([x] + [y], [z]);
    assert [x] + [y] + [z] == [x, y, z];
  }

  lemma OneTakes(op: Op)
    ensures Taken([op]) == if op.Acquire? && op.lock.space == Artifacts then [op.lock.key] else []
  {
    assert [op][1..] == [];
  }

  lemma RunningTakes(run: Key, body: seq<Op>)
    ensures Taken(Running(run, body)) == [run] + Taken(body)
  {
    hide Taken;
    var n, e := Lock(Artifacts, run), Dir(Artifacts, run);
    var sweep := Cleanup(Artifacts, Artifacts, MAX_ARTIFACT_CACHE_ENTRIES, {run});
    OneTakes(Acquire(n));
    OneTakes(MakeDir(e));
    OneTakes(Release(n));
    OneTakes(sweep);
    TakenAppend([Acquire(n)], [MakeDir(e)]);
    assert [Acquire(n)] + [MakeDir(e)] == [Acquire(n), MakeDir(e)];
    TakenAppend([Acquire(n), MakeDir(e)], body);
    TakenAppend([Acquire(n), MakeDir(e)] + body, [Release(n)]);
    TakenAppend([Acquire(n), MakeDir(e)] + body + [Release(n)], [sweep]);
  }

  lemma IsolatedTakes(bundle: Key, runtimes: seq<Runtime>, run: Key)
    ensures Taken([Acquire(Lock(Bundles, bundle))] + IsolatedBody(runtimes, run) + [Release(Lock(Bundles, bundle))])
         == [run]
  {
    hide Running, Preparing, Acquires, Releases, Taken;
    var envs, execute := Locks(Environments, SortedDigests(runtimes)), [Execute(run, Digests(runtimes))];
    var sweep := Cleanup(Environments, Environments, MAX_ENVIRONMENT_CACHE_ENTRIES, Digests(runtimes));
    OneTakes(Acquire(Lock(Bundles, bundle)));
    OneTakes(Release(Lock(Bundles, bundle)));
    OneTakes(Execute(run, Digests(runtimes)));
    OneTakes(sweep);
    LocksTakeNoRuns(envs);
    PreparingTakesNoRuns(runtimes, {});
    RunningTakes(run, execute);
    TakenAppend(Preparing(runtimes, {}), Running(run, execute));
    TakenAppend(Acquires(envs), Preparing(runtimes, {}) + Running(run, execute));
    TakenAppend(Acquires(envs) + (Preparing(runtimes, {}) + Running(run, execute)), Releases(envs));
    TakenAppend(Acquires(envs) + (Preparing(runtimes, {}) + Running(run, execute)) + Releases(envs), [sweep]);
    TakenAppend([Acquire(Lock(Bundles, bundle))], IsolatedBody(runtimes, run));
    TakenAppend([Acquire(Lock(Bundles, bundle))] + IsolatedBody(runtimes, run), [Release(Lock(Bundles, bundle))]);
  }

  lemma FetchingTakesNoRuns(fetch: Fetch, bundle: Key)
    ensures Taken(Fetching(fetch, bundle)) == []
  {
    var n := Lock(Bundles, bundle);
    var x := [Acquire(n), MakeDir(Dir(Bundles, bundle)), Release(n)];
    ThreeTakeNoRuns(x[0], x[1], x[2]);
    if fetch == Installed {
      var sweep := Cleanup(Bundles, Bundles, MAX_BUNDLE_CACHE_ENTRIES, {bundle});
      OneTakes(sweep);
      TakenAppend(x, [sweep]);
      assert Fetching(fetch, bundle) == x + [sweep];
    }
  }

  lemma InProcessTakes(bundle: Key, run: Key, user: seq<Op>)
    ensures Taken([Acquire(Lock(Bundles, bundle)), Release(Lock(Bundles, bundle))] + Running(run, user))
         == [run] + Taken(user)
  {
    hide Taken, Running;
    var n := Lock(Bundles, bundle);
    RunningTakes(run, user);
    OneTakes(Acquire(n));
    OneTakes(Release(n));
    assert [Acquire(n)] + [Release(n)] == [Acquire(n), Release(n)];
    TakenAppend([Acquire(n)], [Release(n)]);
    TakenAppend([Acquire(n), Release(n)], Running(run, user));
  }

  lemma ScriptTaken(call: Call)
    requires call.InProcess? ==> Taken(Scripts(call.user)) == RunIds(call.user)
    ensures Taken(Script(call)) == [call.run] + (if call.InProcess? then RunIds(call.user) else [])
  {
    hide Taken, Fetching, IsolatedBody, Running, RunIds, Scripts;
    FetchingTakesNoRuns(call.fetch, call.bundle);
    var n := Lock(Bundles, call.bundle);
    match call
    case Isolated(fetch, bundle, runtimes, run) =>
      IsolatedTakes(bundle, runtimes, run);
      TakenAppend(Fetching(fetch, bundle), [Acquire(n)] + IsolatedBody(runtimes, run) + [Release(n)]);
    case InProcess(fetch, bundle, run, user) =>
      InProcessTakes(bundle, run, Scripts(user));
      TakenAppend(Fetching(fetch, bundle), [Acquire(n), Release(n)] + Running(run, Scripts(user)));
  }

  /** The artifact locks a program takes are those of its calls, each in its turn. */
  lemma {:induction false} ScriptsTake(calls: seq<Call>)
    ensures Taken(Scripts(calls)) == RunIds(calls)
    decreases calls
  {
    hide Taken, Script, RunIds;
    if calls == [] { NothingTaken(); }
    else {
      if calls[0].InProcess? { ScriptsTake(calls[0].user); }
      ScriptTaken(calls[0]);
      ScriptsTake(calls[1..]);
      OneTakes(Resume);
      RunIdsUnfold(calls);
      TakenAppend([Resume], Scripts(calls[1..]));
      TakenAppend(Script(calls[0]), [Resume] + Scripts(calls[1..]));
    }
  }

  lemma NothingTaken()
    ensures Taken([]) == [] && RunIds([]) == []
  {
  }

  // ---------------------------------------------------------------- the start

  datatype Program = Program(pid: Pid, calls: seq<Call>)

  function StartThread(p: Program): Thread { Thread(p.pid, Scripts(p.calls), 0, [], map[]) }

  /** Nothing runs yet; the cache may hold anything but directories of runs to come. */
  function Start(programs: seq<Program>, dirs: map<Dir, nat>, clock: nat): State {
    State(seq(|programs|, a requires 0 <= a < |programs| => StartThread(programs[a])), map[], map[], dirs, clock)
  }

  /** Every run id is used once, and no directory has it yet. */
  predicate FreshIds(programs: seq<Program>, dirs: map<Dir, nat>) {
    && (forall a | 0 <= a < |programs| :: NoRepeats(RunIds(programs[a].calls)))
    && (forall a, b | 0 <= a < b < |programs| :: Apart(RunIds(programs[a].calls), RunIds(programs[b].calls)))
    && (forall a | 0 <= a < |programs| :: forall r | r in RunIds(programs[a].calls) :: Dir(Artifacts, r) !in dirs)
  }

  predicate Apart(x: seq<Key>, y: seq<Key>) { forall k | k in x :: k !in y }

  lemma StartThreadIsOrderly(p: Program)
    requires NoRepeats(RunIds(p.calls))
    ensures var t := StartThread(p);
      && Orderly(t) && TakenOnce(t.ops) && (forall r: Key :: r in Pending(t.ops) <==> r in RunIds(p.calls))
      && (forall r: Key :: Unaware(t, r)) && OwnsThread(t) == {} && OwnsFile(t) == {}
  {
    ScriptsRun(p.calls, []);
    ScriptsTake(p.calls);
    TakenMeansPending(Scripts(p.calls));
    hide Scripts, RunIds, Pending, TakenOnce;
  }

  lemma StartHasInv(programs: seq<Program>, dirs: map<Dir, nat>, clock: nat)
    requires FreshIds(programs, dirs)
    ensures Inv(Start(programs, dirs, clock))
  {
    var s := Start(programs, dirs, clock);
    forall a | 0 <= a < |s.threads| ensures s.threads[a] == StartThread(programs[a]) {}
    forall a | 0 <= a < |s.threads|
      ensures Orderly(s.threads[a]) && TakenOnce(s.threads[a].ops) && OwnsThread(s.threads[a]) == {}
      ensures OwnsFile(s.threads[a]) == {}
    {
      StartThreadIsOrderly(programs[a]);
    }
    hide Orderly, TakenOnce, OwnsThread, OwnsFile;
    assert AllOrderly(s.threads) && ThreadOwned(s.threads, map[]) && FileOwned(s.threads, map[]) && AllProtected(s);
    StartIsFresh(programs, dirs, clock);
  }

  lemma StartIsFresh(programs: seq<Program>, dirs: map<Dir, nat>, clock: nat)
    requires FreshIds(programs, dirs)
    ensures FreshRuns(Start(programs, dirs, clock))
  {
    hide Orderly, TakenOnce, OwnsThread, OwnsFile, Unaware, Pending, RunIds;
    var s := Start(programs, dirs, clock);
    forall a | 0 <= a < |programs|
      ensures TakenOnce(s.threads[a].ops) && (forall r: Key :: Unaware(s.threads[a], r))
              && forall r: Key :: r in Pending(s.threads[a].ops) <==> r in RunIds(programs[a].calls)
    {
      StartThreadIsOrderly(programs[a]);
    }
    forall a, b, r | 0 <= a < |s.threads| && 0 <= b < |s.threads| && r in Pending(s.threads[a].ops)
      ensures Unaware(s.threads[b], r) && (a != b ==> r !in Pending(s.threads[b].ops))
    {
      if a < b { assert Apart(RunIds(programs[a].calls), RunIds(programs[b].calls)); }
      if b < a { assert Apart(RunIds(programs[b].calls), RunIds(programs[a].calls)); }
    }
  }

  // ------------------------------------- code runs only on verified environments

  /**
   With the environments `v` verified, every execution in `ops` finds what it needs;
   caught exceptions may leave none.
   */
  predicate Backed(v: set<Key>, ops: seq<Op>)
    decreases |ops|
  {
    ops == [] || match ops[0]
      case Ensure(d) => Backed(v + {d}, ops[1..])
      case Release(n) => Backed(if n.space == Environments then v - {n.key} else v, ops[1..])
      case Execute(_, needs) => needs <= v && Backed(v, ops[1..])
      case Resume => Backed({}, ops[1..])
      case _ => Backed(v, ops[1..])
  }

  lemma {:induction false} BackedByMore(v: set<Key>, w: set<Key>, ops: seq<Op>)
    requires v <= w && Backed(v, ops)
    ensures Backed(w, ops)
    decreases |ops|
  {
    if ops != [] {
      match ops[0]
      case Ensure(d) => BackedByMore(v + {d}, w + {d}, ops[1..]);
      case Release(n) =>
        if n.space == Environments { BackedByMore(v - {n.key}, w - {n.key}, ops[1..]); }
        else { BackedByMore(v, w, ops[1..]); }
      case Resume =>
      case _ => BackedByMore(v, w, ops[1..]);
    }
  }

  /** What is verified after `ops`. */
  function VerifiedAfter(v: set<Key>, ops: seq<Op>): set<Key>
    decreases |ops|
  {
    if ops == [] then v
    else match ops[0]
      case Ensure(d) => VerifiedAfter(v + {d}, ops[1..])
      case Release(n) => VerifiedAfter(if n.space == Environments then v - {n.key} else v, ops[1..])
      case Resume => VerifiedAfter({}, ops[1..])
      case _ => VerifiedAfter(v, ops[1..])
  }

  lemma {:induction false} BackedAppend(v: set<Key>, x: seq<Op>, y: seq<Op>)
    ensures Backed(v, x + y) <==> Backed(v, x) && Backed(VerifiedAfter(v, x), y)
    ensures VerifiedAfter(v, x + y) == VerifiedAfter(VerifiedAfter(v, x), y)
    decreases |x|
  {
    if x == [] {
      assert x + y == y;
    } else {
      assert (x + y)[1..] == x[1..] + y && (x + y)[0] == x[0];
      match x[0]
      case Ensure(d) => BackedAppend(v + {d}, x[1..], y);
      case Release(n) => BackedAppend(if n.space == Environments then v - {n.key} else v, x[1..], y);
      case Resume => BackedAppend({}, x[1..], y);
      case _ => BackedAppend(v, x[1..], y);
    }
  }

  /** Operations that execute nothing are backed by anything. */
  lemma {:induction false} NoExecution(v: set<Key>, ops: seq<Op>)
    requires forall op | op in ops :: !op.Execute?
    ensures Backed(v, ops)
    decreases |ops|
  {
    if ops != [] {
      assert ops[0] in ops;
      match ops[0]
      case Ensure(d) => NoExecution(v + {d}, ops[1..]);
      case Release(n) => NoExecution(if n.space == Environments then v - {n.key} else v, ops[1..]);
      case Resume => NoExecution({}, ops[1..]);
      case Execute(_, _) => assert false;
      case _ => NoExecution(v, ops[1..]);
    }
  }

  /** Operations that neither ensure nor give back an environment leave what is verified. */
  lemma {:induction false} NothingVerified(v: set<Key>, ops: seq<Op>)
    requires forall op | op in ops :: !op.Ensure? && !op.Resume? && (op.Release? ==> op.lock.space != Environments)
    ensures VerifiedAfter(v, ops) == v
    decreases |ops|
  {
    if ops != [] {
      assert ops[0] in ops;
      NothingVerified(v, ops[1..]);
    }
  }

  lemma {:induction false} LocksExecuteNothing(locks: seq<Lock>)
    ensures forall op | op in Acquires(locks) + Releases(locks) :: !op.Execute?
    ensures forall op | op in Acquires(locks) :: op.Acquire?
  {
    if locks != [] { LocksExecuteNothing(locks[1..]); }
  }

  lemma {:induction false} WheelsExecuteNothing(wheels: seq<Key>)
    ensures forall op | op in WheelOps(wheels) ::
      !op.Execute? && !op.Ensure? && !op.Resume? && (op.Release? ==> op.lock.space == Wheels)
  {
    if wheels != [] { WheelsExecuteNothing(wheels[1..]); }
  }

  /** Preparing verifies every environment that is not ready yet. */
  lemma {:induction false} PreparingVerifies(v: set<Key>, runtimes: seq<Runtime>, ready: set<Key>)
    requires ready <= v
    ensures Backed(v, Preparing(runtimes, ready))
    ensures VerifiedAfter(v, Preparing(runtimes, ready)) == v + Digests(runtimes)
    decreases |runtimes|
  {
    if runtimes != [] {
      var d := runtimes[0].digest;
      DigestsSplit(runtimes);
      if d in ready { PreparingVerifies(v, runtimes[1..], ready); }
      else {
        var wheels := WheelOps(runtimes[0].wheels);
        WheelsExecuteNothing(runtimes[0].wheels);
        NoExecution(v, wheels);
        NothingVerified(v, wheels);
        EnsureVerifies(v, d);
        PreparingVerifies(v + {d}, runtimes[1..], ready + {d});
        BackedAppend(v, wheels, [Ensure(d)]);
        BackedAppend(v, wheels + [Ensure(d)], Preparing(runtimes[1..], ready + {d}));
      }
    }
  }

  lemma EnsureVerifies(v: set<Key>, d: Key)
    ensures Backed(v, [Ensure(d)]) && VerifiedAfter(v, [Ensure(d)]) == v + {d}
  {
    assert [Ensure(d)][1..] == [];
  }

  lemma RunningBacked(v: set<Key>, run: Key, body: seq<Op>)
    requires Backed(v, body)
    ensures Backed(v, Running(run, body))
  {
    var x := [Acquire(Lock(Artifacts, run)), MakeDir(Dir(Artifacts, run))];
    var y := [Release(Lock(Artifacts, run))] + [Cleanup(Artifacts, Artifacts, MAX_ARTIFACT_CACHE_ENTRIES, {run})];
    NoExecution(v, x);
    NothingVerified(v, x);
    NoExecution(VerifiedAfter(v, body), y);
    BackedAppend(v, x, body);
    BackedAppend(v, x + body, y);
    assert Running(run, body) == x + body + y;
  }

  lemma ExecuteBacked(v: set<Key>, run: Key, needs: set<Key>)
    requires needs <= v
    ensures Backed(v, [Execute(run, needs)])
  {
    assert [Execute(run, needs)][1..] == [];
  }

  lemma IsolatedBacked(v: set<Key>, runtimes: seq<Runtime>, run: Key)
    ensures Backed(v, IsolatedBody(runtimes, run))
  {
    hide Backed, VerifiedAfter, Running, Preparing, Acquires, Releases;
    var envs, execute := Locks(Environments, SortedDigests(runtimes)), [Execute(run, Digests(runtimes))];
    var sweep := Cleanup(Environments, Environments, MAX_ENVIRONMENT_CACHE_ENTRIES, Digests(runtimes));
    var inner := Preparing(runtimes, {}) + Running(run, execute);
    LocksExecuteNothing(envs);
    NoExecution(v, Acquires(envs));
    NothingVerified(v, Acquires(envs));
    PreparingVerifies(v, runtimes, {});
    ExecuteBacked(v + Digests(runtimes), run, Digests(runtimes));
    RunningBacked(v + Digests(runtimes), run, execute);
    BackedAppend(v, Preparing(runtimes, {}), Running(run, execute));
    BackedAppend(v, Acquires(envs), inner);
    NoExecution(VerifiedAfter(v, Acquires(envs) + inner), Releases(envs) + [sweep]);
    BackedAppend(v, Acquires(envs) + inner, Releases(envs) + [sweep]);
    assert IsolatedBody(runtimes, run) == Acquires(envs) + inner + (Releases(envs) + [sweep]);
  }

  lemma {:induction false} ScriptsBacked(v: set<Key>, calls: seq<Call>)
    ensures Backed(v, Scripts(calls))
    decreases calls
  {
    hide Backed, VerifiedAfter, Fetching, IsolatedBody, Running;
    if calls == [] { NoExecution(v, []); }
    else {
      var call := calls[0];
      var n := Lock(Bundles, call.bundle);
      var body: seq<Op>;
      FetchingExecutesNothing(call.fetch, call.bundle);
      NoExecution(v, Fetching(call.fetch, call.bundle));
      var w := VerifiedAfter(v, Fetching(call.fetch, call.bundle));
      match call {
        case Isolated(_, bundle, runtimes, run) =>
          body := [Acquire(n)] + IsolatedBody(runtimes, run) + [Release(n)];
          NoExecution(w, [Acquire(n)]);
          IsolatedBacked(VerifiedAfter(w, [Acquire(n)]), runtimes, run);
          BackedAppend(w, [Acquire(n)], IsolatedBody(runtimes, run));
          NoExecution(VerifiedAfter(w, [Acquire(n)] + IsolatedBody(runtimes, run)), [Release(n)]);
          BackedAppend(w, [Acquire(n)] + IsolatedBody(runtimes, run), [Release(n)]);
        case InProcess(_, bundle, run, user) =>
          body := [Acquire(n), Release(n)] + Running(run, Scripts(user));
          NoExecution(w, [Acquire(n), Release(n)]);
          ScriptsBacked(VerifiedAfter(w, [Acquire(n), Release(n)]), user);
          RunningBacked(VerifiedAfter(w, [Acquire(n), Release(n)]), run, Scripts(user));
          BackedAppend(w, [Acquire(n), Release(n)], Running(run, Scripts(user)));
      }
      assert Script(call) == Fetching(call.fetch, call.bundle) + body;
      BackedAppend(v, Fetching(call.fetch, call.bundle), body);
      ScriptsBacked({}, calls[1..]);
      ResumeBacked(VerifiedAfter(v, Script(call)), Scripts(calls[1..]));
      BackedAppend(v, Script(call), [Resume] + Scripts(calls[1..]));
    }
  }

  lemma ResumeBacked(v: set<Key>, ops: seq<Op>)
    requires Backed({}, ops)
    ensures Backed(v, [Resume] + ops)
  {
    assert ([Resume] + ops)[1..] == ops;
  }

  lemma FetchingExecutesNothing(fetch: Fetch, bundle: Key)
    ensures forall op | op in Fetching(fetch, bundle) :: !op.Execute?
  {
  }

  // --------------------------------------------------------------- whole runs

  ghost predicate AllBacked(s: State) {
    forall a | 0 <= a < |s.threads| :: Backed(s.threads[a].verified.Keys, s.threads[a].ops)
  }

  lemma {:induction false} UnwindingExecutesNothing(held: seq<Lock>, left: seq<Lock>, rest: seq<Op>)
    requires Unwinds(held, left, rest)
    ensures forall op | op in rest :: !op.Execute?
    decreases |rest|
  {
    if rest != [] {
      UnwindingExecutesNothing(if rest[0].Cleanup? then held else held[..|held| - 1], left, rest[1..]);
    }
  }

  /** The code that goes on after a call needs nothing that was verified before. */
  lemma {:induction false} ResumedIsBacked(v: set<Key>, w: set<Key>, ops: seq<Op>, j: nat)
    requires Backed(v, ops) && j < |ops| && ops[j].Resume?
    ensures Backed(w, ops[j..])
    decreases j
  {
    if j == 0 {
      assert ops[0..] == ops;
    } else {
      var next := match ops[0]
        case Ensure(d) => v + {d}
        case Release(n) => if n.space == Environments then v - {n.key} else v
        case Resume => {}
        case _ => v;
      ResumedIsBacked(next, w, ops[1..], j - 1);
      assert ops[1..][j - 1..] == ops[j..];
    }
  }

  lemma RecoveredIsBacked(t: Thread, rest: seq<Op>)
    requires Recovers(t, rest) && Backed(t.verified.Keys, t.ops)
    ensures Backed(t.verified.Keys, rest)
  {
    hide Unwinds, Runs, Backed, VerifiedAfter;
    var v := t.verified.Keys;
    var left, unwinding, later :|
      Unwinds(t.held, left, unwinding) && Catches(t.ops, left, later) && rest == unwinding + later;
    UnwindingExecutesNothing(t.held, left, unwinding);
    NoExecution(v, unwinding);
    if left == [] && later == [] {
      NoExecution(VerifiedAfter(v, unwinding), later);
    } else {
      var j :| 0 <= j < |t.ops| && t.ops[j].Resume? && later == t.ops[j..] && Runs(left, later) == Some([]);
      ResumedIsBacked(v, VerifiedAfter(v, unwinding), t.ops, j);
    }
    BackedAppend(v, unwinding, later);
  }

  lemma StepKeepsBacked(s: State, s': State, a: Actor)
    requires Step(s, s', a) && AllBacked(s)
    ensures AllBacked(s')
  {
    OneThreadMoves(s, s', a);
    StepHasOps(s, s', a);
    var t, t' := s.threads[a], s'.threads[a];
    if Progress(s, s', a) { ProgressKeepsBacked(s, s', a); }
    else {
      var rest :| Recovers(t, rest) && Unwound(s, s', a, rest);
      RecoveredIsBacked(t, rest);
    }
  }

  lemma ProgressKeepsBacked(s: State, s': State, a: Actor)
    requires Progress(s, s', a) && a < |s'.threads| && Backed(s.threads[a].verified.Keys, s.threads[a].ops)
    ensures Backed(s'.threads[a].verified.Keys, s'.threads[a].ops)
  {
    hide AcquireStep, ReleaseStep, EnsureStep, SweepStep, CleanupStep, MakeDirStep, Backed;
    var op := s.threads[a].ops[0];
    match op
    case Ensure(d) => EnsureKeepsBacked(s, s', a, d);
    case Release(n) => ReleaseKeepsBacked(s, s', a, n);
    case Cleanup(_, _, _, _) => CleanupKeepsBacked(s, s', a, op);
    case Sweep(_, _, _, _, _) => SweptBacked(s, s', a, op);
    case Acquire(n) => AcquireKeepsBacked(s, s', a, n);
    case MakeDir(e) => MakeDirKeepsBacked(s, s', a, e);
    case _ => NextIsBacked(s.threads[a]);
  }

  /** After an operation that verifies and gives back nothing, the rest is backed. */
  lemma NextIsBacked(t: Thread)
    requires t.ops != [] && !t.ops[0].Ensure? && !t.ops[0].Release? && Backed(t.verified.Keys, t.ops)
    ensures Backed(t.verified.Keys, t.ops[1..])
  {
    if t.ops[0].Resume? { BackedByMore({}, t.verified.Keys, t.ops[1..]); }
  }

  lemma AcquireKeepsBacked(s: State, s': State, a: Actor, n: Lock)
    requires a < |s.threads| && s.threads[a].ops != [] && s.threads[a].ops[0] == Acquire(n) && a < |s'.threads|
    requires AcquireStep(s, s', a, n) && Backed(s.threads[a].verified.Keys, s.threads[a].ops)
    ensures Backed(s'.threads[a].verified.Keys, s'.threads[a].ops)
  {
    NextIsBacked(s.threads[a]);
    hide Backed;
  }

  lemma MakeDirKeepsBacked(s: State, s': State, a: Actor, e: Dir)
    requires a < |s.threads| && s.threads[a].ops != [] && s.threads[a].ops[0] == MakeDir(e) && a < |s'.threads|
    requires MakeDirStep(s, s', a, e) && Backed(s.threads[a].verified.Keys, s.threads[a].ops)
    ensures Backed(s'.threads[a].verified.Keys, s'.threads[a].ops)
  {
    NextIsBacked(s.threads[a]);
    hide Backed;
  }

  lemma CleanupKeepsBacked(s: State, s': State, a: Actor, op: Op)
    requires a < |s.threads| && s.threads[a].ops != [] && s.threads[a].ops[0] == op && op.Cleanup? && a < |s'.threads|
    requires CleanupStep(s, s', a, op) && Backed(s.threads[a].verified.Keys, s.threads[a].ops)
    ensures Backed(s'.threads[a].verified.Keys, s'.threads[a].ops)
  {
    var t, t' := s.threads[a], s'.threads[a];
    NextIsBacked(t);
    hide Lists;
    assert t'.verified == t.verified && (t'.ops == t.ops[1..] || (t'.ops[0].Sweep? && t'.ops[1..] == t.ops[1..]));
  }

  lemma ReleaseBacked(v: set<Key>, n: Lock, ops: seq<Op>)
    requires ops != [] && ops[0] == Release(n) && Backed(v, ops)
    ensures var w := if n.space == Environments then v - {n.key} else v; Backed(w, ops) && Backed(w, ops[1..])
  {
    if n.space == Environments { assert v - {n.key} - {n.key} == v - {n.key}; }
  }

  lemma EnsureKeepsBacked(s: State, s': State, a: Actor, d: Key)
    requires a < |s.threads| && s.threads[a].ops != [] && s.threads[a].ops[0] == Ensure(d) && a < |s'.threads|
    requires EnsureStep(s, s', a, d) && Backed(s.threads[a].verified.Keys, s.threads[a].ops)
    ensures Backed(s'.threads[a].verified.Keys, s'.threads[a].ops)
  {
    var t, t' := s.threads[a], s'.threads[a];
    if t'.ops == t.ops {
      assert t'.verified.Keys + {d} == t.verified.Keys + {d};
    } else {
      assert t'.verified.Keys == t.verified.Keys + {d};
    }
  }

  lemma ReleaseKeepsBacked(s: State, s': State, a: Actor, n: Lock)
    requires a < |s.threads| && s.threads[a].ops != [] && s.threads[a].ops[0] == Release(n) && a < |s'.threads|
    requires ReleaseStep(s, s', a, n) && Backed(s.threads[a].verified.Keys, s.threads[a].ops)
    ensures Backed(s'.threads[a].verified.Keys, s'.threads[a].ops)
  {
    var t, t' := s.threads[a], s'.threads[a];
    var v := t.verified.Keys;
    ReleaseBacked(v, n, t.ops);
    hide Backed;
    if t'.ops == t.ops {
      assert (t.verified - {n.key}).Keys == v - {n.key};
    } else if n.space == Environments {
      BackedByMore(v - {n.key}, v, t.ops[1..]);
    }
  }

  lemma SweptBacked(s: State, s': State, a: Actor, op: Op)
    requires a < |s.threads| && s.threads[a].ops != [] && s.threads[a].ops[0] == op && op.Sweep?
    requires SweepStep(s, s', a, op) && a < |s'.threads| && Backed(s.threads[a].verified.Keys, s.threads[a].ops)
    ensures Backed(s'.threads[a].verified.Keys, s'.threads[a].ops)
  {
    SweptTail(s, s', a, op);
    assert s'.threads[a].verified == s.threads[a].verified;
  }

  /** Every interleaving of any calls keeps the lock protocol's invariant. */
  lemma {:induction false} CallsKeepInv(programs: seq<Program>, dirs: map<Dir, nat>, clock: nat, run: seq<State>,
                                        who: seq<Actor>, k: nat)
    requires FreshIds(programs, dirs) && IsRun(run, who) && run[0] == Start(programs, dirs, clock) && k < |run|
    ensures Inv(run[k]) && AllBacked(run[k])
  {
    hide Inv, Step, AllBacked, FreshIds;
    if k == 0 {
      StartHasInv(programs, dirs, clock);
      StartIsBacked(programs, dirs, clock);
    } else {
      CallsKeepInv(programs, dirs, clock, run, who, k - 1);
      StepKeepsInv(run[k - 1], run[k], who[k - 1]);
      StepKeepsBacked(run[k - 1], run[k], who[k - 1]);
    }
  }

  lemma StartIsBacked(programs: seq<Program>, dirs: map<Dir, nat>, clock: nat)
    ensures AllBacked(Start(programs, dirs, clock))
  {
    var s := Start(programs, dirs, clock);
    forall a | 0 <= a < |s.threads| ensures Backed(s.threads[a].verified.Keys, s.threads[a].ops) {
      ScriptsBacked(s.threads[a].verified.Keys, programs[a].calls);
    }
  }

  lemma VerifiedNow(s: State, a: Actor, d: Key)
    requires Inv(s) && AllBacked(s) && Unfinished(s, a) && s.threads[a].ops[0].Execute?
    requires d in s.threads[a].ops[0].needs
    ensures var e, n := Dir(Environments, d), Lock(Environments, d);
      && d in s.threads[a].verified && e in s.dirs && s.dirs[e] == s.threads[a].verified[d]
      && n in s.fileLocks && s.fileLocks[n] == a
  {
    hide AllOrderly, ThreadOwned, FreshRuns, Protected;
    assert Backed(s.threads[a].verified.Keys, s.threads[a].ops);
    VerifiedIsThere(s, a, d);
    HoldsItsLock(s, a, d);
  }

  lemma HoldsItsLock(s: State, a: Actor, d: Key)
    requires FileOwned(s.threads, s.fileLocks) && AllProtected(s) && a < |s.threads| && d in s.threads[a].verified
    ensures Lock(Environments, d) in s.fileLocks && s.fileLocks[Lock(Environments, d)] == a
  {
    assert Protected(s.threads[a], s.dirs);
    assert Lock(Environments, d) in OwnsFile(s.threads[a]);
  }

  /**
   Whenever a call is about to execute, each environment it needs is in the cache
   exactly as this call verified it, under a file lock that this call owns.
   */
  lemma ExecutesOnVerified(programs: seq<Program>, dirs: map<Dir, nat>, clock: nat, run: seq<State>, who: seq<Actor>,
                           k: nat, a: Actor, d: Key)
    requires FreshIds(programs, dirs) && IsRun(run, who) && run[0] == Start(programs, dirs, clock) && k < |run|
    requires Unfinished(run[k], a) && run[k].threads[a].ops[0].Execute? && d in run[k].threads[a].ops[0].needs
    ensures var s, e, n := run[k], Dir(Environments, d), Lock(Environments, d);
      && d in s.threads[a].verified && e in s.dirs && s.dirs[e] == s.threads[a].verified[d]
      && n in s.fileLocks && s.fileLocks[n] == a
  {
    CallsKeepInv(programs, dirs, clock, run, who, k);
    hide *;
    VerifiedNow(run[k], a, d);
  }

  /** No interleaving of any calls reaches a state in which work is left but nobody can go on. */
  lemma CallsNeverDeadlock(programs: seq<Program>, dirs: map<Dir, nat>, clock: nat, run: seq<State>, who: seq<Actor>,
                           k: nat, a: Actor)
    returns (b: Actor, next: State)
    requires FreshIds(programs, dirs) && IsRun(run, who) && run[0] == Start(programs, dirs, clock) && k < |run|
    requires Unfinished(run[k], a)
    ensures Progress(run[k], next, b)
  {
    CallsKeepInv(programs, dirs, clock, run, who, k);
    b, next := NoDeadlock(run[k], a);
  }

  /**
   The eviction lock must be named after the directory: a sweep of environments
   that locks other names removes one that is verified and locked.
   */
  lemma OtherPrefixEvicts(d: Key, prefix: Space) returns (run: seq<State>, who: seq<Actor>)
    requires prefix != Environments
    ensures IsRun(run, who) && who == [1, 1, 1] && |run[0].threads| == |run[3].threads| == 2
    ensures var s, n := run[0], Lock(Environments, d);
      Protected(s.threads[0], s.dirs) && d in s.threads[0].verified && n in s.fileLocks && s.fileLocks[n] == 0
    ensures d in run[3].threads[0].verified && Dir(Environments, d) !in run[3].dirs
  {
    var n, e, op := Lock(Environments, d), Dir(Environments, d), Sweep(Environments, prefix, [d], 1, {});
    var user := Thread(0, [Execute(0, {d}), Release(n)], 0, [n], map[d := 0]);
    var s0 := State([user, Thread(1, [op], 0, [], map[])], map[(0, n) := 0], map[n := 0], map[e := 0], 1);
    hide Step;
    var s1, s2, s3 := SweepEvicts(s0, 1, op);
    run, who := [s0, s1, s2, s3], [1, 1, 1];
  }

  /** A sweep that finds its locks free removes the entry, whoever uses it. */
  lemma SweepEvicts(s: State, a: Actor, op: Op) returns (s1: State, s2: State, s3: State)
    requires Unfinished(s, a) && s.threads[a].ops[0] == op && s.threads[a].phase == 0
    requires op.Sweep? && op.entries != [] && op.excess > 0 && op.entries[0] !in op.preserve
    requires var n := Lock(op.prefix, op.entries[0]); (s.threads[a].pid, n) !in s.threadLocks && n !in s.fileLocks
    ensures Step(s, s1, a) && Step(s1, s2, a) && Step(s2, s3, a)
    ensures |s3.threads| == |s.threads| && (forall b | 0 <= b < |s.threads| && b != a :: s3.threads[b] == s.threads[b])
    ensures s3.dirs == s.dirs - {Dir(op.space, op.entries[0])}
  {
    hide SweepStep, SweptThread;
    s1 := SweepMoves(s, a, op);
    ThreadLockFirst(s, s1, a, op);
    s2 := SweepMoves(s1, a, op);
    FileLockNext(s1, s2, a, op);
    s3 := SweepMoves(s2, a, op);
    EntryRemoved(s2, s3, a, op);
  }

  lemma ThreadLockFirst(s: State, s': State, a: Actor, op: Op)
    requires Unfinished(s, a) && s.threads[a].ops[0] == op && op.Sweep? && op.entries != [] && op.excess > 0
    requires SweepStep(s, s', a, op)
    requires NextFate(s, s.threads[a], op) == TakeThreadLock
    ensures s'.threads == s.threads[a := s.threads[a].(phase := 1)] && s'.fileLocks == s.fileLocks && s'.dirs == s.dirs
  {
  }

  lemma FileLockNext(s: State, s': State, a: Actor, op: Op)
    requires Unfinished(s, a) && s.threads[a].ops[0] == op && op.Sweep? && op.entries != [] && op.excess > 0
    requires SweepStep(s, s', a, op)
    requires NextFate(s, s.threads[a], op) == TakeFileLock
    ensures s'.threads == s.threads[a := s.threads[a].(phase := 2)] && s'.dirs == s.dirs
  {
  }

  lemma EntryRemoved(s: State, s': State, a: Actor, op: Op)
    requires Unfinished(s, a) && s.threads[a].ops[0] == op && op.Sweep? && op.entries != [] && op.excess > 0
    requires SweepStep(s, s', a, op)
    requires NextFate(s, s.threads[a], op) == Remove
    ensures |s'.threads| == |s.threads| && (forall b | 0 <= b < |s.threads| && b != a :: s'.threads[b] == s.threads[b])
    ensures s'.dirs == s.dirs - {Dir(op.space, op.entries[0])}
  {
  }
}
