/**
 The operations of one call of the embedded backend, and what the lock protocol
 gives for any number of such calls (src/spl/embedded.py).

 `Isolated` runs a bundle in a worker process under its environment locks;
 `InProcess` runs it in the caller's process, and the user's code may call again
 while the artifact lock of its own run is held.
 */
module CacheScripts {
  import opened Common
  import opened CacheLocks
  import opened CacheSafety
  import opened CacheProgress

  const MAX_BUNDLE_CACHE_ENTRIES: nat := 64
  const MAX_ENVIRONMENT_CACHE_ENTRIES: nat := 32
  const MAX_ARTIFACT_CACHE_ENTRIES: nat := 128

  /** A runtime lock: the digest of its environment and the digests of its wheels. */
  datatype Runtime = Runtime(digest: Key, wheels: seq<Key>)

  /** How the bundle gets into the cache: it is known to be there, found valid, or installed. */
  datatype Fetch = Resolved | Found | Installed

  datatype Call =
    | Isolated(fetch: Fetch, bundle: Key, runtimes: seq<Runtime>, run: Key)
    | InProcess(fetch: Fetch, bundle: Key, run: Key, user: seq<Call>)

  // ----------------------------------------------------------------- scripts

  /** `sorted(digests)` of a set: ascending, without repeats. */
  function Insert(k: Key, keys: seq<Key>): seq<Key> {
    if keys == [] || k < keys[0] then [k] + keys
    else if k == keys[0] then keys
    else [keys[0]] + Insert(k, keys[1..])
  }

  function SortedDigests(runtimes: seq<Runtime>): seq<Key> {
    if runtimes == [] then [] else Insert(runtimes[0].digest, SortedDigests(runtimes[1..]))
  }

  function Digests(runtimes: seq<Runtime>): set<Key> { set i | 0 <= i < |runtimes| :: runtimes[i].digest }

  function Locks(space: Space, keys: seq<Key>): seq<Lock> {
    seq(|keys|, i requires 0 <= i < |keys| => Lock(space, keys[i]))
  }

  function Acquires(locks: seq<Lock>): seq<Op> {
    if locks == [] then [] else [Acquire(locks[0])] + Acquires(locks[1..])
  }

  /** An exit stack gives back in reverse order. */
  function Releases(locks: seq<Lock>): seq<Op> {
    if locks == [] then [] else Releases(locks[1..]) + [Release(locks[0])]
  }

  function Fetching(fetch: Fetch, bundle: Key): seq<Op> {
    var n := Lock(Bundles, bundle);
    match fetch
    case Resolved => []
    case Found => [Acquire(n), MakeDir(Dir(Bundles, bundle)), Release(n)]
    case Installed => [Acquire(n), MakeDir(Dir(Bundles, bundle)), Release(n),
                       Cleanup(Bundles, Bundles, MAX_BUNDLE_CACHE_ENTRIES, {bundle})]
  }

  function WheelOps(wheels: seq<Key>): seq<Op> {
    if wheels == [] then []
    else [Acquire(Lock(Wheels, wheels[0])), MakeDir(Dir(Wheels, wheels[0])), Release(Lock(Wheels, wheels[0]))]
         + WheelOps(wheels[1..])
  }

  /** Each distinct environment is ensured once, after its wheels. */
  function Preparing(runtimes: seq<Runtime>, ready: set<Key>): seq<Op> {
    if runtimes == [] then []
    else if runtimes[0].digest in ready then Preparing(runtimes[1..], ready)
    else WheelOps(runtimes[0].wheels) + [Ensure(runtimes[0].digest)]
         + Preparing(runtimes[1..], ready + {runtimes[0].digest})
  }

  function Running(run: Key, body: seq<Op>): seq<Op> {
    [Acquire(Lock(Artifacts, run)), MakeDir(Dir(Artifacts, run))] + body + [Release(Lock(Artifacts, run))]
    + [Cleanup(Artifacts, Artifacts, MAX_ARTIFACT_CACHE_ENTRIES, {run})]
  }

  function IsolatedBody(runtimes: seq<Runtime>, run: Key): seq<Op> {
    var envs := Locks(Environments, SortedDigests(runtimes));
    Acquires(envs) + (Preparing(runtimes, {}) + Running(run, [Execute(run, Digests(runtimes))])) + Releases(envs)
    + [Cleanup(Environments, Environments, MAX_ENVIRONMENT_CACHE_ENTRIES, Digests(runtimes))]
  }

  function Script(call: Call): seq<Op>
    decreases call, 0
  {
    var n := Lock(Bundles, call.bundle);
    match call
    case Isolated(fetch, bundle, runtimes, run) =>
      Fetching(fetch, bundle) + ([Acquire(n)] + IsolatedBody(runtimes, run) + [Release(n)])
    case InProcess(fetch, bundle, run, user) =>
      Fetching(fetch, bundle) + ([Acquire(n), Release(n)] + Running(run, Scripts(user)))
  }

  function Scripts(calls: seq<Call>): seq<Op>
    decreases calls, 1
  {
    if calls == [] then [] else Script(calls[0]) + ([Resume] + Scripts(calls[1..]))
  }

  /** The run ids of a list of calls, in the order in which their locks are taken. */
  function RunIds(calls: seq<Call>): seq<Key>
    decreases calls
  {
    if calls == [] then []
    else [calls[0].run] + (if calls[0].InProcess? then RunIds(calls[0].user) else []) + RunIds(calls[1..])
  }

  predicate NoRepeats(keys: seq<Key>) { forall i, j | 0 <= i < j < |keys| :: keys[i] != keys[j] }

  // ------------------------------------------------------ scripts are disciplined

  /** Only artifact locks are held when a call starts: none, or those of the runs around it. */
  predicate OnlyRuns(held: seq<Lock>) { forall h | h in held :: h.space == Artifacts }

  lemma {:induction false} RunsAppend(held: seq<Lock>, x: seq<Op>, y: seq<Op>)
    ensures Runs(held, x + y) == match Runs(held, x) { case Some(after) => Runs(after, y) case None => None }
    decreases |x|
  {
    if x == [] {
      assert x + y == y;
    } else {
      assert (x + y)[1..] == x[1..] + y && (x + y)[0] == x[0];
      match x[0]
      case Acquire(n) => RunsAppend(held + [n], x[1..], y);
      case Release(n) => if held != [] { RunsAppend(held[..|held| - 1], x[1..], y); }
      case _ => RunsAppend(held, x[1..], y);
    }
  }

  lemma {:induction false} AcquiresRun(held: seq<Lock>, locks: seq<Lock>)
    requires forall i | 0 <= i < |locks| :: locks[i].space != Artifacts
    requires forall h, i | h in held && 0 <= i < |locks| :: h.space == Artifacts || Rank(h) < Rank(locks[i])
    requires forall i, j | 0 <= i < j < |locks| :: Rank(locks[i]) < Rank(locks[j])
    ensures Runs(held, Acquires(locks)) == Some(held + locks)
    decreases |locks|
  {
    if locks == [] {
      assert held + locks == held;
    } else {
      var n := locks[0];
      assert InOrder(held, n);
      AcquiresRun(held + [n], locks[1..]);
      assert held + [n] + locks[1..] == held + locks;
    }
  }

  lemma {:induction false} ReleasesRun(held: seq<Lock>, locks: seq<Lock>)
    ensures Runs(held + locks, Releases(locks)) == Some(held)
    decreases |locks|
  {
    if locks == [] {
      assert held + locks == held;
    } else {
      var n := locks[0];
      ReleasesRun(held + [n], locks[1..]);
      assert held + [n] + locks[1..] == held + locks;
      RunsAppend(held + locks, Releases(locks[1..]), [Release(n)]);
      assert (held + [n])[..|held|] == held;
    }
  }

  lemma BracketRuns(held: seq<Lock>, n: Lock, body: seq<Op>)
    requires InOrder(held, n) && Runs(held + [n], body) == Some(held + [n])
    ensures Runs(held, [Acquire(n)] + body + [Release(n)]) == Some(held)
  {
    var ops := [Acquire(n)] + body + [Release(n)];
    assert ops[1..] == body + [Release(n)];
    RunsAppend(held + [n], body, [Release(n)]);
    assert (held + [n])[..|held|] == held;
  }

  predicate Ascending(keys: seq<Key>) { forall i, j | 0 <= i < j < |keys| :: keys[i] < keys[j] }

  lemma {:induction false} InsertSorts(k: Key, keys: seq<Key>)
    requires Ascending(keys)
    ensures Ascending(Insert(k, keys)) && forall x: Key :: x in Insert(k, keys) <==> x == k || x in keys
  {
    if keys != [] && k > keys[0] {
      InsertSorts(k, keys[1..]);
      var r := Insert(k, keys[1..]);
      assert Insert(k, keys) == [keys[0]] + r;
      forall i, j | 0 <= i < j < |r| + 1 ensures ([keys[0]] + r)[i] < ([keys[0]] + r)[j] {
        assert r[j - 1] in r;
      }
    }
  }

  /** Ascending, each digest once, and all of them. */
  lemma {:induction false} SortedDigestsAreSorted(runtimes: seq<Runtime>)
    ensures var r := SortedDigests(runtimes);
      Ascending(r) && forall x: Key :: x in r <==> x in Digests(runtimes)
  {
    if runtimes != [] {
      SortedDigestsAreSorted(runtimes[1..]);
      InsertSorts(runtimes[0].digest, SortedDigests(runtimes[1..]));
      DigestsSplit(runtimes);
    }
  }

  lemma DigestsSplit(runtimes: seq<Runtime>)
    requires runtimes != []
    ensures Digests(runtimes) == {runtimes[0].digest} + Digests(runtimes[1..])
  {
    forall k | k in Digests(runtimes) ensures k in {runtimes[0].digest} + Digests(runtimes[1..]) {
      var i :| 0 <= i < |runtimes| && runtimes[i].digest == k;
      if i > 0 { assert runtimes[1..][i - 1].digest == k; }
    }
    forall k | k in Digests(runtimes[1..]) ensures k in Digests(runtimes) {
      var i :| 0 <= i < |runtimes[1..]| && runtimes[1..][i].digest == k;
      assert runtimes[i + 1].digest == k;
    }
  }

  lemma FetchingRuns(held: seq<Lock>, fetch: Fetch, bundle: Key)
    requires OnlyRuns(held)
    ensures Runs(held, Fetching(fetch, bundle)) == Some(held)
  {
    var n := Lock(Bundles, bundle);
    var body := [MakeDir(Dir(Bundles, bundle))];
    if fetch != Resolved {
      MakeDirRuns(held + [n], Dir(Bundles, bundle));
      BracketRuns(held, n, body);
      assert [Acquire(n)] + body + [Release(n)] == [Acquire(n), MakeDir(Dir(Bundles, bundle)), Release(n)];
      if fetch == Installed {
        var sweep := [Cleanup(Bundles, Bundles, MAX_BUNDLE_CACHE_ENTRIES, {bundle})];
        CleanupRuns(held, sweep[0]);
        RunsAppend(held, [Acquire(n), MakeDir(Dir(Bundles, bundle)), Release(n)], sweep);
        assert Fetching(fetch, bundle) == [Acquire(n), MakeDir(Dir(Bundles, bundle)), Release(n)] + sweep;
      }
    }
  }

  lemma MakeDirRuns(held: seq<Lock>, e: Dir)
    requires Lock(e.space, e.key) in held && e.space != Environments
    ensures Runs(held, [MakeDir(e)]) == Some(held)
  {
    assert Runs(held, [MakeDir(e)][1..]) == Some(held);
  }

  lemma CleanupRuns(held: seq<Lock>, op: Op)
    requires op.Cleanup? && op.space == op.prefix && op.space != Wheels
    ensures Runs(held, [op]) == Some(held)
  {
    assert Runs(held, [op][1..]) == Some(held);
  }

  lemma {:induction false} WheelsRun(held: seq<Lock>, wheels: seq<Key>)
    requires forall h | h in held :: h.space != Wheels
    ensures Runs(held, WheelOps(wheels)) == Some(held)
    decreases |wheels|
  {
    if wheels != [] {
      var n, e := Lock(Wheels, wheels[0]), Dir(Wheels, wheels[0]);
      MakeDirRuns(held + [n], e);
      BracketRuns(held, n, [MakeDir(e)]);
      assert [Acquire(n)] + [MakeDir(e)] + [Release(n)] == [Acquire(n), MakeDir(e), Release(n)];
      WheelsRun(held, wheels[1..]);
      RunsAppend(held, [Acquire(n), MakeDir(e), Release(n)], WheelOps(wheels[1..]));
    }
  }

  lemma {:induction false} PreparingRuns(held: seq<Lock>, runtimes: seq<Runtime>, ready: set<Key>)
    requires forall h | h in held :: h.space != Wheels
    requires forall i | 0 <= i < |runtimes| :: Lock(Environments, runtimes[i].digest) in held
    ensures Runs(held, Preparing(runtimes, ready)) == Some(held)
    decreases |runtimes|
  {
    if runtimes != [] {
      var d := runtimes[0].digest;
      var rest := runtimes[1..];
      assert forall i | 0 <= i < |rest| :: rest[i] == runtimes[i + 1];
      if d in ready { PreparingRuns(held, rest, ready); }
      else {
        PreparingRuns(held, rest, ready + {d});
        WheelsRun(held, runtimes[0].wheels);
        EnsureRuns(held, d);
        RunsAppend(held, WheelOps(runtimes[0].wheels), [Ensure(d)]);
        RunsAppend(held, WheelOps(runtimes[0].wheels) + [Ensure(d)], Preparing(rest, ready + {d}));
      }
    }
  }

  lemma EnsureRuns(held: seq<Lock>, d: Key)
    requires Lock(Environments, d) in held
    ensures Runs(held, [Ensure(d)]) == Some(held)
  {
    assert Runs(held, [Ensure(d)][1..]) == Some(held);
  }

  lemma RunningRuns(held: seq<Lock>, run: Key, body: seq<Op>)
    requires Lock(Artifacts, run) !in held
    requires Runs(held + [Lock(Artifacts, run)], body) == Some(held + [Lock(Artifacts, run)])
    ensures Runs(held, Running(run, body)) == Some(held)
  {
    var n, e := Lock(Artifacts, run), Dir(Artifacts, run);
    var sweep := Cleanup(Artifacts, Artifacts, MAX_ARTIFACT_CACHE_ENTRIES, {run});
    MakeDirRuns(held + [n], e);
    RunsAppend(held + [n], [MakeDir(e)], body);
    BracketRuns(held, n, [MakeDir(e)] + body);
    CleanupRuns(held, sweep);
    RunsAppend(held, [Acquire(n)] + ([MakeDir(e)] + body) + [Release(n)], [sweep]);
    assert Running(run, body) == [Acquire(n)] + ([MakeDir(e)] + body) + [Release(n)] + [sweep];
  }

  lemma IsolatedRuns(held: seq<Lock>, bundle: Key, runtimes: seq<Runtime>, run: Key)
    requires OnlyRuns(held) && Lock(Artifacts, run) !in held
    ensures Runs(held, [Acquire(Lock(Bundles, bundle))] + IsolatedBody(runtimes, run)
      + [Release(Lock(Bundles, bundle))]) == Some(held)
  {
    var n := Lock(Bundles, bundle);
    IsolatedBodyRuns(held + [n], runtimes, run);
    BracketRuns(held, n, IsolatedBody(runtimes, run));
  }

  lemma IsolatedBodyRuns(held: seq<Lock>, runtimes: seq<Runtime>, run: Key)
    requires (forall h | h in held :: h.space == Artifacts || h.space == Bundles) && Lock(Artifacts, run) !in held
    ensures Runs(held, IsolatedBody(runtimes, run)) == Some(held)
  {
    hide Runs, Running, Preparing, Acquires, Releases;
    var envs := Locks(Environments, SortedDigests(runtimes));
    EnvironmentsRun(held, runtimes);
    var inner := held + envs;
    var execute := [Execute(run, Digests(runtimes))];
    ExecuteRuns(inner + [Lock(Artifacts, run)], run, Digests(runtimes));
    EnvironmentLocksHeld(held, runtimes);
    PreparingRuns(inner, runtimes, {});
    assert Lock(Artifacts, run) !in envs;
    RunningRuns(inner, run, execute);
    RunsAppend(inner, Preparing(runtimes, {}), Running(run, execute));
    RunsAppend(held, Acquires(envs), Preparing(runtimes, {}) + Running(run, execute));
    RunsAppend(held, Acquires(envs) + (Preparing(runtimes, {}) + Running(run, execute)), Releases(envs));
    var sweep := Cleanup(Environments, Environments, MAX_ENVIRONMENT_CACHE_ENTRIES, Digests(runtimes));
    CleanupRuns(held, sweep);
    RunsAppend(held, Acquires(envs) + (Preparing(runtimes, {}) + Running(run, execute)) + Releases(envs), [sweep]);
  }

  lemma ExecuteRuns(held: seq<Lock>, run: Key, needs: set<Key>)
    ensures Runs(held, [Execute(run, needs)]) == Some(held)
  {
    assert Runs(held, [Execute(run, needs)][1..]) == Some(held);
  }

  lemma EnvironmentsRun(held: seq<Lock>, runtimes: seq<Runtime>)
    requires forall h | h in held :: h.space == Artifacts || h.space == Bundles
    ensures var envs := Locks(Environments, SortedDigests(runtimes));
      Runs(held, Acquires(envs)) == Some(held + envs) && Runs(held + envs, Releases(envs)) == Some(held)
  {
    var envs := Locks(Environments, SortedDigests(runtimes));
    SortedDigestsAreSorted(runtimes);
    forall i, j | 0 <= i < j < |envs| ensures Rank(envs[i]) < Rank(envs[j]) {
      assert SortedDigests(runtimes)[i] < SortedDigests(runtimes)[j];
    }
    AcquiresRun(held, envs);
    ReleasesRun(held, envs);
  }

  lemma EnvironmentLocksHeld(held: seq<Lock>, runtimes: seq<Runtime>)
    requires forall h | h in held :: h.space == Artifacts || h.space == Bundles
    ensures var inner := held + Locks(Environments, SortedDigests(runtimes));
      (forall h | h in inner :: h.space != Wheels)
      && (forall i | 0 <= i < |runtimes| :: Lock(Environments, runtimes[i].digest) in inner)
  {
    var keys := SortedDigests(runtimes);
    var envs := Locks(Environments, keys);
    SortedDigestsAreSorted(runtimes);
    forall i | 0 <= i < |runtimes| ensures Lock(Environments, runtimes[i].digest) in held + envs {
      assert runtimes[i].digest in Digests(runtimes);
      var j :| 0 <= j < |keys| && keys[j] == runtimes[i].digest;
      assert envs[j] == Lock(Environments, runtimes[i].digest);
    }
  }

  /** None of these run ids has its artifact lock among `held`. */
  predicate Unheld(held: seq<Lock>, ids: seq<Key>) { forall id | id in ids :: Lock(Artifacts, id) !in held }

  /** The first call's own id, those of the calls its user code makes, and those of the later calls. */
  lemma RunIdsSplit(calls: seq<Call>, held: seq<Lock>)
    requires calls != [] && NoRepeats(RunIds(calls)) && Unheld(held, RunIds(calls))
    ensures var call, n := calls[0], Lock(Artifacts, calls[0].run);
      && n !in held && Unheld(held, RunIds(calls[1..])) && NoRepeats(RunIds(calls[1..]))
      && (call.InProcess? ==> NoRepeats(RunIds(call.user)) && Unheld(held + [n], RunIds(call.user)))
  {
    var run, rest := calls[0].run, RunIds(calls[1..]);
    var user := if calls[0].InProcess? then RunIds(calls[0].user) else [];
    RunIdsUnfold(calls);
    hide RunIds, NoRepeats, Unheld;
    PartsNoRepeats([run] + user, rest);
    PartsNoRepeats([run], user);
    PartsUnheld(held, [run] + user, rest);
    PartsUnheld(held, [run], user);
    RunUnheld(held, run, user);
  }

  lemma RunIdsUnfold(calls: seq<Call>)
    requires calls != []
    ensures RunIds(calls)
         == [calls[0].run] + (if calls[0].InProcess? then RunIds(calls[0].user) else []) + RunIds(calls[1..])
  {
  }

  lemma PartsNoRepeats(x: seq<Key>, y: seq<Key>)
    requires NoRepeats(x + y)
    ensures NoRepeats(x) && NoRepeats(y) && forall k | k in x :: k !in y
  {
    assert forall i | 0 <= i < |x| :: (x + y)[i] == x[i];
    assert forall i | 0 <= i < |y| :: (x + y)[i + |x|] == y[i];
  }

  lemma PartsUnheld(held: seq<Lock>, x: seq<Key>, y: seq<Key>)
    requires Unheld(held, x + y)
    ensures Unheld(held, x) && Unheld(held, y)
  {
    assert forall k | k in x || k in y :: k in x + y;
  }

  lemma RunUnheld(held: seq<Lock>, run: Key, user: seq<Key>)
    requires Unheld(held, [run]) && Unheld(held, user) && forall k | k in [run] :: k !in user
    ensures Lock(Artifacts, run) !in held && Unheld(held + [Lock(Artifacts, run)], user)
  {
    assert run in [run];
  }

  /** Any list of calls, with any calls made by user code inside them, keeps to the discipline. */
  lemma {:induction false} ScriptsRun(calls: seq<Call>, held: seq<Lock>)
    requires OnlyRuns(held) && NoRepeats(RunIds(calls)) && Unheld(held, RunIds(calls))
    ensures Runs(held, Scripts(calls)) == Some(held)
    decreases calls
  {
    hide Runs, OnlyRuns, Unheld, NoRepeats, Fetching;
    if calls == [] { NoOpsRun(held); }
    else {
      var call := calls[0];
      RunIdsSplit(calls, held);
      ScriptsRun(calls[1..], held);
      FetchingRuns(held, call.fetch, call.bundle);
      var body: seq<Op>;
      match call {
        case Isolated(_, bundle, runtimes, run) =>
          IsolatedRuns(held, bundle, runtimes, run);
          body := [Acquire(Lock(Bundles, bundle))] + IsolatedBody(runtimes, run) + [Release(Lock(Bundles, bundle))];
        case InProcess(_, bundle, run, user) =>
          MoreRuns(held, run);
          ScriptsRun(user, held + [Lock(Artifacts, run)]);
          InProcessRuns(held, bundle, run, Scripts(user));
          body := [Acquire(Lock(Bundles, bundle)), Release(Lock(Bundles, bundle))] + Running(run, Scripts(user));
      }
      assert Script(call) == Fetching(call.fetch, call.bundle) + body;
      RunsAppend(held, Fetching(call.fetch, call.bundle), body);
      ResumeRuns(held, Scripts(calls[1..]));
      RunsAppend(held, Script(call), [Resume] + Scripts(calls[1..]));
    }
  }

  lemma ResumeRuns(held: seq<Lock>, rest: seq<Op>)
    ensures Runs(held, [Resume] + rest) == Runs(held, rest)
  {
    assert ([Resume] + rest)[1..] == rest;
  }

  lemma NoOpsRun(held: seq<Lock>)
    ensures Runs(held, []) == Some(held)
  {
  }

  lemma MoreRuns(held: seq<Lock>, run: Key)
    requires OnlyRuns(held)
    ensures OnlyRuns(held + [Lock(Artifacts, run)])
  {
  }

  lemma InProcessRuns(held: seq<Lock>, bundle: Key, run: Key, body: seq<Op>)
    requires OnlyRuns(held) && Lock(Artifacts, run) !in held
    requires Runs(held + [Lock(Artifacts, run)], body) == Some(held + [Lock(Artifacts, run)])
    ensures Runs(held, [Acquire(Lock(Bundles, bundle)), Release(Lock(Bundles, bundle))] + Running(run, body))
         == Some(held)
  {
    var n := Lock(Bundles, bundle);
    NoOpsRun(held + [n]);
    BracketRuns(held, n, []);
    assert [Acquire(n)] + [] + [Release(n)] == [Acquire(n), Release(n)];
    RunningRuns(held, run, body);
    RunsAppend(held, [Acquire(n), Release(n)], Running(run, body));
  }
}
