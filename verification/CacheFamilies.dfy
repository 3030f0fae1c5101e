/**
 When calls and their worker processes can wait for each other for ever, told from
 the calls alone (src/spl/embedded.py:1641-1798): if a call inside a worker uses the
 bundle or an environment of an execution that waits for the worker.
 */
module CacheFamilies {
  import opened Common
  import opened CacheLocks
  import opened CacheSafety
  import opened CacheProgress
  import opened CacheScripts
  import opened CacheCalls
  import opened CacheWorkers

  // ------------------------------------------------------------------------ the calls

  /** All calls of a program, those that its user code makes inside others included. */
  function Inside(calls: seq<Call>): seq<Call>
    decreases calls
  {
    if calls == [] then []
    else [calls[0]] + (if calls[0].InProcess? then Inside(calls[0].user) else []) + Inside(calls[1..])
  }

  /** The bundle lock and the environment locks of a call. */
  predicate UsedBy(c: Call, n: Lock) {
    || n == Lock(Bundles, c.bundle)
    || (n.space == Environments && c.Isolated? && n.key in Digests(c.runtimes))
  }

  /** Two calls use one bundle or one environment. */
  predicate Share(d: Call, c: Call) {
    || d.bundle == c.bundle
    || (d.Isolated? && c.Isolated? && exists k :: k in Digests(d.runtimes) && k in Digests(c.runtimes))
  }

  lemma SharedLock(d: Call, c: Call) returns (n: Lock)
    requires Share(d, c)
    ensures UsedBy(d, n) && UsedBy(c, n)
  {
    if d.bundle == c.bundle { n := Lock(Bundles, d.bundle); }
    else {
      var k :| k in Digests(d.runtimes) && k in Digests(c.runtimes);
      n := Lock(Environments, k);
    }
  }

  /** The call `c` of worker `w` shares something with the execution `d` of somebody who waits for `w`, through `x`. */
  predicate ClashAt(crew: Crew, programs: seq<Program>, w: Actor, x: Actor, d: Call, c: Call) {
    && w in crew && w < |programs| && (x == w || x in Above(crew, w)) && x in crew && crew[x].boss < |programs|
    && d in Inside(programs[crew[x].boss].calls) && d.Isolated? && d.run == crew[x].run
    && c in Inside(programs[w].calls) && Share(d, c)
  }

  /** Some worker makes a call that shares something with an execution that waits for it. */
  ghost predicate Clash(crew: Crew, programs: seq<Program>) { exists w, x, d, c :: ClashAt(crew, programs, w, x, d, c) }

  /** Every worker works for an execution that its caller's program has. */
  predicate JobsExist(crew: Crew, programs: seq<Program>) {
    forall w | w in crew :: crew[w].boss < |programs|
      && exists d :: d in Inside(programs[crew[w].boss].calls) && d.Isolated? && d.run == crew[w].run
  }

  /** These are the runs of these calls, in order. */
  predicate RunsOf(calls: seq<Call>, ids: seq<Key>) {
    |calls| == |ids| && forall i | 0 <= i < |calls| :: calls[i].run == ids[i]
  }

  lemma {:induction false} InsideHasRunIds(calls: seq<Call>)
    ensures RunsOf(Inside(calls), RunIds(calls))
    decreases calls
  {
    hide RunsOf;
    if calls == [] { RunsOfNone(); }
    else {
      var user := if calls[0].InProcess? then calls[0].user else [];
      RunsOfNone();
      if calls[0].InProcess? { InsideHasRunIds(calls[0].user); }
      InsideHasRunIds(calls[1..]);
      RunsOfOne(calls[0]);
      RunsOfBoth([calls[0]], [calls[0].run], Inside(user), RunIds(user));
      RunsOfBoth([calls[0]] + Inside(user), [calls[0].run] + RunIds(user), Inside(calls[1..]), RunIds(calls[1..]));
    }
  }

  lemma RunsOfNone()
    ensures RunsOf([], []) && RunsOf(Inside([]), RunIds([]))
  {
  }

  lemma RunsOfOne(c: Call)
    ensures RunsOf([c], [c.run])
  {
  }

  lemma RunsOfBoth(x: seq<Call>, a: seq<Key>, y: seq<Call>, b: seq<Key>)
    requires RunsOf(x, a) && RunsOf(y, b)
    ensures RunsOf(x + y, a + b)
  {
  }

  lemma OneCallPerRun(calls: seq<Call>, c: Call, d: Call)
    requires NoRepeats(RunIds(calls)) && c in Inside(calls) && d in Inside(calls) && c.run == d.run
    ensures c == d
  {
    hide Inside, RunIds;
    InsideHasRunIds(calls);
    var i :| 0 <= i < |Inside(calls)| && Inside(calls)[i] == c;
    var j :| 0 <= j < |Inside(calls)| && Inside(calls)[j] == d;
  }

  // ------------------------------------------------------- what a script takes and holds

  /** The locks held are those with which the rest runs to its end. */
  lemma {:induction false} RestTellsHeld(x: seq<Lock>, y: seq<Lock>, ops: seq<Op>)
    requires Runs(x, ops) == Some([]) && Runs(y, ops) == Some([])
    ensures x == y
    decreases |ops|
  {
    if ops != [] {
      match ops[0]
      case Acquire(n) =>
        RestTellsHeld(x + [n], y + [n], ops[1..]);
        assert (x + [n])[..|x|] == x && (y + [n])[..|y|] == y;
      case Release(n) =>
        RestTellsHeld(x[..|x| - 1], y[..|y| - 1], ops[1..]);
        assert x == x[..|x| - 1] + [n] && y == y[..|y| - 1] + [n];
      case _ => RestTellsHeld(x, y, ops[1..]);
    }
  }

  /** What is ahead is an execution of one of these calls, which holds the bundle and the environments of that call. */
  ghost predicate ExecutesOne(ops: seq<Op>, calls: seq<Call>)
    requires ops != [] && ops[0].Execute?
  {
    exists d, held :: d in calls && d.Isolated? && d.run == ops[0].run && Holds(held, d) && Runs(held, ops) == Some([])
  }

  ghost predicate Holds(held: seq<Lock>, d: Call) {
    forall n: Lock | n.space != Artifacts :: n in held <==> UsedBy(d, n)
  }

  /** Every execution ahead is one of these calls. */
  ghost predicate Marked(ops: seq<Op>, calls: seq<Call>) {
    ops == [] || ((ops[0].Execute? ==> ExecutesOne(ops, calls)) && Marked(ops[1..], calls))
  }

  /** Every bundle and environment lock taken ahead is one of a call. */
  ghost predicate TakesOf(ops: seq<Op>, calls: seq<Call>) {
    forall op | op in ops && op.Acquire? && (op.lock.space == Bundles || op.lock.space == Environments) ::
      exists c :: c in calls && UsedBy(c, op.lock)
  }

  lemma {:induction false} MarkedPrefix(x: seq<Op>, y: seq<Op>, calls: seq<Call>)
    requires (forall op | op in x :: !op.Execute?) && Marked(y, calls)
    ensures Marked(x + y, calls)
  {
    if x == [] {
      assert x + y == y;
    } else {
      assert (x + y)[0] == x[0] && (x + y)[1..] == x[1..] + y && x[0] in x;
      MarkedPrefix(x[1..], y, calls);
    }
  }

  lemma {:induction false} MarkedSuffix(ops: seq<Op>, j: nat, calls: seq<Call>)
    requires j <= |ops| && Marked(ops, calls)
    ensures Marked(ops[j..], calls)
  {
    if j == 0 {
      assert ops[0..] == ops;
    } else {
      MarkedSuffix(ops[1..], j - 1, calls);
      assert ops[1..][j - 1..] == ops[j..];
    }
  }

  // -------------------------------------------------------------- isolated calls in parts

  function Environs(d: Call): seq<Lock>
    requires d.Isolated?
  {
    Locks(Environments, SortedDigests(d.runtimes))
  }

  function Opening(d: Call): seq<Op>
    requires d.Isolated?
  {
    Acquires(Environs(d)) + Preparing(d.runtimes, {})
  }

  function Entering(run: Key): seq<Op> { [Acquire(Lock(Artifacts, run)), MakeDir(Dir(Artifacts, run))] }

  function Leaving(run: Key): seq<Op> {
    [Release(Lock(Artifacts, run))] + [Cleanup(Artifacts, Artifacts, MAX_ARTIFACT_CACHE_ENTRIES, {run})]
  }

  function Closing(d: Call): seq<Op>
    requires d.Isolated?
  {
    Releases(Environs(d)) + [Cleanup(Environments, Environments, MAX_ENVIRONMENT_CACHE_ENTRIES, Digests(d.runtimes))]
  }

  /** What an isolated call does before its execution, and after it. */
  function Before(d: Call): seq<Op>
    requires d.Isolated?
  {
    Fetching(d.fetch, d.bundle) + [Acquire(Lock(Bundles, d.bundle))] + Opening(d) + Entering(d.run)
  }

  function Afterwards(d: Call): seq<Op>
    requires d.Isolated?
  {
    Leaving(d.run) + Closing(d) + [Release(Lock(Bundles, d.bundle))]
  }

  lemma IsolatedInParts(d: Call)
    requires d.Isolated?
    ensures Script(d) == Before(d) + ([Execute(d.run, Digests(d.runtimes))] + Afterwards(d))
  {
    hide Fetching, Acquires, Releases, Preparing, Locks;
    var execute := [Execute(d.run, Digests(d.runtimes))];
    RunningInParts(d.run, execute);
    BodyInParts(d, Running(d.run, execute));
    hide Running, IsolatedBody, Opening, Entering, Leaving, Closing;
    var f, n := Fetching(d.fetch, d.bundle), Lock(Bundles, d.bundle);
    assert Script(d) == f + ([Acquire(n)] + IsolatedBody(d.runtimes, d.run) + [Release(n)]);
  }

  lemma RunningInParts(run: Key, body: seq<Op>)
    ensures Running(run, body) == Entering(run) + body + Leaving(run)
  {
  }

  lemma BodyInParts(d: Call, running: seq<Op>)
    requires d.Isolated? && running == Running(d.run, [Execute(d.run, Digests(d.runtimes))])
    ensures IsolatedBody(d.runtimes, d.run) == Opening(d) + running + Closing(d)
  {
    hide Running, Acquires, Releases, Preparing, Locks;
  }

  function HeldDuring(held: seq<Lock>, d: Call): seq<Lock>
    requires d.Isolated?
  {
    held + [Lock(Bundles, d.bundle)] + Environs(d) + [Lock(Artifacts, d.run)]
  }

  lemma HoldsItsLocks(held: seq<Lock>, d: Call)
    requires d.Isolated? && OnlyRuns(held)
    ensures Holds(HeldDuring(held, d), d)
  {
    SortedDigestsAreSorted(d.runtimes);
    var keys := SortedDigests(d.runtimes);
    forall n: Lock | n.space != Artifacts ensures n in HeldDuring(held, d) <==> UsedBy(d, n) {
      if n.space == Environments && n.key in Digests(d.runtimes) {
        var i :| 0 <= i < |keys| && keys[i] == n.key;
        assert Environs(d)[i] == n;
      }
    }
  }

  lemma BeforeRuns(held: seq<Lock>, d: Call)
    requires d.Isolated? && OnlyRuns(held) && Lock(Artifacts, d.run) !in held
    ensures Runs(held, Before(d)) == Some(HeldDuring(held, d))
  {
    hide Runs, Fetching, Acquires, Preparing, Locks, SortedDigests;
    var n := Lock(Bundles, d.bundle);
    var one := held + [n];
    var inner := one + Environs(d);
    FetchingRuns(held, d.fetch, d.bundle);
    OneAcquired(held, n);
    OpeningRuns(one, d);
    EnteringRuns(inner, d.run) by { NotAmong(one, d); }
    RunsAppend(held, Fetching(d.fetch, d.bundle), [Acquire(n)]);
    RunsAppend(held, Fetching(d.fetch, d.bundle) + [Acquire(n)], Opening(d));
    RunsAppend(held, Fetching(d.fetch, d.bundle) + [Acquire(n)] + Opening(d), Entering(d.run));
  }

  lemma NotAmong(held: seq<Lock>, d: Call)
    requires d.Isolated? && Lock(Artifacts, d.run) !in held
    ensures Lock(Artifacts, d.run) !in held + Environs(d)
  {
  }

  lemma OneAcquired(held: seq<Lock>, n: Lock)
    requires OnlyRuns(held) && n.space != Artifacts
    ensures Runs(held, [Acquire(n)]) == Some(held + [n])
  {
    assert InOrder(held, n) && [Acquire(n)][1..] == [];
  }

  lemma OpeningRuns(held: seq<Lock>, d: Call)
    requires d.Isolated? && forall h | h in held :: h.space == Artifacts || h.space == Bundles
    ensures Runs(held, Opening(d)) == Some(held + Environs(d))
  {
    hide Runs;
    EnvironmentsRun(held, d.runtimes);
    EnvironmentLocksHeld(held, d.runtimes);
    PreparingRuns(held + Environs(d), d.runtimes, {});
    RunsAppend(held, Acquires(Environs(d)), Preparing(d.runtimes, {}));
  }

  lemma EnteringRuns(held: seq<Lock>, run: Key)
    requires Lock(Artifacts, run) !in held
    ensures Runs(held, Entering(run)) == Some(held + [Lock(Artifacts, run)])
  {
    var n, e := Lock(Artifacts, run), Dir(Artifacts, run);
    MakeDirRuns(held + [n], e);
    assert Entering(run)[1..] == [MakeDir(e)];
  }

  lemma BeforeExecutesNothing(d: Call)
    requires d.Isolated?
    ensures forall op | op in Before(d) + Afterwards(d) :: !op.Execute?
  {
    LocksExecuteNothing(Environs(d));
    PreparingExecutesNothing(d.runtimes, {});
    FetchingExecutesNothing(d.fetch, d.bundle);
    hide Fetching, Preparing, Acquires, Releases, Environs;
  }

  lemma {:induction false} PreparingExecutesNothing(runtimes: seq<Runtime>, ready: set<Key>)
    ensures forall op | op in Preparing(runtimes, ready) :: !op.Execute? && (op.Acquire? ==> op.lock.space == Wheels)
    decreases |runtimes|
  {
    if runtimes != [] {
      var d := runtimes[0].digest;
      if d in ready { PreparingExecutesNothing(runtimes[1..], ready); }
      else {
        PreparingExecutesNothing(runtimes[1..], ready + {d});
        WheelsExecuteNothing(runtimes[0].wheels);
        WheelsTakeWheels(runtimes[0].wheels);
      }
    }
  }

  lemma {:induction false} WheelsTakeWheels(wheels: seq<Key>)
    ensures forall op | op in WheelOps(wheels) && op.Acquire? :: op.lock.space == Wheels
  {
    if wheels != [] { WheelsTakeWheels(wheels[1..]); }
  }

  // --------------------------------------------------------------------- whole scripts

  function Entry(c: Call): seq<Op>
    requires c.InProcess?
  {
    Fetching(c.fetch, c.bundle) + [Acquire(Lock(Bundles, c.bundle)), Release(Lock(Bundles, c.bundle))] + Entering(c.run)
  }

  lemma InProcessInParts(c: Call)
    requires c.InProcess?
    ensures Script(c) == Entry(c) + (Scripts(c.user) + Leaving(c.run))
  {
    hide Fetching, Scripts;
    RunningInParts(c.run, Scripts(c.user));
    hide Running, Entering, Leaving;
    var n := Lock(Bundles, c.bundle);
    assert Script(c) == Fetching(c.fetch, c.bundle) + ([Acquire(n), Release(n)] + Running(c.run, Scripts(c.user)));
  }

  lemma EntryRuns(held: seq<Lock>, c: Call)
    requires c.InProcess? && OnlyRuns(held) && Lock(Artifacts, c.run) !in held
    ensures Runs(held, Entry(c)) == Some(held + [Lock(Artifacts, c.run)])
  {
    hide Runs, Fetching;
    var n := Lock(Bundles, c.bundle);
    FetchingRuns(held, c.fetch, c.bundle);
    NoOpsRun(held + [n]);
    BracketRuns(held, n, []) by { assert InOrder(held, n); }
    assert [Acquire(n)] + [] + [Release(n)] == [Acquire(n), Release(n)];
    EnteringRuns(held, c.run);
    RunsAppend(held, Fetching(c.fetch, c.bundle), [Acquire(n), Release(n)]);
    RunsAppend(held, Fetching(c.fetch, c.bundle) + [Acquire(n), Release(n)], Entering(c.run));
  }

  lemma EntryExecutesNothing(c: Call)
    requires c.InProcess?
    ensures forall op | op in Entry(c) + Leaving(c.run) :: !op.Execute?
  {
    FetchingExecutesNothing(c.fetch, c.bundle);
    hide Fetching;
  }

  /** What follows the first call. */
  function Following(calls: seq<Call>, rest: seq<Op>): seq<Op>
    requires calls != []
  {
    [Resume] + Scripts(calls[1..]) + rest
  }

  lemma FirstThenFollowing(calls: seq<Call>, rest: seq<Op>)
    requires calls != []
    ensures Scripts(calls) + rest == Script(calls[0]) + Following(calls, rest)
  {
    hide Script;
  }

  lemma FollowingRuns(calls: seq<Call>, held: seq<Lock>, rest: seq<Op>)
    requires calls != [] && OnlyRuns(held) && NoRepeats(RunIds(calls[1..])) && Unheld(held, RunIds(calls[1..]))
    requires Runs(held, rest) == Some([])
    ensures Runs(held, Following(calls, rest)) == Some([])
  {
    hide Runs, Scripts, RunIds, NoRepeats, Unheld;
    ScriptsRun(calls[1..], held);
    ResumeRuns(held, Scripts(calls[1..]));
    RunsAppend(held, [Resume] + Scripts(calls[1..]), rest);
  }

  /** Every execution in the script of a list of calls is one of them, and holds the locks of that one. */
  lemma {:induction false} ScriptsAreMarked(calls: seq<Call>, held: seq<Lock>, rest: seq<Op>, all: seq<Call>)
    requires OnlyRuns(held) && NoRepeats(RunIds(calls)) && Unheld(held, RunIds(calls))
    requires Runs(held, rest) == Some([]) && Marked(rest, all) && forall c | c in Inside(calls) :: c in all
    ensures Marked(Scripts(calls) + rest, all)
    decreases calls, 0
  {
    hide Runs, Scripts, RunIds, NoRepeats, Unheld, OnlyRuns, Marked, Script;
    if calls == [] { NoScripts(rest); }
    else {
      var c, more := calls[0], Following(calls, rest);
      RunIdsSplit(calls, held);
      InsideSplit(calls);
      ScriptsAreMarked(calls[1..], held, rest, all);
      FollowingRuns(calls, held, rest);
      MarkedPrefix([Resume], Scripts(calls[1..]) + rest, all);
      assert more == [Resume] + (Scripts(calls[1..]) + rest);
      FirstThenFollowing(calls, rest);
      if c.Isolated? { IsolatedIsMarked(c, held, more, all); }
      else { InProcessIsMarked(c, held, more, all); }
    }
  }

  lemma NoScripts(rest: seq<Op>)
    ensures Scripts([]) + rest == rest
  {
  }

  lemma InsideSplit(calls: seq<Call>)
    requires calls != []
    ensures calls[0] in Inside(calls) && (forall c | c in Inside(calls[1..]) :: c in Inside(calls))
    ensures calls[0].InProcess? ==> forall c | c in Inside(calls[0].user) :: c in Inside(calls)
    ensures forall c | c in Inside(calls) ::
      c == calls[0] || c in Inside(calls[1..]) || (calls[0].InProcess? && c in Inside(calls[0].user))
  {
  }

  lemma IsolatedIsMarked(d: Call, held: seq<Lock>, more: seq<Op>, all: seq<Call>)
    requires d.Isolated? && d in all && OnlyRuns(held) && Lock(Artifacts, d.run) !in held
    requires Runs(held, more) == Some([]) && Marked(more, all)
    ensures Marked(Script(d) + more, all)
  {
    hide Runs, Before, Afterwards, HeldDuring, Holds;
    var execute := [Execute(d.run, Digests(d.runtimes))];
    var ahead := execute + (Afterwards(d) + more);
    IsolatedInParts(d);
    BeforeRuns(held, d);
    HoldsItsLocks(held, d);
    BeforeExecutesNothing(d);
    IsolatedComesBack(d, held);
    RunsAppend(held, Before(d), execute + Afterwards(d));
    RunsAppend(HeldDuring(held, d), execute + Afterwards(d), more);
    assert execute + Afterwards(d) + more == ahead;
    MarkedPrefix(Afterwards(d), more, all);
    assert ahead[0] == execute[0] && ahead[1..] == Afterwards(d) + more;
    assert ExecutesOne(ahead, all);
    MarkedPrefix(Before(d), ahead, all);
    assert Script(d) + more == Before(d) + ahead;
  }

  lemma IsolatedComesBack(d: Call, held: seq<Lock>)
    requires d.Isolated? && OnlyRuns(held) && Lock(Artifacts, d.run) !in held
    ensures Runs(held, Script(d)) == Some(held)
  {
    hide Runs, Fetching, IsolatedBody;
    var n := Lock(Bundles, d.bundle);
    FetchingRuns(held, d.fetch, d.bundle);
    IsolatedRuns(held, d.bundle, d.runtimes, d.run);
    RunsAppend(held, Fetching(d.fetch, d.bundle), [Acquire(n)] + IsolatedBody(d.runtimes, d.run) + [Release(n)]);
  }

  lemma InProcessIsMarked(c: Call, held: seq<Lock>, more: seq<Op>, all: seq<Call>)
    requires c.InProcess? && OnlyRuns(held) && Lock(Artifacts, c.run) !in held && NoRepeats(RunIds(c.user))
    requires Unheld(held + [Lock(Artifacts, c.run)], RunIds(c.user)) && forall d | d in Inside(c.user) :: d in all
    requires Runs(held, more) == Some([]) && Marked(more, all)
    ensures Marked(Script(c) + more, all)
    decreases c.user, 1
  {
    hide Runs, Scripts, RunIds, NoRepeats, Unheld, Entry, Leaving;
    var inner := held + [Lock(Artifacts, c.run)];
    var ahead := Leaving(c.run) + more;
    InProcessInParts(c);
    EntryRuns(held, c);
    EntryExecutesNothing(c);
    MoreRuns(held, c.run);
    LeavingRuns(held, c.run, more);
    MarkedPrefix(Leaving(c.run), more, all);
    ScriptsAreMarked(c.user, inner, ahead, all);
    MarkedPrefix(Entry(c), Scripts(c.user) + ahead, all);
    assert Script(c) + more == Entry(c) + (Scripts(c.user) + ahead);
  }

  lemma LeavingRuns(held: seq<Lock>, run: Key, more: seq<Op>)
    requires Runs(held, more) == Some([])
    ensures Runs(held + [Lock(Artifacts, run)], Leaving(run) + more) == Some([])
  {
    var n := Lock(Artifacts, run);
    var ops := Leaving(run) + more;
    assert ops[0] == Release(n) && ops[1].Cleanup? && ops[1..][1..] == more;
    assert (held + [n])[..|held|] == held;
  }

  // ------------------------------------------------------- what the locks of a script are

  lemma TakesAppend(x: seq<Op>, y: seq<Op>, calls: seq<Call>)
    requires TakesOf(x, calls) && TakesOf(y, calls)
    ensures TakesOf(x + y, calls)
  {
  }

  lemma {:induction false} AcquiresTake(locks: seq<Lock>)
    ensures forall op | op in Acquires(locks) :: op.Acquire? && op.lock in locks
    ensures forall n | n in locks :: Acquire(n) in Acquires(locks)
    ensures forall op | op in Releases(locks) :: op.Release?
  {
    if locks != [] { AcquiresTake(locks[1..]); }
  }

  lemma EnvironsAre(d: Call)
    requires d.Isolated?
    ensures forall n :: n in Environs(d) <==> n.space == Environments && n.key in Digests(d.runtimes)
  {
    SortedDigestsAreSorted(d.runtimes);
    var keys := SortedDigests(d.runtimes);
    forall n: Lock | n.space == Environments && n.key in Digests(d.runtimes) ensures n in Environs(d) {
      var i :| 0 <= i < |keys| && keys[i] == n.key;
      assert Environs(d)[i] == n;
    }
  }

  /** An isolated call takes exactly its own bundle and environment locks, besides those of wheels and of its run. */
  lemma IsolatedTakes(d: Call, all: seq<Call>)
    requires d.Isolated? && d in all
    ensures TakesOf(Script(d), all) && forall n | UsedBy(d, n) :: Acquire(n) in Script(d)
    ensures Execute(d.run, Digests(d.runtimes)) in Script(d)
  {
    hide Acquires, Releases, Preparing, Environs, Script;
    IsolatedInParts(d);
    EnvironsAre(d);
    AcquiresTake(Environs(d));
    PreparingExecutesNothing(d.runtimes, {});
  }

  lemma InProcessTakes(c: Call, all: seq<Call>)
    requires c.InProcess? && c in all && TakesOf(Scripts(c.user), all)
    ensures TakesOf(Script(c), all) && Acquire(Lock(Bundles, c.bundle)) in Script(c)
    ensures forall op | op in Scripts(c.user) :: op in Script(c)
  {
    hide Scripts, Script;
    InProcessInParts(c);
    assert TakesOf(Entry(c), all) && TakesOf(Leaving(c.run), all);
    TakesAppend(Scripts(c.user), Leaving(c.run), all);
    TakesAppend(Entry(c), Scripts(c.user) + Leaving(c.run), all);
    assert Entry(c)[|Fetching(c.fetch, c.bundle)|] == Acquire(Lock(Bundles, c.bundle));
  }

  lemma {:induction false} ScriptsTakeOf(calls: seq<Call>, all: seq<Call>)
    requires forall c | c in Inside(calls) :: c in all
    ensures TakesOf(Scripts(calls), all)
    decreases calls
  {
    hide TakesOf, Script, Inside;
    if calls == [] { NothingTakes(all); }
    else {
      InsideSplit(calls);
      ScriptsTakeOf(calls[1..], all);
      if calls[0].Isolated? { IsolatedTakes(calls[0], all); }
      else {
        ScriptsTakeOf(calls[0].user, all);
        InProcessTakes(calls[0], all);
      }
      ResumeTakes(all);
      TakesAppend([Resume], Scripts(calls[1..]), all);
      TakesAppend(Script(calls[0]), [Resume] + Scripts(calls[1..]), all);
    }
  }

  lemma NothingTakes(all: seq<Call>)
    ensures TakesOf(Scripts([]), all)
  {
  }

  lemma ResumeTakes(all: seq<Call>)
    ensures TakesOf([Resume], all)
  {
  }

  /** Each call inside a program takes its locks there, and an isolated one is executed there. */
  lemma {:induction false} InsideIsDone(calls: seq<Call>, c: Call)
    requires c in Inside(calls)
    ensures forall n | UsedBy(c, n) :: Acquire(n) in Scripts(calls)
    ensures c.Isolated? ==> Execute(c.run, Digests(c.runtimes)) in Scripts(calls)
    decreases calls
  {
    hide Script, UsedBy;
    InsideSplit(calls);
    if c == calls[0] {
      CallIsDone(c);
    } else if c in Inside(calls[1..]) {
      InsideIsDone(calls[1..], c);
    } else {
      InsideIsDone(calls[0].user, c);
      UserIsDone(calls[0]);
    }
  }

  lemma CallIsDone(c: Call)
    ensures forall n | UsedBy(c, n) :: Acquire(n) in Script(c)
    ensures c.Isolated? ==> Execute(c.run, Digests(c.runtimes)) in Script(c)
  {
    hide Script;
    if c.Isolated? { IsolatedTakes(c, [c]); }
    else {
      ScriptsTakeOf(c.user, [c] + Inside(c.user));
      InProcessTakes(c, [c] + Inside(c.user));
    }
  }

  lemma UserIsDone(c: Call)
    requires c.InProcess?
    ensures forall op | op in Scripts(c.user) :: op in Script(c)
  {
    hide Script, Scripts;
    InProcessInParts(c);
  }
}
