/**
 What a call leaves in the cache when nothing disturbs it
 (src/spl/embedded.py:1641-1798, 1896-1943, 2030-2100, 2271-2312): its bundle, its
 wheels, its environments and the directory of its run are there when its code is
 executed and still there when it ends, its own cleanups included.
 */
module CacheEffects {
  import opened Common
  import opened CacheLocks
  import opened CacheSafety
  import opened CacheProgress
  import opened CacheScripts
  import opened CacheCalls
  import opened CacheWorkers
  import opened CacheFamilies
  import opened CacheDeadlock
  import opened CacheContents

  // --------------------------------------------------------- what is there after operations

  function HeldNext(held: seq<Lock>, op: Op): seq<Lock> {
    match op
    case Acquire(n) => held + [n]
    case Release(_) => if held == [] then [] else held[..|held| - 1]
    case _ => held
  }

  function HeldLater(held: seq<Lock>, ops: seq<Op>): seq<Lock>
    decreases |ops|
  {
    if ops == [] then held else HeldLater(HeldNext(held, ops[0]), ops[1..])
  }

  /** A cleanup leaves what it preserves, what is locked, and all other spaces. */
  predicate Survives(e: Dir, held: seq<Lock>, space: Space, preserve: set<Key>) {
    e.space != space || e.key in preserve || Lock(e.space, e.key) in held
  }

  /** Of what is known to be there, what still is after an operation of this thread, and what it has made. */
  function Leaves(known: set<Dir>, held: seq<Lock>, op: Op): set<Dir> {
    match op
    case MakeDir(e) => known + {e}
    case Ensure(d) => known + {Dir(Environments, d)}
    case Cleanup(space, _, _, preserve) => set e | e in known && Survives(e, held, space, preserve)
    case _ => known
  }

  function Finally(known: set<Dir>, held: seq<Lock>, ops: seq<Op>): set<Dir>
    decreases |ops|
  {
    if ops == [] then known else Finally(Leaves(known, held, ops[0]), HeldNext(held, ops[0]), ops[1..])
  }

  /** Where directory `e` has to be there: when this run is executed, and when the bundle `e` was read. */
  predicate Needs(op: Op, e: Dir, run: Key) {
    || (op.Execute? && op.run == run)
    || (e.space == Bundles && op == Release(Lock(Bundles, e.key)))
  }

  /** Wherever `e` has to be there, it is. */
  ghost predicate Shows(known: set<Dir>, held: seq<Lock>, ops: seq<Op>, e: Dir, run: Key)
    decreases |ops|
  {
    ops == []
    || ((Needs(ops[0], e, run) ==> e in known)
        && Shows(Leaves(known, held, ops[0]), HeldNext(held, ops[0]), ops[1..], e, run))
  }

  lemma {:induction false} ShowsAppend(known: set<Dir>, held: seq<Lock>, x: seq<Op>, y: seq<Op>, e: Dir, run: Key)
    ensures Shows(known, held, x + y, e, run) <==>
      Shows(known, held, x, e, run) && Shows(Finally(known, held, x), HeldLater(held, x), y, e, run)
    ensures Finally(known, held, x + y) == Finally(Finally(known, held, x), HeldLater(held, x), y)
    ensures HeldLater(held, x + y) == HeldLater(HeldLater(held, x), y)
    decreases |x|
  {
    if x == [] {
      assert x + y == y;
    } else {
      assert (x + y)[0] == x[0] && (x + y)[1..] == x[1..] + y;
      ShowsAppend(Leaves(known, held, x[0]), HeldNext(held, x[0]), x[1..], y, e, run);
    }
  }

  lemma {:induction false} QuietShows(known: set<Dir>, held: seq<Lock>, ops: seq<Op>, e: Dir, run: Key)
    requires forall op | op in ops :: !Needs(op, e, run)
    ensures Shows(known, held, ops, e, run)
    decreases |ops|
  {
    if ops != [] { QuietShows(Leaves(known, held, ops[0]), HeldNext(held, ops[0]), ops[1..], e, run); }
  }

  /** No cleanup among these operations takes `e` away. */
  predicate Spared(held: seq<Lock>, ops: seq<Op>, e: Dir)
    decreases |ops|
  {
    ops == []
    || ((ops[0].Cleanup? ==> Survives(e, held, ops[0].space, ops[0].preserve))
        && Spared(HeldNext(held, ops[0]), ops[1..], e))
  }

  lemma {:induction false} SparedShows(known: set<Dir>, held: seq<Lock>, ops: seq<Op>, e: Dir, run: Key)
    requires e in known && Spared(held, ops, e)
    ensures Shows(known, held, ops, e, run) && e in Finally(known, held, ops)
    decreases |ops|
  {
    if ops != [] { SparedShows(Leaves(known, held, ops[0]), HeldNext(held, ops[0]), ops[1..], e, run); }
  }

  lemma {:induction false} SparedAppend(held: seq<Lock>, x: seq<Op>, y: seq<Op>, e: Dir)
    requires Spared(held, x, e) && Spared(HeldLater(held, x), y, e)
    ensures Spared(held, x + y, e)
    decreases |x|
  {
    if x == [] {
      assert x + y == y;
    } else {
      assert (x + y)[0] == x[0] && (x + y)[1..] == x[1..] + y;
      SparedAppend(HeldNext(held, x[0]), x[1..], y, e);
    }
  }

  predicate Preserves(op: Op, e: Dir) { op.Cleanup? && op.space == e.space ==> e.key in op.preserve }

  lemma {:induction false} PreservedIsSpared(held: seq<Lock>, ops: seq<Op>, e: Dir)
    requires forall op | op in ops :: Preserves(op, e)
    ensures Spared(held, ops, e)
    decreases |ops|
  {
    if ops != [] {
      assert Preserves(ops[0], e);
      PreservedIsSpared(HeldNext(held, ops[0]), ops[1..], e);
    }
  }

  /** A lock that disciplined operations hold at the end, and do not take, they hold all the time. */
  lemma {:induction false} HeldIsSpared(held: seq<Lock>, ops: seq<Op>, e: Dir)
    requires Runs(held, ops).Some? && Lock(e.space, e.key) in Runs(held, ops).value
    requires Acquire(Lock(e.space, e.key)) !in ops
    ensures Lock(e.space, e.key) in held && Spared(held, ops, e) && HeldLater(held, ops) == Runs(held, ops).value
    decreases |ops|
  {
    if ops != [] {
      var next := HeldNext(held, ops[0]);
      HeldIsSpared(next, ops[1..], e);
    }
  }

  // ----------------------------------------------------------------------- running alone

  /** A sweep or a rebuild under way is not about what is known to be there. */
  ghost predicate Steady(t: Thread, known: set<Dir>) {
    t.ops != [] ==>
      && (t.ops[0].Sweep? ==> forall e | e in known :: Survives(e, t.held, t.ops[0].space, t.ops[0].preserve))
      && (t.ops[0].Sweep? && t.phase > 0 ==> t.ops[0].entries != [] && t.ops[0].entries[0] !in t.ops[0].preserve)
      && (t.ops[0].Ensure? && t.phase == 1 ==> Dir(Environments, t.ops[0].digest) !in known)
  }

  /** With `x` ahead before `rest`, directory `e` will be there wherever it has to be, and at the end. */
  ghost predicate Certain(t: Thread, dirs: map<Dir, nat>, known: set<Dir>, x: seq<Op>, rest: seq<Op>, e: Dir,
                          run: Key) {
    && Ahead(t) == x + rest && (x == [] && Ahead(t) == t.ops ==> t.phase == 0) && known <= dirs.Keys && Steady(t, known)
    && Shows(known, t.held, x, e, run) && e in Finally(known, t.held, x)
  }

  predicate Ended(t: Thread, rest: seq<Op>) { t.ops == rest && t.phase == 0 }

  /** The next operation is the first of `x`. */
  lemma NextIsFirst(t: Thread, dirs: map<Dir, nat>, known: set<Dir>, x: seq<Op>, rest: seq<Op>, e: Dir, run: Key)
    requires Certain(t, dirs, known, x, rest, e, run) && Ahead(t) == t.ops != [] && !Ended(t, rest)
    ensures x != [] && x[0] == t.ops[0] && t.ops[1..] == x[1..] + rest
    ensures Shows(Leaves(known, t.held, x[0]), HeldNext(t.held, x[0]), x[1..], e, run)
    ensures e in Finally(Leaves(known, t.held, x[0]), HeldNext(t.held, x[0]), x[1..])
  {
    assert [] + rest == rest;
  }

  /** An operation is done: what it leaves is there. */
  lemma Done(t: Thread, t': Thread, dirs: map<Dir, nat>, dirs': map<Dir, nat>, known: set<Dir>, x: seq<Op>,
             rest: seq<Op>, e: Dir, run: Key)
    returns (known': set<Dir>, x': seq<Op>)
    requires Certain(t, dirs, known, x, rest, e, run) && Orderly(t) && Ahead(t) == t.ops != [] && !Ended(t, rest)
    requires t'.ops == t.ops[1..] && t'.phase == 0 && t'.held == HeldNext(t.held, t.ops[0])
    requires Leaves(known, t.held, t.ops[0]) <= dirs'.Keys
    ensures Certain(t', dirs', known', x', rest, e, run)
  {
    hide Shows, Finally, Runs, Leaves;
    NextIsFirst(t, dirs, known, x, rest, e, run);
    AheadOfNext(t);
    known', x' := Leaves(known, t.held, x[0]), x[1..];
  }

  lemma PlainStaysCertain(s: State, s': State, a: Actor, known: set<Dir>, x: seq<Op>, rest: seq<Op>, e: Dir, run: Key)
    returns (known': set<Dir>, x': seq<Op>)
    requires Progress(s, s', a) && a < |s.threads| == |s'.threads| && Orderly(s.threads[a])
    requires var t := s.threads[a]; t.ops != [] && (t.ops[0].MakeDir? || t.ops[0].Execute? || t.ops[0].Resume?)
    requires Certain(s.threads[a], s.dirs, known, x, rest, e, run) && !Ended(s.threads[a], rest)
    ensures Certain(s'.threads[a], s'.dirs, known', x', rest, e, run)
  {
    assert known <= s.dirs.Keys && Ahead(s.threads[a]) == s.threads[a].ops;
    hide Certain, Orderly;
    known', x' := Done(s.threads[a], s'.threads[a], s.dirs, s'.dirs, known, x, rest, e, run);
  }

  lemma AcquireStaysCertain(s: State, s': State, a: Actor, n: Lock, known: set<Dir>, x: seq<Op>, rest: seq<Op>, e: Dir,
                            run: Key)
    returns (known': set<Dir>, x': seq<Op>)
    requires Unfinished(s, a) && s.threads[a].ops[0] == Acquire(n) && AcquireStep(s, s', a, n) && a < |s'.threads|
    requires Orderly(s.threads[a]) && Certain(s.threads[a], s.dirs, known, x, rest, e, run)
    requires !Ended(s.threads[a], rest)
    ensures Certain(s'.threads[a], s'.dirs, known', x', rest, e, run)
  {
    var t, t' := s.threads[a], s'.threads[a];
    assert known <= s.dirs.Keys && Ahead(t) == t.ops;
    if t'.phase == 0 {
      hide Certain, Orderly;
      known', x' := Done(t, t', s.dirs, s'.dirs, known, x, rest, e, run);
    } else {
      NextIsFirst(t, s.dirs, known, x, rest, e, run);
      known', x' := known, x;
    }
  }

  lemma EnsureStaysCertain(s: State, s': State, a: Actor, d: Key, known: set<Dir>, x: seq<Op>, rest: seq<Op>, e: Dir,
                           run: Key)
    returns (known': set<Dir>, x': seq<Op>)
    requires Unfinished(s, a) && s.threads[a].ops[0] == Ensure(d) && EnsureStep(s, s', a, d) && a < |s'.threads|
    requires Orderly(s.threads[a]) && Certain(s.threads[a], s.dirs, known, x, rest, e, run)
    requires !Ended(s.threads[a], rest)
    ensures Certain(s'.threads[a], s'.dirs, known', x', rest, e, run)
  {
    var t, t' := s.threads[a], s'.threads[a];
    assert known <= s.dirs.Keys && Ahead(t) == t.ops;
    if t'.phase == 0 {
      hide Certain, Orderly;
      known', x' := Done(t, t', s.dirs, s'.dirs, known, x, rest, e, run);
    } else {
      NextIsFirst(t, s.dirs, known, x, rest, e, run);
      hide Finally, Shows, Runs;
      known', x' := known - {Dir(Environments, d)}, x;
      assert known' + {Dir(Environments, d)} == known + {Dir(Environments, d)};
      RebuiltShows(known, known', t.held, x, d, e, run);
    }
  }

  lemma RebuiltShows(known: set<Dir>, less: set<Dir>, held: seq<Lock>, x: seq<Op>, d: Key, e: Dir, run: Key)
    requires x != [] && x[0] == Ensure(d) && less + {Dir(Environments, d)} == known + {Dir(Environments, d)}
    requires Shows(known, held, x, e, run) && e in Finally(known, held, x)
    ensures Shows(less, held, x, e, run) && e in Finally(less, held, x)
  {
  }

  lemma ReleaseStaysCertain(s: State, s': State, a: Actor, n: Lock, known: set<Dir>, x: seq<Op>, rest: seq<Op>, e: Dir,
                            run: Key)
    returns (known': set<Dir>, x': seq<Op>)
    requires Unfinished(s, a) && s.threads[a].ops[0] == Release(n) && ReleaseStep(s, s', a, n) && a < |s'.threads|
    requires Orderly(s.threads[a]) && Certain(s.threads[a], s.dirs, known, x, rest, e, run)
    requires !Ended(s.threads[a], rest)
    ensures Certain(s'.threads[a], s'.dirs, known', x', rest, e, run)
  {
    var t, t' := s.threads[a], s'.threads[a];
    hide Finally, Shows, Runs;
    if t.phase == 0 {
      NextIsFirst(t, s.dirs, known, x, rest, e, run);
      known', x' := known, x[1..];
    } else {
      AheadOfNext(t);
      known', x' := known, x;
    }
  }

  lemma CleanupStaysCertain(s: State, s': State, a: Actor, op: Op, known: set<Dir>, x: seq<Op>, rest: seq<Op>, e: Dir,
                            run: Key)
    returns (known': set<Dir>, x': seq<Op>)
    requires Unfinished(s, a) && s.threads[a].ops[0] == op && op.Cleanup? && CleanupStep(s, s', a, op)
    requires a < |s'.threads| && Orderly(s.threads[a]) && Certain(s.threads[a], s.dirs, known, x, rest, e, run)
    requires !Ended(s.threads[a], rest)
    ensures Certain(s'.threads[a], s'.dirs, known', x', rest, e, run)
  {
    hide Lists, Runs;
    var t, t' := s.threads[a], s'.threads[a];
    assert s'.dirs == s.dirs && known <= s.dirs.Keys && Ahead(t) == t.ops && t'.held == t.held && t'.phase == 0;
    if t'.ops == t.ops[1..] {
      hide Certain, Orderly;
      known', x' := Done(t, t', s.dirs, s'.dirs, known, x, rest, e, run);
    } else {
      hide Finally, Shows;
      NextIsFirst(t, s.dirs, known, x, rest, e, run);
      known', x' := Leaves(known, t.held, op), x[1..];
      assert t'.ops[0].Sweep? && t'.ops[1..] == t.ops[1..];
    }
  }

  lemma SweepStaysCertain(s: State, s': State, a: Actor, op: Op, known: set<Dir>, x: seq<Op>, rest: seq<Op>, e: Dir,
                          run: Key)
    returns (known': set<Dir>, x': seq<Op>)
    requires Unfinished(s, a) && s.threads[a].ops[0] == op && op.Sweep? && SweepStep(s, s', a, op)
    requires a < |s'.threads| && Orderly(s.threads[a]) && Certain(s.threads[a], s.dirs, known, x, rest, e, run)
    ensures Certain(s'.threads[a], s'.dirs, known', x', rest, e, run)
  {
    hide Finally, Shows, Runs;
    known', x' := known, x;
    var t := s.threads[a];
    if op.excess <= 0 || op.entries == [] {
      SweptAhead(t);
    } else {
      SweptTail(s, s', a, op);
      TransientIsNotHeld(t);
      SweepKeepsKnown(s, s', a, op, known);
    }
  }

  lemma SweepKeepsKnown(s: State, s': State, a: Actor, op: Op, known: set<Dir>)
    requires Unfinished(s, a) && s.threads[a].ops[0] == op && op.Sweep? && SweepStep(s, s', a, op)
    requires a < |s'.threads| && op.excess > 0 && op.entries != [] && PhaseOk(s.threads[a])
    requires known <= s.dirs.Keys && Steady(s.threads[a], known)
    requires forall n | n in s.threads[a].held :: n !in TransientThread(s.threads[a])
    ensures known <= s'.dirs.Keys && Steady(s'.threads[a], known) && s'.threads[a].held == s.threads[a].held
  {
  }

  lemma StaysCertain(s: State, s': State, a: Actor, known: set<Dir>, x: seq<Op>, rest: seq<Op>, e: Dir, run: Key)
    returns (known': set<Dir>, x': seq<Op>)
    requires Inv(s) && Progress(s, s', a) && a < |s.threads| == |s'.threads| && !Ended(s.threads[a], rest)
    requires Certain(s.threads[a], s.dirs, known, x, rest, e, run)
    ensures Certain(s'.threads[a], s'.dirs, known', x', rest, e, run)
  {
    hide Inv, Certain, Orderly, AcquireStep, ReleaseStep, EnsureStep, CleanupStep, SweepStep, MakeDirStep;
    IsOrderly(s, a);
    var op := s.threads[a].ops[0];
    match op {
      case Ensure(d) => known', x' := EnsureStaysCertain(s, s', a, d, known, x, rest, e, run);
      case Release(n) => known', x' := ReleaseStaysCertain(s, s', a, n, known, x, rest, e, run);
      case Acquire(n) => known', x' := AcquireStaysCertain(s, s', a, n, known, x, rest, e, run);
      case Cleanup(_, _, _, _) => known', x' := CleanupStaysCertain(s, s', a, op, known, x, rest, e, run);
      case Sweep(_, _, _, _, _) => known', x' := SweepStaysCertain(s, s', a, op, known, x, rest, e, run);
      case _ => known', x' := PlainStaysCertain(s, s', a, known, x, rest, e, run);
    }
  }

  /** Thread `a` runs alone, without exceptions. */
  ghost predicate IsAlone(run: seq<State>, a: Actor) {
    run != [] && forall k | 0 <= k < |run| - 1 :: Progress(run[k], run[k + 1], a)
  }

  lemma {:induction false} AloneKeepsInv(run: seq<State>, a: Actor, k: nat)
    requires IsAlone(run, a) && Inv(run[0]) && a < |run[0].threads| && k < |run|
    ensures Inv(run[k]) && |run[k].threads| == |run[0].threads|
  {
    hide Inv, Progress, OwnsThread;
    if k > 0 {
      AloneKeepsInv(run, a, k - 1);
      assert Progress(run[k - 1], run[k - 1 + 1], a);
      ProgressHasOps(run[k - 1], run[k], a);
      StepKeepsInv(run[k - 1], run[k], a);
      ProgressMovesOne(run[k - 1], run[k], a);
    }
  }

  /** Up to the end of these operations, their directory is certain. */
  lemma {:induction false} AloneStaysCertain(run: seq<State>, a: Actor, x: seq<Op>, rest: seq<Op>, e: Dir, r: Key,
                                             known: set<Dir>, k: nat)
    returns (known': set<Dir>, x': seq<Op>)
    requires IsAlone(run, a) && Inv(run[0]) && a < |run[0].threads| && k < |run|
    requires Certain(run[0].threads[a], run[0].dirs, known, x, rest, e, r)
    requires forall j | 0 <= j < k && a < |run[j].threads| :: !Ended(run[j].threads[a], rest)
    ensures a < |run[k].threads| && Certain(run[k].threads[a], run[k].dirs, known', x', rest, e, r)
  {
    hide Inv, Progress, Certain, Ended;
    AloneKeepsInv(run, a, k);
    if k == 0 { known', x' := known, x; }
    else {
      known', x' := AloneStaysCertain(run, a, x, rest, e, r, known, k - 1);
      AloneKeepsInv(run, a, k - 1);
      assert Progress(run[k - 1], run[k - 1 + 1], a);
      known', x' := StaysCertain(run[k - 1], run[k], a, known', x', rest, e, r);
    }
  }

  /** What is certain is there: where it is needed, and at the end. */
  lemma CertainIsThere(t: Thread, dirs: map<Dir, nat>, known: set<Dir>, x: seq<Op>, rest: seq<Op>, e: Dir, run: Key)
    requires Certain(t, dirs, known, x, rest, e, run) && PhaseOk(t)
    ensures Ended(t, rest) ==> e in dirs
    ensures !Ended(t, rest) && t.ops != [] && t.phase == 0 && Needs(t.ops[0], e, run) ==> e in dirs
  {
    if Ended(t, rest) {
      assert |Ahead(t)| <= |rest| && |x| == 0;
    } else if t.ops != [] && t.phase == 0 && Needs(t.ops[0], e, run) {
      assert Ahead(t) == t.ops;
      assert [] + rest == rest;
      assert x != [] && x[0] == t.ops[0];
    }
  }

  // ----------------------------------------------------------------------- what scripts leave

  lemma {:induction false} NothingIsCleaned(known: set<Dir>, held: seq<Lock>, ops: seq<Op>)
    requires forall op | op in ops :: !op.Cleanup?
    ensures known <= Finally(known, held, ops)
    decreases |ops|
  {
    if ops != [] { NothingIsCleaned(Leaves(known, held, ops[0]), HeldNext(held, ops[0]), ops[1..]); }
  }

  lemma {:induction false} LocksCleanNothing(locks: seq<Lock>)
    ensures forall op | op in Acquires(locks) + Releases(locks) :: !op.Cleanup?
  {
    if locks != [] { LocksCleanNothing(locks[1..]); }
  }

  lemma {:induction false} WheelsCleanNothing(wheels: seq<Key>)
    ensures forall op | op in WheelOps(wheels) :: !op.Cleanup? && (op.Release? ==> op.lock.space == Wheels)
    ensures forall w | w in wheels :: MakeDir(Dir(Wheels, w)) in WheelOps(wheels)
  {
    if wheels != [] { WheelsCleanNothing(wheels[1..]); }
  }

  lemma {:induction false} PreparingCleansNothing(runtimes: seq<Runtime>, ready: set<Key>)
    ensures forall op | op in Preparing(runtimes, ready) :: !op.Cleanup? && (op.Release? ==> op.lock.space == Wheels)
    decreases |runtimes|
  {
    if runtimes != [] {
      WheelsCleanNothing(runtimes[0].wheels);
      PreparingCleansNothing(runtimes[1..], ready);
      PreparingCleansNothing(runtimes[1..], ready + {runtimes[0].digest});
    }
  }

  /** The first runtime with its digest: its wheels are the ones that are fetched. */
  predicate IsFirstRuntime(runtimes: seq<Runtime>, i: nat) {
    i < |runtimes| && forall j | 0 <= j < i :: runtimes[j].digest != runtimes[i].digest
  }

  /** Each environment is ensured among the preparations, and the wheels of its first runtime are made. */
  lemma {:induction false} PreparingMakes(runtimes: seq<Runtime>, ready: set<Key>, i: nat)
    requires i < |runtimes| && runtimes[i].digest !in ready
    ensures Ensure(runtimes[i].digest) in Preparing(runtimes, ready)
    ensures IsFirstRuntime(runtimes, i) ==>
      forall w | w in runtimes[i].wheels :: MakeDir(Dir(Wheels, w)) in Preparing(runtimes, ready)
    decreases |runtimes|
  {
    var d, rest := runtimes[0].digest, runtimes[1..];
    if d in ready {
      PreparingMakes(rest, ready, i - 1);
    } else {
      WheelsCleanNothing(runtimes[0].wheels);
      assert Ensure(d) in [Ensure(d)];
      if runtimes[i].digest != d { PreparingMakes(rest, ready + {d}, i - 1); }
    }
    if i > 0 { assert IsFirstRuntime(runtimes, i) ==> IsFirstRuntime(rest, i - 1); }
  }

  /** Whatever is made among operations that clean nothing up is there after them. */
  lemma {:induction false} MadeIsLeft(known: set<Dir>, held: seq<Lock>, ops: seq<Op>, op: Op, e: Dir)
    requires op in ops && (op == MakeDir(e) || (e.space == Environments && op == Ensure(e.key)))
    requires forall o | o in ops :: Preserves(o, e)
    ensures e in Finally(known, held, ops)
    decreases |ops|
  {
    assert Preserves(ops[0], e);
    var next := Leaves(known, held, ops[0]);
    if ops[0] == op {
      PreservedIsSpared(HeldNext(held, op), ops[1..], e);
      SparedShows(next, HeldNext(held, op), ops[1..], e, 0);
    } else {
      MadeIsLeft(next, HeldNext(held, ops[0]), ops[1..], op, e);
    }
  }

  /** Made in `x`, where it is not needed yet, and not cleaned up in `y`. */
  lemma MadeThenSpared(held: seq<Lock>, x: seq<Op>, y: seq<Op>, op: Op, e: Dir, run: Key)
    requires op in x && (op == MakeDir(e) || (e.space == Environments && op == Ensure(e.key)))
    requires forall o | o in x :: Preserves(o, e) && !Needs(o, e, run)
    requires Spared(HeldLater(held, x), y, e)
    ensures Shows({}, held, x + y, e, run) && e in Finally({}, held, x + y)
  {
    hide Shows, Finally, Spared, HeldLater, Needs, Preserves;
    MadeIsLeft({}, held, x, op, e);
    QuietShows({}, held, x, e, run);
    SparedShows(Finally({}, held, x), HeldLater(held, x), y, e, run);
    ShowsAppend({}, held, x, y, e, run);
  }

  /** What an isolated call makes and uses. */
  predicate IsolatedLeaves(c: Call, e: Dir) {
    && c.Isolated?
    && match e.space
       case Bundles => c.fetch != Resolved && e.key == c.bundle
       case Environments => e.key in Digests(c.runtimes)
       case Wheels =>
         exists i :: 0 <= i < |c.runtimes| && IsFirstRuntime(c.runtimes, i) && e.key in c.runtimes[i].wheels
       case Artifacts => e.key == c.run
  }

  /** No cleanup of the call takes any of it away. */
  lemma IsolatedPreserves(c: Call, e: Dir)
    requires IsolatedLeaves(c, e)
    ensures forall op | op in Before(c) + ([Execute(c.run, Digests(c.runtimes))] + Afterwards(c)) :: Preserves(op, e)
    ensures e.space != Bundles ==> forall op | op in Before(c) :: !Needs(op, e, c.run)
  {
    LocksCleanNothing(Environs(c));
    PreparingCleansNothing(c.runtimes, {});
    BeforeExecutesNothing(c);
    hide Acquires, Releases, Preparing, Environs, Digests, IsFirstRuntime;
    FetchingPreserves(c.fetch, c.bundle, e);
  }

  lemma FetchingPreserves(fetch: Fetch, bundle: Key, e: Dir)
    requires e.space == Bundles ==> e.key == bundle
    ensures forall op | op in Fetching(fetch, bundle) :: Preserves(op, e)
  {
  }

  lemma IsolatedShows(held: seq<Lock>, c: Call, e: Dir)
    requires IsolatedLeaves(c, e)
    ensures Shows({}, held, Script(c), e, c.run) && e in Finally({}, held, Script(c))
  {
    hide Shows, Finally, Spared, HeldLater, Script, Fetching, Opening, Entering, Leaving, Closing;
    var after := [Execute(c.run, Digests(c.runtimes))] + Afterwards(c);
    IsolatedInParts(c);
    IsolatedPreserves(c, e);
    if e.space == Bundles {
      BundleIsFetched(c.fetch, c.bundle);
      var ops := Before(c) + after;
      assert ops[..2] == Fetching(c.fetch, c.bundle)[..2];
      assert forall op | op in ops[2..] :: op in ops;
      PreservedIsSpared(HeldLater(held, ops[..2]), ops[2..], e);
      MadeThenSpared(held, ops[..2], ops[2..], MakeDir(e), e, c.run);
      assert ops[..2] + ops[2..] == ops;
    } else {
      var op := MadeBefore(c, e);
      PreservedIsSpared(HeldLater(held, Before(c)), after, e);
      MadeThenSpared(held, Before(c), after, op, e, c.run);
    }
  }

  lemma BundleIsFetched(fetch: Fetch, bundle: Key)
    requires fetch != Resolved
    ensures |Fetching(fetch, bundle)| > 2
    ensures Fetching(fetch, bundle)[..2] == [Acquire(Lock(Bundles, bundle)), MakeDir(Dir(Bundles, bundle))]
  {
  }

  /** The operation before the execution that makes the directory. */
  lemma MadeBefore(c: Call, e: Dir) returns (op: Op)
    requires IsolatedLeaves(c, e) && e.space != Bundles
    ensures op in Before(c) && (op == MakeDir(e) || (e.space == Environments && op == Ensure(e.key)))
  {
    hide Preparing, Fetching, Environs;
    match e.space {
      case Artifacts =>
        op := MakeDir(e);
        assert op in Entering(c.run);
      case Environments =>
        var i :| 0 <= i < |c.runtimes| && c.runtimes[i].digest == e.key;
        PreparingMakes(c.runtimes, {}, i);
        op := Ensure(e.key);
        assert op in Opening(c);
      case Wheels =>
        var i :| 0 <= i < |c.runtimes| && IsFirstRuntime(c.runtimes, i) && e.key in c.runtimes[i].wheels;
        PreparingMakes(c.runtimes, {}, i);
        op := MakeDir(e);
        assert op in Opening(c);
    }
  }

  // ------------------------------------------------------------- calls in the caller's process

  lemma {:induction false} RunsIsHeldLater(held: seq<Lock>, ops: seq<Op>)
    requires Runs(held, ops).Some?
    ensures HeldLater(held, ops) == Runs(held, ops).value
    decreases |ops|
  {
    if ops != [] { RunsIsHeldLater(HeldNext(held, ops[0]), ops[1..]); }
  }

  /** No call among these installs another bundle. */
  predicate NoneInstallsOther(calls: seq<Call>, bundle: Key) {
    forall c | c in Inside(calls) && c.fetch == Installed :: c.bundle == bundle
  }

  lemma {:induction false} UsersPreserve(calls: seq<Call>, bundle: Key)
    requires NoneInstallsOther(calls, bundle)
    ensures forall op | op in Scripts(calls) :: Preserves(op, Dir(Bundles, bundle))
    decreases calls, 0
  {
    hide Script, Inside, Preserves;
    if calls != [] {
      InsideSplit(calls);
      UsersPreserve(calls[1..], bundle);
      CallPreserves(calls[0], bundle);
      ResumePreserves(Dir(Bundles, bundle));
    }
  }

  lemma ResumePreserves(e: Dir)
    ensures Preserves(Resume, e)
  {
  }

  lemma CallPreserves(c: Call, bundle: Key)
    requires c.fetch == Installed ==> c.bundle == bundle
    requires c.InProcess? ==> NoneInstallsOther(c.user, bundle)
    ensures forall op | op in Script(c) :: Preserves(op, Dir(Bundles, bundle))
    decreases c, 1
  {
    hide Script, Scripts, Inside;
    if c.Isolated? { IsolatedPreservesBundle(c, bundle); }
    else {
      InProcessInParts(c);
      UsersPreserve(c.user, bundle);
      EntryPreserves(c, Dir(Bundles, bundle));
    }
  }

  lemma IsolatedPreservesBundle(c: Call, bundle: Key)
    requires c.Isolated? && (c.fetch == Installed ==> c.bundle == bundle)
    ensures forall op | op in Script(c) :: Preserves(op, Dir(Bundles, bundle))
  {
    hide Script, Acquires, Releases, Preparing, Environs, Digests;
    IsolatedInParts(c);
    LocksCleanNothing(Environs(c));
    PreparingCleansNothing(c.runtimes, {});
  }

  lemma EntryPreserves(c: Call, e: Dir)
    requires c.InProcess? && (e.space == Bundles ==> c.fetch != Installed || c.bundle == e.key)
    requires e.space == Artifacts ==> e.key == c.run
    ensures forall op | op in Entry(c) + Leaving(c.run) :: Preserves(op, e) || e.space == Environments
    ensures e.space == Artifacts ==> forall op | op in Entry(c) :: !Needs(op, e, c.run)
  {
  }

  lemma RunIsShown(held: seq<Lock>, c: Call)
    requires c.InProcess? && OnlyRuns(held) && NoRepeats(RunIds([c])) && Unheld(held, RunIds([c]))
    ensures var e := Dir(Artifacts, c.run);
      Shows({}, held, Script(c), e, c.run) && e in Finally({}, held, Script(c))
  {
    hide Shows, Finally, Spared, HeldLater, Script, Scripts, Entry, Leaving, Runs, RunIds, NoRepeats, Unheld;
    var e, n := Dir(Artifacts, c.run), Lock(Artifacts, c.run);
    OneRunFirst(held, c);
    InProcessInParts(c);
    EntryPreserves(c, e);
    EntryRuns(held, c);
    RunsIsHeldLater(held, Entry(c));
    MoreRuns(held, c.run);
    ScriptsRun(c.user, held + [n]);
    NotTakenAgain(c);
    HeldIsSpared(held + [n], Scripts(c.user), e);
    PreservedIsSpared(held + [n], Leaving(c.run), e);
    SparedAppend(held + [n], Scripts(c.user), Leaving(c.run), e);
    EntryMakesRun(c);
    MadeThenSpared(held, Entry(c), Scripts(c.user) + Leaving(c.run), MakeDir(e), e, c.run);
  }

  lemma EntryMakesRun(c: Call)
    requires c.InProcess?
    ensures MakeDir(Dir(Artifacts, c.run)) in Entry(c)
  {
    assert MakeDir(Dir(Artifacts, c.run)) in Entering(c.run);
  }

  lemma OneRunFirst(held: seq<Lock>, c: Call)
    requires c.InProcess? && NoRepeats(RunIds([c])) && Unheld(held, RunIds([c]))
    ensures Lock(Artifacts, c.run) !in held && NoRepeats(RunIds(c.user)) && c.run !in RunIds(c.user)
    ensures Unheld(held + [Lock(Artifacts, c.run)], RunIds(c.user))
  {
    assert [c][1..] == [] && RunIds([c]) == [c.run] + RunIds(c.user);
    hide RunIds;
    FirstOfIds(held, c.run, RunIds(c.user));
  }

  lemma FirstOfIds(held: seq<Lock>, first: Key, rest: seq<Key>)
    requires NoRepeats([first] + rest) && Unheld(held, [first] + rest)
    ensures Lock(Artifacts, first) !in held && NoRepeats(rest) && first !in rest
    ensures Unheld(held + [Lock(Artifacts, first)], rest)
  {
    var ids := [first] + rest;
    assert ids[0] == first;
    forall i, j | 0 <= i < j < |rest| ensures rest[i] != rest[j] { assert ids[i + 1] != ids[j + 1]; }
    forall i | 0 <= i < |rest| ensures rest[i] != first { assert ids[0] != ids[i + 1]; }
    forall i | 0 <= i < |rest| ensures Lock(Artifacts, rest[i]) !in held { assert ids[i + 1] == rest[i]; }
  }

  lemma NotTakenAgain(c: Call)
    requires c.InProcess? && c.run !in RunIds(c.user)
    ensures Acquire(Lock(Artifacts, c.run)) !in Scripts(c.user)
  {
    hide Scripts, RunIds;
    ScriptsTake(c.user);
    TakenMeansPending(Scripts(c.user));
    if Acquire(Lock(Artifacts, c.run)) in Scripts(c.user) { PendingIn(Scripts(c.user), Lock(Artifacts, c.run)); }
  }

  lemma BundleIsShown(held: seq<Lock>, c: Call)
    requires c.InProcess? && c.fetch != Resolved && NoneInstallsOther(c.user, c.bundle)
    ensures var e := Dir(Bundles, c.bundle);
      Shows({}, held, Script(c), e, c.run) && e in Finally({}, held, Script(c))
  {
    hide Shows, Finally, Spared, HeldLater, Script, Scripts, NoneInstallsOther, Fetching, Entering, Leaving;
    var e := Dir(Bundles, c.bundle);
    CallPreserves(c, c.bundle);
    InProcessInParts(c);
    BundleIsFetched(c.fetch, c.bundle);
    var ops := Script(c);
    assert ops[..2] == Fetching(c.fetch, c.bundle)[..2];
    assert forall op | op in ops[2..] :: op in ops;
    PreservedIsSpared(HeldLater(held, ops[..2]), ops[2..], e);
    MadeThenSpared(held, ops[..2], ops[2..], MakeDir(e), e, c.run);
    assert ops[..2] + ops[2..] == ops;
  }

  /** What a call has made or used when it ends. */
  predicate CallLeaves(c: Call, e: Dir) {
    if c.Isolated? then IsolatedLeaves(c, e)
    else
      || e == Dir(Artifacts, c.run)
      || (e == Dir(Bundles, c.bundle) && c.fetch != Resolved && NoneInstallsOther(c.user, c.bundle))
  }

  /** A call is about to begin; only locks of runs around it are held, and its run ids are new. */
  ghost predicate Begins(t: Thread, c: Call, rest: seq<Op>) {
    && t.ops == Script(c) + rest && t.phase == 0
    && OnlyRuns(t.held) && NoRepeats(RunIds([c])) && Unheld(t.held, RunIds([c]))
  }

  lemma BeginsCertain(t: Thread, dirs: map<Dir, nat>, c: Call, rest: seq<Op>, e: Dir)
    requires Begins(t, c, rest) && CallLeaves(c, e)
    ensures Certain(t, dirs, {}, Script(c), rest, e, c.run)
  {
    hide Shows, Finally, IsolatedLeaves, NoneInstallsOther, RunIds, NoRepeats, Unheld, OnlyRuns;
    if c.Isolated? { IsolatedShows(t.held, c, e); }
    else if e == Dir(Artifacts, c.run) { RunIsShown(t.held, c); }
    else { BundleIsShown(t.held, c); }
    ScriptBegins(c);
    hide Script;
  }

  lemma ScriptBegins(c: Call)
    ensures Script(c) != [] && Script(c)[0].Acquire?
  {
    FirstOp(c, []);
    assert Script(c) + [] == Script(c);
  }

  /**
   A call that runs alone and without exceptions, in whatever cache and with whatever locks of others: what it makes
   and uses is there when its code is executed, and is still there when the call ends, after its own cleanups.
   */
  lemma AloneCallLeaves(run: seq<State>, a: Actor, c: Call, rest: seq<Op>, e: Dir, k: nat)
    requires IsAlone(run, a) && Inv(run[0]) && a < |run[0].threads| && k < |run|
    requires Begins(run[0].threads[a], c, rest) && CallLeaves(c, e)
    requires forall j | 0 <= j < k && a < |run[j].threads| :: !Ended(run[j].threads[a], rest)
    ensures a < |run[k].threads|
    ensures var t := run[k].threads[a];
      || Ended(t, rest)
      || (t.ops != [] && ((t.ops[0].Execute? && t.ops[0].run == c.run)
                          || (t.phase == 0 && t.ops[0] == Release(Lock(Bundles, e.key)) && e.space == Bundles)))
      ==> e in run[k].dirs
  {
    hide Inv, Progress, Begins, CallLeaves, Certain, Runs;
    BeginsCertain(run[0].threads[a], run[0].dirs, c, rest, e);
    AloneKeepsInv(run, a, k);
    var known, x := AloneStaysCertain(run, a, Script(c), rest, e, c.run, {}, k);
    IsOrderly(run[k], a);
    CertainIsThere(run[k].threads[a], run[k].dirs, known, x, rest, e, c.run);
  }

  /** What a call in the caller's process does until it has read its bundle, and what it does then. */
  function Reading(c: Call): seq<Op>
    requires c.InProcess?
  {
    Fetching(c.fetch, c.bundle) + [Acquire(Lock(Bundles, c.bundle)), Release(Lock(Bundles, c.bundle))]
  }

  function Rest(c: Call): seq<Op>
    requires c.InProcess?
  {
    Running(c.run, Scripts(c.user))
  }

  /** Alone, a call in the caller's process finds the bundle when it reads it, whatever its code will call. */
  lemma AloneCallReads(run: seq<State>, a: Actor, c: Call, rest: seq<Op>, k: nat)
    requires IsAlone(run, a) && Inv(run[0]) && a < |run[0].threads| && k < |run|
    requires c.InProcess? && c.fetch != Resolved && Begins(run[0].threads[a], c, rest)
    requires forall j | 0 <= j < k && a < |run[j].threads| :: !Ended(run[j].threads[a], Rest(c) + rest)
    ensures a < |run[k].threads|
    ensures var t := run[k].threads[a];
      || Ended(t, Rest(c) + rest)
      || (t.ops != [] && t.phase == 0 && t.ops[0] == Release(Lock(Bundles, c.bundle)))
      ==> Dir(Bundles, c.bundle) in run[k].dirs
  {
    hide Inv, Progress, Certain, Runs, Rest, Scripts;
    var e := Dir(Bundles, c.bundle);
    ReadingIsCertain(run[0].threads[a], run[0].dirs, c, rest);
    AloneKeepsInv(run, a, k);
    var known, x := AloneStaysCertain(run, a, Reading(c), Rest(c) + rest, e, c.run, {}, k);
    IsOrderly(run[k], a);
    CertainIsThere(run[k].threads[a], run[k].dirs, known, x, Rest(c) + rest, e, c.run);
  }

  lemma ReadingIsCertain(t: Thread, dirs: map<Dir, nat>, c: Call, rest: seq<Op>)
    requires c.InProcess? && c.fetch != Resolved && Begins(t, c, rest)
    ensures Certain(t, dirs, {}, Reading(c), Rest(c) + rest, Dir(Bundles, c.bundle), c.run)
  {
    hide Shows, Finally, Spared, HeldLater, Fetching, Running, Scripts, RunIds, NoRepeats, Unheld, OnlyRuns;
    var e, ops := Dir(Bundles, c.bundle), Reading(c);
    BundleIsFetched(c.fetch, c.bundle);
    FetchingPreserves(c.fetch, c.bundle, e);
    assert ops[..2] == Fetching(c.fetch, c.bundle)[..2];
    assert forall op | op in ops[2..] :: op in ops;
    PreservedIsSpared(HeldLater(t.held, ops[..2]), ops[2..], e);
    MadeThenSpared(t.held, ops[..2], ops[2..], MakeDir(e), e, c.run);
    assert ops[..2] + ops[2..] == ops;
    assert t.ops == ops + (Rest(c) + rest);
    assert ops[0] == ops[..2][0];
  }
}
