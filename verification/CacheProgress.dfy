/**
 The cache lock protocol never deadlocks, and the calls of the embedded backend
 keep to the discipline that this rests on (src/spl/embedded.py).
 */
module CacheProgress {
  import opened Common
  import opened CacheLocks
  import opened CacheSafety

  ghost predicate Unfinished(s: State, a: Actor) { a < |s.threads| && s.threads[a].ops != [] }

  /** Waiting for a thread lock or a file lock that is taken. */
  ghost predicate Blocked(s: State, a: Actor) {
    Unfinished(s, a) && s.threads[a].ops[0].Acquire?
    && var t, n := s.threads[a], s.threads[a].ops[0].lock;
       (t.phase == 0 && (t.pid, n) in s.threadLocks) || (t.phase == 1 && n in s.fileLocks)
  }

  // ----------------------------------------------------- who is not blocked can move

  lemma {:induction false} Enumerate(keys: set<Key>) returns (entries: seq<Key>)
    ensures forall i, j | 0 <= i < j < |entries| :: entries[i] != entries[j]
    ensures forall k: Key :: k in entries <==> k in keys
  {
    if keys == {} { return []; }
    var k :| k in keys;
    var rest := Enumerate(keys - {k});
    entries := [k] + rest;
  }

  lemma UnblockedMoves(s: State, a: Actor) returns (s': State)
    requires Inv(s) && Unfinished(s, a) && !Blocked(s, a)
    ensures Progress(s, s', a)
  {
    hide AcquireStep, ReleaseStep, EnsureStep, CleanupStep, SweepStep;
    var t := s.threads[a];
    assert Orderly(t);
    s' := OrderlyMoves(s, a);
  }

  lemma OrderlyMoves(s: State, a: Actor) returns (s': State)
    requires Unfinished(s, a) && !Blocked(s, a) && Orderly(s.threads[a])
    ensures Progress(s, s', a)
  {
    hide AcquireStep, ReleaseStep, EnsureStep, CleanupStep, SweepStep, Blocked;
    var t := s.threads[a];
    PhaseBound(t);
    hide Orderly;
    match t.ops[0]
    case Acquire(n) => s' := AcquireMoves(s, a, n);
    case Release(n) => s' := ReleaseMoves(s, a, n);
    case Ensure(d) => s' := EnsureMoves(s, a, d);
    case MakeDir(e) => s' := With(s, a, Popped(t)).(dirs := s.dirs[e := s.clock], clock := s.clock + 1);
    case Execute(_, _) => s' := With(s, a, Popped(t));
    case Resume => s' := With(s, a, Popped(t));
    case Cleanup(_, _, _, _) => s' := CleanupMoves(s, a, t.ops[0]);
    case Sweep(_, _, _, _, _) => s' := SweepMoves(s, a, t.ops[0]);
  }

  lemma PhaseBound(t: Thread)
    requires Orderly(t) && t.ops != []
    ensures t.ops[0].Acquire? || t.ops[0].Ensure? ==> t.phase <= 1
  {
  }

  lemma CleanupMoves(s: State, a: Actor, op: Op) returns (s': State)
    requires Unfinished(s, a) && s.threads[a].ops[0] == op && op.Cleanup?
    ensures CleanupStep(s, s', a, op)
  {
    hide Lists;
    var entries := EntriesOf(s, op.space);
    s' := With(s, a, CleanedUp(s.threads[a], op, entries));
  }

  lemma EntriesOf(s: State, space: Space) returns (entries: seq<Key>)
    ensures Lists(s, space, entries)
  {
    var keys := set e | e in s.dirs && e.space == space :: e.key;
    entries := Enumerate(keys);
    forall k: Key ensures k in keys <==> Dir(space, k) in s.dirs {
      assert Dir(space, k) in s.dirs ==> Dir(space, k).space == space;
    }
  }

  lemma AcquireMoves(s: State, a: Actor, n: Lock) returns (s': State)
    requires Unfinished(s, a) && !Blocked(s, a) && s.threads[a].ops[0] == Acquire(n) && s.threads[a].phase <= 1
    ensures AcquireStep(s, s', a, n)
  {
    var t := s.threads[a];
    s' := if t.phase == 0 then With(s, a, t.(phase := 1)).(threadLocks := s.threadLocks[(t.pid, n) := a])
          else With(s, a, Popped(t).(held := t.held + [n])).(fileLocks := s.fileLocks[n := a]);
  }

  lemma ReleaseMoves(s: State, a: Actor, n: Lock) returns (s': State)
    requires Unfinished(s, a) && s.threads[a].ops[0] == Release(n) && Orderly(s.threads[a])
    ensures ReleaseStep(s, s', a, n)
  {
    var t := s.threads[a];
    if t.phase == 0 {
      assert Runs(t.held, t.ops).Some?;
      s' := With(s, a, t.(phase := 1, held := t.held[..|t.held| - 1],
                          verified := if n.space == Environments then t.verified - {n.key} else t.verified))
            .(fileLocks := s.fileLocks - {n});
    } else {
      s' := With(s, a, Popped(t)).(threadLocks := s.threadLocks - {(t.pid, n)});
    }
  }

  lemma EnsureMoves(s: State, a: Actor, d: Key) returns (s': State)
    requires Unfinished(s, a) && s.threads[a].ops[0] == Ensure(d) && s.threads[a].phase <= 1
    ensures EnsureStep(s, s', a, d)
  {
    var t, e := s.threads[a], Dir(Environments, d);
    s' := if t.phase == 0 then With(s, a, t.(phase := 1, verified := t.verified - {d})).(dirs := s.dirs - {e})
          else With(s, a, Popped(t).(verified := t.verified[d := s.clock])).(dirs := s.dirs[e := s.clock],
                                                                             clock := s.clock + 1);
  }

  lemma SweepMoves(s: State, a: Actor, op: Op) returns (s': State)
    requires Unfinished(s, a) && s.threads[a].ops[0] == op && op.Sweep?
    ensures SweepStep(s, s', a, op)
  {
    var t := s.threads[a];
    if op.excess <= 0 || op.entries == [] { return With(s, a, Popped(t)); }
    var n, fate := Lock(op.prefix, op.entries[0]), NextFate(s, t, op);
    s' := State(s.threads[a := SweptThread(s, t, op)],
                if fate == TakeThreadLock then s.threadLocks[(t.pid, n) := a]
                else if fate == GiveUp || fate == Remove then s.threadLocks - {(t.pid, n)} else s.threadLocks,
                if fate == TakeFileLock then s.fileLocks[n := a] else if fate == Remove then s.fileLocks - {n}
                else s.fileLocks,
                if fate == Remove then s.dirs - {Dir(op.space, op.entries[0])} else s.dirs, s.clock);
  }

  // ------------------------------------------------------------- no circular waiting

  /** How far up the lock order a blocked thread waits. */
  ghost function Weight(s: State, a: Actor): nat
    requires Blocked(s, a)
  {
    2 * Rank(s.threads[a].ops[0].lock) + s.threads[a].phase
  }

  lemma WeightBound(s: State, a: Actor)
    requires Blocked(s, a)
    ensures Weight(s, a) < 8 * KEYS + 2
  {
  }

  /** The owner of the lock that `a` waits for. */
  ghost function Owner(s: State, a: Actor): Actor
    requires Blocked(s, a)
  {
    var t, n := s.threads[a], s.threads[a].ops[0].lock;
    if t.phase == 0 then s.threadLocks[(t.pid, n)] else s.fileLocks[n]
  }

  /** Nobody waits for the lock of a run: no other thread knows its name. */
  lemma RunLocksAreFree(s: State, a: Actor)
    requires Inv(s) && Blocked(s, a)
    ensures s.threads[a].ops[0].lock.space != Artifacts
  {
    var t, n := s.threads[a], s.threads[a].ops[0].lock;
    OwnerOwns(s, a);
    if n.space == Artifacts {
      PendingFirst(t.ops);
      NobodyElseOwns(s, a, Owner(s, a), n.key);
    }
  }

  lemma PendingFirst(ops: seq<Op>)
    requires ops != [] && ops[0].Acquire? && ops[0].lock.space == Artifacts
    ensures ops[0].lock.key in Pending(ops)
  {
  }

  lemma NobodyElseOwns(s: State, a: Actor, b: Actor, r: Key)
    requires FreshRuns(s) && a < |s.threads| && b < |s.threads| && a != b && r in Pending(s.threads[a].ops)
    ensures Lock(Artifacts, r) !in OwnsThread(s.threads[b])
  {
    hide OwnsThread, TakenOnce;
    var t := s.threads[b];
    assert Unaware(t, r);
    if Lock(Artifacts, r) in OwnsThread(t) { PendingFirst(t.ops); }
  }

  lemma OwnerOwns(s: State, a: Actor)
    requires Inv(s) && Blocked(s, a)
    ensures var b, n := Owner(s, a), s.threads[a].ops[0].lock;
      b < |s.threads| && b != a && Orderly(s.threads[b])
      && n in (if s.threads[a].phase == 0 then OwnsThread(s.threads[b]) else OwnsFile(s.threads[b]))
  {
    var t, b, n := s.threads[a], Owner(s, a), s.threads[a].ops[0].lock;
    assert Orderly(t) && Orderly(s.threads[b]);
    assert Runs(t.held, t.ops).Some? && n !in HeldSet(t);
  }

  /** The owner of an awaited lock is unfinished, and if it waits too, then further up. */
  lemma OwnerIsFurther(s: State, a: Actor)
    requires Inv(s) && Blocked(s, a)
    ensures Unfinished(s, Owner(s, a))
    ensures Blocked(s, Owner(s, a)) ==> Weight(s, a) < Weight(s, Owner(s, a))
  {
    var b, n := Owner(s, a), s.threads[a].ops[0].lock;
    OwnerOwns(s, a);
    RunLocksAreFree(s, a);
    if Blocked(s, b) {
      RunLocksAreFree(s, b);
      WaitsAbove(s.threads[b], n, s.threads[a].phase);
    }
  }

  /** An orderly thread waits only above what it owns. */
  lemma WaitsAbove(t: Thread, n: Lock, phase: nat)
    requires Orderly(t) && t.ops != [] && t.ops[0].Acquire? && phase <= 1
    requires n.space != Artifacts && t.ops[0].lock.space != Artifacts
    requires n in (if phase == 0 then OwnsThread(t) else OwnsFile(t))
    ensures 2 * Rank(n) + phase < 2 * Rank(t.ops[0].lock) + t.phase
  {
    assert InOrder(t.held, t.ops[0].lock);
    if n in HeldSet(t) { assert Rank(n) < Rank(t.ops[0].lock); }
  }

  /** From any blocked thread, the chain of owners ends in one that can move. */
  lemma {:induction false} FindRunner(s: State, a: Actor) returns (b: Actor)
    requires Inv(s) && Blocked(s, a)
    ensures Unfinished(s, b) && !Blocked(s, b) && OwnsThread(s.threads[b]) != {}
    decreases 8 * KEYS + 2 - Weight(s, a)
  {
    OwnerIsFurther(s, a);
    OwnerOwns(s, a);
    b := Owner(s, a);
    if Blocked(s, b) {
      WeightBound(s, a);
      WeightBound(s, b);
      b := FindRunner(s, b);
    }
  }

  /** As long as some thread has work left, some thread can do its next step; no timeout is needed. */
  lemma NoDeadlock(s: State, a: Actor) returns (b: Actor, s': State)
    requires Inv(s) && Unfinished(s, a)
    ensures Progress(s, s', b) && Inv(s')
  {
    b := a;
    if Blocked(s, a) { b := FindRunner(s, a); }
    s' := UnblockedMoves(s, b);
    StepKeepsInv(s, s', b);
  }

  /** When all work is done, every lock is free. */
  lemma FinishedFreesAll(s: State)
    requires Inv(s) && forall a | 0 <= a < |s.threads| :: s.threads[a].ops == []
    ensures s.threadLocks == map[] && s.fileLocks == map[]
  {
    forall a | 0 <= a < |s.threads| ensures OwnsThread(s.threads[a]) == {} && OwnsFile(s.threads[a]) == {} {
      assert Orderly(s.threads[a]);
    }
  }
}
