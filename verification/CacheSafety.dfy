/**
 What every step of the cache lock protocol keeps: each lock has one owner, a
 verified environment is untouched until its lock is given back, and no run id
 is known before its artifact lock is taken.
 */
module CacheSafety {
  import opened Common
  import opened CacheLocks

  ghost predicate ThreadOwned(threads: seq<Thread>, locks: map<(Pid, Lock), Actor>) {
    && (forall p | p in locks ::
          locks[p] < |threads| && threads[locks[p]].pid == p.0 && p.1 in OwnsThread(threads[locks[p]]))
    && (forall b, n | 0 <= b < |threads| && n in OwnsThread(threads[b]) ::
          (threads[b].pid, n) in locks && locks[(threads[b].pid, n)] == b)
  }

  ghost predicate FileOwned(threads: seq<Thread>, locks: map<Lock, Actor>) {
    && (forall n | n in locks :: locks[n] < |threads| && n in OwnsFile(threads[locks[n]]))
    && (forall b, n | 0 <= b < |threads| && n in OwnsFile(threads[b]) :: n in locks && locks[n] == b)
  }

  ghost predicate AllOrderly(threads: seq<Thread>) { forall a | 0 <= a < |threads| :: Orderly(threads[a]) }

  /** Whatever a thread has verified is there, unchanged, under a lock it holds. */
  ghost predicate Protected(t: Thread, dirs: map<Dir, nat>) {
    forall d | d in t.verified ::
      Lock(Environments, d) in t.held && Dir(Environments, d) in dirs && dirs[Dir(Environments, d)] == t.verified[d]
  }

  ghost predicate AllProtected(s: State) { forall a | 0 <= a < |s.threads| :: Protected(s.threads[a], s.dirs) }

  ghost predicate FreshRuns(s: State) {
    && (forall a | 0 <= a < |s.threads| :: TakenOnce(s.threads[a].ops))
    && (forall a, b, r | 0 <= a < |s.threads| && 0 <= b < |s.threads| && r in Pending(s.threads[a].ops) ::
          Unaware(s.threads[b], r) && (a != b ==> r !in Pending(s.threads[b].ops)))
    && (forall a, r | 0 <= a < |s.threads| && r in Pending(s.threads[a].ops) :: Dir(Artifacts, r) !in s.dirs)
  }

  ghost predicate Inv(s: State) {
    && AllOrderly(s.threads)
    && ThreadOwned(s.threads, s.threadLocks)
    && FileOwned(s.threads, s.fileLocks)
    && AllProtected(s)
    && FreshRuns(s)
  }

  // ------------------------------------------------------------------- held locks

  lemma HeldGrows(held: seq<Lock>, n: Lock)
    ensures Elements(held + [n]) == Elements(held) + {n}
    ensures Distinct(held) && n !in held ==> Distinct(held + [n])
  {
  }

  lemma HeldShrinks(held: seq<Lock>)
    requires held != [] && Distinct(held)
    ensures Elements(held[..|held| - 1]) == Elements(held) - {held[|held| - 1]}
    ensures Distinct(held[..|held| - 1])
  {
    var n := held[|held| - 1];
    forall h | h in held && h != n ensures h in held[..|held| - 1] {
      var i :| 0 <= i < |held| && held[i] == h;
      assert held[..|held| - 1][i] == h;
    }
  }

  /** Unwinding gives back the locks above `left`, and takes none. */
  lemma {:induction false} UnwindsOrderly(held: seq<Lock>, left: seq<Lock>, unwinding: seq<Op>, later: seq<Op>)
    requires Unwinds(held, left, unwinding) && Runs(left, later) == Some([])
    ensures Runs(held, unwinding + later) == Some([]) && Pending(unwinding + later) == Pending(later)
    ensures TakenOnce(later) ==> TakenOnce(unwinding + later)
    decreases |unwinding|
  {
    var all := unwinding + later;
    if unwinding == [] {
      assert all == later;
    } else {
      assert all[0] == unwinding[0] && all[1..] == unwinding[1..] + later;
      UnwindsOrderly(if unwinding[0].Cleanup? then held else held[..|held| - 1], left, unwinding[1..], later);
    }
  }

  lemma {:induction false} SuffixTakes(ops: seq<Op>, j: nat)
    requires j <= |ops|
    ensures Pending(ops[j..]) <= Pending(ops) && (TakenOnce(ops) ==> TakenOnce(ops[j..]))
  {
    if j > 0 {
      SuffixTakes(ops[1..], j - 1);
      assert ops[1..][j - 1..] == ops[j..];
    } else {
      assert ops[0..] == ops;
    }
  }

  /** Whoever catches an exception, the thread goes on orderly, and takes no lock that it would not have taken. */
  lemma RecoversOrderly(t: Thread, rest: seq<Op>)
    requires Recovers(t, rest)
    ensures Runs(t.held, rest) == Some([]) && Pending(rest) <= Pending(t.ops) && (TakenOnce(t.ops) ==> TakenOnce(rest))
  {
    hide Unwinds, Runs, TakenOnce, Pending;
    var left, unwinding, later :|
      Unwinds(t.held, left, unwinding) && Catches(t.ops, left, later) && rest == unwinding + later;
    if left == [] && later == [] {
      SuffixTakes(t.ops, |t.ops|);
      NothingRuns();
      assert t.ops[|t.ops|..] == [];
    } else {
      var j :| 0 <= j < |t.ops| && t.ops[j].Resume? && later == t.ops[j..] && Runs(left, later) == Some([]);
      SuffixTakes(t.ops, j);
    }
    UnwindsOrderly(t.held, left, unwinding, later);
  }

  lemma NothingRuns()
    ensures Runs([], []) == Some([])
  {
  }

  // -------------------------------------------------------------- lock ownership

  /** Thread `a` of process `pid` owned the locks `own` and now owns `now`; nobody else's ownership changed. */
  ghost predicate ThreadMoves(locks: map<(Pid, Lock), Actor>, after: map<(Pid, Lock), Actor>, pid: Pid, a: Actor,
                              own: set<Lock>, now: set<Lock>) {
    && (forall p | p in locks && (p.0 != pid || p.1 !in own) :: p in after && after[p] == locks[p])
    && (forall p | p in after && (p.0 != pid || p.1 !in now) :: p in locks && after[p] == locks[p])
    && (forall n | n in now :: (pid, n) in after && after[(pid, n)] == a)
    && (forall n | n in now && n !in own :: (pid, n) !in locks)
    && (forall n | n in own && n !in now :: (pid, n) !in after)
  }

  ghost predicate FileMoves(locks: map<Lock, Actor>, after: map<Lock, Actor>, a: Actor, own: set<Lock>,
                            now: set<Lock>) {
    && (forall n | n in locks && n !in own :: n in after && after[n] == locks[n])
    && (forall n | n in after && n !in now :: n in locks && after[n] == locks[n])
    && (forall n | n in now :: n in after && after[n] == a)
    && (forall n | n in now && n !in own :: n !in locks)
    && (forall n | n in own && n !in now :: n !in after)
  }

  lemma ThreadOwnedStep(threads: seq<Thread>, locks: map<(Pid, Lock), Actor>, a: Actor, t: Thread,
                        after: map<(Pid, Lock), Actor>)
    requires ThreadOwned(threads, locks) && a < |threads| && t.pid == threads[a].pid
    requires ThreadMoves(locks, after, t.pid, a, OwnsThread(threads[a]), OwnsThread(t))
    ensures ThreadOwned(threads[a := t], after)
  {
    hide OwnsThread;
    var ts := threads[a := t];
    forall p | p in after ensures after[p] < |ts| && ts[after[p]].pid == p.0 && p.1 in OwnsThread(ts[after[p]]) {
      if p.0 != t.pid || p.1 !in OwnsThread(t) { assert p in locks && locks[p] == after[p]; }
    }
    forall b, n | 0 <= b < |ts| && n in OwnsThread(ts[b])
      ensures (ts[b].pid, n) in after && after[(ts[b].pid, n)] == b
    {
      if b != a { assert locks[(ts[b].pid, n)] == b; }
    }
  }

  lemma FileOwnedStep(threads: seq<Thread>, locks: map<Lock, Actor>, a: Actor, t: Thread, after: map<Lock, Actor>)
    requires FileOwned(threads, locks) && a < |threads|
    requires FileMoves(locks, after, a, OwnsFile(threads[a]), OwnsFile(t))
    ensures FileOwned(threads[a := t], after)
  {
    hide OwnsFile;
    var ts := threads[a := t];
    forall b, n | 0 <= b < |ts| && n in OwnsFile(ts[b]) ensures n in after && after[n] == b {
      if b != a { assert locks[n] == b; }
    }
  }

  /** Taking free locks, giving back own locks, or neither. */
  lemma ThreadTakes(threads: seq<Thread>, locks: map<(Pid, Lock), Actor>, a: Actor, n: Lock)
    requires ThreadOwned(threads, locks) && a < |threads|
    ensures var pid, own := threads[a].pid, OwnsThread(threads[a]);
      && ThreadMoves(locks, locks, pid, a, own, own)
      && ((pid, n) !in locks ==> n !in own && ThreadMoves(locks, locks[(pid, n) := a], pid, a, own, own + {n}))
      && (n in own ==> ThreadMoves(locks, locks - {(pid, n)}, pid, a, own, own - {n}))
  {
    hide OwnsThread;
    if (threads[a].pid, n) !in locks && n in OwnsThread(threads[a]) { assert false; }
  }

  lemma FileTakes(threads: seq<Thread>, locks: map<Lock, Actor>, a: Actor, n: Lock)
    requires FileOwned(threads, locks) && a < |threads|
    ensures var own := OwnsFile(threads[a]);
      && FileMoves(locks, locks, a, own, own)
      && (n !in locks ==> n !in own && FileMoves(locks, locks[n := a], a, own, own + {n}))
      && (n in own ==> FileMoves(locks, locks - {n}, a, own, own - {n}))
  {
    hide OwnsFile;
    if n !in locks && n in OwnsFile(threads[a]) { assert false; }
  }

  // ------------------------------------------- every step keeps order and ownership

  /** One thread changed; order and ownership still hold. */
  ghost predicate Settled(s: State) {
    AllOrderly(s.threads) && ThreadOwned(s.threads, s.threadLocks) && FileOwned(s.threads, s.fileLocks)
  }

  lemma Settle(s: State, s': State, a: Actor, t: Thread)
    requires Settled(s) && a < |s.threads| && s'.threads == s.threads[a := t] && t.pid == s.threads[a].pid && Orderly(t)
    requires ThreadMoves(s.threadLocks, s'.threadLocks, t.pid, a, OwnsThread(s.threads[a]), OwnsThread(t))
    requires FileMoves(s.fileLocks, s'.fileLocks, a, OwnsFile(s.threads[a]), OwnsFile(t))
    ensures Settled(s')
  {
    hide Orderly, ThreadMoves, FileMoves;
    ThreadOwnedStep(s.threads, s.threadLocks, a, t, s'.threadLocks);
    FileOwnedStep(s.threads, s.fileLocks, a, t, s'.fileLocks);
  }

  lemma SameLocks(s: State, s': State, a: Actor, t: Thread)
    requires Settled(s) && a < |s.threads| && s'.threads == s.threads[a := t] && t.pid == s.threads[a].pid
    requires s'.threadLocks == s.threadLocks && s'.fileLocks == s.fileLocks
    requires OwnsThread(t) == OwnsThread(s.threads[a]) && OwnsFile(t) == OwnsFile(s.threads[a]) && Orderly(t)
    ensures Settled(s')
  {
    hide Orderly, ThreadMoves, FileMoves, OwnsThread, OwnsFile;
    var n := Lock(Bundles, 0);
    ThreadTakes(s.threads, s.threadLocks, a, n);
    FileTakes(s.threads, s.fileLocks, a, n);
    Settle(s, s', a, t);
  }

  /** How taking or giving back lock `n` changes what a thread owns, at either level. */
  lemma OwnershipMoves(s: State, a: Actor, n: Lock)
    requires Settled(s) && a < |s.threads|
    ensures Orderly(s.threads[a])
    ensures var pid, own := s.threads[a].pid, OwnsThread(s.threads[a]);
      && ThreadMoves(s.threadLocks, s.threadLocks, pid, a, own, own)
      && ((pid, n) !in s.threadLocks ==>
           n !in own && ThreadMoves(s.threadLocks, s.threadLocks[(pid, n) := a], pid, a, own, own + {n}))
      && (n in own ==> ThreadMoves(s.threadLocks, s.threadLocks - {(pid, n)}, pid, a, own, own - {n}))
    ensures var own := OwnsFile(s.threads[a]);
      && FileMoves(s.fileLocks, s.fileLocks, a, own, own)
      && (n !in s.fileLocks ==> n !in own && FileMoves(s.fileLocks, s.fileLocks[n := a], a, own, own + {n}))
      && (n in own ==> FileMoves(s.fileLocks, s.fileLocks - {n}, a, own, own - {n}))
  {
    hide Orderly, ThreadMoves, FileMoves, OwnsThread, OwnsFile;
    ThreadTakes(s.threads, s.threadLocks, a, n);
    FileTakes(s.threads, s.fileLocks, a, n);
  }

  lemma AcquireSettles(s: State, s': State, a: Actor, n: Lock)
    requires Settled(s) && a < |s.threads| && s.threads[a].ops != [] && s.threads[a].ops[0] == Acquire(n)
    requires AcquireStep(s, s', a, n)
    ensures Settled(s')
  {
    OwnershipMoves(s, a, n);
    var t, t' := s.threads[a], s'.threads[a];
    hide Settled, ThreadMoves, FileMoves;
    AcquireOwns(t, n);
    Settle(s, s', a, t');
  }

  lemma AcquireOwns(t: Thread, n: Lock)
    requires Orderly(t) && t.ops != [] && t.ops[0] == Acquire(n)
    ensures t.phase == 0 && n !in OwnsThread(t) ==>
      var u := t.(phase := 1); Orderly(u) && OwnsThread(u) == OwnsThread(t) + {n} && OwnsFile(u) == OwnsFile(t)
    ensures t.phase == 1 ==>
      var u := Popped(t).(held := t.held + [n]);
        Orderly(u) && OwnsThread(u) == OwnsThread(t) && OwnsFile(u) == OwnsFile(t) + {n}
  {
    assert Runs(t.held, t.ops) == Runs(t.held + [n], t.ops[1..]) && n !in t.held;
    HeldGrows(t.held, n);
    if t.phase == 1 {
      AheadOfNext(t);
      NothingTransient(Popped(t).(held := t.held + [n]));
    }
  }

  /** Between two operations nothing is transient, and everything is ahead. */
  lemma AheadOfNext(t: Thread)
    requires Orderly(t) && t.ops != []
    ensures t.ops[1..] != [] ==> !t.ops[1].Sweep?
  {
    var rest := t.ops[1..];
    TailUnswept(t.held, Ahead(t));
    if rest != [] { assert rest[0] == t.ops[1]; }
  }

  lemma {:induction false} TailUnswept(held: seq<Lock>, ops: seq<Op>)
    requires Runs(held, ops).Some?
    ensures forall i | 0 <= i < |ops| :: !ops[i].Sweep?
    decreases |ops|
  {
    if ops != [] {
      var next := match ops[0]
        case Acquire(n) => held + [n]
        case Release(n) => held[..|held| - 1]
        case _ => held;
      TailUnswept(next, ops[1..]);
      forall i | 0 <= i < |ops| ensures !ops[i].Sweep? {
        if i > 0 { assert ops[i] == ops[1..][i - 1]; }
      }
    }
  }

  lemma NothingTransient(t: Thread)
    requires t.phase == 0 && (t.ops != [] ==> !t.ops[0].Sweep?)
    ensures TransientThread(t) == {} && TransientFile(t) == {} && Ahead(t) == t.ops && PhaseOk(t)
  {
  }

  lemma ReleaseSettles(s: State, s': State, a: Actor, n: Lock)
    requires Settled(s) && a < |s.threads| && s.threads[a].ops != [] && s.threads[a].ops[0] == Release(n)
    requires ReleaseStep(s, s', a, n)
    ensures Settled(s')
  {
    OwnershipMoves(s, a, n);
    var t, t' := s.threads[a], s'.threads[a];
    hide Settled, ThreadMoves, FileMoves;
    ReleaseOwns(t, n, t'.verified);
    Settle(s, s', a, t');
  }

  lemma ReleaseOwns(t: Thread, n: Lock, v: map<Key, nat>)
    requires Orderly(t) && t.ops != [] && t.ops[0] == Release(n)
    ensures t.phase == 0 ==>
      && n in OwnsFile(t) && t.held != []
      && var u := t.(phase := 1, held := t.held[..|t.held| - 1], verified := v);
         Orderly(u) && OwnsThread(u) == OwnsThread(t) && OwnsFile(u) == OwnsFile(t) - {n}
    ensures t.phase == 1 ==>
      n in OwnsThread(t) && Orderly(Popped(t)) && OwnsThread(Popped(t)) == OwnsThread(t) - {n}
      && OwnsFile(Popped(t)) == OwnsFile(t)
  {
    if t.phase == 0 {
      assert Runs(t.held, t.ops) == Runs(t.held[..|t.held| - 1], t.ops[1..]);
      HeldShrinks(t.held);
    } else {
      AheadOfNext(t);
      NothingTransient(Popped(t));
    }
  }

  lemma EnsureSettles(s: State, s': State, a: Actor, d: Key)
    requires Settled(s) && a < |s.threads| && s.threads[a].ops != [] && s.threads[a].ops[0] == Ensure(d)
    requires EnsureStep(s, s', a, d)
    ensures Settled(s')
  {
    var t, t' := s.threads[a], s'.threads[a];
    assert Orderly(t);
    EnsureOwns(t, d, t'.verified);
    hide Orderly, OwnsThread, OwnsFile, Settled;
    SameLocks(s, s', a, t');
  }

  lemma EnsureOwns(t: Thread, d: Key, v: map<Key, nat>)
    requires Orderly(t) && t.ops != [] && t.ops[0] == Ensure(d)
    ensures var u := Popped(t).(verified := v);
      Orderly(u) && OwnsThread(u) == OwnsThread(t) && OwnsFile(u) == OwnsFile(t)
    ensures var u := t.(phase := 1, verified := v);
      Orderly(u) && OwnsThread(u) == OwnsThread(t) && OwnsFile(u) == OwnsFile(t)
  {
    AheadOfNext(t);
    NothingTransient(Popped(t).(verified := v));
  }

  lemma PlainSettles(s: State, s': State, a: Actor)
    requires Settled(s) && a < |s.threads| && s.threads[a].ops != []
    requires s.threads[a].ops[0].MakeDir? || s.threads[a].ops[0].Execute? || s.threads[a].ops[0].Resume?
    requires Progress(s, s', a)
    ensures Settled(s')
  {
    var t, t' := s.threads[a], s'.threads[a];
    assert Orderly(t);
    AheadOfNext(t);
    NothingTransient(t');
    SameLocks(s, s', a, t');
  }

  lemma CleanupSettles(s: State, s': State, a: Actor, op: Op)
    requires Settled(s) && a < |s.threads| && s.threads[a].ops != [] && s.threads[a].ops[0] == op && op.Cleanup?
    requires CleanupStep(s, s', a, op)
    ensures Settled(s')
  {
    var t, t' := s.threads[a], s'.threads[a];
    assert Orderly(t);
    AheadOfNext(t);
    if t'.ops == t.ops[1..] { NothingTransient(t'); } else { assert Ahead(t') == t.ops[1..]; }
    SameLocks(s, s', a, t');
  }

  lemma SweepSettles(s: State, s': State, a: Actor, op: Op)
    requires Settled(s) && a < |s.threads| && s.threads[a].ops != [] && s.threads[a].ops[0] == op && op.Sweep?
    requires SweepStep(s, s', a, op)
    ensures Settled(s')
  {
    var t := s.threads[a];
    assert Orderly(t);
    SweptTail(s, s', a, op);
    if op.excess <= 0 || op.entries == [] {
      SweptAhead(t);
      NothingTransient(Popped(t));
      SameLocks(s, s', a, Popped(t));
    } else {
      SweepEntrySettles(s, s', a, op);
    }
  }

  lemma SweepEntrySettles(s: State, s': State, a: Actor, op: Op)
    requires Settled(s) && a < |s.threads| && s.threads[a].ops != [] && s.threads[a].ops[0] == op && op.Sweep?
    requires SweepStep(s, s', a, op) && op.excess > 0 && op.entries != [] && s.threads[a].phase <= 2
    requires |s'.threads| == |s.threads| && s'.threads[a].ops != [] && s'.threads[a].ops[1..] == s.threads[a].ops[1..]
    requires s'.threads[a].ops[0].Sweep? && s'.threads[a].ops[0].space == op.space
    requires s'.threads[a].ops[0].prefix == op.prefix
    ensures Settled(s')
  {
    var t, t' := s.threads[a], s'.threads[a];
    var n := Lock(op.prefix, op.entries[0]);
    OwnershipMoves(s, a, n);
    hide Settled, ThreadMoves, FileMoves, Orderly, OwnsThread, OwnsFile, PhaseOk, SweepStep, SweptThread, NextFate;
    SweepOwns(t, op, n, t'.ops);
    SweepMovesLocks(s, s', a, op);
    Settle(s, s', a, t');
  }

  /** What a sweep's step does, by its fate. */
  lemma SweepMovesLocks(s: State, s': State, a: Actor, op: Op)
    requires a < |s.threads| && s.threads[a].ops != [] && s.threads[a].ops[0] == op && op.Sweep? && a < |s'.threads|
    requires SweepStep(s, s', a, op) && op.excess > 0 && op.entries != [] && s.threads[a].phase <= 2
    ensures var t, t', n := s.threads[a], s'.threads[a], Lock(op.prefix, op.entries[0]);
      match NextFate(s, t, op)
      case Skip => t.phase == 0 && t' == t.(ops := t'.ops) && s'.threadLocks == s.threadLocks
      && s'.fileLocks == s.fileLocks
      case TakeThreadLock =>
        t.phase == 0 && (t.pid, n) !in s.threadLocks && t' == t.(phase := 1)
        && s'.threadLocks == s.threadLocks[(t.pid, n) := a] && s'.fileLocks == s.fileLocks
      case TakeFileLock =>
        t.phase == 1 && n !in s.fileLocks && t' == t.(phase := 2) && s'.threadLocks == s.threadLocks
        && s'.fileLocks == s.fileLocks[n := a]
      case GiveUp =>
        t.phase == 1 && t' == t.(ops := t'.ops, phase := 0) && s'.threadLocks == s.threadLocks - {(t.pid, n)}
        && s'.fileLocks == s.fileLocks
      case Remove =>
        t.phase == 2 && t' == t.(ops := t'.ops, phase := 0) && s'.threadLocks == s.threadLocks - {(t.pid, n)}
        && s'.fileLocks == s.fileLocks - {n}
  {
  }

  lemma SweptTail(s: State, s': State, a: Actor, op: Op)
    requires a < |s.threads| && s.threads[a].ops != [] && op.Sweep? && SweepStep(s, s', a, op)
    requires s.threads[a].ops[0] == op
    ensures |s'.threads| == |s.threads| && s'.threads == s.threads[a := s'.threads[a]]
    ensures s'.threads[a].pid == s.threads[a].pid
    ensures op.excess > 0 && op.entries != [] ==>
      s'.threads[a].ops != [] && s'.threads[a].ops[1..] == s.threads[a].ops[1..] && s'.threads[a].ops[0].Sweep?
    ensures op.excess > 0 && op.entries != [] ==>
      s'.threads[a].ops[0].space == op.space && s'.threads[a].ops[0].prefix == op.prefix
  {
  }

  lemma SweepOwns(t: Thread, op: Op, n: Lock, ops: seq<Op>)
    requires Orderly(t) && t.ops != [] && t.ops[0] == op && op.Sweep? && op.excess > 0 && op.entries != []
    requires n == Lock(op.prefix, op.entries[0])
    requires ops != [] && ops[1..] == t.ops[1..] && ops[0].Sweep? && ops[0].space == op.space
    requires ops[0].prefix == op.prefix
    ensures t.phase == 0 ==>
      Orderly(t.(ops := ops)) && OwnsThread(t.(ops := ops)) == OwnsThread(t) && OwnsFile(t.(ops := ops)) == OwnsFile(t)
    ensures t.phase == 0 && n !in OwnsThread(t) ==>
      var u := t.(phase := 1); Orderly(u) && OwnsThread(u) == OwnsThread(t) + {n} && OwnsFile(u) == OwnsFile(t)
    ensures t.phase > 0 ==>
      var u := t.(ops := ops, phase := 0);
      n in OwnsThread(t) && Orderly(u) && OwnsThread(u) == OwnsThread(t) - {n}
      && OwnsFile(u) == (if t.phase == 2 then OwnsFile(t) - {n} else OwnsFile(t))
    ensures t.phase == 1 ==>
      var u := t.(phase := 2); Orderly(u) && OwnsThread(u) == OwnsThread(t) && OwnsFile(u) == OwnsFile(t) + {n}
    ensures t.phase == 2 ==> n in OwnsFile(t)
  {
    assert Ahead(t.(ops := ops)) == Ahead(t);
  }

  lemma SweptAhead(t: Thread)
    requires Orderly(t) && t.ops != [] && t.ops[0].Sweep?
    ensures t.ops[1..] != [] ==> !t.ops[1].Sweep?
  {
    TailUnswept(t.held, t.ops[1..]);
    if t.ops[1..] != [] { assert t.ops[1..][0] == t.ops[1]; }
  }

  lemma RaiseSettles(s: State, s': State, a: Actor, rest: seq<Op>)
    requires Settled(s) && a < |s.threads| && s.threads[a].ops != []
    requires !(s.threads[a].ops[0].Release? && s.threads[a].phase == 1)
    requires Recovers(s.threads[a], rest) && Unwound(s, s', a, rest)
    ensures Settled(s')
  {
    var t, t' := s.threads[a], s'.threads[a];
    assert Orderly(t);
    RecoversOrderly(t, rest);
    TailUnswept(t.held, rest);
    NothingTransient(t');
    assert OwnsThread(t') == HeldSet(t) && OwnsFile(t') == HeldSet(t);
    hide Orderly, Runs, Recovers;
    RaiseMoves(s.threads, s.threadLocks, s.fileLocks, a);
    Settle(s, s', a, t');
  }

  lemma RaiseMoves(threads: seq<Thread>, locks: map<(Pid, Lock), Actor>, files: map<Lock, Actor>, a: Actor)
    requires ThreadOwned(threads, locks) && FileOwned(threads, files) && a < |threads|
    requires TransientThread(threads[a]) !! HeldSet(threads[a])
    ensures var t := threads[a];
      && ThreadMoves(locks, locks - (set n | n in TransientThread(t) :: (t.pid, n)), t.pid, a, OwnsThread(t),
                     HeldSet(t))
      && FileMoves(files, files - TransientFile(t), a, OwnsFile(t), HeldSet(t))
  {
    hide TransientThread, HeldSet;
  }

  lemma StepSettles(s: State, s': State, a: Actor)
    requires Settled(s) && Step(s, s', a)
    ensures Settled(s') && a < |s.threads| == |s'.threads| && s'.threads == s.threads[a := s'.threads[a]]
  {
    hide Settled, AcquireStep, ReleaseStep, EnsureStep, CleanupStep;
    OneThreadMoves(s, s', a);
    if Progress(s, s', a) {
      var op := s.threads[a].ops[0];
      match op
      case Acquire(n) => AcquireSettles(s, s', a, n);
      case Release(n) => ReleaseSettles(s, s', a, n);
      case Ensure(d) => EnsureSettles(s, s', a, d);
      case MakeDir(_) => PlainSettles(s, s', a);
      case Execute(_, _) => PlainSettles(s, s', a);
      case Resume => PlainSettles(s, s', a);
      case Cleanup(_, _, _, _) => CleanupSettles(s, s', a, op);
      case Sweep(_, _, _, _, _) => SweepSettles(s, s', a, op);
    } else {
      var rest :| Recovers(s.threads[a], rest) && Unwound(s, s', a, rest);
      RaiseSettles(s, s', a, rest);
    }
  }

  lemma OneThreadMoves(s: State, s': State, a: Actor)
    requires Step(s, s', a)
    ensures a < |s.threads| == |s'.threads| && s'.threads == s.threads[a := s'.threads[a]]
    ensures s'.threads[a].pid == s.threads[a].pid
  {
    if Progress(s, s', a) { ProgressMovesOne(s, s', a); }
    else {
      hide Progress, Recovers;
      var rest :| Recovers(s.threads[a], rest) && Unwound(s, s', a, rest);
    }
  }

  lemma ProgressMovesOne(s: State, s': State, a: Actor)
    requires Progress(s, s', a)
    ensures a < |s.threads| == |s'.threads| && s'.threads == s.threads[a := s'.threads[a]]
    ensures s'.threads[a].pid == s.threads[a].pid
  {
    hide SweepStep, Lists, CleanupStep;
    match s.threads[a].ops[0]
    case Sweep(_, _, _, _, _) => SweptTail(s, s', a, s.threads[a].ops[0]);
    case Cleanup(_, _, _, _) => CleanupMovesOne(s, s', a, s.threads[a].ops[0]);
    case _ =>
  }

  lemma CleanupMovesOne(s: State, s': State, a: Actor, op: Op)
    requires a < |s.threads| && s.threads[a].ops != [] && op.Cleanup? && CleanupStep(s, s', a, op)
    ensures |s'.threads| == |s.threads| && s'.threads == s.threads[a := s'.threads[a]]
    ensures s'.threads[a].pid == s.threads[a].pid
  {
    hide Lists;
  }

  // ------------------------------------------- verified environments stay untouched

  ghost predicate SameAt(before: map<Dir, nat>, after: map<Dir, nat>, e: Dir) {
    (e in before <==> e in after) && (e in before ==> before[e] == after[e])
  }

  /** Which directories an operation may change: the one it is about, and only under that directory's lock. */
  lemma WritesUnderLock(s: State, s': State, a: Actor)
    requires Step(s, s', a) && a < |s.threads| == |s'.threads| && s.threads[a].ops != [] && Orderly(s.threads[a])
    ensures forall e | !SameAt(s.dirs, s'.dirs, e) ::
      Lock(e.space, e.key) in OwnsFile(s.threads[a]) && MayWrite(s.threads[a], e)
  {
    var t := s.threads[a];
    if Progress(s, s', a) {
      match t.ops[0]
      case Sweep(_, _, _, _, _) => SweepWrites(s, s', a, t.ops[0]);
      case _ =>
    } else {
      var rest :| Recovers(t, rest) && Unwound(s, s', a, rest);
    }
  }

  ghost predicate MayWrite(t: Thread, e: Dir)
    requires t.ops != []
  {
    || (e.space == Environments && t.ops[0] == Ensure(e.key))
    || (e.space != Environments && t.ops[0] == MakeDir(e))
    || (t.ops[0].Sweep? && Lock(e.space, e.key) in TransientThread(t))
  }

  lemma SweepWrites(s: State, s': State, a: Actor, op: Op)
    requires a < |s.threads| && s.threads[a].ops != [] && s.threads[a].ops[0] == op && op.Sweep?
    requires PhaseOk(s.threads[a]) && SweepStep(s, s', a, op)
    ensures forall e | !SameAt(s.dirs, s'.dirs, e) :: Lock(e.space, e.key) in TransientFile(s.threads[a])
  {
  }

  /** How a thread's own view of verified environments changes. */
  ghost predicate VerifiedMoves(s: State, s': State, a: Actor)
    requires a < |s.threads| == |s'.threads| && s.threads[a].ops != []
  {
    forall d | d in s'.threads[a].verified ::
      && Lock(Environments, d) in s'.threads[a].held
      && ((Dir(Environments, d) in s'.dirs && s'.dirs[Dir(Environments, d)] == s'.threads[a].verified[d])
          || (d in s.threads[a].verified && s'.threads[a].verified[d] == s.threads[a].verified[d]
              && (s.threads[a].ops[0] != Ensure(d) || s'.dirs == s.dirs)))
  }

  lemma OwnVerified(s: State, s': State, a: Actor)
    requires Step(s, s', a) && a < |s.threads| == |s'.threads| && s.threads[a].ops != [] && Orderly(s.threads[a])
    requires forall d | d in s.threads[a].verified :: Lock(Environments, d) in s.threads[a].held
    ensures VerifiedMoves(s, s', a)
  {
    var t := s.threads[a];
    hide Orderly, VerifiedMoves, Recovers, AcquireStep, ReleaseStep, EnsureStep, MakeDirStep, CleanupStep, SweepStep,
         Unwound;
    if Progress(s, s', a) {
      match t.ops[0]
      case Release(n) => ReleaseVerified(s, s', a, n);
      case Sweep(_, _, _, _, _) => SweepVerified(s, s', a, t.ops[0]);
      case Ensure(d) => EnsureVerified(s, s', a, d);
      case _ => PlainVerified(s, s', a);
    } else {
      var rest :| Recovers(t, rest) && Unwound(s, s', a, rest);
      UnwoundVerified(s, s', a, rest);
    }
  }

  lemma SameVerified(s: State, s': State, a: Actor)
    requires a < |s.threads| == |s'.threads| && s.threads[a].ops != []
    requires forall d | d in s.threads[a].verified :: Lock(Environments, d) in s.threads[a].held
    requires s'.threads[a].verified == s.threads[a].verified && s.threads[a].held <= s'.threads[a].held
    requires !s.threads[a].ops[0].Ensure? || s'.dirs == s.dirs
    ensures VerifiedMoves(s, s', a)
  {
    forall n | n in s.threads[a].held ensures n in s'.threads[a].held {
      var i :| 0 <= i < |s.threads[a].held| && s.threads[a].held[i] == n;
      assert s'.threads[a].held[i] == n;
    }
  }

  lemma PlainVerified(s: State, s': State, a: Actor)
    requires Progress(s, s', a) && a < |s.threads| == |s'.threads| && s.threads[a].ops != []
    requires var op := s.threads[a].ops[0]; op.Acquire? || op.MakeDir? || op.Execute? || op.Resume? || op.Cleanup?
    requires forall d | d in s.threads[a].verified :: Lock(Environments, d) in s.threads[a].held
    ensures VerifiedMoves(s, s', a)
  {
    hide VerifiedMoves;
    SameVerified(s, s', a);
  }

  lemma SweepVerified(s: State, s': State, a: Actor, op: Op)
    requires a < |s.threads| == |s'.threads| && s.threads[a].ops != [] && s.threads[a].ops[0] == op && op.Sweep?
    requires SweepStep(s, s', a, op)
    requires forall d | d in s.threads[a].verified :: Lock(Environments, d) in s.threads[a].held
    ensures VerifiedMoves(s, s', a)
  {
    SweepKeepsVerified(s, s', a, op);
    hide VerifiedMoves, SweepStep;
    SameVerified(s, s', a);
  }

  lemma UnwoundVerified(s: State, s': State, a: Actor, rest: seq<Op>)
    requires a < |s.threads| == |s'.threads| && s.threads[a].ops != []
    requires forall d | d in s.threads[a].verified :: Lock(Environments, d) in s.threads[a].held
    requires Unwound(s, s', a, rest)
    ensures VerifiedMoves(s, s', a)
  {
    SameVerified(s, s', a);
  }

  lemma ReleaseVerified(s: State, s': State, a: Actor, n: Lock)
    requires a < |s.threads| == |s'.threads| && s.threads[a].ops != [] && s.threads[a].ops[0] == Release(n)
    requires forall d | d in s.threads[a].verified :: Lock(Environments, d) in s.threads[a].held
    requires ReleaseStep(s, s', a, n)
    ensures VerifiedMoves(s, s', a)
  {
    if s.threads[a].phase == 0 { KeepsOthers(s.threads[a].held); }
  }

  lemma EnsureVerified(s: State, s': State, a: Actor, d: Key)
    requires a < |s.threads| == |s'.threads| && s.threads[a].ops != [] && s.threads[a].ops[0] == Ensure(d)
    requires forall d | d in s.threads[a].verified :: Lock(Environments, d) in s.threads[a].held
    requires EnsureStep(s, s', a, d) && Orderly(s.threads[a])
    ensures VerifiedMoves(s, s', a)
  {
  }

  lemma SweepKeepsVerified(s: State, s': State, a: Actor, op: Op)
    requires a < |s.threads| == |s'.threads| && s.threads[a].ops != [] && op.Sweep? && SweepStep(s, s', a, op)
    ensures s'.threads[a].verified == s.threads[a].verified && s'.threads[a].held == s.threads[a].held
  {
  }

  lemma KeepsOthers(held: seq<Lock>)
    requires held != []
    ensures forall h | h in held && h != held[|held| - 1] :: h in held[..|held| - 1]
  {
    forall h | h in held && h != held[|held| - 1] ensures h in held[..|held| - 1] {
      var i :| 0 <= i < |held| && held[i] == h;
      assert held[..|held| - 1][i] == h;
    }
  }

  /** What a thread has verified is protected through its own steps. */
  lemma OwnStepProtects(s: State, s': State, a: Actor)
    requires Step(s, s', a) && a < |s.threads| == |s'.threads| && s.threads[a].ops != []
    requires Orderly(s.threads[a]) && Protected(s.threads[a], s.dirs)
    ensures Protected(s'.threads[a], s'.dirs)
  {
    hide Step, Orderly;
    OwnVerified(s, s', a);
    WritesUnderLock(s, s', a);
    TransientIsNotHeld(s.threads[a]);
    MovesProtect(s, s', a);
  }

  lemma MovesProtect(s: State, s': State, a: Actor)
    requires a < |s.threads| == |s'.threads| && s.threads[a].ops != [] && VerifiedMoves(s, s', a)
    requires Protected(s.threads[a], s.dirs)
    requires forall n | n in s.threads[a].held :: n !in TransientThread(s.threads[a])
    requires forall e | !SameAt(s.dirs, s'.dirs, e) :: MayWrite(s.threads[a], e)
    ensures Protected(s'.threads[a], s'.dirs)
  {
    hide TransientThread;
    forall d | d in s'.threads[a].verified && d in s.threads[a].verified && s.threads[a].ops[0] != Ensure(d)
      ensures SameAt(s.dirs, s'.dirs, Dir(Environments, d))
    {
      assert Lock(Environments, d) in s.threads[a].held;
      assert !MayWrite(s.threads[a], Dir(Environments, d));
    }
  }

  lemma TransientIsNotHeld(t: Thread)
    requires Orderly(t)
    ensures forall n | n in t.held :: n !in TransientThread(t)
  {
    assert forall n | n in t.held :: n in HeldSet(t);
  }

  /** No other thread's step changes an environment that `b` has verified. */
  lemma OtherStepProtects(s: State, s': State, a: Actor, b: Actor)
    requires Settled(s) && Step(s, s', a) && a < |s.threads| == |s'.threads| && s.threads[a].ops != []
    requires s'.threads == s.threads[a := s'.threads[a]]
    requires b < |s.threads| && b != a && Protected(s.threads[b], s.dirs)
    ensures s'.threads[b] == s.threads[b] && Protected(s'.threads[b], s'.dirs)
    ensures forall d | d in s.threads[b].verified :: SameAt(s.dirs, s'.dirs, Dir(Environments, d))
  {
    assert Orderly(s.threads[a]);
    WritesUnderLock(s, s', a);
    hide Step, Orderly, MayWrite;
    forall d | d in s.threads[b].verified ensures SameAt(s.dirs, s'.dirs, Dir(Environments, d)) {
      assert Lock(Environments, d) in OwnsFile(s.threads[b]);
      if Lock(Environments, d) in OwnsFile(s.threads[a]) { SoleOwner(s, a, b, Lock(Environments, d)); }
    }
  }

  lemma SoleOwner(s: State, a: Actor, b: Actor, n: Lock)
    requires FileOwned(s.threads, s.fileLocks) && a < |s.threads| && b < |s.threads|
    requires n in OwnsFile(s.threads[a]) && n in OwnsFile(s.threads[b])
    ensures a == b
  {
    hide OwnsFile;
    assert n in s.fileLocks && s.fileLocks[n] == a;
    assert s.fileLocks[n] == b;
  }

  lemma StepProtects(s: State, s': State, a: Actor)
    requires Settled(s) && AllProtected(s) && Step(s, s', a)
    ensures AllProtected(s')
  {
    OneThreadMoves(s, s', a);
    StepHasOps(s, s', a);
    assert Orderly(s.threads[a]);
    hide Step, Settled, Orderly;
    forall b | 0 <= b < |s'.threads| ensures Protected(s'.threads[b], s'.dirs) {
      assert Protected(s.threads[b], s.dirs);
      if b == a { OwnStepProtects(s, s', a); } else { OtherStepProtects(s, s', a, b); }
    }
  }

  lemma StepHasOps(s: State, s': State, a: Actor)
    requires Step(s, s', a)
    ensures a < |s.threads| && s.threads[a].ops != []
  {
  }

  // ------------------------------------------------------------- run ids stay fresh

  lemma PendingTail(ops: seq<Op>)
    requires ops != []
    ensures Pending(ops[1..]) <= Pending(ops)
  {
  }

  /** Wakes nothing new: what `t` is unaware of, `u` is unaware of. */
  ghost predicate StaysUnaware(t: Thread, u: Thread, dirs: map<Dir, nat>) {
    forall r: Key | Unaware(t, r) && Dir(Artifacts, r) !in dirs && (r in Pending(u.ops) || r !in Pending(t.ops)) ::
      Unaware(u, r)
  }

  /** How one step changes what thread `a` waits for and knows. */
  lemma StepKnows(s: State, s': State, a: Actor)
    requires Step(s, s', a) && a < |s.threads| == |s'.threads| && s.threads[a].ops != []
    requires Orderly(s.threads[a]) && TakenOnce(s.threads[a].ops)
    ensures Pending(s'.threads[a].ops) <= Pending(s.threads[a].ops) && TakenOnce(s'.threads[a].ops)
    ensures StaysUnaware(s.threads[a], s'.threads[a], s.dirs)
  {
    hide Recovers, StaysUnaware, Orderly, SweepStep, CleanupStep, EnsureStep, ReleaseStep, MakeDirStep;
    var t, t' := s.threads[a], s'.threads[a];
    PendingTail(t.ops);
    if Progress(s, s', a) {
      if t.ops[0].Sweep? { SweptAhead(t); SweepKnows(s, s', a, t.ops[0]); }
      else {
        AheadOfNext(t);
        if t.ops[0].Acquire? { AcquireKnows(t, t.ops[0].lock); }
        else if t.ops[0].Cleanup? { CleanupKnows(s, s', a, t.ops[0]); }
        else { PlainKnows(s, s', a); }
      }
    } else {
      var rest :| Recovers(t, rest) && Unwound(s, s', a, rest);
      RaiseKnows(t, t', rest);
    }
  }

  lemma RaiseKnows(t: Thread, u: Thread, rest: seq<Op>)
    requires Orderly(t) && TakenOnce(t.ops) && t.ops != [] && Recovers(t, rest) && u == t.(ops := rest, phase := 0)
    ensures Pending(u.ops) <= Pending(t.ops) && TakenOnce(u.ops)
    ensures forall dirs :: StaysUnaware(t, u, dirs)
  {
    hide Recovers;
    RecoversOrderly(t, rest);
    TailUnswept(t.held, rest);
    NothingTransient(u);
    assert HeldSet(u) == HeldSet(t);
  }

  lemma PlainKnows(s: State, s': State, a: Actor)
    requires Progress(s, s', a) && a < |s.threads| == |s'.threads| && s.threads[a].ops != []
    requires var op := s.threads[a].ops[0]; op.Release? || op.Ensure? || op.MakeDir? || op.Execute? || op.Resume?
    requires Orderly(s.threads[a]) && (s.threads[a].ops[1..] != [] ==> !s.threads[a].ops[1].Sweep?)
    ensures s'.threads[a].ops == s.threads[a].ops || s'.threads[a].ops == s.threads[a].ops[1..]
    ensures StaysUnaware(s.threads[a], s'.threads[a], s.dirs)
  {
    var t, t' := s.threads[a], s'.threads[a];
    assert HeldSet(t') <= HeldSet(t);
  }

  lemma AcquireKnows(t: Thread, n: Lock)
    requires Orderly(t) && TakenOnce(t.ops) && t.ops != [] && t.ops[0] == Acquire(n)
    requires (t.ops[1..] != [] ==> !t.ops[1].Sweep?)
    ensures forall dirs ::
      StaysUnaware(t, t.(phase := 1), dirs) && StaysUnaware(t, Popped(t).(held := t.held + [n]), dirs)
  {
    HeldGrows(t.held, n);
    NothingTransient(Popped(t).(held := t.held + [n]));
  }

  lemma CleanupKnows(s: State, s': State, a: Actor, op: Op)
    requires a < |s.threads| == |s'.threads| && s.threads[a].ops != [] && s.threads[a].ops[0] == op && op.Cleanup?
    requires CleanupStep(s, s', a, op) && Orderly(s.threads[a]) && TakenOnce(s.threads[a].ops)
    requires s.threads[a].ops[1..] != [] ==> !s.threads[a].ops[1].Sweep?
    ensures Pending(s'.threads[a].ops) == Pending(s.threads[a].ops) && TakenOnce(s'.threads[a].ops)
    ensures StaysUnaware(s.threads[a], s'.threads[a], s.dirs)
  {
    var t, t' := s.threads[a], s'.threads[a];
    var entries :| Lists(s, op.space, entries) && s' == With(s, a, CleanedUp(t, op, entries));
    if |entries| > op.maximum { assert t'.ops[1..] == t.ops[1..]; }
    assert HeldSet(t') == HeldSet(t);
  }

  lemma SweepKnows(s: State, s': State, a: Actor, op: Op)
    requires a < |s.threads| == |s'.threads| && s.threads[a].ops != [] && s.threads[a].ops[0] == op && op.Sweep?
    requires SweepStep(s, s', a, op) && Orderly(s.threads[a]) && TakenOnce(s.threads[a].ops)
    requires s.threads[a].ops[1..] != [] ==> !s.threads[a].ops[1].Sweep?
    ensures Pending(s'.threads[a].ops) == Pending(s.threads[a].ops) && TakenOnce(s'.threads[a].ops)
    ensures StaysUnaware(s.threads[a], s'.threads[a], s.dirs)
  {
    var t, t' := s.threads[a], s'.threads[a];
    SweepKeepsVerified(s, s', a, op);
    assert HeldSet(t') == HeldSet(t);
    if op.excess > 0 && op.entries != [] {
      SweptTail(s, s', a, op);
      SweptEntries(s, s', a, op);
    }
  }

  lemma SweptEntries(s: State, s': State, a: Actor, op: Op)
    requires a < |s.threads| == |s'.threads| && s.threads[a].ops != [] && s.threads[a].ops[0] == op && op.Sweep?
    requires SweepStep(s, s', a, op) && op.excess > 0 && op.entries != []
    ensures s'.threads[a].ops != [] && s'.threads[a].ops[0].Sweep?
    ensures forall k | k in s'.threads[a].ops[0].entries :: k in op.entries
    ensures s'.threads[a].phase > 0 ==> s'.threads[a].ops[0] == op
  {
  }

  /** No step touches the artifact directory of a run its thread is unaware of. */
  lemma UnawareLeavesAlone(s: State, s': State, a: Actor, r: Key)
    requires Step(s, s', a) && a < |s.threads| == |s'.threads| && s.threads[a].ops != [] && Orderly(s.threads[a])
    requires Unaware(s.threads[a], r)
    ensures SameAt(s.dirs, s'.dirs, Dir(Artifacts, r))
  {
    WritesUnderLock(s, s', a);
    hide Step, Orderly;
  }

  lemma FreshCarried(s: State, s': State, a: Actor)
    requires FreshRuns(s) && a < |s.threads| == |s'.threads| && s'.threads == s.threads[a := s'.threads[a]]
    requires Pending(s'.threads[a].ops) <= Pending(s.threads[a].ops) && TakenOnce(s'.threads[a].ops)
    requires StaysUnaware(s.threads[a], s'.threads[a], s.dirs)
    requires forall r: Key | Unaware(s.threads[a], r) :: SameAt(s.dirs, s'.dirs, Dir(Artifacts, r))
    ensures FreshRuns(s')
  {
    hide TakenOnce, Pending, Unaware;
    forall b, c, r | 0 <= b < |s'.threads| && 0 <= c < |s'.threads| && r in Pending(s'.threads[b].ops)
      ensures Unaware(s'.threads[c], r) && (b != c ==> r !in Pending(s'.threads[c].ops))
    {
      assert r in Pending(s.threads[b].ops);
      assert Unaware(s.threads[c], r);
    }
    forall b, r | 0 <= b < |s'.threads| && r in Pending(s'.threads[b].ops) ensures Dir(Artifacts, r) !in s'.dirs {
      assert r in Pending(s.threads[b].ops);
      assert Unaware(s.threads[a], r);
    }
  }

  lemma StepKeepsFresh(s: State, s': State, a: Actor)
    requires Settled(s) && FreshRuns(s) && Step(s, s', a)
    ensures FreshRuns(s')
  {
    OneThreadMoves(s, s', a);
    StepHasOps(s, s', a);
    assert Orderly(s.threads[a]) && TakenOnce(s.threads[a].ops);
    hide Step, Settled, Orderly, TakenOnce, Pending, Unaware, FreshRuns, StaysUnaware;
    StepKnows(s, s', a);
    forall r: Key | Unaware(s.threads[a], r)
      ensures SameAt(s.dirs, s'.dirs, Dir(Artifacts, r))
    {
      UnawareLeavesAlone(s, s', a, r);
    }
    FreshCarried(s, s', a);
  }

  // ----------------------------------------------------------------------- whole runs

  lemma StepKeepsInv(s: State, s': State, a: Actor)
    requires Inv(s) && Step(s, s', a)
    ensures Inv(s')
  {
    hide Step, AllOrderly, ThreadOwned, FileOwned, AllProtected, FreshRuns;
    StepSettles(s, s', a);
    StepProtects(s, s', a);
    StepKeepsFresh(s, s', a);
  }

  /** A run: any interleaving of steps of any threads. */
  ghost predicate IsRun(run: seq<State>, who: seq<Actor>) {
    |run| == |who| + 1 && forall i | 0 <= i < |who| :: Step(run[i], run[i + 1], who[i])
  }

  lemma {:induction false} RunKeepsInv(run: seq<State>, who: seq<Actor>, k: nat)
    requires IsRun(run, who) && Inv(run[0]) && k < |run|
    ensures Inv(run[k]) && |run[k].threads| == |run[0].threads|
  {
    if k > 0 {
      RunKeepsInv(run, who, k - 1);
      StepKeepsInv(run[k - 1], run[k], who[k - 1]);
      OneThreadMoves(run[k - 1], run[k], who[k - 1]);
    }
  }

  /**
   From the moment thread `a` verifies environment `d` until it starts to give
   the environment back, every state of every interleaving has that very
   directory, whatever other threads build, rebuild or evict.
   */
  lemma {:induction false} VerifiedStaysUntouched(run: seq<State>, who: seq<Actor>, a: Actor, d: Key, from: nat,
                                                  to: nat)
    requires IsRun(run, who) && Inv(run[0]) && from <= to < |run|
    requires forall k | from <= k <= to :: a < |run[k].threads| && d in run[k].threads[a].verified
    requires forall k | from <= k < to && who[k] == a ::
      run[k].threads[a].ops != [] && run[k].threads[a].ops[0] != Ensure(d)
    ensures var e := Dir(Environments, d);
      && e in run[from].dirs && e in run[to].dirs && run[to].dirs[e] == run[from].dirs[e]
      && run[to].threads[a].verified[d] == run[from].dirs[e]
  {
    hide Inv, Step;
    RunKeepsInv(run, who, to);
    VerifiedIsThere(run[to], a, d);
    if to > from {
      VerifiedStaysUntouched(run, who, a, d, from, to - 1);
      RunKeepsInv(run, who, to - 1);
      VerifiedKept(run[to - 1], run[to], who[to - 1], a, d);
    }
  }

  lemma VerifiedIsThere(s: State, a: Actor, d: Key)
    requires Inv(s) && a < |s.threads| && d in s.threads[a].verified
    ensures Dir(Environments, d) in s.dirs && s.dirs[Dir(Environments, d)] == s.threads[a].verified[d]
  {
    assert Protected(s.threads[a], s.dirs);
  }

  lemma VerifiedKept(s: State, s': State, mover: Actor, a: Actor, d: Key)
    requires Inv(s) && Step(s, s', mover) && a < |s.threads| == |s'.threads|
    requires d in s.threads[a].verified && d in s'.threads[a].verified
    requires mover == a ==> s.threads[a].ops != [] && s.threads[a].ops[0] != Ensure(d)
    ensures s'.threads[a].verified[d] == s.threads[a].verified[d]
  {
    OneThreadMoves(s, s', mover);
    StepHasOps(s, s', mover);
    assert Orderly(s.threads[a]) && Protected(s.threads[a], s.dirs);
    if mover == a {
      OwnVerified(s, s', a);
      WritesUnderLock(s, s', a);
      TransientIsNotHeld(s.threads[a]);
    }
  }
}
