/**
 What a cleanup of a cache space does (src/spl/embedded.py:2386-2414): it brings the
 space down to its maximum, unless all that is left is preserved or in use, and it
 removes nothing that is preserved or in use, and never more than it has to.
 */
module CacheEviction {
  import opened Common
  import opened CacheLocks
  import opened CacheSafety
  import opened CacheProgress
  import opened CacheWorkers
  import opened CacheEffects

  /** The entries of a space. */
  function Entries(dirs: map<Dir, nat>, space: Space): set<Key> { set e | e in dirs && e.space == space :: e.key }

  /** An entry that this thread's cleanup must not remove: it is to be preserved, or one of its two locks is taken. */
  predicate Kept(s: State, pid: Pid, space: Space, preserve: set<Key>, k: Key) {
    k in preserve || (pid, Lock(space, k)) in s.threadLocks || Lock(space, k) in s.fileLocks
  }

  /** What a cleanup may have done to the directories. */
  ghost predicate Evicted(s: State, pid: Pid, dirs: map<Dir, nat>, space: Space, preserve: set<Key>) {
    && (forall e | e in dirs :: e in s.dirs && dirs[e] == s.dirs[e])
    && (forall e | e in s.dirs && e !in dirs :: e.space == space && !Kept(s, pid, space, preserve, e.key))
  }

  /** The locks that the sweep holds on its next entry, besides those that were held when it began. */
  ghost predicate TryingLocks(s: State, now: State, a: Actor, pid: Pid, op: Op, phase: nat)
    requires op.Sweep?
  {
    if phase == 0 then now.threadLocks == s.threadLocks && now.fileLocks == s.fileLocks
    else
      && op.entries != [] && op.entries[0] !in op.preserve
      && var n := Lock(op.prefix, op.entries[0]);
         && (pid, n) !in s.threadLocks && now.threadLocks == s.threadLocks[(pid, n) := a]
         && (phase == 1 ==> now.fileLocks == s.fileLocks)
         && (phase > 1 ==> n !in s.fileLocks && now.fileLocks == s.fileLocks[n := a])
  }

  /** A cleanup that began in state `s` is sweeping: what it has looked at is gone or kept, the rest is there. */
  ghost predicate Sweeping(s: State, now: State, a: Actor, maximum: nat, op: Op) {
    && op.Sweep? && op.space == op.prefix && Unfinished(now, a) && now.threads[a].ops[0] == op
    && TryingLocks(s, now, a, now.threads[a].pid, op, now.threads[a].phase)
    && Evicted(s, now.threads[a].pid, now.dirs, op.space, op.preserve)
    && op.excess == |Entries(now.dirs, op.space)| - maximum >= 0
    && (forall i, j | 0 <= i < j < |op.entries| :: op.entries[i] != op.entries[j])
    && (forall k | k in op.entries :: k in Entries(now.dirs, op.space))
    && (forall k | k in Entries(now.dirs, op.space) ::
         k in op.entries || Kept(s, now.threads[a].pid, op.space, op.preserve, k))
  }

  /** A cleanup that began in state `s` with so many allowed has done its work. */
  ghost predicate CleanedTo(s: State, pid: Pid, dirs: map<Dir, nat>, space: Space, preserve: set<Key>, maximum: nat) {
    var before, after := Entries(s.dirs, space), Entries(dirs, space);
    && Evicted(s, pid, dirs, space, preserve)
    && (|before| <= maximum ==> dirs == s.dirs)
    && (|before| > maximum ==>
         |after| >= maximum
         && (|after| == maximum || forall k | k in after :: Kept(s, pid, space, preserve, k)))
  }

  lemma EntriesMean(dirs: map<Dir, nat>, space: Space)
    ensures forall k: Key :: k in Entries(dirs, space) <==> Dir(space, k) in dirs
  {
    forall k: Key | Dir(space, k) in dirs ensures k in Entries(dirs, space) { assert Dir(space, k).key == k; }
  }

  lemma {:induction false} ListedSize(entries: seq<Key>, all: set<Key>)
    requires forall i, j | 0 <= i < j < |entries| :: entries[i] != entries[j]
    requires forall k :: k in entries <==> k in all
    ensures |entries| == |all|
    decreases |entries|
  {
    if entries != [] {
      var less := all - {entries[0]};
      assert entries == [entries[0]] + entries[1..];
      forall k ensures k in entries[1..] <==> k in less {
        if k in entries[1..] { var i :| 0 <= i < |entries| - 1 && entries[1..][i] == k; assert entries[i + 1] == k; }
      }
      ListedSize(entries[1..], less);
    } else {
      assert all == {};
    }
  }

  lemma NothingEvicted(s: State, pid: Pid, space: Space, preserve: set<Key>)
    ensures Evicted(s, pid, s.dirs, space, preserve)
  {
  }

  /** The listing: nothing to do, or a sweep of all entries. */
  lemma CleanupBegins(s: State, s': State, a: Actor, op: Op)
    requires Unfinished(s, a) && s.threads[a].ops[0] == op && op.Cleanup? && op.space == op.prefix
    requires s.threads[a].phase == 0 && CleanupStep(s, s', a, op) && a < |s'.threads|
    ensures s'.threads[a].pid == s.threads[a].pid && s'.threads[a].phase == 0
    ensures if |Entries(s.dirs, op.space)| <= op.maximum
            then s'.threads[a].ops == s.threads[a].ops[1..] && s'.dirs == s.dirs
            else s'.threads[a].ops != [] && s'.threads[a].ops[1..] == s.threads[a].ops[1..]
                 && Sweeping(s, s', a, op.maximum, s'.threads[a].ops[0])
                 && s'.threads[a].ops[0].space == op.space && s'.threads[a].ops[0].preserve == op.preserve
  {
    var entries :| Lists(s, op.space, entries) && s' == With(s, a, CleanedUp(s.threads[a], op, entries));
    EntriesMean(s.dirs, op.space);
    ListedSize(entries, Entries(s.dirs, op.space));
    NothingEvicted(s, s.threads[a].pid, op.space, op.preserve);
  }

  /** The sweep looks at its next entry, or is done. */
  lemma SweepGoesOn(s: State, now: State, next: State, a: Actor, maximum: nat, op: Op)
    requires Sweeping(s, now, a, maximum, op) && SweepStep(now, next, a, op) && a < |next.threads|
    requires now.threads[a].phase <= 2
    ensures next.threads[a].pid == now.threads[a].pid
    ensures if op.excess <= 0 || op.entries == []
            then next.threads[a].ops == now.threads[a].ops[1..] && next.threads[a].phase == 0 && next.dirs == now.dirs
            else var ops := next.threads[a].ops;
              && ops != [] && ops[1..] == now.threads[a].ops[1..] && ops[0].Sweep?
              && ops[0].space == op.space && ops[0].preserve == op.preserve
              && Sweeping(s, next, a, maximum, ops[0])
  {
    if op.excess > 0 && op.entries != [] {
      var n, fate := Lock(op.prefix, op.entries[0]), NextFate(now, now.threads[a], op);
      match fate {
        case Remove => EntryIsRemoved(s, now, next, a, maximum, op);
        case Skip => EntryIsPassed(s, now, next, a, maximum, op);
        case GiveUp => EntryIsPassed(s, now, next, a, maximum, op);
        case _ => EntryIsTried(s, now, next, a, maximum, op);
      }
    }
  }

  lemma EntryIsTried(s: State, now: State, next: State, a: Actor, maximum: nat, op: Op)
    requires Sweeping(s, now, a, maximum, op) && SweepStep(now, next, a, op) && a < |next.threads|
    requires now.threads[a].phase <= 2 && op.excess > 0 && op.entries != []
    requires var fate := NextFate(now, now.threads[a], op); fate.TakeThreadLock? || fate.TakeFileLock?
    ensures Sweeping(s, next, a, maximum, op) && next.threads[a].ops == now.threads[a].ops
  {
    hide Evicted, Entries, Kept;
  }

  lemma EntryIsPassed(s: State, now: State, next: State, a: Actor, maximum: nat, op: Op)
    requires Sweeping(s, now, a, maximum, op) && SweepStep(now, next, a, op) && a < |next.threads|
    requires now.threads[a].phase <= 2 && op.excess > 0 && op.entries != []
    requires var fate := NextFate(now, now.threads[a], op); fate.Skip? || fate.GiveUp?
    ensures Sweeping(s, next, a, maximum, op.(entries := op.entries[1..]))
    ensures next.threads[a].ops == [op.(entries := op.entries[1..])] + now.threads[a].ops[1..]
  {
    hide Evicted, Entries;
    var k, t := op.entries[0], now.threads[a];
    assert Kept(s, t.pid, op.space, op.preserve, k);
    var p := (t.pid, Lock(op.prefix, k));
    if t.phase > 0 { assert s.threadLocks[p := a] - {p} == s.threadLocks; }
    assert op.entries == [k] + op.entries[1..];
  }

  lemma EntryIsRemoved(s: State, now: State, next: State, a: Actor, maximum: nat, op: Op)
    requires Sweeping(s, now, a, maximum, op) && SweepStep(now, next, a, op) && a < |next.threads|
    requires now.threads[a].phase <= 2 && op.excess > 0 && op.entries != []
    requires NextFate(now, now.threads[a], op).Remove?
    ensures var rest := op.(entries := op.entries[1..], excess := op.excess - 1);
      && Sweeping(s, next, a, maximum, rest) && next.threads[a].ops == [rest] + now.threads[a].ops[1..]
  {
    hide Evicted, Entries;
    var k, t := op.entries[0], now.threads[a];
    var n := Lock(op.prefix, k);
    assert k in op.entries;
    OneLess(now.dirs, op.space, k);
    assert op.entries == [k] + op.entries[1..];
    assert s.threadLocks[(t.pid, n) := a] - {(t.pid, n)} == s.threadLocks;
    assert s.fileLocks[n := a] - {n} == s.fileLocks;
    EvictedOneMore(s, t.pid, now.dirs, op.space, op.preserve, k);
  }

  lemma OneLess(dirs: map<Dir, nat>, space: Space, k: Key)
    requires k in Entries(dirs, space)
    ensures Dir(space, k) in dirs && Entries(dirs - {Dir(space, k)}, space) == Entries(dirs, space) - {k}
    ensures |Entries(dirs - {Dir(space, k)}, space)| == |Entries(dirs, space)| - 1
  {
    EntriesMean(dirs, space);
    EntriesMean(dirs - {Dir(space, k)}, space);
    hide Entries;
    assert Entries(dirs - {Dir(space, k)}, space) == Entries(dirs, space) - {k};
  }

  lemma EvictedOneMore(s: State, pid: Pid, dirs: map<Dir, nat>, space: Space, preserve: set<Key>, k: Key)
    requires Evicted(s, pid, dirs, space, preserve) && !Kept(s, pid, space, preserve, k)
    ensures Evicted(s, pid, dirs - {Dir(space, k)}, space, preserve)
  {
  }

  /** A sweep that is done has cleaned up. */
  lemma SweepEnds(s: State, now: State, a: Actor, maximum: nat, op: Op)
    requires Sweeping(s, now, a, maximum, op) && (op.excess <= 0 || op.entries == [])
    requires |Entries(s.dirs, op.space)| > maximum
    ensures CleanedTo(s, now.threads[a].pid, now.dirs, op.space, op.preserve, maximum)
  {
    hide Entries, Kept, Evicted;
  }

  /**
   A cleanup that runs alone, whatever locks others hold: nothing happens if there are not too many entries;
   otherwise it removes entries until no more than the maximum are left or all that are left are to be preserved or
   are in use, and it removes nothing else.
   */
  lemma {:induction false} CleanupCleans(run: seq<State>, a: Actor, op: Op, rest: seq<Op>, k: nat)
    requires IsAlone(run, a) && Inv(run[0]) && a < |run[0].threads| && k < |run|
    requires op.Cleanup? && run[0].threads[a].ops == [op] + rest && run[0].threads[a].phase == 0
    requires forall j | 0 <= j < k && a < |run[j].threads| :: !Ended(run[j].threads[a], rest)
    ensures a < |run[k].threads| && run[k].threads[a].pid == run[0].threads[a].pid
    ensures var t := run[k].threads[a];
      if Ended(t, rest)
      then CleanedTo(run[0], t.pid, run[k].dirs, op.space, op.preserve, op.maximum)
      else if k == 0 then run[k] == run[0]
      else && |Entries(run[0].dirs, op.space)| > op.maximum && t.ops != [] && t.ops[1..] == rest
           && Sweeping(run[0], run[k], a, op.maximum, t.ops[0])
           && t.ops[0].space == op.space && t.ops[0].preserve == op.preserve
  {
    hide Inv, Sweeping, CleanedTo, Entries, SweepStep, CleanupStep, OwnsThread, Runs;
    AloneKeepsInv(run, a, k);
    if k == 0 {
      assert |run[0].threads[a].ops| == |rest| + 1;
    } else {
      CleanupCleans(run, a, op, rest, k - 1);
      AloneKeepsInv(run, a, k - 1);
      assert Progress(run[k - 1], run[k - 1 + 1], a);
      IsOrderlyNow(run[k - 1], a);
      if k == 1 {
        CleanupBegins(run[0], run[1], a, op);
        assert ([op] + rest)[1..] == rest;
        if |Entries(run[0].dirs, op.space)| <= op.maximum { NothingToClean(run[0], run[1], a, op); }
        else { assert |run[1].threads[a].ops| == |rest| + 1; }
      } else {
        var now := run[k - 1].threads[a].ops[0];
        IsSweep(run[0], run[k - 1], a, op.maximum, now);
        SweepGoesOn(run[0], run[k - 1], run[k], a, op.maximum, now);
        if now.excess <= 0 || now.entries == [] { SweepEnds(run[0], run[k - 1], a, op.maximum, now); }
        else { assert |run[k].threads[a].ops| == |rest| + 1; }
      }
    }
  }

  lemma IsSweep(s: State, now: State, a: Actor, maximum: nat, op: Op)
    requires Sweeping(s, now, a, maximum, op)
    ensures op.Sweep? && Unfinished(now, a) && now.threads[a].ops[0] == op
  {
  }

  lemma IsOrderlyNow(s: State, a: Actor)
    requires Inv(s) && Unfinished(s, a)
    ensures PhaseOk(s.threads[a])
    ensures s.threads[a].ops[0].Cleanup? ==> s.threads[a].ops[0].space == s.threads[a].ops[0].prefix
  {
    assert Orderly(s.threads[a]);
  }

  lemma NothingToClean(s: State, s': State, a: Actor, op: Op)
    requires op.Cleanup? && a < |s.threads| && s'.dirs == s.dirs && |Entries(s.dirs, op.space)| <= op.maximum
    ensures CleanedTo(s, s.threads[a].pid, s'.dirs, op.space, op.preserve, op.maximum)
  {
    hide Entries, Kept;
    NothingEvicted(s, s.threads[a].pid, op.space, op.preserve);
  }
}
