/**
 The lock protocol of the embedded cache (src/spl/embedded.py): many threads in
 many processes, one in-process thread lock and one inter-process file lock per
 lock name, blocking acquisition for use, and try-locks for eviction.

 A thread runs a list of operations; `phase` says how far it is into the first.
 Directories carry a version that is never used twice, so a directory that was
 removed, replaced or rebuilt has another version or none.  Cache keys (content
 hashes and run ids) are numbers: for hexadecimal digests of one length, numeric
 order is the order in which the code sorts them.
 */
module CacheLocks {
  import opened Common

  type Actor = nat
  type Pid = nat
  const DIGESTS: nat := 0x1_0000_0000_0000_0000_0000_0000_0000_0000_0000_0000_0000_0000_0000_0000_0000_0000
  const KEYS: nat := DIGESTS * DIGESTS
  type Key = k: nat | k < KEYS

  datatype Space = Bundles | Environments | Wheels | Artifacts

  /** The lock named by the prefix of a space and a key. */
  datatype Lock = Lock(space: Space, key: Key)

  /** A cache directory: a space and the name of an entry in it. */
  datatype Dir = Dir(space: Space, key: Key)

  datatype Op =
    | Acquire(lock: Lock)
    | Release(lock: Lock)
    | Ensure(digest: Key)                                // verify an environment, or rebuild it
    | MakeDir(dir: Dir)                                  // install, replace or accept a directory
    | Execute(run: Key, needs: set<Key>)                 // run code of this run against these environments
    | Resume                                             // the caller goes on after a call that returned or raised
    | Cleanup(space: Space, prefix: Space, maximum: nat, preserve: set<Key>)
    | Sweep(space: Space, prefix: Space, entries: seq<Key>, excess: int, preserve: set<Key>)
      // a cleanup under way: entries still to look at, and how many to remove

  datatype Thread = Thread(pid: Pid, ops: seq<Op>, phase: nat, held: seq<Lock>, verified: map<Key, nat>)

  datatype State = State(
    threads: seq<Thread>,
    threadLocks: map<(Pid, Lock), Actor>,
    fileLocks: map<Lock, Actor>,
    dirs: map<Dir, nat>,
    clock: nat)

  // ------------------------------------------------------------------------- steps

  function With(s: State, a: Actor, t: Thread): State
    requires a < |s.threads|
  {
    s.(threads := s.threads[a := t])
  }

  function Popped(t: Thread): Thread
    requires t.ops != []
  {
    t.(ops := t.ops[1..], phase := 0)
  }

  ghost predicate AcquireStep(s: State, s': State, a: Actor, n: Lock)
    requires a < |s.threads| && s.threads[a].ops != []
  {
    var t := s.threads[a];
    || (t.phase == 0 && (t.pid, n) !in s.threadLocks
        && s' == With(s, a, t.(phase := 1)).(threadLocks := s.threadLocks[(t.pid, n) := a]))
    || (t.phase == 1 && n !in s.fileLocks
        && s' == With(s, a, Popped(t).(held := t.held + [n])).(fileLocks := s.fileLocks[n := a]))
  }

  /** The file lock is released first, then the thread lock. */
  ghost predicate ReleaseStep(s: State, s': State, a: Actor, n: Lock)
    requires a < |s.threads| && s.threads[a].ops != []
  {
    var t := s.threads[a];
    || (t.phase == 0 && t.held != [] && t.held[|t.held| - 1] == n
        && s' == With(s, a, t.(phase := 1, held := t.held[..|t.held| - 1],
                               verified := if n.space == Environments then t.verified - {n.key} else t.verified))
                 .(fileLocks := s.fileLocks - {n}))
    || (t.phase == 1 && s' == With(s, a, Popped(t)).(threadLocks := s.threadLocks - {(t.pid, n)}))
  }

  /** Accept the environment that is there, or remove it and install a new one. */
  ghost predicate EnsureStep(s: State, s': State, a: Actor, d: Key)
    requires a < |s.threads| && s.threads[a].ops != []
  {
    var t := s.threads[a];
    var e := Dir(Environments, d);
    || (t.phase == 0 && e in s.dirs && s' == With(s, a, Popped(t).(verified := t.verified[d := s.dirs[e]])))
    || (t.phase == 0 && s' == With(s, a, t.(phase := 1, verified := t.verified - {d})).(dirs := s.dirs - {e}))
    || (t.phase == 1 && s' == With(s, a, Popped(t).(verified := t.verified[d := s.clock]))
                              .(dirs := s.dirs[e := s.clock], clock := s.clock + 1))
  }

  /** All entries of a space, in some order. */
  ghost predicate Lists(s: State, space: Space, entries: seq<Key>) {
    && (forall i, j | 0 <= i < j < |entries| :: entries[i] != entries[j])
    && (forall k: Key :: k in entries <==> Dir(space, k) in s.dirs)
  }

  /** A cleanup that has listed its entries: there are not too many, or as many as are too many are to go. */
  function CleanedUp(t: Thread, op: Op, entries: seq<Key>): Thread
    requires t.ops != [] && op.Cleanup?
  {
    if |entries| <= op.maximum then Popped(t)
    else t.(ops := [Sweep(op.space, op.prefix, entries, |entries| - op.maximum, op.preserve)] + t.ops[1..])
  }

  ghost predicate CleanupStep(s: State, s': State, a: Actor, op: Op)
    requires a < |s.threads| && s.threads[a].ops != [] && op.Cleanup?
  {
    exists entries :: Lists(s, op.space, entries) && s' == With(s, a, CleanedUp(s.threads[a], op, entries))
  }

  /** What a sweep does about its next entry, trying two locks without waiting. */
  datatype Fate = Skip | TakeThreadLock | TakeFileLock | GiveUp | Remove

  function NextFate(s: State, t: Thread, op: Op): Fate
    requires op.Sweep? && op.entries != []
  {
    var n := Lock(op.prefix, op.entries[0]);
    if t.phase == 0 then (if op.entries[0] in op.preserve || (t.pid, n) in s.threadLocks then Skip else TakeThreadLock)
    else if t.phase == 1 then (if n in s.fileLocks then GiveUp else TakeFileLock)
    else Remove
  }

  /** The thread afterwards: one phase further, or at the next entry. */
  function SweptThread(s: State, t: Thread, op: Op): Thread
    requires op.Sweep? && op.entries != [] && t.ops != []
  {
    match NextFate(s, t, op)
    case TakeThreadLock => t.(phase := 1)
    case TakeFileLock => t.(phase := 2)
    case Remove =>
      var removed := if Dir(op.space, op.entries[0]) in s.dirs then 1 else 0;
      t.(ops := [op.(entries := op.entries[1..], excess := op.excess - removed)] + t.ops[1..], phase := 0)
    case _ => t.(ops := [op.(entries := op.entries[1..])] + t.ops[1..], phase := 0)
  }

  /** Look at the next entry: skip it, or try its two locks without waiting and remove it. */
  ghost predicate SweepStep(s: State, s': State, a: Actor, op: Op)
    requires a < |s.threads| && s.threads[a].ops != [] && op.Sweep?
  {
    var t := s.threads[a];
    if op.excess <= 0 || op.entries == [] then s' == With(s, a, Popped(t))
    else
      var n := Lock(op.prefix, op.entries[0]);
      var fate := NextFate(s, t, op);
      && s'.threads == s.threads[a := SweptThread(s, t, op)] && s'.clock == s.clock
      && s'.dirs == (if fate == Remove then s.dirs - {Dir(op.space, op.entries[0])} else s.dirs)
      && s'.threadLocks == (if fate == TakeThreadLock then s.threadLocks[(t.pid, n) := a]
                            else if fate == GiveUp || fate == Remove then s.threadLocks - {(t.pid, n)}
                            else s.threadLocks)
      && s'.fileLocks == (if fate == TakeFileLock then s.fileLocks[n := a]
           else if fate == Remove then s.fileLocks - {n} else s.fileLocks)
  }

  /** What runs while an exception unwinds down to the locks `left`: releases in reverse order, and cleanups. */
  ghost predicate Unwinds(held: seq<Lock>, left: seq<Lock>, rest: seq<Op>)
    decreases |rest|
  {
    if rest == [] then held == left
    else if rest[0].Cleanup? then rest[0].space == rest[0].prefix && rest[0].space != Wheels
         && Unwinds(held, left, rest[1..])
    else held != [] && rest[0] == Release(held[|held| - 1]) && Unwinds(held[..|held| - 1], left, rest[1..])
  }

  /** Nobody catches the exception, or the code around some call does and goes on there, with the locks it has. */
  ghost predicate Catches(ops: seq<Op>, left: seq<Lock>, later: seq<Op>) {
    || (left == [] && later == [])
    || exists j :: 0 <= j < |ops| && ops[j].Resume? && later == ops[j..] && Runs(left, later) == Some([])
  }

  /** What is ahead of a thread after an exception. */
  ghost predicate Recovers(t: Thread, rest: seq<Op>) {
    exists left, unwinding, later ::
      Unwinds(t.held, left, unwinding) && Catches(t.ops, left, later) && rest == unwinding + later
  }

  /** An exception (a timeout while waiting for a file lock among them) ends the current operation. */
  ghost predicate RaiseStep(s: State, s': State, a: Actor)
    requires a < |s.threads| && s.threads[a].ops != []
  {
    var t := s.threads[a];
    !(t.ops[0].Release? && t.phase == 1)
    && exists rest {:trigger Recovers(t, rest)} :: Recovers(t, rest) && Unwound(s, s', a, rest)
  }

  ghost predicate Unwound(s: State, s': State, a: Actor, rest: seq<Op>)
    requires a < |s.threads|
  {
    var t := s.threads[a];
    var locks := TransientThread(t);
    s' == With(s, a, t.(ops := rest, phase := 0))
          .(threadLocks := s.threadLocks - (set n | n in locks :: (t.pid, n)),
            fileLocks := s.fileLocks - TransientFile(t))
  }

  /** A cached bundle or wheel that is valid is kept; otherwise a new directory takes its place. */
  ghost predicate MakeDirStep(s: State, s': State, a: Actor, e: Dir)
    requires a < |s.threads| && s.threads[a].ops != []
  {
    var t := s.threads[a];
    || (e in s.dirs && e.space != Artifacts && s' == With(s, a, Popped(t)))
    || s' == With(s, a, Popped(t)).(dirs := s.dirs[e := s.clock], clock := s.clock + 1)
  }

  /** The normal progress of thread `a`. */
  ghost predicate Progress(s: State, s': State, a: Actor) {
    a < |s.threads| && s.threads[a].ops != []
    && var op := s.threads[a].ops[0];
      match op
      case Acquire(n) => AcquireStep(s, s', a, n)
      case Release(n) => ReleaseStep(s, s', a, n)
      case Ensure(d) => EnsureStep(s, s', a, d)
      case MakeDir(e) => MakeDirStep(s, s', a, e)
      case Execute(_, _) => s' == With(s, a, Popped(s.threads[a]))
      case Resume => s' == With(s, a, Popped(s.threads[a]))
      case Cleanup(_, _, _, _) => CleanupStep(s, s', a, op)
      case Sweep(_, _, _, _, _) => SweepStep(s, s', a, op)
  }

  ghost predicate Step(s: State, s': State, a: Actor) {
    Progress(s, s', a) || (a < |s.threads| && s.threads[a].ops != [] && RaiseStep(s, s', a))
  }

  // --------------------------------------------------------------------- ownership

  /** Locks a thread has on its way in or out of an operation, besides those it holds. */
  function TransientThread(t: Thread): set<Lock> {
    if t.ops == [] || t.phase == 0 then {}
    else match t.ops[0]
      case Acquire(n) => {n}
      case Release(n) => {n}
      case Sweep(_, prefix, entries, _, _) => if entries == [] then {} else {Lock(prefix, entries[0])}
      case _ => {}
  }

  function TransientFile(t: Thread): set<Lock> {
    if t.phase == 2 then TransientThread(t) else {}
  }

  function Elements(held: seq<Lock>): set<Lock> { set n | n in held }

  function HeldSet(t: Thread): set<Lock> { Elements(t.held) }

  function OwnsThread(t: Thread): set<Lock> { HeldSet(t) + TransientThread(t) }

  function OwnsFile(t: Thread): set<Lock> { HeldSet(t) + TransientFile(t) }

  predicate PhaseOk(t: Thread) {
    if t.ops == [] then t.phase == 0
    else match t.ops[0]
      case Acquire(_) => t.phase <= 1
      case Release(_) => t.phase <= 1
      case Ensure(_) => t.phase <= 1
      case Sweep(space, prefix, entries, excess, _) =>
        space == prefix && space != Wheels && t.phase <= 2 && (t.phase > 0 ==> entries != [] && excess > 0)
      case _ => t.phase == 0
  }

  // --------------------------------------------------------------------- discipline

  function SpaceRank(space: Space): nat {
    match space
    case Bundles => 0
    case Environments => 1
    case Wheels => 2
    case Artifacts => 3
  }

  /** Bundles before environments before wheels; environments by digest. */
  function Rank(n: Lock): nat { SpaceRank(n.space) * KEYS + n.key }

  /** A lock that may be waited for while `held` is held; artifact locks are outside the order. */
  predicate InOrder(held: seq<Lock>, n: Lock) {
    n !in held && (n.space == Artifacts || forall h | h in held :: h.space == Artifacts || Rank(h) < Rank(n))
  }

  /** The locks held after `ops`, if they keep to the discipline. */
  function Runs(held: seq<Lock>, ops: seq<Op>): Option<seq<Lock>>
    decreases |ops|
  {
    if ops == [] then Some(held)
    else match ops[0]
      case Acquire(n) => if InOrder(held, n) then Runs(held + [n], ops[1..]) else None
      case Release(n) => if held != [] && held[|held| - 1] == n then Runs(held[..|held| - 1], ops[1..]) else None
      case Ensure(d) => if Lock(Environments, d) in held then Runs(held, ops[1..]) else None
      case MakeDir(e) => if Lock(e.space, e.key) in held && e.space != Environments then Runs(held, ops[1..]) else None
      case Execute(_, _) => Runs(held, ops[1..])
      case Resume => Runs(held, ops[1..])
      case Cleanup(space, prefix, _, _) => if space == prefix && space != Wheels then Runs(held, ops[1..]) else None
      case Sweep(_, _, _, _, _) => None
  }

  /** The operations still ahead; a release half done or a sweep under way is behind. */
  function Ahead(t: Thread): seq<Op> {
    if t.ops != [] && (t.ops[0].Sweep? || (t.ops[0].Release? && t.phase == 1)) then t.ops[1..] else t.ops
  }

  predicate Distinct(held: seq<Lock>) { forall i, j | 0 <= i < j < |held| :: held[i] != held[j] }

  /** A thread that keeps to the discipline and gives everything back at the end. */
  predicate Orderly(t: Thread) {
    PhaseOk(t) && Runs(t.held, Ahead(t)) == Some([]) && Distinct(t.held) && TransientThread(t) !! HeldSet(t)
  }

  /** The run ids whose artifact lock is still to be taken. */
  function Pending(ops: seq<Op>): set<Key> {
    if ops == [] then {}
    else (if ops[0].Acquire? && ops[0].lock.space == Artifacts then {ops[0].lock.key} else {}) + Pending(ops[1..])
  }

  /** Run ids are fresh: each artifact lock is taken once. */
  predicate TakenOnce(ops: seq<Op>) {
    ops == [] || (TakenOnce(ops[1..])
      && (ops[0].Acquire? && ops[0].lock.space == Artifacts ==> ops[0].lock.key !in Pending(ops[1..])))
  }

  /** The thread neither owns the artifact lock of run `r` nor is about to sweep its directory. */
  predicate Unaware(t: Thread, r: Key) {
    && (Lock(Artifacts, r) in OwnsThread(t) ==> t.ops != [] && t.ops[0] == Acquire(Lock(Artifacts, r)))
    && (t.ops != [] && t.ops[0].Sweep? && t.ops[0].space == Artifacts ==> r !in t.ops[0].entries)
  }
}
