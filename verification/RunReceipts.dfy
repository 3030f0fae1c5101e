/**
 Run receipts (src/spl/embedded.py:305-406): callers queue receipts, one drain
 thread per emitter sends them, and a flush waits until none is pending.

 Every lock acquisition and every access to shared state is a step of its own.
 A thread here does one `emit` or one `flush`; there may be any number of threads,
 so a thread that does several is several of these, one after the other.
 */
module RunReceipts {
  import opened Common

  type Receipt = nat

  const MAX_RUN_RECEIPT_QUEUE: nat := 64

  datatype Pc =
    | EnterEmit(receipt: Receipt) | Put(receipt: Receipt) | Count | Track | LeaveEmit | LeaveDropped
    | EnterStart | CheckStarted | Spawn | LeaveStart
    | EnterFlush | CheckPending | Waiting | LeaveFlush(done: bool)
    | Finished

  /** The drain loop; `last` says that sending raised what the loop does not catch, so that it ends. */
  datatype Drain =
    | Get | Post(receipt: Receipt)
    | EnterDrain(last: bool) | Discount(last: bool) | Untrack(last: bool) | LeaveDrain(last: bool)
    | Dead

  datatype Thread = Thread(emitter: nat, pc: Pc)

  datatype Owner = Caller(thread: nat) | Drainer(index: nat)

  /**
   `accepted` and `attempted` record what was queued and what was sent, in order;
   `failed` says that the drain thread could not be started, or is at its end.
   */
  datatype Emitter = Emitter(
    queue: seq<Receipt>, pending: int, started: bool, condition: Option<Owner>, startLock: Option<nat>,
    drains: seq<Drain>, accepted: seq<Receipt>, attempted: seq<Receipt>, failed: bool)

  datatype State = State(threads: seq<Thread>, emitters: seq<Emitter>, tracked: set<nat>)

  // -------------------------------------------------------------------------- steps

  function Moved(s: State, a: nat, pc: Pc, e: Emitter): State
    requires a < |s.threads| && s.threads[a].emitter < |s.emitters|
  {
    s.(threads := s.threads[a := s.threads[a].(pc := pc)], emitters := s.emitters[s.threads[a].emitter := e])
  }

  ghost predicate CallerStep(s: State, s': State, a: nat) {
    && a < |s.threads| && s.threads[a].emitter < |s.emitters|
    && var i := s.threads[a].emitter;
       var e := s.emitters[i];
       match s.threads[a].pc
       case EnterEmit(r) => e.condition == None && s' == Moved(s, a, Put(r), e.(condition := Some(Caller(a))))
       case Put(r) =>
         if |e.queue| >= MAX_RUN_RECEIPT_QUEUE then s' == Moved(s, a, LeaveDropped, e)
         else s' == Moved(s, a, Count, e.(queue := e.queue + [r], accepted := e.accepted + [r]))
       case Count => s' == Moved(s, a, Track, e.(pending := e.pending + 1))
       case Track => s' == Moved(s, a, LeaveEmit, e).(tracked := s.tracked + {i})
       case LeaveEmit => s' == Moved(s, a, EnterStart, e.(condition := None))
       case LeaveDropped => s' == Moved(s, a, Finished, e.(condition := None))
       case EnterStart => e.startLock == None && s' == Moved(s, a, CheckStarted, e.(startLock := Some(a)))
       case CheckStarted => s' == if e.started then Moved(s, a, LeaveStart, e)
       else Moved(s, a, Spawn, e.(started := true))
       case Spawn => s' == Moved(s, a, LeaveStart, e.(drains := e.drains + [Get]))
       || s' == Moved(s, a, LeaveStart, e.(failed := true))
       case LeaveStart => s' == Moved(s, a, Finished, e.(startLock := None))
       case EnterFlush => e.condition == None && s' == Moved(s, a, CheckPending, e.(condition := Some(Caller(a))))
       case CheckPending =>
         if e.pending == 0 then s' == Moved(s, a, LeaveFlush(true), e)
         else s' == Moved(s, a, LeaveFlush(false), e) || s' == Moved(s, a, Waiting, e.(condition := None))
       case Waiting => s' == Moved(s, a, EnterFlush, e)
       case LeaveFlush(_) => s' == Moved(s, a, Finished, e.(condition := None))
       case Finished => false
  }

  function Drained(s: State, i: nat, k: nat, d: Drain, e: Emitter): State
    requires i < |s.emitters| && k < |e.drains|
  {
    s.(emitters := s.emitters[i := e.(drains := e.drains[k := d])])
  }

  ghost predicate DrainStep(s: State, s': State, i: nat, k: nat) {
    && i < |s.emitters| && k < |s.emitters[i].drains|
    && var e := s.emitters[i];
       match e.drains[k]
       case Get => e.queue != [] && s' == Drained(s, i, k, Post(e.queue[0]), e.(queue := e.queue[1..]))
       case Post(r) =>
         || s' == Drained(s, i, k, EnterDrain(false), e.(attempted := e.attempted + [r]))
         || s' == Drained(s, i, k, EnterDrain(true), e.(attempted := e.attempted + [r], failed := true))
       case EnterDrain(last) => e.condition == None
       && s' == Drained(s, i, k, Discount(last), e.(condition := Some(Drainer(k))))
       case Discount(last) =>
         s' == Drained(s, i, k, if e.pending - 1 == 0 then Untrack(last)
         else LeaveDrain(last), e.(pending := e.pending - 1))
       case Untrack(last) => s' == Drained(s, i, k, LeaveDrain(last), e).(tracked := s.tracked - {i})
       case LeaveDrain(last) => s' == Drained(s, i, k, if last then Dead else Get, e.(condition := None))
       case Dead => false
  }

  ghost predicate Step(s: State, s': State) {
    (exists a :: CallerStep(s, s', a)) || (exists i, k :: DrainStep(s, s', i, k))
  }

  // ---------------------------------------------------------------------- invariant

  predicate Holds(pc: Pc) {
    pc.Put? || pc.Count? || pc.Track? || pc.LeaveEmit? || pc.LeaveDropped? || pc.CheckPending? || pc.LeaveFlush?
  }

  predicate HoldsStart(pc: Pc) { pc.CheckStarted? || pc.Spawn? || pc.LeaveStart? }

  predicate DrainHolds(d: Drain) { d.Discount? || d.Untrack? || d.LeaveDrain? }

  /** The drain thread sends nothing any more. */
  predicate Ends(d: Drain) { d.Dead? || (!d.Get? && !d.Post? && d.last) }

  /** Queued a receipt and not yet past the start of the drain thread. */
  predicate Starting(pc: Pc) {
    pc.Count? || pc.Track? || pc.LeaveEmit? || pc.EnterStart? || pc.CheckStarted? || pc.Spawn?
  }

  /** Receipts taken from the queue and not yet discounted. */
  function InFlight(drains: seq<Drain>): nat {
    if drains != [] && (drains[0].Post? || drains[0].EnterDrain? || drains[0].Discount?) then 1 else 0
  }

  /** The receipt that was taken and not yet sent. */
  function Taken(drains: seq<Drain>): seq<Receipt> {
    if drains != [] && drains[0].Post? then [drains[0].receipt] else []
  }

  predicate IsAt(threads: seq<Thread>, i: nat, a: nat, pc: Pc) { a < |threads| && threads[a] == Thread(i, pc) }

  /** Where the thread that holds the condition lock of emitter `i` is, if a caller holds it. */
  function HolderPc(threads: seq<Thread>, e: Emitter): Option<Pc> {
    match e.condition
    case Some(Caller(a)) => if a < |threads| then Some(threads[a].pc) else None
    case _ => None
  }

  /** The condition lock of emitter `i` is held by exactly the thread that is in its critical section. */
  ghost predicate Locked(threads: seq<Thread>, i: nat, e: Emitter) {
    && (forall a | 0 <= a < |threads| && threads[a].emitter == i :: Holds(threads[a].pc) <==>
         e.condition == Some(Caller(a)))
    && (forall a: nat | e.condition == Some(Caller(a)) :: a < |threads| && threads[a].emitter == i)
    && (forall k | 0 <= k < |e.drains| :: DrainHolds(e.drains[k]) <==> e.condition == Some(Drainer(k)))
    && (forall k: nat | e.condition == Some(Drainer(k)) :: k < |e.drains|)
  }

  ghost predicate StartLocked(threads: seq<Thread>, i: nat, e: Emitter) {
    && (forall a | 0 <= a < |threads| && threads[a].emitter == i ::
         HoldsStart(threads[a].pc) <==> e.startLock == Some(a))
    && (forall a: nat | e.startLock == Some(a) :: a < |threads| && threads[a].emitter == i)
  }

  /**
   There is one drain thread at most, and a queued receipt has a drain thread or someone
   about to start it, unless the start failed.
   */
  ghost predicate Served(threads: seq<Thread>, i: nat, e: Emitter) {
    && |e.drains| <= 1 && (e.drains != [] || e.failed ==> e.started)
    && (e.drains != [] ==> (e.failed <==> Ends(e.drains[0])))
    && (forall a | IsAt(threads, i, a, Spawn) :: e.started && e.drains == [] && !e.failed)
    && (e.started ==> e.drains != [] || e.failed || exists a :: IsAt(threads, i, a, Spawn))
    && (e.accepted != [] && !e.started ==>
         exists a :: 0 <= a < |threads| && threads[a].emitter == i && Starting(threads[a].pc))
  }

  /** The counter, but for a caller that has just queued and not yet counted. */
  predicate Counted(threads: seq<Thread>, e: Emitter) {
    && e.pending >= 0
    && e.pending + (if HolderPc(threads, e) == Some(Count) then 1 else 0) == |e.queue| + InFlight(e.drains)
  }

  predicate InOrder(e: Emitter) { e.accepted == e.attempted + Taken(e.drains) + e.queue }

  /** Membership in the global set, step by step of the lock holder. */
  predicate TrackedRight(threads: seq<Thread>, e: Emitter, tracked: bool) {
    match HolderPc(threads, e)
    case Some(Track) => e.pending > 0
    case _ =>
      if e.drains != [] && e.drains[0].Untrack? then e.pending == 0 else tracked <==> e.pending > 0
  }

  ghost predicate EmitterOk(s: State, i: nat)
    requires i < |s.emitters|
  {
    var e := s.emitters[i];
    Locked(s.threads, i, e) && StartLocked(s.threads, i, e) && Served(s.threads, i, e) && Counted(s.threads, e)
    && InOrder(e) && TrackedRight(s.threads, e, i in s.tracked)
  }

  ghost predicate Inv(s: State) {
    && (forall a | 0 <= a < |s.threads| :: s.threads[a].emitter < |s.emitters|)
    && forall i | 0 <= i < |s.emitters| :: EmitterOk(s, i)
  }

  // ------------------------------------------------------------- every step keeps it

  /** A lock changes hands only between free and the moving thread, with its critical section. */
  predicate CallerTransition(held: bool, held': bool, c: Option<Owner>, c': Option<Owner>, a: nat) {
    || (held == held' && c == c') || (!held && held' && c == None && c' == Some(Caller(a)))
         || (held && !held' && c' == None)
  }

  predicate StartTransition(held: bool, held': bool, c: Option<nat>, c': Option<nat>, a: nat) {
    || (held == held' && c == c') || (!held && held' && c == None && c' == Some(a)) || (held && !held' && c' == None)
  }

  /** Thread `a` of emitter `i` went from one place to another and left `e` as `e'`. */
  ghost predicate Moves(threads: seq<Thread>, threads': seq<Thread>, a: nat, i: nat, e: Emitter, e': Emitter) {
    && a < |threads| == |threads'| && threads[a].emitter == i && threads' == threads[a := Thread(i, threads'[a].pc)]
    && CallerTransition(Holds(threads[a].pc), Holds(threads'[a].pc), e.condition, e'.condition, a)
    && StartTransition(HoldsStart(threads[a].pc), HoldsStart(threads'[a].pc), e.startLock, e'.startLock, a)
    && (e'.drains == e.drains || e'.drains == e.drains + [Get])
  }

  lemma CallerMoves(s: State, s': State, a: nat)
    requires CallerStep(s, s', a)
    ensures var i := s.threads[a].emitter;
      && |s'.emitters| == |s.emitters| && s'.emitters == s.emitters[i := s'.emitters[i]]
      && Moves(s.threads, s'.threads, a, i, s.emitters[i], s'.emitters[i])
      && (forall j | j != i :: j in s'.tracked <==> j in s.tracked)
  {
    CallerFrame(s, s', a);
    CallerLocks(s, s', a);
    hide CallerStep, CallerTransition, StartTransition;
  }

  lemma CallerFrame(s: State, s': State, a: nat)
    requires CallerStep(s, s', a)
    ensures var i := s.threads[a].emitter;
      && |s'.emitters| == |s.emitters| && s'.emitters == s.emitters[i := s'.emitters[i]] && |s'.threads| == |s.threads|
      && s'.threads == s.threads[a := Thread(i, s'.threads[a].pc)]
      && (forall j | j != i :: j in s'.tracked <==> j in s.tracked)
  {
    hide CallerTransition, StartTransition;
  }

  lemma CallerLocks(s: State, s': State, a: nat)
    requires CallerStep(s, s', a)
    ensures var i := s.threads[a].emitter; i < |s'.emitters| && a < |s'.threads|
    ensures var e, e' := s.emitters[s.threads[a].emitter], s'.emitters[s.threads[a].emitter];
      var pc, pc' := s.threads[a].pc, s'.threads[a].pc;
      && CallerTransition(Holds(pc), Holds(pc'), e.condition, e'.condition, a)
      && StartTransition(HoldsStart(pc), HoldsStart(pc'), e.startLock, e'.startLock, a)
      && (e'.drains == e.drains || e'.drains == e.drains + [Get])
  {
  }

  lemma MovesKeepLocks(threads: seq<Thread>, threads': seq<Thread>, a: nat, i: nat, e: Emitter, e': Emitter)
    requires Moves(threads, threads', a, i, e, e') && Locked(threads, i, e) && StartLocked(threads, i, e)
    ensures Locked(threads', i, e') && StartLocked(threads', i, e')
  {
  }

  /** The holder's place after a move. */
  lemma HolderMoves(threads: seq<Thread>, threads': seq<Thread>, a: nat, i: nat, e: Emitter, e': Emitter)
    requires Moves(threads, threads', a, i, e, e') && Locked(threads, i, e)
    ensures Holds(threads[a].pc) ==>
      HolderPc(threads, e) == Some(threads[a].pc) && (e.drains == [] || !DrainHolds(e.drains[0]))
    ensures HolderPc(threads', e') ==
      if Holds(threads'[a].pc) then Some(threads'[a].pc) else if Holds(threads[a].pc) then None
      else HolderPc(threads, e)
    ensures !Holds(threads[a].pc) && Holds(threads'[a].pc) ==>
      HolderPc(threads, e) == None && (e.drains == [] || !DrainHolds(e.drains[0]))
  {
  }

  lemma CallerKeepsServed(s: State, s': State, a: nat)
    requires CallerStep(s, s', a)
    requires var i := s.threads[a].emitter;
      StartLocked(s.threads, i, s.emitters[i]) && Served(s.threads, i, s.emitters[i])
    ensures Served(s'.threads, s.threads[a].emitter, s'.emitters[s.threads[a].emitter])
  {
    var i := s.threads[a].emitter;
    var e, e', pc, pc' := s.emitters[i], s'.emitters[i], s.threads[a].pc, s'.threads[a].pc;
    CallerMoves(s, s', a);
    StartingGoesOn(s, s', a);
    forall b | IsAt(s'.threads, i, b, Spawn) ensures e'.started && e'.drains == [] && !e'.failed {
      if b != a { assert IsAt(s.threads, i, b, Spawn); }
    }
    if e'.started && e'.drains == [] && !e'.failed {
      if e.started {
        var b :| IsAt(s.threads, i, b, Spawn);
        assert IsAt(s'.threads, i, b, Spawn);
      } else { assert IsAt(s'.threads, i, a, Spawn); }
    }
    if e'.accepted != [] && !e'.started {
      if Starting(pc') { assert s'.threads[a].emitter == i; }
      else {
        var b :| 0 <= b < |s.threads| && s.threads[b].emitter == i && Starting(s.threads[b].pc);
        assert s'.threads[b] == s.threads[b];
      }
    }
  }

  /** A thread leaves the start of the drain thread only once it is started. */
  lemma StartingGoesOn(s: State, s': State, a: nat)
    requires CallerStep(s, s', a)
    requires var i := s.threads[a].emitter;
      StartLocked(s.threads, i, s.emitters[i]) && Served(s.threads, i, s.emitters[i])
    ensures var i := s.threads[a].emitter;
      var e, e', pc, pc' := s.emitters[i], s'.emitters[i], s.threads[a].pc, s'.threads[a].pc;
      && (Starting(pc) && !Starting(pc') ==> e'.started)
      && (e'.accepted != e.accepted ==> Starting(pc'))
      && (e'.started <==> e.started || (pc.CheckStarted?))
      && (pc' == Spawn ==> pc == CheckStarted && !e.started && e'.drains == [])
      && (pc == Spawn ==> e.drains == [] && if e'.failed then e'.drains == [] else e'.drains == [Get])
      && (pc != Spawn ==> e'.drains == e.drains && e'.failed == e.failed) && e'.attempted == e.attempted
  {
    var i := s.threads[a].emitter;
    if s.threads[a].pc == Spawn { assert IsAt(s.threads, i, a, Spawn); }
  }

  /** How a caller's step changes the queue and the counter. */
  lemma QueueMoves(s: State, s': State, a: nat)
    requires CallerStep(s, s', a)
    ensures var i := s.threads[a].emitter;
      var e, e', pc, pc' := s.emitters[i], s'.emitters[i], s.threads[a].pc, s'.threads[a].pc;
      && e'.attempted == e.attempted && e'.pending == e.pending + (if pc == Count then 1 else 0)
      && (pc == Count ==> pc' == Track)
      && if pc' == Count then pc.Put? && e'.queue == e.queue + [pc.receipt] && e'.accepted == e.accepted + [pc.receipt]
         else e'.queue == e.queue && e'.accepted == e.accepted
  {
  }

  lemma CallerKeepsCounts(s: State, s': State, a: nat)
    requires CallerStep(s, s', a)
    requires var i := s.threads[a].emitter;
      && Locked(s.threads, i, s.emitters[i]) && StartLocked(s.threads, i, s.emitters[i])
      && Served(s.threads, i, s.emitters[i])
      && Counted(s.threads, s.emitters[i]) && InOrder(s.emitters[i])
    ensures var i := s.threads[a].emitter; Counted(s'.threads, s'.emitters[i]) && InOrder(s'.emitters[i])
  {
    var i := s.threads[a].emitter;
    CallerMoves(s, s', a);
    HolderMoves(s.threads, s'.threads, a, i, s.emitters[i], s'.emitters[i]);
    StartingGoesOn(s, s', a);
    QueueMoves(s, s', a);
    hide CallerStep, Locked, StartLocked, Moves, Served, HolderPc;
  }

  /** How a caller's step changes the global set. */
  lemma TrackMoves(s: State, s': State, a: nat)
    requires CallerStep(s, s', a)
    ensures var i, pc := s.threads[a].emitter, s.threads[a].pc;
      && (i in s'.tracked <==> i in s.tracked || pc == Track)
      && a < |s'.threads| && (pc == Track ==> s'.threads[a].pc == LeaveEmit)
      && (s'.threads[a].pc == Track ==> pc == Count)
  {
  }

  lemma CallerKeepsTracked(s: State, s': State, a: nat)
    requires CallerStep(s, s', a)
    requires var i := s.threads[a].emitter; EmitterOk(s, i)
    ensures var i := s.threads[a].emitter; TrackedRight(s'.threads, s'.emitters[i], i in s'.tracked)
  {
    var i := s.threads[a].emitter;
    CallerMoves(s, s', a);
    HolderMoves(s.threads, s'.threads, a, i, s.emitters[i], s'.emitters[i]);
    StartingGoesOn(s, s', a);
    QueueMoves(s, s', a);
    TrackMoves(s, s', a);
    hide CallerStep, Locked, StartLocked, Moves, Served, HolderPc, InOrder, Starting, HoldsStart;
  }

  /** A caller's step keeps everything, for its own emitter and the others. */
  lemma CallerKeepsInv(s: State, s': State, a: nat)
    requires Inv(s) && CallerStep(s, s', a)
    ensures Inv(s')
  {
    var i := s.threads[a].emitter;
    assert EmitterOk(s, i);
    CallerMoves(s, s', a);
    MovesKeepLocks(s.threads, s'.threads, a, i, s.emitters[i], s'.emitters[i]);
    CallerKeepsServed(s, s', a);
    CallerKeepsCounts(s, s', a);
    CallerKeepsTracked(s, s', a);
    hide CallerStep, Locked, StartLocked, Served, Counted, InOrder, TrackedRight, CallerTransition, StartTransition;
    forall j | 0 <= j < |s'.emitters| ensures EmitterOk(s', j) {
      if j != i { assert EmitterOk(s, j); OthersKeep(s, s', a, j); }
    }
  }

  lemma OthersKeep(s: State, s': State, a: nat, j: nat)
    requires a < |s.threads| == |s'.threads| && j < |s.emitters| == |s'.emitters| && j != s.threads[a].emitter
    requires s'.emitters[j] == s.emitters[j]
    requires s'.threads == s.threads[a := Thread(s.threads[a].emitter, s'.threads[a].pc)]
    requires (j in s'.tracked <==> j in s.tracked)
    requires EmitterOk(s, j)
    ensures EmitterOk(s', j)
  {
    var e := s.emitters[j];
    assert HolderPc(s'.threads, e) == HolderPc(s.threads, e);
    OthersServed(s, s', a, j);
  }

  lemma OthersServed(s: State, s': State, a: nat, j: nat)
    requires a < |s.threads| == |s'.threads| && j < |s.emitters| && j != s.threads[a].emitter
    requires Served(s.threads, j, s.emitters[j])
    requires s'.threads == s.threads[a := Thread(s.threads[a].emitter, s'.threads[a].pc)]
    ensures Served(s'.threads, j, s.emitters[j])
  {
    var e := s.emitters[j];
    forall b | IsAt(s'.threads, j, b, Spawn)
      ensures e.started && e.drains == [] && !e.failed
    {
      assert IsAt(s.threads, j, b, Spawn);
    }
    if e.started && e.drains == [] && !e.failed {
      var b :| IsAt(s.threads, j, b, Spawn);
      assert IsAt(s'.threads, j, b, Spawn);
    }
    if e.accepted != [] && !e.started {
      var b :| 0 <= b < |s.threads| && s.threads[b].emitter == j && Starting(s.threads[b].pc);
      assert s'.threads[b] == s.threads[b];
    }
  }

  // ------------------------------------------------------------------- the drain thread

  predicate DrainTransition(held: bool, held': bool, c: Option<Owner>, c': Option<Owner>, k: nat) {
    || (held == held' && c == c') || (!held && held' && c == None && c' == Some(Drainer(k)))
         || (held && !held' && c' == None)
  }

  lemma DrainMoves(s: State, s': State, i: nat, k: nat)
    requires DrainStep(s, s', i, k)
    ensures s'.threads == s.threads && |s'.emitters| == |s.emitters| && s'.emitters == s.emitters[i := s'.emitters[i]]
    ensures forall j | j != i :: j in s'.tracked <==> j in s.tracked
    ensures var e, e' := s.emitters[i], s'.emitters[i];
      && |e'.drains| == |e.drains| && e'.drains == e.drains[k := e'.drains[k]]
      && e'.started == e.started && e'.startLock == e.startLock && e'.accepted == e.accepted && (e.failed ==> e'.failed)
      && DrainTransition(DrainHolds(e.drains[k]), DrainHolds(e'.drains[k]), e.condition, e'.condition, k)
  {
  }

  lemma DrainKeepsLocks(s: State, s': State, i: nat, k: nat)
    requires DrainStep(s, s', i, k) && EmitterOk(s, i)
    ensures var e' := s'.emitters[i];
      Locked(s'.threads, i, e') && StartLocked(s'.threads, i, e') && Served(s'.threads, i, e')
    ensures DrainHolds(s.emitters[i].drains[k]) || DrainHolds(s'.emitters[i].drains[k]) ==>
      HolderPc(s.threads, s.emitters[i]) == None && HolderPc(s'.threads, s'.emitters[i]) == None
    ensures !DrainHolds(s.emitters[i].drains[k]) && !DrainHolds(s'.emitters[i].drains[k]) ==>
      HolderPc(s.threads, s.emitters[i]) == HolderPc(s'.threads, s'.emitters[i])
    ensures k == 0 && |s.emitters[i].drains| == 1
  {
    DrainMoves(s, s', i, k);
    hide DrainStep, Counted, InOrder, TrackedRight;
  }

  lemma DrainIsFirst(s: State, s': State, i: nat, k: nat)
    requires DrainStep(s, s', i, k) && EmitterOk(s, i)
    ensures k == 0 && |s'.emitters[i].drains| == 1
  {
    DrainMoves(s, s', i, k);
    hide DrainStep, Counted, InOrder, TrackedRight;
  }

  lemma DrainKeepsCounts(s: State, s': State, i: nat, k: nat)
    requires DrainStep(s, s', i, k) && EmitterOk(s, i)
    ensures var e' := s'.emitters[i];
      Counted(s'.threads, e') && InOrder(e') && TrackedRight(s'.threads, e', i in s'.tracked)
  {
    DrainKeepsLocks(s, s', i, k);
    DrainIsFirst(s, s', i, k);
    hide Locked, StartLocked, Served, HolderPc, DrainHolds;
    var e := s.emitters[i];
    if e.drains[k].Get? { assert e.queue == [e.queue[0]] + e.queue[1..]; }
  }

  lemma DrainKeepsInv(s: State, s': State, i: nat, k: nat)
    requires Inv(s) && DrainStep(s, s', i, k)
    ensures Inv(s')
  {
    assert EmitterOk(s, i);
    DrainMoves(s, s', i, k);
    DrainKeepsLocks(s, s', i, k);
    DrainKeepsCounts(s, s', i, k);
    hide DrainStep, Locked, StartLocked, Served, Counted, InOrder, TrackedRight, HolderPc, DrainTransition;
    forall j | 0 <= j < |s'.emitters| ensures EmitterOk(s', j) {
      if j != i { assert EmitterOk(s, j); }
    }
  }

  // -------------------------------------------------------------------------- runs

  ghost predicate IsRun(run: seq<State>) { run != [] && forall n | 0 <= n < |run| - 1 :: Step(run[n], run[n + 1]) }

  /** Nothing has happened: threads are about to emit or flush, emitters are new. */
  predicate IsStart(s: State) {
    && (forall a | 0 <= a < |s.threads| ::
         s.threads[a].emitter < |s.emitters| && (s.threads[a].pc.EnterEmit? || s.threads[a].pc.EnterFlush?))
    && (forall i | 0 <= i < |s.emitters| :: s.emitters[i] == Emitter([], 0, false, None, None, [], [], [], false))
    && s.tracked == {}
  }

  lemma StartHasInv(s: State)
    requires IsStart(s)
    ensures Inv(s)
  {
  }

  lemma {:induction false} RunKeepsInv(run: seq<State>, n: nat)
    requires IsRun(run) && IsStart(run[0]) && n < |run|
    ensures Inv(run[n])
  {
    hide Inv, CallerStep, DrainStep, IsStart;
    if n == 0 { StartHasInv(run[0]); }
    else {
      RunKeepsInv(run, n - 1);
      var s, s' := run[n - 1], run[n - 1 + 1];
      assert Step(s, s');
      if a :| CallerStep(s, s', a) { CallerKeepsInv(s, s', a); }
      else {
        var i, k :| DrainStep(s, s', i, k);
        DrainKeepsInv(s, s', i, k);
      }
    }
  }

  /** While nobody holds its condition lock, an emitter's counter is exact and says whether it is in the global set. */
  lemma FreeMeansExact(run: seq<State>, n: nat, i: nat)
    requires IsRun(run) && IsStart(run[0]) && n < |run| && i < |run[n].emitters| && run[n].emitters[i].condition == None
    ensures var e := run[n].emitters[i];
      e.pending == |e.queue| + InFlight(e.drains) && (i in run[n].tracked <==> e.pending > 0)
  {
    RunKeepsInv(run, n);
    assert EmitterOk(run[n], i);
  }

  /** Receipts are sent in the order in which they were accepted, each once, by one thread; the rest wait in order. */
  lemma SentInOrder(run: seq<State>, n: nat, i: nat)
    requires IsRun(run) && IsStart(run[0]) && n < |run| && i < |run[n].emitters|
    ensures var e := run[n].emitters[i];
      e.accepted == e.attempted + Taken(e.drains) + e.queue && |e.drains| <= 1
  {
    RunKeepsInv(run, n);
    assert EmitterOk(run[n], i);
  }

  /**
   A receipt that was accepted always has a drain thread that goes on, or a thread
   that is about to start it, unless the start or the drain loop has failed; then
   the emitter sends nothing any more.
   */
  lemma NeverAbandoned(run: seq<State>, n: nat, i: nat)
    requires IsRun(run) && IsStart(run[0]) && n < |run| && i < |run[n].emitters| && run[n].emitters[i].accepted != []
    ensures !run[n].emitters[i].failed ==>
      ((run[n].emitters[i].drains != [] && !Ends(run[n].emitters[i].drains[0]))
       || exists a :: 0 <= a < |run[n].threads| && run[n].threads[a].emitter == i && Starting(run[n].threads[a].pc))
    ensures run[n].emitters[i].failed ==> forall m | n <= m < |run| :: NothingMore(run[n], run[m], i)
  {
    RunKeepsInv(run, n);
    assert EmitterOk(run[n], i);
    var e := run[n].emitters[i];
    if e.started && e.drains == [] && !e.failed {
      var a: nat :| IsAt(run[n].threads, i, a, Spawn);
      assert Starting(run[n].threads[a].pc);
    }
    if e.failed {
      forall m | n <= m < |run| ensures NothingMore(run[n], run[m], i) { FailedStays(run, n, m, i); }
    }
  }

  /** What the emitter has sent in `s` is still all that it has sent in `t`. */
  predicate NothingMore(s: State, t: State, i: nat) {
    i < |s.emitters| == |t.emitters| && t.emitters[i].failed && t.emitters[i].attempted == s.emitters[i].attempted
  }

  lemma {:induction false} FailedStays(run: seq<State>, n: nat, m: nat, i: nat)
    requires IsRun(run) && IsStart(run[0]) && n <= m < |run| && i < |run[n].emitters| && run[n].emitters[i].failed
    ensures NothingMore(run[n], run[m], i)
  {
    hide Inv, CallerStep, DrainStep, IsStart;
    if m > n {
      FailedStays(run, n, m - 1, i);
      var s, s' := run[m - 1], run[m - 1 + 1];
      assert Step(s, s');
      if a :| CallerStep(s, s', a) { CallerSendsNothing(s, s', a, i); }
      else {
        var j, k :| DrainStep(s, s', j, k);
        RunKeepsInv(run, m - 1);
        DrainMoves(s, s', j, k);
        if j == i { EndedSendsNothing(s, s', i, k); }
      }
    }
  }

  lemma CallerSendsNothing(s: State, s': State, a: nat, i: nat)
    requires CallerStep(s, s', a) && i < |s.emitters| && s.emitters[i].failed
    ensures NothingMore(s, s', i)
  {
  }

  lemma EndedSendsNothing(s: State, s': State, i: nat, k: nat)
    requires Inv(s) && DrainStep(s, s', i, k) && s.emitters[i].failed
    ensures NothingMore(s, s', i)
  {
    assert EmitterOk(s, i);
    assert Ends(s.emitters[i].drains[k]);
  }

  /**
   When a flush decides that it is done, every accepted receipt has been sent and the
   emitter is out of the global set.
   */
  lemma FlushedMeansSent(run: seq<State>, n: nat, a: nat)
    requires IsRun(run) && IsStart(run[0]) && n + 1 < |run| && CallerStep(run[n], run[n + 1], a)
    requires run[n + 1].threads[a].pc == LeaveFlush(true)
    ensures var i := run[n].threads[a].emitter;
      var e := run[n + 1].emitters[i];
      e.pending == 0 && e.queue == [] && InFlight(e.drains) == 0 && e.attempted == e.accepted
      && i !in run[n + 1].tracked
  {
    RunKeepsInv(run, n);
    var s, i := run[n], run[n].threads[a].emitter;
    assert EmitterOk(s, i) && s.threads[a].pc == CheckPending;
    HolderIsCaller(s.threads, i, s.emitters[i], a);
  }

  lemma HolderIsCaller(threads: seq<Thread>, i: nat, e: Emitter, a: nat)
    requires Locked(threads, i, e) && a < |threads| && threads[a].emitter == i && Holds(threads[a].pc)
    ensures HolderPc(threads, e) == Some(threads[a].pc) && (e.drains != [] ==> !DrainHolds(e.drains[0]))
  {
  }
}
