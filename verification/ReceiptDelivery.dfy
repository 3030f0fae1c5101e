/**
 What becomes of the receipts that are emitted (src/spl/embedded.py:318-388): each is
 queued unless the queue is full, nothing else is ever queued, and whatever happened
 before, as long as no drain thread has failed, all that was queued can still be sent.
 */
module ReceiptDelivery {
  import opened Common
  import opened RunReceipts

  // -------------------------------------------------------------- none is lost or made up

  /** The receipts that threads of emitter `i` are still about to queue. */
  function Undecided(threads: seq<Thread>, i: nat): multiset<Receipt> {
    if threads == [] then multiset{}
    else Undecided(threads[..|threads| - 1], i) + UndecidedBy(threads[|threads| - 1], i)
  }

  function UndecidedBy(t: Thread, i: nat): multiset<Receipt> {
    if t.emitter == i && (t.pc.EnterEmit? || t.pc.Put?) then multiset{t.pc.receipt} else multiset{}
  }

  /** The receipts that are given up between two states, because the queue is full. */
  function DroppedNow(threads: seq<Thread>, threads': seq<Thread>, i: nat): multiset<Receipt>
    requires |threads| == |threads'|
  {
    if threads == [] then multiset{}
    else
      var k := |threads| - 1;
      DroppedNow(threads[..k], threads'[..k], i) + GivenUp(threads[k], threads'[k], i)
  }

  predicate QueueFull(s: State, i: nat) { i < |s.emitters| && |s.emitters[i].queue| >= MAX_RUN_RECEIPT_QUEUE }

  /** The receipts of emitter `i` that were given up in the first `n` steps. */
  ghost function Dropped(run: seq<State>, i: nat, n: nat): multiset<Receipt>
    requires n < |run| && forall m | 0 <= m < n :: |run[m + 1].threads| == |run[m].threads|
  {
    if n == 0 then multiset{}
    else
      Dropped(run, i, n - 1)
      + if QueueFull(run[n - 1], i) then DroppedNow(run[n - 1].threads, run[n - 1 + 1].threads, i) else multiset{}
  }

  lemma {:induction false} OneDecides(threads: seq<Thread>, a: nat, t: Thread, i: nat)
    requires a < |threads|
    ensures Undecided(threads[a := t], i) + UndecidedBy(threads[a], i) == Undecided(threads, i) + UndecidedBy(t, i)
  {
    hide UndecidedBy;
    var k, after := |threads| - 1, threads[a := t];
    if a == k {
      assert after[..k] == threads[..k];
    } else {
      assert after[..k] == threads[..k][a := t];
      OneDecides(threads[..k], a, t, i);
      Swap(Undecided(after[..k], i), UndecidedBy(threads[a], i), Undecided(threads[..k], i), UndecidedBy(t, i),
           UndecidedBy(threads[k], i));
    }
  }

  lemma Swap(x: multiset<Receipt>, y: multiset<Receipt>, u: multiset<Receipt>, v: multiset<Receipt>,
             more: multiset<Receipt>)
    requires x + y == u + v
    ensures x + more + y == u + more + v
  {
    assert x + more + y == x + y + more && u + more + v == u + v + more;
  }

  /** What thread `a` gives up when it moves on. */
  function GivenUp(t: Thread, t': Thread, i: nat): multiset<Receipt> {
    if t.emitter == i && t.pc.Put? && t' != t then multiset{t.pc.receipt} else multiset{}
  }

  lemma {:induction false} OneGivesUp(threads: seq<Thread>, a: nat, t: Thread, i: nat)
    requires a < |threads|
    ensures DroppedNow(threads, threads[a := t], i) == GivenUp(threads[a], t, i)
  {
    hide GivenUp;
    var k, after := |threads| - 1, threads[a := t];
    if a == k {
      assert after[..k] == threads[..k];
      NobodyMoved(threads[..k], i);
    } else {
      assert after[..k] == threads[..k][a := t];
      OneGivesUp(threads[..k], a, t, i);
      StandsStill(threads[k], i);
    }
  }

  lemma StandsStill(t: Thread, i: nat)
    ensures GivenUp(t, t, i) == multiset{}
  {
  }

  lemma {:induction false} NobodyMoved(threads: seq<Thread>, i: nat)
    ensures DroppedNow(threads, threads, i) == multiset{}
  {
    if threads != [] { NobodyMoved(threads[..|threads| - 1], i); }
  }

  /** A step of a caller queues what it was about to queue, gives it up, or leaves it for later. */
  lemma CallerConserves(s: State, s': State, a: nat, i: nat)
    requires CallerStep(s, s', a) && i < |s.emitters|
    ensures |s'.threads| == |s.threads| && i < |s'.emitters|
    ensures multiset(s'.emitters[i].accepted) + Undecided(s'.threads, i)
      + (if QueueFull(s, i) then DroppedNow(s.threads, s'.threads, i) else multiset{})
      == multiset(s.emitters[i].accepted) + Undecided(s.threads, i)
  {
    hide CallerStep, QueueFull, Undecided, DroppedNow, GivenUp, UndecidedBy;
    CallerFrame(s, s', a);
    CallerIsThere(s, s', a);
    CallerDecides(s, s', a, i);
    OneDecides(s.threads, a, s'.threads[a], i);
    OneGivesUp(s.threads, a, s'.threads[a], i);
    var t, t' := s.threads[a], s'.threads[a];
    var gone := if QueueFull(s, i) then GivenUp(t, t', i) else multiset{};
    Balance(multiset(s'.emitters[i].accepted), multiset(s.emitters[i].accepted), UndecidedBy(t', i), UndecidedBy(t, i),
            gone, Undecided(s'.threads, i), Undecided(s.threads, i));
  }

  lemma Balance(queued': multiset<Receipt>, queued: multiset<Receipt>, own': multiset<Receipt>,
                own: multiset<Receipt>, gone: multiset<Receipt>, all': multiset<Receipt>, all: multiset<Receipt>)
    requires queued' + own' + gone == queued + own && all' + own == all + own'
    ensures queued' + all' + gone == queued + all
  {
    forall r: Receipt ensures (queued' + all' + gone)[r] == (queued + all)[r] {
      assert (queued' + own' + gone)[r] == (queued + own)[r] && (all' + own)[r] == (all + own')[r];
    }
  }

  lemma CallerIsThere(s: State, s': State, a: nat)
    requires CallerStep(s, s', a)
    ensures a < |s.threads|
  {
  }

  lemma CallerDecides(s: State, s': State, a: nat, i: nat)
    requires CallerStep(s, s', a) && i < |s.emitters| && a < |s'.threads| && i < |s'.emitters|
    ensures var t, t' := s.threads[a], s'.threads[a];
      multiset(s'.emitters[i].accepted) + UndecidedBy(t', i)
      + (if QueueFull(s, i) then GivenUp(t, t', i) else multiset{})
      == multiset(s.emitters[i].accepted) + UndecidedBy(t, i)
  {
    CallerFrame(s, s', a);
    if s.threads[a].emitter != i { assert s'.emitters[i] == s.emitters[i]; }
    else { OwnDecides(s, s', a); }
    hide CallerStep;
  }

  lemma OwnDecides(s: State, s': State, a: nat)
    requires CallerStep(s, s', a) && a < |s'.threads|
    ensures var i, t, t' := s.threads[a].emitter, s.threads[a], s'.threads[a];
      && i < |s'.emitters| && t' != t && t'.emitter == i
      && s'.emitters[i].accepted
         == s.emitters[i].accepted + (if t.pc.Put? && !QueueFull(s, i) then [t.pc.receipt] else [])
      && (if t.pc.Put? then !t'.pc.EnterEmit? && !t'.pc.Put?
          else if t.pc.EnterEmit? then t'.pc == Put(t.pc.receipt) else !t'.pc.EnterEmit? && !t'.pc.Put?)
  {
  }

  lemma DrainConserves(s: State, s': State, i: nat, k: nat, j: nat)
    requires DrainStep(s, s', i, k) && j < |s.emitters|
    ensures s'.threads == s.threads && j < |s'.emitters| && s'.emitters[j].accepted == s.emitters[j].accepted
  {
    DrainMoves(s, s', i, k);
    hide DrainStep;
  }

  /**
   At any time, the receipts of an emitter that were queued, that are still to be
   queued, and that were given up at a full queue are together those that were emitted.
   */
  lemma {:induction false} NoneIsLost(run: seq<State>, i: nat, n: nat)
    requires IsRun(run) && n < |run| && i < |run[0].emitters|
    ensures forall m | 0 <= m < n :: |run[m + 1].threads| == |run[m].threads|
    ensures i < |run[n].emitters|
    ensures multiset(run[n].emitters[i].accepted) + Undecided(run[n].threads, i) + Dropped(run, i, n)
      == multiset(run[0].emitters[i].accepted) + Undecided(run[0].threads, i)
  {
    hide CallerStep, DrainStep, Undecided, DroppedNow, QueueFull;
    if n > 0 {
      NoneIsLost(run, i, n - 1);
      var s, s' := run[n - 1], run[n - 1 + 1];
      assert Step(s, s');
      if a :| CallerStep(s, s', a) { CallerConserves(s, s', a, i); }
      else {
        var j, k :| DrainStep(s, s', j, k);
        DrainConserves(s, s', j, k, i);
        NobodyMoved(s.threads, i);
      }
    }
  }

  lemma {:induction false} NothingDropped(run: seq<State>, i: nat, n: nat)
    requires n < |run| && forall m | 0 <= m < n :: |run[m + 1].threads| == |run[m].threads|
    requires forall m | 0 <= m < n :: !QueueFull(run[m], i)
    ensures Dropped(run, i, n) == multiset{}
  {
    if n > 0 { NothingDropped(run, i, n - 1); }
  }

  /**
   If the queue was never full, then at any time the receipts that were sent, the one that is being sent, those in
   the queue and those that are still to be queued are together exactly those that were emitted.
   */
  lemma EachIsSentOnce(run: seq<State>, i: nat, n: nat)
    requires IsRun(run) && IsStart(run[0]) && n < |run| && i < |run[0].emitters|
    requires forall m | 0 <= m < n :: !QueueFull(run[m], i)
    ensures i < |run[n].emitters|
    ensures var e := run[n].emitters[i];
      multiset(e.attempted) + multiset(Taken(e.drains)) + multiset(e.queue) + Undecided(run[n].threads, i)
      == Undecided(run[0].threads, i)
  {
    hide CallerStep, DrainStep, Inv, Undecided, Taken, QueueFull, IsStart;
    NoneIsLost(run, i, n);
    NothingDropped(run, i, n);
    SentInOrder(run, n, i);
    NothingAcceptedYet(run[0], i);
    var e := run[n].emitters[i];
    assert multiset(e.accepted) == multiset(e.attempted) + multiset(Taken(e.drains)) + multiset(e.queue);
    assert multiset(run[0].emitters[i].accepted) + Undecided(run[0].threads, i) == Undecided(run[0].threads, i);
    assert multiset(e.accepted) + Undecided(run[n].threads, i) + multiset{}
        == multiset(e.accepted) + Undecided(run[n].threads, i);
  }

  lemma NothingAcceptedYet(s: State, i: nat)
    requires IsStart(s) && i < |s.emitters|
    ensures s.emitters[i].accepted == []
  {
  }

  /** The emit of receipt `r` by thread `a` is decided in step `m`: it is queued exactly if there is room. */
  predicate Decided(run: seq<State>, a: nat, r: Receipt, m: nat)
    requires m + 1 < |run|
  {
    && a < |run[m].threads| && run[m].threads[a].pc == Put(r)
    && var i := run[m].threads[a].emitter;
       && i < |run[m].emitters| && i < |run[m + 1].emitters|
       && run[m + 1].emitters[i].accepted == run[m].emitters[i].accepted
                                             + (if |run[m].emitters[i].queue| < 64 then [r] else [])
  }

  /** Every emit that has got past its decision had one, in some step. */
  lemma {:induction false} EmitIsDecided(run: seq<State>, n: nat, a: nat, r: Receipt) returns (m: nat)
    requires IsRun(run) && n < |run| && a < |run[0].threads| && run[0].threads[a].pc == EnterEmit(r)
    requires a < |run[n].threads| && run[n].threads[a].pc != EnterEmit(r) && run[n].threads[a].pc != Put(r)
    ensures m < n && Decided(run, a, r, m)
  {
    hide CallerStep, DrainStep;
    if n > 0 {
      var s, s' := run[n - 1], run[n - 1 + 1];
      assert Step(s, s');
      if b :| CallerStep(s, s', b) {
        CallerFrame(s, s', b);
        CallerIsThere(s, s', b);
        if s.threads[a].pc == EnterEmit(r) || s.threads[a].pc == Put(r) {
          assert a == b;
          OwnDecides(s, s', a);
          m := n - 1;
        } else {
          m := EmitIsDecided(run, n - 1, a, r);
        }
      } else {
        var i, k :| DrainStep(s, s', i, k);
        DrainMoves(s, s', i, k);
        m := EmitIsDecided(run, n - 1, a, r);
      }
    }
  }

  // ---------------------------------------------------------- all that is queued can be sent

  /** How far a caller that holds the condition lock is from giving it back, and what it may still queue. */
  function HolderLeft(pc: Pc): nat {
    match pc
    case Put(_) => 15
    case Count => 4
    case Track => 3
    case LeaveEmit => 2
    case CheckPending => 2
    case _ => 1
  }

  function DrainLeft(d: Drain): nat {
    match d
    case Post(_) => 8
    case EnterDrain(_) => 7
    case Discount(_) => 6
    case Untrack(_) => 5
    case LeaveDrain(_) => 4
    case _ => 0
  }

  /** How far the start of the drain thread is. */
  function StartLeft(threads: seq<Thread>, e: Emitter): nat {
    if e.drains != [] then 0
    else match e.startLock
      case None => 14
      case Some(b) => if b >= |threads| then 0 else match threads[b].pc
        case LeaveStart => 15
        case CheckStarted => 13
        case Spawn => 12
        case _ => 0
  }

  /** How many steps there are at most until the emitter has sent all that it has queued. */
  function Left(threads: seq<Thread>, e: Emitter): nat {
    10 * |e.queue| + StartLeft(threads, e)
    + (if e.drains == [] then 0 else DrainLeft(e.drains[0]))
    + (match e.condition case Some(Caller(a)) => if a < |threads| then HolderLeft(threads[a].pc) else 0 case _ => 0)
  }

  /** All that was queued is sent, and the emitter is at rest. */
  predicate Settled(s: State, i: nat) {
    && i < |s.emitters| && s.emitters[i].condition == None && s.emitters[i].attempted == s.emitters[i].accepted
    && s.emitters[i].pending == 0 && i !in s.tracked
  }

  /** A step that brings emitter `i` nearer to rest, without a failure, and leaves whoever is about to flush alone. */
  ghost predicate Nearer(s: State, s': State, i: nat)
    requires i < |s.emitters|
  {
    && Step(s, s') && |s'.emitters| == |s.emitters| && !s'.emitters[i].failed
    && Left(s'.threads, s'.emitters[i]) < Left(s.threads, s.emitters[i])
    && s.emitters[i].accepted <= s'.emitters[i].accepted
    && |s'.threads| == |s.threads|
    && forall a | 0 <= a < |s.threads| && s.threads[a].pc == EnterFlush :: s'.threads[a] == s.threads[a]
  }

  /** What the holder of the condition lock does next; one that waits for an empty queue may give up. */
  function HolderNext(pc: Pc, e: Emitter): (Pc, Emitter) {
    match pc
    case Put(r) =>
      if |e.queue| >= MAX_RUN_RECEIPT_QUEUE then (LeaveDropped, e)
      else (Count, e.(queue := e.queue + [r], accepted := e.accepted + [r]))
    case Count => (Track, e.(pending := e.pending + 1))
    case Track => (LeaveEmit, e)
    case LeaveEmit => (EnterStart, e.(condition := None))
    case CheckPending => (LeaveFlush(e.pending == 0), e)
    case _ => (Finished, e.(condition := None))
  }

  lemma HolderGoesOn(s: State, i: nat, a: nat) returns (s': State)
    requires a < |s.threads| && s.threads[a].emitter == i < |s.emitters| && Holds(s.threads[a].pc)
    requires !s.emitters[i].failed && s.emitters[i].condition == Some(Caller(a))
    ensures Nearer(s, s', i)
  {
    hide CallerStep, Left, HolderNext;
    var (pc, e) := HolderNext(s.threads[a].pc, s.emitters[i]);
    s' := Moved(s, a, pc, e).(tracked := if s.threads[a].pc == Track then s.tracked + {i} else s.tracked);
    HolderSteps(s, s', i, a);
    HolderLeavesLess(s, i, a);
  }

  lemma HolderSteps(s: State, s': State, i: nat, a: nat)
    requires a < |s.threads| && s.threads[a].emitter == i < |s.emitters| && Holds(s.threads[a].pc)
    requires var (pc, e) := HolderNext(s.threads[a].pc, s.emitters[i]);
      s' == Moved(s, a, pc, e).(tracked := if s.threads[a].pc == Track then s.tracked + {i} else s.tracked)
    ensures CallerStep(s, s', a)
    ensures s.emitters[i].accepted <= HolderNext(s.threads[a].pc, s.emitters[i]).1.accepted
    ensures HolderNext(s.threads[a].pc, s.emitters[i]).1.failed == s.emitters[i].failed
  {
  }

  lemma HolderLeavesLess(s: State, i: nat, a: nat)
    requires a < |s.threads| && s.threads[a].emitter == i < |s.emitters| && Holds(s.threads[a].pc)
    requires s.emitters[i].condition == Some(Caller(a))
    ensures var (pc, e) := HolderNext(s.threads[a].pc, s.emitters[i]);
      Left(s.threads[a := Thread(i, pc)], e) < Left(s.threads, s.emitters[i])
  {
    var (pc, e) := HolderNext(s.threads[a].pc, s.emitters[i]);
    SameStart(s.threads, i, a, pc, s.emitters[i], e);
    hide StartLeft;
  }

  lemma SameStart(threads: seq<Thread>, i: nat, a: nat, pc: Pc, e: Emitter, e': Emitter)
    requires a < |threads| && !HoldsStart(threads[a].pc) && !HoldsStart(pc)
    requires e'.drains == e.drains && e'.startLock == e.startLock
    ensures StartLeft(threads[a := Thread(i, pc)], e') == StartLeft(threads, e)
  {
  }

  // ------------------------------------------------------------------------ the drain thread

  /** What the drain thread does next, if nothing fails. */
  function DrainNext(d: Drain, e: Emitter): (Drain, Emitter)
    requires d.Get? ==> e.queue != []
  {
    match d
    case Get => (Post(e.queue[0]), e.(queue := e.queue[1..]))
    case Post(r) => (EnterDrain(false), e.(attempted := e.attempted + [r]))
    case EnterDrain(last) => (Discount(last), e.(condition := Some(Drainer(0))))
    case Discount(last) =>
      (if e.pending - 1 == 0 then Untrack(last) else LeaveDrain(last), e.(pending := e.pending - 1))
    case Untrack(last) => (LeaveDrain(last), e)
    case LeaveDrain(last) => (if last then Dead else Get, e.(condition := None))
    case Dead => (Dead, e)
  }

  lemma DrainGoesOn(s: State, i: nat) returns (s': State)
    requires i < |s.emitters| && |s.emitters[i].drains| == 1 && !s.emitters[i].failed
    requires var e := s.emitters[i];
      && !Ends(e.drains[0]) && (e.drains[0].Get? ==> e.queue != [])
      && (if DrainHolds(e.drains[0]) then e.condition == Some(Drainer(0)) else e.condition == None)
    ensures Nearer(s, s', i)
  {
    hide DrainStep, Left, DrainNext;
    var d := s.emitters[i].drains[0];
    var (d', e) := DrainNext(d, s.emitters[i]);
    DrainSteps(s, i);
    s' := Drained(s, i, 0, d', e).(tracked := if d.Untrack? then s.tracked - {i} else s.tracked);
    DrainLeavesLess(s, i);
  }

  lemma DrainSteps(s: State, i: nat)
    requires i < |s.emitters| && |s.emitters[i].drains| == 1
    requires var e := s.emitters[i];
      && !Ends(e.drains[0]) && (e.drains[0].Get? ==> e.queue != [])
      && (if DrainHolds(e.drains[0]) then e.condition == Some(Drainer(0)) else e.condition == None)
    ensures var d := s.emitters[i].drains[0];
      var (d', e) := DrainNext(d, s.emitters[i]);
      && |e.drains| == 1 && e.accepted == s.emitters[i].accepted && e.failed == s.emitters[i].failed
      && DrainStep(s, Drained(s, i, 0, d', e).(tracked := if d.Untrack? then s.tracked - {i} else s.tracked), i, 0)
  {
  }

  lemma DrainLeavesLess(s: State, i: nat)
    requires i < |s.emitters| && |s.emitters[i].drains| == 1
    requires var e := s.emitters[i];
      && !Ends(e.drains[0]) && (e.drains[0].Get? ==> e.queue != [])
      && (if DrainHolds(e.drains[0]) then e.condition == Some(Drainer(0)) else e.condition == None)
    ensures var (d', e) := DrainNext(s.emitters[i].drains[0], s.emitters[i]);
      |e.drains| == 1 && Left(s.threads, e.(drains := e.drains[0 := d'])) < Left(s.threads, s.emitters[i])
  {
  }

  // ------------------------------------------------------------- the start of the drain thread

  /** What the thread that starts the drain thread does next, if the start succeeds. */
  function StarterNext(a: nat, pc: Pc, e: Emitter): (Pc, Emitter) {
    match pc
    case EnterStart => (CheckStarted, e.(startLock := Some(a)))
    case CheckStarted => (Spawn, e.(started := true))
    case Spawn => (LeaveStart, e.(drains := e.drains + [Get]))
    case _ => (Finished, e.(startLock := None))
  }

  lemma StarterGoesOn(s: State, i: nat, a: nat) returns (s': State)
    requires a < |s.threads| && s.threads[a].emitter == i < |s.emitters| && s.emitters[i].drains == []
    requires var e, pc := s.emitters[i], s.threads[a].pc;
      && !e.failed && e.condition == None && (pc == CheckStarted ==> !e.started)
      && (if pc == EnterStart then e.startLock == None else HoldsStart(pc) && e.startLock == Some(a))
    ensures Nearer(s, s', i)
  {
    hide Left;
    var (pc, e) := StarterNext(a, s.threads[a].pc, s.emitters[i]);
    s' := Moved(s, a, pc, e);
    assert CallerStep(s, s', a);
    StarterLeavesLess(s, i, a);
  }

  lemma StarterLeavesLess(s: State, i: nat, a: nat)
    requires a < |s.threads| && s.threads[a].emitter == i < |s.emitters| && s.emitters[i].drains == []
    requires var e, pc := s.emitters[i], s.threads[a].pc;
      && e.condition == None
      && (if pc == EnterStart then e.startLock == None else HoldsStart(pc) && e.startLock == Some(a))
    ensures var (pc, e) := StarterNext(a, s.threads[a].pc, s.emitters[i]);
      Left(s.threads[a := Thread(i, pc)], e) < Left(s.threads, s.emitters[i])
  {
  }

  // -------------------------------------------------------------------------------- together

  /** As long as the emitter is not at rest and nothing has failed, some step brings it nearer. */
  lemma GoesOn(s: State, i: nat) returns (s': State)
    requires Inv(s) && i < |s.emitters| && !s.emitters[i].failed && !Settled(s, i)
    ensures Nearer(s, s', i)
  {
    hide Nearer, Counted, InOrder, TrackedRight;
    assert EmitterOk(s, i);
    var e := s.emitters[i];
    match e.condition {
      case Some(Caller(a)) => s' := HolderGoesOn(s, i, a);
      case Some(Drainer(k)) => s' := DrainGoesOn(s, i);
      case None =>
        NotAtRest(s, i);
        if e.drains == [] {
          var a := Starter(s, i);
          s' := StarterGoesOn(s, i, a);
        } else {
          s' := DrainGoesOn(s, i);
        }
    }
  }

  /** With the lock free, an emitter that is not at rest has something queued, or something taken from the queue. */
  lemma NotAtRest(s: State, i: nat)
    requires i < |s.emitters| && EmitterOk(s, i) && s.emitters[i].condition == None && !Settled(s, i)
    ensures var e := s.emitters[i]; if e.drains == [] then e.accepted != [] else e.drains[0].Get? ==> e.queue != []
  {
    hide Locked, StartLocked;
  }

  /** While there is no drain thread for what was queued, somebody is about to start it. */
  lemma Starter(s: State, i: nat) returns (a: nat)
    requires i < |s.emitters| && EmitterOk(s, i) && s.emitters[i].condition == None && !s.emitters[i].failed
    requires s.emitters[i].accepted != [] && s.emitters[i].drains == []
    ensures a < |s.threads| && s.threads[a].emitter == i
    ensures var e, pc := s.emitters[i], s.threads[a].pc;
      && (pc == CheckStarted ==> !e.started)
      && (if pc == EnterStart then e.startLock == None else HoldsStart(pc) && e.startLock == Some(a))
  {
    hide Counted, InOrder, TrackedRight;
    var e := s.emitters[i];
    if e.started {
      a :| IsAt(s.threads, i, a, Spawn);
    } else {
      a :| 0 <= a < |s.threads| && s.threads[a].emitter == i && Starting(s.threads[a].pc);
      if s.threads[a].pc == EnterStart && e.startLock != None { a := e.startLock.value; }
    }
  }

  /** Threads that are about to flush have not moved. */
  predicate FlushersWait(s: State, t: State) {
    |t.threads| == |s.threads|
    && forall a | 0 <= a < |s.threads| && s.threads[a].pc == EnterFlush :: t.threads[a] == s.threads[a]
  }

  /** From any state on, unless something has failed, the emitter can come to rest with all its receipts sent. */
  lemma {:induction false} CanSendAll(s: State, i: nat) returns (more: seq<State>)
    requires Inv(s) && i < |s.emitters| && !s.emitters[i].failed
    ensures IsRun(more) && more[0] == s && Settled(more[|more| - 1], i)
    ensures s.emitters[i].accepted <= more[|more| - 1].emitters[i].accepted && FlushersWait(s, more[|more| - 1])
    decreases Left(s.threads, s.emitters[i])
  {
    hide Inv, Left, Step, Settled;
    if Settled(s, i) {
      more := [s];
    } else {
      var s' := GoesOn(s, i);
      OneStepKeepsInv(s, s');
      var rest := CanSendAll(s', i);
      more := [s] + rest;
      assert forall n | 0 <= n < |more| - 1 :: n > 0 ==> more[n] == rest[n - 1] && more[n + 1] == rest[n];
    }
    SettledIsThere(more[|more| - 1], i);
  }

  lemma SettledIsThere(s: State, i: nat)
    requires Settled(s, i)
    ensures i < |s.emitters|
  {
  }

  lemma OneStepKeepsInv(s: State, s': State)
    requires Inv(s) && Step(s, s')
    ensures Inv(s')
  {
    hide Inv, CallerStep, DrainStep;
    if a :| CallerStep(s, s', a) { CallerKeepsInv(s, s', a); }
    else {
      var i, k :| DrainStep(s, s', i, k);
      DrainKeepsInv(s, s', i, k);
    }
  }

  /** A flush of an emitter at rest succeeds at once. */
  lemma FlushesAtOnce(s: State, i: nat, a: nat) returns (t: State, u: State)
    requires Settled(s, i) && a < |s.threads| && s.threads[a] == Thread(i, EnterFlush)
    ensures CallerStep(s, t, a) && CallerStep(t, u, a) && u.threads == s.threads[a := Thread(i, LeaveFlush(true))]
    ensures i < |u.emitters| && u.emitters[i] == s.emitters[i].(condition := Some(Caller(a)))
  {
    t := Moved(s, a, CheckPending, s.emitters[i].(condition := Some(Caller(a))));
    u := Moved(t, a, LeaveFlush(true), t.emitters[i]);
  }

  /**
   Whatever has happened before, as long as nothing has failed, a flush that is about to begin can still return true,
   after everything that was accepted has been sent.
   */
  lemma EveryFlushCanSucceed(run: seq<State>, n: nat, i: nat, a: nat) returns (more: seq<State>)
    requires IsRun(run) && IsStart(run[0]) && n < |run| && i < |run[n].emitters| && !run[n].emitters[i].failed
    requires a < |run[n].threads| && run[n].threads[a] == Thread(i, EnterFlush)
    ensures IsRun(more) && more[0] == run[n]
    ensures var t := more[|more| - 1];
      && a < |t.threads| && t.threads[a].pc == LeaveFlush(true) && i < |t.emitters|
      && run[n].emitters[i].accepted <= t.emitters[i].accepted == t.emitters[i].attempted
  {
    hide Inv, CallerStep, DrainStep;
    RunKeepsInv(run, n);
    more := CanSendAll(run[n], i);
    var t, u := FlushesAtOnce(more[|more| - 1], i, a);
    more := Joined(more, t, a);
    more := Joined(more, u, a);
  }

  lemma Joined(run: seq<State>, s: State, a: nat) returns (longer: seq<State>)
    requires IsRun(run) && CallerStep(run[|run| - 1], s, a)
    ensures longer == run + [s] && IsRun(longer)
  {
    hide CallerStep, DrainStep;
    longer := run + [s];
    forall n | 0 <= n < |longer| - 1 ensures Step(longer[n], longer[n + 1]) {
      if n < |run| - 1 { assert longer[n] == run[n] && longer[n + 1] == run[n + 1]; }
    }
  }

  /** Two threads of one new emitter: one emits a receipt, the other flushes. */
  function EmitAndFlush(r: Receipt): State {
    State([Thread(0, EnterEmit(r)), Thread(0, EnterFlush)],
          [Emitter([], 0, false, None, None, [], [], [], false)], {})
  }

  /** A receipt that is emitted can be accepted, sent and flushed. */
  lemma SomeReceiptIsDelivered(r: Receipt) returns (run: seq<State>)
    ensures IsRun(run) && run[0] == EmitAndFlush(r)
    ensures var t := run[|run| - 1];
      && |t.threads| == 2 && t.threads[1].pc == LeaveFlush(true)
      && |t.emitters| == 1 && t.emitters[0].accepted == t.emitters[0].attempted == [r]
  {
    var s := EmitAndFlush(r);
    var e := s.emitters[0];
    var t := Moved(s, 0, Put(r), e.(condition := Some(Caller(0))));
    var queued := t.emitters[0].queue + [r];
    var u := Moved(t, 0, Count, t.emitters[0].(queue := queued, accepted := t.emitters[0].accepted + [r]));
    assert CallerStep(s, t, 0) && CallerStep(t, u, 0);
    hide CallerStep, DrainStep, Inv;
    run := Joined([s], t, 0);
    run := Joined(run, u, 0);
    var more := EveryFlushCanSucceed(run, 2, 0, 1);
    run := run[..2] + more;
    OnlyThatReceipt(run, r);
  }

  lemma OnlyThatReceipt(run: seq<State>, r: Receipt)
    requires run != [] && run[0] == EmitAndFlush(r) && IsRun(run)
    requires var t := run[|run| - 1]; |t.emitters| > 0 && [r] <= t.emitters[0].accepted
    ensures |run[|run| - 1].threads| == 2 && |run[|run| - 1].emitters| == 1
    ensures run[|run| - 1].emitters[0].accepted == [r]
  {
    hide CallerStep, DrainStep, Undecided, DroppedNow, QueueFull;
    var n := |run| - 1;
    NoneIsLost(run, 0, n);
    SameCounts(run, n);
    OneIsEmitted(r);
    var queued, undecided := multiset(run[n].emitters[0].accepted), Undecided(run[n].threads, 0);
    assert queued + (undecided + Dropped(run, 0, n)) == queued + undecided + Dropped(run, 0, n);
    assert multiset(run[0].emitters[0].accepted) + multiset{r} == multiset{r};
    AtMostOne(run[n].emitters[0].accepted, undecided + Dropped(run, 0, n), r);
  }

  lemma OneIsEmitted(r: Receipt)
    ensures Undecided(EmitAndFlush(r).threads, 0) == multiset{r}
  {
    var threads := EmitAndFlush(r).threads;
    assert threads[..1] == [threads[0]] && [threads[0]][..0] == [];
    assert Undecided([threads[0]], 0) == multiset{r};
  }

  lemma AtMostOne(accepted: seq<Receipt>, others: multiset<Receipt>, r: Receipt)
    requires multiset(accepted) + others == multiset{r} && [r] <= accepted
    ensures accepted == [r]
  {
    assert multiset(accepted) <= multiset(accepted) + others;
    assert |multiset(accepted)| + |others| == |multiset(accepted) + others| == 1;
  }

  lemma {:induction false} SameCounts(run: seq<State>, n: nat)
    requires IsRun(run) && n < |run|
    ensures |run[n].threads| == |run[0].threads| && |run[n].emitters| == |run[0].emitters|
  {
    hide CallerStep, DrainStep;
    if n > 0 {
      SameCounts(run, n - 1);
      var s, s' := run[n - 1], run[n - 1 + 1];
      assert Step(s, s');
      if a :| CallerStep(s, s', a) { CallerFrame(s, s', a); }
      else {
        var i, k :| DrainStep(s, s', i, k);
        DrainMoves(s, s', i, k);
      }
    }
  }
}
