/**
 The shutdown flush of run receipts (src/spl/embedded.py:391-406): each pass shares
 what is left of a hard budget among the active emitters, and passes are repeated
 until no emitter is active or the budget is spent.  Time is a real number;
 a wait takes any time up to what it was offered, and nothing else takes time.
 */
module ReceiptFlush {

  const RUN_RECEIPT_SHUTDOWN_TIMEOUT_SECONDS: real := 4.5

  function Total(waits: seq<real>): real {
    if waits == [] then 0.0 else Total(waits[..|waits| - 1]) + waits[|waits| - 1]
  }

  /** A share of what is left, once the share is taken, leaves its due to everyone after. */
  lemma ShareLeavesEnough(budget: real, n: int, left: int, remaining: real, wait: real)
    requires 1 <= left <= n && n as real * remaining >= budget * left as real
    requires wait <= remaining / left as real
    ensures n as real * (remaining - wait) >= budget * (left - 1) as real
  {
    var l, m := left as real, n as real;
    var share := remaining / l;
    assert remaining == share * l;
    assert (left - 1) as real == l - 1.0;
    Spread(m, share, l, budget);
    MultiplyBound(remaining - wait, share * l - share, m);
  }

  /** If `m` times `l` shares cover `l` budgets, they still do with one share and one budget less. */
  lemma Spread(m: real, share: real, l: real, budget: real)
    requires l >= 1.0 && m * (share * l) >= budget * l
    ensures m * (share * l - share) >= budget * (l - 1.0)
  {
    assert m * (share * l) == m * share * l;
    CancelFactor(m * share, budget, l);
    MultiplyBound(m * share, budget, l - 1.0);
    ShareOfRest(m, share, l);
  }

  lemma ShareOfRest(m: real, share: real, l: real)
    ensures m * (share * l - share) == m * share * (l - 1.0)
  {
    assert share * l - share == share * (l - 1.0);
  }

  lemma CancelFactor(x: real, y: real, l: real)
    requires l > 0.0 && x * l >= y * l
    ensures x >= y
  {
    if x < y { MultiplyStrict(y - x, l); }
  }

  lemma MultiplyStrict(d: real, l: real)
    requires d > 0.0 && l > 0.0
    ensures d * l > 0.0
  {
  }

  lemma MultiplyBound(x: real, y: real, l: real)
    requires x >= y && l >= 0.0
    ensures x * l >= y * l && l * x >= l * y
  {
    assert (x - y) * l >= 0.0;
  }

  lemma OfferIsFair(budget: real, n: int, left: int, remaining: real)
    requires 1 <= left <= n && n as real * remaining >= budget * left as real
    ensures remaining / left as real >= budget / n as real
  {
    var l, m := left as real, n as real;
    var share, due := remaining / l, budget / m;
    assert share * l == remaining && due * m == budget;
    assert m * (share * l) >= due * m * l;
    assert (share * m) * l >= (due * m) * l;
    CancelFactor(share * m, due * m, l);
    CancelFactor(share, due, m);
  }

  /** With `left` emitters to go, at least their shares of the budget remain. */
  predicate Owed(budget: real, n: int, left: int, remaining: real) { n as real * remaining >= budget * left as real }

  /** The `i`-th emitter was offered an equal share of what the ones before it left, and waited no longer. */
  predicate FairShare(budget: real, n: nat, i: nat, offer: real, wait: real, spent: real)
    requires i < n
  {
    offer * (n - i) as real == budget - spent && offer >= budget / n as real && 0.0 <= wait <= offer
  }

  predicate FairOffer(budget: real, n: nat, i: nat, offers: seq<real>, waits: seq<real>)
    requires i < |offers| == |waits| && i < n
  {
    FairShare(budget, n, i, offers[i], waits[i], Total(waits[..i]))
  }

  lemma ShareStep(budget: real, n: nat, i: nat, remaining: real, offered: real, wait: real, spent: real)
    requires i < n && remaining == budget - spent && Owed(budget, n, n - i, remaining)
    requires offered == remaining / (n - i) as real && 0.0 <= wait <= offered
    ensures FairShare(budget, n, i, offered, wait, spent) && Owed(budget, n, n - i - 1, remaining - wait)
  {
    OfferIsFair(budget, n, n - i, remaining);
    ShareLeavesEnough(budget, n, n - i, remaining, wait);
  }

  lemma OfferStep(budget: real, n: nat, offers: seq<real>, waits: seq<real>, remaining: real, offered: real, wait: real)
    requires |offers| == |waits| < n && remaining == budget - Total(waits)
    requires Owed(budget, n, n - |offers|, remaining) && offered == remaining / (n - |offers|) as real
    requires 0.0 <= wait <= offered
    requires forall i | 0 <= i < |offers| :: FairOffer(budget, n, i, offers, waits)
    ensures forall i | 0 <= i < |offers| + 1 :: FairOffer(budget, n, i, offers + [offered], waits + [wait])
    ensures Owed(budget, n, n - |offers| - 1, remaining - wait) && remaining - wait == budget - Total(waits + [wait])
  {
    hide FairShare, Owed;
    var more := waits + [wait];
    assert more[..|waits|] == waits;
    ShareStep(budget, n, |offers|, remaining, offered, wait, Total(waits));
    forall i | 0 <= i < |offers| + 1 ensures FairOffer(budget, n, i, offers + [offered], more) {
      if i < |offers| { assert FairOffer(budget, n, i, offers, waits) && more[..i] == waits[..i]; }
    }
  }

  /**
   One pass over `n` active emitters with a positive budget: every emitter is
   offered at least its n-th part, and the waits together never exceed the budget.
   */
  method FlushPass(n: nat, budget: real, takes: (nat, real) -> real) returns (offers: seq<real>, waits: seq<real>)
    requires budget > 0.0 && n > 0
    requires forall i: nat, offered: real | offered >= 0.0 :: 0.0 <= takes(i, offered) <= offered
    ensures |offers| == |waits| == n
    ensures forall i | 0 <= i < n :: FairOffer(budget, n, i, offers, waits) && waits[i] == takes(i, offers[i])
    ensures Total(waits) <= budget
  {
    hide FairOffer, FairShare, Owed, Total;
    offers, waits := [], [];
    var remaining := budget;
    var index := 0;
    OwedAtFirst(budget, n);
    while index < n
      invariant 0 <= index <= n && |offers| == |waits| == index
      invariant remaining == budget - Total(waits) && Owed(budget, n, n - index, remaining)
      invariant forall i | 0 <= i < index :: FairOffer(budget, n, i, offers, waits) && waits[i] == takes(i, offers[i])
    {
      StillPositive(budget, n, n - index, remaining);
      if remaining <= 0.0 { return; }
      var offered := remaining / (n - index) as real;
      var wait := takes(index, offered);
      OfferStep(budget, n, offers, waits, remaining, offered, wait);
      offers, waits := offers + [offered], waits + [wait];
      remaining := remaining - wait;
      index := index + 1;
    }
    NothingOwed(budget, n, remaining);
  }

  lemma OwedAtFirst(budget: real, n: nat)
    ensures Owed(budget, n, n, budget) && Total([]) == 0.0
  {
  }

  lemma StillPositive(budget: real, n: int, left: int, remaining: real)
    requires 1 <= left <= n && budget > 0.0 && Owed(budget, n, left, remaining)
    ensures remaining > 0.0
  {
    MultiplyStrict(budget, left as real);
    if remaining <= 0.0 { MultiplyBound(0.0, remaining, n as real); }
  }

  lemma NothingOwed(budget: real, n: nat, remaining: real)
    requires n > 0 && Owed(budget, n, 0, remaining)
    ensures remaining >= 0.0
  {
    if remaining < 0.0 { MultiplyStrict(-remaining, n as real); }
  }

  // ------------------------------------------------------------------------ all passes

  /** How many emitters one pass finds active, and how long each wait takes. */
  datatype Round = Round(active: nat, takes: (nat, real) -> real)

  datatype Pass = Pass(offers: seq<real>, waits: seq<real>)

  ghost predicate Waits(r: Round) {
    forall i: nat, offered: real | offered >= 0.0 :: 0.0 <= r.takes(i, offered) <= offered
  }

  /** A pass offers everyone a fair share of what is left of the budget. */
  predicate IsPass(budget: real, r: Round, p: Pass) {
    && |p.offers| == |p.waits| == r.active && Total(p.waits) <= budget
    && forall i | 0 <= i < r.active ::
         FairOffer(budget, r.active, i, p.offers, p.waits) && p.waits[i] == r.takes(i, p.offers[i])
  }

  function Spent(passes: seq<Pass>): real {
    if passes == [] then 0.0 else Spent(passes[..|passes| - 1]) + Total(passes[|passes| - 1].waits)
  }

  /** The `j`-th pass began with somebody active and some of the budget left, and shared that. */
  predicate SharesRest(budget: real, rounds: seq<Round>, passes: seq<Pass>, j: nat)
    requires j < |passes| <= |rounds|
  {
    var left := budget - Spent(passes[..j]);
    rounds[j].active > 0 && left > 0.0 && IsPass(left, rounds[j], passes[j])
  }

  /**
   Repeat passes until nobody is active or the budget is spent.  However often
   emitters become active again, all waits of all passes stay within one budget, and
   every pass shares what the ones before it have left.
   */
  method FlushPending(budget: real, rounds: seq<Round>) returns (passes: seq<Pass>)
    requires budget >= 0.0 && forall j | 0 <= j < |rounds| :: Waits(rounds[j])
    ensures |passes| <= |rounds| && 0.0 <= Spent(passes) <= budget
    ensures forall j | 0 <= j < |passes| :: SharesRest(budget, rounds, passes, j)
    ensures |passes| < |rounds| ==> rounds[|passes|].active == 0 || Spent(passes) == budget
  {
    hide IsPass, SharesRest, Spent, Waits;
    passes := [];
    var spent := 0.0;
    NothingSpent();
    while |passes| < |rounds|
      invariant |passes| <= |rounds| && spent == Spent(passes) && 0.0 <= spent <= budget
      invariant forall j | 0 <= j < |passes| :: SharesRest(budget, rounds, passes, j)
      decreases |rounds| - |passes|
    {
      var r := rounds[|passes|];
      if r.active == 0 || spent >= budget { return; }
      var pass := RunPass(r, budget - spent);
      OneMorePass(budget, rounds, passes, pass);
      spent := spent + Total(pass.waits);
      passes := passes + [pass];
    }
  }

  method RunPass(r: Round, budget: real) returns (pass: Pass)
    requires Waits(r) && r.active > 0 && budget > 0.0
    ensures IsPass(budget, r, pass)
  {
    var offers, waits := FlushPass(r.active, budget, r.takes);
    return Pass(offers, waits);
  }

  lemma NothingSpent()
    ensures Spent([]) == 0.0
  {
  }

  lemma OneMorePass(budget: real, rounds: seq<Round>, passes: seq<Pass>, pass: Pass)
    requires |passes| < |rounds| && rounds[|passes|].active > 0 && Spent(passes) < budget
    requires IsPass(budget - Spent(passes), rounds[|passes|], pass)
    requires forall j | 0 <= j < |passes| :: SharesRest(budget, rounds, passes, j)
    ensures Spent(passes + [pass]) == Spent(passes) + Total(pass.waits)
    ensures 0.0 <= Total(pass.waits) <= budget - Spent(passes)
    ensures forall j | 0 <= j < |passes| + 1 :: SharesRest(budget, rounds, passes + [pass], j)
  {
    var more := passes + [pass];
    assert more[..|passes|] == passes;
    WaitsAreTimes(budget - Spent(passes), rounds[|passes|], pass, |pass.waits|);
    hide IsPass;
    forall j | 0 <= j < |more| ensures SharesRest(budget, rounds, more, j) {
      if j < |passes| { assert SharesRest(budget, rounds, passes, j) && more[..j] == passes[..j]; }
    }
  }

  lemma {:induction false} WaitsAreTimes(budget: real, r: Round, p: Pass, n: nat)
    requires IsPass(budget, r, p) && n <= |p.waits|
    ensures Total(p.waits[..n]) >= 0.0 && p.waits[..|p.waits|] == p.waits
  {
    if n > 0 {
      WaitsAreTimes(budget, r, p, n - 1);
      assert FairOffer(budget, r.active, n - 1, p.offers, p.waits);
      assert p.waits[..n][..n - 1] == p.waits[..n - 1];
    }
  }
}
