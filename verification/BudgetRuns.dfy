/** Admission by `check_budget` with requests in flight: how far a provider's
    spend can overshoot its limit. */
module BudgetRuns {
  import opened Seqs
  import opened ProviderBudgets

  /** At most `n` requests in flight, each costing at most `c` cents. */
  datatype Setup = Setup(budget: Budget, n: nat, c: nat)

  datatype Sys = Sys(spend: Spend, inFlight: nat, now: Date)

  datatype Event = Admit | Complete(cents: nat) | Tick(to: Date)

  predicate Enabled(x: Setup, s: Sys, e: Event) {
    match e
    case Admit => s.inFlight < x.n && Within(x.budget, s.spend, s.now)
    case Complete(cents) => s.inFlight > 0 && cents <= x.c
    case Tick(to) => NotAfter(s.now, to)
  }

  function Step(x: Setup, s: Sys, e: Event): Sys
    requires Enabled(x, s, e)
  {
    match e
    case Admit => s.(inFlight := s.inFlight + 1)
    case Complete(cents) => s.(spend := Charged(s.spend, s.now, cents), inFlight := s.inFlight - 1)
    case Tick(to) => s.(now := to)
  }

  predicate Valid(x: Setup, s: Sys, evs: seq<Event>)
    decreases |evs|
  {
    evs == [] || (Enabled(x, s, evs[0]) && Valid(x, Step(x, s, evs[0]), evs[1..]))
  }

  function Run(x: Setup, s: Sys, evs: seq<Event>): Sys
    requires Valid(x, s, evs)
    decreases |evs|
  {
    if evs == [] then s else Run(x, Step(x, s, evs[0]), evs[1..])
  }

  function Start(now: Date): Sys { Sys(NoSpend(), 0, now) }

  function Today(s: Sys): nat { Effective(s.spend.today, s.now) }
  function ThisMonth(s: Sys): nat { Effective(s.spend.thisMonth, MonthOf(s.now)) }

  /** Spend plus what the requests in flight may still cost stays below the bound. */
  predicate Covered(x: Setup, limit: Option<nat>, spent: nat, inFlight: nat) {
    limit.Some? && limit.value >= 1 ==> spent + inFlight * x.c <= limit.value - 1 + x.n * x.c
  }

  ghost predicate Inv(x: Setup, s: Sys) {
    && s.inFlight <= x.n
    && Covered(x, x.budget.daily, Today(s), s.inFlight)
    && Covered(x, x.budget.monthly, ThisMonth(s), s.inFlight)
    && (match s.spend.today.period
        case None => s.spend.thisMonth.period == None
        case Some(d) => NotAfter(d, s.now) && s.spend.thisMonth.period == Some(MonthOf(d)))
  }

  lemma Times(a: nat, b: nat, c: nat)
    requires a <= b
    ensures a * c <= b * c
    ensures (a + 1) * c == a * c + c
  {
  }

  lemma AdmitCovered(x: Setup, limit: Option<nat>, spent: nat, inFlight: nat)
    requires inFlight < x.n && !Reached(limit, spent)
    ensures Covered(x, limit, spent, inFlight + 1)
  {
    Times(inFlight + 1, x.n, x.c);
  }

  lemma CompleteCovered(x: Setup, limit: Option<nat>, spent: nat, inFlight: nat, cents: nat)
    requires Covered(x, limit, spent, inFlight) && inFlight > 0 && cents <= x.c
    ensures Covered(x, limit, spent + cents, inFlight - 1)
  {
    Times(inFlight - 1, inFlight, x.c);
  }

  lemma FreshCovered(x: Setup, limit: Option<nat>, inFlight: nat)
    requires inFlight <= x.n
    ensures Covered(x, limit, 0, inFlight)
  {
    Times(inFlight, x.n, x.c);
  }

  /** A new date leaves each effective spend or resets it. */
  lemma TickInv(x: Setup, s: Sys, to: Date)
    requires Inv(x, s) && NotAfter(s.now, to)
    ensures Inv(x, s.(now := to))
  {
    var s' := s.(now := to);
    FreshCovered(x, x.budget.daily, s.inFlight);
    FreshCovered(x, x.budget.monthly, s.inFlight);
    assert Today(s') == Today(s) || Today(s') == 0;
    assert ThisMonth(s') == ThisMonth(s) || ThisMonth(s') == 0;
  }

  lemma CompleteInv(x: Setup, s: Sys, cents: nat)
    requires Inv(x, s) && Enabled(x, s, Complete(cents))
    ensures Inv(x, Step(x, s, Complete(cents)))
  {
    CompleteCovered(x, x.budget.daily, Today(s), s.inFlight, cents);
    CompleteCovered(x, x.budget.monthly, ThisMonth(s), s.inFlight, cents);
    NotAfterIsOrder(s.now, s.now, s.now);
  }

  lemma InvStep(x: Setup, s: Sys, e: Event)
    requires Inv(x, s) && Enabled(x, s, e)
    ensures Inv(x, Step(x, s, e))
  {
    match e
    case Admit =>
      AdmitCovered(x, x.budget.daily, Today(s), s.inFlight);
      AdmitCovered(x, x.budget.monthly, ThisMonth(s), s.inFlight);
    case Complete(cents) => CompleteInv(x, s, cents);
    case Tick(to) => TickInv(x, s, to);
  }

  lemma {:induction false} InvRun(x: Setup, s: Sys, evs: seq<Event>)
    requires Inv(x, s) && Valid(x, s, evs)
    ensures Inv(x, Run(x, s, evs))
    decreases |evs|
  {
    if evs != [] {
      InvStep(x, s, evs[0]);
      InvRun(x, Step(x, s, evs[0]), evs[1..]);
    }
  }

  /** In every interleaving of admissions, completions and day changes, spend
      never exceeds the limit by more than `n * c - 1` cents. */
  lemma OvershootBound(x: Setup, now: Date, evs: seq<Event>)
    requires Valid(x, Start(now), evs)
    ensures var s := Run(x, Start(now), evs);
            && (x.budget.daily.Some? && x.budget.daily.value >= 1 ==>
                  Today(s) <= x.budget.daily.value - 1 + x.n * x.c)
            && (x.budget.monthly.Some? && x.budget.monthly.value >= 1 ==>
                  ThisMonth(s) <= x.budget.monthly.value - 1 + x.n * x.c)
  {
    FreshCovered(x, x.budget.daily, 0);
    FreshCovered(x, x.budget.monthly, 0);
    InvRun(x, Start(now), evs);
    Times(0, Run(x, Start(now), evs).inFlight, x.c);
  }

  // ---- The bound on the ledger ----

  /** What the run charges, with the date of each completion. */
  function Spent(x: Setup, s: Sys, evs: seq<Event>): seq<Charge>
    requires Valid(x, s, evs)
    decreases |evs|
  {
    if evs == [] then []
    else (if evs[0].Complete? then [Charge(s.now, evs[0].cents)] else []) + Spent(x, Step(x, s, evs[0]), evs[1..])
  }

  ghost predicate DayWithin(x: Setup, cs: seq<Charge>, d: Date) {
    x.budget.daily.Some? && x.budget.daily.value >= 1 ==>
      LedgerSum(cs, OnDay(d)) <= x.budget.daily.value - 1 + x.n * x.c
  }

  ghost predicate MonthWithin(x: Setup, cs: seq<Charge>, d: Date) {
    x.budget.monthly.Some? && x.budget.monthly.value >= 1 ==>
      LedgerSum(cs, InMonthOf(d)) <= x.budget.monthly.value - 1 + x.n * x.c
  }

  /** The counters are those of the charges so far, and no day or month of
      them exceeds the bound. */
  ghost predicate Ledgered(x: Setup, s: Sys, cs: seq<Charge>) {
    && s.spend == Spend(CounterRun(cs, SameDay), CounterRun(cs, MonthOf), Total(cs))
    && ClockForward(cs, s.now)
    && (forall d :: DayWithin(x, cs, d))
    && (forall d :: MonthWithin(x, cs, d))
  }

  lemma CompleteLedgered(x: Setup, s: Sys, cs: seq<Charge>, cents: nat)
    requires Inv(x, s) && Ledgered(x, s, cs) && Enabled(x, s, Complete(cents))
    ensures Ledgered(x, Step(x, s, Complete(cents)), cs + [Charge(s.now, cents)])
  {
    var s', cs' := Step(x, s, Complete(cents)), cs + [Charge(s.now, cents)];
    InvStep(x, s, Complete(cents));
    Times(0, s'.inFlight, x.c);
    assert cs'[..|cs|] == cs;
    NotAfterIsOrder(s.now, s.now, s.now);
    ForwardCounters(cs', s'.now);
    forall d ensures DayWithin(x, cs', d) {
      assert DayWithin(x, cs, d);
      if OnDay(d)(s.now) { assert d == s.now; }
    }
    forall d ensures MonthWithin(x, cs', d) {
      assert MonthWithin(x, cs, d);
      if InMonthOf(d)(s.now) {
        PeriodIsLedger(cs', MonthOf, MonthOf(s.now), InMonthOf(d));
        PeriodIsLedger(cs', MonthOf, MonthOf(s.now), InMonthOf(s.now));
      }
    }
  }

  lemma {:induction false} LedgeredRun(x: Setup, s: Sys, cs: seq<Charge>, evs: seq<Event>)
    requires Inv(x, s) && Ledgered(x, s, cs) && Valid(x, s, evs)
    ensures Ledgered(x, Run(x, s, evs), cs + Spent(x, s, evs))
    decreases |evs|
  {
    if evs == [] {
      assert cs + [] == cs;
    } else {
      var s', rest := Step(x, s, evs[0]), evs[1..];
      InvStep(x, s, evs[0]);
      match evs[0]
      case Complete(cents) =>
        CompleteLedgered(x, s, cs, cents);
        LedgeredRun(x, s', cs + [Charge(s.now, cents)], rest);
        assert (cs + [Charge(s.now, cents)]) + Spent(x, s', rest) == cs + ([Charge(s.now, cents)] + Spent(x, s', rest));
      case _ =>
        forall i | 0 <= i < |cs| ensures NotAfter(cs[i].date, s'.now) {
          NotAfterIsOrder(cs[i].date, s.now, s'.now);
        }
        LedgeredRun(x, s', cs, rest);
        assert [] + Spent(x, s', rest) == Spent(x, s', rest);
    }
  }

  /** In every run, on no day and in no month of it, past or current, do the
      charges of the run exceed the limit by more than `n * c - 1` cents. */
  lemma NoPeriodOverspent(x: Setup, now: Date, evs: seq<Event>, d: Date)
    requires Valid(x, Start(now), evs)
    ensures var cs := Spent(x, Start(now), evs);
            && (x.budget.daily.Some? && x.budget.daily.value >= 1 ==>
                  LedgerSum(cs, OnDay(d)) <= x.budget.daily.value - 1 + x.n * x.c)
            && (x.budget.monthly.Some? && x.budget.monthly.value >= 1 ==>
                  LedgerSum(cs, InMonthOf(d)) <= x.budget.monthly.value - 1 + x.n * x.c)
  {
    FreshCovered(x, x.budget.daily, 0);
    FreshCovered(x, x.budget.monthly, 0);
    Times(0, x.n, x.c);
    forall d ensures DayWithin(x, [], d) && MonthWithin(x, [], d) {
    }
    LedgeredRun(x, Start(now), [], evs);
    var cs := Spent(x, Start(now), evs);
    assert [] + cs == cs;
    assert DayWithin(x, cs, d) && MonthWithin(x, cs, d);
  }

  // ---- The bound is attained ----

  lemma Unroll(x: Setup, s: Sys, e: Event, rest: seq<Event>)
    requires Enabled(x, s, e) && Valid(x, Step(x, s, e), rest)
    ensures Valid(x, s, [e] + rest) && Run(x, s, [e] + rest) == Run(x, Step(x, s, e), rest)
  {
    assert ([e] + rest)[1..] == rest;
  }

  /** The limited period: this month or today. */
  function Watched(s: Sys, monthly: bool): nat { if monthly then ThisMonth(s) else Today(s) }

  /** A budget with one limit only. */
  function OneLimit(limit: nat, monthly: bool): Budget {
    if monthly then Budget(None, Some(limit)) else Budget(Some(limit), None)
  }

  /** Complete everything in flight at full cost. */
  lemma {:induction false} FinishAll(x: Setup, s: Sys, monthly: bool) returns (evs: seq<Event>)
    ensures Valid(x, s, evs) && Watched(Run(x, s, evs), monthly) == Watched(s, monthly) + s.inFlight * x.c
    decreases s.inFlight
  {
    if s.inFlight == 0 {
      evs := [];
    } else {
      var rest := FinishAll(x, Step(x, s, Complete(x.c)), monthly);
      evs := [Complete(x.c)] + rest;
      Unroll(x, s, Complete(x.c), rest);
      Times(s.inFlight - 1, s.inFlight, x.c);
    }
  }

  /** Admit until `n` are in flight, then finish them. */
  lemma {:induction false} FillUp(x: Setup, s: Sys, monthly: bool) returns (evs: seq<Event>)
    requires s.inFlight <= x.n && Within(x.budget, s.spend, s.now)
    ensures Valid(x, s, evs) && Watched(Run(x, s, evs), monthly) == Watched(s, monthly) + x.n * x.c
    decreases x.n - s.inFlight
  {
    if s.inFlight == x.n {
      evs := FinishAll(x, s, monthly);
    } else {
      var rest := FillUp(x, Step(x, s, Admit), monthly);
      evs := [Admit] + rest;
      Unroll(x, s, Admit, rest);
    }
  }

  /** Spend up to one cent below the limit, a cent at a time, then fill up. */
  lemma {:induction false} SpendThenFill(x: Setup, s: Sys, limit: nat, monthly: bool) returns (evs: seq<Event>)
    requires x.n >= 1 && x.c >= 1 && s.inFlight == 0 && x.budget == OneLimit(limit, monthly)
    requires Watched(s, monthly) < limit
    ensures Valid(x, s, evs) && Watched(Run(x, s, evs), monthly) == limit - 1 + x.n * x.c
    decreases limit - Watched(s, monthly)
  {
    if Watched(s, monthly) + 1 == limit {
      evs := FillUp(x, s, monthly);
    } else {
      var s1 := Step(x, s, Admit);
      var s2 := Step(x, s1, Complete(1));
      var rest := SpendThenFill(x, s2, limit, monthly);
      Unroll(x, s1, Complete(1), rest);
      Unroll(x, s, Admit, [Complete(1)] + rest);
      evs := [Admit] + ([Complete(1)] + rest);
    }
  }

  /** For every limit, daily or monthly, and every concurrency and cost there
      is a run that overshoots by exactly the bound. */
  lemma OvershootAttained(limit: nat, monthly: bool, n: nat, c: nat, now: Date)
    requires limit >= 1 && n >= 1 && c >= 1
    ensures var x := Setup(OneLimit(limit, monthly), n, c);
            exists evs :: Valid(x, Start(now), evs) && Watched(Run(x, Start(now), evs), monthly) == limit - 1 + n * c
  {
    var evs := SpendThenFill(Setup(OneLimit(limit, monthly), n, c), Start(now), limit, monthly);
  }
}
