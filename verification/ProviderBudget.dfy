/** Per-provider daily and monthly budgets: counters that roll over in place,
    against a plain ledger of charges. */
module ProviderBudgets {
  import opened Seqs

  /** A local calendar date; equal dates are equal `%Y-%m-%d` strings. */
  datatype Date = Date(year: int, month: int, day: int)

  datatype Month = Month(year: int, month: int)

  function SameDay(d: Date): Date { d }
  function MonthOf(d: Date): Month { Month(d.year, d.month) }

  predicate NotAfter(a: Date, b: Date) {
    a.year < b.year || (a.year == b.year && (a.month < b.month || (a.month == b.month && a.day <= b.day)))
  }

  /** `DailySpend` and `MonthlySpend`: the period the cents belong to, none at first. */
  datatype Counter<P> = Counter(period: Option<P>, cents: nat)

  datatype Spend = Spend(today: Counter<Date>, thisMonth: Counter<Month>, total: nat)

  datatype Budget = Budget(daily: Option<nat>, monthly: Option<nat>)

  function NoSpend(): Spend { Spend(Counter(None, 0), Counter(None, 0), 0) }

  /** Roll a stale counter over, then add. */
  function Add<P(==)>(c: Counter<P>, now: P, cents: nat): Counter<P> {
    Counter(Some(now), (if c.period == Some(now) then c.cents else 0) + cents)
  }

  /** A stale counter counts as zero. */
  function Effective<P(==)>(c: Counter<P>, now: P): nat {
    if c.period == Some(now) then c.cents else 0
  }

  function Charged(s: Spend, now: Date, cents: nat): Spend {
    Spend(Add(s.today, now, cents), Add(s.thisMonth, MonthOf(now), cents), s.total + cents)
  }

  predicate Reached(limit: Option<nat>, spent: nat) {
    limit.Some? && spent >= limit.value
  }

  /** The verdict of `check_budget` on a provider's budget and spend. */
  predicate Within(b: Budget, s: Spend, now: Date) {
    !Reached(b.daily, Effective(s.today, now)) && !Reached(b.monthly, Effective(s.thisMonth, MonthOf(now)))
  }

  function SpendOf(m: map<string, Spend>, provider: string): Spend {
    if provider in m then m[provider] else NoSpend()
  }

  class ProviderBudgetStore {
    var configs: map<string, Budget>
    var spend: map<string, Spend>

    constructor ()
      ensures configs == map[] && spend == map[]
    {
      configs, spend := map[], map[];
    }

    method SetBudget(provider: string, b: Budget)
      modifies this`configs
      ensures configs == old(configs)[provider := b]
    {
      configs := configs[provider := b];
    }

    method CheckBudget(provider: string, now: Date) returns (ok: bool)
      ensures ok == (provider in configs ==> Within(configs[provider], SpendOf(spend, provider), now))
      ensures provider in configs ==>
                var b, s := configs[provider], SpendOf(spend, provider);
                var daily := if s.today.period == Some(now) then s.today.cents else 0;
                var monthly := if s.thisMonth.period == Some(Month(now.year, now.month)) then s.thisMonth.cents else 0;
                ok == ((b.daily.Some? ==> daily < b.daily.value) && (b.monthly.Some? ==> monthly < b.monthly.value))
    {
      if provider !in configs {
        return true;
      }
      var config := configs[provider];
      if config.daily.None? && config.monthly.None? {
        return true;
      }
      var daily, monthly := 0, 0;
      if provider in spend && spend[provider].today.period == Some(now) {
        daily := spend[provider].today.cents;
      }
      if provider in spend && spend[provider].thisMonth.period == Some(MonthOf(now)) {
        monthly := spend[provider].thisMonth.cents;
      }
      if config.daily.Some? && daily >= config.daily.value {
        return false;
      }
      if config.monthly.Some? && monthly >= config.monthly.value {
        return false;
      }
      return true;
    }

    method AccumulateSpend(provider: string, cents: nat, now: Date)
      modifies this`spend
      ensures spend == old(spend)[provider := Charged(SpendOf(old(spend), provider), now, cents)]
    {
      var entry := SpendOf(spend, provider);
      if entry.today.period != Some(now) {
        entry := entry.(today := Counter(Some(now), 0));
      }
      if entry.thisMonth.period != Some(MonthOf(now)) {
        entry := entry.(thisMonth := Counter(Some(MonthOf(now)), 0));
      }
      entry := entry.(today := entry.today.(cents := entry.today.cents + cents));
      entry := entry.(thisMonth := entry.thisMonth.(cents := entry.thisMonth.cents + cents));
      entry := entry.(total := entry.total + cents);
      spend := spend[provider := entry];
    }
  }

  // ---- One rolling counter against a ledger ----

  datatype Charge = Charge(date: Date, cents: nat)

  function CounterRun<P(==)>(cs: seq<Charge>, key: Date -> P): Counter<P> {
    if cs == [] then Counter(None, 0)
    else Add(CounterRun(cs[..|cs| - 1], key), key(cs[|cs| - 1].date), cs[|cs| - 1].cents)
  }

  /** The ledger's sum for one period. */
  function PeriodSum<P(==)>(cs: seq<Charge>, key: Date -> P, now: P): nat {
    if cs == [] then 0
    else PeriodSum(cs[..|cs| - 1], key, now) + if key(cs[|cs| - 1].date) == now then cs[|cs| - 1].cents else 0
  }

  function Total(cs: seq<Charge>): nat {
    if cs == [] then 0 else Total(cs[..|cs| - 1]) + cs[|cs| - 1].cents
  }

  /** No charge of another period follows a real charge of this one. */
  ghost predicate Settled<P(!new)>(cs: seq<Charge>, key: Date -> P, now: P) {
    forall i, j :: 0 <= i < j < |cs| && key(cs[i].date) == now && cs[i].cents > 0 ==> key(cs[j].date) == now
  }

  lemma {:induction false} ZeroSumIff<P(!new)>(cs: seq<Charge>, key: Date -> P, now: P)
    ensures PeriodSum(cs, key, now) == 0 <==>
            (forall i :: 0 <= i < |cs| && key(cs[i].date) == now ==> cs[i].cents == 0)
  {
    if cs != [] { ZeroSumIff(cs[..|cs| - 1], key, now); }
  }

  /** For any clock at all, the rolling counter agrees with the ledger's sum of
      a period exactly when that period is settled; otherwise it falls short. */
  lemma {:induction false} CounterAgreesIffSettled<P(!new)>(cs: seq<Charge>, key: Date -> P, now: P)
    ensures Effective(CounterRun(cs, key), now) <= PeriodSum(cs, key, now)
    ensures Effective(CounterRun(cs, key), now) == PeriodSum(cs, key, now) <==> Settled(cs, key, now)
  {
    if cs != [] {
      var n := |cs| - 1;
      var cs' := cs[..n];
      CounterAgreesIffSettled(cs', key, now);
      ZeroSumIff(cs', key, now);
      assert forall i :: 0 <= i < n ==> cs'[i] == cs[i];
      if key(cs[n].date) == now {
        SettledOneMore(cs, key, now);
      } else if Settled(cs, key, now) {
        assert forall i :: 0 <= i < n && key(cs[i].date) == now ==> !(cs[i].cents > 0 && key(cs[n].date) != now);
      }
    }
  }

  lemma SettledOneMore<P(!new)>(cs: seq<Charge>, key: Date -> P, now: P)
    requires cs != [] && key(cs[|cs| - 1].date) == now
    ensures Settled(cs, key, now) <==> Settled(cs[..|cs| - 1], key, now)
  {
    var cs' := cs[..|cs| - 1];
    if Settled(cs, key, now) {
      forall i, j | 0 <= i < j < |cs'| && key(cs'[i].date) == now && cs'[i].cents > 0 ensures key(cs'[j].date) == now {
        assert cs[i] == cs'[i] && cs[j] == cs'[j];
      }
    }
    if Settled(cs', key, now) {
      forall i, j | 0 <= i < j < |cs| && key(cs[i].date) == now && cs[i].cents > 0 ensures key(cs[j].date) == now {
        if j < |cs'| { assert cs[i] == cs'[i] && cs[j] == cs'[j]; }
      }
    }
  }

  // ---- The whole store against the ledger ----

  datatype Posting = Posting(provider: string, charge: Charge)

  function Posted(m: map<string, Spend>, p: Posting): map<string, Spend> {
    m[p.provider := Charged(SpendOf(m, p.provider), p.charge.date, p.charge.cents)]
  }

  /** The spend map after a run of `accumulate_spend` from an empty store. */
  function StoreRun(l: seq<Posting>): map<string, Spend> {
    if l == [] then map[] else Posted(StoreRun(l[..|l| - 1]), l[|l| - 1])
  }

  /** The part of the ledger that concerns one provider. */
  function ChargesOf(l: seq<Posting>, provider: string): seq<Charge> {
    if l == [] then []
    else ChargesOf(l[..|l| - 1], provider) + if l[|l| - 1].provider == provider then [l[|l| - 1].charge] else []
  }

  /** The three counters of a provider are independent counters over its own charges. */
  lemma {:induction false} StoreIsCounters(l: seq<Posting>, provider: string)
    ensures var cs := ChargesOf(l, provider);
            SpendOf(StoreRun(l), provider) == Spend(CounterRun(cs, SameDay), CounterRun(cs, MonthOf), Total(cs))
  {
    if l != [] {
      var l' := l[..|l| - 1];
      StoreIsCounters(l', provider);
      var cs, last := ChargesOf(l', provider), l[|l| - 1];
      if last.provider == provider {
        assert (cs + [last.charge])[..|cs|] == cs;
        assert ChargesOf(l, provider) == cs + [last.charge];
      } else {
        assert ChargesOf(l, provider) == cs;
      }
    }
  }

  /** The clock never goes back, and `now` is its current reading. */
  ghost predicate ClockForward(cs: seq<Charge>, now: Date) {
    && (forall i, j :: 0 <= i < j < |cs| ==> NotAfter(cs[i].date, cs[j].date))
    && (forall i :: 0 <= i < |cs| ==> NotAfter(cs[i].date, now))
  }

  lemma ForwardSettles(cs: seq<Charge>, now: Date)
    requires ClockForward(cs, now)
    ensures Settled(cs, SameDay, now) && Settled(cs, MonthOf, MonthOf(now))
  {
    forall i, j | 0 <= i < j < |cs| && MonthOf(cs[i].date) == MonthOf(now) && cs[i].cents > 0
      ensures MonthOf(cs[j].date) == MonthOf(now)
    {
      assert NotAfter(cs[i].date, cs[j].date) && NotAfter(cs[j].date, now);
    }
    forall i, j | 0 <= i < j < |cs| && SameDay(cs[i].date) == now && cs[i].cents > 0
      ensures SameDay(cs[j].date) == now
    {
      assert NotAfter(cs[i].date, cs[j].date) && NotAfter(cs[j].date, now);
    }
  }

  /** The clock compares dates by year, then month, then day. */
  lemma NotAfterIsOrder(a: Date, b: Date, c: Date)
    ensures a.year < b.year ==> NotAfter(a, b) && !NotAfter(b, a)
    ensures a.year == b.year && a.month < b.month ==> NotAfter(a, b) && !NotAfter(b, a)
    ensures a.year == b.year && a.month == b.month ==> (NotAfter(a, b) <==> a.day <= b.day)
    ensures NotAfter(a, b) && NotAfter(b, c) ==> NotAfter(a, c)
  {
  }

  /** Two dates share the monthly counter exactly when year and month agree. */
  lemma SameMonthIff(a: Date, b: Date)
    ensures MonthOf(a) == MonthOf(b) <==> a.year == b.year && a.month == b.month
  {
  }

  /** The cents charged on the dates that count. */
  function LedgerSum(cs: seq<Charge>, counts: Date -> bool): nat {
    if cs == [] then 0
    else LedgerSum(cs[..|cs| - 1], counts) + if counts(cs[|cs| - 1].date) then cs[|cs| - 1].cents else 0
  }

  function OnDay(now: Date): Date -> bool {
    (d: Date) => d.year == now.year && d.month == now.month && d.day == now.day
  }

  function InMonthOf(now: Date): Date -> bool {
    (d: Date) => d.year == now.year && d.month == now.month
  }

  lemma {:induction false} PeriodIsLedger<P(!new)>(cs: seq<Charge>, key: Date -> P, now: P, counts: Date -> bool)
    requires forall d :: counts(d) <==> key(d) == now
    ensures PeriodSum(cs, key, now) == LedgerSum(cs, counts)
  {
    if cs != [] { PeriodIsLedger(cs[..|cs| - 1], key, now, counts); }
  }

  /** With a forward clock today's and this month's counters are the cents
      charged on this day and in this year and month. */
  lemma ForwardCounters(cs: seq<Charge>, now: Date)
    requires ClockForward(cs, now)
    ensures Effective(CounterRun(cs, SameDay), now) == LedgerSum(cs, OnDay(now))
    ensures Effective(CounterRun(cs, MonthOf), MonthOf(now)) == LedgerSum(cs, InMonthOf(now))
  {
    ForwardSettles(cs, now);
    CounterAgreesIffSettled(cs, SameDay, now);
    CounterAgreesIffSettled(cs, MonthOf, MonthOf(now));
    PeriodIsLedger(cs, SameDay, now, OnDay(now));
    PeriodIsLedger(cs, MonthOf, MonthOf(now), InMonthOf(now));
  }

  /** With a forward clock `check_budget` refuses exactly when the cents charged
      today or this month have reached a set limit, and the total is the sum of
      all charges. */
  lemma CheckIsLedgerCheck(l: seq<Posting>, provider: string, b: Budget, now: Date)
    requires ClockForward(ChargesOf(l, provider), now)
    ensures var cs, s := ChargesOf(l, provider), SpendOf(StoreRun(l), provider);
            && s.total == Total(cs)
            && (Within(b, s, now) <==>
                && (b.daily.Some? ==> LedgerSum(cs, OnDay(now)) < b.daily.value)
                && (b.monthly.Some? ==> LedgerSum(cs, InMonthOf(now)) < b.monthly.value))
  {
    StoreIsCounters(l, provider);
    ForwardCounters(ChargesOf(l, provider), now);
  }

  /** The ledger of one provider is its postings, in order. */
  lemma {:induction false} ChargesInOrder(a: seq<Posting>, b: seq<Posting>, provider: string)
    ensures ChargesOf(a + b, provider) == ChargesOf(a, provider) + ChargesOf(b, provider)
    decreases |b|
  {
    if b == [] {
      assert a + b == a;
    } else {
      var b', p := b[..|b| - 1], b[|b| - 1];
      assert (a + b)[..|a + b| - 1] == a + b' && (a + b)[|a + b| - 1] == p;
      ChargesInOrder(a, b', provider);
    }
  }

  /** The period part of the record: both counters were last touched on one date. */
  predicate Nested(s: Spend) {
    && s.today.cents <= s.thisMonth.cents <= s.total
    && (match s.today.period
        case None => s.today.cents == 0 && s.thisMonth == Counter(None, 0)
        case Some(d) => s.thisMonth.period == Some(MonthOf(d)))
  }

  /** For any clock, today's cents never exceed the month's, nor the month's the total. */
  lemma {:induction false} AlwaysNested(l: seq<Posting>, provider: string)
    ensures Nested(SpendOf(StoreRun(l), provider))
  {
    if l != [] {
      AlwaysNested(l[..|l| - 1], provider);
      AlwaysNested(l[..|l| - 1], l[|l| - 1].provider);
    }
  }

  /** After a charge on another date, a clock that steps back to `d` finds
      nothing spent on it, whatever the ledger says. */
  lemma BackwardClockForgets(l: seq<Posting>, provider: string, d: Date, later: Charge)
    requires later.date != d && PeriodSum(ChargesOf(l, provider), SameDay, d) > 0
    ensures var l' := l + [Posting(provider, later)];
            Effective(SpendOf(StoreRun(l'), provider).today, d) == 0 < PeriodSum(ChargesOf(l', provider), SameDay, d)
  {
    var p := Posting(provider, later);
    assert (l + [p])[..|l|] == l;
    var cs := ChargesOf(l, provider);
    assert ChargesOf(l + [p], provider) == cs + [later];
    assert (cs + [later])[..|cs|] == cs;
  }
}
