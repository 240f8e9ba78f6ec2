/** Least-busy selection over wrapping 8-bit counters with owned guards. */
module HttpPools {

  newtype uint8 = x: int | 0 <= x < 256

  /** `fetch_add(1)` and `fetch_sub(1)` on an `AtomicU8`. */
  function Inc8(c: uint8): uint8 { if c == 255 then 0 else c + 1 }
  function Dec8(c: uint8): uint8 { if c == 0 then 255 else c - 1 }

  /** `i` is the first position of the smallest value. */
  predicate IsLeftmostMin(c: seq<int>, i: int) {
    0 <= i < |c| && (forall j :: 0 <= j < |c| ==> c[i] <= c[j]) && (forall j :: 0 <= j < i ==> c[i] < c[j])
  }

  function Values(c: seq<uint8>): (r: seq<int>)
    ensures |r| == |c| && forall i :: 0 <= i < |c| ==> r[i] == c[i] as int
  {
    seq(|c|, i requires 0 <= i < |c| => c[i] as int)
  }

  /** The client that `get` selects. */
  function LeastBusy(c: seq<uint8>): (i: nat)
    requires c != []
    ensures IsLeftmostMin(Values(c), i)
  {
    if |c| == 1 then 0 else
    var last := |c| - 1;
    var b := LeastBusy(c[..last]);
    assert forall j :: 0 <= j < last ==> Values(c[..last])[j] == Values(c)[j];
    if c[last] < c[b] then last else b
  }

  class HttpPool {
    /** Cloned pools hold the same counters. */
    const active: array<uint8>

    constructor (size: nat)
      ensures fresh(active) && active[..] == seq(size, _ => 0)
    {
      active := new uint8[size](_ => 0);
    }

    constructor Clone(other: HttpPool)
      ensures active == other.active
    {
      active := other.active;
    }

    /** Starts from `u8::MAX` at index 0, so a pool of full counters yields index 0. */
    method LeastBusyIndex() returns (best: nat)
      requires active.Length >= 1
      ensures best == LeastBusy(active[..])
    {
      best := 0;
      var bestCount: uint8 := 255;
      for i := 0 to active.Length
        invariant best < active.Length
        invariant forall j :: 0 <= j < i ==> bestCount <= active[j]
        invariant (best < i && active[best] == bestCount && forall j :: 0 <= j < best ==> bestCount < active[j])
                  || (best == 0 && bestCount == 255)
      {
        if active[i] < bestCount {
          bestCount := active[i];
          best := i;
        }
      }
      ghost var c := Values(active[..]);
      assert IsLeftmostMin(c, best);
      LeftmostMinUnique(c, best, LeastBusy(active[..]));
    }

    method Get() returns (guard: nat)
      requires active.Length >= 1
      modifies active
      ensures guard == LeastBusy(old(active[..]))
      ensures active[..] == old(active[..])[guard := Inc8(old(active[guard]))]
    {
      guard := LeastBusyIndex();
      active[guard] := Inc8(active[guard]);
    }

    method First() returns (guard: nat)
      requires active.Length >= 1
      modifies active
      ensures guard == 0 && active[..] == old(active[..])[0 := Inc8(old(active[0]))]
    {
      guard := 0;
      active[0] := Inc8(active[0]);
    }

    /** Dropping the guard of client `guard`. */
    method Drop(guard: nat)
      requires guard < active.Length
      modifies active
      ensures active[..] == old(active[..])[guard := Dec8(old(active[guard]))]
    {
      active[guard] := Dec8(active[guard]);
    }
  }

  lemma LeftmostMinUnique(c: seq<int>, i: int, j: int)
    requires IsLeftmostMin(c, i) && IsLeftmostMin(c, j)
    ensures i == j
  {
    assert c[i] == c[j];
  }

  // ---- Runs ----

  /** The counters, and how many guards of each client are alive. */
  datatype State = State(counters: seq<uint8>, live: multiset<nat>)

  /** `Acquire(0)` is `first`; `Acquire(i)` is also a `get` whose scan was
      overtaken by other calls. Clones share counters, so they add no event. */
  datatype Event = Get | Acquire(i: nat) | Drop(i: nat)

  function Idle(size: nat): State {
    State(seq(size, _ => 0), multiset{})
  }

  predicate Enabled(s: State, e: Event) {
    match e
    case Get => s.counters != []
    case Acquire(i) => i < |s.counters|
    case Drop(i) => i < |s.counters| && i in s.live
  }

  function Take(s: State, i: nat): State
    requires i < |s.counters|
  {
    State(s.counters[i := Inc8(s.counters[i])], s.live + multiset{i})
  }

  function Step(s: State, e: Event): State
    requires Enabled(s, e)
  {
    match e
    case Get => Take(s, LeastBusy(s.counters))
    case Acquire(i) => Take(s, i)
    case Drop(i) => State(s.counters[i := Dec8(s.counters[i])], s.live - multiset{i})
  }

  predicate Valid(s: State, evs: seq<Event>)
    decreases |evs|
  {
    evs == [] || (Enabled(s, evs[0]) && Valid(Step(s, evs[0]), evs[1..]))
  }

  function Run(s: State, evs: seq<Event>): State
    requires Valid(s, evs)
    decreases |evs|
  {
    if evs == [] then s else Run(Step(s, evs[0]), evs[1..])
  }

  /** Dropping a guard undoes the `get` or `first` that took it, also across a wrap. */
  lemma DropUndoesTake(s: State, i: nat)
    requires i < |s.counters|
    ensures Enabled(Take(s, i), Drop(i)) && Step(Take(s, i), Drop(i)) == s
  {
    assert (s.live + multiset{i}) - multiset{i} == s.live;
    assert Dec8(Inc8(s.counters[i])) == s.counters[i];
  }

  /** Each counter is its number of live guards modulo 256. */
  ghost predicate Conserved(s: State, size: nat) {
    && |s.counters| == size
    && (forall i :: i in s.live ==> i < size)
    && (forall i :: 0 <= i < size ==> s.counters[i] as int == s.live[i] % 256)
  }

  lemma Mod256(n: nat)
    ensures (n + 1) % 256 == if n % 256 == 255 then 0 else n % 256 + 1
    ensures n >= 1 ==> (n - 1) % 256 == if n % 256 == 0 then 255 else n % 256 - 1
  {
  }

  lemma ConservedStep(s: State, size: nat, e: Event)
    requires Conserved(s, size) && Enabled(s, e)
    ensures Conserved(Step(s, e), size)
  {
    match e
    case Get => TakeConserved(s, size, LeastBusy(s.counters));
    case Acquire(i) => TakeConserved(s, size, i);
    case Drop(i) =>
      Mod256(s.live[i]);
      assert (s.live - multiset{i})[i] == s.live[i] - 1;
  }

  lemma TakeConserved(s: State, size: nat, i: nat)
    requires Conserved(s, size) && i < size
    ensures Conserved(Take(s, i), size)
  {
    Mod256(s.live[i]);
    assert (s.live + multiset{i})[i] == s.live[i] + 1;
  }

  lemma {:induction false} ConservedRun(s: State, size: nat, evs: seq<Event>)
    requires Conserved(s, size) && Valid(s, evs)
    ensures Conserved(Run(s, evs), size)
    decreases |evs|
  {
    if evs != [] {
      ConservedStep(s, size, evs[0]);
      ConservedRun(Step(s, evs[0]), size, evs[1..]);
    }
  }

  /** In every run of get, first, clone and drop, each counter is its live guards modulo 256. */
  lemma CountersCountGuards(size: nat, evs: seq<Event>)
    requires Valid(Idle(size), evs)
    ensures Conserved(Run(Idle(size), evs), size)
  {
    ConservedRun(Idle(size), size, evs);
  }

  // ---- Balance ----

  function CeilDiv(m: nat, n: nat): nat
    requires n >= 1
  {
    (m + n - 1) / n
  }

  /** At most `m` guards are alive after each event, and every guard came from an undisturbed `get`. */
  predicate BoundedGets(s: State, evs: seq<Event>, m: nat)
    requires Valid(s, evs)
    decreases |evs|
  {
    |s.live| <= m
    && (evs == [] || (!evs[0].Acquire? && BoundedGets(Step(s, evs[0]), evs[1..], m)))
  }

  /** A bag over `n` clients holding at least `k` of each has at least `k * n` elements. */
  lemma {:induction false} Pigeonhole(g: multiset<nat>, n: nat, k: nat)
    requires forall i :: 0 <= i < n ==> g[i] >= k
    ensures k * n <= |g|
    decreases n
  {
    if n > 0 {
      var rest := g[n - 1 := 0];
      Pigeonhole(rest, n - 1, k);
      assert |rest| == |g| - g[n - 1];
      assert k * (n - 1) + k == k * n;
    }
  }

  lemma QuotientBound(k: nat, n: nat, m: nat)
    requires n >= 1 && m >= 1 && k * n <= m - 1
    ensures k + 1 <= CeilDiv(m, n)
  {
    assert (k + 1) * n <= m + n - 1;
    var q, r := (m + n - 1) / n, (m + n - 1) % n;
    assert q * n + r == m + n - 1;
    assert (k + 1 - q) * n == (k + 1) * n - q * n < n;
  }

  lemma CeilFits(m: nat, n: nat)
    requires n >= 1 && m <= 255 * n
    ensures CeilDiv(m, n) <= 255
  {
    var q, r := (m + n - 1) / n, (m + n - 1) % n;
    assert q * n + r == m + n - 1;
    assert (q - 255) * n == q * n - 255 * n < n;
  }

  function TrueCounts(s: State): (r: seq<int>)
    ensures |r| == |s.counters| && forall i :: 0 <= i < |r| ==> r[i] == s.live[i]
  {
    seq(|s.counters|, i requires 0 <= i < |s.counters| => s.live[i])
  }

  /** Counters are exact and no client has more than its share. */
  ghost predicate Balanced(s: State, size: nat, share: nat) {
    && |s.counters| == size
    && (forall i :: i in s.live ==> i < size)
    && Values(s.counters) == TrueCounts(s)
    && (forall i :: 0 <= i < size ==> s.live[i] <= share)
  }

  /** `get` on exact counters takes from the first truly least busy client and stays within the share. */
  lemma GetStaysBalanced(s: State, size: nat, m: nat)
    requires 1 <= size && m <= 255 * size && Balanced(s, size, CeilDiv(m, size))
    requires |s.live| + 1 <= m
    ensures IsLeftmostMin(TrueCounts(s), LeastBusy(s.counters))
    ensures Balanced(Step(s, Get), size, CeilDiv(m, size))
  {
    var b := LeastBusy(s.counters);
    var c := TrueCounts(s);
    assert forall i :: 0 <= i < size ==> c[b] <= c[i] == s.live[i];
    Pigeonhole(s.live, size, s.live[b]);
    QuotientBound(s.live[b], size, m);
    CeilFits(m, size);
    assert s.counters[b] as int == s.live[b] < 255;
    var s' := Step(s, Get);
    assert forall i :: 0 <= i < size ==> Values(s'.counters)[i] == TrueCounts(s')[i];
  }

  lemma DropStaysBalanced(s: State, size: nat, share: nat, i: nat)
    requires Balanced(s, size, share) && Enabled(s, Drop(i))
    ensures Balanced(Step(s, Drop(i)), size, share)
  {
    var s' := Step(s, Drop(i));
    assert s.counters[i] as int == TrueCounts(s)[i] == s.live[i] > 0;
    assert forall k :: 0 <= k < size ==> Values(s'.counters)[k] == TrueCounts(s')[k];
  }

  lemma {:induction false} BalancedRun(s: State, size: nat, evs: seq<Event>, m: nat)
    requires 1 <= size && m <= 255 * size && Balanced(s, size, CeilDiv(m, size))
    requires Valid(s, evs) && BoundedGets(s, evs, m)
    ensures Balanced(Run(s, evs), size, CeilDiv(m, size))
    decreases |evs|
  {
    if evs != [] {
      var s' := Step(s, evs[0]);
      if evs[0].Get? {
        assert |s'.live| <= m;
        GetStaysBalanced(s, size, m);
      } else {
        DropStaysBalanced(s, size, CeilDiv(m, size), evs[0].i);
      }
      BalancedRun(s', size, evs[1..], m);
    }
  }

  /** If guards come only from `get` and at most `m <= 255 * size` are alive at
      once, no counter wraps, none exceeds `ceil(m / size)`, and the next `get`
      picks the first truly least busy client. */
  lemma PoolStaysBalanced(size: nat, evs: seq<Event>, m: nat)
    requires 1 <= size && m <= 255 * size
    requires Valid(Idle(size), evs) && BoundedGets(Idle(size), evs, m)
    ensures var s := Run(Idle(size), evs);
            && Balanced(s, size, CeilDiv(m, size))
            && IsLeftmostMin(TrueCounts(s), LeastBusy(s.counters))
  {
    var s := Idle(size);
    assert forall i :: 0 <= i < size ==> Values(s.counters)[i] == TrueCounts(s)[i];
    BalancedRun(s, size, evs, m);
  }

  // ---- Overlapping calls ----

  /** `get` in two steps: the scan selects a client, `fetch_add` takes it later.
      `chosen` holds the selections not yet taken. */
  datatype Busy = Busy(pool: State, chosen: multiset<nat>)

  datatype Move = Scan | Commit(i: nat) | Release(i: nat)

  predicate CanMove(b: Busy, m: Move) {
    match m
    case Scan => b.pool.counters != []
    case Commit(i) => i < |b.pool.counters| && i in b.chosen
    case Release(i) => Enabled(b.pool, Drop(i))
  }

  function Moved(b: Busy, m: Move): Busy
    requires CanMove(b, m)
  {
    match m
    case Scan => b.(chosen := b.chosen + multiset{LeastBusy(b.pool.counters)})
    case Commit(i) => Busy(Take(b.pool, i), b.chosen - multiset{i})
    case Release(i) => b.(pool := Step(b.pool, Drop(i)))
  }

  /** At most `k` calls overlap, and guards and calls together never exceed `m`. */
  predicate Limited(b: Busy, m: nat, k: nat) {
    |b.chosen| <= k && |b.pool.live| + |b.chosen| <= m
  }

  predicate LimitedRun(b: Busy, moves: seq<Move>, m: nat, k: nat)
    decreases |moves|
  {
    Limited(b, m, k)
    && (moves == [] || (CanMove(b, moves[0]) && LimitedRun(Moved(b, moves[0]), moves[1..], m, k)))
  }

  function MovedBy(b: Busy, moves: seq<Move>, m: nat, k: nat): Busy
    requires LimitedRun(b, moves, m, k)
    decreases |moves|
  {
    if moves == [] then b else MovedBy(Moved(b, moves[0]), moves[1..], m, k)
  }

  /** No client's guards and selections together exceed `(m - k) / size + k`. */
  function OverlapShare(size: nat, m: nat, k: nat): nat
    requires size >= 1 && k <= m
  {
    (m - k) / size + k
  }

  ghost predicate Spread(b: Busy, size: nat, share: nat) {
    && Balanced(b.pool, size, share)
    && (forall i :: i in b.chosen ==> i < size)
    && (forall i :: 0 <= i < size ==> b.pool.live[i] + b.chosen[i] <= share)
  }

  lemma FewerFit(a: nat, n: nat, size: nat, q: nat, k: nat)
    requires size >= 1 && q <= k && a * size <= n - q && k <= n
    ensures a + q <= OverlapShare(size, n, k)
  {
    var d := k - q;
    assert (a - d) * size == a * size - d * size;
    assert d * size >= d;
    assert (a - d) * size <= n - k;
    QuotientAtMost(a - d, size, n - k);
  }

  lemma QuotientAtMost(a: int, n: nat, m: nat)
    requires n >= 1 && a * n <= m
    ensures a <= m / n
  {
    var q := m / n;
    assert m < q * n + n;
    assert (a - q) * n == a * n - q * n;
    if a > q { PositiveMultiple(a - q, n); }
  }

  lemma PositiveMultiple(x: nat, n: nat)
    requires x >= 1
    ensures x * n >= n
  {
    assert x * n == (x - 1) * n + n;
  }

  /** A scan selects a client that is least busy at that moment. */
  lemma ScanSpread(b: Busy, size: nat, m: nat, k: nat)
    requires 1 <= size && 1 <= k <= m && Spread(b, size, OverlapShare(size, m, k))
    requires Limited(Moved(b, Scan), m, k)
    ensures Spread(Moved(b, Scan), size, OverlapShare(size, m, k))
  {
    var s, i := b.pool, LeastBusy(b.pool.counters);
    var c := TrueCounts(s);
    assert forall j :: 0 <= j < size ==> c[i] <= c[j] == s.live[j];
    Pigeonhole(s.live, size, s.live[i]);
    var b' := Moved(b, Scan);
    assert |b'.chosen| == |b.chosen| + 1;
    FewerFit(s.live[i], m, size, |b'.chosen|, k);
    AtMostAll(b'.chosen, i);
    assert forall j :: j != i ==> b'.chosen[j] == b.chosen[j];
  }

  lemma AtMostAll(g: multiset<nat>, i: nat)
    ensures g[i] <= |g|
  {
    assert |g[i := 0]| == |g| - g[i];
  }

  lemma CommitSpread(b: Busy, size: nat, share: nat, i: nat)
    requires share <= 255 && Spread(b, size, share) && CanMove(b, Commit(i))
    ensures Spread(Moved(b, Commit(i)), size, share)
  {
    var s, s' := b.pool, Take(b.pool, i);
    assert s.counters[i] as int == TrueCounts(s)[i] == s.live[i] < 255;
    assert forall j :: 0 <= j < size ==> Values(s'.counters)[j] == TrueCounts(s')[j];
    assert (b.chosen - multiset{i})[i] == b.chosen[i] - 1;
  }

  lemma ReleaseSpread(b: Busy, size: nat, share: nat, i: nat)
    requires Spread(b, size, share) && CanMove(b, Release(i))
    ensures Spread(Moved(b, Release(i)), size, share)
  {
    DropStaysBalanced(b.pool, size, share, i);
    assert forall j :: 0 <= j < size ==> (b.pool.live - multiset{i})[j] <= b.pool.live[j];
  }

  lemma LimitedStart(b: Busy, moves: seq<Move>, m: nat, k: nat)
    requires LimitedRun(b, moves, m, k)
    ensures Limited(b, m, k)
  {
  }

  lemma SpreadMove(b: Busy, size: nat, move: Move, m: nat, k: nat, share: nat)
    requires 1 <= size && 1 <= k <= m && share == OverlapShare(size, m, k) && share <= 255
    requires Spread(b, size, share) && CanMove(b, move) && Limited(Moved(b, move), m, k)
    ensures Spread(Moved(b, move), size, share)
  {
    match move
    case Scan => ScanSpread(b, size, m, k);
    case Commit(i) => CommitSpread(b, size, share, i);
    case Release(i) => ReleaseSpread(b, size, share, i);
  }

  lemma {:induction false} SpreadRun(b: Busy, size: nat, moves: seq<Move>, m: nat, k: nat, share: nat)
    requires 1 <= size && 1 <= k <= m && share == OverlapShare(size, m, k) && share <= 255
    requires Spread(b, size, share) && LimitedRun(b, moves, m, k)
    ensures Spread(MovedBy(b, moves, m, k), size, share)
    decreases |moves|
  {
    if moves != [] {
      LimitedStart(Moved(b, moves[0]), moves[1..], m, k);
      SpreadMove(b, size, moves[0], m, k, share);
      SpreadRun(Moved(b, moves[0]), size, moves[1..], m, k, share);
    }
  }

  /** With at most `k` overlapping calls, and guards and calls together at most
      `m`, no client ever has more than `(m - k) / size + k` live guards, and no
      counter wraps while that is at most 255. For `k == 1` this is `ceil(m / size)`. */
  lemma OverlapStaysBalanced(size: nat, moves: seq<Move>, m: nat, k: nat)
    requires 1 <= size && 1 <= k <= m && OverlapShare(size, m, k) <= 255
    requires LimitedRun(Busy(Idle(size), multiset{}), moves, m, k)
    ensures Balanced(MovedBy(Busy(Idle(size), multiset{}), moves, m, k).pool, size, OverlapShare(size, m, k))
    ensures OverlapShare(size, m, 1) == CeilDiv(m, size)
  {
    var s := Idle(size);
    assert forall i :: 0 <= i < size ==> Values(s.counters)[i] == TrueCounts(s)[i];
    SpreadRun(Busy(s, multiset{}), size, moves, m, k, OverlapShare(size, m, k));
    ShareOfOne(size, m);
  }

  lemma ShareOfOne(size: nat, m: nat)
    requires size >= 1 && m >= 1
    ensures OverlapShare(size, m, 1) == CeilDiv(m, size)
  {
    var q, r := (m - 1) / size, (m - 1) % size;
    assert q * size + r == m - 1;
    assert m + size - 1 == (q + 1) * size + r;
    QuotientIs(m + size - 1, size, q + 1, r);
  }

  lemma QuotientIs(x: nat, n: nat, q: nat, r: nat)
    requires n >= 1 && r < n && x == q * n + r
    ensures x / n == q
  {
    QuotientAtMost(q, n, x);
    var p := x / n;
    assert p * n <= x;
    assert (p - q) * n == p * n - q * n;
    if p > q { PositiveMultiple(p - q, n); }
  }

  /** The run of `n` calls of `first`. */
  function Firsts(n: nat): seq<Event> {
    if n == 0 then [] else [Acquire(0)] + Firsts(n - 1)
  }

  lemma {:induction false} FirstsRun(s: State, n: nat)
    requires s.counters != []
    ensures Valid(s, Firsts(n))
    ensures var r := Run(s, Firsts(n));
            |r.counters| == |s.counters| && r.live[0] == s.live[0] + n
            && forall i :: 1 <= i < |s.counters| ==> r.counters[i] == s.counters[i]
    decreases n
  {
    if n > 0 {
      assert Firsts(n)[1..] == Firsts(n - 1);
      FirstsRun(Step(s, Acquire(0)), n - 1);
    }
  }

  /** In every run the counters are exact as long as no client has 256 live
      guards, and only then. */
  lemma ExactIffBelow256(size: nat, evs: seq<Event>)
    requires Valid(Idle(size), evs)
    ensures var s := Run(Idle(size), evs);
            Values(s.counters) == TrueCounts(s) <==> forall i :: 0 <= i < size ==> s.live[i] < 256
  {
    CountersCountGuards(size, evs);
    ExactIff(Run(Idle(size), evs), size);
  }

  lemma ExactIff(s: State, size: nat)
    requires Conserved(s, size)
    ensures Values(s.counters) == TrueCounts(s) <==> forall i :: 0 <= i < size ==> s.live[i] < 256
  {
    var v, t := Values(s.counters), TrueCounts(s);
    forall i | 0 <= i < size ensures v[i] == t[i] <==> s.live[i] < 256 {
      SmallModulo(s.live[i]);
    }
  }

  lemma SmallModulo(n: nat)
    ensures n % 256 == n <==> n < 256
  {
  }

  /** `first` ignores the load: after 256 of them the counter reads zero again
      and `get` takes the client with 256 live guards for an idle one. */
  lemma FirstWraps(size: nat)
    requires 1 <= size
    ensures Valid(Idle(size), Firsts(256))
    ensures var s := Run(Idle(size), Firsts(256));
            |s.counters| == size && s.live[0] == 256 && s.counters[0] == 0 && LeastBusy(s.counters) == 0
  {
    FirstsRun(Idle(size), 256);
    CountersCountGuards(size, Firsts(256));
    var s := Run(Idle(size), Firsts(256));
    assert IsLeftmostMin(Values(s.counters), 0);
    LeftmostMinUnique(Values(s.counters), 0, LeastBusy(s.counters));
  }
}
