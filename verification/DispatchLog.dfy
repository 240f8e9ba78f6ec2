/** The dispatch log: a bounded buffer with retroactive token updates, and the
    aggregation of usage into hourly buckets. */
module DispatchLogs {
  import opened Seqs

  const NANOS_PER_HOUR := 3600 * 1000000000

  datatype Log = Log(
    id: nat,
    timestamp: int,
    model: string,
    channel: nat,
    success: bool,
    input: Option<nat>,
    output: Option<nat>,
    cacheHit: Option<nat>,
    cacheMiss: Option<nat>)

  datatype Tokens = Tokens(input: nat, output: nat, cacheHit: Option<nat>, cacheMiss: Option<nat>)

  /** Cache counts are overwritten only by known values. */
  function WithTokens(l: Log, t: Tokens): Log {
    l.(input := Some(t.input), output := Some(t.output),
       cacheHit := if t.cacheHit.Some? then t.cacheHit else l.cacheHit,
       cacheMiss := if t.cacheMiss.Some? then t.cacheMiss else l.cacheMiss)
  }

  /** Updates the newest entry with the given id, if there is one. */
  function UpdateNewest(s: seq<Log>, id: nat, t: Tokens): (r: seq<Log>)
    ensures |r| == |s|
  {
    if s == [] then []
    else
      var n := |s| - 1;
      if s[n].id == id then s[n := WithTokens(s[n], t)]
      else UpdateNewest(s[..n], id, t) + [s[n]]
  }

  /** An update replaces the newest entry with that id, if there is one: both
      token counts are set, a cache count only if it is known, and identity,
      time, model, channel and outcome stay. */
  lemma {:induction false} UpdatedEntry(s: seq<Log>, id: nat, t: Tokens, i: nat)
    requires i < |s| && s[i].id == id && forall j :: i < j < |s| ==> s[j].id != id
    ensures var l := s[i];
            UpdateNewest(s, id, t) ==
            s[i := Log(l.id, l.timestamp, l.model, l.channel, l.success, Some(t.input), Some(t.output),
                       if t.cacheHit == None then l.cacheHit else t.cacheHit,
                       if t.cacheMiss == None then l.cacheMiss else t.cacheMiss)]
  {
    var n := |s| - 1;
    if i < n {
      UpdatedEntry(s[..n], id, t, i);
      assert s == s[..n] + [s[n]];
    }
  }

  lemma {:induction false} NothingToUpdate(s: seq<Log>, id: nat, t: Tokens)
    requires forall j :: 0 <= j < |s| ==> s[j].id != id
    ensures UpdateNewest(s, id, t) == s
  {
    if s != [] { NothingToUpdate(s[..|s| - 1], id, t); }
  }

  // ---- Refinement of the unbounded log ----

  datatype Op = Append(log: Log) | Update(id: nat, tokens: Tokens)

  function Bounded(max: nat, ops: seq<Op>): seq<Log> {
    if ops == [] then [] else
    var s := Bounded(max, ops[..|ops| - 1]);
    match ops[|ops| - 1]
    case Append(l) => RingPush(max, s, l)
    case Update(id, t) => UpdateNewest(s, id, t)
  }

  function Unbounded(ops: seq<Op>): seq<Log> {
    if ops == [] then [] else
    var s := Unbounded(ops[..|ops| - 1]);
    match ops[|ops| - 1]
    case Append(l) => s + [l]
    case Update(id, t) => UpdateNewest(s, id, t)
  }

  lemma UpdateLastOne(s: seq<Log>, l: Log, id: nat, t: Tokens)
    ensures UpdateNewest(s + [l], id, t) ==
            if l.id == id then s + [WithTokens(l, t)] else UpdateNewest(s, id, t) + [l]
  {
    assert (s + [l])[..|s|] == s;
  }

  lemma TailLastOne<T>(n: nat, s: seq<T>, x: T)
    requires n > 0
    ensures Last(n, s + [x]) == Last(n - 1, s) + [x]
  {
  }

  /** Updating the newest match commutes with forgetting old entries, whether
      or not the match has been evicted. */
  lemma {:induction false} UpdateTail(n: nat, s: seq<Log>, id: nat, t: Tokens)
    ensures UpdateNewest(Last(n, s), id, t) == Last(n, UpdateNewest(s, id, t))
    decreases |s|
  {
    if s != [] && n > 0 {
      var s', l := s[..|s| - 1], s[|s| - 1];
      assert s == s' + [l];
      UpdateTail(n - 1, s', id, t);
      UpdateLastOne(s', l, id, t);
      TailLastOne(n, s', l);
      UpdateLastOne(Last(n - 1, s'), l, id, t);
      TailLastOne(n, s', WithTokens(l, t));
      TailLastOne(n, UpdateNewest(s', id, t), l);
    }
  }

  /** After any run of `log` and `update_log_tokens` the buffer is the newest
      part of the unbounded log with the same updates. */
  lemma {:induction false} BufferRefinesLog(max: nat, ops: seq<Op>)
    ensures Bounded(max, ops) == Last(Capacity(max), Unbounded(ops))
  {
    if ops != [] {
      var ops' := ops[..|ops| - 1];
      BufferRefinesLog(max, ops');
      match ops[|ops| - 1]
      case Append(l) => RingPushIsTail(max, Unbounded(ops'), l);
      case Update(id, t) => UpdateTail(Capacity(max), Unbounded(ops'), id, t);
    }
  }

  // ---- Usage ----

  datatype Usage = Usage(input: nat, output: nat, cacheHit: nat, cacheMiss: nat, requests: nat)

  function Zero(): Usage { Usage(0, 0, 0, 0, 0) }

  function Plus(a: Usage, b: Usage): Usage {
    Usage(a.input + b.input, a.output + b.output, a.cacheHit + b.cacheHit, a.cacheMiss + b.cacheMiss,
          a.requests + b.requests)
  }

  function OrZero(o: Option<nat>): nat { if o.Some? then o.value else 0 }

  function UsageOf(l: Log): Usage {
    Usage(OrZero(l.input), OrZero(l.output), OrZero(l.cacheHit), OrZero(l.cacheMiss), 1)
  }

  function Sum(s: seq<Log>): Usage {
    if s == [] then Zero() else Plus(Sum(s[..|s| - 1]), UsageOf(s[|s| - 1]))
  }

  /** Successful, recent enough, and not a streaming placeholder. */
  predicate Counts(l: Log, cutoff: int) {
    l.success && l.timestamp >= cutoff && (l.input.Some? || l.output.Some?)
  }

  function Matching(s: seq<Log>, cutoff: int): seq<Log> {
    if s == [] then []
    else Matching(s[..|s| - 1], cutoff) + if Counts(s[|s| - 1], cutoff) then [s[|s| - 1]] else []
  }

  type Key = (int, nat, string)

  /** The start of the hour, the channel and the model. */
  function KeyOf(l: Log): Key {
    (l.timestamp - l.timestamp % NANOS_PER_HOUR, l.channel, l.model)
  }

  /** The direct sum over the entries of one bucket. */
  function SumOf(s: seq<Log>, k: Key): Usage {
    if s == [] then Zero()
    else Plus(SumOf(s[..|s| - 1], k), if KeyOf(s[|s| - 1]) == k then UsageOf(s[|s| - 1]) else Zero())
  }

  /** Each bucket of the map is the direct sum of its own entries, and there is
      a bucket exactly where there is an entry. */
  predicate BucketsOf(s: seq<Log>, buckets: map<Key, Usage>) {
    && (forall i :: 0 <= i < |s| ==> KeyOf(s[i]) in buckets)
    && (forall k :: k in buckets ==> buckets[k] == SumOf(s, k) && buckets[k].requests >= 1)
  }

  predicate Distinct(order: seq<Key>) {
    forall i, j :: 0 <= i < j < |order| ==> order[i] != order[j]
  }

  /** The total over the buckets listed in `order`. */
  function TotalOver(buckets: map<Key, Usage>, order: seq<Key>): Usage
    requires forall k :: k in order ==> k in buckets
  {
    if order == [] then Zero()
    else Plus(TotalOver(buckets, order[..|order| - 1]), buckets[order[|order| - 1]])
  }

  function SumsOver(s: seq<Log>, order: seq<Key>): Usage {
    if order == [] then Zero() else Plus(SumsOver(s, order[..|order| - 1]), SumOf(s, order[|order| - 1]))
  }

  lemma {:induction false} SumsOverOneMore(s: seq<Log>, l: Log, order: seq<Key>)
    requires Distinct(order)
    ensures SumsOver(s + [l], order) == Plus(SumsOver(s, order), if KeyOf(l) in order then UsageOf(l) else Zero())
  {
    assert (s + [l])[..|s|] == s;
    if order != [] {
      var n := |order| - 1;
      SumsOverOneMore(s, l, order[..n]);
      assert KeyOf(l) in order <==> KeyOf(l) in order[..n] || KeyOf(l) == order[n];
      assert order[n] !in order[..n];
    }
  }

  lemma AddNothing(u: Usage, s: seq<Log>, k: Key)
    requires |s| == 0
    ensures Plus(u, SumOf(s, k)) == u
  {
  }

  lemma {:induction false} SumsOverNothing(s: seq<Log>, order: seq<Key>)
    requires |s| == 0
    ensures SumsOver(s, order) == Zero()
  {
    if order != [] {
      var n := |order| - 1;
      SumsOverNothing(s, order[..n]);
      AddNothing(SumsOver(s, order[..n]), s, order[n]);
    }
  }

  /** Any enumeration of the keys, each once, adds up to the direct sum: every
      entry is in exactly one bucket. */
  lemma {:induction false} SumsOverAll(s: seq<Log>, order: seq<Key>)
    requires Distinct(order) && forall i :: 0 <= i < |s| ==> KeyOf(s[i]) in order
    ensures SumsOver(s, order) == Sum(s)
  {
    if s == [] {
      SumsOverNothing(s, order);
    } else {
      var n := |s| - 1;
      SumsOverAll(s[..n], order);
      SumsOverOneMore(s[..n], s[n], order);
      assert s[..n] + [s[n]] == s;
    }
  }

  lemma {:induction false} TotalIsSums(s: seq<Log>, buckets: map<Key, Usage>, order: seq<Key>)
    requires BucketsOf(s, buckets) && forall k :: k in order ==> k in buckets
    ensures TotalOver(buckets, order) == SumsOver(s, order)
  {
    if order != [] {
      var n := |order| - 1;
      assert order[n] in order && forall k :: k in order[..n] ==> k in order;
      TotalIsSums(s, buckets, order[..n]);
    }
  }

  lemma AddToBucket(s: seq<Log>, l: Log, buckets: map<Key, Usage>)
    requires BucketsOf(s, buckets)
    ensures var k := KeyOf(l);
            BucketsOf(s + [l], buckets[k := Plus(if k in buckets then buckets[k] else Zero(), UsageOf(l))])
  {
    assert (s + [l])[..|s|] == s;
    if KeyOf(l) !in buckets { AbsentKeySum(s, KeyOf(l)); }
  }

  lemma {:induction false} AbsentKeySum(s: seq<Log>, k: Key)
    requires forall i :: 0 <= i < |s| ==> KeyOf(s[i]) != k
    ensures SumOf(s, k) == Zero()
  {
    if s != [] { AbsentKeySum(s[..|s| - 1], k); }
  }

  // ---- Usage read off the log itself ----

  function SumWhere(s: seq<Log>, counts: Log -> bool, amount: Log -> nat): nat {
    if s == [] then 0
    else SumWhere(s[..|s| - 1], counts, amount) + if counts(s[|s| - 1]) then amount(s[|s| - 1]) else 0
  }

  function InputTokens(): Log -> nat { (l: Log) => if l.input == None then 0 else l.input.value }
  function OutputTokens(): Log -> nat { (l: Log) => if l.output == None then 0 else l.output.value }
  function CacheHits(): Log -> nat { (l: Log) => if l.cacheHit == None then 0 else l.cacheHit.value }
  function CacheMisses(): Log -> nat { (l: Log) => if l.cacheMiss == None then 0 else l.cacheMiss.value }
  function Once(): Log -> nat { (l: Log) => 1 }

  /** The usage of the entries that count. */
  function DirectUsage(s: seq<Log>, counts: Log -> bool): Usage {
    Usage(SumWhere(s, counts, InputTokens()), SumWhere(s, counts, OutputTokens()),
          SumWhere(s, counts, CacheHits()), SumWhere(s, counts, CacheMisses()), SumWhere(s, counts, Once()))
  }

  /** A successful request since the cutoff with a known token count. */
  function Eligible(cutoff: int): Log -> bool {
    (l: Log) => l.success && l.timestamp >= cutoff && !(l.input == None && l.output == None)
  }

  /** Such a request of one channel and model, in the hour that begins at `hour`. */
  function EligibleIn(cutoff: int, hour: int, channel: nat, model: string): Log -> bool {
    (l: Log) => Eligible(cutoff)(l) && hour <= l.timestamp < hour + 3600000000000 && l.channel == channel && l.model == model
  }

  /** The key of an entry's bucket: the full hour it falls into, its channel and its model. */
  lemma KeyParts(l: Log)
    ensures KeyOf(l) == (l.timestamp / 3600000000000 * 3600000000000, l.channel, l.model)
    ensures KeyOf(l).0 % 3600000000000 == 0 && KeyOf(l).0 <= l.timestamp < KeyOf(l).0 + 3600000000000
  {
  }

  /** Two entries share a bucket exactly when hour, channel and model agree. */
  lemma SameBucketIff(a: Log, b: Log)
    ensures KeyOf(a) == KeyOf(b) <==>
            a.timestamp / 3600000000000 == b.timestamp / 3600000000000 && a.channel == b.channel && a.model == b.model
  {
  }

  /** An entry falls into a full hour exactly if its key names that hour. */
  lemma KeyOfHour(l: Log, k: Key)
    requires k.0 % 3600000000000 == 0
    ensures KeyOf(l) == k <==> k.0 <= l.timestamp < k.0 + 3600000000000 && l.channel == k.1 && l.model == k.2
  {
    KeyParts(l);
    var h := 3600000000000;
    assert KeyOf(l).0 == l.timestamp / h * h && k.0 == k.0 / h * h;
  }

  lemma MatchingLast(s: seq<Log>, cutoff: int)
    requires s != []
    ensures var m, l := Matching(s[..|s| - 1], cutoff), s[|s| - 1];
            Matching(s, cutoff) == if Eligible(cutoff)(l) then m + [l] else m
  {
    assert Counts(s[|s| - 1], cutoff) <==> Eligible(cutoff)(s[|s| - 1]);
  }

  lemma DirectLast(s: seq<Log>, counts: Log -> bool)
    requires s != []
    ensures DirectUsage(s, counts) ==
            Plus(DirectUsage(s[..|s| - 1], counts), if counts(s[|s| - 1]) then UsageOf(s[|s| - 1]) else Zero())
  {
  }

  lemma SumsLast(m: seq<Log>, l: Log, k: Key)
    ensures SumOf(m + [l], k) == Plus(SumOf(m, k), if KeyOf(l) == k then UsageOf(l) else Zero())
    ensures Sum(m + [l]) == Plus(Sum(m), UsageOf(l))
  {
    assert (m + [l])[..|m|] == m;
  }

  lemma {:induction false} BucketIsDirect(s: seq<Log>, cutoff: int, k: Key)
    requires k.0 % 3600000000000 == 0
    ensures SumOf(Matching(s, cutoff), k) == DirectUsage(s, EligibleIn(cutoff, k.0, k.1, k.2))
  {
    if s != [] {
      var s', l := s[..|s| - 1], s[|s| - 1];
      BucketIsDirect(s', cutoff, k);
      KeyOfHour(l, k);
      MatchingLast(s, cutoff);
      SumsLast(Matching(s', cutoff), l, k);
      DirectLast(s, EligibleIn(cutoff, k.0, k.1, k.2));
    }
  }

  lemma {:induction false} TotalIsDirect(s: seq<Log>, cutoff: int)
    ensures Sum(Matching(s, cutoff)) == DirectUsage(s, Eligible(cutoff))
  {
    if s != [] {
      var s', l := s[..|s| - 1], s[|s| - 1];
      TotalIsDirect(s', cutoff);
      MatchingLast(s, cutoff);
      SumsLast(Matching(s', cutoff), l, KeyOf(l));
      DirectLast(s, Eligible(cutoff));
    }
  }

  lemma {:induction false} MatchingMembers(s: seq<Log>, cutoff: int, l: Log)
    ensures l in Matching(s, cutoff) <==> l in s && Eligible(cutoff)(l)
  {
    if s != [] { MatchingMembers(s[..|s| - 1], cutoff, l); }
  }

  /** The keys of the buckets are the hours, channels and models of the eligible entries. */
  lemma BucketKeys(s: seq<Log>, cutoff: int, buckets: map<Key, Usage>, k: Key)
    requires BucketsOf(Matching(s, cutoff), buckets)
    ensures k in buckets <==> exists l :: l in s && Eligible(cutoff)(l) && KeyOf(l) == k
  {
    var m := Matching(s, cutoff);
    if k in buckets {
      if forall i :: 0 <= i < |m| ==> KeyOf(m[i]) != k { AbsentKeySum(m, k); }
      var i :| 0 <= i < |m| && KeyOf(m[i]) == k;
      MatchingMembers(s, cutoff, m[i]);
    }
    if l :| l in s && Eligible(cutoff)(l) && KeyOf(l) == k {
      MatchingMembers(s, cutoff, l);
      var i :| 0 <= i < |m| && m[i] == l;
    }
  }

  /** Every bucket, read off the log: it belongs to a full hour, a channel and a
      model, and holds the usage of their eligible entries, of which there is at
      least one; the total holds that of all of them. */
  lemma UsageIsDirect(s: seq<Log>, cutoff: int, buckets: map<Key, Usage>)
    requires BucketsOf(Matching(s, cutoff), buckets)
    ensures forall k :: k in buckets ==>
              && k.0 % 3600000000000 == 0 && buckets[k].requests >= 1
              && buckets[k] == DirectUsage(s, EligibleIn(cutoff, k.0, k.1, k.2))
    ensures forall l :: l in s && Eligible(cutoff)(l) ==>
              (l.timestamp / 3600000000000 * 3600000000000, l.channel, l.model) in buckets
    ensures Sum(Matching(s, cutoff)) == DirectUsage(s, Eligible(cutoff))
  {
    forall k | k in buckets
      ensures k.0 % 3600000000000 == 0 && buckets[k] == DirectUsage(s, EligibleIn(cutoff, k.0, k.1, k.2))
    {
      BucketKeys(s, cutoff, buckets, k);
      var l :| l in s && Eligible(cutoff)(l) && KeyOf(l) == k;
      KeyParts(l);
      BucketIsDirect(s, cutoff, k);
    }
    forall l | l in s && Eligible(cutoff)(l)
      ensures (l.timestamp / 3600000000000 * 3600000000000, l.channel, l.model) in buckets
    {
      KeyParts(l);
      BucketKeys(s, cutoff, buckets, KeyOf(l));
    }
    TotalIsDirect(s, cutoff);
  }

  class DispatchLogger {
    const maxEntries: nat
    var logs: seq<Log>

    constructor (maxEntries: nat)
      ensures this.maxEntries == maxEntries && logs == []
    {
      this.maxEntries := maxEntries;
      logs := [];
    }

    method Append(entry: Log)
      modifies this
      ensures logs == RingPush(maxEntries, old(logs), entry)
    {
      if |logs| >= maxEntries && logs != [] {
        logs := logs[1..];
      }
      logs := logs + [entry];
    }

    /** Searches from the newest entry. */
    method UpdateLogTokens(id: nat, t: Tokens)
      modifies this
      ensures logs == UpdateNewest(old(logs), id, t)
    {
      var i := |logs|;
      assert logs[..i] == logs && logs[i..] == [];
      while i > 0
        invariant 0 <= i <= |logs| && logs == old(logs)
        invariant UpdateNewest(logs, id, t) == UpdateNewest(logs[..i], id, t) + logs[i..]
      {
        i := i - 1;
        assert logs[..i + 1][..i] == logs[..i];
        if logs[i].id == id {
          logs := logs[i := WithTokens(logs[i], t)];
          return;
        }
        assert logs[i..] == [logs[i]] + logs[i + 1..];
      }
    }

    /** Snapshot, bucket, then total over the buckets. */
    method UsageHistory(cutoff: int) returns (buckets: map<Key, Usage>, total: Usage)
      ensures forall k :: k in buckets ==>
                && k.0 % 3600000000000 == 0 && buckets[k].requests >= 1
                && buckets[k] == DirectUsage(logs, EligibleIn(cutoff, k.0, k.1, k.2))
      ensures forall l :: l in logs && Eligible(cutoff)(l) ==>
                (l.timestamp / 3600000000000 * 3600000000000, l.channel, l.model) in buckets
      ensures total == DirectUsage(logs, Eligible(cutoff))
    {
      var matching := Snapshot(cutoff);
      buckets := FillBuckets(matching);
      total := TotalBuckets(matching, buckets);
      UsageIsDirect(logs, cutoff, buckets);
    }

    method Snapshot(cutoff: int) returns (matching: seq<Log>)
      ensures matching == Matching(logs, cutoff)
    {
      matching := [];
      for i := 0 to |logs|
        invariant matching == Matching(logs[..i], cutoff)
      {
        assert logs[..i + 1][..i] == logs[..i];
        if Counts(logs[i], cutoff) {
          matching := matching + [logs[i]];
        }
      }
      assert logs[..|logs|] == logs;
    }
  }

  method FillBuckets(matching: seq<Log>) returns (buckets: map<Key, Usage>)
    ensures BucketsOf(matching, buckets)
  {
    buckets := map[];
    for i := 0 to |matching|
      invariant BucketsOf(matching[..i], buckets)
    {
      AddToBucket(matching[..i], matching[i], buckets);
      assert matching[..i + 1] == matching[..i] + [matching[i]];
      var k := KeyOf(matching[i]);
      var bucket := if k in buckets then buckets[k] else Zero();
      buckets := buckets[k := Plus(bucket, UsageOf(matching[i]))];
    }
    assert matching[..|matching|] == matching;
  }

  /** The totals do not depend on the order in which the buckets are added. */
  method TotalBuckets(ghost matching: seq<Log>, buckets: map<Key, Usage>) returns (total: Usage)
    requires BucketsOf(matching, buckets)
    ensures total == Sum(matching)
  {
    total := Zero();
    var rest := buckets.Keys;
    ghost var order: seq<Key> := [];
    while rest != {}
      invariant rest <= buckets.Keys && Distinct(order)
      invariant forall k :: k in order <==> k in buckets.Keys - rest
      invariant total == TotalOver(buckets, order)
      decreases |rest|
    {
      var k :| k in rest;
      total := Plus(total, buckets[k]);
      assert k !in order && (order + [k])[..|order|] == order;
      order := order + [k];
      rest := rest - {k};
    }
    TotalIsSums(matching, buckets, order);
    SumsOverAll(matching, order);
  }
}
