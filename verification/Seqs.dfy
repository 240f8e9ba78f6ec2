/** Options and the sequence vocabulary shared by the bounded buffers, the page
    queries and the rotated logs. */
module Seqs {

  datatype Option<+T> = None | Some(value: T)

  function Min(a: nat, b: nat): nat { if a <= b then a else b }

  /** The newest `n` elements of a chronological sequence. */
  function Last<T>(n: nat, s: seq<T>): seq<T> {
    if |s| <= n then s else s[|s| - n..]
  }

  /** The only suffix of that length. */
  lemma LastIs<T>(n: nat, s: seq<T>)
    ensures IsSuffix(Last(n, s), s) && |Last(n, s)| == if |s| <= n then |s| else n
    ensures forall t :: IsSuffix(t, s) && |t| == |Last(n, s)| ==> t == Last(n, s)
  {
  }

  predicate IsSuffix<T(==)>(a: seq<T>, b: seq<T>) {
    |a| <= |b| && a == b[|b| - |a|..]
  }

  /** Two sequences that end alike: one of them is a suffix of the other. */
  predicate EndAlike<T(==)>(a: seq<T>, b: seq<T>) {
    IsSuffix(a, b) || IsSuffix(b, a)
  }

  function Reverse<T>(s: seq<T>): (r: seq<T>)
    ensures |r| == |s|
    ensures forall i :: 0 <= i < |s| ==> r[i] == s[|s| - 1 - i]
  {
    seq(|s|, i requires 0 <= i < |s| => s[|s| - 1 - i])
  }

  /** The newest-first page: `iter().rev().skip(offset).take(limit)`. */
  function Page<T>(s: seq<T>, offset: nat, limit: nat): seq<T> {
    Reverse(s)[Min(offset, |s|)..Min(offset + limit, |s|)]
  }

  /** Place `i` of a page is the element `offset + i` places before the newest. */
  lemma PageAt<T>(s: seq<T>, offset: nat, limit: nat)
    ensures var p := Page(s, offset, limit);
            && |p| == (if |s| <= offset then 0 else if |s| - offset <= limit then |s| - offset else limit)
            && forall i :: 0 <= i < |p| ==> p[i] == s[|s| - 1 - offset - i]
  {
  }

  /** `len() >= max` then `pop_front`, then `push_back`. Popping an empty deque
      does nothing, so a capacity of zero still keeps one element. */
  function RingPush<T>(max: nat, s: seq<T>, x: T): seq<T> {
    (if |s| >= max && s != [] then s[1..] else s) + [x]
  }

  /** The capacity a ring of nominal size `max` really has. */
  function Capacity(max: nat): nat { if max == 0 then 1 else max }

  /** One push on the ring is one append on the unbounded log it is the tail of. */
  lemma RingPushIsTail<T>(max: nat, log: seq<T>, x: T)
    ensures RingPush(max, Last(Capacity(max), log), x) == Last(Capacity(max), log + [x])
  {
    assert max >= 1 && |log| > max ==> log[|log| - max..][1..] == (log + [x])[|log| + 1 - max..|log|];
  }

  lemma SuffixesEndAlike<T>(a: seq<T>, b: seq<T>, c: seq<T>)
    requires IsSuffix(a, c) && IsSuffix(b, c)
    ensures EndAlike(a, b)
  {
    var (s, l) := if |a| <= |b| then (a, b) else (b, a);
    assert s == l[|l| - |s|..];
  }

  lemma SuffixAppend<T>(a: seq<T>, b: seq<T>, x: T)
    requires IsSuffix(a, b)
    ensures IsSuffix(a + [x], b + [x])
  {
  }

  lemma SuffixOfPrefix<T>(h: seq<T>, p: seq<T>, g: seq<T>)
    requires IsSuffix(h + p, g)
    ensures IsSuffix(h, g[..|g| - |p|])
  {
    var k := |g| - |h| - |p|;
    assert h + p == g[k..];
    assert h == (h + p)[..|h|];
    assert g[..|g| - |p|][k..] == g[k..][..|h|];
  }

  lemma SuffixTransitive<T>(a: seq<T>, b: seq<T>, c: seq<T>)
    requires IsSuffix(a, b) && IsSuffix(b, c)
    ensures IsSuffix(a, c)
  {
  }

  /** Dropping a prefix of one side keeps the two sides ending alike. */
  lemma EndAlikeDrop<T>(a: seq<T>, b: seq<T>, b': seq<T>)
    requires EndAlike(a, b) && IsSuffix(b', b)
    ensures EndAlike(a, b')
  {
    if IsSuffix(a, b) {
      SuffixesEndAlike(a, b', b);
    } else {
      SuffixTransitive(b', b, a);
    }
  }

  lemma EndAlikeAppend<T>(max: nat, a: seq<T>, b: seq<T>, x: T)
    requires EndAlike(a, b)
    ensures EndAlike(RingPush(max, a, x), b + [x])
  {
    if IsSuffix(a, b) {
      assert IsSuffix(a + [x], b + [x]);
    } else {
      assert IsSuffix(b + [x], a + [x]);
    }
    assert EndAlike(b + [x], a + [x]);
    assert IsSuffix(RingPush(max, a, x), a + [x]);
    EndAlikeDrop(b + [x], a + [x], RingPush(max, a, x));
  }

  /** Moving the head of a queue behind a shortened history keeps the common end. */
  lemma QueueToHistory<T>(h: seq<T>, kept: seq<T>, queue: seq<T>)
    requires IsSuffix(kept, h) && queue != []
    ensures IsSuffix((kept + [queue[0]]) + queue[1..], h + queue)
  {
    assert (kept + [queue[0]]) + queue[1..] == kept + queue;
  }

  /** Moving any element of a queue behind a history that lost a prefix. */
  lemma MoveConserves<T>(lost: seq<T>, kept: seq<T>, queue: seq<T>, i: nat)
    requires i < |queue|
    ensures multiset((lost + kept) + queue) ==
            multiset(lost) + multiset((kept + [queue[i]]) + (queue[..i] + queue[i + 1..]))
  {
    assert queue == queue[..i] + [queue[i]] + queue[i + 1..];
    assert multiset(queue) == multiset(queue[..i]) + multiset{queue[i]} + multiset(queue[i + 1..]);
  }

  /** A page that fits inside a suffix is the same page of the whole. */
  lemma PageOfSuffix<T>(a: seq<T>, b: seq<T>, offset: nat, limit: nat)
    requires IsSuffix(a, b) && offset + limit <= |a|
    ensures Page(a, offset, limit) == Page(b, offset, limit)
  {
  }

  lemma SubsetSize<T>(a: set<T>, b: set<T>)
    requires a <= b
    ensures |a| <= |b|
  {
    assert b == a + (b - a);
  }

  lemma FullPageIsSuffix<T>(a: seq<T>, b: seq<T>)
    requires Page(a, 0, |a|) == Page(b, 0, |a|)
    ensures IsSuffix(a, b)
  {
    var p := Page(a, 0, |a|);
    assert |p| == |a| <= |b|;
    forall i | 0 <= i < |a| ensures a[i] == b[|b| - |a|..][i] {
      assert p[|a| - 1 - i] == a[i] && Page(b, 0, |a|)[|a| - 1 - i] == b[|b| - |a| + i];
    }
  }

  /** The first `n` pages of a listing, glued together. */
  function Pages<T>(s: seq<T>, limit: nat, n: nat): seq<T> {
    if n == 0 then [] else Pages(s, limit, n - 1) + Page(s, (n - 1) * limit, limit)
  }

  lemma NextPage<T>(s: seq<T>, offset: nat, limit: nat)
    ensures Reverse(s)[..Min(offset, |s|)] + Page(s, offset, limit) == Reverse(s)[..Min(offset + limit, |s|)]
  {
  }

  /** Consecutive pages tile the listing: no gap and no repeat. */
  lemma {:induction false} PagesTile<T>(s: seq<T>, limit: nat, n: nat)
    ensures Pages(s, limit, n) == Reverse(s)[..Min(n * limit, |s|)]
  {
    if n > 0 {
      PagesTile(s, limit, n - 1);
      NextPage(s, (n - 1) * limit, limit);
      assert (n - 1) * limit + limit == n * limit;
    }
  }
}
