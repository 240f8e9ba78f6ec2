/** The memoised glob matcher of the model availability matrix. */
module Glob {
  import opened Seqs

  /** What one pattern character may stand for. */
  predicate Piece(pc: char, w: string) {
    pc == '*' || (if pc == '?' then |w| == 1 else w == [pc])
  }

  function Flatten(ws: seq<string>): string {
    if ws == [] then "" else ws[0] + Flatten(ws[1..])
  }

  predicate PiecesOf(p: string, t: string, ws: seq<string>) {
    |ws| == |p| && Flatten(ws) == t && forall i :: 0 <= i < |p| ==> Piece(p[i], ws[i])
  }

  /** The glob relation: the text can be cut into one piece per pattern character. */
  ghost predicate Globs(p: string, t: string) {
    exists ws :: PiecesOf(p, t, ws)
  }

  /** The matcher's recursion without its memo. */
  predicate MatchFrom(p: string, t: string, pi: nat, ti: nat)
    requires pi <= |p| && ti <= |t|
    decreases |p| - pi, 0
  {
    if pi == |p| then ti == |t|
    else if p[pi] == '*' then AnySplit(p, t, pi + 1, ti)
    else ti < |t| && (p[pi] == '?' || t[ti] == p[pi]) && MatchFrom(p, t, pi + 1, ti + 1)
  }

  /** Some split point from `ti` on lets the rest of the pattern match. */
  predicate AnySplit(p: string, t: string, pi: nat, ti: nat)
    requires pi <= |p| && ti <= |t|
    decreases |p| - pi, |t| - ti + 1
  {
    MatchFrom(p, t, pi, ti) || (ti < |t| && AnySplit(p, t, pi, ti + 1))
  }

  lemma GlobsConsUp(p: string, t: string, w: string, rest: string)
    requires p != "" && Piece(p[0], w) && t == w + rest && Globs(p[1..], rest)
    ensures Globs(p, t)
  {
    var ws :| PiecesOf(p[1..], rest, ws);
    var all := [w] + ws;
    assert all[1..] == ws;
    forall i | 0 <= i < |p| ensures Piece(p[i], all[i]) {
      if i > 0 { assert Piece(p[1..][i - 1], ws[i - 1]); }
    }
    assert PiecesOf(p, t, all);
  }

  lemma GlobsConsDown(p: string, t: string) returns (w: string, rest: string)
    requires p != "" && Globs(p, t)
    ensures Piece(p[0], w) && t == w + rest && Globs(p[1..], rest)
  {
    var ws :| PiecesOf(p, t, ws);
    w, rest := ws[0], Flatten(ws[1..]);
    assert PiecesOf(p[1..], rest, ws[1..]);
  }

  /** The text from `ti` to `i` may stand for pattern character `pi`. */
  predicate Stands(p: string, t: string, pi: nat, ti: nat, i: int)
    requires pi < |p| && ti <= |t|
  {
    ti <= i <= |t| && (p[pi] != '*' ==> i == ti + 1 && (p[pi] == '?' || t[ti] == p[pi]))
  }

  lemma GlobFromSplit(p: string, t: string, pi: nat, ti: nat, i: int)
    requires pi < |p| && ti <= |t| && Stands(p, t, pi, ti, i) && Globs(p[pi + 1..], t[i..])
    ensures Globs(p[pi..], t[ti..])
  {
    assert p[pi..][1..] == p[pi + 1..] && t[ti..] == t[ti..i] + t[i..];
    GlobsConsUp(p[pi..], t[ti..], t[ti..i], t[i..]);
  }

  lemma SplitFromGlob(p: string, t: string, pi: nat, ti: nat) returns (i: int)
    requires pi < |p| && ti <= |t| && Globs(p[pi..], t[ti..])
    ensures Stands(p, t, pi, ti, i) && Globs(p[pi + 1..], t[i..])
  {
    var w, rest := GlobsConsDown(p[pi..], t[ti..]);
    i := ti + |w|;
    assert p[pi..][1..] == p[pi + 1..];
    assert t[ti..][..|w|] == w && t[i..] == rest;
    assert |w| > 0 ==> w[0] == t[ti..][0];
  }

  /** The recursion decides the glob relation on the remaining pattern and text. */
  lemma {:induction false} MatchIsGlob(p: string, t: string, pi: nat, ti: nat)
    requires pi <= |p| && ti <= |t|
    ensures MatchFrom(p, t, pi, ti) <==> Globs(p[pi..], t[ti..])
    decreases |p| - pi, 0
  {
    if pi == |p| {
      assert t[ti..] == "" ==> PiecesOf(p[pi..], t[ti..], []);
    } else {
      if p[pi] == '*' {
        SplitIsGlob(p, t, pi + 1, ti);
      } else if ti < |t| {
        MatchIsGlob(p, t, pi + 1, ti + 1);
      }
      if MatchFrom(p, t, pi, ti) {
        var i :| Stands(p, t, pi, ti, i) && Globs(p[pi + 1..], t[i..]);
        GlobFromSplit(p, t, pi, ti, i);
      }
      if Globs(p[pi..], t[ti..]) {
        var i := SplitFromGlob(p, t, pi, ti);
      }
    }
  }

  lemma {:induction false} SplitIsGlob(p: string, t: string, pi: nat, ti: nat)
    requires pi <= |p| && ti <= |t|
    ensures AnySplit(p, t, pi, ti) <==> exists i :: ti <= i <= |t| && Globs(p[pi..], t[i..])
    decreases |p| - pi, |t| - ti + 1
  {
    MatchIsGlob(p, t, pi, ti);
    if ti < |t| { SplitIsGlob(p, t, pi, ti + 1); }
  }

  /** The end of the text is a split point for a trailing star. */
  lemma {:induction false} TrailingStar(p: string, t: string, ti: nat)
    requires ti <= |t|
    ensures AnySplit(p, t, |p|, ti)
    decreases |t| - ti
  {
    if ti < |t| { TrailingStar(p, t, ti + 1); }
  }

  lemma MatchIsGlobAtStart(p: string, t: string)
    ensures MatchFrom(p, t, 0, 0) <==> Globs(p, t)
  {
    MatchIsGlob(p, t, 0, 0);
    assert p[0..] == p && t[0..] == t;
  }

  // ---- What the relation means ----

  lemma {:induction false} FlattenAppend(a: seq<string>, b: seq<string>)
    ensures Flatten(a + b) == Flatten(a) + Flatten(b)
  {
    if a == [] {
      assert a + b == b;
    } else {
      assert (a + b)[1..] == a[1..] + b;
      FlattenAppend(a[1..], b);
    }
  }

  /** A pattern made of two parts matches the texts made of a match of each. */
  lemma GlobsAppend(p: string, q: string, t: string)
    ensures Globs(p + q, t) <==> exists a, b :: t == a + b && Globs(p, a) && Globs(q, b)
  {
    if Globs(p + q, t) {
      var ws :| PiecesOf(p + q, t, ws);
      var l, r := ws[..|p|], ws[|p|..];
      assert ws == l + r;
      FlattenAppend(l, r);
      assert forall i :: 0 <= i < |q| ==> (p + q)[|p| + i] == q[i];
      assert PiecesOf(p, Flatten(l), l) && PiecesOf(q, Flatten(r), r);
    }
    if a, b :| t == a + b && Globs(p, a) && Globs(q, b) {
      var l :| PiecesOf(p, a, l);
      var r :| PiecesOf(q, b, r);
      FlattenAppend(l, r);
      assert PiecesOf(p + q, t, l + r);
    }
  }

  /** A single character: a star matches every text, a question mark every text
      of one character, and any other only itself. */
  lemma GlobsOne(c: char, t: string)
    ensures Globs([c], t) <==> c == '*' || (c == '?' && |t| == 1) || t == [c]
  {
    if Globs([c], t) {
      var w, rest := GlobsConsDown([c], t);
      var none :| PiecesOf([c][1..], rest, none);
      assert rest == "" && t == w;
    }
    if c == '*' || (c == '?' && |t| == 1) || t == [c] {
      assert [t][1..] == [] && Flatten([t]) == t + "";
      assert PiecesOf([c], t, [t]);
    }
  }

  /** A pattern without wildcards matches only itself. */
  lemma {:induction false} GlobsLiteral(p: string, t: string)
    requires '*' !in p && '?' !in p
    ensures Globs(p, t) <==> t == p
  {
    if p == "" {
      assert Globs(p, t) ==> t == "";
      assert PiecesOf("", "", []);
    } else {
      assert p == [p[0]] + p[1..];
      GlobsAppend([p[0]], p[1..], t);
      if Globs(p, t) {
        var a, b :| t == a + b && Globs([p[0]], a) && Globs(p[1..], b);
        GlobsOne(p[0], a);
        GlobsLiteral(p[1..], b);
      }
      if t == p {
        GlobsOne(p[0], [p[0]]);
        GlobsLiteral(p[1..], p[1..]);
      }
    }
  }

  // ---- The work bound ----

  type Key = (nat, nat)

  function Column(p: nat, width: nat): (r: set<Key>)
    ensures |r| == width
    ensures forall k :: k in r <==> k.0 == p && k.1 < width
  {
    if width == 0 then {} else Column(p, width - 1) + {(p, width - 1)}
  }

  function Grid(height: nat, width: nat): (r: set<Key>)
    ensures |r| == height * width
    ensures forall k :: k in r <==> k.0 < height && k.1 < width
  {
    if height == 0 then {} else
      assert (height - 1) * width + width == height * width;
      Grid(height - 1, width) + Column(height - 1, width)
  }

  lemma MemoFits(keys: set<Key>, height: nat, width: nat)
    requires forall k :: k in keys ==> k.0 < height && k.1 < width
    ensures |keys| <= height * width
  {
    assert keys <= Grid(height, width);
    SubsetSize(keys, Grid(height, width));
  }

  /** The calls that `n` memo entries of width `w` pay for. */
  ghost function Credit(w: nat, n: nat): nat {
    if n == 0 then 0 else w + Credit(w, n - 1)
  }

  lemma {:induction false} CreditBound(w: nat, n: nat, m: nat)
    requires n <= m
    ensures Credit(w, n) <= m * w
    decreases m
  {
    if n > 0 {
      CreditBound(w, n - 1, m - 1);
      assert (m - 1) * w + w == m * w;
    }
  }

  /** `p * (t + 1)^2`. */
  function WorkBound(p: nat, t: nat): nat {
    p * (t + 1) * (t + 1)
  }

  /** A memo over a pattern of length `p` and a text of length `t` pays for at
      most `p * (t + 1)^2` calls. */
  lemma MemoPays(keys: set<Key>, p: nat, t: nat)
    requires forall k :: k in keys ==> k.0 < p && k.1 <= t
    ensures Credit(t + 1, |keys|) <= WorkBound(p, t)
  {
    MemoFits(keys, p, t + 1);
    CreditBound(t + 1, |keys|, p * (t + 1));
  }

  /** Keys are only added, and only for pattern positions from `pi` on. */
  ghost predicate GrewFrom(before: map<Key, bool>, after: map<Key, bool>, pi: nat) {
    before.Keys <= after.Keys && forall k :: k in after.Keys - before.Keys ==> k.0 >= pi
  }

  class Matcher {
    const p: string
    const t: string
    var memo: map<Key, bool>
    ghost var calls: nat

    constructor (p: string, t: string)
      ensures this.p == p && this.t == t && memo == map[] && calls == 0
    {
      this.p, this.t, memo, calls := p, t, map[], 0;
    }

    /** Every memo entry is the unmemoised value. */
    predicate MemoOk()
      reads this
    {
      forall k :: k in memo ==> k.0 < |p| && k.1 <= |t| && memo[k] == MatchFrom(p, t, k.0, k.1)
    }

    /** The calls not paid for by memo entries, each of which brings `|t| + 1` credits. */
    ghost function Unpaid(): int
      reads this
    {
      calls - Credit(|t| + 1, |memo|)
    }

    /** A call leaves at most itself unpaid. */
    method Match(pi: nat, ti: nat) returns (result: bool)
      requires pi <= |p| && ti <= |t| && MemoOk()
      modifies this
      ensures MemoOk() && result == MatchFrom(p, t, pi, ti)
      ensures Unpaid() <= old(Unpaid()) + 1
      ensures GrewFrom(old(memo), memo, pi)
      decreases |p| - pi, 2
    {
      calls := calls + 1;
      if (pi, ti) in memo {
        return memo[(pi, ti)];
      }
      if pi >= |p| {
        return ti >= |t|;
      }
      result := Compute(pi, ti);
      assert |memo[(pi, ti) := result]| == |memo| + 1;
      memo := memo[(pi, ti) := result];
    }

    /** The outermost call, on an empty memo. */
    method MatchAll() returns (result: bool)
      requires memo == map[] && calls == 0
      modifies this
      ensures result == Globs(p, t)
      ensures calls <= 1 + WorkBound(|p|, |t|)
    {
      var start: nat := 0;
      result := Match(start, start);
      MatchIsGlobAtStart(p, t);
      MemoPays(memo.Keys, |p|, |t|);
    }

    /** One row of the recursion, not counting the store into the memo. */
    method Compute(pi: nat, ti: nat) returns (result: bool)
      requires pi < |p| && ti <= |t| && MemoOk()
      modifies this
      ensures MemoOk() && result == MatchFrom(p, t, pi, ti)
      ensures Unpaid() <= old(Unpaid()) + |t| + 1
      ensures GrewFrom(old(memo), memo, pi + 1)
      decreases |p| - pi, 1
    {
      result := false;
      if p[pi] == '*' {
        if pi == |p| - 1 {
          result := true;
          TrailingStar(p, t, ti);
        } else {
          result := MatchStar(pi, ti);
        }
      } else if ti < |t| && (p[pi] == '?' || t[ti] == p[pi]) {
        result := Match(pi + 1, ti + 1);
      }
    }

    /** The loop over the split points of a star. */
    method MatchStar(pi: nat, ti: nat) returns (result: bool)
      requires pi < |p| && ti <= |t| && MemoOk()
      modifies this
      ensures MemoOk() && result == AnySplit(p, t, pi + 1, ti)
      ensures Unpaid() <= old(Unpaid()) + |t| + 1
      ensures GrewFrom(old(memo), memo, pi + 1)
      decreases |p| - pi, 0
    {
      result := false;
      var i := ti;
      ghost var wanted, start := AnySplit(p, t, pi + 1, ti), Unpaid();
      while i <= |t| && !result
        invariant ti <= i <= |t| + 1 && MemoOk()
        invariant wanted == (result || (i <= |t| && AnySplit(p, t, pi + 1, i)))
        invariant Unpaid() <= start + (i - ti)
        invariant GrewFrom(old(memo), memo, pi + 1)
      {
        result := Match(pi + 1, i);
        i := i + 1;
      }
    }
  }

  /** `simpleGlob` decides the glob relation on the lowered strings with at most
      `1 + |p| * (|t| + 1)^2` calls of the inner matcher. */
  method SimpleGlob(lower: string -> string, pattern: string, text: string) returns (r: bool, ghost calls: nat)
    ensures r == Globs(lower(pattern), lower(text))
    ensures calls <= 1 + |lower(pattern)| * (|lower(text)| + 1) * (|lower(text)| + 1)
  {
    var p, t := lower(pattern), lower(text);
    var m := new Matcher(p, t);
    r := m.MatchAll();
    calls := m.calls;
  }
}
