/** Audit entries, their digest, the hash chain, and the NDJSON form of an entry. */
module AuditEntries {
  import opened Seqs
  import opened Json

  datatype Entry = Entry(
    timestamp: int,
    action: string,
    actor: string,
    target: string,
    details: Json,
    prevHash: Option<string>)

  /** The code outside the model: SHA-256 in hex, the printing of JSON, and the
      printing and reading of instants. `showTime` is the text that is hashed,
      `writeTime` the text that is stored. */
  datatype Env = Env(
    sha: string -> string,
    showJson: Json -> string,
    showTime: int -> string,
    writeTime: int -> string,
    readTime: string -> Option<int>)

  predicate NoBar(s: string) { '|' !in s }

  /** What the printers guarantee. Nothing is assumed of the digest except that
      its output is non-empty and free of the separator, as hex is. */
  ghost predicate Lawful(env: Env) {
    && (forall t :: env.readTime(env.writeTime(t)) == Some(t))
    && (forall t, t' :: env.showTime(t) == env.showTime(t') ==> t == t')
    && (forall t :: NoBar(env.showTime(t)))
    && (forall j, j' :: env.showJson(j) == env.showJson(j') ==> j == j')
    && (forall s :: env.sha(s) != "" && NoBar(env.sha(s)))
  }

  function PrevText(prev: Option<string>): string {
    match prev case None => "" case Some(h) => h
  }

  function HashedTail(env: Env, e: Entry): string {
    env.showJson(e.details) + "|" + PrevText(e.prevHash)
  }

  /** The bytes that are hashed: five fields joined by `|`, the actor left out. */
  function Preimage(env: Env, e: Entry): string {
    env.showTime(e.timestamp) + "|" + (e.action + "|" + (e.target + "|" + HashedTail(env, e)))
  }

  function EntryHash(env: Env, e: Entry): string {
    env.sha(Preimage(env, e))
  }

  /** Any texts with a separator between them. */
  function JoinWith(sep: string, parts: seq<string>): string {
    if parts == [] then ""
    else if |parts| == 1 then parts[0]
    else parts[0] + sep + JoinWith(sep, parts[1..])
  }

  /** The digest is taken of time, action, target, details and previous hash,
      in this order. */
  lemma HashedText(env: Env, e: Entry)
    ensures EntryHash(env, e) ==
            env.sha(JoinWith("|", [env.showTime(e.timestamp), e.action, e.target, env.showJson(e.details),
                                   if e.prevHash == None then "" else e.prevHash.value]))
  {
    var t, d, prev := env.showTime(e.timestamp), env.showJson(e.details), PrevText(e.prevHash);
    JoinCons("|", d, [prev]);
    JoinCons("|", e.target, [d, prev]);
    JoinCons("|", e.action, [e.target, d, prev]);
    JoinCons("|", t, [e.action, e.target, d, prev]);
    assert [t] + ([e.action] + ([e.target] + ([d] + [prev]))) == [t, e.action, e.target, d, prev];
  }

  lemma JoinCons(sep: string, part: string, parts: seq<string>)
    requires parts != []
    ensures JoinWith(sep, [part] + parts) == part + sep + JoinWith(sep, parts)
  {
    assert ([part] + parts)[1..] == parts;
  }

  // ---- What the digest determines ----

  /** The five fields the digest covers. */
  function Covered(e: Entry): (int, string, string, Json, Option<string>) {
    (e.timestamp, e.action, e.target, e.details, e.prevHash)
  }

  /** Entries whose joined text can be split again. */
  predicate Clean(e: Entry) {
    NoBar(e.action) && NoBar(e.target)
    && (e.prevHash.Some? ==> e.prevHash.value != "" && NoBar(e.prevHash.value))
  }

  lemma SplitFirst(x: string, y: string, r: string, q: string)
    requires NoBar(x) && NoBar(y) && x + "|" + r == y + "|" + q
    ensures x == y && r == q
  {
    var w := x + "|" + r;
    assert w[|x|] == '|' && w[|y|] == '|';
    assert x == w[..|x|] && y == w[..|y|];
    assert r == w[|x| + 1..] && q == w[|y| + 1..];
  }

  lemma SplitLast(r: string, q: string, x: string, y: string)
    requires NoBar(x) && NoBar(y) && r + "|" + x == q + "|" + y
    ensures x == y && r == q
  {
    var w := r + "|" + x;
    assert w[|r|] == '|' && w[|q|] == '|';
    assert r == w[..|r|] && q == w[..|q|];
    assert x == w[|r| + 1..] && y == w[|q| + 1..];
  }

  /** On clean entries the hashed text determines all five covered fields. */
  lemma PreimageInjective(env: Env, a: Entry, b: Entry)
    requires Lawful(env) && Clean(a) && Clean(b)
    requires Preimage(env, a) == Preimage(env, b)
    ensures Covered(a) == Covered(b)
  {
    SplitFirst(env.showTime(a.timestamp), env.showTime(b.timestamp),
               a.action + "|" + (a.target + "|" + HashedTail(env, a)),
               b.action + "|" + (b.target + "|" + HashedTail(env, b)));
    SplitFirst(a.action, b.action, a.target + "|" + HashedTail(env, a), b.target + "|" + HashedTail(env, b));
    SplitFirst(a.target, b.target, HashedTail(env, a), HashedTail(env, b));
    SplitLast(env.showJson(a.details), env.showJson(b.details), PrevText(a.prevHash), PrevText(b.prevHash));
  }

  function WithNames(e: Entry, action: string, target: string): Entry {
    e.(action := action, target := target)
  }

  /** The separator is not escaped, so the digest confuses an entry with one of
      another action or target exactly when its action or target holds a `|`. */
  lemma NamesAmbiguousIffBar(env: Env, e: Entry)
    ensures (exists a, t :: (a, t) != (e.action, e.target)
                            && Preimage(env, WithNames(e, a, t)) == Preimage(env, e))
            <==> !(NoBar(e.action) && NoBar(e.target))
  {
    if NoBar(e.action) && NoBar(e.target) {
      forall a, t | Preimage(env, WithNames(e, a, t)) == Preimage(env, e)
        ensures (a, t) == (e.action, e.target)
      {
        NamesDetermined(env, e, a, t);
      }
    } else {
      var a, t := OtherNames(env, e);
    }
  }

  /** Action and target sit side by side in the hashed text. */
  lemma NamesInside(env: Env, e: Entry, a: string, t: string)
    ensures Preimage(env, WithNames(e, a, t)) ==
            env.showTime(e.timestamp) + "|" + (a + "|" + t) + ("|" + HashedTail(env, e))
  {
    assert HashedTail(env, WithNames(e, a, t)) == HashedTail(env, e);
  }

  lemma NamesDetermined(env: Env, e: Entry, a: string, t: string)
    requires NoBar(e.action) && NoBar(e.target)
    requires Preimage(env, WithNames(e, a, t)) == Preimage(env, e)
    ensures a == e.action && t == e.target
  {
    var h, j := env.showTime(e.timestamp) + "|", "|" + HashedTail(env, e);
    var x, y := a + "|" + t, e.action + "|" + e.target;
    NamesInside(env, e, a, t);
    NamesInside(env, e, e.action, e.target);
    assert x == (h + x + j)[|h|..|h| + |x|] && y == (h + y + j)[|h|..|h| + |y|];
    assert |x| == |y|;
    assert x == y;
    // y has a single bar, and so has x
    assert forall i :: 0 <= i < |y| && i != |e.action| ==> y[i] != '|';
    assert x[|a|] == '|';
    assert a == x[..|a|] && e.action == y[..|e.action|];
    assert t == x[|a| + 1..] && e.target == y[|e.action| + 1..];
  }

  lemma OtherNames(env: Env, e: Entry) returns (a: string, t: string)
    requires !(NoBar(e.action) && NoBar(e.target))
    ensures (a, t) != (e.action, e.target)
    ensures Preimage(env, WithNames(e, a, t)) == Preimage(env, e)
  {
    var y := e.action + "|" + e.target;
    var i :| 0 <= i < |y| && y[i] == '|' && i != |e.action| by {
      if '|' in e.action {
        var k :| 0 <= k < |e.action| && e.action[k] == '|';
        assert y[k] == '|';
      } else {
        var k :| 0 <= k < |e.target| && e.target[k] == '|';
        assert y[|e.action| + 1 + k] == '|';
      }
    }
    a, t := y[..i], y[i + 1..];
    assert a + "|" + t == y;
    NamesInside(env, e, a, t);
    NamesInside(env, e, e.action, e.target);
  }

  // ---- The chain ----

  /** Every entry but the oldest names the hash of its predecessor. */
  predicate Linked(env: Env, s: seq<Entry>) {
    forall i :: 1 <= i < |s| ==> s[i].prevHash == Some(EntryHash(env, s[i - 1]))
  }

  /** The chain tip that belongs to a buffer. */
  function TipOf(env: Env, s: seq<Entry>): Option<string> {
    if s == [] then None else Some(EntryHash(env, s[|s| - 1]))
  }

  lemma LinkedSuffix(env: Env, a: seq<Entry>, b: seq<Entry>)
    requires Linked(env, b) && IsSuffix(a, b)
    ensures Linked(env, a)
    ensures a != [] ==> TipOf(env, a) == TipOf(env, b)
  {
    var d := |b| - |a|;
    forall i | 1 <= i < |a| ensures a[i].prevHash == Some(EntryHash(env, a[i - 1])) {
      assert a[i] == b[d + i] && a[i - 1] == b[d + i - 1];
    }
  }

  lemma LinkedAppend(env: Env, s: seq<Entry>, e: Entry)
    requires Linked(env, s)
    requires s == [] || e.prevHash == TipOf(env, s)
    ensures Linked(env, s + [e])
    ensures TipOf(env, s + [e]) == Some(EntryHash(env, e))
  {
  }

  /** Two different hashed texts with one digest: a SHA-256 collision. */
  ghost predicate CollisionAt(env: Env, a: seq<Entry>, b: seq<Entry>, i: nat) {
    i < |a| && i < |b|
    && Preimage(env, a[i]) != Preimage(env, b[i])
    && EntryHash(env, a[i]) == EntryHash(env, b[i])
  }

  /** The newest hash commits to the whole buffer: two intact chains of clean
      entries with one tip agree on every covered field of every entry, or
      else they exhibit a digest collision. */
  lemma TipCommits(env: Env, a: seq<Entry>, b: seq<Entry>)
    requires Lawful(env) && |a| == |b|
    requires Linked(env, a) && Linked(env, b) && TipOf(env, a) == TipOf(env, b)
    requires forall i :: 0 <= i < |a| ==> Clean(a[i]) && Clean(b[i])
    ensures (forall i :: 0 <= i < |a| ==> Covered(a[i]) == Covered(b[i]))
            || (exists i: nat :: CollisionAt(env, a, b, i))
  {
    if forall i: nat :: !CollisionAt(env, a, b, i) {
      forall i | 0 <= i < |a| ensures Covered(a[i]) == Covered(b[i]) {
        AgreeFromTip(env, a, b, i);
      }
    }
  }

  lemma {:induction false} AgreeFromTip(env: Env, a: seq<Entry>, b: seq<Entry>, i: nat)
    requires Lawful(env) && |a| == |b| && i < |a|
    requires Linked(env, a) && Linked(env, b) && TipOf(env, a) == TipOf(env, b)
    requires forall k :: 0 <= k < |a| ==> Clean(a[k]) && Clean(b[k])
    requires forall k: nat :: !CollisionAt(env, a, b, k)
    ensures Covered(a[i]) == Covered(b[i])
    decreases |a| - i
  {
    if i + 1 < |a| {
      AgreeFromTip(env, a, b, i + 1);
      assert a[i + 1].prevHash == b[i + 1].prevHash;
    }
    assert !CollisionAt(env, a, b, i);
    PreimageInjective(env, a[i], b[i]);
  }

  /** A chain from its very first entry on. */
  predicate Rooted(env: Env, g: seq<Entry>) {
    Linked(env, g) && (g != [] ==> g[0].prevHash == None)
  }

  /** Two entries of one chain that exhibit a SHA-256 collision. */
  predicate CollisionIn(env: Env, g: seq<Entry>, i: nat, j: nat) {
    i < j < |g| && Preimage(env, g[i]) != Preimage(env, g[j]) && EntryHash(env, g[i]) == EntryHash(env, g[j])
  }

  /** The hashed text ends with the previous hash, which holds no separator. */
  lemma SamePreimageSamePrev(env: Env, a: Entry, b: Entry)
    requires Preimage(env, a) == Preimage(env, b)
    requires NoBar(PrevText(a.prevHash)) && NoBar(PrevText(b.prevHash))
    ensures PrevText(a.prevHash) == PrevText(b.prevHash)
  {
    SplitLast(UpToPrev(env, a), UpToPrev(env, b), PrevText(a.prevHash), PrevText(b.prevHash));
  }

  function UpToPrev(env: Env, e: Entry): (r: string)
    ensures r + "|" + PrevText(e.prevHash) == Preimage(env, e)
  {
    var head := env.showTime(e.timestamp) + "|" + (e.action + "|" + (e.target + "|"));
    assert head + env.showJson(e.details) + "|" + PrevText(e.prevHash) == Preimage(env, e);
    head + env.showJson(e.details)
  }

  /** No two entries of a rooted chain have one hash, short of a collision:
      otherwise their predecessors would too, down to the root. */
  lemma {:induction false} EqualHashCollides(env: Env, g: seq<Entry>, a: nat, b: nat) returns (i: nat, j: nat)
    requires Lawful(env) && Rooted(env, g) && a < b < |g| && EntryHash(env, g[a]) == EntryHash(env, g[b])
    ensures CollisionIn(env, g, i, j)
    decreases a
  {
    if Preimage(env, g[a]) != Preimage(env, g[b]) {
      i, j := a, b;
    } else {
      assert g[b].prevHash == Some(EntryHash(env, g[b - 1]));
      assert a > 0 ==> g[a].prevHash == Some(EntryHash(env, g[a - 1]));
      SamePreimageSamePrev(env, g[a], g[b]);
      i, j := EqualHashCollides(env, g, a - 1, b - 1);
    }
  }

  /** Exactly which replacement of one entry `verify_chain` overlooks: it must
      keep the entry's own link, and its hash unless it is the newest. */
  lemma TamperVerdict(env: Env, s: seq<Entry>, i: nat, e: Entry)
    requires Linked(env, s) && i < |s|
    ensures Linked(env, s[i := e]) <==>
            && (i > 0 ==> e.prevHash == s[i].prevHash)
            && (i + 1 < |s| ==> EntryHash(env, e) == EntryHash(env, s[i]))
  {
    var r := s[i := e];
    if Linked(env, r) {
      assert i > 0 ==> r[i - 1] == s[i - 1] && r[i].prevHash == Some(EntryHash(env, r[i - 1]));
      assert i + 1 < |s| ==> r[i + 1] == s[i + 1] && r[i + 1].prevHash == Some(EntryHash(env, r[i]));
      assert i + 1 < |s| ==> s[i + 1].prevHash == Some(EntryHash(env, s[i]));
    }
  }

  /** An inner entry cannot lose a covered field unnoticed, short of a collision. */
  lemma InnerTamperDetected(env: Env, s: seq<Entry>, i: nat, e: Entry)
    requires Lawful(env) && Linked(env, s) && i + 1 < |s|
    requires Clean(s[i]) && Clean(e) && Covered(e) != Covered(s[i])
    ensures !Linked(env, s[i := e]) || CollisionAt(env, s[i := e], s, i)
  {
    TamperVerdict(env, s, i, e);
    if Preimage(env, e) == Preimage(env, s[i]) {
      PreimageInjective(env, e, s[i]);
    }
  }

  /** The newest entry is not protected: any change that keeps its link passes. */
  lemma NewestTamperOverlooked(env: Env, s: seq<Entry>, action: string, details: Json)
    requires Linked(env, s) && s != []
    ensures Linked(env, s[|s| - 1 := s[|s| - 1].(action := action, details := details)])
  {
    TamperVerdict(env, s, |s| - 1, s[|s| - 1].(action := action, details := details));
  }

  /** Nobody's name is protected: rewriting any or all of the actors changes
      neither the verdict nor the tip. */
  lemma ActorsUnprotected(env: Env, a: seq<Entry>, b: seq<Entry>)
    requires |a| == |b| && forall i :: 0 <= i < |a| ==> b[i] == a[i].(actor := b[i].actor)
    ensures Linked(env, a) <==> Linked(env, b)
    ensures TipOf(env, a) == TipOf(env, b)
  {
    forall i | 0 <= i < |a| ensures EntryHash(env, b[i]) == EntryHash(env, a[i]) {
      HashedText(env, a[i]);
      HashedText(env, b[i]);
    }
    forall i | 1 <= i < |a|
      ensures a[i].prevHash == Some(EntryHash(env, a[i - 1])) <==> b[i].prevHash == Some(EntryHash(env, b[i - 1]))
    {
    }
  }

  // ---- NDJSON form ----

  /** `serde_json::to_string(&entry)`; `prev_hash` is skipped when it is `None`. */
  function Encode(env: Env, e: Entry): Json {
    var base := map[
      "timestamp" := Str(env.writeTime(e.timestamp)),
      "action" := Str(e.action),
      "actor" := Str(e.actor),
      "target" := Str(e.target),
      "details" := e.details];
    Obj(if e.prevHash.Some? then base["prev_hash" := Str(e.prevHash.value)] else base)
  }

  function StrField(f: map<string, Json>, k: string): Option<string> {
    if k in f && f[k].Str? then Some(f[k].s) else None
  }

  /** The outer option says whether the field is acceptable, the inner is its value. */
  function PrevField(f: map<string, Json>): Option<Option<string>> {
    if "prev_hash" !in f || f["prev_hash"].Null? then Some(None)
    else if f["prev_hash"].Str? then Some(Some(f["prev_hash"].s))
    else None
  }

  /** `serde_json::from_str::<AuditEntry>`: unknown fields are ignored and a
      missing or null `prev_hash` is `None`. */
  function Decode(env: Env, j: Json): Option<Entry> {
    if !j.Obj? then None else
    var f := j.fields;
    var ts, action, actor, target, prev :=
      StrField(f, "timestamp"), StrField(f, "action"), StrField(f, "actor"), StrField(f, "target"), PrevField(f);
    if ts.None? || action.None? || actor.None? || target.None? || prev.None? || "details" !in f then None else
    var t := env.readTime(ts.value);
    if t.None? then None else
    Some(Entry(t.value, action.value, actor.value, target.value, f["details"], prev.value))
  }

  lemma DecodeEncode(env: Env, e: Entry)
    requires Lawful(env)
    ensures Decode(env, Encode(env, e)) == Some(e)
  {
    var f := Encode(env, e).fields;
    assert StrField(f, "timestamp") == Some(env.writeTime(e.timestamp));
    assert PrevField(f) == Some(e.prevHash);
  }

  /** The stored names of the fields; `prev_hash` is there exactly when the entry has one. */
  lemma EncodedFields(env: Env, e: Entry)
    ensures Encode(env, e).Obj?
    ensures var f := Encode(env, e).fields;
            && {"timestamp", "action", "actor", "target", "details"} <= f.Keys
            && f.Keys <= {"timestamp", "action", "actor", "target", "details", "prev_hash"}
            && f["timestamp"] == Str(env.writeTime(e.timestamp)) && f["action"] == Str(e.action)
            && f["actor"] == Str(e.actor) && f["target"] == Str(e.target) && f["details"] == e.details
            && ("prev_hash" in f <==> e.prevHash.Some?)
            && (e.prevHash.Some? ==> f["prev_hash"] == Str(e.prevHash.value))
  {
  }

  /** Which lines read as an entry: those that agree with its own line, up to
      another text for the same instant, a null `prev_hash`, and further fields. */
  lemma DecodesIff(env: Env, j: Json, e: Entry)
    ensures Decode(env, j) == Some(e) <==>
            && j.Obj?
            && "timestamp" in j.fields && j.fields["timestamp"].Str?
            && env.readTime(j.fields["timestamp"].s) == Some(e.timestamp)
            && (forall k :: k in Encode(env, e).fields && k != "timestamp" ==>
                  k in j.fields && j.fields[k] == Encode(env, e).fields[k])
            && (e.prevHash.None? && "prev_hash" in j.fields ==> j.fields["prev_hash"] == Null)
  {
    EncodedFields(env, e);
    if j.Obj? {
      var f := j.fields;
      assert StrField(f, "timestamp") == if "timestamp" in f && f["timestamp"].Str? then Some(f["timestamp"].s) else None;
      assert PrevField(f) == Some(e.prevHash) <==>
             if e.prevHash.Some? then "prev_hash" in f && f["prev_hash"] == Str(e.prevHash.value)
             else "prev_hash" in f ==> f["prev_hash"] == Null;
    }
  }

  function DecodeLine(env: Env, l: Line): seq<Entry> {
    if l.Value? && Decode(env, l.json).Some? then [Decode(env, l.json).value] else []
  }

  /** The entries of a file; blank and malformed lines are skipped. */
  function DecodeFile(env: Env, file: seq<Line>): seq<Entry> {
    if file == [] then [] else DecodeFile(env, file[..|file| - 1]) + DecodeLine(env, file[|file| - 1])
  }

  /** A line yields its entry if it reads as one, and nothing otherwise. */
  lemma LineDecodes(env: Env, l: Line, e: Entry)
    ensures DecodeFile(env, [l]) == [e] <==> l.Value? && Decode(env, l.json) == Some(e)
    ensures DecodeFile(env, [l]) == [] <==> l.Blank? || l.Malformed? || Decode(env, l.json) == None
  {
    assert [l][..0] == [];
    assert DecodeFile(env, [l]) == [] + DecodeLine(env, l) == DecodeLine(env, l);
  }

  /** Files are read line by line, in order. */
  lemma {:induction false} FilesDecodeInOrder(env: Env, a: seq<Line>, b: seq<Line>)
    ensures DecodeFile(env, a + b) == DecodeFile(env, a) + DecodeFile(env, b)
    decreases |b|
  {
    if b == [] {
      assert a + b == a;
    } else {
      var b', l := b[..|b| - 1], b[|b| - 1];
      assert (a + b)[..|a + b| - 1] == a + b' && (a + b)[|a + b| - 1] == l;
      FilesDecodeInOrder(env, a, b');
      assert (DecodeFile(env, a) + DecodeFile(env, b')) + DecodeLine(env, l)
             == DecodeFile(env, a) + (DecodeFile(env, b') + DecodeLine(env, l));
    }
  }
}
