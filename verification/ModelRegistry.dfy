/** Model capabilities by longest registered prefix, and refreshes per source. */
module ModelRegistries {
  import opened Seqs

  datatype ThinkingFormat = NoThinking | TokenBudget | Level | Hybrid

  datatype Caps = Caps(
    thinking: bool,
    vision: bool,
    tools: bool,
    maxContext: Option<nat>,
    format: ThinkingFormat,
    source: Option<string>)

  function DefaultCaps(): Caps { Caps(false, false, false, None, NoThinking, None) }

  type Models = map<string, Caps>

  /** The longest registered prefix of `model` of length at most `n`. */
  function LongestPrefix(models: Models, model: string, n: nat): (r: Option<string>)
    requires n <= |model|
    ensures r.Some? ==> r.value in models && r.value <= model && |r.value| <= n
    ensures forall k :: k in models && k <= model && |k| <= n ==> r.Some? && |k| <= |r.value|
  {
    if model[..n] in models then Some(model[..n])
    else if n == 0 then None
    else
      assert forall k :: k in models && k <= model && |k| <= n ==> k == model[..|k|];
      LongestPrefix(models, model, n - 1)
  }

  /** The exact entry is the prefix of full length. */
  function Lookup(models: Models, model: string): Caps {
    match LongestPrefix(models, model, |model|)
    case Some(k) => models[k]
    case None => DefaultCaps()
  }

  /** `k` is registered, a prefix of the name, and no registered prefix is longer. */
  predicate LongestKey(models: Models, model: string, k: string) {
    k in models && k <= model && forall o :: o in models && o <= model ==> |o| <= |k|
  }

  /** The answer is the entry of the longest registered prefix; a name without
      one has no capabilities at all. */
  lemma LookupOfLongest(models: Models, model: string)
    ensures forall k :: LongestKey(models, model, k) ==> Lookup(models, model) == models[k]
    ensures (forall k :: k in models ==> !(k <= model)) ==>
              Lookup(models, model) == Caps(false, false, false, None, NoThinking, None)
    ensures (exists k :: LongestKey(models, model, k)) <==> exists k :: k in models && k <= model
  {
    var p := LongestPrefix(models, model, |model|);
    forall k | LongestKey(models, model, k) ensures p == Some(k) {
      assert p.Some? && |p.value| == |k|;
      assert p.value == model[..|k|] == k;
    }
    if p.Some? { assert LongestKey(models, model, p.value); }
  }

  function Retained(models: Models, source: string): Models {
    map k | k in models && models[k].source != Some(source) :: models[k]
  }

  function Inserted(models: Models, ids: seq<string>, source: string): Models {
    if ids == [] then models else
    var m := Inserted(models, ids[..|ids| - 1], source);
    var id := ids[|ids| - 1];
    m[id := Lookup(m, id).(source := Some(source))]
  }

  function Refreshed(models: Models, ids: seq<string>, source: string): Models {
    Inserted(Retained(models, source), ids, source)
  }

  class ModelRegistry {
    var models: Models

    constructor (models: Models)
      ensures this.models == models
    {
      this.models := models;
    }

    /** Visits the keys in an arbitrary order, as a hash map does; the result
        does not depend on it. */
    method Get(model: string) returns (caps: Caps)
      ensures caps == Lookup(models, model)
      ensures forall k :: LongestKey(models, model, k) ==> caps == models[k]
      ensures (forall k :: k in models ==> !(k <= model)) ==> caps == Caps(false, false, false, None, NoThinking, None)
    {
      LookupOfLongest(models, model);
      if model in models {
        assert model[..|model|] == model;
        return models[model];
      }
      var best: Option<string> := None;
      var rest := models.Keys;
      while rest != {}
        invariant rest <= models.Keys
        invariant best.Some? ==> best.value in models && best.value <= model
        invariant forall k :: k in models && k !in rest && k <= model ==> best.Some? && |k| <= |best.value|
        decreases |rest|
      {
        var key :| key in rest;
        if (key <= model || key + "-" <= model) && (best.None? || |key| > |best.value|) {
          assert key <= key + "-";
          best := Some(key);
        }
        rest := rest - {key};
      }
      PrefixesOfOneLength(models, model, best);
      caps := if best.Some? then models[best.value] else DefaultCaps();
    }

    method UpdateModels(ids: seq<string>, source: string)
      modifies this
      ensures models == Refreshed(old(models), ids, source)
      ensures forall k :: k in ids ==>
                k in models && models[k] == Lookup(Retained(old(models), source), k).(source := Some(source))
      ensures forall k :: k !in ids ==> (k in models <==> k in old(models) && old(models)[k].source != Some(source))
      ensures forall k :: k in models && k !in ids ==> models[k] == old(models)[k]
    {
      models := Retained(models, source);
      for i := 0 to |ids|
        invariant models == Inserted(Retained(old(models), source), ids[..i], source)
      {
        assert ids[..i + 1][..i] == ids[..i];
        var caps := Get(ids[i]);
        models := models[ids[i] := caps.(source := Some(source))];
      }
      assert ids[..|ids|] == ids;
      RefreshOwnsExactly(old(models), ids, source);
      CapsFromRetained(old(models), ids, source);
    }
  }

  /** A registered prefix that no other exceeds in length is the longest one. */
  lemma PrefixesOfOneLength(models: Models, model: string, best: Option<string>)
    requires best.Some? ==> best.value in models && best.value <= model
    requires forall k :: k in models && k <= model ==> best.Some? && |k| <= |best.value|
    ensures best == LongestPrefix(models, model, |model|)
  {
    var l := LongestPrefix(models, model, |model|);
    if best.Some? {
      assert l.Some? && l.value == model[..|l.value|] && best.value == model[..|best.value|];
    }
  }

  /** The boundary the source's comment asks for: the key is the whole name or
      is followed by a hyphen. */
  predicate AtHyphen(model: string, n: nat)
    requires n <= |model|
  {
    n == |model| || model[n] == '-'
  }

  /** The documented lookup: the longest registered prefix that ends at a hyphen boundary. */
  function DocumentedPrefix(models: Models, model: string, n: nat): (r: Option<string>)
    requires n <= |model|
    ensures r.Some? ==> r.value in models && r.value <= model && |r.value| <= n && AtHyphen(model, |r.value|)
    ensures forall k :: k in models && k <= model && |k| <= n && AtHyphen(model, |k|) ==> r.Some? && |k| <= |r.value|
  {
    if model[..n] in models && AtHyphen(model, n) then Some(model[..n])
    else if n == 0 then None
    else
      assert forall k :: k in models && k <= model && |k| <= n ==> k == model[..|k|];
      DocumentedPrefix(models, model, n - 1)
  }

  /** The code selects the documented key exactly when the longest registered
      prefix is absent, is the whole name, or is followed by a hyphen. */
  lemma HyphenBoundaryIff(models: Models, model: string)
    ensures var p := LongestPrefix(models, model, |model|);
            DocumentedPrefix(models, model, |model|) == p <==> (p.Some? ==> AtHyphen(model, |p.value|))
  {
    var p, d := LongestPrefix(models, model, |model|), DocumentedPrefix(models, model, |model|);
    if p.Some? && AtHyphen(model, |p.value|) {
      assert d.Some? && |d.value| == |p.value|;
      assert d.value == model[..|d.value|] && p.value == model[..|p.value|];
    }
  }

  /** The code's other test, for the key and a hyphen, adds nothing. */
  lemma HyphenTestRedundant(key: string, model: string)
    ensures key <= model || key + "-" <= model <==> key <= model
  {
    assert key <= key + "-";
  }

  /** A name on which the two differ: the registry knows `gpt-4` only and is asked for `gpt-4o`. */
  lemma HyphenBoundaryDiffers(caps: Caps)
    ensures var models := map["gpt-4" := caps];
            && LongestPrefix(models, "gpt-4o", 6) == Some("gpt-4")
            && DocumentedPrefix(models, "gpt-4o", 6) == None
  {
    var models, model := map["gpt-4" := caps], "gpt-4o";
    assert "gpt-4" in models && "gpt-4" <= model;
    var p, d := LongestPrefix(models, model, 6), DocumentedPrefix(models, model, 6);
    assert p.Some? && p.value == "gpt-4";
    HyphenBoundaryIff(models, model);
    assert !AtHyphen(model, 5);
  }

  // ---- Refreshes ----

  predicate Owned(models: Models, k: string, source: string) {
    k in models && models[k].source == Some(source)
  }

  lemma {:induction false} InsertedKeys(models: Models, ids: seq<string>, source: string)
    ensures var r := Inserted(models, ids, source);
            && r.Keys == models.Keys + (set k | k in ids)
            && (forall k :: k in ids ==> Owned(r, k, source))
            && (forall k :: k in models && k !in ids ==> r[k] == models[k])
  {
    if ids != [] {
      var n := |ids| - 1;
      InsertedKeys(models, ids[..n], source);
      assert forall k :: k in ids <==> k in ids[..n] || k == ids[n];
    }
  }

  /** After a refresh the source owns exactly the listed models, and every
      other entry is as it was. */
  lemma RefreshOwnsExactly(models: Models, ids: seq<string>, source: string)
    ensures var r := Refreshed(models, ids, source);
            && (forall k :: Owned(r, k, source) <==> k in ids)
            && (forall k :: k !in ids ==> (k in r <==> k in models && !Owned(models, k, source)))
            && (forall k :: k in r && k !in ids ==> r[k] == models[k])
  {
    InsertedKeys(Retained(models, source), ids, source);
  }

  predicate NoneLonger(m: Models, x: string, n: nat) {
    forall o :: o in m && o <= x ==> |o| <= n
  }

  /** A prefix of a name at least as long as every registered one gets the same answer. */
  lemma SameAnswer(m: Models, id: string, x: string)
    requires id <= x && NoneLonger(m, x, |id|)
    ensures Lookup(m, id) == Lookup(m, x)
  {
    LookupOfLongest(m, x);
    LookupOfLongest(m, id);
    forall o | o in m ensures o <= id <==> o <= x {
      if o <= id { assert o == id[..|o|] == x[..|o|]; }
      if o <= x { assert o == x[..|o|] == id[..|o|]; }
    }
    if p :| LongestKey(m, x, p) { assert LongestKey(m, id, p); }
  }

  /** Inserting a name with the capabilities found for it changes no answer but
      for the source. */
  lemma InsertKeepsLookup(m: Models, id: string, source: string, x: string)
    ensures Lookup(m[id := Lookup(m, id).(source := Some(source))], x).(source := Some(source))
            == Lookup(m, x).(source := Some(source))
  {
    var m' := m[id := Lookup(m, id).(source := Some(source))];
    LookupOfLongest(m', x);
    if id <= x && NoneLonger(m, x, |id|) {
      SameAnswer(m, id, x);
      assert LongestKey(m', x, id);
    } else {
      LookupOfLongest(m, x);
      if p :| LongestKey(m, x, p) { assert LongestKey(m', x, p); }
    }
  }

  lemma {:induction false} InsertedLookup(base: Models, ids: seq<string>, source: string, x: string)
    ensures Lookup(Inserted(base, ids, source), x).(source := Some(source)) == Lookup(base, x).(source := Some(source))
  {
    if ids != [] {
      var n := |ids| - 1;
      InsertedLookup(base, ids[..n], source, x);
      InsertKeepsLookup(Inserted(base, ids[..n], source), ids[n], source, x);
    }
  }

  /** Each listed model gets the capabilities of its longest prefix among the
      entries the refresh kept, although the code looks it up among the models
      listed before it as well. */
  lemma CapsFromRetained(models: Models, ids: seq<string>, source: string)
    ensures forall k :: k in ids ==>
              && k in Refreshed(models, ids, source)
              && Refreshed(models, ids, source)[k] == Lookup(Retained(models, source), k).(source := Some(source))
  {
    var base := Retained(models, source);
    var r := Inserted(base, ids, source);
    InsertedKeys(base, ids, source);
    forall k | k in ids ensures k in r && r[k] == Lookup(base, k).(source := Some(source)) {
      InsertedLookup(base, ids, source, k);
      LookupOfLongest(r, k);
      assert Owned(r, k, source) && LongestKey(r, k, k);
    }
  }

  /** So the order of the listed models, and listing one twice, do not matter. */
  lemma RefreshOrderFree(models: Models, ids: seq<string>, ids': seq<string>, source: string)
    requires forall k :: k in ids <==> k in ids'
    ensures Refreshed(models, ids, source) == Refreshed(models, ids', source)
  {
    var r, r' := Refreshed(models, ids, source), Refreshed(models, ids', source);
    RefreshOwnsExactly(models, ids, source);
    RefreshOwnsExactly(models, ids', source);
    CapsFromRetained(models, ids, source);
    CapsFromRetained(models, ids', source);
    forall k ensures k in r <==> k in r' {
      assert Owned(r, k, source) <==> k in ids;
      assert Owned(r', k, source) <==> k in ids';
    }
    assert forall k :: k in r ==> r[k] == r'[k];
  }

  /** What the first of two refreshes leaves for the second to build on. */
  lemma RetainedAfterRefresh(models: Models, ids: seq<string>, source: string)
    ensures Retained(Refreshed(models, ids, source), source) == Retained(models, source) - (set k | k in ids)
  {
    RefreshOwnsExactly(models, ids, source);
    var a := Retained(Refreshed(models, ids, source), source);
    var b := Retained(models, source) - (set k | k in ids);
    assert forall k :: k in a <==> k in b;
  }

  /** Two refreshes equal the second alone when the first took no key from another owner. */
  lemma SecondRefreshWins(models: Models, first: seq<string>, second: seq<string>, source: string)
    requires forall k :: k in first && k in models ==> Owned(models, k, source)
    ensures Refreshed(Refreshed(models, first, source), second, source) == Refreshed(models, second, source)
  {
    RetainedAfterRefresh(models, first, source);
    assert Retained(models, source) - (set k | k in first) == Retained(models, source);
  }

  /** The two leave the same keys exactly when every key the first refresh took
      over from another owner is listed again in the second. */
  lemma SameKeysIff(models: Models, first: seq<string>, second: seq<string>, source: string)
    ensures Refreshed(Refreshed(models, first, source), second, source).Keys == Refreshed(models, second, source).Keys
            <==> forall k :: k in first && k in models && !Owned(models, k, source) ==> k in second
  {
    var base, taken, again := Retained(models, source), set k | k in first, set k | k in second;
    RetainedAfterRefresh(models, first, source);
    InsertedKeys(base - taken, second, source);
    InsertedKeys(base, second, source);
    assert (base - taken).Keys == base.Keys - taken;
    assert (base.Keys - taken) + again == base.Keys + again <==> base.Keys * taken <= again;
  }

  /** A refresh may take over a built-in model, and the next one then deletes it. */
  lemma TakeoverDeletesBuiltin(models: Models, k: string, source: string)
    requires k in models && models[k].source == None
    ensures k in Refreshed(models, [], source)
    ensures k !in Refreshed(Refreshed(models, [k], source), [], source)
  {
    RefreshOwnsExactly(models, [], source);
    RefreshOwnsExactly(models, [k], source);
    RefreshOwnsExactly(Refreshed(models, [k], source), [], source);
  }
}
