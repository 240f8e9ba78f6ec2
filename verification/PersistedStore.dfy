/** The JSON-persisted key-value store: version injection and stripping,
    persist, merging load, and the poison flag. */
module PersistedStores {
  import opened Seqs
  import opened Json

  const VERSION_KEY := "schema_version"
  const DATA_SCHEMA_VERSION := 1

  /** JSON text and the typed values: printing, parsing, and which strings are keys. */
  datatype Codec<!V> = Codec(
    show: Json -> string,
    parse: string -> Option<Json>,
    enc: V -> Json,
    dec: Json -> Option<V>,
    validKey: string -> bool)

  /** Printing then parsing gives the value back, for JSON and for the typed values. */
  ghost predicate Lawful<V(!new)>(c: Codec<V>) {
    && (forall j :: c.parse(c.show(j)) == Some(j))
    && (forall v :: c.dec(c.enc(v)) == Some(v))
  }

  predicate Keyed<V>(c: Codec<V>, m: map<string, V>) {
    forall k :: k in m ==> c.validKey(k)
  }

  function InjectVersion<V>(c: Codec<V>, text: string): string {
    match c.parse(text)
    case Some(Obj(f)) => c.show(Obj(f[VERSION_KEY := Num(DATA_SCHEMA_VERSION)]))
    case _ => text
  }

  function StripVersion<V>(c: Codec<V>, text: string): string {
    match c.parse(text)
    case Some(Obj(f)) => if VERSION_KEY in f then c.show(Obj(f - {VERSION_KEY})) else text
    case _ => text
  }

  function EncodeMap<V>(c: Codec<V>, m: map<string, V>): map<string, Json> {
    map k | k in m :: c.enc(m[k])
  }

  function DecodeMap<V>(c: Codec<V>, f: map<string, Json>): Option<map<string, V>> {
    if forall k :: k in f ==> c.validKey(k) && c.dec(f[k]).Some?
    then Some(map k | k in f :: c.dec(f[k]).value)
    else None
  }

  /** The text `persist` writes. */
  function Serialise<V>(c: Codec<V>, m: map<string, V>): string {
    InjectVersion(c, c.show(Obj(EncodeMap(c, m))))
  }

  /** What `load` makes of a text; `None` is the corrupt branch. */
  function ReadStore<V>(c: Codec<V>, text: string): Option<map<string, V>> {
    match c.parse(StripVersion(c, text))
    case Some(Obj(f)) => DecodeMap(c, f)
    case _ => None
  }

  /** A persisted map reads back as itself without any `schema_version` key. */
  lemma RoundTrip<V(!new)>(c: Codec<V>, m: map<string, V>)
    requires Lawful(c) && Keyed(c, m)
    ensures ReadStore(c, Serialise(c, m)) == Some(m - {VERSION_KEY})
  {
    var f := EncodeMap(c, m);
    var g := f[VERSION_KEY := Num(DATA_SCHEMA_VERSION)];
    assert Serialise(c, m) == c.show(Obj(g));
    assert StripVersion(c, c.show(Obj(g))) == c.show(Obj(g - {VERSION_KEY}));
    var h := g - {VERSION_KEY};
    assert h == f - {VERSION_KEY};
    assert h.Keys == (m - {VERSION_KEY}).Keys;
    assert forall k :: k in h ==> c.validKey(k) && c.dec(h[k]) == Some(m[k]);
    assert DecodeMap(c, h).value == m - {VERSION_KEY};
  }

  /** What is written: the encoded entries and, over any entry of that name, version 1. */
  lemma WrittenText<V(!new)>(c: Codec<V>, m: map<string, V>)
    requires Lawful(c)
    ensures c.parse(Serialise(c, m)).Some? && c.parse(Serialise(c, m)).value.Obj?
    ensures var f := c.parse(Serialise(c, m)).value.fields;
            && f.Keys == m.Keys + {"schema_version"}
            && f["schema_version"] == Num(1)
            && forall k :: k in m && k != "schema_version" ==> f[k] == c.enc(m[k])
  {
  }

  /** Which texts read as a map: an object all of whose entries, apart from
      `schema_version`, have a valid key and a value that decodes. */
  lemma ReadsIff<V(!new)>(c: Codec<V>, text: string, m: map<string, V>)
    requires Lawful(c)
    ensures ReadStore(c, text) == Some(m) <==>
            && c.parse(text).Some? && c.parse(text).value.Obj?
            && var f := c.parse(text).value.fields - {"schema_version"};
               m.Keys == f.Keys && forall k :: k in f ==> c.validKey(k) && c.dec(f[k]) == Some(m[k])
  {
    if c.parse(text).Some? && c.parse(text).value.Obj? {
      var g := c.parse(text).value.fields;
      var f := g - {"schema_version"};
      assert VERSION_KEY !in g ==> f == g;
      assert ReadStore(c, text) == DecodeMap(c, f);
      if m.Keys == f.Keys && forall k :: k in f ==> c.validKey(k) && c.dec(f[k]) == Some(m[k]) {
        assert DecodeMap(c, f).value == m;
      }
    }
  }

  // ---- The store and its files ----

  datatype State<V> = State(
    data: map<string, V>,
    poisoned: bool,
    main: Option<string>,
    tmp: Option<string>,
    corrupt: map<string, string>)

  /** How one attempt to write goes: where it fails, and whether the cleanup of the temporary file worked. */
  datatype Outcome =
    | Done
    | NotStarted
    | WriteFails(torn: string, removed: bool)
    | SyncFails(removed: bool)
    | RenameFails(removed: bool)

  function Leftover(text: string, removed: bool): Option<string> {
    if removed then None else Some(text)
  }

  /** `persist` and `persist_sync` take the same steps. */
  function AfterPersist<V>(c: Codec<V>, s: State<V>, o: Outcome): State<V> {
    if s.poisoned then s else
    var text := Serialise(c, s.data);
    match o
    case Done => s.(main := Some(text), tmp := None)
    case NotStarted => s
    case WriteFails(torn, removed) => s.(tmp := Leftover(torn, removed))
    case SyncFails(removed) => s.(tmp := Leftover(text, removed))
    case RenameFails(removed) => s.(tmp := Leftover(text, removed))
  }

  /** Entries already in memory win over the file; text that does not decode is
      moved aside, if the rename works, and poisons the store. */
  function AfterLoad<V>(c: Codec<V>, s: State<V>, stamp: string, renamed: bool): State<V> {
    if s.main.None? then s else
    match ReadStore(c, s.main.value)
    case Some(loaded) => s.(data := loaded + s.data)
    case None =>
      if renamed then s.(main := None, corrupt := s.corrupt[stamp := s.main.value], poisoned := true)
      else s.(poisoned := true)
  }

  class PersistedStore<V> {
    const codec: Codec<V>
    var data: map<string, V>
    var poisoned: bool
    var main: Option<string>
    var tmp: Option<string>
    var corrupt: map<string, string>

    ghost function Model(): State<V>
      reads this
    {
      State(data, poisoned, main, tmp, corrupt)
    }

    constructor (codec: Codec<V>, main: Option<string>, tmp: Option<string>, corrupt: map<string, string>)
      ensures this.codec == codec && Model() == State(map[], false, main, tmp, corrupt)
    {
      this.codec := codec;
      data, poisoned := map[], false;
      this.main, this.tmp, this.corrupt := main, tmp, corrupt;
    }

    /** Write a temporary file, fsync, rename over the store. */
    method Persist(outcome: Outcome)
      modifies this
      ensures Model() == AfterPersist(codec, old(Model()), outcome)
      ensures main == if !old(poisoned) && outcome == Done then Some(Serialise(codec, old(data))) else old(main)
      ensures data == old(data) && poisoned == old(poisoned) && corrupt == old(corrupt)
    {
      if poisoned {
        return;
      }
      var text := Serialise(codec, data);
      if outcome.NotStarted? {
        return;
      }
      tmp := Some("");
      if outcome.WriteFails? {
        tmp := Some(outcome.torn);
        if outcome.removed { tmp := None; }
        return;
      }
      tmp := Some(text);
      if !outcome.Done? {
        if outcome.removed { tmp := None; }
        return;
      }
      main, tmp := tmp, None;
    }

    /** Merges key by key with `entry(k).or_insert(v)`, in the hash map's own order. */
    method Load(stamp: string, renamed: bool)
      modifies this
      ensures Model() == AfterLoad(codec, old(Model()), stamp, renamed)
      ensures tmp == old(tmp) && (old(main).None? ==> Model() == old(Model()))
      ensures old(main).Some? && ReadStore(codec, old(main).value).Some? ==>
                data == ReadStore(codec, old(main).value).value + old(data)
                && poisoned == old(poisoned) && main == old(main) && corrupt == old(corrupt)
      ensures old(main).Some? && ReadStore(codec, old(main).value).None? ==>
                data == old(data) && poisoned
                && (if renamed then main == None && corrupt == old(corrupt)[stamp := old(main).value]
                    else main == old(main) && corrupt == old(corrupt))
    {
      if main.None? {
        return;
      }
      var read := ReadStore(codec, main.value);
      if read.None? {
        if renamed {
          corrupt := corrupt[stamp := main.value];
          main := None;
        }
        poisoned := true;
        return;
      }
      var loaded, rest := read.value, read.value.Keys;
      while rest != {}
        invariant rest <= loaded.Keys
        invariant data.Keys == old(data).Keys + (loaded.Keys - rest)
        invariant forall k :: k in data ==> data[k] == if k in old(data) then old(data)[k] else loaded[k]
        invariant poisoned == old(poisoned) && main == old(main) && tmp == old(tmp) && corrupt == old(corrupt)
        decreases |rest|
      {
        var k :| k in rest;
        if k !in data {
          data := data[k := loaded[k]];
        }
        rest := rest - {k};
      }
      assert data == loaded + old(data);
    }
  }

  // ---- Persist and load together ----

  /** A successful persist, then a load by a new process. */
  lemma PersistThenLoad<V(!new)>(c: Codec<V>, s: State<V>, stamp: string, renamed: bool)
    requires Lawful(c) && Keyed(c, s.data) && !s.poisoned
    ensures var written := AfterPersist(c, s, Done);
            var restarted := AfterLoad(c, written.(data := map[], poisoned := false), stamp, renamed);
            restarted.data == s.data - {VERSION_KEY} && !restarted.poisoned
  {
    RoundTrip(c, s.data);
    assert (s.data - {VERSION_KEY}) + map[] == s.data - {VERSION_KEY};
  }

  /** A persist that fails at any step, or is refused, is as if it had not been
      tried: the next process reads what it would have read before. */
  lemma FailedPersistHarmless<V>(c: Codec<V>, s: State<V>, o: Outcome, stamp: string, renamed: bool)
    requires o != Done || s.poisoned
    ensures var failed := AfterPersist(c, s, o);
            && failed.data == s.data && failed.poisoned == s.poisoned
            && failed.(tmp := s.tmp) == s
            && AfterLoad(c, failed.(data := map[], poisoned := false), stamp, renamed).(tmp := s.tmp)
               == AfterLoad(c, s.(data := map[], poisoned := false), stamp, renamed)
  {
  }

  /** The temporary file is left only by a failed write, sync or rename whose cleanup failed too. */
  lemma LeftoverIff<V>(c: Codec<V>, s: State<V>, o: Outcome)
    requires s.tmp.None?
    ensures AfterPersist(c, s, o).tmp.Some? <==>
            !s.poisoned && (o.WriteFails? || o.SyncFails? || o.RenameFails?) && !o.removed
  {
  }

  /** Loading a readable file is a union in which memory wins, and repeating it changes nothing. */
  lemma LoadIsIdempotentUnion<V>(c: Codec<V>, s: State<V>, stamp: string, renamed: bool)
    requires s.main.Some? && ReadStore(c, s.main.value).Some?
    ensures var once := AfterLoad(c, s, stamp, renamed);
            && once == s.(data := once.data)
            && once.data.Keys == s.data.Keys + ReadStore(c, s.main.value).value.Keys
            && (forall k :: k in once.data && k !in s.data ==> once.data[k] == ReadStore(c, s.main.value).value[k])
            && (forall k :: k in s.data ==> once.data[k] == s.data[k])
            && AfterLoad(c, once, stamp, renamed) == once
  {
    var loaded := ReadStore(c, s.main.value).value;
    assert loaded + (loaded + s.data) == loaded + s.data;
  }

  // ---- Poisoned runs ----

  datatype Event<V> = Update(data: map<string, V>) | Persist(outcome: Outcome) | Load(stamp: string, renamed: bool)

  function Step<V>(c: Codec<V>, s: State<V>, e: Event<V>): State<V> {
    match e
    case Update(data) => s.(data := data)
    case Persist(o) => AfterPersist(c, s, o)
    case Load(stamp, renamed) => AfterLoad(c, s, stamp, renamed)
  }

  function Run<V>(c: Codec<V>, s: State<V>, evs: seq<Event<V>>): State<V>
    decreases |evs|
  {
    if evs == [] then s else Run(c, Step(c, s, evs[0]), evs[1..])
  }

  /** The unreadable bytes are still there, under the main or a backup name. */
  predicate Kept<V>(s: State<V>, bytes: string) {
    s.main == Some(bytes) || (s.main == None && exists stamp :: stamp in s.corrupt && s.corrupt[stamp] == bytes)
  }

  lemma {:induction false} PoisonKeeps<V>(c: Codec<V>, s: State<V>, evs: seq<Event<V>>, bytes: string)
    requires s.poisoned && Kept(s, bytes) && ReadStore(c, bytes) == None
    ensures var r := Run(c, s, evs); r.poisoned && Kept(r, bytes) && r.tmp == s.tmp
    decreases |evs|
  {
    if evs != [] {
      var s' := Step(c, s, evs[0]);
      if evs[0].Load? && s.main.Some? && evs[0].renamed {
        assert evs[0].stamp in s'.corrupt && s'.corrupt[evs[0].stamp] == bytes;
      }
      PoisonKeeps(c, s', evs[1..], bytes);
    }
  }

  /** Once a load has met unreadable bytes, no later run of updates, persists
      and loads in that process writes anything, and the bytes survive. */
  lemma CorruptBytesSurvive<V>(c: Codec<V>, s: State<V>, stamp: string, renamed: bool, evs: seq<Event<V>>)
    requires s.main.Some? && ReadStore(c, s.main.value) == None
    ensures var r := Run(c, AfterLoad(c, s, stamp, renamed), evs);
            r.poisoned && Kept(r, s.main.value) && r.tmp == s.tmp
  {
    var s' := AfterLoad(c, s, stamp, renamed);
    assert renamed ==> stamp in s'.corrupt && s'.corrupt[stamp] == s.main.value;
    PoisonKeeps(c, s', evs, s.main.value);
  }
}
