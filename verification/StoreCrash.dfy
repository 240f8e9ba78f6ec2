/** `persist` taken apart into file-system steps, with any number of calls in
    flight on the one temporary name, failures at each step, and crashes. */
module StoreCrashes {
  import opened Seqs
  import opened PersistedStores

  type Inode = nat

  /** How many persists may be in flight at once, and whether each syncs its
      temporary file before it renames it, as the source does. */
  datatype Discipline = Discipline(writers: nat, fsync: bool)

  datatype Writer =
    | Opening(text: string)
    | Writing(text: string, inode: Inode)
    | Written(text: string, inode: Inode)
    | Synced(text: string, inode: Inode)

  /** `mains` lists what the store's name has referred to, the current file
      last; `synced` holds the files whose content has reached the disk;
      `saved` lists the maps whose persist was begun. */
  datatype Sys<V> = Sys(
    data: map<string, V>,
    poisoned: bool,
    inodes: seq<string>,
    synced: set<Inode>,
    mains: seq<Option<Inode>>,
    tmp: Option<Inode>,
    writers: map<nat, Writer>,
    saved: seq<map<string, V>>)

  /** `removed` says whether the cleanup of the temporary file worked. A crash
      replaces the content of every file that is not synced, under whatever
      name, and may undo the last rename, since the directory is not synced. */
  datatype Event<V> =
    | Update(data: map<string, V>)
    | Begin(w: nat)
    | OpenTmp(w: nat)
    | WritePart(w: nat, bytes: string)
    | WriteAll(w: nat)
    | Sync(w: nat)
    | Rename(w: nat)
    | Fail(w: nat, removed: bool)
    | Crash(torn: seq<string>, undone: bool)
    | LoadStore(renamed: bool)

  function Empty<V>(): Sys<V> {
    Sys(map[], false, [], {}, [None], None, map[], [])
  }

  predicate WellFormed<V>(s: Sys<V>) {
    && s.mains != []
    && (forall k :: 0 <= k < |s.mains| && s.mains[k].Some? ==> s.mains[k].value < |s.inodes|)
    && (s.tmp.Some? ==> s.tmp.value < |s.inodes|)
    && (forall i :: i in s.synced ==> i < |s.inodes|)
    && (forall w :: w in s.writers && !s.writers[w].Opening? ==> s.writers[w].inode < |s.inodes|)
  }

  function MainFile<V>(s: Sys<V>): Option<Inode>
    requires s.mains != []
  {
    s.mains[|s.mains| - 1]
  }

  predicate Enabled<V>(c: Codec<V>, d: Discipline, s: Sys<V>, e: Event<V>) {
    match e
    case Update(data) => Keyed(c, data)
    case Begin(w) => !s.poisoned && w !in s.writers && |s.writers| < d.writers
    case OpenTmp(w) => w in s.writers && s.writers[w].Opening?
    case WritePart(w, _) => w in s.writers && s.writers[w].Writing?
    case WriteAll(w) => w in s.writers && s.writers[w].Writing?
    case Sync(w) => w in s.writers && s.writers[w].Written?
    case Rename(w) => w in s.writers && (s.writers[w].Synced? || (!d.fsync && s.writers[w].Written?))
    case Fail(w, _) => w in s.writers
    case Crash(_, undone) => undone ==> |s.mains| >= 2
    case LoadStore(_) => true
  }

  /** `O_CREAT | O_TRUNC` on the temporary name. */
  function Opened<V>(s: Sys<V>, w: nat, text: string): (r: Sys<V>)
    requires WellFormed(s)
    ensures WellFormed(r)
  {
    if s.tmp.Some? then
      s.(inodes := s.inodes[s.tmp.value := ""], synced := s.synced - {s.tmp.value},
         writers := s.writers[w := Writing(text, s.tmp.value)])
    else
      s.(inodes := s.inodes + [""], tmp := Some(|s.inodes|), writers := s.writers[w := Writing(text, |s.inodes|)])
  }

  /** Writer `w` puts a text into its file, which is then no longer synced. */
  function Filled<V>(s: Sys<V>, w: nat, text: string, x: Writer): (r: Sys<V>)
    requires WellFormed(s) && !x.Opening? && x.inode < |s.inodes|
    ensures WellFormed(r)
  {
    s.(inodes := s.inodes[x.inode := text], synced := s.synced - {x.inode}, writers := s.writers[w := x])
  }

  /** Whatever is under the temporary name takes over the store's name. */
  function Renamed<V>(s: Sys<V>, w: nat): Sys<V> {
    if s.tmp.Some? then s.(mains := s.mains + [s.tmp], tmp := None, writers := s.writers - {w})
    else s.(writers := s.writers - {w})
  }

  /** What is left of the files: synced ones are intact, the others arbitrary. */
  function Torn(inodes: seq<string>, synced: set<Inode>, torn: seq<string>): (r: seq<string>)
    ensures |r| == |inodes|
    ensures forall i :: 0 <= i < |inodes| && i in synced ==> r[i] == inodes[i]
  {
    seq(|inodes|, i requires 0 <= i < |inodes| => if i in synced || i >= |torn| then inodes[i] else torn[i])
  }

  function Crashed<V>(s: Sys<V>, torn: seq<string>, undone: bool): Sys<V>
    requires undone ==> |s.mains| >= 2
  {
    Sys(map[], false, Torn(s.inodes, s.synced, torn), s.synced,
        if undone then s.mains[..|s.mains| - 1] else s.mains,
        if undone then s.mains[|s.mains| - 1] else s.tmp, map[], s.saved)
  }

  function Loaded<V>(c: Codec<V>, s: Sys<V>, renamed: bool): Sys<V>
    requires WellFormed(s)
  {
    if MainFile(s).None? then s else
    match ReadStore(c, s.inodes[MainFile(s).value])
    case Some(m) => s.(data := m + s.data)
    case None => s.(poisoned := true, mains := if renamed then s.mains + [None] else s.mains)
  }

  function Step<V>(c: Codec<V>, d: Discipline, s: Sys<V>, e: Event<V>): (r: Sys<V>)
    requires WellFormed(s) && Enabled(c, d, s, e)
    ensures WellFormed(r)
  {
    match e
    case Update(data) => s.(data := data)
    case Begin(w) => s.(writers := s.writers[w := Opening(Serialise(c, s.data))], saved := s.saved + [s.data])
    case OpenTmp(w) => Opened(s, w, s.writers[w].text)
    case WritePart(w, bytes) => Filled(s, w, bytes, s.writers[w])
    case WriteAll(w) =>
      var x := s.writers[w];
      Filled(s, w, x.text, Written(x.text, x.inode))
    case Sync(w) =>
      var x := s.writers[w];
      s.(synced := s.synced + {x.inode}, writers := s.writers[w := Synced(x.text, x.inode)])
    case Rename(w) => Renamed(s, w)
    case Fail(w, removed) =>
      s.(writers := s.writers - {w}, tmp := if removed && !s.writers[w].Opening? then None else s.tmp)
    case Crash(torn, undone) => Crashed(s, torn, undone)
    case LoadStore(renamed) => Loaded(c, s, renamed)
  }

  predicate Valid<V>(c: Codec<V>, d: Discipline, s: Sys<V>, evs: seq<Event<V>>)
    requires WellFormed(s)
    decreases |evs|
  {
    evs == [] || (Enabled(c, d, s, evs[0]) && Valid(c, d, Step(c, d, s, evs[0]), evs[1..]))
  }

  function Run<V>(c: Codec<V>, d: Discipline, s: Sys<V>, evs: seq<Event<V>>): (r: Sys<V>)
    requires WellFormed(s) && Valid(c, d, s, evs)
    ensures WellFormed(r)
    decreases |evs|
  {
    if evs == [] then s else Run(c, d, Step(c, d, s, evs[0]), evs[1..])
  }

  // ---- One persist at a time ----

  /** A complete serialisation of a map that memory held when a persist began. */
  predicate Complete<V>(c: Codec<V>, saved: seq<map<string, V>>, text: string) {
    exists k :: 0 <= k < |saved| && text == Serialise(c, saved[k])
  }

  predicate WriterOk<V>(c: Codec<V>, s: Sys<V>, x: Writer) {
    && Complete(c, s.saved, x.text)
    && (!x.Opening? ==> s.tmp == Some(x.inode) && x.inode < |s.inodes|)
    && (x.Written? || x.Synced? ==> s.inodes[x.inode] == x.text)
    && (x.Synced? ==> x.inode in s.synced)
  }

  ghost predicate Inv<V(!new)>(c: Codec<V>, s: Sys<V>) {
    && WellFormed(s) && !s.poisoned && Keyed(c, s.data)
    && (forall k :: 0 <= k < |s.saved| ==> Keyed(c, s.saved[k]))
    && (forall k :: 0 <= k < |s.mains| && s.mains[k].Some? ==>
          s.mains[k].value in s.synced && Complete(c, s.saved, s.inodes[s.mains[k].value]))
    && (forall k :: 0 <= k < |s.mains| && s.mains[k].Some? ==> s.tmp != s.mains[k])
    && (forall k, l :: 0 <= k < l < |s.mains| && s.mains[k].Some? ==> s.mains[k] != s.mains[l])
    && (forall w, w' :: w in s.writers && w' in s.writers ==> w == w')
    && (forall w :: w in s.writers ==> WriterOk(c, s, s.writers[w]))
  }

  lemma CompleteReads<V(!new)>(c: Codec<V>, saved: seq<map<string, V>>, text: string)
    requires Lawful(c) && Complete(c, saved, text)
    requires forall k :: 0 <= k < |saved| ==> Keyed(c, saved[k])
    ensures ReadStore(c, text).Some? && Keyed(c, ReadStore(c, text).value)
  {
    var k :| 0 <= k < |saved| && text == Serialise(c, saved[k]);
    RoundTrip(c, saved[k]);
  }

  lemma CompleteGrows<V>(c: Codec<V>, saved: seq<map<string, V>>, m: map<string, V>, text: string)
    requires Complete(c, saved, text)
    ensures Complete(c, saved + [m], text)
  {
    var k :| 0 <= k < |saved| && text == Serialise(c, saved[k]);
    assert (saved + [m])[k] == saved[k];
  }

  lemma BeginStep<V(!new)>(c: Codec<V>, d: Discipline, s: Sys<V>, w: nat)
    requires Inv(c, s) && d.writers <= 1 && Enabled(c, d, s, Begin(w))
    ensures Inv(c, Step(c, d, s, Begin(w)))
  {
    var s' := Step(c, d, s, Begin(w));
    assert s.writers == map[];
    assert s'.saved[|s.saved|] == s.data;
    assert Complete(c, s'.saved, Serialise(c, s.data));
    forall k | 0 <= k < |s.mains| && s.mains[k].Some? ensures Complete(c, s'.saved, s.inodes[s.mains[k].value]) {
      CompleteGrows(c, s.saved, s.data, s.inodes[s.mains[k].value]);
    }
  }

  lemma RenameStep<V(!new)>(c: Codec<V>, d: Discipline, s: Sys<V>, w: nat)
    requires Inv(c, s) && d.fsync && Enabled(c, d, s, Rename(w))
    ensures Inv(c, Step(c, d, s, Rename(w)))
  {
    assert WriterOk(c, s, s.writers[w]);
  }

  lemma CrashStep<V(!new)>(c: Codec<V>, d: Discipline, s: Sys<V>, torn: seq<string>, undone: bool)
    requires Inv(c, s) && (undone ==> |s.mains| >= 2)
    ensures Inv(c, Crashed(s, torn, undone))
  {
    var s' := Crashed(s, torn, undone);
    forall k | 0 <= k < |s'.mains| && s'.mains[k].Some?
      ensures s'.tmp != s'.mains[k] && Complete(c, s'.saved, s'.inodes[s'.mains[k].value])
    {
      assert s'.mains[k] == s.mains[k];
    }
  }

  lemma FileStep<V(!new)>(c: Codec<V>, d: Discipline, s: Sys<V>, e: Event<V>)
    requires Inv(c, s) && Enabled(c, d, s, e)
    requires e.OpenTmp? || e.WritePart? || e.WriteAll? || e.Sync? || e.Fail?
    ensures Inv(c, Step(c, d, s, e))
  {
    assert WriterOk(c, s, s.writers[e.w]);
    var s' := Step(c, d, s, e);
    forall k | 0 <= k < |s'.mains| && s'.mains[k].Some?
      ensures s'.inodes[s'.mains[k].value] == s.inodes[s.mains[k].value]
    {
    }
  }

  lemma LoadStep<V(!new)>(c: Codec<V>, s: Sys<V>, renamed: bool)
    requires Lawful(c) && Inv(c, s)
    ensures Inv(c, Loaded(c, s, renamed))
  {
    if MainFile(s).Some? { CompleteReads(c, s.saved, s.inodes[MainFile(s).value]); }
  }

  lemma InvStep<V(!new)>(c: Codec<V>, d: Discipline, s: Sys<V>, e: Event<V>)
    requires Lawful(c) && d.writers <= 1 && d.fsync && Inv(c, s) && Enabled(c, d, s, e)
    ensures Inv(c, Step(c, d, s, e))
  {
    match e
    case Update(data) =>
    case Begin(w) => BeginStep(c, d, s, w);
    case Rename(w) => RenameStep(c, d, s, w);
    case Crash(torn, undone) => CrashStep(c, d, s, torn, undone);
    case LoadStore(renamed) => LoadStep(c, s, renamed);
    case _ => FileStep(c, d, s, e);
  }

  lemma {:induction false} InvRun<V(!new)>(c: Codec<V>, d: Discipline, s: Sys<V>, evs: seq<Event<V>>)
    requires Lawful(c) && d.writers <= 1 && d.fsync && Inv(c, s) && Valid(c, d, s, evs)
    ensures Inv(c, Run(c, d, s, evs))
    decreases |evs|
  {
    if evs != [] {
      InvStep(c, d, s, evs[0]);
      InvRun(c, d, Step(c, d, s, evs[0]), evs[1..]);
    }
  }

  /** With one persist in flight at a time, each synced before its rename, in
      every run of updates, persists, failures, crashes and loads the store file
      is absent or a complete serialisation of an earlier memory, and the store
      is never poisoned. */
  lemma MainAlwaysComplete<V(!new)>(c: Codec<V>, evs: seq<Event<V>>)
    requires Lawful(c) && Valid(c, Discipline(1, true), Empty(), evs)
    ensures var s := Run(c, Discipline(1, true), Empty(), evs);
            !s.poisoned && (MainFile(s).Some? ==> Complete(c, s.saved, s.inodes[MainFile(s).value]))
  {
    InvRun(c, Discipline(1, true), Empty(), evs);
  }

  // ---- A persist that returns ----

  /** The store's name refers to a synced file with the given text. */
  predicate Durably<V>(s: Sys<V>, text: string)
    requires WellFormed(s)
  {
    MainFile(s).Some? && MainFile(s).value in s.synced && s.inodes[MainFile(s).value] == text
  }

  /** From an open temporary file to the renamed store. */
  lemma WriteOut<V>(c: Codec<V>, d: Discipline, s: Sys<V>, w: nat) returns (evs: seq<Event<V>>)
    requires WellFormed(s) && s.writers.Keys == {w} && s.writers[w].Writing? && s.tmp == Some(s.writers[w].inode)
    ensures Valid(c, d, s, evs)
    ensures var r := Run(c, d, s, evs);
            && r.data == s.data && r.poisoned == s.poisoned && r.writers == map[] && r.tmp == None
            && Durably(r, s.writers[w].text)
  {
    var s1 := Step(c, d, s, WriteAll(w));
    var s2 := Step(c, d, s1, Sync(w));
    var s3 := Step(c, d, s2, Rename(w));
    assert s3.writers == map[];
    Unroll(c, d, s2, Rename(w), []);
    evs := [Rename(w)] + [];
    Unroll(c, d, s1, Sync(w), evs);
    evs := [Sync(w)] + evs;
    Unroll(c, d, s, WriteAll(w), evs);
    evs := [WriteAll(w)] + evs;
  }

  /** The steps of one successful persist put the serialised memory under the store's name. */
  lemma PersistCompletes<V>(c: Codec<V>, d: Discipline, s: Sys<V>, w: nat) returns (evs: seq<Event<V>>)
    requires d.writers >= 1 && WellFormed(s) && !s.poisoned && s.writers == map[]
    ensures Valid(c, d, s, evs)
    ensures var r := Run(c, d, s, evs);
            && r.data == s.data && !r.poisoned && r.writers == map[] && r.tmp == None
            && Durably(r, Serialise(c, s.data))
  {
    var s1 := Step(c, d, s, Begin(w));
    var s2 := Step(c, d, s1, OpenTmp(w));
    evs := WriteOut(c, d, s2, w);
    Unroll(c, d, s1, OpenTmp(w), evs);
    evs := [OpenTmp(w)] + evs;
    Unroll(c, d, s, Begin(w), evs);
    evs := [Begin(w)] + evs;
  }

  /** After a completed persist, a crash that keeps the rename and a restart
      bring back what was saved. */
  lemma PersistedSurvivesCrash<V(!new)>(c: Codec<V>, s: Sys<V>, m: map<string, V>, torn: seq<string>, renamed: bool)
    requires Lawful(c) && WellFormed(s) && Keyed(c, m) && Durably(s, Serialise(c, m))
    ensures var r := Loaded(c, Crashed(s, torn, false), renamed);
            r.data == m - {VERSION_KEY} && !r.poisoned
  {
    RoundTrip(c, m);
    var saved := m - {VERSION_KEY};
    assert saved + map[] == saved;
  }

  // ---- The steps refine the calls ----

  function TextOf<V>(s: Sys<V>, i: Option<Inode>): Option<string>
    requires i.Some? ==> i.value < |s.inodes|
  {
    if i.Some? then Some(s.inodes[i.value]) else None
  }

  /** The store as one call sees it: the texts under the two names, and backups made elsewhere. */
  function Abs<V>(s: Sys<V>, corrupt: map<string, string>): State<V>
    requires WellFormed(s)
  {
    State(s.data, s.poisoned, TextOf(s, MainFile(s)), TextOf(s, s.tmp), corrupt)
  }

  /** The two names never refer to one file. */
  predicate Apart<V>(s: Sys<V>)
    requires WellFormed(s)
  {
    s.tmp.Some? ==> s.tmp != MainFile(s)
  }

  /** One call, writer `w`, has the temporary file open. */
  predicate Holding<V>(s: Sys<V>, w: nat) {
    && WellFormed(s) && Apart(s) && s.writers.Keys == {w} && !s.writers[w].Opening?
    && s.tmp == Some(s.writers[w].inode)
  }

  /** Opening the temporary file empties it and touches nothing else. */
  lemma OpenedEmpty<V>(c: Codec<V>, d: Discipline, s: Sys<V>, w: nat, corrupt: map<string, string>)
    requires d.writers >= 1 && WellFormed(s) && Apart(s) && !s.poisoned && s.writers == map[]
    ensures Enabled(c, d, s, Begin(w)) && Enabled(c, d, Step(c, d, s, Begin(w)), OpenTmp(w))
    ensures var r := Step(c, d, Step(c, d, s, Begin(w)), OpenTmp(w));
            && Holding(r, w) && r.writers[w].Writing? && r.writers[w].text == Serialise(c, s.data)
            && Abs(r, corrupt) == Abs(s, corrupt).(tmp := Some(""))
  {
  }

  /** A call that cannot open the temporary file changes nothing and cleans nothing up. */
  lemma OpenFailureHarmless<V>(c: Codec<V>, d: Discipline, s: Sys<V>, w: nat, removed: bool, corrupt: map<string, string>)
    requires d.writers >= 1 && WellFormed(s) && !s.poisoned && s.writers == map[]
    ensures Enabled(c, d, s, Begin(w))
    ensures var r := Step(c, d, Step(c, d, s, Begin(w)), Fail(w, removed));
            r.writers == map[] && Abs(r, corrupt) == Abs(s, corrupt)
  {
    assert Step(c, d, Step(c, d, s, Begin(w)), Fail(w, removed)).writers == map[];
  }

  /** A crash empties memory and keeps every synced text; a leftover under the
      temporary name stays, and a rename that is undone puts its file back
      there and its predecessor under the store's name. */
  lemma CrashedNames<V>(s: Sys<V>, torn: seq<string>, undone: bool)
    requires WellFormed(s) && (undone ==> |s.mains| >= 2)
    ensures var r := Crashed(s, torn, undone);
            && WellFormed(r) && r.data == map[] && !r.poisoned && r.writers == map[]
            && (forall i :: i in s.synced ==> r.inodes[i] == s.inodes[i])
            && (if undone then MainFile(r) == s.mains[|s.mains| - 2] && r.tmp == MainFile(s)
                else MainFile(r) == MainFile(s) && r.tmp == s.tmp)
  {
  }

  lemma PartStep<V>(c: Codec<V>, d: Discipline, s: Sys<V>, w: nat, bytes: string, corrupt: map<string, string>)
    requires Holding(s, w) && s.writers[w].Writing?
    ensures var r := Step(c, d, s, WritePart(w, bytes));
            Holding(r, w) && Abs(r, corrupt) == Abs(s, corrupt).(tmp := Some(bytes))
  {
  }

  lemma AllStep<V>(c: Codec<V>, d: Discipline, s: Sys<V>, w: nat, corrupt: map<string, string>)
    requires Holding(s, w) && s.writers[w].Writing?
    ensures var r := Step(c, d, s, WriteAll(w));
            Holding(r, w) && r.writers[w].Written? && Abs(r, corrupt) == Abs(s, corrupt).(tmp := Some(s.writers[w].text))
  {
  }

  lemma SyncStep<V>(c: Codec<V>, d: Discipline, s: Sys<V>, w: nat, corrupt: map<string, string>)
    requires Holding(s, w) && s.writers[w].Written?
    ensures var r := Step(c, d, s, Sync(w));
            Holding(r, w) && r.writers[w].Synced? && Abs(r, corrupt) == Abs(s, corrupt)
  {
  }

  /** The end of a call: given up, or renamed into place. */
  lemma LastStep<V>(c: Codec<V>, d: Discipline, s: Sys<V>, w: nat, e: Event<V>, corrupt: map<string, string>)
    requires Holding(s, w) && ((e.Rename? && s.writers[w].Synced?) || e.Fail?) && e.w == w
    ensures Valid(c, d, s, [e])
    ensures var a, r := Abs(s, corrupt), Run(c, d, s, [e]);
            && r.writers == map[]
            && Abs(r, corrupt) == if e.Rename? then a.(main := a.tmp, tmp := None)
                                  else a.(tmp := if e.removed then None else a.tmp)
  {
    Unroll(c, d, s, e, []);
    assert [e] + [] == [e];
    assert Step(c, d, s, e).writers == map[];
  }

  /** The steps after the temporary file is open, for each way they can end. */
  lemma WriteSteps<V>(c: Codec<V>, d: Discipline, s: Sys<V>, w: nat, o: Outcome, corrupt: map<string, string>)
    returns (evs: seq<Event<V>>)
    requires Holding(s, w) && s.writers[w].Writing? && !o.NotStarted?
    ensures Valid(c, d, s, evs) && Run(c, d, s, evs).writers == map[]
    ensures Abs(Run(c, d, s, evs), corrupt) == Ended(Abs(s, corrupt), s.writers[w].text, o)
  {
    if o.WriteFails? {
      PartStep(c, d, s, w, o.torn, corrupt);
      LastStep(c, d, Step(c, d, s, WritePart(w, o.torn)), w, Fail(w, o.removed), corrupt);
      Unroll(c, d, s, WritePart(w, o.torn), [Fail(w, o.removed)]);
      evs := [WritePart(w, o.torn)] + [Fail(w, o.removed)];
    } else {
      AllStep(c, d, s, w, corrupt);
      evs := WrittenSteps(c, d, Step(c, d, s, WriteAll(w)), w, o, corrupt);
      Unroll(c, d, s, WriteAll(w), evs);
      evs := [WriteAll(w)] + evs;
    }
  }

  lemma WrittenSteps<V>(c: Codec<V>, d: Discipline, s: Sys<V>, w: nat, o: Outcome, corrupt: map<string, string>)
    returns (evs: seq<Event<V>>)
    requires Holding(s, w) && s.writers[w].Written? && !o.NotStarted? && !o.WriteFails?
    ensures Valid(c, d, s, evs) && Run(c, d, s, evs).writers == map[]
    ensures var a := Abs(s, corrupt);
            a.tmp.Some? && Abs(Run(c, d, s, evs), corrupt) == Ended(a, a.tmp.value, o)
  {
    if o.SyncFails? {
      LastStep(c, d, s, w, Fail(w, o.removed), corrupt);
      evs := [Fail(w, o.removed)];
    } else {
      var e: Event<V> := if o.Done? then Rename(w) else Fail(w, o.removed);
      SyncStep(c, d, s, w, corrupt);
      LastStep(c, d, Step(c, d, s, Sync(w)), w, e, corrupt);
      Unroll(c, d, s, Sync(w), [e]);
      evs := [Sync(w)] + [e];
    }
  }

  /** The names after a call that writes `text` and ends in this way. */
  function Ended<V>(a: State<V>, text: string, o: Outcome): State<V>
    requires !o.NotStarted?
  {
    match o
    case Done => a.(main := Some(text), tmp := None)
    case WriteFails(torn, removed) => a.(tmp := if removed then None else Some(torn))
    case SyncFails(removed) => a.(tmp := if removed then None else Some(text))
    case RenameFails(removed) => a.(tmp := if removed then None else Some(text))
  }

  /** Each way one call of `persist` can go is a run of steps with the effect
      the call promises, from any quiet state. */
  lemma StepsRefinePersist<V>(c: Codec<V>, d: Discipline, s: Sys<V>, w: nat, o: Outcome, corrupt: map<string, string>)
    returns (evs: seq<Event<V>>)
    requires d.writers >= 1 && WellFormed(s) && Apart(s) && s.writers == map[]
    ensures Valid(c, d, s, evs) && Run(c, d, s, evs).writers == map[]
    ensures Abs(Run(c, d, s, evs), corrupt) == AfterPersist(c, Abs(s, corrupt), o)
    ensures s.poisoned ==> forall x :: !Enabled(c, d, s, Begin(x))
  {
    if s.poisoned || o.NotStarted? {
      evs := [];
    } else {
      OpenedEmpty(c, d, s, w, corrupt);
      var s1 := Step(c, d, s, Begin(w));
      var s2 := Step(c, d, s1, OpenTmp(w));
      evs := WriteSteps(c, d, s2, w, o, corrupt);
      Unroll(c, d, s1, OpenTmp(w), evs);
      evs := [OpenTmp(w)] + evs;
      Unroll(c, d, s, Begin(w), evs);
      evs := [Begin(w)] + evs;
    }
  }

  lemma LoadedAs<V>(c: Codec<V>, s: Sys<V>, renamed: bool, text: string)
    requires WellFormed(s) && TextOf(s, MainFile(s)) == Some(text)
    ensures var l := Loaded(c, s, renamed);
            && WellFormed(l) && l.tmp == s.tmp && l.inodes == s.inodes
            && match ReadStore(c, text)
               case Some(m) => l.data == m + s.data && l.poisoned == s.poisoned && MainFile(l) == MainFile(s)
               case None => l.data == s.data && l.poisoned && MainFile(l) == if renamed then None else MainFile(s)
  {
  }

  /** Loading takes one step in both. */
  lemma LoadRefines<V>(c: Codec<V>, s: Sys<V>, corrupt: map<string, string>, stamp: string, renamed: bool)
    requires WellFormed(s)
    ensures var r := AfterLoad(c, Abs(s, corrupt), stamp, renamed);
            WellFormed(Loaded(c, s, renamed)) && Abs(Loaded(c, s, renamed), corrupt) == r.(corrupt := corrupt)
  {
    if MainFile(s).Some? { LoadedAs(c, s, renamed, s.inodes[MainFile(s).value]); }
  }

  // ---- Other disciplines ----

  lemma Unroll<V>(c: Codec<V>, d: Discipline, s: Sys<V>, e: Event<V>, rest: seq<Event<V>>)
    requires WellFormed(s) && Enabled(c, d, s, e) && Valid(c, d, Step(c, d, s, e), rest)
    ensures Valid(c, d, s, [e] + rest) && Run(c, d, s, [e] + rest) == Run(c, d, Step(c, d, s, e), rest)
  {
    assert ([e] + rest)[1..] == rest;
  }

  /** A crash and a restart over a store file that is empty, or not synced. */
  lemma WeakMainPoisons<V>(c: Codec<V>, d: Discipline, s: Sys<V>) returns (evs: seq<Event<V>>)
    requires WellFormed(s) && c.parse("") == None && MainFile(s) == Some(0)
    requires s.inodes[0] == "" || 0 !in s.synced
    ensures Valid(c, d, s, evs) && Run(c, d, s, evs).poisoned
  {
    var s' := Step(c, d, s, Crash([""], false));
    EmptyMainPoisons(c, d, s');
    Unroll(c, d, s', LoadStore(true), []);
    evs := [LoadStore(true)] + [];
    Unroll(c, d, s, Crash([""], false), evs);
    evs := [Crash([""], false)] + evs;
  }

  lemma EmptyMainPoisons<V>(c: Codec<V>, d: Discipline, s: Sys<V>)
    requires WellFormed(s) && c.parse("") == None && MainFile(s).Some? && s.inodes[MainFile(s).value] == ""
    ensures Step(c, d, s, LoadStore(true)).poisoned
  {
    assert ReadStore(c, "") == None;
  }

  /** A second call truncates the shared temporary file between the first
      call's fsync and its rename. */
  lemma SecondWriterTruncates<V>(c: Codec<V>, d: Discipline, s: Sys<V>) returns (evs: seq<Event<V>>)
    requires d.writers >= 2 && c.parse("") == None && WellFormed(s) && !s.poisoned
    requires s.tmp == Some(0) && s.writers.Keys == {0} && s.writers[0].Synced?
    ensures Valid(c, d, s, evs) && Run(c, d, s, evs).poisoned
  {
    assert |s.writers| == |s.writers.Keys| == 1;
    var s1 := Step(c, d, s, Begin(1));
    var s2 := Step(c, d, s1, OpenTmp(1));
    var s3 := Step(c, d, s2, Rename(0));
    evs := WeakMainPoisons(c, d, s3);
    Unroll(c, d, s2, Rename(0), evs);
    evs := [Rename(0)] + evs;
    Unroll(c, d, s1, OpenTmp(1), evs);
    evs := [OpenTmp(1)] + evs;
    Unroll(c, d, s, Begin(1), evs);
    evs := [Begin(1)] + evs;
  }

  /** Without the fsync the renamed file may lose its content in a crash. */
  lemma UnsyncedRename<V>(c: Codec<V>, d: Discipline, s: Sys<V>) returns (evs: seq<Event<V>>)
    requires !d.fsync && c.parse("") == None && WellFormed(s)
    requires s.tmp == Some(0) && 0 in s.writers && s.writers[0].Written? && 0 !in s.synced
    ensures Valid(c, d, s, evs) && Run(c, d, s, evs).poisoned
  {
    var s1 := Step(c, d, s, Rename(0));
    evs := WeakMainPoisons(c, d, s1);
    Unroll(c, d, s, Rename(0), evs);
    evs := [Rename(0)] + evs;
  }

  /** A first call has written the temporary file and not yet synced it. */
  function FirstWritten<V>(c: Codec<V>, d: Discipline): (s: Sys<V>)
    requires d.writers >= 1
    ensures WellFormed(s) && !s.poisoned && s.tmp == Some(0) && 0 !in s.synced
    ensures s.writers.Keys == {0} && s.writers[0].Written?
  {
    Step(c, d, Step(c, d, Step(c, d, Empty(), Begin(0)), OpenTmp(0)), WriteAll(0))
  }

  lemma FromStart<V>(c: Codec<V>, d: Discipline, rest: seq<Event<V>>) returns (evs: seq<Event<V>>)
    requires d.writers >= 1 && Valid(c, d, FirstWritten(c, d), rest)
    ensures Valid(c, d, Empty(), evs) && Run(c, d, Empty(), evs) == Run(c, d, FirstWritten(c, d), rest)
  {
    var s0: Sys<V> := Empty();
    var s1 := Step(c, d, s0, Begin(0));
    Unroll(c, d, Step(c, d, s1, OpenTmp(0)), WriteAll(0), rest);
    evs := [WriteAll(0)] + rest;
    Unroll(c, d, s1, OpenTmp(0), evs);
    evs := [OpenTmp(0)] + evs;
    Unroll(c, d, s0, Begin(0), evs);
    evs := [Begin(0)] + evs;
  }

  /** With two calls in flight, or without the fsync, some run puts an empty
      file under the store's name, and the next start poisons the store. */
  lemma WeakDisciplinePoisons<V>(c: Codec<V>, d: Discipline) returns (evs: seq<Event<V>>)
    requires (d.writers >= 2 || (d.writers == 1 && !d.fsync)) && c.parse("") == None
    ensures Valid(c, d, Empty(), evs) && Run(c, d, Empty(), evs).poisoned
  {
    var s := FirstWritten(c, d);
    if d.fsync {
      evs := SecondWriterTruncates(c, d, Step(c, d, s, Sync(0)));
      Unroll(c, d, s, Sync(0), evs);
      evs := [Sync(0)] + evs;
    } else {
      evs := UnsyncedRename(c, d, s);
    }
    evs := FromStart(c, d, evs);
  }

  /** Exactly which disciplines are safe: the store never poisons itself if and
      only if at most one persist is in flight and it syncs before it renames. */
  lemma SafeIffOneSyncedWriter<V(!new)>(c: Codec<V>, d: Discipline)
    requires Lawful(c) && c.parse("") == None
    ensures (forall evs :: Valid(c, d, Empty(), evs) ==> !Run(c, d, Empty(), evs).poisoned)
            <==> d.writers == 0 || (d.writers == 1 && d.fsync)
  {
    if d.writers == 0 || (d.writers == 1 && d.fsync) {
      forall evs | Valid(c, d, Empty(), evs) ensures !Run(c, d, Empty(), evs).poisoned {
        if d.writers == 0 {
          NoWriterRun(c, d, Empty(), evs);
        } else {
          InvRun(c, d, Empty(), evs);
        }
      }
    } else {
      var evs := WeakDisciplinePoisons(c, d);
    }
  }

  /** Without any persist there is never a file to read. */
  lemma {:induction false} NoWriterRun<V>(c: Codec<V>, d: Discipline, s: Sys<V>, evs: seq<Event<V>>)
    requires d.writers == 0 && WellFormed(s) && Valid(c, d, s, evs)
    requires !s.poisoned && s.writers == map[] && s.mains == [None]
    ensures !Run(c, d, s, evs).poisoned
    decreases |evs|
  {
    if evs != [] { NoWriterRun(c, d, Step(c, d, s, evs[0]), evs[1..]); }
  }
}
