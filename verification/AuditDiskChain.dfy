/** The chain on disk: which events keep everything recorded one linked chain,
    and exactly which break it. */
module AuditDiskChain {
  import opened Seqs
  import opened Json
  import opened AuditEntries
  import opened Rotation
  import opened AuditLogs
  import opened AuditRuns

  /** Memory is intact, the durable record is one chain that ends in the tip,
      and an active file holds at least one entry. */
  predicate DiskInv(cfg: Config, s: State) {
    && ChainInv(cfg, s)
    && Linked(cfg.env, Durable(cfg, s)) && s.lastHash == TipOf(cfg.env, Durable(cfg, s))
    && (if 0 in s.files then DecodeFile(cfg.env, s.files[0]) != [] else History(cfg, s.files) == [])
  }

  /** `g` is everything ever recorded on this chain, of which the durable
      record is the retained end. */
  predicate Ancestry(cfg: Config, s: State, g: seq<Entry>) {
    Rooted(cfg.env, g) && IsSuffix(Durable(cfg, s), g)
  }

  /** The events after which the next record still extends the chain. A clear
      must find nothing recorded; a load must find no append outstanding, or no
      file; an append must not overtake another; a crash inside an append must
      not have moved the active file away. */
  predicate Gentle(cfg: Config, s: State, ev: Event) {
    match ev
    case Record(_, _, _, _, _) => true
    case Drain(i) => i == 0 || i >= |s.pending|
    case Clear => Durable(cfg, s) == []
    case Load => s.pending == [] || 0 !in s.files
    case Restart => true
    case TornAppend(done) => !(s.pending != [] && ActiveFull(cfg, s.files) && 1 <= cfg.backups <= done)
  }

  // ---- Gentle events keep the chain ----

  lemma LinkedPrefix(env: Env, a: seq<Entry>, b: seq<Entry>)
    requires Linked(env, a + b)
    ensures Linked(env, a)
  {
    forall i | 1 <= i < |a| ensures a[i].prevHash == Some(EntryHash(env, a[i - 1])) {
      assert (a + b)[i] == a[i] && (a + b)[i - 1] == a[i - 1];
    }
  }

  lemma RecordDurable(cfg: Config, s: State, e: Entry)
    requires cfg.persistent
    ensures Durable(cfg, AfterRecord(cfg, s, e)) == Durable(cfg, s) + [e]
  {
    assert History(cfg, s.files) + (s.pending + [e]) == (History(cfg, s.files) + s.pending) + [e];
  }

  /** The retained end `d` of a rooted chain, one entry later. */
  lemma AncestryAppend(env: Env, d: seq<Entry>, g: seq<Entry>, e: Entry) returns (g': seq<Entry>)
    requires Rooted(env, g) && IsSuffix(d, g) && e.prevHash == TipOf(env, d)
    ensures Rooted(env, g') && IsSuffix(d + [e], g')
  {
    if d == [] {
      g' := [e];
    } else {
      LinkedSuffix(env, d, g);
      LinkedAppend(env, g, e);
      SuffixAppend(d, g, e);
      g' := g + [e];
      assert g'[0] == g[0];
    }
  }

  lemma DiskRecord(cfg: Config, s: State, g: seq<Entry>, e: Entry) returns (g': seq<Entry>)
    requires cfg.persistent && DiskInv(cfg, s) && Ancestry(cfg, s, g) && e.prevHash == s.lastHash
    ensures DiskInv(cfg, AfterRecord(cfg, s, e)) && Ancestry(cfg, AfterRecord(cfg, s, e), g')
  {
    ChainRecord(cfg, s, e);
    RecordDurable(cfg, s, e);
    LinkedAppend(cfg.env, Durable(cfg, s), e);
    g' := AncestryAppend(cfg.env, Durable(cfg, s), g, e);
  }

  lemma DiskDrain(cfg: Config, s: State, g: seq<Entry>)
    requires Lawful(cfg.env) && DiskInv(cfg, s) && Ancestry(cfg, s, g)
    ensures DiskInv(cfg, AfterDrain(cfg, s, 0)) && Ancestry(cfg, AfterDrain(cfg, s, 0), g)
  {
    var s' := AfterDrain(cfg, s, 0);
    DrainDurable(cfg, s);
    SuffixTransitive(Durable(cfg, s'), Durable(cfg, s), g);
    if s.pending != [] { LinkedSuffix(cfg.env, Durable(cfg, s'), Durable(cfg, s)); }
  }

  lemma ActiveOfLinked(cfg: Config, files: Files<File>)
    requires Linked(cfg.env, History(cfg, files))
    ensures ActiveLinked(cfg, files)
  {
    if 0 in files {
      var d := Decoder(cfg.env);
      ActiveIsSuffix(files, d, cfg.backups);
      assert EntriesAt(files, d, 0) == DecodeFile(cfg.env, files[0]);
      LinkedSuffix(cfg.env, DecodeFile(cfg.env, files[0]), History(cfg, files));
    }
  }

  /** A load restores the tip of the history, from whatever memory it starts. */
  lemma LoadRestoresTip(cfg: Config, s: State)
    requires cfg.persistent && cfg.maxEntries >= 1 && Linked(cfg.env, History(cfg, s.files))
    requires 0 in s.files && DecodeFile(cfg.env, s.files[0]) != []
    ensures var s' := AfterLoad(cfg, s);
            ChainInv(cfg, s') && s'.lastHash == TipOf(cfg.env, History(cfg, s.files)) && s'.lastHash.Some?
  {
    ActiveOfLinked(cfg, s.files);
    ChainLoad(cfg, Fresh(s.files));
    LoadedIsSuffix(cfg, s);
    LinkedSuffix(cfg.env, AfterLoad(cfg, s).entries, History(cfg, s.files));
  }

  lemma DiskLoad(cfg: Config, s: State)
    requires cfg.persistent && cfg.maxEntries >= 1 && DiskInv(cfg, s) && Gentle(cfg, s, Load)
    ensures DiskInv(cfg, AfterLoad(cfg, s)) && Durable(cfg, AfterLoad(cfg, s)) == Durable(cfg, s)
  {
    if 0 in s.files {
      assert Durable(cfg, s) == History(cfg, s.files);
      LoadRestoresTip(cfg, s);
    }
  }

  /** The queue is lost, and perhaps the oldest entries. */
  lemma RestartAncestry(env: Env, h: seq<Entry>, h': seq<Entry>, p: seq<Entry>, g: seq<Entry>) returns (g': seq<Entry>)
    requires Rooted(env, g) && IsSuffix(h + p, g) && IsSuffix(h', h)
    ensures Rooted(env, g') && IsSuffix(h', g')
  {
    g' := g[..|g| - |p|];
    PrefixRooted(env, g, |g| - |p|);
    SuffixOfPrefix(h, p, g);
    SuffixTransitive(h', h, g');
  }

  /** A new process over files that lost at most a prefix, with the active file in place. */
  lemma DiskRestart(cfg: Config, s: State, files: Files<File>)
    requires cfg.persistent && cfg.maxEntries >= 1 && DiskInv(cfg, s)
    requires At(files, 0) == At(s.files, 0) && IsSuffix(History(cfg, files), History(cfg, s.files))
    ensures var s' := AfterLoad(cfg, Fresh(files)); DiskInv(cfg, s') && Durable(cfg, s') == History(cfg, files)
  {
    var h, h' := History(cfg, s.files), History(cfg, files);
    LinkedPrefix(cfg.env, h, s.pending);
    LinkedSuffix(cfg.env, h', h);
    NoQueue(h');
    if 0 in files {
      assert files[0] == s.files[0];
      LoadRestoresTip(cfg, Fresh(files));
    }
  }

  lemma NoQueue<T>(h: seq<T>)
    ensures h + [] == h
  {
  }

  lemma PrefixRooted(env: Env, g: seq<Entry>, n: nat)
    requires Rooted(env, g) && n <= |g|
    ensures Rooted(env, g[..n])
  {
    assert g == g[..n] + g[n..];
    LinkedPrefix(env, g[..n], g[n..]);
  }

  lemma TornHistory(cfg: Config, s: State, done: nat)
    ensures IsSuffix(History(cfg, TornFiles(cfg, s, done)), History(cfg, s.files))
  {
    if cfg.backups >= 1 { ShiftSomeHistory(s.files, Decoder(cfg.env), cfg.backups, done); }
  }

  /** Every gentle event keeps the durable record one chain from its root. */
  lemma DiskStep(cfg: Config, s: State, g: seq<Entry>, ev: Event) returns (g': seq<Entry>)
    requires Lawful(cfg.env) && cfg.persistent && cfg.maxEntries >= 1
    requires DiskInv(cfg, s) && Ancestry(cfg, s, g) && Gentle(cfg, s, ev)
    ensures DiskInv(cfg, Step(cfg, s, ev)) && Ancestry(cfg, Step(cfg, s, ev), g')
  {
    g' := g;
    match ev
    case Record(time, action, actor, target, details) =>
      g' := DiskRecord(cfg, s, g, NewEntry(s, time, action, actor, target, details));
    case Drain(i) => if i == 0 { DiskDrain(cfg, s, g); }
    case Clear =>
    case Load => DiskLoad(cfg, s);
    case Restart =>
      var h := History(cfg, s.files);
      assert IsSuffix(h, h);
      DiskRestart(cfg, s, s.files);
      g' := RestartAncestry(cfg.env, h, h, s.pending, g);
    case TornAppend(done) =>
      var files := TornFiles(cfg, s, done);
      TornHistory(cfg, s, done);
      TornActive(cfg, s, done);
      DiskRestart(cfg, s, files);
      g' := RestartAncestry(cfg.env, History(cfg, s.files), History(cfg, files), s.pending, g);
  }

  predicate AllGentle(cfg: Config, s: State, evs: seq<Event>) {
    forall i :: 0 <= i < |evs| ==> Gentle(cfg, Run(cfg, s, evs[..i]), evs[i])
  }

  /** In every run of gentle events from the empty log, across rotations,
      restarts, crashes and lost appends, everything on disk or queued is the
      end of one chain from its root, and memory verifies after every reload. */
  lemma {:induction false} DiskChainIntact(cfg: Config, evs: seq<Event>) returns (g: seq<Entry>)
    requires Lawful(cfg.env) && cfg.persistent && cfg.maxEntries >= 1 && AllGentle(cfg, Fresh(map[]), evs)
    ensures var s := Run(cfg, Fresh(map[]), evs); DiskInv(cfg, s) && Ancestry(cfg, s, g)
  {
    if evs == [] {
      EmptyHistory(cfg, cfg.backups);
      g := [];
    } else {
      var n := |evs| - 1;
      assert forall i :: 0 <= i < n ==> evs[..n][..i] == evs[..i];
      g := DiskChainIntact(cfg, evs[..n]);
      g := DiskStep(cfg, Run(cfg, Fresh(map[]), evs[..n]), g, evs[n]);
    }
  }

  lemma {:induction false} EmptyHistory(cfg: Config, n: nat)
    ensures Chronicle(map[], Decoder(cfg.env), n) == []
  {
    if n > 0 { EmptyHistory(cfg, n - 1); }
  }

  // ---- All other events break it ----

  lemma RootInside(env: Env, s: seq<Entry>, i: nat)
    requires 1 <= i < |s| && s[i].prevHash == None
    ensures !Linked(env, s)
  {
    assert s[i].prevHash != Some(EntryHash(env, s[i - 1]));
  }

  /** The durable record after one event and one more record. */
  function ThenRecord(cfg: Config, s: State, ev: Event, e: Event): seq<Entry>
    requires e.Record?
  {
    Durable(cfg, Step(cfg, Step(cfg, s, ev), e))
  }

  function EntryAfter(s: State, e: Event): Entry
    requires e.Record?
  {
    NewEntry(s, e.time, e.action, e.actor, e.target, e.details)
  }

  /** The next record extends the chain exactly after a gentle event; after any
      other event it breaks the chain, or a digest collision is exhibited. */
  lemma NextRecordLinksIff(cfg: Config, s: State, g: seq<Entry>, ev: Event, e: Event)
    requires Lawful(cfg.env) && cfg.persistent && cfg.maxEntries >= 1 && e.Record?
    requires DiskInv(cfg, s) && Ancestry(cfg, s, g)
    ensures Gentle(cfg, s, ev) ==> Linked(cfg.env, ThenRecord(cfg, s, ev, e))
    ensures Linked(cfg.env, ThenRecord(cfg, s, ev, e)) ==>
            Gentle(cfg, s, ev) || exists i: nat, j: nat :: CollisionIn(cfg.env, g, i, j)
  {
    var s' := Step(cfg, s, ev);
    if Gentle(cfg, s, ev) {
      var g1 := DiskStep(cfg, s, g, ev);
      var g2 := DiskStep(cfg, s', g1, e);
    } else {
      RecordDurable(cfg, s', EntryAfter(s', e));
      if Linked(cfg.env, ThenRecord(cfg, s, ev, e)) {
        match ev
        case Clear => ClearBreaks(cfg, s, e);
        case TornAppend(done) => TornBreaks(cfg, s, done, e);
        case Drain(i) => var a, b := OvertakingCollides(cfg, s, g, i, e);
        case Load => var a, b := EarlyLoadCollides(cfg, s, g, e);
      }
    }
  }

  lemma ClearBreaks(cfg: Config, s: State, e: Event)
    requires cfg.persistent && e.Record? && Durable(cfg, s) != []
    ensures !Linked(cfg.env, ThenRecord(cfg, s, Clear, e))
  {
    var s' := AfterClear(s);
    RecordDurable(cfg, s', EntryAfter(s', e));
    RootInside(cfg.env, ThenRecord(cfg, s, Clear, e), |Durable(cfg, s)|);
  }

  lemma {:induction false} ChronicleHolds(fs: Files<File>, d: File -> seq<Entry>, k: nat, n: nat)
    requires k <= n
    ensures |Chronicle(fs, d, n)| >= |EntriesAt(fs, d, k)|
  {
    if k < n { ChronicleHolds(fs, d, k, n - 1); }
  }

  /** Without an active file the new process starts from an empty tip. */
  lemma TornBreaks(cfg: Config, s: State, done: nat, e: Event)
    requires cfg.persistent && DiskInv(cfg, s) && e.Record? && !Gentle(cfg, s, TornAppend(done))
    ensures !Linked(cfg.env, ThenRecord(cfg, s, TornAppend(done), e))
  {
    var files := TornFiles(cfg, s, done);
    ShiftSomeIsAll(s.files, cfg.backups, done);
    ShiftDownAt(s.files, cfg.backups, 0);
    ShiftDownAt(s.files, cfg.backups, 1);
    var s1 := Step(cfg, s, TornAppend(done));
    assert At(files, 0) == None && At(files, 1) == At(s.files, 0);
    assert s1 == Fresh(files);
    var d := Decoder(cfg.env);
    assert EntriesAt(files, d, 1) == DecodeFile(cfg.env, s.files[0]);
    ChronicleHolds(files, d, 1, cfg.backups);
    RecordDurable(cfg, s1, EntryAfter(s1, e));
    RootInside(cfg.env, ThenRecord(cfg, s, TornAppend(done), e), |Durable(cfg, s1)|);
  }

  /** A pending entry in front of an older one would have to share the hash of
      that one's predecessor in the chain. */
  lemma OvertakenLink(env: Env, h: seq<Entry>, p: seq<Entry>, g: seq<Entry>, i: nat) returns (a: nat, b: nat)
    requires Lawful(env) && Rooted(env, g) && IsSuffix(p, g)
    requires 1 <= i < |p| && Linked(env, (h + [p[i]]) + (p[..i] + p[i + 1..]))
    ensures CollisionIn(env, g, a, b)
  {
    var d, k := (h + [p[i]]) + (p[..i] + p[i + 1..]), |g| - |p|;
    assert d[|h|] == p[i] && d[|h| + 1] == p[0];
    assert g[k] == p[0] && g[k + i] == p[i];
    assert k > 0 ==> g[k].prevHash == Some(EntryHash(env, g[k - 1]));
    a, b := EqualHashCollides(env, g, k - 1, k + i);
  }

  lemma DrainedDurable(cfg: Config, s: State, i: nat)
    requires Lawful(cfg.env) && i < |s.pending|
    ensures Durable(cfg, AfterDrain(cfg, s, i)) ==
            (History(cfg, Rotated(cfg, s.files)) + [s.pending[i]]) + (s.pending[..i] + s.pending[i + 1..])
  {
    AppendedHistory(cfg, s.files, s.pending[i]);
  }

  lemma OvertakingCollides(cfg: Config, s: State, g: seq<Entry>, i: nat, e: Event) returns (a: nat, b: nat)
    requires Lawful(cfg.env) && cfg.persistent && e.Record? && Ancestry(cfg, s, g)
    requires 1 <= i < |s.pending| && Linked(cfg.env, ThenRecord(cfg, s, Drain(i), e))
    ensures CollisionIn(cfg.env, g, a, b)
  {
    var s' := AfterDrain(cfg, s, i);
    RecordDurable(cfg, s', EntryAfter(s', e));
    LinkedPrefix(cfg.env, Durable(cfg, s'), [EntryAfter(s', e)]);
    DrainedDurable(cfg, s, i);
    PendingInAncestry(cfg, s, g);
    a, b := OvertakenLink(cfg.env, History(cfg, Rotated(cfg, s.files)), s.pending, g, i);
  }

  lemma PendingInAncestry(cfg: Config, s: State, g: seq<Entry>)
    requires Ancestry(cfg, s, g)
    ensures IsSuffix(s.pending, g)
    ensures History(cfg, s.files) != [] ==>
            |g| > |s.pending| && g[|g| - |s.pending| - 1] == History(cfg, s.files)[|History(cfg, s.files)| - 1]
  {
    var h, d := History(cfg, s.files), Durable(cfg, s);
    assert d == h + s.pending && d == g[|g| - |d|..];
    assert forall k :: 0 <= k < |d| ==> g[|g| - |d| + k] == d[k];
  }

  /** A load that misses the queued entries takes the tip of an older entry. */
  lemma EarlyLoadCollides(cfg: Config, s: State, g: seq<Entry>, e: Event) returns (a: nat, b: nat)
    requires Lawful(cfg.env) && cfg.persistent && cfg.maxEntries >= 1 && e.Record?
    requires DiskInv(cfg, s) && Ancestry(cfg, s, g) && !Gentle(cfg, s, Load)
    requires Linked(cfg.env, ThenRecord(cfg, s, Load, e))
    ensures CollisionIn(cfg.env, g, a, b)
  {
    EarlyLoadTips(cfg, s, e);
    PendingInAncestry(cfg, s, g);
    a, b := EqualHashCollides(cfg.env, g, |g| - |s.pending| - 1, |g| - 1);
  }

  lemma EarlyLoadTips(cfg: Config, s: State, e: Event)
    requires cfg.persistent && cfg.maxEntries >= 1 && e.Record? && DiskInv(cfg, s)
    requires s.pending != [] && 0 in s.files && Linked(cfg.env, ThenRecord(cfg, s, Load, e))
    ensures var h, p := History(cfg, s.files), s.pending;
            h != [] && EntryHash(cfg.env, h[|h| - 1]) == EntryHash(cfg.env, p[|p| - 1])
  {
    var h, x := History(cfg, s.files), EntryAfter(AfterLoad(cfg, s), e);
    LinkedPrefix(cfg.env, h, s.pending);
    LoadThenRecord(cfg, s, e);
    LoadRestoresTip(cfg, s);
    SameTip(cfg.env, h, s.pending, x);
  }

  lemma LoadThenRecord(cfg: Config, s: State, e: Event)
    requires cfg.persistent && e.Record?
    ensures ThenRecord(cfg, s, Load, e) == (History(cfg, s.files) + s.pending) + [EntryAfter(AfterLoad(cfg, s), e)]
  {
    var s' := AfterLoad(cfg, s);
    assert s'.files == s.files && s'.pending == s.pending;
    RecordDurable(cfg, s', EntryAfter(s', e));
  }

  lemma SameTip(env: Env, h: seq<Entry>, p: seq<Entry>, x: Entry)
    requires p != [] && h != [] && Linked(env, (h + p) + [x]) && x.prevHash == TipOf(env, h)
    ensures EntryHash(env, h[|h| - 1]) == EntryHash(env, p[|p| - 1])
  {
    var d := (h + p) + [x];
    assert d[|h + p|] == x && d[|h + p| - 1] == p[|p| - 1];
  }

  // ---- What a reload sees ----

  lemma {:induction false} DecodeAppend(env: Env, file: seq<Line>, x: Entry)
    requires Lawful(env)
    ensures DecodeFile(env, file + [Value(Encode(env, x))]) == DecodeFile(env, file) + [x]
  {
    DecodeEncode(env, x);
    assert (file + [Value(Encode(env, x))])[..|file|] == file;
  }

  /** What the active file holds when the next line is written. */
  function Kept(cfg: Config, files: Files<File>): File {
    if 0 in files && !ActiveFull(cfg, files) then files[0] else []
  }

  lemma AppendedActive(cfg: Config, files: Files<File>, x: Entry)
    requires Lawful(cfg.env) && cfg.backups >= 1
    ensures var fs := Appended(cfg, files, Value(Encode(cfg.env, x)));
            0 in fs && DecodeFile(cfg.env, fs[0]) == DecodeFile(cfg.env, Kept(cfg, files)) + [x]
  {
    ShiftDownAt(files, cfg.backups, 0);
    assert Appended(cfg, files, Value(Encode(cfg.env, x)))[0] == Kept(cfg, files) + [Value(Encode(cfg.env, x))];
    DecodeAppend(cfg.env, Kept(cfg, files), x);
  }

  lemma RootAtEnd(cfg: Config, prior: seq<Entry>, x: Entry)
    requires cfg.maxEntries >= 2 && x.prevHash == None
    ensures Linked(cfg.env, Last(cfg.maxEntries, prior + [x])) <==> prior == []
  {
    var kept := Last(cfg.maxEntries, prior + [x]);
    assert kept[|kept| - 1] == x;
    if prior != [] { RootInside(cfg.env, kept, |kept| - 1); }
  }

  /** A root entry is the only one queued; it is appended and the log reloaded. */
  lemma ReloadRoot(cfg: Config, s: State, x: Entry)
    requires Lawful(cfg.env) && cfg.persistent && cfg.maxEntries >= 2 && cfg.backups >= 1
    requires s.pending == [x] && x.prevHash == None
    ensures Linked(cfg.env, AfterLoad(cfg, AfterDrain(cfg, s, 0)).entries) <==>
            DecodeFile(cfg.env, Kept(cfg, s.files)) == []
  {
    AppendedActive(cfg, s.files, x);
    RootAtEnd(cfg, DecodeFile(cfg.env, Kept(cfg, s.files)), x);
  }

  /** Clear, record, append, reload: the reload verifies exactly when there was
      no active file or the append rotated it away. */
  lemma ReloadAfterClearIff(cfg: Config, s: State, e: Event)
    requires Lawful(cfg.env) && cfg.persistent && cfg.maxEntries >= 2 && cfg.backups >= 1
    requires DiskInv(cfg, s) && s.pending == [] && e.Record?
    ensures var r := Step(cfg, Step(cfg, Step(cfg, Step(cfg, s, Clear), e), Drain(0)), Load);
            Linked(cfg.env, r.entries) <==> 0 !in s.files || ActiveFull(cfg, s.files)
  {
    ClearedThenReloaded(cfg, s, e);
    ClearedThenRecorded(cfg, s, e);
    ReloadRoot(cfg, Step(cfg, AfterClear(s), e), EntryAfter(AfterClear(s), e));
  }

  lemma ClearedThenReloaded(cfg: Config, s: State, e: Event)
    ensures Step(cfg, Step(cfg, Step(cfg, Step(cfg, s, Clear), e), Drain(0)), Load) ==
            AfterLoad(cfg, AfterDrain(cfg, Step(cfg, AfterClear(s), e), 0))
  {
  }

  lemma ClearedThenRecorded(cfg: Config, s: State, e: Event)
    requires cfg.persistent && DiskInv(cfg, s) && s.pending == [] && e.Record?
    ensures var r := Step(cfg, AfterClear(s), e);
            r.pending == [EntryAfter(AfterClear(s), e)] && r.files == s.files
    ensures DecodeFile(cfg.env, Kept(cfg, s.files)) == [] <==> 0 !in s.files || ActiveFull(cfg, s.files)
  {
  }

  lemma RunSnoc(cfg: Config, s: State, evs: seq<Event>, ev: Event)
    ensures Run(cfg, s, evs + [ev]) == Step(cfg, Run(cfg, s, evs), ev)
  {
    assert (evs + [ev])[..|evs|] == evs;
  }

  lemma RunFour(cfg: Config, s: State, a: Event, b: Event, c: Event, d: Event)
    ensures Run(cfg, s, [a] + [b] + [c] + [d]) == Step(cfg, Step(cfg, Step(cfg, Step(cfg, s, a), b), c), d)
  {
    assert [] + [a] == [a];
    RunSnoc(cfg, s, [], a);
    RunSnoc(cfg, s, [a], b);
    RunSnoc(cfg, s, [a] + [b], c);
    RunSnoc(cfg, s, [a] + [b] + [c], d);
  }

  lemma RunTwo(cfg: Config, s: State, a: Event, b: Event)
    ensures Run(cfg, s, [a] + [b]) == Step(cfg, Step(cfg, s, a), b)
  {
    assert [] + [a] == [a];
    RunSnoc(cfg, s, [], a);
    RunSnoc(cfg, s, [a], b);
  }

  /** A log whose only entry is on disk is cleared, and one more entry recorded
      and appended: the reload fails unless the first entry alone fills a file. */
  lemma ClearBreaksReload(cfg: Config, a: Event, b: Event)
    requires Lawful(cfg.env) && cfg.persistent && cfg.maxEntries >= 2 && cfg.backups >= 1 && a.Record? && b.Record?
    ensures var s := Run(cfg, Fresh(map[]), [a] + [Drain(0)]);
            var r := Step(cfg, Step(cfg, Step(cfg, Step(cfg, s, Clear), b), Drain(0)), Load);
            Linked(cfg.env, r.entries) <==>
            cfg.size([Value(Encode(cfg.env, EntryAfter(Fresh(map[]), a)))]) >= MAX_FILE_SIZE
  {
    var evs := [a] + [Drain(0)];
    var s := Run(cfg, Fresh(map[]), evs);
    assert AllGentle(cfg, Fresh(map[]), evs);
    var g := DiskChainIntact(cfg, evs);
    RunTwo(cfg, Fresh(map[]), a, Drain(0));
    OneOnDisk(cfg, EntryAfter(Fresh(map[]), a));
    ReloadAfterClearIff(cfg, s, b);
  }

  lemma OneOnDisk(cfg: Config, x: Entry)
    requires cfg.persistent
    ensures var s := AfterDrain(cfg, AfterRecord(cfg, Fresh(map[]), x), 0);
            s.pending == [] && s.files == map[0 := [Value(Encode(cfg.env, x))]]
  {
    var s, line := AfterRecord(cfg, Fresh(map[]), x), Value(Encode(cfg.env, x));
    assert s.pending == [x] && s.files == map[];
    assert [] + [line] == [line];
    assert Appended(cfg, s.files, line) == map[0 := [line]];
  }

  /** Two records whose appends overtake each other do not verify after a
      reload, unless the first of them to be written already fills a file. */
  lemma OvertakingReloadIff(cfg: Config, a: Event, b: Event)
    requires Lawful(cfg.env) && cfg.persistent && cfg.maxEntries >= 2 && cfg.backups >= 1 && a.Record? && b.Record?
    ensures var s := Run(cfg, Fresh(map[]), [a] + [b]);
            var r := Run(cfg, Fresh(map[]), [a] + [b] + [Drain(1)] + [Drain(0)]);
            |s.pending| == 2
            && (Linked(cfg.env, AfterLoad(cfg, r).entries) <==>
                cfg.size([Value(Encode(cfg.env, s.pending[1]))]) >= MAX_FILE_SIZE)
  {
    var s0 := Fresh(map[]);
    RunFour(cfg, s0, a, b, Drain(1), Drain(0));
    RunTwo(cfg, s0, a, b);
    var x, s1 := EntryAfter(s0, a), Step(cfg, s0, a);
    var y, s2 := EntryAfter(s1, b), Step(cfg, s1, b);
    assert s2.pending == [x] + [y] && s2.files == map[];
    ReversedOnDisk(cfg, x, y, s2);
  }

  lemma ReversedOnDisk(cfg: Config, x: Entry, y: Entry, s: State)
    requires Lawful(cfg.env) && cfg.persistent && cfg.maxEntries >= 2 && cfg.backups >= 1 && x.prevHash == None
    requires s.pending == [x] + [y] && s.files == map[]
    ensures var r := AfterDrain(cfg, AfterDrain(cfg, s, 1), 0);
            Linked(cfg.env, AfterLoad(cfg, r).entries) <==>
            cfg.size([Value(Encode(cfg.env, y))]) >= MAX_FILE_SIZE
  {
    var ly := Value(Encode(cfg.env, y));
    var s1 := AfterDrain(cfg, s, 1);
    assert [] + [ly] == [ly] && s1.files == map[0 := [ly]];
    assert s1.pending == [x];
    DecodeAppend(cfg.env, [], y);
    ReloadRoot(cfg, s1, x);
  }
}
