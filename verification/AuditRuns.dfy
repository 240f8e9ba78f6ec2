/** Whole runs of the audit log: record, clear, load, restart, crash, and
    background appends. */
module AuditRuns {
  import opened Seqs
  import opened Json
  import opened AuditEntries
  import opened Rotation
  import opened AuditLogs

  datatype Event =
    | Record(time: int, action: string, actor: string, target: string, details: Json)
    | Drain(i: nat)
    | Clear
    | Load
    | Restart
    | TornAppend(done: nat)

  function Step(cfg: Config, s: State, ev: Event): State {
    match ev
    case Record(time, action, actor, target, details) =>
      AfterRecord(cfg, s, NewEntry(s, time, action, actor, target, details))
    case Drain(i) => AfterDrain(cfg, s, i)
    case Clear => AfterClear(s)
    case Load => AfterLoad(cfg, s)
    case Restart => AfterRestart(cfg, s)
    case TornAppend(done) => AfterTornAppend(cfg, s, done)
  }

  function Run(cfg: Config, s: State, evs: seq<Event>): State {
    if evs == [] then s else Step(cfg, Run(cfg, s, evs[..|evs| - 1]), evs[|evs| - 1])
  }

  /** A freshly constructed log over whatever files are already there. */
  function Fresh(files: Files<File>): State {
    State([], None, files, [])
  }

  /** Loads happen only when no append is outstanding. */
  predicate LoadsQuiet(cfg: Config, s: State, evs: seq<Event>) {
    forall i :: 0 <= i < |evs| && evs[i].Load? ==> Run(cfg, s, evs[..i]).pending == []
  }

  /** The appends reach the disk in the order of their records. */
  predicate InOrder(evs: seq<Event>) {
    forall i :: 0 <= i < |evs| && evs[i].Drain? ==> evs[i].i == 0
  }

  // ---- The files ----

  lemma {:induction false} ChronicleAppend(fs: Files<File>, fs': Files<File>, d: File -> seq<Entry>, n: nat, x: seq<Entry>)
    requires forall k: nat :: 1 <= k ==> At(fs', k) == At(fs, k)
    requires EntriesAt(fs', d, 0) == EntriesAt(fs, d, 0) + x
    ensures Chronicle(fs', d, n) == Chronicle(fs, d, n) + x
  {
    if n > 0 {
      ChronicleAppend(fs, fs', d, n - 1, x);
      assert At(fs', n) == At(fs, n);
      var e, c := EntriesAt(fs, d, n), Chronicle(fs, d, n - 1);
      assert e + (c + x) == (e + c) + x;
    }
  }

  lemma {:induction false} ActiveIsSuffix(fs: Files<File>, d: File -> seq<Entry>, n: nat)
    ensures IsSuffix(EntriesAt(fs, d, 0), Chronicle(fs, d, n))
  {
    if n > 0 {
      ActiveIsSuffix(fs, d, n - 1);
      SuffixTransitive(EntriesAt(fs, d, 0), Chronicle(fs, d, n - 1), Chronicle(fs, d, n));
    }
  }

  lemma RotatedHistory(cfg: Config, files: Files<File>)
    ensures IsSuffix(History(cfg, Rotated(cfg, files)), History(cfg, files))
  {
    if cfg.backups >= 1 { ShiftDownHistory(files, Decoder(cfg.env), cfg.backups); }
  }

  /** An append adds its entry at the end and may lose only the oldest entries. */
  lemma AppendedHistory(cfg: Config, files: Files<File>, e: Entry)
    requires Lawful(cfg.env)
    ensures var fs := Appended(cfg, files, Value(Encode(cfg.env, e)));
            && History(cfg, fs) == History(cfg, Rotated(cfg, files)) + [e]
            && 0 in fs && DecodeFile(cfg.env, fs[0]) != []
  {
    var fs, line := Rotated(cfg, files), Value(Encode(cfg.env, e));
    var fs' := Appended(cfg, files, line);
    var content := if 0 in fs then fs[0] else [];
    DecodeEncode(cfg.env, e);
    assert (content + [line])[..|content|] == content;
    assert Decoder(cfg.env)(content) == EntriesAt(fs, Decoder(cfg.env), 0);
    ChronicleAppend(fs, fs', Decoder(cfg.env), cfg.backups, [e]);
  }

  /** One drain moves an entry from the queue to the disk; the record of what
      happened loses at most a prefix, and never its newest entry. */
  lemma DrainDurable(cfg: Config, s: State)
    requires Lawful(cfg.env)
    ensures var s' := AfterDrain(cfg, s, 0);
            && IsSuffix(Durable(cfg, s'), Durable(cfg, s))
            && (s.pending != [] ==> Durable(cfg, s') != [] && 0 in s'.files && DecodeFile(cfg.env, s'.files[0]) != [])
  {
    if s.pending != [] {
      AppendedHistory(cfg, s.files, s.pending[0]);
      RotatedHistory(cfg, s.files);
      QueueToHistory(History(cfg, s.files), History(cfg, Rotated(cfg, s.files)), s.pending);
      assert s.pending[..0] + s.pending[1..] == s.pending[1..];
    } else {
      assert IsSuffix(Durable(cfg, s), Durable(cfg, s));
    }
  }

  /** The entries a rotation before the next append would lose. */
  function Dropped(cfg: Config, files: Files<File>): seq<Entry> {
    if Rotated(cfg, files) != files && cfg.backups >= 1 && cfg.backups - 1 in files
    then EntriesAt(files, Decoder(cfg.env), cfg.backups) else []
  }

  lemma RotationLoses(cfg: Config, files: Files<File>)
    ensures History(cfg, files) == Dropped(cfg, files) + History(cfg, Rotated(cfg, files))
  {
    if Rotated(cfg, files) != files && cfg.backups >= 1 {
      ShiftDownHistory(files, Decoder(cfg.env), cfg.backups);
    }
  }

  /** Whichever append comes first, nothing is lost or invented except what a
      rotation pushes out of the oldest backup. */
  lemma DrainConserves(cfg: Config, s: State, i: nat)
    requires Lawful(cfg.env) && i < |s.pending|
    ensures multiset(Durable(cfg, s)) == multiset(Dropped(cfg, s.files)) + multiset(Durable(cfg, AfterDrain(cfg, s, i)))
  {
    RotationLoses(cfg, s.files);
    AppendedHistory(cfg, s.files, s.pending[i]);
    MoveConserves(Dropped(cfg, s.files), History(cfg, Rotated(cfg, s.files)), s.pending, i);
  }

  lemma LoadedIsSuffix(cfg: Config, s: State)
    requires cfg.persistent && 0 in s.files
    ensures IsSuffix(AfterLoad(cfg, s).entries, History(cfg, s.files))
  {
    var d := Decoder(cfg.env);
    ActiveIsSuffix(s.files, d, cfg.backups);
    assert EntriesAt(s.files, d, 0) == DecodeFile(cfg.env, s.files[0]);
    SuffixTransitive(AfterLoad(cfg, s).entries, EntriesAt(s.files, d, 0), History(cfg, s.files));
  }

  // ---- Memory against the files ----

  /** In every run memory and the durable record end alike. */
  lemma {:induction false} MemoryEndsLikeDisk(cfg: Config, files: Files<File>, evs: seq<Event>)
    requires Lawful(cfg.env) && cfg.persistent && InOrder(evs) && LoadsQuiet(cfg, Fresh(files), evs)
    ensures var s := Run(cfg, Fresh(files), evs); EndAlike(s.entries, Durable(cfg, s))
  {
    if evs != [] {
      var n := |evs| - 1;
      var s, ev := Run(cfg, Fresh(files), evs[..n]), evs[n];
      assert forall i :: 0 <= i < n ==> evs[..n][..i] == evs[..i];
      MemoryEndsLikeDisk(cfg, files, evs[..n]);
      MemoryStep(cfg, s, ev);
    }
  }

  lemma MemoryStep(cfg: Config, s: State, ev: Event)
    requires Lawful(cfg.env) && cfg.persistent && EndAlike(s.entries, Durable(cfg, s))
    requires (ev.Load? ==> s.pending == []) && (ev.Drain? ==> ev.i == 0)
    ensures var s' := Step(cfg, s, ev); EndAlike(s'.entries, Durable(cfg, s'))
  {
    var s' := Step(cfg, s, ev);
    match ev
    case Record(time, action, actor, target, details) =>
      MemoryRecord(cfg, s, NewEntry(s, time, action, actor, target, details));
    case Drain(_) =>
      DrainDurable(cfg, s);
      EndAlikeDrop(s.entries, Durable(cfg, s), Durable(cfg, s'));
    case Clear =>
      assert IsSuffix(s'.entries, Durable(cfg, s'));
    case Load => MemoryLoad(cfg, s);
    case Restart => MemoryLoad(cfg, Fresh(s.files));
    case TornAppend(done) => MemoryLoad(cfg, Fresh(TornFiles(cfg, s, done)));
  }

  lemma MemoryRecord(cfg: Config, s: State, e: Entry)
    requires cfg.persistent && EndAlike(s.entries, Durable(cfg, s))
    ensures var s' := AfterRecord(cfg, s, e);
            Durable(cfg, s') == Durable(cfg, s) + [e] && EndAlike(s'.entries, Durable(cfg, s'))
  {
    EndAlikeAppend(cfg.maxEntries, s.entries, Durable(cfg, s), e);
    assert History(cfg, s.files) + (s.pending + [e]) == (History(cfg, s.files) + s.pending) + [e];
  }

  lemma MemoryLoad(cfg: Config, s: State)
    requires cfg.persistent && s.pending == []
    requires EndAlike(s.entries, Durable(cfg, s)) || s.entries == []
    ensures var s' := AfterLoad(cfg, s);
            Durable(cfg, s') == History(cfg, s.files) && EndAlike(s'.entries, Durable(cfg, s'))
  {
    var s', h := AfterLoad(cfg, s), History(cfg, s.files);
    assert h + [] == h;
    if 0 in s.files {
      LoadedIsSuffix(cfg, s);
    } else {
      assert s.entries == [] ==> IsSuffix(s.entries, h);
    }
  }

  /** In any state, both query paths give the newest-first page of the history
      for every offset and limit exactly when memory is a suffix of it. */
  lemma QueryAgreesIff(cfg: Config, s: State)
    requires cfg.persistent
    ensures (forall limit: nat, offset: nat ::
               Query(cfg, s, limit, offset) == Page(History(cfg, s.files), offset, limit))
            <==> IsSuffix(s.entries, History(cfg, s.files))
  {
    var h := History(cfg, s.files);
    if IsSuffix(s.entries, h) {
      forall limit: nat, offset: nat ensures Query(cfg, s, limit, offset) == Page(h, offset, limit) {
        if offset + limit <= |s.entries| { PageOfSuffix(s.entries, h, offset, limit); }
      }
    }
    if forall limit: nat, offset: nat :: Query(cfg, s, limit, offset) == Page(h, offset, limit) {
      assert Query(cfg, s, |s.entries|, 0) == Page(h, 0, |s.entries|);
      FullPageIsSuffix(s.entries, h);
    }
  }

  /** After every in-order run with no append outstanding, that is exactly when
      the retained files hold at least as many entries as memory. */
  lemma QueryIsHistoryPage(cfg: Config, files: Files<File>, evs: seq<Event>)
    requires Lawful(cfg.env) && cfg.persistent && InOrder(evs) && LoadsQuiet(cfg, Fresh(files), evs)
    requires Run(cfg, Fresh(files), evs).pending == []
    ensures var s := Run(cfg, Fresh(files), evs);
            (forall limit: nat, offset: nat ::
               Query(cfg, s, limit, offset) == Page(History(cfg, s.files), offset, limit))
            <==> |s.entries| <= |History(cfg, s.files)|
  {
    var s := Run(cfg, Fresh(files), evs);
    MemoryEndsLikeDisk(cfg, files, evs);
    assert Durable(cfg, s) == History(cfg, s.files);
    QueryAgreesIff(cfg, s);
  }

  /** While appends are outstanding, the fast path pages the record that still
      includes them and the slow path pages the disk. */
  lemma QueryWhilePending(cfg: Config, files: Files<File>, evs: seq<Event>, limit: nat, offset: nat)
    requires Lawful(cfg.env) && cfg.persistent && InOrder(evs) && LoadsQuiet(cfg, Fresh(files), evs)
    requires var s := Run(cfg, Fresh(files), evs); |s.entries| <= |Durable(cfg, s)|
    ensures var s := Run(cfg, Fresh(files), evs);
            Query(cfg, s, limit, offset) ==
            Page(if offset + limit <= |s.entries| then Durable(cfg, s) else History(cfg, s.files), offset, limit)
  {
    var s := Run(cfg, Fresh(files), evs);
    MemoryEndsLikeDisk(cfg, files, evs);
    assert IsSuffix(s.entries, Durable(cfg, s));
    if offset + limit <= |s.entries| { PageOfSuffix(s.entries, Durable(cfg, s), offset, limit); }
  }

  /** The first `n` answers to consecutive queries, glued together. */
  function Queries(cfg: Config, s: State, limit: nat, n: nat): seq<Entry> {
    if n == 0 then [] else Queries(cfg, s, limit, n - 1) + Query(cfg, s, limit, (n - 1) * limit)
  }

  /** Consecutive queries tile the history: no gap and no repeat, also where
      they change from the fast path to the slow one. */
  lemma QueriesTile(cfg: Config, s: State, limit: nat, n: nat)
    requires cfg.persistent && IsSuffix(s.entries, History(cfg, s.files))
    ensures var h := History(cfg, s.files);
            Queries(cfg, s, limit, n) == Reverse(h)[..Min(n * limit, |h|)]
  {
    var h := History(cfg, s.files);
    QueryAgreesIff(cfg, s);
    QueriesArePages(cfg, s, limit, n);
    PagesTile(h, limit, n);
  }

  lemma {:induction false} QueriesArePages(cfg: Config, s: State, limit: nat, n: nat)
    requires forall limit: nat, offset: nat ::
               Query(cfg, s, limit, offset) == Page(History(cfg, s.files), offset, limit)
    ensures Queries(cfg, s, limit, n) == Pages(History(cfg, s.files), limit, n)
  {
    if n > 0 { QueriesArePages(cfg, s, limit, n - 1); }
  }

  // ---- The buffer ----

  /** What a load offers: every entry of the active file; without a file memory
      stays as it is. A log with no room loads nothing. */
  function Reread(cfg: Config, files: Files<File>, all: seq<Entry>): seq<Entry> {
    if !cfg.persistent || 0 !in files then all
    else if cfg.maxEntries == 0 then []
    else DecodeFile(cfg.env, files[0])
  }

  /** A load keeps as many of the newest entries of the active file as fit. */
  lemma LoadKeepsNewest(cfg: Config, s: State)
    requires cfg.persistent && 0 in s.files
    ensures var kept, d := AfterLoad(cfg, s).entries, DecodeFile(cfg.env, s.files[0]);
            IsSuffix(kept, d) && |kept| == if |d| <= cfg.maxEntries then |d| else cfg.maxEntries
  {
    LastIs(cfg.maxEntries, DecodeFile(cfg.env, s.files[0]));
  }

  /** One step of a memory without a capacity, beside the state `s` of the log. */
  function UnboundedStep(cfg: Config, s: State, all: seq<Entry>, ev: Event): seq<Entry> {
    match ev
    case Record(time, action, actor, target, details) =>
      all + [NewEntry(s, time, action, actor, target, details)]
    case Drain(_) => all
    case Clear => []
    case Load => Reread(cfg, s.files, all)
    case Restart => Reread(cfg, s.files, [])
    case TornAppend(done) => Reread(cfg, TornFiles(cfg, s, done), [])
  }

  /** Everything recorded since the last clear, load or restart, on top of what that load read. */
  function Unbounded(cfg: Config, s: State, evs: seq<Event>): seq<Entry> {
    if evs == [] then s.entries else
    var evs' := evs[..|evs| - 1];
    UnboundedStep(cfg, Run(cfg, s, evs'), Unbounded(cfg, s, evs'), evs[|evs| - 1])
  }

  lemma LoadFits(cfg: Config, s: State)
    requires |s.entries| <= Capacity(cfg.maxEntries)
    ensures |AfterLoad(cfg, s).entries| <= Capacity(cfg.maxEntries)
  {
  }

  lemma BufferStep(cfg: Config, s: State, all: seq<Entry>, ev: Event)
    requires s.entries == Last(Capacity(cfg.maxEntries), all)
    ensures Step(cfg, s, ev).entries == Last(Capacity(cfg.maxEntries), UnboundedStep(cfg, s, all, ev))
  {
    match ev
    case Record(time, action, actor, target, details) =>
      RingPushIsTail(cfg.maxEntries, all, NewEntry(s, time, action, actor, target, details));
    case Load => LoadFits(cfg, s);
    case Restart => LoadFits(cfg, Fresh(s.files));
    case TornAppend(done) => LoadFits(cfg, Fresh(TornFiles(cfg, s, done)));
    case _ =>
  }

  /** In every run the buffer is the newest `Capacity` entries of what an
      unbounded memory would hold. */
  lemma {:induction false} BufferIsNewest(cfg: Config, files: Files<File>, evs: seq<Event>)
    ensures var entries, all := Run(cfg, Fresh(files), evs).entries, Unbounded(cfg, Fresh(files), evs);
            && entries == Last(Capacity(cfg.maxEntries), all)
            && |entries| <= (if cfg.maxEntries == 0 then 1 else cfg.maxEntries)
  {
    if evs != [] {
      var evs' := evs[..|evs| - 1];
      BufferIsNewest(cfg, files, evs');
      BufferStep(cfg, Run(cfg, Fresh(files), evs'), Unbounded(cfg, Fresh(files), evs'), evs[|evs| - 1]);
    }
  }

  // ---- The chain in memory ----

  /** The tip is the hash of the newest buffered entry and the buffer is linked. */
  predicate ChainInv(cfg: Config, s: State) {
    s.lastHash == TipOf(cfg.env, s.entries) && Linked(cfg.env, s.entries)
  }

  /** Every load, and every load inside a restart, reads an active file whose entries are linked. */
  predicate LoadsLinked(cfg: Config, s: State, evs: seq<Event>) {
    forall i :: 0 <= i < |evs| && (evs[i].Load? || evs[i].Restart? || evs[i].TornAppend?) ==>
                  ActiveLinked(cfg, Run(cfg, s, evs[..i]).files)
  }

  predicate ActiveLinked(cfg: Config, files: Files<File>) {
    0 in files ==> Linked(cfg.env, DecodeFile(cfg.env, files[0]))
  }

  lemma ChainLoad(cfg: Config, s: State)
    requires ChainInv(cfg, s) && ActiveLinked(cfg, s.files)
    ensures ChainInv(cfg, AfterLoad(cfg, s))
  {
    if cfg.persistent && 0 in s.files {
      var loaded := DecodeFile(cfg.env, s.files[0]);
      LinkedSuffix(cfg.env, Last(cfg.maxEntries, loaded), loaded);
    }
  }

  /** A torn rotation leaves the active file as it was or moves it away. */
  lemma TornActive(cfg: Config, s: State, done: nat)
    ensures At(TornFiles(cfg, s, done), 0) ==
            if s.pending != [] && ActiveFull(cfg, s.files) && 1 <= cfg.backups <= done then None else At(s.files, 0)
  {
    if done < cfg.backups {
      ShiftSomeFrame(s.files, cfg.backups, done, 0);
    } else {
      ShiftSomeIsAll(s.files, cfg.backups, done);
      ShiftDownAt(s.files, cfg.backups, 0);
    }
  }

  lemma ChainRecord(cfg: Config, s: State, e: Entry)
    requires ChainInv(cfg, s) && e.prevHash == s.lastHash
    ensures ChainInv(cfg, AfterRecord(cfg, s, e))
  {
    LinkedAppend(cfg.env, s.entries, e);
    LinkedSuffix(cfg.env, RingPush(cfg.maxEntries, s.entries, e), s.entries + [e]);
  }

  lemma ChainStep(cfg: Config, s: State, ev: Event)
    requires ChainInv(cfg, s)
    requires ev.Load? || ev.Restart? || ev.TornAppend? ==> ActiveLinked(cfg, s.files)
    ensures ChainInv(cfg, Step(cfg, s, ev))
  {
    match ev
    case Record(time, action, actor, target, details) =>
      ChainRecord(cfg, s, NewEntry(s, time, action, actor, target, details));
    case Load => ChainLoad(cfg, s);
    case Restart => ChainLoad(cfg, Fresh(s.files));
    case TornAppend(done) =>
      TornActive(cfg, s, done);
      assert At(s.files, 0).Some? ==> At(s.files, 0).value == s.files[0];
      ChainLoad(cfg, Fresh(TornFiles(cfg, s, done)));
    case Drain(_) =>
    case Clear =>
  }

  /** In every run of non-overlapping calls, for any capacity, `verify_chain` holds. */
  lemma {:induction false} ChainIntact(cfg: Config, files: Files<File>, evs: seq<Event>)
    requires LoadsLinked(cfg, Fresh(files), evs)
    ensures ChainInv(cfg, Run(cfg, Fresh(files), evs))
  {
    if evs != [] {
      var n := |evs| - 1;
      assert forall i :: 0 <= i < n ==> evs[..n][..i] == evs[..i];
      ChainIntact(cfg, files, evs[..n]);
      ChainStep(cfg, Run(cfg, Fresh(files), evs[..n]), evs[n]);
    }
  }
}
