/** The audit log: a bounded buffer of hash-linked entries over an append-only
    NDJSON file with rotated backups. */
module AuditLogs {
  import opened Seqs
  import opened Json
  import opened AuditEntries
  import opened Rotation

  const MAX_BACKUPS: nat := 5
  const MAX_FILE_SIZE: nat := 10 * 1024 * 1024

  type File = seq<Line>

  /** `size` is the byte length the file system reports for a file. */
  datatype Config = Config(env: Env, maxEntries: nat, persistent: bool, size: File -> nat, backups: nat)

  /** `pending` holds the entries handed to background appends and not yet on disk. */
  datatype State = State(
    entries: seq<Entry>,
    lastHash: Option<string>,
    files: Files<File>,
    pending: seq<Entry>)

  function Decoder(env: Env): File -> seq<Entry> {
    file => DecodeFile(env, file)
  }

  /** Everything on disk in chronological order: backups oldest first, then the active file. */
  function History(cfg: Config, files: Files<File>): seq<Entry> {
    Chronicle(files, Decoder(cfg.env), cfg.backups)
  }

  /** What happened or is about to be on disk. */
  function Durable(cfg: Config, s: State): seq<Entry> {
    History(cfg, s.files) + s.pending
  }

  function NewEntry(s: State, time: int, action: string, actor: string, target: string, details: Json): Entry {
    Entry(time, action, actor, target, details, s.lastHash)
  }

  function AfterRecord(cfg: Config, s: State, e: Entry): State {
    State(RingPush(cfg.maxEntries, s.entries, e), Some(EntryHash(cfg.env, e)), s.files,
          if cfg.persistent then s.pending + [e] else s.pending)
  }

  function AfterClear(s: State): State {
    s.(entries := [], lastHash := None)
  }

  /** Only the active file is read; a missing file leaves memory as it is. */
  function AfterLoad(cfg: Config, s: State): State {
    if !cfg.persistent || 0 !in s.files then s else
    var kept := Last(cfg.maxEntries, DecodeFile(cfg.env, s.files[0]));
    s.(entries := kept, lastHash := TipOf(cfg.env, kept))
  }

  function Rotated(cfg: Config, files: Files<File>): Files<File> {
    if ActiveFull(cfg, files) then ShiftDown(files, cfg.backups) else files
  }

  function Appended(cfg: Config, files: Files<File>, line: Line): Files<File> {
    var fs := Rotated(cfg, files);
    fs[0 := (if 0 in fs then fs[0] else []) + [line]]
  }

  /** One of the pending entries reaches the disk; each append is a task of its
      own, so they may overtake each other. */
  function AfterDrain(cfg: Config, s: State, i: nat): State {
    if i >= |s.pending| then s else
    s.(files := Appended(cfg, s.files, Value(Encode(cfg.env, s.pending[i]))),
       pending := s.pending[..i] + s.pending[i + 1..])
  }

  /** A new process over the same files: memory and undelivered appends are gone. */
  function AfterRestart(cfg: Config, s: State): State {
    AfterLoad(cfg, State([], None, s.files, []))
  }

  predicate ActiveFull(cfg: Config, files: Files<File>) {
    0 in files && cfg.size(files[0]) >= MAX_FILE_SIZE
  }

  /** A process that dies inside a background append, after `done` of the
      renames of a rotation and before the line is written. */
  function TornFiles(cfg: Config, s: State, done: nat): Files<File> {
    if s.pending != [] && ActiveFull(cfg, s.files) then ShiftSome(s.files, cfg.backups, done) else s.files
  }

  /** Such a crash, followed by a new process. */
  function AfterTornAppend(cfg: Config, s: State, done: nat): State {
    AfterRestart(cfg, s.(files := TornFiles(cfg, s, done)))
  }

  function Query(cfg: Config, s: State, limit: nat, offset: nat): seq<Entry> {
    if offset + limit <= |s.entries| || !cfg.persistent then Page(s.entries, offset, limit)
    else Page(History(cfg, s.files), offset, limit)
  }

  /** Slot by slot: below 10 MiB the line goes to the end of the active file and
      no backup is touched; from 10 MiB on every file moves up by one and the
      line starts a new active file. */
  lemma AppendPlacesLine(cfg: Config, files: Files<File>, line: Line, k: nat)
    requires cfg.backups >= 1
    ensures var fs, full := Appended(cfg, files, line), 0 in files && cfg.size(files[0]) >= 10485760;
            && At(fs, 0) == Some((if 0 in files && !full then files[0] else []) + [line])
            && (k >= 1 && (!full || k > cfg.backups) ==> At(fs, k) == At(files, k))
            && (k >= 1 && full && k <= cfg.backups ==>
                  At(fs, k) == if k == cfg.backups && k - 1 !in files then At(files, k) else At(files, k - 1))
  {
    ShiftDownAt(files, cfg.backups, 0);
    ShiftDownAt(files, cfg.backups, k);
    assert At(Appended(cfg, files, line), k) == if k == 0 then Some(Appended(cfg, files, line)[0]) else At(Rotated(cfg, files), k);
  }

  /** A call of `record`: the new entry holds the arguments and the old tip and
      is the newest in memory; the oldest makes room for it only in a full
      buffer; its hash is the tip; with a log file it is queued last. */
  lemma RecordedEntry(cfg: Config, s: State, time: int, action: string, actor: string, target: string, details: Json)
    ensures var e := Entry(time, action, actor, target, details, s.lastHash);
            var s' := AfterRecord(cfg, s, NewEntry(s, time, action, actor, target, details));
            && s'.entries == (if s.entries != [] && |s.entries| >= cfg.maxEntries then s.entries[1..] else s.entries) + [e]
            && s'.lastHash == Some(EntryHash(cfg.env, e)) && s'.files == s.files
            && s'.pending == if cfg.persistent then s.pending + [e] else s.pending
  {
  }

  /** Without a log file every query is a page of memory, and nothing is ever queued. */
  lemma MemoryOnly(cfg: Config, s: State, e: Entry, limit: nat, offset: nat)
    requires !cfg.persistent
    ensures Query(cfg, s, limit, offset) == Page(s.entries, offset, limit)
    ensures AfterLoad(cfg, s) == s && AfterRecord(cfg, s, e).pending == s.pending
  {
  }

  /** The entries of the listed files, one file after the other. */
  function Gathered(cfg: Config, files: Files<File>, names: seq<nat>): seq<Entry> {
    if names == [] then []
    else Gathered(cfg, files, names[..|names| - 1]) + EntriesAt(files, Decoder(cfg.env), names[|names| - 1])
  }

  lemma GatheredOneMore(cfg: Config, files: Files<File>, names: seq<nat>, k: nat)
    ensures Gathered(cfg, files, names + [k]) == Gathered(cfg, files, names) + EntriesAt(files, Decoder(cfg.env), k)
  {
    assert (names + [k])[..|names|] == names;
  }

  lemma ListedStep(cfg: Config, files: Files<File>, names: seq<nat>, i: nat)
    requires i > 0
    ensures Gathered(cfg, files, if i in files then names + [i] else names) + Chronicle(files, Decoder(cfg.env), i - 1)
            == Gathered(cfg, files, names) + Chronicle(files, Decoder(cfg.env), i)
  {
    GatheredOneMore(cfg, files, names, i);
    var g, e, c := Gathered(cfg, files, names), EntriesAt(files, Decoder(cfg.env), i), Chronicle(files, Decoder(cfg.env), i - 1);
    assert (g + e) + c == g + (e + c);
  }

  class AuditLog {
    const cfg: Config
    var entries: seq<Entry>
    var lastHash: Option<string>
    var files: Files<File>
    var pending: seq<Entry>

    ghost function Model(): State
      reads this
    {
      State(entries, lastHash, files, pending)
    }

    /** The source keeps five backups; the results hold for any number. */
    constructor (env: Env, maxEntries: nat, persistent: bool, size: File -> nat, files: Files<File>)
      ensures cfg == Config(env, maxEntries, persistent, size, 5)
      ensures Model() == State([], None, files, [])
    {
      cfg := Config(env, maxEntries, persistent, size, MAX_BACKUPS);
      entries, lastHash, this.files, pending := [], None, files, [];
    }

    method Record(time: int, action: string, actor: string, target: string, details: Json)
      modifies this
      ensures Model() == AfterRecord(cfg, old(Model()), NewEntry(old(Model()), time, action, actor, target, details))
    {
      var entry := Entry(time, action, actor, target, details, lastHash);
      lastHash := Some(EntryHash(cfg.env, entry));
      if cfg.persistent {
        pending := pending + [entry];
      }
      if |entries| >= cfg.maxEntries && entries != [] {
        entries := entries[1..];
      }
      entries := entries + [entry];
    }

    method Clear()
      modifies this
      ensures Model() == AfterClear(old(Model()))
      ensures entries == [] && lastHash == None && files == old(files) && pending == old(pending)
    {
      entries := [];
      lastHash := None;
    }

    /** Skips blank and malformed lines, then keeps the newest `maxEntries`. */
    method LoadFromFile()
      modifies this
      ensures Model() == AfterLoad(cfg, old(Model()))
      ensures files == old(files) && pending == old(pending)
      ensures cfg.persistent && 0 in files ==>
                var d := DecodeFile(cfg.env, files[0]);
                && IsSuffix(entries, d) && |entries| == (if |d| <= cfg.maxEntries then |d| else cfg.maxEntries)
                && lastHash == if entries == [] then None else Some(EntryHash(cfg.env, entries[|entries| - 1]))
      ensures !cfg.persistent || 0 !in files ==> entries == old(entries) && lastHash == old(lastHash)
    {
      if !cfg.persistent || 0 !in files {
        return;
      }
      var loaded := ReadFile(files[0]);
      entries := KeepNewest(loaded);
      lastHash := if entries == [] then None else Some(EntryHash(cfg.env, entries[|entries| - 1]));
    }

    method KeepNewest(loaded: seq<Entry>) returns (kept: seq<Entry>)
      ensures kept == Last(cfg.maxEntries, loaded)
    {
      kept := [];
      var start := if |loaded| <= cfg.maxEntries then 0 else |loaded| - cfg.maxEntries;
      var i := start;
      while i < |loaded| && |kept| < cfg.maxEntries
        invariant start <= i <= |loaded|
        invariant kept == loaded[start..i]
      {
        kept := kept + [loaded[i]];
        i := i + 1;
      }
    }

    method ReadFile(file: File) returns (loaded: seq<Entry>)
      ensures loaded == DecodeFile(cfg.env, file)
    {
      loaded := [];
      for i := 0 to |file|
        invariant loaded == DecodeFile(cfg.env, file[..i])
      {
        assert file[..i + 1][..i] == file[..i];
        if file[i].Value? {
          var entry := Decode(cfg.env, file[i].json);
          if entry.Some? {
            loaded := loaded + [entry.value];
          }
        }
      }
      assert file[..|file|] == file;
    }

    method VerifyChain() returns (intact: bool)
      ensures intact == Linked(cfg.env, entries)
    {
      if |entries| <= 1 {
        return true;
      }
      var prev := EntryHash(cfg.env, entries[0]);
      for i := 1 to |entries|
        invariant prev == EntryHash(cfg.env, entries[i - 1])
        invariant forall k :: 1 <= k < i ==> entries[k].prevHash == Some(EntryHash(cfg.env, entries[k - 1]))
      {
        if entries[i].prevHash != Some(prev) {
          return false;
        }
        prev := EntryHash(cfg.env, entries[i]);
      }
      return true;
    }

    method QueryEntries(limit: nat, offset: nat) returns (page: seq<Entry>)
      ensures page == Query(cfg, Model(), limit, offset)
    {
      if offset + limit <= |entries| {
        return Page(entries, offset, limit);
      }
      if cfg.persistent {
        page := QueryFromFile(limit, offset);
      } else {
        page := Page(entries, offset, limit);
      }
    }

    method QueryFromFile(limit: nat, offset: nat) returns (page: seq<Entry>)
      ensures page == Page(History(cfg, files), offset, limit)
    {
      var names := ListFiles(cfg.backups);
      var all := ReadAll(names);
      page := Page(all, offset, limit);
    }

    /** The existing backups from the oldest down, then the active file. */
    method ListFiles(n: nat) returns (names: seq<nat>)
      ensures Gathered(cfg, files, names) == Chronicle(files, Decoder(cfg.env), n)
    {
      names := [];
      var i := n;
      while i > 0
        invariant 0 <= i <= n
        invariant Gathered(cfg, files, names) + Chronicle(files, Decoder(cfg.env), i)
                  == Chronicle(files, Decoder(cfg.env), n)
      {
        ListedStep(cfg, files, names, i);
        if i in files {
          names := names + [i];
        }
        i := i - 1;
      }
      GatheredOneMore(cfg, files, names, 0);
      names := names + [0];
    }

    /** Reads the listed files in order; one that cannot be opened is skipped. */
    method ReadAll(names: seq<nat>) returns (all: seq<Entry>)
      ensures all == Gathered(cfg, files, names)
    {
      all := [];
      for k := 0 to |names|
        invariant all == Gathered(cfg, files, names[..k])
      {
        assert names[..k + 1] == names[..k] + [names[k]];
        GatheredOneMore(cfg, files, names[..k], names[k]);
        if names[k] in files {
          var content := ReadFile(files[names[k]]);
          all := all + content;
        }
      }
      assert names[..|names|] == names;
    }

    /** A background append: rotate when the active file is full, then append one line. */
    method DrainOne(i: nat)
      modifies this
      ensures Model() == AfterDrain(cfg, old(Model()), i)
    {
      if i >= |pending| {
        return;
      }
      if 0 in files && cfg.size(files[0]) >= MAX_FILE_SIZE {
        files := RotateAudit(files, cfg.backups);
      }
      var content := if 0 in files then files[0] else [];
      files := files[0 := content + [Value(Encode(cfg.env, pending[i]))]];
      pending := pending[..i] + pending[i + 1..];
    }
  }
}
