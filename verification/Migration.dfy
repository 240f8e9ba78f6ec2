/** Schema migration of store files and NDJSON logs, and what the store and the
    audit log decode afterwards. */
module Migrations {
  import opened Seqs
  import opened Json
  import opened AuditEntries
  import Rotation
  import AuditLogs
  import Store = PersistedStores

  const VERSION_KEY := Store.VERSION_KEY
  const CURRENT_VERSION: nat := 1
  const REQUIRED_FIELDS := ["rpm_limit", "tpm_limit", "expires_at", "group"]

  // ---- Version and shape ----

  /** `as_u64` then a truncating cast to `u32`; anything else counts as version 0. */
  function Version(j: Json): nat {
    if j.Obj? && VERSION_KEY in j.fields && j.fields[VERSION_KEY].Num?
       && 0 <= j.fields[VERSION_KEY].n < 0x1_0000_0000_0000_0000
    then j.fields[VERSION_KEY].n % 0x1_0000_0000
    else 0
  }

  /** No effect on a value that is not an object. */
  function SetVersion(j: Json): Json {
    if j.Obj? then Obj(j.fields[VERSION_KEY := Num(CURRENT_VERSION)]) else j
  }

  /** Length in UTF-8 bytes. */
  function ByteLen(s: string): nat {
    if s == "" then 0 else
    var c := s[0] as int;
    (if c < 0x80 then 1 else if c < 0x800 then 2 else if c < 0x10000 then 3 else 4) + ByteLen(s[1..])
  }

  predicate LooksLikeUuid(k: string) {
    '-' in k && ByteLen(k) >= 32
  }

  /** The order of the object's keys. */
  predicate Less(a: string, b: string) {
    b != "" && (a == "" || a[0] < b[0] || (a[0] == b[0] && Less(a[1..], b[1..])))
  }

  /** The keys other than the version that come before `k`. */
  function Preceding(f: map<string, Json>, k: string): set<string> {
    set x | x in f && x != VERSION_KEY && Less(x, k)
  }

  /** `k` is one of the first two keys other than the version. */
  predicate AmongFirstTwo(f: map<string, Json>, k: string) {
    k != VERSION_KEY && |Preceding(f, k)| < 2
  }

  predicate IsStoreFile(f: map<string, Json>) {
    |f| > 1 && forall k :: k in f && AmongFirstTwo(f, k) ==> LooksLikeUuid(k)
  }

  // ---- Which files count as stores ----

  /** A value has a version of its own exactly if it is an object whose
      `schema_version` is a 64-bit unsigned integer with a non-zero low half. */
  lemma VersionIff(j: Json)
    ensures Version(j) >= 1 <==>
            && j.Obj? && "schema_version" in j.fields && j.fields["schema_version"].Num?
            && 0 <= j.fields["schema_version"].n < 18446744073709551616
            && j.fields["schema_version"].n % 4294967296 >= 1
    ensures Version(j) >= 1 ==> Version(j) == j.fields["schema_version"].n % 4294967296
  {
  }

  /** How many characters have a code point of at least `c`. */
  function AtLeast(s: string, c: int): nat {
    if s == "" then 0 else (if s[0] as int >= c then 1 else 0) + AtLeast(s[1..], c)
  }

  /** One byte for each character, and one more from each of three code points on. */
  lemma {:induction false} ByteLenCounts(s: string)
    ensures ByteLen(s) == |s| + AtLeast(s, 0x80) + AtLeast(s, 0x800) + AtLeast(s, 0x10000)
  {
    if s != "" { ByteLenCounts(s[1..]); }
  }

  predicate Ascii(s: string) {
    forall i :: 0 <= i < |s| ==> s[i] as int < 0x80
  }

  lemma {:induction false} NoneAbove(s: string, c: int)
    requires Ascii(s) && c >= 0x80
    ensures AtLeast(s, c) == 0
  {
    if s != "" {
      assert forall i :: 0 <= i < |s[1..]| ==> s[1..][i] == s[i + 1];
      NoneAbove(s[1..], c);
    }
  }

  /** On ASCII keys the test is for 32 characters and a dash, wherever it is. */
  lemma AsciiUuidIff(k: string)
    requires Ascii(k)
    ensures LooksLikeUuid(k) <==> |k| >= 32 && exists i :: 0 <= i < |k| && k[i] == '-'
  {
    ByteLenCounts(k);
    NoneAbove(k, 0x80);
    NoneAbove(k, 0x800);
    NoneAbove(k, 0x10000);
  }

  predicate HexDigit(c: char) { '0' <= c <= '9' || 'a' <= c <= 'f' }

  /** The hyphenated form of a UUID. */
  predicate IsUuid(k: string) {
    |k| == 36 && forall i :: 0 <= i < 36 ==> if i in {8, 13, 18, 23} then k[i] == '-' else HexDigit(k[i])
  }

  lemma UuidPasses(k: string)
    requires IsUuid(k)
    ensures LooksLikeUuid(k) && k != "schema_version"
  {
    assert k[8] == '-';
    AsciiUuidIff(k);
  }

  /** The two agree up to place `i`, where `a` has the smaller character. */
  predicate DiffersAt(a: string, b: string, i: int) {
    0 <= i < |a| && i < |b| && a[..i] == b[..i] && a[i] < b[i]
  }

  lemma DiffersLater(a: string, b: string, i: nat)
    requires a != "" && b != "" && a[0] == b[0]
    ensures DiffersAt(a, b, i + 1) <==> DiffersAt(a[1..], b[1..], i)
  {
    if i < |a[1..]| && i < |b[1..]| {
      assert a[..i + 1] == [a[0]] + a[1..][..i] && b[..i + 1] == [b[0]] + b[1..][..i];
      assert a[..i + 1][1..] == a[1..][..i] && b[..i + 1][1..] == b[1..][..i];
    }
  }

  lemma DiffersHead(a: string, b: string)
    requires a != "" && b != ""
    ensures (exists i :: DiffersAt(a, b, i)) ==> a[0] <= b[0]
  {
    if i :| DiffersAt(a, b, i) {
      if i > 0 { assert a[..i][0] == b[..i][0]; }
    }
  }

  /** Keys are compared character by character; a proper prefix comes first. */
  lemma {:induction false} LessIff(a: string, b: string)
    ensures Less(a, b) <==> (a <= b && a != b) || exists i :: DiffersAt(a, b, i)
    decreases |a|
  {
    if a != "" && b != "" {
      if a[0] == b[0] {
        LessIff(a[1..], b[1..]);
        assert a == [a[0]] + a[1..] && b == [b[0]] + b[1..];
        if i :| DiffersAt(a[1..], b[1..], i) { DiffersLater(a, b, i); }
        if i :| DiffersAt(a, b, i) { DiffersLater(a, b, i - 1); }
      } else if a[0] < b[0] {
        assert DiffersAt(a, b, 0);
      } else {
        DiffersHead(a, b);
      }
    }
  }

  lemma {:induction false} LessAsymmetric(a: string, b: string)
    requires Less(a, b)
    ensures !Less(b, a)
    decreases |a|
  {
    if a != "" && a[0] == b[0] { LessAsymmetric(a[1..], b[1..]); }
  }

  lemma {:induction false} DistinctSize(ks: seq<string>)
    requires forall i, j :: 0 <= i < j < |ks| ==> ks[i] != ks[j]
    ensures |set k | k in ks| == |ks|
  {
    if ks != [] {
      var ks', k := ks[..|ks| - 1], ks[|ks| - 1];
      DistinctSize(ks');
      assert (set x | x in ks) == (set x | x in ks') + {k};
    }
  }

  /** In the order of the keys, exactly the keys before a position come before its key. */
  lemma KeysBefore(f: map<string, Json>, ks: seq<string>, i: nat)
    requires forall k :: k in ks <==> k in f && k != VERSION_KEY
    requires forall i, j :: 0 <= i < j < |ks| ==> Less(ks[i], ks[j])
    requires i < |ks|
    ensures |Preceding(f, ks[i])| == i
  {
    forall a, b | 0 <= a < b < |ks| ensures ks[a] != ks[b] && !Less(ks[b], ks[a]) {
      LessAsymmetric(ks[a], ks[b]);
    }
    if Less(ks[i], ks[i]) { LessAsymmetric(ks[i], ks[i]); }
    DistinctSize(ks[..i]);
    forall x ensures x in Preceding(f, ks[i]) <==> x in ks[..i] {
      if x in Preceding(f, ks[i]) {
        assert x in ks;
        var j :| 0 <= j < |ks| && ks[j] == x;
        assert x == ks[..i][j];
      }
      if x in ks[..i] { assert x in ks; }
    }
    assert Preceding(f, ks[i]) == set x | x in ks[..i];
  }

  /** Over the sorted keys other than the version, a store is an object of at
      least two keys whose first two pass for UUIDs. */
  lemma StoreIffFirstTwo(f: map<string, Json>, ks: seq<string>)
    requires forall k :: k in ks <==> k in f && k != VERSION_KEY
    requires forall i, j :: 0 <= i < j < |ks| ==> Less(ks[i], ks[j])
    ensures IsStoreFile(f) <==> |f| > 1 && forall i :: 0 <= i < 2 && i < |ks| ==> LooksLikeUuid(ks[i])
  {
    forall i | 0 <= i < |ks| ensures AmongFirstTwo(f, ks[i]) <==> i < 2 {
      KeysBefore(f, ks, i);
      assert ks[i] in ks;
    }
    if IsStoreFile(f) {
      forall i | 0 <= i < 2 && i < |ks| ensures LooksLikeUuid(ks[i]) {
        assert ks[i] in f && AmongFirstTwo(f, ks[i]);
      }
    }
    if |f| > 1 && forall i :: 0 <= i < 2 && i < |ks| ==> LooksLikeUuid(ks[i]) {
      forall k | k in f && AmongFirstTwo(f, k) ensures LooksLikeUuid(k) {
        var i :| 0 <= i < |ks| && ks[i] == k;
      }
    }
  }

  // ---- The v0 to v1 step ----

  /** Each name that is missing, as null. */
  function WithNulls(f: map<string, Json>, names: seq<string>): map<string, Json>
    decreases |names|
  {
    if names == [] then f
    else WithNulls(if names[0] in f then f else f[names[0] := Null], names[1..])
  }

  function MigrateRecord(k: string, v: Json): Json {
    if k != VERSION_KEY && v.Obj? then Obj(WithNulls(v.fields, REQUIRED_FIELDS)) else v
  }

  function MigrateStore(f: map<string, Json>): map<string, Json> {
    map k | k in f :: MigrateRecord(k, f[k])
  }

  function MigrateEntry(f: map<string, Json>): map<string, Json> {
    if "prev_hash" in f then f else f["prev_hash" := Null]
  }

  function V0ToV1(j: Json): Json {
    if !j.Obj? then j
    else Obj(if IsStoreFile(j.fields) then MigrateStore(j.fields) else MigrateEntry(j.fields))
  }

  function Upgrade(j: Json): Json {
    if Version(j) >= CURRENT_VERSION then j else SetVersion(V0ToV1(j))
  }

  // ---- The loops ----

  method AddMissing(f: map<string, Json>, names: seq<string>) returns (r: map<string, Json>)
    ensures r == WithNulls(f, names)
  {
    r := f;
    for i := 0 to |names|
      invariant WithNulls(r, names[i..]) == WithNulls(f, names)
    {
      if names[i] !in r {
        r := r[names[i] := Null];
      }
      assert names[i..][1..] == names[i + 1..];
    }
  }

  /** `iter_mut` over the object, adding fields to every record. */
  method MigrateStoreInPlace(f: map<string, Json>) returns (r: map<string, Json>)
    ensures r == MigrateStore(f)
  {
    r := f;
    var rest := f.Keys;
    while rest != {}
      invariant rest <= f.Keys && r.Keys == f.Keys
      invariant forall k :: k in f ==> r[k] == if k in rest then f[k] else MigrateRecord(k, f[k])
      decreases |rest|
    {
      var k :| k in rest;
      if k != VERSION_KEY && r[k].Obj? {
        var g := AddMissing(r[k].fields, REQUIRED_FIELDS);
        r := r[k := Obj(g)];
      }
      rest := rest - {k};
    }
  }

  method MigrateValue(j: Json) returns (r: Json, migrated: bool)
    ensures r == Upgrade(j) && migrated == (Version(j) < CURRENT_VERSION)
  {
    r, migrated := j, false;
    var version := Version(j);
    if version >= CURRENT_VERSION {
      return;
    }
    while version < CURRENT_VERSION
      invariant version <= CURRENT_VERSION
      invariant r == if version == 0 then j else V0ToV1(j)
    {
      if r.Obj? {
        if IsStoreFile(r.fields) {
          var g := MigrateStoreInPlace(r.fields);
          r := Obj(g);
        } else if "prev_hash" !in r.fields {
          r := Obj(r.fields["prev_hash" := Null]);
        }
      }
      version := version + 1;
    }
    r, migrated := SetVersion(r), true;
  }

  /** A store file: unreadable, already current, or rewritten with the old content kept as a backup. */
  datatype FileResult = ParseError | Current | Rewritten(json: Json, backup: Json)

  method MigrateJsonFile(content: Option<Json>) returns (r: FileResult)
    ensures r == if content.None? then ParseError
                 else if Version(content.value) >= CURRENT_VERSION then Current
                 else Rewritten(Upgrade(content.value), content.value)
  {
    if content.None? {
      return ParseError;
    }
    var j, migrated := MigrateValue(content.value);
    r := if migrated then Rewritten(j, content.value) else Current;
  }

  function UpgradeLine(l: Line): Line {
    if l.Value? then Value(Upgrade(l.json)) else l
  }

  predicate Stale(l: Line) {
    l.Value? && Version(l.json) < CURRENT_VERSION
  }

  /** Some line makes the migration rewrite the file. */
  predicate Rewrites(file: seq<Line>) {
    exists i :: 0 <= i < |file| && Stale(file[i])
  }

  function MigratedFile(file: seq<Line>): (r: seq<Line>)
    ensures |r| == |file|
    ensures Rewrites(file) ==> forall i :: 0 <= i < |file| ==> r[i] == UpgradeLine(file[i])
  {
    if Rewrites(file) then seq(|file|, i requires 0 <= i < |file| => UpgradeLine(file[i])) else file
  }

  method MigrateNdjsonFile(file: seq<Line>) returns (r: seq<Line>, written: bool)
    ensures r == MigratedFile(file) && written == Rewrites(file)
  {
    var lines: seq<Line> := [];
    written := false;
    for i := 0 to |file|
      invariant |lines| == i && forall k :: 0 <= k < i ==> lines[k] == UpgradeLine(file[k])
      invariant written == exists k :: 0 <= k < i && Stale(file[k])
    {
      if file[i].Value? {
        var j, migrated := MigrateValue(file[i].json);
        lines := lines + [Value(j)];
        written := written || migrated;
      } else {
        lines := lines + [file[i]];
      }
    }
    r := if written then lines else file;
  }

  // ---- What a migration keeps ----

  lemma {:induction false} WithNullsKeeps(f: map<string, Json>, names: seq<string>)
    ensures var r := WithNulls(f, names);
            && r.Keys == f.Keys + (set k | k in names)
            && (forall k :: k in r ==> r[k] == if k in f then f[k] else Null)
    decreases |names|
  {
    if names != [] {
      WithNullsKeeps(if names[0] in f then f else f[names[0] := Null], names[1..]);
      assert (set k | k in names) == {names[0]} + set k | k in names[1..];
    }
  }

  /** A version 0 object that is not taken for a store keeps every field and
      gains a null `prev_hash`, unless it has one, and version 1. */
  lemma EntryMigrated(f: map<string, Json>)
    requires Version(Obj(f)) == 0 && !IsStoreFile(f)
    ensures var r := Upgrade(Obj(f));
            && r.Obj? && r.fields.Keys == f.Keys + {"prev_hash", "schema_version"}
            && r.fields["schema_version"] == Num(1)
            && r.fields["prev_hash"] == (if "prev_hash" in f then f["prev_hash"] else Null)
            && forall k :: k in f && k != "schema_version" ==> r.fields[k] == f[k]
  {
    assert "prev_hash"[0] != "schema_version"[0];
  }

  /** Migrating again is the identity, for every value. */
  lemma UpgradeIdempotent(j: Json)
    ensures Upgrade(Upgrade(j)) == Upgrade(j)
  {
    if j.Obj? && Version(j) < CURRENT_VERSION {
      assert Version(Upgrade(j)) == CURRENT_VERSION;
    }
  }

  /** A version of at least 1 counts as 0 exactly when it is a multiple of 2^32
      or does not fit 64 bits; such a value is then migrated again and its
      version set back to 1. */
  lemma VersionTruncatedIff(f: map<string, Json>, v: int)
    requires VERSION_KEY in f && f[VERSION_KEY] == Num(v) && v >= 1
    ensures Version(Obj(f)) < CURRENT_VERSION <==> v % 0x1_0000_0000 == 0 || v >= 0x1_0000_0000_0000_0000
    ensures Version(Obj(f)) < CURRENT_VERSION ==>
            Stale(Value(Obj(f))) && Upgrade(Obj(f)).fields[VERSION_KEY] == Num(CURRENT_VERSION)
    ensures Version(Obj(f)) >= CURRENT_VERSION ==> Upgrade(Obj(f)) == Obj(f)
  {
  }

  predicate Claims(l: Line) {
    l.Value? && l.json.Obj? && VERSION_KEY in l.json.fields
    && l.json.fields[VERSION_KEY].Num? && l.json.fields[VERSION_KEY].n >= 1
  }

  function Claimed(l: Line): int
    requires Claims(l)
  {
    l.json.fields[VERSION_KEY].n
  }

  /** A file of lines that all claim a version of at least 1 is left alone
      exactly when no claim is lost to the truncation; otherwise each lost claim
      becomes 1 and all other lines stay. */
  lemma ClaimedFileRewrittenIff(file: seq<Line>)
    requires forall i :: 0 <= i < |file| ==> Claims(file[i])
    ensures MigratedFile(file) != file <==>
            exists i :: 0 <= i < |file| && (Claimed(file[i]) % 0x1_0000_0000 == 0 || Claimed(file[i]) >= 0x1_0000_0000_0000_0000)
    ensures forall i :: 0 <= i < |file| ==>
              var l := MigratedFile(file)[i];
              Claims(l) && (l != file[i] ==> Stale(file[i]) && Claimed(l) == CURRENT_VERSION < Claimed(file[i]))
  {
    forall i | 0 <= i < |file|
      ensures Stale(file[i]) <==> Claimed(file[i]) % 0x1_0000_0000 == 0 || Claimed(file[i]) >= 0x1_0000_0000_0000_0000
      ensures var l := UpgradeLine(file[i]);
              Claims(l) && (Stale(file[i]) ==> Claimed(l) == CURRENT_VERSION < Claimed(file[i])) && (!Stale(file[i]) ==> l == file[i])
    {
      VersionTruncatedIff(file[i].json.fields, Claimed(file[i]));
    }
    if Rewrites(file) {
      var i :| 0 <= i < |file| && Stale(file[i]);
      assert MigratedFile(file)[i] == UpgradeLine(file[i]);
    }
  }

  // ---- Audit lines ----

  /** The details of an entry would gain fields: the line is an entry, yet its
      first keys pass for UUIDs, so it is taken for a store. */
  predicate Garbled(env: Env, j: Json) {
    && j.Obj? && Version(j) < CURRENT_VERSION && IsStoreFile(j.fields) && Decode(env, j).Some?
    && j.fields["details"].Obj? && exists k :: k in REQUIRED_FIELDS && k !in j.fields["details"].fields
  }

  lemma DecodeReadsSixFields(env: Env, a: map<string, Json>, b: map<string, Json>)
    requires forall k :: k in {"timestamp", "action", "actor", "target"} ==> StrField(a, k) == StrField(b, k)
    requires PrevField(a) == PrevField(b)
    requires "details" in a <==> "details" in b
    requires "details" in a ==> a["details"] == b["details"]
    ensures Decode(env, Obj(a)) == Decode(env, Obj(b))
  {
    assert StrField(a, "timestamp") == StrField(b, "timestamp");
  }

  lemma GarbledChangesDetails(f: map<string, Json>)
    requires "details" in f && f["details"].Obj?
    ensures MigrateRecord("details", f["details"]) == f["details"] <==>
            forall k :: k in REQUIRED_FIELDS ==> k in f["details"].fields
  {
    var d := f["details"].fields;
    WithNullsKeeps(d, REQUIRED_FIELDS);
    if forall k :: k in REQUIRED_FIELDS ==> k in d {
      assert WithNulls(d, REQUIRED_FIELDS) == d;
    }
  }

  lemma EntryBranchDecodes(env: Env, f: map<string, Json>)
    ensures Decode(env, SetVersion(Obj(MigrateEntry(f)))) == Decode(env, Obj(f))
  {
    var g := SetVersion(Obj(MigrateEntry(f))).fields;
    assert forall k :: k in {"timestamp", "action", "actor", "target"} ==> StrField(g, k) == StrField(f, k);
    DecodeReadsSixFields(env, g, f);
  }

  /** In the store branch only the details of a decoded entry can change. */
  lemma StoreBranchDecodes(env: Env, f: map<string, Json>)
    ensures var g := SetVersion(Obj(MigrateStore(f))).fields;
            var d := if "details" in f then f["details"] else Null;
            && ("details" in f ==> "details" in g && g["details"] == MigrateRecord("details", d))
            && Decode(env, Obj(if "details" in f then g["details" := d] else g)) == Decode(env, Obj(f))
  {
    var g := SetVersion(Obj(MigrateStore(f))).fields;
    var h := if "details" in f then g["details" := f["details"]] else g;
    forall k | k in {"timestamp", "action", "actor", "target"} ensures StrField(h, k) == StrField(f, k) {
      StoreBranchField(f, k);
    }
    StoreBranchField(f, "prev_hash");
    DecodeReadsSixFields(env, h, f);
  }

  /** Away from the version key, the store branch only turns objects into objects. */
  lemma StoreBranchField(f: map<string, Json>, k: string)
    requires k != VERSION_KEY
    ensures var g := SetVersion(Obj(MigrateStore(f))).fields;
            && (k in g <==> k in f)
            && (k in f ==> if f[k].Obj? then g[k].Obj? else g[k] == f[k])
  {
  }

  lemma DetailsShow(env: Env, f: map<string, Json>, d: Json)
    requires "details" in f
    ensures Decode(env, Obj(f["details" := d])) == Decode(env, Obj(f))
            <==> Decode(env, Obj(f)).Some? ==> f["details"] == d
  {
    var g := f["details" := d];
    assert forall k :: k in {"timestamp", "action", "actor", "target"} ==> StrField(g, k) == StrField(f, k);
    assert StrField(g, "timestamp") == StrField(f, "timestamp");
    assert PrevField(g) == PrevField(f);
  }

  /** The migration of a line keeps the entry it decodes to exactly when the
      line is not garbled. */
  lemma DecodeKeptIff(env: Env, j: Json)
    ensures Decode(env, Upgrade(j)) == Decode(env, j) <==> !Garbled(env, j)
  {
    if j.Obj? && Version(j) < CURRENT_VERSION {
      var f := j.fields;
      if IsStoreFile(f) {
        StoreKeptIff(env, f);
      } else {
        EntryBranchDecodes(env, f);
      }
    }
  }

  lemma StoreKeptIff(env: Env, f: map<string, Json>)
    ensures Decode(env, SetVersion(Obj(MigrateStore(f)))) == Decode(env, Obj(f)) <==>
            !(Decode(env, Obj(f)).Some? && f["details"].Obj?
              && exists k :: k in REQUIRED_FIELDS && k !in f["details"].fields)
  {
    var g := SetVersion(Obj(MigrateStore(f))).fields;
    StoreBranchDecodes(env, f);
    if "details" in f {
      DetailsShow(env, g, f["details"]);
      if f["details"].Obj? { GarbledChangesDetails(f); }
    }
  }

  lemma {:induction false} UpgradedFileDecodes(env: Env, file: seq<Line>, file': seq<Line>)
    requires |file'| == |file|
    requires forall i :: 0 <= i < |file| ==> DecodeLine(env, file'[i]) == DecodeLine(env, file[i])
    ensures DecodeFile(env, file') == DecodeFile(env, file)
  {
    if file != [] {
      UpgradedFileDecodes(env, file[..|file| - 1], file'[..|file| - 1]);
    }
  }

  /** Migrating an NDJSON file without garbled lines keeps the sequence of decoded entries. */
  lemma MigrationKeepsEntries(env: Env, file: seq<Line>)
    requires forall i :: 0 <= i < |file| && file[i].Value? ==> !Garbled(env, file[i].json)
    ensures DecodeFile(env, MigratedFile(file)) == DecodeFile(env, file)
  {
    var file' := MigratedFile(file);
    if Rewrites(file) {
      forall i | 0 <= i < |file| ensures DecodeLine(env, file'[i]) == DecodeLine(env, file[i]) {
        if file[i].Value? { DecodeKeptIff(env, file[i].json); }
      }
      UpgradedFileDecodes(env, file, file');
    }
  }

  const AUDIT_KEYS := {"timestamp", "action", "actor", "target", "details", "prev_hash", "schema_version"}

  lemma ActionComesFirst(k: string)
    requires k in AUDIT_KEYS - {"schema_version"}
    ensures !Less(k, "action")
  {
    assert "actor"[1..] == "ctor" && "ctor"[1..] == "tor" && "tor"[1..] == "or";
    assert "action"[1..] == "ction" && "ction"[1..] == "tion" && "tion"[1..] == "ion";
    assert !Less("or", "ion");
    assert !Less("tor", "tion");
    assert !Less("ctor", "ction");
    assert !Less("actor", "action");
    assert !Less("ion", "ion") by { assert "ion"[1..] == "on" && "on"[1..] == "n" && "n"[1..] == ""; }
    assert !Less("tion", "tion");
    assert !Less("ction", "ction");
  }

  /** A line with the keys that `record` writes is never taken for a store. */
  lemma RecordedLineNotGarbled(env: Env, f: map<string, Json>)
    requires f.Keys <= AUDIT_KEYS
    ensures !Garbled(env, Obj(f))
  {
    if Decode(env, Obj(f)).Some? {
      forall x | x in Preceding(f, "action") ensures false {
        ActionComesFirst(x);
      }
      assert Preceding(f, "action") == {};
      assert AmongFirstTwo(f, "action") && '-' !in "action";
    }
  }

  /** Two extra keys that look like UUIDs and sort before the entry's own, as
      those that begin with a digit do, are enough to garble a recorded line. */
  lemma ExtraKeysGarble(env: Env, e: Entry, u: string, v: string)
    requires AuditEntries.Lawful(env) && e.details == Obj(map[])
    requires u != v && LooksLikeUuid(u) && LooksLikeUuid(v) && u[0] < 'a' && v[0] < 'a'
    ensures Garbled(env, Obj(Encode(env, e).fields[u := Null][v := Null]))
  {
    var f := Encode(env, e).fields[u := Null][v := Null];
    RecordedKeys(env, e);
    AuditKeysAreLate(u);
    AuditKeysAreLate(v);
    ExtraKeysMakeStore(f, u, v);
    ExtraKeysIgnored(env, e, u, v);
    EmptyDetailsLackFields();
  }

  lemma EmptyDetailsLackFields()
    ensures exists k :: k in REQUIRED_FIELDS && k !in Obj(map[]).fields
  {
    assert REQUIRED_FIELDS[0] in REQUIRED_FIELDS;
  }

  lemma ExtraKeysIgnored(env: Env, e: Entry, u: string, v: string)
    requires AuditEntries.Lawful(env) && u !in AUDIT_KEYS && v !in AUDIT_KEYS
    ensures var f := Encode(env, e).fields[u := Null][v := Null];
            && Decode(env, Obj(f)) == Some(e) && "details" in f && f["details"] == e.details
            && Version(Obj(f)) == 0
  {
    var base := Encode(env, e).fields;
    var f := base[u := Null][v := Null];
    DecodeEncode(env, e);
    forall k | k in {"timestamp", "action", "actor", "target"} ensures StrField(f, k) == StrField(base, k) {
      assert k in AUDIT_KEYS;
    }
    RecordedKeys(env, e);
    assert "prev_hash" in AUDIT_KEYS && "details" in AUDIT_KEYS && VERSION_KEY in AUDIT_KEYS;
    assert VERSION_KEY !in f;
    DecodeReadsSixFields(env, f, base);
  }

  lemma AuditKeysAreLate(u: string)
    requires u != "" && u[0] < 'a'
    ensures u !in AUDIT_KEYS && forall k :: k in AUDIT_KEYS ==> Less(u, k)
  {
  }

  lemma ExtraKeysMakeStore(f: map<string, Json>, u: string, v: string)
    requires u != v && u in f && v in f && LooksLikeUuid(u) && LooksLikeUuid(v)
    requires u != VERSION_KEY && v != VERSION_KEY
    requires forall k :: k in f && k != u && k != v ==> Less(u, k) && Less(v, k)
    ensures IsStoreFile(f)
  {
    forall k | k in f && AmongFirstTwo(f, k) ensures LooksLikeUuid(k) {
      if k != u && k != v {
        SubsetSize({u, v}, Preceding(f, k));
      }
    }
    SubsetSize({u, v}, f.Keys);
  }

  lemma RecordedKeys(env: Env, e: Entry)
    ensures Encode(env, e).Obj? && Encode(env, e).fields.Keys <= AUDIT_KEYS
    ensures VERSION_KEY !in Encode(env, e).fields
  {
  }

  /** Every file of recorded, blank and malformed lines keeps its entries, so
      the log reloads the same buffer and tip and answers the same queries. */
  lemma ReloadAfterMigration(cfg: AuditLogs.Config, s: AuditLogs.State)
    requires 0 in s.files
    requires forall i :: 0 <= i < |s.files[0]| && s.files[0][i].Value? && s.files[0][i].json.Obj? ==>
                           s.files[0][i].json.fields.Keys <= AUDIT_KEYS
    ensures var s' := s.(files := s.files[0 := MigratedFile(s.files[0])]);
            var l, l' := AuditLogs.AfterLoad(cfg, s), AuditLogs.AfterLoad(cfg, s');
            && l'.entries == l.entries && l'.lastHash == l.lastHash
            && (forall limit: nat, offset: nat ::
                  AuditLogs.Query(cfg, l', limit, offset) == AuditLogs.Query(cfg, l, limit, offset))
  {
    var file := s.files[0];
    forall i | 0 <= i < |file| && file[i].Value? ensures !Garbled(cfg.env, file[i].json) {
      if file[i].json.Obj? { RecordedLineNotGarbled(cfg.env, file[i].json.fields); }
    }
    MigrationKeepsEntries(cfg.env, file);
    SameChronicle(cfg, s.files, s.files[0 := MigratedFile(file)], cfg.backups);
  }

  lemma {:induction false} SameChronicle(cfg: AuditLogs.Config, fs: Rotation.Files<seq<Line>>, fs': Rotation.Files<seq<Line>>, n: nat)
    requires fs.Keys == fs'.Keys
    requires forall k :: k in fs ==> DecodeFile(cfg.env, fs'[k]) == DecodeFile(cfg.env, fs[k])
    ensures Rotation.Chronicle(fs', AuditLogs.Decoder(cfg.env), n) == Rotation.Chronicle(fs, AuditLogs.Decoder(cfg.env), n)
  {
    if n > 0 { SameChronicle(cfg, fs, fs', n - 1); }
  }

  /** A second migration of an NDJSON file writes again exactly when some line
      is a JSON value that is not an object: such a line cannot hold a version. */
  lemma SecondMigrationWritesIff(file: seq<Line>)
    ensures Rewrites(MigratedFile(file)) <==> exists i :: 0 <= i < |file| && file[i].Value? && !file[i].json.Obj?
  {
    var file' := MigratedFile(file);
    if i :| 0 <= i < |file| && file[i].Value? && !file[i].json.Obj? {
      assert Stale(file[i]);
      assert Stale(file'[i]);
    } else if Rewrites(file) {
      forall i | 0 <= i < |file| ensures !Stale(file'[i]) {
        assert file'[i] == UpgradeLine(file[i]);
      }
    }
  }

  // ---- Store files ----

  /** A version 0 store whose keys all look like UUIDs. */
  predicate UuidStore(f: map<string, Json>) {
    Version(Obj(f)) < CURRENT_VERSION && forall k :: k in f && k != VERSION_KEY ==> LooksLikeUuid(k)
  }

  /** `b` is the record `a` with each missing field of `names` as null and nothing else changed. */
  predicate OnlyNullsAdded(a: Json, b: Json, names: seq<string>) {
    if !a.Obj? then b == a
    else b.Obj?
         && b.fields.Keys == a.fields.Keys + (set x | x in names)
         && forall x :: x in b.fields ==> b.fields[x] == if x in a.fields then a.fields[x] else Null
  }

  lemma UpgradedStore(f: map<string, Json>)
    requires UuidStore(f) && |f| >= 2
    ensures Upgrade(Obj(f)) == Obj(MigrateStore(f)[VERSION_KEY := Num(CURRENT_VERSION)])
  {
  }

  lemma RecordOnlyGainsNulls(k: string, v: Json)
    requires k != VERSION_KEY
    ensures OnlyNullsAdded(v, MigrateRecord(k, v), REQUIRED_FIELDS)
  {
    if v.Obj? { WithNullsKeeps(v.fields, REQUIRED_FIELDS); }
  }

  /** With at least two top-level keys every record gains exactly the missing
      fields as null and keeps every value it had. */
  lemma StoreMigrationAddsNulls(f: map<string, Json>, k: string)
    requires UuidStore(f) && |f| >= 2 && k in f && k != VERSION_KEY
    ensures k in Upgrade(Obj(f)).fields && OnlyNullsAdded(f[k], Upgrade(Obj(f)).fields[k], REQUIRED_FIELDS)
  {
    UpgradedStore(f);
    RecordOnlyGainsNulls(k, f[k]);
  }

  lemma PrevHashNoUuid(f: map<string, Json>)
    requires UuidStore(f)
    ensures "prev_hash" !in f
  {
    assert '-' !in "prev_hash" && "prev_hash" != VERSION_KEY;
  }

  lemma SmallStoreGainsPrevHash(f: map<string, Json>)
    requires UuidStore(f) && |f| < 2
    ensures Upgrade(Obj(f)).fields == f["prev_hash" := Null][VERSION_KEY := Num(CURRENT_VERSION)]
  {
    PrevHashNoUuid(f);
  }

  /** For any version 0 object, the keys survive migration and stripping exactly
      when it is taken for a store or already has a `prev_hash`. */
  lemma KeysKeptIff(f: map<string, Json>)
    requires Version(Obj(f)) < CURRENT_VERSION
    ensures Upgrade(Obj(f)).fields.Keys - {VERSION_KEY} == f.Keys - {VERSION_KEY} <==>
            IsStoreFile(f) || "prev_hash" in f
  {
    var h := if IsStoreFile(f) then MigrateStore(f) else MigrateEntry(f);
    var g := Upgrade(Obj(f)).fields;
    assert g == h[VERSION_KEY := Num(CURRENT_VERSION)];
    assert g.Keys - {VERSION_KEY} == h.Keys - {VERSION_KEY};
    if IsStoreFile(f) {
      assert h.Keys == f.Keys;
    } else {
      PrevHashIsNoVersion();
      assert "prev_hash" in h.Keys - {VERSION_KEY};
    }
  }

  lemma PrevHashIsNoVersion()
    ensures "prev_hash" != VERSION_KEY
  {
    assert "prev_hash"[0] != VERSION_KEY[0];
  }

  /** For a store with UUID keys that is exactly when it has at least two
      top-level keys; a smaller one is taken for a log entry. */
  lemma StoreKeysKeptIff(f: map<string, Json>)
    requires UuidStore(f)
    ensures Upgrade(Obj(f)).fields.Keys - {VERSION_KEY} == f.Keys - {VERSION_KEY} <==> |f| >= 2
  {
    PrevHashNoUuid(f);
    KeysKeptIff(f);
  }

  /** A decoder for which a missing optional field and a null one are the same. */
  ghost predicate NullTolerant<V(!new)>(c: Store.Codec<V>) {
    forall h, x :: x in REQUIRED_FIELDS && x !in h ==> c.dec(Obj(h[x := Null])) == c.dec(Obj(h))
  }

  lemma {:induction false} NullsDecodeSame<V(!new)>(c: Store.Codec<V>, h: map<string, Json>, names: seq<string>)
    requires NullTolerant(c) && forall x :: x in names ==> x in REQUIRED_FIELDS
    ensures c.dec(Obj(WithNulls(h, names))) == c.dec(Obj(h))
    decreases |names|
  {
    if names != [] {
      NullsDecodeSame(c, if names[0] in h then h else h[names[0] := Null], names[1..]);
    }
  }

  lemma StripReads<V(!new)>(c: Store.Codec<V>, f: map<string, Json>)
    requires Store.Lawful(c)
    ensures Store.ReadStore(c, c.show(Obj(f))) == Store.DecodeMap(c, f - {VERSION_KEY})
  {
    if VERSION_KEY !in f { assert f - {VERSION_KEY} == f; }
  }

  /** A store of at least two keys loads the same map after the migration. */
  lemma MigratedStoreLoadsSame<V(!new)>(c: Store.Codec<V>, f: map<string, Json>)
    requires Store.Lawful(c) && NullTolerant(c) && UuidStore(f) && |f| >= 2
    ensures Store.ReadStore(c, c.show(Upgrade(Obj(f)))) == Store.ReadStore(c, c.show(Obj(f)))
  {
    UpgradedStore(f);
    var g := MigrateStore(f)[VERSION_KEY := Num(CURRENT_VERSION)];
    StripReads(c, f);
    StripReads(c, g);
    var a, b := f - {VERSION_KEY}, g - {VERSION_KEY};
    assert b.Keys == a.Keys;
    forall k | k in a ensures c.dec(b[k]) == c.dec(a[k]) {
      RecordDecodesSame(c, k, f[k]);
    }
    DecodeMapsAlike(c, a, b);
  }

  lemma RecordDecodesSame<V(!new)>(c: Store.Codec<V>, k: string, v: Json)
    requires NullTolerant(c)
    ensures c.dec(MigrateRecord(k, v)) == c.dec(v)
  {
    if v.Obj? { NullsDecodeSame(c, v.fields, REQUIRED_FIELDS); }
  }

  lemma DecodeMapsAlike<V>(c: Store.Codec<V>, a: map<string, Json>, b: map<string, Json>)
    requires a.Keys == b.Keys && forall k :: k in a ==> c.dec(b[k]) == c.dec(a[k])
    ensures Store.DecodeMap(c, b) == Store.DecodeMap(c, a)
  {
    if Store.DecodeMap(c, a).Some? {
      assert forall k :: k in b ==> k in a && c.validKey(k) && c.dec(b[k]).Some?;
      assert Store.DecodeMap(c, b).value == Store.DecodeMap(c, a).value;
    }
  }

  /** A store with UUID keys that loads before the migration still loads after
      it exactly when it has at least two top-level keys; otherwise, the empty
      store included, the next start poisons it. */
  lemma PoisonedIffSmall<V(!new)>(c: Store.Codec<V>, f: map<string, Json>, s: Store.State<V>, stamp: string, renamed: bool)
    requires Store.Lawful(c) && NullTolerant(c) && !c.validKey("prev_hash") && UuidStore(f)
    requires Store.ReadStore(c, c.show(Obj(f))).Some? && !s.poisoned
    requires s.main == Some(c.show(Upgrade(Obj(f))))
    ensures Store.AfterLoad(c, s, stamp, renamed).poisoned <==> |f| < 2
  {
    if |f| >= 2 {
      MigratedStoreLoadsSame(c, f);
    } else {
      SmallStoreUnreadable(c, f);
    }
  }

  lemma SmallStoreUnreadable<V(!new)>(c: Store.Codec<V>, f: map<string, Json>)
    requires Store.Lawful(c) && !c.validKey("prev_hash") && UuidStore(f) && |f| < 2
    ensures Store.ReadStore(c, c.show(Upgrade(Obj(f)))) == None
  {
    SmallStoreGainsPrevHash(f);
    var g := f["prev_hash" := Null][VERSION_KEY := Num(CURRENT_VERSION)];
    PrevHashIsNoVersion();
    StripReads(c, g);
    assert "prev_hash" in g - {VERSION_KEY};
  }

  /** The store of one record is such a store: readable before the migration, poisoned after. */
  lemma SingleRecordStorePoisoned<V(!new)>(c: Store.Codec<V>, k: string, v: V, s: Store.State<V>, stamp: string, renamed: bool)
    requires Store.Lawful(c) && LooksLikeUuid(k) && k != VERSION_KEY && c.validKey(k) && !c.validKey("prev_hash")
    requires s.main == Some(c.show(Upgrade(Obj(map[k := c.enc(v)]))))
    ensures Store.ReadStore(c, c.show(Obj(map[k := c.enc(v)]))).Some?
    ensures Store.AfterLoad(c, s, stamp, renamed).poisoned
  {
    var f := map[k := c.enc(v)];
    assert |f| == 1 && UuidStore(f);
    SmallStoreUnreadable(c, f);
    StripReads(c, f);
  }

  // ---- Stores as they are written ----

  /** A version 0 store whose keys are UUIDs. */
  predicate KeyedByUuids(f: map<string, Json>) {
    Version(Obj(f)) == 0 && forall k :: k in f && k != "schema_version" ==> IsUuid(k)
  }

  /** With two keys or more the migration adds version 1 and to each record its
      missing fields as null, and the store loads the same map. */
  lemma UuidStoreMigrated<V(!new)>(c: Store.Codec<V>, f: map<string, Json>)
    requires KeyedByUuids(f) && |f| >= 2 && Store.Lawful(c) && NullTolerant(c)
    ensures var r := Upgrade(Obj(f));
            && r.Obj? && r.fields.Keys == f.Keys + {"schema_version"} && r.fields["schema_version"] == Num(1)
            && (forall k :: k in f && k != "schema_version" ==> NullsAdded(f[k], r.fields[k]))
            && Store.ReadStore(c, c.show(r)) == Store.ReadStore(c, c.show(Obj(f)))
  {
    UuidKeysPass(f);
    UpgradedStore(f);
    forall k | k in f && k != "schema_version" ensures NullsAdded(f[k], Upgrade(Obj(f)).fields[k]) {
      UuidRecordMigrated(f, k);
    }
    MigratedStoreLoadsSame(c, f);
  }

  lemma UuidKeysPass(f: map<string, Json>)
    requires KeyedByUuids(f)
    ensures UuidStore(f)
  {
    forall k | k in f && k != "schema_version" ensures LooksLikeUuid(k) { UuidPasses(k); }
  }

  lemma UuidRecordMigrated(f: map<string, Json>, k: string)
    requires KeyedByUuids(f) && |f| >= 2 && k in f && k != "schema_version"
    ensures k in Upgrade(Obj(f)).fields && NullsAdded(f[k], Upgrade(Obj(f)).fields[k])
  {
    UuidKeysPass(f);
    StoreMigrationAddsNulls(f, k);
    OnlyNullsAreNulls(f[k], Upgrade(Obj(f)).fields[k]);
  }

  lemma OnlyNullsAreNulls(a: Json, b: Json)
    requires OnlyNullsAdded(a, b, REQUIRED_FIELDS)
    ensures NullsAdded(a, b)
  {
    RequiredNames();
  }

  lemma RequiredNames()
    ensures (set x | x in REQUIRED_FIELDS) == {"rpm_limit", "tpm_limit", "expires_at", "group"}
  {
  }

  /** A record with its four optional fields filled in as null; a value that is no record is kept. */
  predicate NullsAdded(a: Json, b: Json) {
    if !a.Obj? then b == a
    else b.Obj? && b.fields.Keys == a.fields.Keys + {"rpm_limit", "tpm_limit", "expires_at", "group"}
         && forall x :: x in b.fields ==> b.fields[x] == if x in a.fields then a.fields[x] else Null
  }

  /** A store that `persist` wrote, of any size, is left alone by the migration
      at the next start, and then loads as what was saved. */
  lemma PersistedFileIsCurrent<V(!new)>(c: Store.Codec<V>, s: Store.State<V>, stamp: string, renamed: bool)
    requires Store.Lawful(c) && Store.Keyed(c, s.data) && !s.poisoned
    ensures var written := Store.AfterPersist(c, s, Store.Done);
            && written.main.Some? && c.parse(written.main.value).Some?
            && var j := c.parse(written.main.value).value;
               && Version(j) == CURRENT_VERSION && Upgrade(j) == j
               && Store.AfterLoad(c, written.(data := map[], main := Some(c.show(Upgrade(j)))), stamp, renamed).data
                  == s.data - {"schema_version"}
  {
    Store.WrittenText(c, s.data);
    Store.RoundTrip(c, s.data);
    Store.PersistThenLoad(c, s, stamp, renamed);
  }
}
