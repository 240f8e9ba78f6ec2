# ModelSwitch: durable state and accounting

A Dafny model of the parts of the ModelSwitch gateway that must not lose or
invent anything: the audit log, the persisted key-value store with its schema
migration, provider budgets, the HTTP client pool, the glob matcher of the model
availability matrix, the dispatch log, the model registry and the content
guardrails. Every statement below is for all inputs, all runs or all reachable
states of the model.

Objects that the source updates in place are classes whose methods are proved
against functions on values; whole runs are then reasoned about on those
functions. `dafny verify dfyconfig.toml` covers the project.

## Modules

| file | content |
|---|---|
| `Seqs.dfy`, `Json.dfy` | suffixes, pages, bounded buffers; JSON values and NDJSON lines |
| `Rotation.dfy` | renaming rotations over any pattern of missing backups |
| `AuditEntries.dfy` | entries, what the digest determines, the hash chain, the NDJSON form |
| `AuditLog.dfy`, `AuditRuns.dfy` | the audit log class; runs of record, append, clear, load, restart and crash |
| `AuditDiskChain.dfy` | which events keep everything recorded one linked chain on disk, and exactly which break it |
| `AuditConcurrency.dfy` | `record` as three steps per call, in every interleaving |
| `PersistedStore.dfy`, `StoreCrash.dfy` | persist, load and poisoning; persist as file-system steps with failures and crashes |
| `Migration.dfy` | store and NDJSON migration, and what the store and the audit log read afterwards |
| `ProviderBudget.dfy`, `BudgetRuns.dfy` | rolling counters against a ledger; the overshoot of admission control |
| `HttpPool.dfy` | least-busy selection over wrapping 8-bit counters |
| `Glob.dfy` | the memoised matcher and its work bound |
| `DispatchLog.dfy` | the bounded log with retroactive updates, and usage buckets |
| `ModelRegistry.dfy`, `Guardrails.dfy` | longest-prefix lookup and refreshes; pattern screening of joined texts |

## Where the code differs from its comments or tests

The model follows the code. Each difference is a proved statement.

- Chain integrity "under concurrency" (src-tauri/src/admin/audit.rs:1063) needs an
  ordering: `VerifiesIffOrdered` says exactly which interleavings verify short of a collision,
  `ExclusiveVerifies` gives a sufficient schedule, `OverlapBreaksChain` a failing one.
- The digest joins its fields with an unescaped `|`. It confuses an entry with one of
  another action or target exactly when one of the two holds a `|`
  (`NamesAmbiguousIffBar`).
- `verify_chain` does not protect the newest entry (`NewestTamperOverlooked`), nor any
  actor: all of them can be rewritten unnoticed (`ActorsUnprotected`).
- `clear` leaves the files alone, background appends can overtake each other, a load can
  run before queued appends land, and a crash inside an append can leave no active file.
  `NextRecordLinksIff` says for each event exactly when the next record still extends
  the chain on disk. A reload after `clear` verifies exactly when there was no active
  file or the append rotated it away (`ReloadAfterClearIff`, with runs from the empty
  log in `ClearBreaksReload` and `OvertakingReloadIff`).
- While an append is outstanding the fast and the slow query path page different records
  (`QueryWhilePending`); `QueryAgreesIff` says exactly when they agree.
- Concurrent `persist` calls share one temporary name: the store is safe from poisoning
  itself exactly when at most one is in flight and it syncs before it renames
  (`SafeIffOneSyncedWriter`).
- A version 0 object that is not taken for a store gains a `prev_hash` key (`KeysKeptIff`).
  A store with UUID keys is affected exactly when it has fewer than two top-level keys
  (`StoreKeysKeptIff`), the empty store included, and the next load then poisons it
  (`PoisonedIffSmall`, `SingleRecordStorePoisoned`).
- An NDJSON line that is JSON but not an object makes every later migration rewrite the
  file (`SecondMigrationWritesIff`), and an entry whose first keys look like UUIDs has
  its details changed (`DecodeKeptIff`, `ExtraKeysGarble`).
- A schema version is truncated to 32 bits: a claimed version of at least 1 counts as 0
  exactly when it is a multiple of 2^32 or does not fit 64 bits (`VersionTruncatedIff`),
  and a file is then rewritten with a lower version (`ClaimedFileRewrittenIff`).
- `first` ignores the load and can wrap a counter (`FirstWraps`); the counters of a run are
  exact as long as every client has fewer than 256 live guards, and only then
  (`ExactIffBelow256`).
- The hyphen boundary named in the registry is not enforced: the code selects the
  documented key exactly when the longest registered prefix is absent, is the whole name or
  is followed by a hyphen (`HyphenBoundaryIff`; a registry of `gpt-4` asked for `gpt-4o`
  fails it, `HyphenBoundaryDiffers`). A refresh can take over a built-in model that the next refresh
  deletes (`SameKeysIff`, `TakeoverDeletesBuiltin`).
- A model without a registered prefix has no capabilities at all, although the registry's
  comment promises vision and tools (`LookupOfLongest`;
  src-tauri/src/model_registry.rs:67-68).
- A buffer of nominal size 0 keeps one entry (`RingPushIsTail`).

## Model

| member | source | states |
|---|---|---|
| `Seqs.RingPushIsTail` | src-tauri/src/admin/audit.rs:241-245 | one evicting push on the buffer is one append on the unbounded log it is the tail of, for every capacity including 0 |
| `Seqs.PagesTile` | src-tauri/src/admin/audit.rs:310-340 | consecutive newest-first pages glued together are the reversed history up to their length: no gap, no repeat |
| `Seqs.PageAt` | src-tauri/src/admin/audit.rs:310-340 | place i of a page is the element offset + i places before the newest, and the page is as long as the rest allows |
| `Rotation.RotateAudit` | src-tauri/src/admin/audit.rs:401-409 | the descending rename loop computes the shift that the next two rows describe |
| `Rotation.ShiftDownAt` | src-tauri/src/admin/audit.rs:392-416 | slot by slot: every file moves up by one, the active slot is vacated, and the oldest slot is kept when there is nothing to move into it |
| `Rotation.ShiftDownHistory` | src-tauri/src/admin/audit.rs:392-416 | the chronological content is unchanged, except that the oldest backup is dropped exactly when the one before it exists |
| `Rotation.ShiftSomeHistory` | src-tauri/src/admin/audit.rs:392-416 | stopped after any number of renames, the chronological content is unchanged, except that the oldest backup is dropped exactly when a rename happened and the backup before it exists |
| `Rotation.RotateDispatch` | src-tauri/src/log.rs:369-410 | rotates exactly when the active file exceeds the limit, for every backup count of at least 1 |
| `Rotation.DispatchShiftAt` | src-tauri/src/log.rs:383-400 | an exact shift by one for any pattern of missing backups; files beyond the count are untouched |
| `Rotation.DispatchHistory` | src-tauri/src/log.rs:383-400 | the only content lost is that of the oldest backup |
| `AuditEntries.HashedText` | src-tauri/src/admin/audit.rs:444-467 | the digest is taken of time, action, target, details and previous hash, joined in this order by bars; no previous hash is the empty text |
| `AuditEntries.PreimageInjective` | src-tauri/src/admin/audit.rs:444-467 | on entries without a bar character in action and target the hashed text determines all five covered fields |
| `AuditEntries.NamesAmbiguousIffBar` | src-tauri/src/admin/audit.rs:444-467 | another action and target give the same hashed text exactly when the action or the target holds a bar character |
| `AuditEntries.TipCommits` | src-tauri/src/admin/audit.rs:278-294 | two intact chains of equal length with the same newest hash agree on every covered field of every entry, or exhibit a digest collision; the digest is arbitrary |
| `AuditEntries.EqualHashCollides` | src-tauri/src/admin/audit.rs:444-467 | two entries of one chain from its root share a hash only if a digest collision is exhibited in it |
| `AuditEntries.TamperVerdict` | src-tauri/src/admin/audit.rs:278-294 | exactly which replacement of one entry of an intact chain still verifies |
| `AuditEntries.InnerTamperDetected` | src-tauri/src/admin/audit.rs:278-294 | changing a covered field of any entry but the newest is detected, short of a collision |
| `AuditEntries.NewestTamperOverlooked` | src-tauri/src/admin/audit.rs:278-294 | changing action and details of the newest entry always passes |
| `AuditEntries.ActorsUnprotected` | src-tauri/src/admin/audit.rs:278-294 | rewriting any or all actors of a buffer changes neither the verdict of `verify_chain` nor the tip |
| `AuditEntries.DecodeEncode` | src-tauri/src/admin/audit.rs:29-46 | an entry written as NDJSON reads back as itself, with or without `prev_hash` |
| `AuditEntries.EncodedFields` | src-tauri/src/admin/audit.rs:29-46 | the stored field names and values; `prev_hash` is stored exactly when there is one |
| `AuditEntries.DecodesIff` | src-tauri/src/admin/audit.rs:29-46 | a JSON value reads as an entry exactly when it agrees with that entry's own line, up to another text for the same instant, a null `prev_hash` and further fields |
| `AuditEntries.LineDecodes` | src-tauri/src/admin/audit.rs:124-136 | a line yields its entry exactly when it reads as one, and nothing when it is blank or does not |
| `AuditEntries.FilesDecodeInOrder` | src-tauri/src/admin/audit.rs:124-136 | the entries of two files in a row are those of the first followed by those of the second |
| `AuditLogs.AuditLog.Record` | src-tauri/src/admin/audit.rs:166-246 | the whole new state: the entry carries the old tip, the tip is its hash, the line is queued, the buffer evicts and pushes |
| `AuditLogs.RecordedEntry` | src-tauri/src/admin/audit.rs:166-246 | the recorded entry holds each argument in its own field and the old tip, comes last in memory and in the queue, and evicts the oldest only from a full buffer |
| `AuditLogs.AuditLog.Clear` | src-tauri/src/admin/audit.rs:266-269 | buffer and tip are reset, files and queued lines are not |
| `AuditLogs.AuditLog.LoadFromFile` | src-tauri/src/admin/audit.rs:101-157 | the loaded buffer is the suffix of the decoded active file of length min(`max_entries`, entries in the file), the tip is its last hash; without a file nothing changes |
| `AuditRuns.LoadKeepsNewest` | src-tauri/src/admin/audit.rs:139-149 | that suffix and length in every state with a log file |
| `AuditLogs.AuditLog.ReadFile` | src-tauri/src/admin/audit.rs:124-136 | the decodable lines in order; blank and malformed ones are skipped |
| `AuditLogs.AuditLog.VerifyChain` | src-tauri/src/admin/audit.rs:278-294 | true exactly when every entry but the oldest names the hash of its predecessor |
| `AuditLogs.AuditLog.QueryEntries` | src-tauri/src/admin/audit.rs:310-340 | the memory page when the range fits or there is no file, else the page of the history on disk |
| `AuditLogs.MemoryOnly` | src-tauri/src/admin/audit.rs:325-340 | without a log file every query is a page of memory, loads do nothing and nothing is queued |
| `AuditLogs.AuditLog.QueryFromFile` | src-tauri/src/admin/audit.rs:347-378 | the page of backups oldest first followed by the active file |
| `AuditLogs.AuditLog.DrainOne` | src-tauri/src/admin/audit.rs:418-434 | one queued line, whichever, is appended, after a rotation exactly when the active file has reached 10 MB |
| `AuditLogs.AppendPlacesLine` | src-tauri/src/admin/audit.rs:391-434 | slot by slot: below 10485760 bytes the line goes to the end of the active file and no backup moves, from there on every file moves up by one and the line starts a new file |
| `AuditRuns.AppendedHistory` | src-tauri/src/admin/audit.rs:418-434 | an append adds its entry at the end of the history that the rotation left |
| `AuditRuns.DrainConserves` | src-tauri/src/admin/audit.rs:200-239 | in whatever order background appends land, nothing is lost or invented except what a rotation pushes out of the oldest backup |
| `AuditRuns.BufferIsNewest` | src-tauri/src/admin/audit.rs:101-269 | in every run the buffer is the newest `max(1, max_entries)` entries of what an unbounded memory would hold since the last clear, where a load or restart puts in every decodable entry of the active file |
| `AuditRuns.MemoryEndsLikeDisk` | src-tauri/src/admin/audit.rs:101-246 | in every run whose appends land in record order, memory and the durable record end alike: one is a suffix of the other |
| `AuditRuns.QueryAgreesIff` | src-tauri/src/admin/audit.rs:296-378 | in any state, both query paths return the newest-first page of the history on disk for every offset and limit exactly when memory is a suffix of that history |
| `AuditRuns.QueryIsHistoryPage` | src-tauri/src/admin/audit.rs:296-378 | after every such run with no append outstanding, that is exactly when the files hold at least as many entries as memory |
| `AuditRuns.QueryWhilePending` | src-tauri/src/admin/audit.rs:296-378 | with appends outstanding, a range that fits memory pages the record that includes them, any other range pages the disk |
| `AuditRuns.QueriesTile` | src-tauri/src/admin/audit.rs:310-340 | consecutive queries, also across the change from memory to disk, give the reversed history without gap or repeat |
| `AuditRuns.ChainIntact` | src-tauri/src/admin/audit.rs:101-294 | in every run of non-overlapping calls that loads linked files, for any capacity and across evictions, the tip is the hash of the newest entry, or none, and the chain verifies |
| `AuditDiskChain.DiskChainIntact` | src-tauri/src/admin/audit.rs:101-246 | in every run of events that `NextRecordLinksIff` allows, across rotations, restarts, lost appends and crashes inside an append, everything on disk or queued is the end of one chain from its root, ends in the tip, and reloads verify |
| `AuditDiskChain.NextRecordLinksIff` | src-tauri/src/admin/audit.rs:101-434 | from every such state: the next record extends the chain exactly when a clear found nothing recorded, a load found no append outstanding or no file, an append overtook no other, and a crash inside an append had not moved the active file away; otherwise the chain is broken or a digest collision is exhibited |
| `AuditDiskChain.ReloadAfterClearIff` | src-tauri/src/admin/audit.rs:101-269 | clear, record, append, load from every such state with nothing queued: the reload verifies exactly when there was no active file or the append rotated it away |
| `AuditDiskChain.ClearBreaksReload` | src-tauri/src/admin/audit.rs:266-269 | from the empty log, a reload after record, append, clear, record, append fails exactly when the first entry alone does not fill a file |
| `AuditDiskChain.OvertakingReloadIff` | src-tauri/src/admin/audit.rs:210-237 | two records whose appends overtake each other fail verification after a reload exactly when the line written first does not fill a file |
| `AuditDiskChain.TornBreaks` | src-tauri/src/admin/audit.rs:392-434 | a crash after the active file was renamed and before the append makes the next recorded entry break the chain on disk, from every such state and with no collision needed |
| `AuditConcurrency.BufferIsLastPushes` | src-tauri/src/admin/audit.rs:166-246 | in every interleaving the buffer is exactly the newest `max(1, max_entries)` pushes, and the pushes are the finished calls, each once and with its own arguments |
| `AuditConcurrency.VerifiesIffOrdered` | src-tauri/src/admin/audit.rs:174-245 | unless two different hashed texts share a digest, an interleaving verifies exactly when each buffered call but the oldest read the tip of the call pushed before it, or of a call with the same hashed text |
| `AuditConcurrency.ExclusiveVerifies` | src-tauri/src/admin/audit.rs:174-245 | if no other call writes the tip between a call's read and its own push, every reachable state verifies, for any digest |
| `AuditConcurrency.OverlapBreaksChain` | src-tauri/src/admin/audit.rs:1062-1092 | two overlapping calls break the chain for every digest and payload |
| `PersistedStores.RoundTrip` | src-tauri/src/persisted_store.rs:292-322 | what `persist` writes reads back as the map without any `schema_version` key, for every map |
| `PersistedStores.WrittenText` | src-tauri/src/persisted_store.rs:282-322 | what is written is an object of the encoded entries and `schema_version` 1, which replaces an entry of that name |
| `PersistedStores.ReadsIff` | src-tauri/src/persisted_store.rs:138-185 | a text reads as a map exactly when it is an object in which, `schema_version` apart, every key is valid and every value decodes to that of the map |
| `PersistedStores.PersistedStore.Persist` | src-tauri/src/persisted_store.rs:53-131 | the store file changes only when an unpoisoned persist succeeds; the whole new state for success and for each failure |
| `PersistedStores.FailedPersistHarmless` | src-tauri/src/persisted_store.rs:53-131 | after a refused persist or one that fails at any step, memory, flag and store file are unchanged and the next process reads what it would have read |
| `PersistedStores.PersistedStore.Load` | src-tauri/src/persisted_store.rs:138-185 | a readable file is merged with memory winning and left in place; unreadable text is moved aside if the rename works and poisons; a missing file changes nothing |
| `PersistedStores.PersistThenLoad` | src-tauri/src/persisted_store.rs:53-185 | a persist followed by a load in a new process yields the saved map without `schema_version`, unpoisoned |
| `PersistedStores.LoadIsIdempotentUnion` | src-tauri/src/persisted_store.rs:180-183 | loading is a union with memory winning, and loading again changes nothing |
| `PersistedStores.CorruptBytesSurvive` | src-tauri/src/persisted_store.rs:53-61 | after a load of unreadable bytes no later run of updates, persists and loads writes anything, and the bytes stay under the main or a backup name |
| `StoreCrashes.MainAlwaysComplete` | src-tauri/src/persisted_store.rs:78-119 | with one persist in flight at a time, each synced before its rename, in every run with failures at any step, lost renames and crashes that replace every unsynced file arbitrarily, the store file is absent or a complete serialisation of a map held when a persist began, and the store is never poisoned |
| `StoreCrashes.PersistCompletes` | src-tauri/src/persisted_store.rs:78-119 | the steps of one undisturbed persist put the serialised memory under the store's name, synced, and clean up the temporary one |
| `StoreCrashes.PersistedSurvivesCrash` | src-tauri/src/persisted_store.rs:78-185 | once that text is under the store's name and synced, any crash that keeps the rename and a restart bring back exactly the saved map without `schema_version` |
| `StoreCrashes.SafeIffOneSyncedWriter` | src-tauri/src/persisted_store.rs:83-118 | for every limit on persists in flight, with or without the sync: all runs avoid poisoning exactly when none is allowed, or one that syncs before it renames |
| `StoreCrashes.StepsRefinePersist` | src-tauri/src/persisted_store.rs:53-119 | each way a call of `persist` can end, success or a failed open, write, sync or rename with its cleanup working or not, is a run of file-system steps with the effect of that call |
| `StoreCrashes.OpenedEmpty` | src-tauri/src/persisted_store.rs:83-91 | opening the temporary file empties it and touches nothing else |
| `StoreCrashes.LoadRefines` | src-tauri/src/persisted_store.rs:138-185 | a load step has the effect of a call of `load` |
| `Migrations.VersionIff` | src-tauri/src/migration.rs:256-261 | a value counts as versioned exactly when `schema_version` is a 64-bit unsigned integer whose low 32 bits are not zero |
| `Migrations.AsciiUuidIff` | src-tauri/src/migration.rs:356-358 | an ASCII key looks like a UUID exactly when it has at least 32 characters and a dash |
| `Migrations.ByteLenCounts` | src-tauri/src/migration.rs:356-358 | the length test counts UTF-8 bytes |
| `Migrations.StoreIffFirstTwo` | src-tauri/src/migration.rs:295-300 | over its sorted keys without the version, an object is taken for a store exactly when it has at least two keys and the first two look like UUIDs |
| `Migrations.LessIff` | src-tauri/src/migration.rs:295-300 | keys are sorted character by character, a proper prefix first |
| `Migrations.AddMissing` | src-tauri/src/migration.rs:322-328 | the field loop computes what `WithNullsKeeps` describes |
| `Migrations.WithNullsKeeps` | src-tauri/src/migration.rs:313-333 | the keys become the union with the named fields, old values stay, new ones are null |
| `Migrations.MigrateStoreInPlace` | src-tauri/src/migration.rs:313-341 | every record but the version entry is migrated, whatever the iteration order |
| `Migrations.MigrateValue` | src-tauri/src/migration.rs:203-216 | the version loop upgrades exactly the values below the current version |
| `Migrations.MigrateJsonFile` | src-tauri/src/migration.rs:97-166 | parse error, no write when current, else rewritten with the old content as backup |
| `Migrations.MigrateNdjsonFile` | src-tauri/src/migration.rs:174-250 | line by line, keeping blank and malformed lines; written exactly when some line is stale |
| `Migrations.EntryMigrated` | src-tauri/src/migration.rs:346-351 | a version 0 object that is no store keeps every field and gains a null `prev_hash`, unless it has one, and version 1 |
| `Migrations.UpgradeIdempotent` | src-tauri/src/migration.rs:285-307 | migrating any value twice equals migrating it once |
| `Migrations.VersionTruncatedIff` | src-tauri/src/migration.rs:256-261 | a claimed version of at least 1 counts as 0 exactly when it is a multiple of 2^32 or does not fit 64 bits; then it is migrated and set to 1, else the value is left alone |
| `Migrations.ClaimedFileRewrittenIff` | src-tauri/src/migration.rs:203-261 | a file of lines that all claim a version of at least 1 changes exactly when some claim is lost that way; lost claims become 1 and other lines stay |
| `Migrations.DecodeKeptIff` | src-tauri/src/migration.rs:285-351 | a line decodes to the same audit entry after migration exactly when it is not an entry taken for a store whose details lack a required field |
| `Migrations.ExtraKeysGarble` | src-tauri/src/migration.rs:295-300 | two extra UUID-like keys that sort first make a recorded line such an entry |
| `Migrations.RecordedLineNotGarbled` | src-tauri/src/migration.rs:295-306 | a line with only the keys `record` writes is never taken for a store |
| `Migrations.MigrationKeepsEntries` | src-tauri/src/migration.rs:174-250 | a file without such lines keeps its sequence of decoded entries |
| `Migrations.ReloadAfterMigration` | src-tauri/src/migration.rs:174-250 | after migrating a file of recorded, blank and malformed lines the audit log loads the same buffer and tip and answers every query alike |
| `Migrations.SecondMigrationWritesIff` | src-tauri/src/migration.rs:205-227 | a second migration writes exactly when some line is JSON but not an object |
| `Migrations.StoreMigrationAddsNulls` | src-tauri/src/migration.rs:309-341 | with at least two top-level keys, all like UUIDs, each record gains exactly the missing fields as null and keeps every value |
| `Migrations.KeysKeptIff` | src-tauri/src/migration.rs:285-351 | after migrating any version 0 object and stripping, the keys are the original ones exactly when it was taken for a store or already had `prev_hash` |
| `Migrations.StoreKeysKeptIff` | src-tauri/src/migration.rs:292-306 | for a store with UUID keys that is exactly when there are at least two top-level keys |
| `Migrations.MigratedStoreLoadsSame` | src-tauri/src/migration.rs:97-166 | such a store loads the same map before and after, for decoders that read a missing optional field as null |
| `Migrations.UuidStoreMigrated` | src-tauri/src/migration.rs:97-166 | a version 0 store of at least two keys, all hyphenated UUIDs, gains version 1 and in each record exactly the missing ones of `rpm_limit`, `tpm_limit`, `expires_at` and `group` as null, and loads the same map |
| `Migrations.PersistedFileIsCurrent` | src-tauri/src/migration.rs:97-113 | a store of any size that `persist` wrote is left alone by the migration and then loads as what was saved |
| `Migrations.PoisonedIffSmall` | src-tauri/src/migration.rs:295-306 | a store with UUID keys that loaded before the migration poisons itself at the next load exactly when it has fewer than two top-level keys, the empty store included |
| `Migrations.SingleRecordStorePoisoned` | src-tauri/src/migration.rs:295-306 | a store of one record, readable before, poisons the store at the next load |
| `ProviderBudgets.ProviderBudgetStore.CheckBudget` | src-tauri/src/provider_budget.rs:94-136 | true without a budget; else refused exactly when the cents recorded for this date, or for this year and month, have reached a set limit |
| `ProviderBudgets.ProviderBudgetStore.AccumulateSpend` | src-tauri/src/provider_budget.rs:140-161 | the provider's record rolls over stale periods and adds; no other record changes |
| `ProviderBudgets.CounterAgreesIffSettled` | src-tauri/src/provider_budget.rs:146-159 | for any clock, a rolling counter equals the ledger's sum of a period exactly when no charge of another period followed a real charge of it, and never exceeds it |
| `ProviderBudgets.StoreIsCounters` | src-tauri/src/provider_budget.rs:140-161 | after any run each provider's record is three independent counters over its own charges |
| `ProviderBudgets.SameMonthIff` | src-tauri/src/provider_budget.rs:105-116 | two dates share the monthly counter exactly when year and month agree |
| `ProviderBudgets.CheckIsLedgerCheck` | src-tauri/src/provider_budget.rs:94-161 | with a forward clock the check refuses exactly when the cents of all charges made on this date, or in this year and month, have reached a set limit, and the total is the sum of all charges |
| `ProviderBudgets.AlwaysNested` | src-tauri/src/provider_budget.rs:140-161 | for any clock, today's cents are at most the month's and those at most the total |
| `ProviderBudgets.BackwardClockForgets` | src-tauri/src/provider_budget.rs:146-151 | after any ledger and one charge on another date, a clock that goes back to a day with spend finds nothing spent on it |
| `BudgetRuns.OvershootBound` | src-tauri/src/provider_budget.rs:94-161 | with at most n requests in flight of at most c cents, in every interleaving of admissions, completions and day changes spend stays within limit - 1 + n * c, for the day and for the month |
| `BudgetRuns.NoPeriodOverspent` | src-tauri/src/provider_budget.rs:94-161 | the same bound on the charges themselves, for every day and every month of every such run, past ones included |
| `BudgetRuns.OvershootAttained` | src-tauri/src/provider_budget.rs:94-161 | for every limit, daily or monthly, every n, c and date, some run reaches exactly that bound |
| `HttpPools.HttpPool.LeastBusyIndex` | src-tauri/src/http_pool.rs:122-133 | the scan returns the least-busy index also when all counters are full |
| `HttpPools.LeastBusy` | src-tauri/src/http_pool.rs:122-133 | the selected index is the first position of the smallest counter |
| `HttpPools.HttpPool.Get` | src-tauri/src/http_pool.rs:104-111 | exactly the selected counter is incremented, with wrap-around |
| `HttpPools.HttpPool.First` | src-tauri/src/http_pool.rs:114-120 | exactly the first counter is incremented |
| `HttpPools.HttpPool.Drop` | src-tauri/src/http_pool.rs:67-71 | exactly the guard's counter is decremented |
| `HttpPools.HttpPool.Clone` | src-tauri/src/http_pool.rs:73-80 | a clone shares the counters |
| `HttpPools.CountersCountGuards` | src-tauri/src/http_pool.rs:38-133 | in every run of get, first, clone and drop, also with overtaken scans, each counter is its number of live guards modulo 256 |
| `HttpPools.DropUndoesTake` | src-tauri/src/http_pool.rs:67-120 | dropping a guard restores the state before the call that took it, also across a wrap |
| `HttpPools.PoolStaysBalanced` | src-tauri/src/http_pool.rs:102-133 | if guards come only from get and at most m <= 255 * size live at once, counters are exact, none exceeds ceil(m / size), and get picks the leftmost truly least busy client |
| `HttpPools.OverlapStaysBalanced` | src-tauri/src/http_pool.rs:102-133 | with k overlapping calls of get and at most m guards and calls together, every client has at most (m - k) / size + k live guards and the counters are exact while that is at most 255; for k = 1 it is ceil(m / size) |
| `HttpPools.FirstWraps` | src-tauri/src/http_pool.rs:113-120 | after 256 calls of first the counter reads zero and get takes the busiest client for an idle one |
| `HttpPools.ExactIffBelow256` | src-tauri/src/http_pool.rs:38-133 | in every run all counters are the true guard counts exactly when no client has 256 or more live guards |
| `Glob.MatchIsGlob` | src/components/ModelAvailabilityMatrix.tsx:151-171 | the recursion decides whether the rest of the text can be cut into one piece per remaining pattern character |
| `Glob.GlobsAppend` | src/components/ModelAvailabilityMatrix.tsx:141-144 | a pattern in two parts matches exactly the texts made of a match of each |
| `Glob.GlobsOne` | src/components/ModelAvailabilityMatrix.tsx:141-144 | a star matches every text, a question mark every single character, any other character only itself |
| `Glob.GlobsLiteral` | src/components/ModelAvailabilityMatrix.tsx:141-144 | a pattern without wildcards matches only itself |
| `Glob.Matcher.Match` | src/components/ModelAvailabilityMatrix.tsx:151-171 | the memoised call returns the unmemoised value, keeps every memo entry equal to it, and leaves at most one call not covered by new memo entries |
| `Glob.Matcher.MatchStar` | src/components/ModelAvailabilityMatrix.tsx:157-163 | the loop over split points finds a match exactly when one exists |
| `Glob.SimpleGlob` | src/components/ModelAvailabilityMatrix.tsx:147-173 | the result is the glob relation on the lowered strings, with at most 1 + p * (t + 1)^2 calls |
| `DispatchLogs.DispatchLogger.Append` | src-tauri/src/log.rs:145-149 | evict, then push |
| `DispatchLogs.DispatchLogger.UpdateLogTokens` | src-tauri/src/log.rs:153-176 | the newest entry with the id is updated, others are not; cache counts change only for known values |
| `DispatchLogs.UpdatedEntry` | src-tauri/src/log.rs:162-175 | field by field what an update makes of the newest entry with the id: each count in its own field, unknown cache counts and everything else as before |
| `DispatchLogs.UpdateTail` | src-tauri/src/log.rs:162-175 | updating the newest match commutes with forgetting old entries |
| `DispatchLogs.BufferRefinesLog` | src-tauri/src/log.rs:112-176 | after any run of log and update the buffer is the newest `max(1, max_entries)` entries of the unbounded log with the same updates |
| `DispatchLogs.DispatchLogger.UsageHistory` | src-tauri/src/log.rs:242-307 | every bucket is a full hour, a channel and a model, holds the sums over the successful entries since the cutoff with a known token count in it, and exists exactly for such entries; the totals are the sums over all of them |
| `DispatchLogs.SameBucketIff` | src-tauri/src/log.rs:263-271 | two entries share a bucket exactly when hour, channel and model agree |
| `DispatchLogs.SumsOverAll` | src-tauri/src/log.rs:294-298 | adding up the buckets in any order, each once, counts every matching entry exactly once |
| `ModelRegistries.ModelRegistry.Get` | src-tauri/src/model_registry.rs:258-275 | the entry of the longest registered prefix, the exact one included, for every iteration order; without one the default, in which every capability is absent |
| `ModelRegistries.LookupOfLongest` | src-tauri/src/model_registry.rs:258-275 | the same of the lookup function, and a longest prefix exists whenever any prefix does |
| `ModelRegistries.LongestPrefix` | src-tauri/src/model_registry.rs:264-274 | the result is a registered prefix and no registered prefix is longer |
| `ModelRegistries.HyphenBoundaryIff` | src-tauri/src/model_registry.rs:264-273 | the code selects the longest registered prefix that ends at a hyphen boundary exactly when the longest registered prefix is absent, is the whole name, or is followed by a hyphen |
| `ModelRegistries.HyphenBoundaryDiffers` | src-tauri/src/model_registry.rs:264-273 | a registry of `gpt-4` alone answers for `gpt-4o`, which the documented lookup does not know |
| `ModelRegistries.ModelRegistry.UpdateModels` | src-tauri/src/model_registry.rs:204-218 | each listed id is stored with the capabilities of its longest prefix among the entries of other sources and with the new source; other entries stay, unless they came from the source |
| `ModelRegistries.CapsFromRetained` | src-tauri/src/model_registry.rs:204-218 | these are the capabilities although each id is looked up among the ids inserted before it as well |
| `ModelRegistries.RefreshOrderFree` | src-tauri/src/model_registry.rs:204-218 | the order of the listed ids, and repeating one, do not matter |
| `ModelRegistries.RefreshOwnsExactly` | src-tauri/src/model_registry.rs:204-218 | afterwards the source owns exactly the listed models, and all other entries are as before |
| `ModelRegistries.SecondRefreshWins` | src-tauri/src/model_registry.rs:204-218 | two refreshes equal the second alone when the first took no key from another owner |
| `ModelRegistries.SameKeysIff` | src-tauri/src/model_registry.rs:206-212 | they leave the same keys exactly when every key taken over is listed again |
| `ModelRegistries.TakeoverDeletesBuiltin` | src-tauri/src/model_registry.rs:206-212 | a built-in model taken over by one refresh is gone after the next |
| `Guardrails.Check` | src-tauri/src/guardrails.rs:70-102 | allowed or blocked as specified, by length first, else by the first blocked pattern that occurs |
| `Guardrails.CheckRequest` | src-tauri/src/guardrails.rs:109-120 | the same verdict on the message contents joined with newlines; with plain patterns, allowed exactly when off, or not too long in all and no message says a blocked pattern unless one says an allowed one |
| `Guardrails.ScreenedTexts` | src-tauri/src/guardrails.rs:109-144 | the screened texts are the string `content` of the items of `messages`, or of the `message` of the items of `choices`, and nothing else |
| `Guardrails.CheckResponse` | src-tauri/src/guardrails.rs:129-144 | the same for the choices of a response |
| `Guardrails.JoiningHarmlessIff` | src-tauri/src/guardrails.rs:109-120 | joining texts neither creates nor hides an occurrence, for all texts, exactly when the pattern is non-empty and has no newline |
| `Guardrails.RequestVerdict` | src-tauri/src/guardrails.rs:70-120 | with such patterns a request is blocked exactly when it is too long in all, or some single message contains a blocked pattern and no single message an allowed one |
| `Guardrails.BodyVerdict` | src-tauri/src/guardrails.rs:70-144 | the verdict read off what a body says, with each occurrence a cut of a text around the pattern and the length counted text by text |
| `Guardrails.VerdictOrderFree` | src-tauri/src/guardrails.rs:70-120 | the verdict does not depend on the order of messages or patterns |

## Assumptions written as parameters

- SHA-256 is an arbitrary function; only non-empty output without `|` is assumed, and
  collision resistance never is: results name the collision instead.
- JSON text, typed record decoding, instants as text and byte sizes of files are
  function-valued parameters whose laws are spelled out (`Lawful`, `NullTolerant`).
- Clock readings, I/O outcomes and crash effects are parameters or events.

## Left out

- Proxy, router, circuit breaker, request cache, rate limiter, virtual keys, quota, authentication, TLS, admin handlers, user interface and benchmarks: not part of this model.
- `f64` cost sums: costs are not modelled; tokens, cents and counts are unbounded naturals, so `u64` and `u32` overflow is not modelled either.
- Saturation of `offset + limit` in audit queries: sums are unbounded, and a buffer of `usize::MAX` entries cannot exist.
- The retry loop of background audit appends, lines that fail to serialise, a half-written line left by a crash, and two appends interleaving inside one rotation are not modelled; an append is one step, or a crash after any number of its renames.
- The `clear` and `load` calls are not interleaved with steps of `record`; only `record` itself is taken apart in `AuditConcurrency.dfy`.
- File paths: the names of the active file and its backups are assumed distinct, so a log path that already ends in `.1` to `.5` is not covered.
- NDJSON lines in which an entry is written as a JSON array instead of an object count as malformed.
- The non-Unix write branch and file modes of the store; crashes inside the migration's plain file write.
- JSON object keys are in sorted order, as in the default build of `serde_json`; duplicate keys are not modelled.
- `get` reads all counters in one step and commits its choice in a later one; a scan interleaved counter by counter with other calls is not modelled.
- Case folding that changes the length of a text; `simpleGlob` works on the code units of an arbitrary lowering.
- `DispatchLogs.DispatchLogger.UsageHistory`: bucket order, channel names and costs are not modelled.
- `log` checks the file size only on every hundredth write; the rotation it may start is modelled, the counter is not.
- The built-in table of models is a parameter of the registry.
- `list_by_key`, `stats`, `cost_stats` and `load_from_file` of the dispatch log, `list_all` and refresh times of the registry, proxied clients of the pool: they would add only easy members.
