# ccgh-stats aggregation and sync core in Dafny

This project models the part of the ccgh-stats agent that turns session logs into usage
records and decides when to upload them to the stats service:

- **Parser** (`parser.dfy`, `lib/parser.js`). The usage extractor folds the lines of a session
  log into a map keyed by (UTC day, friendly model name) that holds input and output token
  totals. The log scanner walks the log root recursively for `.jsonl` files. The two drivers
  fold every file found, or only the files modified after the last sync, with a date floor.
  A log line is an already-parsed event, or `Malformed` for anything whose processing throws.
  A file is its path, its modification time and its lines (None when it cannot be read). The
  directory is an in-memory tree.
- **Storage** (`storage.dfy`, `lib/storage.js`). The `Store` class holds the two JSON files of
  the storage directory `~/.claude-stats` (the config with the two secrets and the cache holding
  `lastSyncTime`) and the legacy state file `~/.claude-stats-state` beside it. Each file is missing, corrupt, or a parsed value. The queries
  (`IsRegistered`, `ShouldSync`, `LastSyncTime`, `LastSyncDate`, `WidgetUrl`) are functions of
  the store. The writers (`WriteConfig`, `WriteCache`, `UpdateSyncTime`, `MigrateFromOldFormat`) are methods
  that update its fields.
- **Calendar** (`calendar.dfy`). This is `new Date(t).toISOString().slice(0, 10)`: epoch
  milliseconds to the proleptic Gregorian UTC day, with the `RangeError` for times beyond
  ±8.64e15 ms and the six-digit signed years that JavaScript writes outside 0..9999.
- **Commands** (`commands.dfy`, `lib/commands/sync.js` and `lib/commands/setup.js`). The
  incremental sync and the setup are methods over a `Store`. The service is represented by
  the list of calls made to it and by parameters that say whether registration and upload
  succeed.
- **Util** (`util.dfy`). `Option`, `Result` and the JavaScript string operations the core uses:
  `slice(0, n)`, `endsWith`, `includes`, and string `<`, with a prefix test used in proofs.

The main results:

- The fold's per-key totals are sums over the counted events, and only keys some event is
  counted under are created.
- Because the totals are sums, aggregation does not depend on the order of the files or of
  the lines within a file.
- Malformed lines and unreadable files are skipped.
- The scanner returns exactly the `.jsonl` files reachable through readable directories.
- ISO day strings sort exactly as the days do, which makes the date floor act on whole UTC days.
- Each command's effect on the store and the calls it makes are stated for every outcome of
  the remote calls. This includes the path where setup stores the secrets but a failed upload
  leaves no sync time, so that a second setup stops at the registration check.

## Model

| member | source | states |
|---|---|---|
| Parser.NormalizeModelName | lib/parser.js:137-142 | the friendly name is the model name itself or one of "Opus", "Sonnet", "Haiku" |
| Parser.NormalizeModelNameByOccurrence | lib/parser.js:137-142 | "opus" anywhere gives "Opus"; otherwise "sonnet" gives "Sonnet"; otherwise "haiku" gives "Haiku"; otherwise the name is unchanged (first match wins) |
| Parser.NormalizeModelNameIdempotent | lib/parser.js:137-142 | normalizing a friendly name again leaves it unchanged |
| Parser.Extract | lib/parser.js:65-89 | a line contributes iff it is an assistant event with usage and a non-empty timestamp whose first 10 characters do not sort before a set, non-empty floor; the day is that prefix of the timestamp; the model is the normalized model name, or "unknown" when the model is absent or empty; each token count is the event's counter, or 0 when it is absent |
| Parser.ExtractDefaults | lib/parser.js:85-89 | for any counted line, under any floor it passes, a missing token counter adds 0 and an absent or empty model is filed under "unknown" |
| Parser.AddTo | lib/parser.js:92-97 | after adding, the event's key is present, a new key starts from 0/0 and grows by the event's tokens, and every other key is unchanged |
| Parser.AddInPlace | lib/parser.js:93-97 | creating a missing entry at 0/0 and then adding to it in place gives exactly the map `AddTo` specifies |
| Parser.StepTotals | lib/parser.js:63-101 | one line adds its tokens to exactly the key it is counted under and creates no other key |
| Parser.FoldLinesKeys | lib/parser.js:63-101 | after folding a file, a key is present iff it was present before or some line is counted under it |
| Parser.FoldLinesTotals | lib/parser.js:63-101 | after folding a file, each key holds its earlier totals plus the sum of the tokens of every line counted under it |
| Parser.KeyTotalPermutation | lib/parser.js:63-101 | the per-key sum over a file's lines is the same for any reordering of the lines |
| Parser.FoldLinesOrderIndependent | lib/parser.js:63-101 | folding the same lines in any order gives the same map |
| Parser.MalformedLineSkipped | lib/parser.js:98-100 | a malformed line changes nothing and the lines after it are still folded |
| Parser.ParseFileToRecords | lib/parser.js:59-102 | the in-place loop yields the fold of the file's lines; an unreadable file yields nothing |
| Parser.FindJsonlFiles | lib/parser.js:107-132 | the recursive search with its loop returns the scan order given by the reference function `JsonlFiles` |
| Parser.JsonlFilesFound | lib/parser.js:107-132 | a file is returned iff it is a `.jsonl` entry reached through readable directories |
| Parser.FoundIsLog | lib/parser.js:118-122 | every returned path ends in ".jsonl" |
| Parser.FoldFileKeys | lib/parser.js:15-21 | folding one file creates exactly the keys its lines are counted under; an unreadable file creates none |
| Parser.FoldFileTotals | lib/parser.js:15-21 | folding one file adds the file's per-key sums; an unreadable file adds nothing |
| Parser.FoldFilesKeys | lib/parser.js:11-24 | after folding many files, a key is present iff some readable file has a line counted under it |
| Parser.FoldFilesTotals | lib/parser.js:11-24 | after folding many files, each key holds the sum over all readable files of the tokens counted under it |
| Parser.FilesTotalPermutation | lib/parser.js:15-23 | the per-key sum is the same for any permutation of the files |
| Parser.FoldFilesOrderIndependent | lib/parser.js:15-23 | folding the same files in any order gives the same map |
| Parser.UnreadableFileSkipped | lib/parser.js:15-21 | a file that cannot be read is skipped and the other files are still folded |
| Parser.ModifiedSinceSelects | lib/parser.js:36-44 | exactly the files whose modification time is strictly after the cutoff are folded |
| Parser.ParseAllToRecords | lib/parser.js:11-24 | the driver's loop yields the fold of every file found, with no date floor |
| Parser.ParseModifiedToRecords | lib/parser.js:32-51 | the driver's loop yields the fold of the files modified after the cutoff, with the date floor |
| Calendar.CivilFromDays | lib/storage.js:130 | the day number is converted to a valid calendar date whose day number is the input |
| Calendar.CivilFromDaysRoundTrip | lib/storage.js:130 | converting a valid date to its day number and back gives the same date |
| Calendar.CivilFromDaysOrder | lib/storage.js:130 | dates are in the same order as their day numbers, and distinct day numbers give distinct dates |
| Calendar.DigitsOrder | lib/storage.js:130 | zero-padded numbers of one width sort as the numbers do, and distinct numbers give distinct strings |
| Calendar.IsoDateOrder | lib/storage.js:130 | for years 0..9999, "YYYY-MM-DD" strings sort as the dates do and distinct dates give distinct strings |
| Calendar.IsoDay | lib/storage.js:130 | `toISOString` succeeds iff the time is within ±8.64e15 ms, and the sliced day has 10 characters |
| Calendar.IsoDayChronological | lib/storage.js:125-131 | for four-digit years, day strings compare as the UTC days of the times do, and two times share a string iff they fall on the same day |
| Calendar.IsoDayMonotone | lib/storage.js:125-131 | for years 0..9999, a later time never has a day string that sorts earlier |
| Calendar.EpochIsoDay | lib/storage.js:125-131 | time 0 is day "1970-01-01" |
| Storage.WidgetUrlFor | lib/storage.js:70 | the address starts with the service URL and "/api/w/", ends with ".svg", and holds the public id between them |
| Storage.WidgetUrlInjective | lib/storage.js:65-71 | distinct public ids give distinct widget addresses |
| Storage.Store.ReadConfig | lib/storage.js:31-41 | a missing or corrupt config reads as None and never fails; otherwise it reads as the stored value |
| Storage.Store.ReadCache | lib/storage.js:79-89 | a missing or corrupt cache reads as the empty map and never fails |
| Storage.Store.IsRegistered | lib/storage.js:56-59 | true iff a config exists and both `writeToken` and `publicId` are non-empty |
| Storage.Store.WidgetUrl | lib/storage.js:65-71 | None iff there is no config or no public id; otherwise the widget address of the stored public id |
| Storage.RegisteredHasWidget | lib/storage.js:56-71 | a registered store always has a widget address |
| Storage.Store.LastSyncTime | lib/storage.js:116-119 | the recorded time, or 0 when none is recorded |
| Storage.Store.ShouldSync | lib/storage.js:104-110 | a sync is due iff none is recorded (absent or 0) or at least 600000 ms have passed since the recorded one |
| Storage.SyncGate | lib/storage.js:104-110 | with a recorded non-zero time t, a sync is due exactly from t + 600000 on |
| Storage.Store.LastSyncDate | lib/storage.js:125-131 | None iff no sync is recorded; otherwise the 10-character UTC day of the recorded time, or the `RangeError` when that time is out of range |
| Storage.Store.WriteConfig | lib/storage.js:47-50 | the config becomes the given secrets |
| Storage.Store.WriteCache | lib/storage.js:95-98 | the cache becomes the given object |
| Storage.Store.UpdateSyncTime | lib/storage.js:136-140 | `lastSyncTime` becomes `now`, every other cache field is kept (the new cache is the old one with that field set), and right afterwards no sync is due unless `now` is 0 |
| Storage.Store.MigrateFromOldFormat | lib/storage.js:150-173 | no legacy file: false, nothing changes; unparsable legacy file: false, it stays; parsed legacy file: the config is written only when both secrets are present, the legacy file is removed, and the result is true |
| Commands.RunSync | lib/commands/sync.js:21-62 | no call and no state change when no sync is due, when unregistered, or when the last sync date cannot be computed; otherwise extracts with cutoff `lastSyncTime` and floor `lastSyncDate`, uploads once with the stored secrets if there are records, and advances `lastSyncTime` iff there was nothing to upload or the upload succeeded; config and legacy file are never touched |
| Commands.RunSetup | lib/commands/setup.js:15-60 | a registered user gets no call and no change; a failed registration writes nothing; otherwise the returned secrets are stored before the full extraction is uploaded in one call, and `lastSyncTime` is set only after the upload succeeds |
| Commands.SetupRetryAfterFailedUpload | lib/commands/setup.js:19-26 | starting from an empty storage directory, after a setup whose upload failed, a second setup stops at the registration check with no call, and the next incremental sync uploads everything modified after time 0 with no date floor |
| Commands.DateFloorByDay | lib/commands/sync.js:38-42 | for years 0..9999, an event stamped with the ISO day of time t passes the sync's date floor iff t falls on the UTC day of the last sync or later, so earlier events of that same day pass too |

## Left out

- File system, JSON, clock and network. Directory listing, `stat`, file reads and writes,
  `JSON.parse`, `Date.now()` and the HTTP calls are replaced by the in-memory tree,
  pre-parsed lines, the store's fields and parameters. Write, unlink and directory-creation
  failures are not modelled.
- The clock. `RunSync` takes the gate time `now` and the time `updateSyncTime` records
  (`syncedAt`) as two parameters. The logging timestamps are not modelled.
- JSON values of unexpected types. A falsy timestamp, model or token counter (`null`, `false`,
  `0`, "") reads as absent (None): the event is skipped when it is the timestamp, filed under
  "unknown" when it is the model, and the counter adds 0. A `null` line, or a truthy timestamp
  or model that is neither a string nor an array, is `Malformed`. An array-valued timestamp or model does not throw,
  because arrays have `slice` and `includes`; the source then counts the event under a key
  formed from the array, and that case is not modelled. Non-numeric token counts and a
  non-numeric or non-finite `lastSyncTime` are not modelled. A config or cache file holding
  JSON `null` or a non-object is not modelled.
- Parser.Extract: token counts are natural numbers. Negative or fractional counters, and sums
  above 2^53 where JavaScript numbers lose precision, are not modelled.
- Storage.Store.UpdateSyncTime: the cache holds only its numeric fields, so "every other cache
  field is kept" is proved for those fields only. Fields of other JSON types are not
  represented.
- Parser.Extract: the string key `${day}:${model}` is replaced by a structured (day, model)
  pair. Two pairs can share a string key only when one timestamp is shorter than 10 characters and
  the other has a ':' at the position where the shorter day ends; that merge is not modelled.
- The records array. `Object.values` of the map and its order are not modelled. The map
  itself is what is uploaded, and "no records" is the empty map.
- `path.join` normalisation. A path is the directory, "/" and the entry name.
- The modification time. The scan's `stat` and the driver's second `stat` are assumed to
  agree, so a file that disappears between the two is not modelled.
- String order, substring search, `slice(0, 10)` and `endsWith`. These are defined on
  characters. JavaScript compares, counts and slices UTF-16 code units, which agree with this
  on the ASCII timestamps, model names and file names; a character outside the Basic
  Multilingual Plane counts as one here and as two in JavaScript.
- Calendar.IsoDayChronological: stated only for years 0..9999. For extended years the sign
  characters do not sort chronologically, and `lastSyncTime` values from such years do not
  occur in practice.
- The async sequencing. The commands run their steps in order and there is no concurrency.
- `lib/logger.js`, `lib/api.js`, `lib/commands/status.js` and `bin/ccgh-stats.js` are not
  part of this model. Neither is `formatNumber` in `lib/parser.js`, which uses
  floating-point formatting.
- The console output of setup and the `process.exit(1)` on failure. These are represented
  only by the `Failed` outcome.
