# Yandex Disk Sync: a verified model of the sync engine

The Obsidian plugin "Yandex Disk Sync" keeps a vault folder and a folder on
Yandex Disk in step. A sync run works in five steps:

1. It scans the vault and lists the remote folder.
2. It compares both against an index recorded at the end of the last sync.
3. It builds a plan of operations (upload, download, conflict copy, remote
   delete, local delete), one per path.
4. It runs the plan through a progress tracker that supports cancellation.
5. It rebuilds the index from what it finds afterwards, and writes the index
   file only when its canonical hash changed.

Every request goes through a retry loop. A reproduction script adds a chunked
download for mobile devices that survives servers which ignore `Range`.

The model covers three files:

- `main.js`: the current plugin.
- `plugins/yandex-disk-sync/main.js`: an older copy of the plugin.
- `reproduce_issue.js`: the chunked download.

Where the two plugin copies differ, one parameter `Version = Current |
Previous` selects the behaviour. That covers the deduplication priority, the
remote filter in `buildPlan`, the progress bucket of a conflict and the folder
relisted after execution.

Module layout, one file each:

- `common`, `strings`, `sorting`: vocabulary. The order standing for `Array.prototype.sort`'s (code points in place of UTF-16 units, see "Left out") is proved a strict total order, and an insertion sort is proved sorted and a permutation.
- `records`: the records and the index as an ordered list of properties.
- `paths`, `glob`, `filters`: the path helpers, ignore globs as a matcher, the local scan and the remote filter.
- `index_hash`: JSON values, `sanitizeIndexForHash`, `computeIndexHash`, the index-file payload.
- `index_store`: `persistIndexIfNeeded` and its fields.
- `dedup`, `plan`: `buildPlan`.
- `plan_properties`: what a plan guarantees.
- `run_state`: `currentRun` and its updates.
- `runner`: `runWithConcurrency` and the phase loops.
- `rebuild`: the index rebuild.
- `execute`: `executePlan` end to end.
- `http`: the retry loop.
- `chunked`: the chunked download loop.
- `chunked_properties`: what the chunked download promises.

Host code becomes parameters:

- Obsidian's `normalizePath` is `np`; the test double's behaviour is `MockNormalizePath`.
- SHA-1 over `JSON.stringify` is `h`.
- Each task's success or error is a function `task`.
- The moment of the user's cancel request is `cancelAt`.
- The vault rescan is `localAfter`.
- The server's listing per folder is `server`.
- The clock is `now`.
- The vault's name from `vault.getName()` is `vaultName`.
- The index file's existence and write results are `found` and `writeOk`.
- The replies to HTTP requests are a sequence.
- A range server is a function from `[offset, end]` to a body and a `Content-Range` start.
- The chunked download's file-system results are flags: `openOk`, `writeOk`, `rewriteOk`, `renameOk` and `writeFileOk` (the final `writeFileSync`).

Where the tests and the code disagree, the model follows the code:

- `__tests__/plugin/plan.test.js:162-192` and
  `__tests__/plugin/plan-advanced.test.js:10-46` expect the deduplication
  order of the older copy (a transfer beats a deletion).
- `main.js:1531-1536` ranks deletions above transfers. `PlanProperties.DeleteOutranks` and the two `…Scenario` lemmas state the difference.

## Model

| member | source | states |
|---|---|---|
| Paths.NormalizeRelPath | main.js:195-198 | an empty path stays empty; a normalised path never starts with '/' |
| Paths.OldNormalizeRelPath | plugins/yandex-disk-sync/main.js:123-125 | the older helper's result has no backslash and is never longer than its input |
| Paths.ReproNormalizeRelPath | reproduce_issue.js:340-342 | the result never starts with '/' and has no backslash |
| Paths.OldNormalizeLeadingSlash | plugins/yandex-disk-sync/main.js:123-125 | a path starting with a backslash comes out of the older helper starting with '/' (finding F1) |
| Paths.ReproNormalizeBackslashPath | reproduce_issue.js:340-342 | converting first, then stripping, drops such a leading separator (finding F1, corrected order) |
| Paths.MockNormalizeClean | __mocks__/obsidian.js:154-161 | the normaliser double, and `normalizeRelPath` over it, leave a clean path unchanged |
| Paths.CleanJoin | __mocks__/obsidian.js:154-161 | two clean paths joined by one slash make a clean path |
| Paths.GetExt | main.js:190-193 | no '.' gives ""; otherwise the extension contains no '.' |
| Paths.GetExtOfName | main.js:190-193 | the extension of `stem.ext` is `ext` lower-cased, whatever the stem |
| Paths.LocalRelRoundTrip | main.js:1203-1222 | with a clean base folder a clean relative path survives `fromLocalRel` then `toLocalRel`, and the vault path is in scope |
| Paths.InScopeSegmentBoundary | main.js:1213-1222 | a sibling folder whose name merely extends the base folder's name is out of scope |
| Paths.GetRemoteBase | main.js:1142-1149 | the remote base is a root without trailing '/', then '/', then a non-empty folder name without slashes |
| Paths.SuggestedFolderName | main.js:1133-1140 | the suggested folder is non-empty, has no slash or backslash and no white space at either end |
| Paths.SuggestedPlainName | main.js:1133-1140 | a vault name that is already such a folder name is suggested unchanged |
| Paths.SuggestedBlankName | main.js:1133-1140 | a vault name of only slashes and white space gives "vault" |
| Paths.RemoteBaseDefaultFolder | main.js:1144-1148 | with no folder configured, root `app:/` gives `app:/` plus the suggested folder |
| Strings.Trim | main.js:1145 | `trim` leaves no white space at either end, keeps only characters of its input, and leaves a string without white space at its ends unchanged |
| Strings.TrimIdeographicSpace | main.js:1145 | a trailing ideographic space U+3000 is removed, as JavaScript's `trim` removes it |
| Strings.TrimEmSpace | main.js:1145 | a leading em space U+2003 is removed too |
| Paths.OldGetRemoteBase | plugins/yandex-disk-sync/main.js:931-938 | the older remote base has the same shape |
| Paths.RemoteBaseApp | main.js:1142-1149 | root `app:/` and a plain folder name give `app:/<folder>` in both copies |
| Paths.BuildRemoteRoot | reproduce_issue.js:334-338 | with no folder configured the root is the base (default `app:/`) without trailing slashes |
| Paths.RemoteAbsToRelApp | main.js:1343-1369 | under an `app:` base, a listed `disk:/<two folders>/<folder>/<rel>` maps back to `rel` |
| Paths.RemoteAbsToRelAppFolder | main.js:1343-1369 | under an `app:` base, the listed vault folder itself maps to "" |
| Paths.RemoteAbsToRelAppRoot | main.js:1343-1369 | under the bare `app:/` base, the folder name stays in front of the relative path |
| Paths.RemoteAbsToRelDisk | main.js:1343-1369 | under a `disk:` base, `remoteAbsToRel(remoteAbs(rel))` is `normalizeRelPath(rel)` |
| Paths.RemoteAbsToRelDiskPrefix | main.js:1343-1369 | the disk branch strips the base as a plain prefix, with no check for a folder boundary |
| Paths.RemoteAbsToRelDiskOutside | __tests__/plugin/ops.test.js:13-15 | a disk path that does not start with the base comes back with only alias and leading slash removed |
| Records.Lookup | main.js:1456 | a found entry is in the index under that path; no entry means no property has that path |
| Records.Put | main.js:1661-1666 | afterwards the path maps to the new entry and every other path keeps its entry |
| Records.LastLocal | main.js:1447 | a `Map` from the scan: the entry has that path and comes from the scan; none exactly when no file has the path |
| Records.LastRemote | main.js:1448 | the same for the remote listing |
| Records.Unique | main.js:1452 | `new Set(...)`: the same members, each once |
| Glob.MatchJoin | main.js:143-151 | a match of each part gives a match of the concatenated pattern |
| Glob.MatchSplit | main.js:143-151 | a match of a concatenated pattern splits into a match of each part |
| Glob.SegRunMatches | main.js:147 | `*` matches exactly the strings without '/' |
| Glob.AnyRunMatches | main.js:146-149 | `**` matches exactly the strings without line terminators, '/' included |
| Glob.SegCharMatches | main.js:148 | `?` matches exactly one character other than '/' |
| Glob.LiteralGlob | main.js:144-150 | a glob without wildcards (meta characters escaped) matches only itself: the match is anchored |
| Glob.LitsPrefix | main.js:144-149 | literal text in front of a pattern consumes exactly that text |
| Glob.SegRunThenLits | main.js:147 | `*` then literal text matches a string ending in the text with no '/' before it |
| Glob.DirectChildGlob | __tests__/helpers.test.js:16-28 | the pattern `vault/` star `.md` matches the markdown files directly inside `vault/` and nothing deeper |
| Glob.SingleCharGlob | __tests__/helpers.test.js:16-28 | `?.md` matches a one-character name other than '/' followed by `.md` |
| Glob.AnyMarkdownGlob | __tests__/helpers.test.js:16-28 | the any-depth markdown pattern matches a name ending in `.md` after some '/' at any depth |
| Filters.FilterRemote | main.js:1445 | the filtered listing keeps exactly the allowed items of the listing |
| Filters.LocalListingMembers | main.js:1422-1437 | a record is in the scan exactly when a vault entry passes every test and yields it |
| Filters.ListLocalFilesInScope | main.js:1422-1437 | the loop produces the scan, never longer than the vault |
| Filters.FiltersAgree | main.js:1230-1242 | with a positive size limit the local scan keeps a file exactly when its remote counterpart passes `allowRemoteItem` |
| Filters.NoLimitDropsLocalOnly | main.js:1433 | with a zero or negative limit the scan drops every non-empty file while the remote filter keeps it |
| Sorting.Sort | main.js:168 | `keys.sort()` is a permutation |
| Sorting.SortSorted | main.js:168 | and its result is sorted |
| Sorting.SortStrict | main.js:168 | pairwise distinct keys come out strictly increasing |
| Sorting.StrictlySortedUnique | main.js:168 | two strictly increasing sequences with the same members are equal |
| Sorting.LessTransitive | main.js:168 | the string order is transitive (with `LessIrreflexive`, `LessAsymmetric` and `LessTotal` helpers it is a strict total order) |
| IndexHash.SanitizeTop | main.js:163-178 | the canonical form has exactly `lastSyncAt` (the string, else null) and `files` |
| IndexHash.SanitizeFiles | main.js:163-178 | canonical `files` holds, strictly sorted, exactly the paths with object entries, each with its properties sorted |
| IndexHash.SortedEntryShape | main.js:171-174 | a sorted entry has the entry's properties, each once, strictly sorted, with their values |
| IndexHash.SanitizeSame | main.js:163-178 | the canonical form depends only on `lastSyncAt`'s string value and on the object entries up to property order |
| IndexHash.HashIgnoresOrderAndExtras | main.js:180-188 | indexes differing only in key order, non-object entries, a non-string `lastSyncAt` or extra fields hash the same, whatever the hash function |
| IndexHash.FilesOf | main.js:167 | the files source is always an object |
| IndexHash.CopyFiles | main.js:832-833 | `{ ...files }` has the source's keys |
| IndexHash.CopyFields | main.js:832-833 | and the same value under every path |
| IndexHash.PayloadShape | main.js:834-838 | the payload has three properties; its `files` and `lastSyncAt` read back as the index's |
| IndexHash.PayloadSameIndex | main.js:827-842 | the payload and the index agree on everything the hash reads |
| IndexStore.CurrentIndex | main.js:845 | the in-memory index when it is an object, else an empty index |
| IndexStore.Persist | main.js:844-866 | writes exactly when forced, the hash is missing or stale, or the file is not known to exist and is reported missing; meta hash equals hash; a successful write marks the file as existing |
| IndexStore.PersistWith | main.js:844-866 | the same write condition with the two hashes given |
| IndexStore.PersistRecordsHash | main.js:854-865 | afterwards the remembered hash is the new index's, whether the write happened, succeeded or failed |
| IndexStore.ExistsOnlyBreaksTies | main.js:847-853 | the existence check matters only when neither force nor the hashes ask for a write |
| IndexStore.SecondCallWritesNothing | main.js:844-866 | an unforced second call on the same index writes only if the file is still unknown and reported missing; never after a successful write |
| IndexStore.Plugin.constructor | main.js:620-624 | empty index, no hash, file not known to exist |
| IndexStore.Plugin.IndexFileExists | main.js:775-786 | returns the adapter's answer and remembers it |
| IndexStore.Plugin.WriteIndexFile | main.js:827-842 | on success, the file is known to exist and the payload's hash is returned; on failure, nothing changes |
| IndexStore.Plugin.RecordHash | main.js:854-865 | the written hash is kept after a successful write, the new hash otherwise; the meta hash follows |
| IndexStore.Plugin.PersistIndexIfNeeded | main.js:844-866 | the fields and the write decision are those of `PersistWith` on the current index and its payload |
| Dedup.Pri | main.js:1531-1536 | ranks lie in 1..3 and only a conflict ranks 3, in both copies |
| Dedup.DedupCharacterised | main.js:1537-1542 | the plan lists each input path once, in first-appearance order, with the first operation of highest rank on it |
| Dedup.DedupOnePerPath | main.js:1537-1542 | no two operations share a path, and every input path is present |
| Dedup.DedupPlan | main.js:1537-1542 | the loop filling `byRel` yields the deduplicated plan |
| Dedup.TableValues | main.js:1542 | `Array.from(byRel.values())` in insertion order |
| Plan.ToleranceMs | main.js:1481 | the tolerance is never negative and at least `timeSkewToleranceSec * 1000` |
| Plan.MirrorNeedsCandidate | main.js:1505-1526 | a mirror deletion always competes with the transfer the first pass emitted for the path |
| Plan.RelsCover | main.js:1452-1453 | a candidate needs the path to be scanned, listed or indexed |
| Plan.PlanDecides | main.js:1440-1545 | the plan holds, once per path, exactly the operation the per-path decision names |
| Plan.ClassifyLoop | main.js:1453-1502 | the first loop pushes each visited path's candidate |
| Plan.MirrorLoop | main.js:1505-1526 | the mirror loop pushes each indexed path's deletion |
| Plan.BuildPlan | main.js:1440-1545 | `buildPlan` on fetched listings is the plan of the filtered (current) or unfiltered (older) remote side |
| PlanProperties.PlanOpsDecided | main.js:1440-1545 | an operation is in the plan for a path if and only if it is that path's decision |
| PlanProperties.PlanModeGating | main.js:1457-1526 | uploads need upload mode, downloads need download mode; remote deletes never in upload-only, local deletes never in download-only; no delete unless mirror |
| PlanProperties.DecisionGating | main.js:1457-1526 | the same gating per path |
| PlanProperties.PlanMirrorSafety | main.js:1505-1526 | a remote delete needs an indexed path gone locally with its remote copy unchanged; a local delete the symmetric case |
| PlanProperties.DecisionMirrorSafety | main.js:1505-1526 | the same safety per path |
| PlanProperties.PlanNoChangeNoOp | main.js:1468-1500 | a path unchanged on both sides gets no operation |
| PlanProperties.PlanOneSided | main.js:1460-1467 | an unindexed local-only path is uploaded if and only if uploading is allowed, a remote-only one downloaded if and only if downloading is allowed, and nothing else happens to it |
| PlanProperties.NewestWinsWithTolerance | main.js:1481-1496 | both sides changed: two-way downloads if and only if remote is newer by more than the tolerance, else uploads; download-only downloads in that case and otherwise does nothing; upload-only uploads |
| PlanProperties.DuplicateBothConflict | main.js:1477-1478 | duplicate-both makes one conflict in every mode |
| PlanProperties.DedupPair | main.js:1537-1542 | of two operations on one path the later wins only when it ranks strictly higher |
| PlanProperties.PlanOfPair | main.js:1537-1544 | two candidates on one path make a one-operation plan, the higher ranked (the first on a tie) |
| PlanProperties.DeleteOutranks | main.js:1531-1536 | a deletion outranks the competing transfer in the current copy only |
| PlanProperties.DeletedLocallyScenario | main.js:1505-1544 | a file deleted locally and unchanged remotely: the current copy deletes it remotely, the older one downloads it again |
| PlanProperties.DeletedRemotelyScenario | main.js:1505-1544 | a file deleted remotely and unchanged locally: the current copy deletes it locally, the older one uploads it again |
| PlanProperties.DeletesCrossModes | main.js:1510-1522 | deletion follows the policy: download-only can delete remotely, upload-only can delete locally |
| RunState.EndBucket | main.js:999 | the current copy credits the bucket the plan counted; the older one differs exactly for conflicts |
| RunState.TallyTotal | main.js:956-962 | every operation is counted in exactly one bucket |
| RunState.WithPlan | main.js:955-972 | total and queue become the plan's size, each bucket queue its tally; nothing else changes |
| RunState.Cap | main.js:1006 | the bound is at least 1; 0 means 25 |
| RunState.Trim | main.js:1007 | the shift loop keeps the newest `min(n, cap)` lines |
| RunState.EndOp | main.js:994-1008 | `done + failed` grows by exactly 1, the queue stays non-negative, the log ends with the new line and holds 1..cap lines |
| RunState.EndOpEffect | main.js:994-1008 | success count, queue and the operation's own bucket move by one (never below zero), other buckets and flags stay, the log is trimmed |
| RunState.OnCancel | main.js:982-987 | afterwards the run is canceled exactly when it was active or already canceled; nothing else changes, and no run stays no run |
| RunState.ReplayCounters | main.js:989-1008 | after `setRunPlan` and any reports, the counters account for every report |
| RunState.PlanAccounting | main.js:955-1008 | once every planned operation is reported, the current copy shows nothing queued anywhere and each bucket's done count is its successes |
| RunState.PreviousConflictStaysQueued | plugins/yandex-disk-sync/main.js:791-805 | in the older copy a finished conflict is credited to `del`, so the conflict bucket stays queued (finding F2) |
| RunState.Tracker.constructor | main.js:626 | no current run |
| RunState.Tracker.StartRun | main.js:938-953 | a fresh active run with `planCount` queued and nothing done |
| RunState.Tracker.SetRunPlan | main.js:955-972 | the run, if any, takes the plan's totals and bucket queues |
| RunState.Tracker.FinishRun | main.js:974-980 | the run, if any, becomes inactive |
| RunState.Tracker.CancelCurrentRun | main.js:982-987 | only an active run becomes canceled |
| RunState.Tracker.ReportOpStart | main.js:989-993 | the phase becomes the operation's kind |
| RunState.Tracker.ReportOpEnd | main.js:994-1008 | the counters and trimmed log of `EndOp` with the cap from `progressLines` |
| RunState.ShiftToCap | main.js:1007 | the `while … shift()` loop leaves the trimmed log |
| Runner.Poll | main.js:1680 | a set cancel flag stays set; an active run sees it once the request has arrived |
| Runner.RunItemsShape | main.js:1673-1694 | the items that start form a prefix of the list, each run once with its own result; the list stops short only on a canceled run |
| Runner.RunItemsCanceled | main.js:1680 | a canceled run starts nothing and stays as it is |
| Runner.RunItemsAppend | main.js:1609-1643 | running the phases one after another is running them as one list |
| Runner.RunItemsStopsAtCancel | main.js:1673-1694 | no task starts after the cancel request; the run stays active |
| Runner.RunItemsReplay | main.js:1681-1690 | apart from the cancel flag, the run is exactly the reports of the items that ran; a failing task is reported and stops nothing |
| Runner.RunItemsComplete | main.js:1673-1694 | without a cancel request every task runs once |
| Runner.CheckCancel | main.js:982-987 | the cancel request sets the flag the next check reads |
| Runner.RunTask | main.js:1681-1690 | start report, the item's own work, end report with its result |
| Runner.RunWithConcurrency | main.js:1673-1694 | the cursor loop is `RunItems` |
| Runner.PhasedPermutation | main.js:1602-1606 | the five kind filters are a permutation of the plan |
| Runner.PhasedTally | main.js:1602-1606 | the phases tally per bucket as the plan does |
| Runner.TallyOutOutcomes | main.js:1602-1643 | the reports of a list tally per bucket as the list does |
| Execute.RunPlan | main.js:1609-1643 | uploads, downloads, conflicts, remote deletes and local deletes run as one phased list |
| Execute.ListingAfter | main.js:1648-1656 | the remote side of the rebuild |
| Execute.ExecutePlan | main.js:1600-1671 | the run after the phases, the rebuilt and stamped index, and (current copy) the persisted index state |
| Execute.SaveIndex | main.js:1668-1670 | the new index replaces the old; the current copy stamps and persists it |
| Execute.ExecuteAccounting | main.js:1600-1643 | without cancellation every operation runs once and the counters end at zero queued with successes per bucket |
| Execute.ExecuteCanceled | main.js:1600-1643 | with cancellation at most `cancelAt` operations run, a prefix of the phases, and the counters show exactly them |
| Execute.OldRelistLosesRemoteState | plugins/yandex-disk-sync/main.js:1421 | the older relist of the root records remote time 0 and the next plan downloads the unchanged file again (finding F3) |
| Execute.NextPlanDownloads | plugins/yandex-disk-sync/main.js:1221-1321 | an entry with remote time 0 against a newer remote item makes the older plan download |
| Execute.RelistKeepsRemoteState | main.js:1648-1667 | the current relist records the item's time and revision, and the next plan leaves the file alone (finding F3, corrected) |
| Execute.NextPlanNothing | main.js:1468-1500 | a file exactly as indexed on both sides gets no operation |
| Execute.FailedUploadDeletedNextRun | main.js:1658-1667 | a failed upload of a new file is indexed anyway and the next two-way mirror plan deletes the local file (finding F6) |
| Execute.FailedUploadRetried | main.js:1658-1667 | with the corrected rebuild the next plan uploads again and deletes nothing (finding F6, corrected) |
| Execute.NewFileUploads | main.js:1460-1462 | a new local file the server lacks is uploaded and nothing else |
| IndexRebuild.RebuildLookup | main.js:1658-1667 | an entry exists exactly for local paths, from the last file and the matching remote item; without one, remote time 0 and no revision |
| IndexRebuild.RebuildKeys | main.js:1658-1667 | one entry per local path, each once, in insertion order |
| IndexRebuild.RebuildIndex | main.js:1658-1667 | the loop builds the rebuilt index |
| IndexRebuild.ListedUnder | main.js:1310-1341 | each listed file with its path made relative to the listed folder |
| IndexRebuild.RelistBase | main.js:1651-1652 | the current copy relists `getRemoteBase()`, the older one `remoteBasePath`, or '/' |
| IndexRebuild.RemoteAfter | main.js:1648-1657 | the current copy relists when the plan changed the remote side (or got no map), then filters; the older one always relists, unfiltered |
| IndexRebuild.SettledRebuildLookup | main.js:1658-1667 | the corrected rebuild: settled paths get the rebuilt entry, unsettled ones keep their old entry (finding F6, corrected) |
| IndexRebuild.SettledRebuildAllDone | main.js:1658-1667 | on a run where everything succeeded the corrected rebuild is the rebuild |
| Http.MaxAttempts | main.js:1255 | at least 1; 0 or unset means 5 |
| Http.ErrorMessage | main.js:1280 | `HTTP <status>` plus at most 200 body characters, or the error's own message without status |
| Http.ShortBodyMessage | main.js:1280 | a short non-empty body is quoted whole |
| Http.ThrottleDelay | main.js:1263-1264 | a 429 waits at least 1000 ms and the header's seconds when larger; an unparsable header gives NaN |
| Http.Backoff | main.js:1294 | the backoff lies in 1000..8000 ms |
| Http.BackoffSchedule | main.js:1294 | it starts at one second, doubles, and stays at eight from the fourth failure |
| Http.Retry | main.js:1258-1298 | the loop: a success is returned as received; a failure ends only when not retryable, with its message recorded; at most `max(1, maxAttempts)` non-429 failures |
| Http.CallBounds | main.js:1249-1299 | no token means nothing sent; otherwise at least one request, bounded failures, and a final failure left in `lastHttpError` |
| Http.ThrottlesNeverEnd | main.js:1262-1269 | a run of 429s never ends the loop and waits each one's Retry-After time |
| Http.RetriedOnce | main.js:1277-1296 | a retryable failure costs one request and one backoff before the remaining replies |
| Http.RetriedThenOk | main.js:1277-1296 | n retryable failures then a success: that success after n doubling backoffs, the last failure's message recorded |
| Http.RetryStep | main.js:1258-1298 | one turn of the loop, by what the reply is |
| Http.NoRetryStatusFailsFast | main.js:1282-1283 | a status listed as not retryable fails after one request |
| Http.ExhaustedAttempts | __tests__/plugin/http.test.js:86-111 | three 500s under `maxAttempts: 3`: three requests, waits of 1 s and 2 s, the message in `lastHttpError` |
| Http.IntendedThrottleDelay | main.js:1263-1264 | the intended wait is always a number of at least one second (finding F5, corrected) |
| Http.UnparsableRetryAfterDoesNotWait | plugins/yandex-disk-sync/main.js:1053-1054 | 429s with an HTTP-date Retry-After each wait NaN, no wait at all (finding F5) |
| Http.Client.constructor | main.js:1250 | the token, no last error |
| Http.Client.Request | main.js:1249-1299 | `http` leaves `lastHttpError` and returns what `Call` says |
| Chunked.RangeEnd | reproduce_issue.js:219-220 | the range ends before the total and asks for at most one chunk |
| Chunked.Cut | reproduce_issue.js:275-281 | truncation keeps the first `min(len, room)` bytes |
| Chunked.TurnAt | reproduce_issue.js:218-281 | an accepted chunk is non-empty and fits in the bytes still missing |
| Chunked.Stream | reproduce_issue.js:283-286 | an open descriptor has received every piece |
| Chunked.WalkStep | reproduce_issue.js:233-299 | an empty body stops; a body over twice the request or equal to the total is the whole file; a wrong `Content-Range` start aborts; otherwise the cut body is written and the loop goes on |
| Chunked.SetAt | reproduce_issue.js:294 | `set` replaces exactly the bytes at the offset |
| Chunked.StoreInBuffer | reproduce_issue.js:288-295 | growing keeps the first `got` bytes and places the chunk at `got` |
| Chunked.WriteChunk | reproduce_issue.js:283-295 | a failed write closes the stream; the buffer gets the chunk at `got` |
| Chunked.WriteBuffer | reproduce_issue.js:324-328 | a non-empty buffer is saved exactly when the write succeeds and its failure is thrown; an empty buffer writes nothing |
| Chunked.Conclude | reproduce_issue.js:304-328 | an open stream is renamed over the target (or left in the temporary file); otherwise the buffer's first `got` bytes are written when there are any, and a failed write is thrown |
| Chunked.WholeFile | reproduce_issue.js:241-262 | a whole-file body replaces everything; a failed rewrite of the stream or write from memory is thrown |
| Chunked.FinishRegular | reproduce_issue.js:304-328 | what a loop that ended normally saves, and that a failed write from memory is thrown |
| Chunked.Turn | reproduce_issue.js:218-302 | one turn keeps `offset == got`, the pieces, the stream and the buffer, or stops as the walk does |
| Chunked.Accept | reproduce_issue.js:283-299 | an accepted chunk advances offset and pieces together and keeps the buffer holding them |
| Chunked.DownloadChunked | reproduce_issue.js:191-330 | the chunked download ends as `Finish` of the walk, after one chunk per piece |
| ChunkedProperties.WalkBounds | reproduce_issue.js:275-302 | the bytes written never exceed the total and equal it when the loop reaches it; each piece is non-empty and at most two chunks |
| ChunkedProperties.HonestTurn | reproduce_issue.js:218-299 | with a server that honours `Range`, each turn takes the next `min(chunk, rest)` bytes |
| ChunkedProperties.HonestWalk | reproduce_issue.js:218-302 | with such a server the loop runs to the total and the pieces are the file |
| ChunkedProperties.HonestCount | reproduce_issue.js:297-302 | and it takes the ceiling of size over chunk requests |
| ChunkedProperties.StreamAllOk | reproduce_issue.js:283-286 | when every write succeeds the stream holds all pieces |
| ChunkedProperties.StreamStops | reproduce_issue.js:283-286 | after a failed write the stream stays closed |
| ChunkedProperties.HonestDownload | reproduce_issue.js:191-330 | an honest server and a working filesystem give the target the file (or leave it in the temporary file when only the rename fails, or throw when the write from memory fails) |
| ChunkedProperties.RangeIgnored | reproduce_issue.js:238-262 | a server ignoring `Range` is detected at once and its body saved, unless the stream rewrite, the rename or the write from memory fails |
| ChunkedProperties.FirstRangeMismatch | reproduce_issue.js:264-273 | a first `Content-Range` start other than 0 aborts the download |
| ChunkedProperties.StreamFailureLosesDownload | reproduce_issue.js:304-318 | a failed stream open or first write returns normally with nothing saved (finding F4) |
| ChunkedProperties.CorrectedHonestDownload | reproduce_issue.js:304-318 | with the announced memory fallback the file reaches the target unless the rename of an open stream or the write from memory fails (finding F4, corrected) |

## Left out

- The UI, settings tab, status bar, OAuth, timers, logging and the `syncNow` orchestration are host glue outside the sync engine.
- `requestUrl`, the `yd*` request builders and the pagination of `ydListFolderRecursive` are network code. The listing is a parameter, and `ListedUnder` only maps paths.
- Uploads, conflict copies, deletions and the non-chunked download are file and network effects. Each task is a function giving its error, if any.
- Strings are `seq<char>`, sequences of Unicode code points; JavaScript strings are sequences of UTF-16 code units. The two agree on text inside the Basic Multilingual Plane, and the lines below name the members where a character beyond U+FFFF, or a non-ASCII letter, behaves differently.
- Paths.GetExt: lower-cases only `A`–`Z`; `toLowerCase` maps every Unicode letter, so the source reads the extension of `a.ÄB` as `äb` and the model as `Äb`.
- Paths.GetExtOfName: the extension is lower-cased on `A`–`Z` only, as in `Paths.GetExt`.
- Filters.FilterRemote: a non-ASCII upper-case extension is compared to `excludeExtensions` without the Unicode lower-casing of `Paths.GetExt`; the same holds for the local scan (`Filters.LocalListingMembers`, `Filters.ListLocalFilesInScope`).
- Glob.SegCharMatches: `?` matches one code point; the source's expression has no `u` flag, so its `[^/]` matches one UTF-16 unit and a character beyond U+FFFF needs two `?`.
- Glob.SingleCharGlob: `😀.md` matches `?.md` in the model but not in the source, for the same reason.
- Sorting.SortSorted: sorts by code point; `keys.sort()` compares UTF-16 units, and the two orders differ between a character beyond U+FFFF and one in U+E000–U+FFFF (`"😀"` comes after `"\uFF00"` in the model, before it in the source).
- Sorting.LessTransitive: the strict total order proved is the code-point order, not the UTF-16 unit order of `Array.prototype.sort`.
- Http.ErrorMessage: keeps 200 code points of the body; `slice(0, 200)` keeps 200 UTF-16 units, which is fewer characters, or half a surrogate pair, when the body holds characters beyond U+FFFF.
- IndexRebuild.RebuildKeys: an object's property order is modelled as insertion order, while JavaScript enumerates array-index keys (a root file named `2024`) first, in ascending order. Nothing observable reads that order: `computeIndexHash` sorts the keys (`IndexHash.HashIgnoresOrderAndExtras`), and every path of the mirror loop over `Object.keys(index.files)` already has a first-pass candidate (`Plan.MirrorNeedsCandidate`), whose place deduplication keeps.
- Execute.SaveIndex: the older copy's `saveSettings()` (plugins/yandex-disk-sync/main.js:1435) also stores the index with the settings through `saveData` (plugins/yandex-disk-sync/main.js:674-676); the model does not track the host's data store.
- SHA-1, `JSON.stringify` and JSON key order inside the serialiser are folded into the hash parameter `h`.
- ISO date parsing is left out: `modified` is milliseconds already.
- Wall-clock values are parameters: `lastSyncAt` is `now`, and the run's start and end times are dropped.
- Real concurrency and the worker count are left out. One worker takes items in order, because the pool changes only the interleaving. A cancel request is a point in the sequence of started tasks.
- The `remoteMapFromPlan` `Map` is a sequence of remote files.
- `fromPlan` is a sequence of remote files, since a `Map`'s values come out in insertion order.
- Execute.ExecutePlan: follows the code as written: it rebuilds with `Rebuild`, not with the corrected `SettledRebuild` of finding F6.
- Execute.ExecutePlan: takes the hash `writeIndexFile` returns to be that of its payload.
- Chunked.DownloadChunked: follows the code as written: it ends with `Finish`, not with the corrected `CorrectedFinish` of finding F4.
- Chunked.DownloadChunked: leaves out the unknown-total branch of the loop. The chunked branch is entered only when the size is larger than one chunk, so the total is never zero there.
- Chunked.DownloadChunked: leaves out the environment override of the chunk size and the `unlink` before the rename.
- Chunked.DownloadChunked: leaves out HTTP errors inside the loop, which are thrown by `http`, modelled separately.
- Chunked.ShouldChunk: the mobile gate is stated as a predicate; the download method assumes it holds.
- Http.Retry: a missing 429 header object and a NaN `maxAttempts` are not modelled.
- Http.Retry: the Retry-After value is already classified as absent, a number or unparsable.
- Http.Client.Request: the reproduction script's copy of `http` is the same loop without `lastHttpError` and is covered by `Retry`.
- Paths.NormalizeRelPath: Obsidian's own normaliser is a parameter. Round trips are stated for the test double `MockNormalizePath`.
- `__tests__/plugin/download_safeguard.test.js` targets a version of the download not in these files. It expects a throw where the reproduction script truncates; the model follows the script.
- The plan tests that expect transfers to beat deletions are not followed; see above.

## Findings

| source | as written | input that shows it | evidently intended | confidence | as-written member | corrected member |
|---|---|---|---|---|---|---|
| plugins/yandex-disk-sync/main.js:123-125 | leading slashes are stripped before backslashes are converted | `"\\notes\\a.md"` gives `"/notes/a.md"` | no leading '/' (the reproduction script converts first) | high, not executed | Paths.OldNormalizeLeadingSlash | Paths.ReproNormalizeBackslashPath |
| plugins/yandex-disk-sync/main.js:796 | the bucket choice has no conflict branch, so a finished conflict is credited to `del` | a plan of one conflict that succeeds | the conflict bucket counts it done (as main.js:999 does) | high, not executed | RunState.PreviousConflictStaysQueued | RunState.PlanAccounting |
| plugins/yandex-disk-sync/main.js:1421 | the rebuild relists the root, not the vault folder the plan used | root `app:/`, folder `vault`, file `a.md` | relist `getRemoteBase()` (as main.js:1651 does) | high, not executed | Execute.OldRelistLosesRemoteState | Execute.RelistKeepsRemoteState |
| reproduce_issue.js:304-318 | in stream mode there is no memory buffer, so a failed stream open or write loses the data and the call still returns | any file larger than a chunk with the temporary file not openable | the announced fallback to memory | high, not executed | ChunkedProperties.StreamFailureLosesDownload | ChunkedProperties.CorrectedHonestDownload |
| plugins/yandex-disk-sync/main.js:1053-1054 | `Number` of an HTTP-date Retry-After is NaN, and `Math.max(1000, NaN)` is NaN, so the timer does not wait | 429 with `Retry-After: Wed, 21 Oct 2026 07:28:00 GMT` | wait at least one second (HTTP-date Retry-After per section 10.2.3 of RFC 9110) | medium, not executed | Http.UnparsableRetryAfterDoesNotWait | Http.IntendedThrottleDelay |
| main.js:1658-1667 | the rebuilt index ignores how the operations ended | two-way mirror, new file `a.md`, upload fails | keep the old entry for an unsettled path | high, not executed | Execute.FailedUploadDeletedNextRun | Execute.FailedUploadRetried |
