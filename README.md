# free-up-my-mac, modelled in Dafny

free-up-my-mac is a macOS duplicate-file finder. The user picks folders, and the app:

1. walks each folder, keeping the regular files the filters accept (`FileScannerService`, `FileFilters`);
2. groups the files by size;
3. gives files above a small-file threshold a cheap *partial* hash of their first and last bytes, and regroups by size and partial hash;
4. hashes every surviving candidate in full;
5. reports the groups of files that share size and full hash (`DuplicateGroup`), sorted by how much deleting all but one copy would save (`DuplicateDetectorService`).

Hashing runs in batches of a fixed number of concurrent tasks, with progress reported once per batch and a cooperative cancellation flag (`FileHasherService`). A view model holds the selected folders, the selected files and the groups, and updates them after files are moved to the trash (`ScanViewModel`). A history ledger keeps past cleanup sessions with running totals (`HistoryManager`, `HistoryViewModel`).

This project models that core and proves what it promises:

- every group holds at least two files of one size and one full hash;
- two byte-identical files of the same size end up in one group;
- the result is sorted and is a permutation of the groups built;
- skipped files are exactly the unreadable candidates;
- cancellation stops a run exactly when it reaches a check;
- the scanner keeps exactly the accepted files no pruned directory hides, in enumeration order;
- the ledger's totals stay equal to the sums over its sessions.

## How the model is built

- **Digest.** The content digest (XXH64, a foreign library) is a parameter of the hasher: any deterministic function `digest: Bytes -> U64`. Its output is rendered by a modelled `%016llx` (16 lowercase hex digits). Streaming the file into the hasher chunk by chunk is taken to equal digesting the concatenated bytes.
- **File system.** For hashing, the file system is a map from URLs to what reading that file yields:
  - `Readable(content)`;
  - `Unopenable`, when the file handle cannot be created;
  - `Faulty(message)`, when a read throws.
  
  A URL absent from the map does not exist.
- **Directory walk.** The walk reads the enumerator's entries as a pre-order list. Each entry carries its depth and its resource values, or `None` when reading them throws. A pruned directory hides the entries that follow it at a greater depth.
- **Cancellation.** A `cancel()` from another task is an environment schedule:
  - for the scanner, the number of the `Task.yield()` at which it arrives;
  - for a hash batch, the chunk before which it arrives;
  - for the detector, a `CancelPoint` naming the check before which the flag is seen. `BeforePartialCheck` is a schedule the source cannot produce: `findDuplicates` does not suspend between its first two checks, since `progress(...)` is a synchronous call. It is kept so that every check has a point; no proved property depends on it.
- **Oracles.** UUIDs (`newId`, `newIds`) and the current date (`now`) are parameters.
- **History file.** The history file is a `Disk` value (`NoFile`, `Unreadable` or `Holds(file)`), and `writable` says whether writes succeed. Another instance may write the same file between calls (`OtherInstanceWrites`); that changes the file and not this manager's cache, so the cache can be stale. JSON encoding is not modelled.
- **Imperative form.** The services and view models are classes whose methods update their fields. Every method is proved against specification functions. Those functions carry the properties, stated as lemmas.
- **Unbounded integers.** Sizes and counters are unbounded integers.

The modules follow the source files:

| module | models |
|---|---|
| `ScannedFiles`, `SkippedFiles`, `DuplicateGroups`, `ScanResults`, `TrashResults`, `ScanProgresses`, `CleanupSessions` | the model types |
| `Filters` | `FileFilters` |
| `FileHasher` | `FileHasherService` |
| `FileScanner` | `FileScannerService` |
| `DuplicateDetector` | `DuplicateDetectorService` |
| `ScanViewModels` | `ScanViewModel` |
| `History` | `HistoryManager` |
| `HistoryViewModels` | `HistoryViewModel` |
| `Paths`, `Grouping`, `Hex`, `Decimal`, `Sequences`, `Wrappers` | shared tools |

The shared tools cover URLs as component lists, dictionary grouping in first-occurrence order, hex and decimal renderings, sequence lemmas, and `Option`/`Result`.

## Model

| member | source | states |
|---|---|---|
| ScannedFiles.NewScannedFile | free-up-my-mac/free-up-my-mac/Models/ScannedFile.swift:12-28 | A new file carries no partial and no full hash, and exactly the id, URL, size and dates it was given. |
| Paths.LastPathComponent | free-up-my-mac/free-up-my-mac/Models/ScannedFile.swift:30-32 | The last component of a non-root URL; "/" for the root. |
| ScannedFiles.ScannedFile.FileName | free-up-my-mac/free-up-my-mac/Models/ScannedFile.swift:30-32 | `Paths.LastPathComponent` of the URL, whose contract states it. |
| Paths.DirectoryPath | free-up-my-mac/free-up-my-mac/Models/ScannedFile.swift:34-36 | The path is the directory path, "/" and the file name; a file directly under the root has directory "/". |
| ScannedFiles.ScannedFile.DirectoryPath | free-up-my-mac/free-up-my-mac/Models/ScannedFile.swift:34-36 | `Paths.DirectoryPath` of the URL, whose contract states it. |
| Paths.LowercasedExtension | free-up-my-mac/free-up-my-mac/Models/ScannedFile.swift:38-40 | The path extension with each ASCII uppercase letter lowercased and every other character kept; as long as the extension and without a dot. Only ASCII letters are folded (see Left out). |
| ScannedFiles.ScannedFile.FileExtension | free-up-my-mac/free-up-my-mac/Models/ScannedFile.swift:38-40 | `Paths.LowercasedExtension` of the URL, whose contract states it. |
| ScannedFiles.ScannedFile.WithPartialHash | free-up-my-mac/free-up-my-mac/Models/ScannedFile.swift:4-10 | Setting the partial hash changes nothing else: id, URL, size, dates and full hash stay. |
| ScannedFiles.ScannedFile.WithFullHash | free-up-my-mac/free-up-my-mac/Models/ScannedFile.swift:4-10 | Setting the full hash changes nothing else. |
| SkippedFiles.SkipReason.Description | free-up-my-mac/free-up-my-mac/Models/SkippedFile.swift:21-30 | "Permission denied", "Read error: " + message, "Hashing failed: " + message. |
| SkippedFiles.DescriptionRoundTrip | free-up-my-mac/free-up-my-mac/Models/SkippedFile.swift:21-30 | Every reason can be recovered from its description. |
| SkippedFiles.DescriptionInjective | free-up-my-mac/free-up-my-mac/Models/SkippedFile.swift:21-30 | Different reasons have different descriptions. |
| SkippedFiles.SkippedFile.FileName | free-up-my-mac/free-up-my-mac/Models/SkippedFile.swift:34-36 | `Paths.LastPathComponent` of the skipped URL, as for a scanned file. |
| SkippedFiles.SkippedFile.DirectoryPath | free-up-my-mac/free-up-my-mac/Models/SkippedFile.swift:39-41 | `Paths.DirectoryPath` of the skipped URL, as for a scanned file. |
| DuplicateGroups.DuplicateGroup.DuplicateCount | free-up-my-mac/free-up-my-mac/Models/DuplicateGroup.swift:21-23 | The number of files in the group. |
| DuplicateGroups.DuplicateGroup.PotentialSavings | free-up-my-mac/free-up-my-mac/Models/DuplicateGroup.swift:25-28 | No contract of its own: `SavingsFormula` and `SavingsFromMembers` state it, size × (count − 1) for two or more files, 0 otherwise, and the sum over all members but the first. |
| DuplicateGroups.DuplicateGroup.TotalSize | free-up-my-mac/free-up-my-mac/Models/DuplicateGroup.swift:30-32 | No contract of its own: `SavingsFormula` and `SavingsFromMembers` state it, savings plus one copy, and the sum of the members' sizes. |
| DuplicateGroups.SavingsFormula | free-up-my-mac/free-up-my-mac/Models/DuplicateGroup.swift:25-32 | With two or more files the savings are size × (count − 1); savings never exceed the total size; a non-empty group's total size is savings + one copy. |
| DuplicateGroups.SavingsFromMembers | free-up-my-mac/free-up-my-mac/Models/DuplicateGroup.swift:25-32 | When every member has the group's size, the total size is the sum of the members' sizes and the savings are the sizes of all members but the first; at most one file saves nothing. |
| DuplicateGroups.DuplicateGroup.FileExtension | free-up-my-mac/free-up-my-mac/Models/DuplicateGroup.swift:34-36 | The first file's extension, or "" for an empty group. |
| DuplicateGroups.DuplicateGroup.FileName | free-up-my-mac/free-up-my-mac/Models/DuplicateGroup.swift:38-40 | The first file's name, or "Unknown" for an empty group. |
| ScanResults.NoGroupsNoTotals | free-up-my-mac/free-up-my-mac/Models/ScanResult.swift:33-43 | A result without groups has no duplicate files, no groups and no savings. |
| ScanResults.TotalsAppend | free-up-my-mac/free-up-my-mac/Models/ScanResult.swift:33-43 | The file count and the savings of a concatenation of group lists are the sums of the parts'. |
| ScanResults.TotalsOfValidGroups | free-up-my-mac/free-up-my-mac/Models/ScanResult.swift:33-43 | For groups of two or more files, savings plus one copy per group equal the total bytes, and there are at least twice as many files as groups. |
| TrashResults.OutcomesPartition | free-up-my-mac/free-up-my-mac/Models/TrashResult.swift:9-27 | Each outcome predicate holds iff its two conditions do, and for a trashed count ≥ 0 exactly one of the four holds. |
| TrashResults.TrashResult.WasCompleteSuccess | free-up-my-mac/free-up-my-mac/Models/TrashResult.swift:10-12 | No contract of its own: `OutcomesPartition` states it holds iff nothing failed and something was trashed, and that exactly one of the four holds. |
| TrashResults.TrashResult.WasPartialSuccess | free-up-my-mac/free-up-my-mac/Models/TrashResult.swift:15-17 | No contract of its own: `OutcomesPartition` states it holds iff something failed and something was trashed, and that exactly one of the four holds. |
| TrashResults.TrashResult.WasCompleteFailure | free-up-my-mac/free-up-my-mac/Models/TrashResult.swift:20-22 | No contract of its own: `OutcomesPartition` states it holds iff nothing was trashed and something failed, and that exactly one of the four holds. |
| TrashResults.TrashResult.WasEmpty | free-up-my-mac/free-up-my-mac/Models/TrashResult.swift:25-27 | No contract of its own: `OutcomesPartition` states it holds iff nothing was trashed and nothing failed, and that exactly one of the four holds. |
| TrashResults.FailureReason.Description | free-up-my-mac/free-up-my-mac/Models/TrashResult.swift:40-49 | "File not found", "Permission denied", or the unknown error's message. |
| CleanupSessions.SavingsStats.Add | free-up-my-mac/free-up-my-mac/Models/CleanupSession.swift:18-22 | Adding a session raises files and bytes by that session's figures and the session count by one. |
| CleanupSessions.EmptyStats | free-up-my-mac/free-up-my-mac/Models/CleanupSession.swift:24 | All three counters are zero. |
| CleanupSessions.AddAllSums | free-up-my-mac/free-up-my-mac/Models/CleanupSession.swift:18-22 | Folding `add` over sessions from any stats adds their summed files and bytes and their number. |
| CleanupSessions.StatsOfSessions | free-up-my-mac/free-up-my-mac/Models/CleanupSession.swift:18-24 | From `.empty` the fold gives the sums and the count, and any reordering of the sessions gives the same stats. |
| CleanupSessions.SumsPermutation | free-up-my-mac/free-up-my-mac/Models/CleanupSession.swift:18-22 | The file and byte sums do not depend on the order of the sessions. |
| CleanupSessions.ScannedDirectoryAppend | free-up-my-mac/free-up-my-mac/Models/CleanupSession.swift:37-39 | Adding a directory extends the joined path list by ", " and that directory. |
| CleanupSessions.CleanupSession.ScannedDirectory | free-up-my-mac/free-up-my-mac/Models/CleanupSession.swift:37-39 | No contract of its own: `ScannedDirectoryAppend` and `SingleDirectorySession` state it, the directories joined by ", ". |
| CleanupSessions.SingleDirectorySession | free-up-my-mac/free-up-my-mac/Models/CleanupSession.swift:72-90 | The session lists exactly that directory, its joined form is the directory itself, and every other field is as given. |
| ScanProgresses.RawValuesDistinct | free-up-my-mac/free-up-my-mac/Models/ScanProgress.swift:3-13 | Different phases have different display names. |
| ScanProgresses.ScanPhase.RawValue | free-up-my-mac/free-up-my-mac/Models/ScanProgress.swift:3-13 | No contract of its own: each phase's string as in the enum; `RawValuesDistinct` states that no two phases share one. |
| ScanProgresses.ScanProgress.FileProgress | free-up-my-mac/free-up-my-mac/Models/ScanProgress.swift:45-48 | 0 when there are no files; within [0, 1] while the count is in range; 1 when every file is processed. |
| ScanProgresses.ScanProgress.ByteProgress | free-up-my-mac/free-up-my-mac/Models/ScanProgress.swift:50-53 | The same three facts for bytes. |
| ScanProgresses.ActivePhases | free-up-my-mac/free-up-my-mac/Models/ScanProgress.swift:60-67 | Inactive iff idle, completed, cancelled or failed; active iff enumerating, grouping, hashing or finding duplicates. |
| ScanProgresses.IdleProgress | free-up-my-mac/free-up-my-mac/Models/ScanProgress.swift:25-43 | `.idle` has phase idle, all counters 0, no optional set, both ratios 0, and is inactive. |
| Filters.FileFilters.ShouldIncludeFile | free-up-my-mac/free-up-my-mac/Utilities/FileFilters.swift:41-58 | An included file is at least the minimum size and has no excluded extension; with hidden files excluded, a dot-name is never included. The extension is lowercased over ASCII letters only (see Left out). |
| Filters.FileFilters.ShouldTraverseDirectory | free-up-my-mac/free-up-my-mac/Utilities/FileFilters.swift:60-76 | A traversed directory's name is not excluded; with the flags on, system names and dot-names are not traversed. |
| Filters.DefaultFilters | free-up-my-mac/free-up-my-mac/Utilities/FileFilters.swift:10-24 | Minimum size 1, both flags on, no excluded extension or directory name. |
| Filters.SizeFloor | free-up-my-mac/free-up-my-mac/Utilities/FileFilters.swift:42-44 | Below the minimum nothing is included; at or above it, the verdict is the verdict at exactly the minimum. |
| Filters.HiddenFlagOff | free-up-my-mac/free-up-my-mac/Utilities/FileFilters.swift:41-76 | With the hidden flag off, a leading dot plays no part in either verdict. |
| Filters.ExtensionCaseInsensitive | free-up-my-mac/free-up-my-mac/Utilities/FileFilters.swift:52-55 | For all URLs and sizes: two files whose extensions agree once lowercased, and whose names are both hidden or both not, get the same verdict. |
| Filters.ExtensionTmpInAnyCase | free-up-my-mac/free-up-my-mac/Utilities/FileFilters.swift:52-55 | An excluded entry "tmp" rejects the extensions "TMP", "Tmp" and "tmp". |
| Filters.TraverseByLastComponent | free-up-my-mac/free-up-my-mac/Utilities/FileFilters.swift:60-76 | Paths with the same last component get the same traversal verdict. |
| Filters.DefaultTraversalExamples | free-up-my-mac/free-up-my-mac/Utilities/FileFilters.swift:26-39 | With the defaults `/Library/Preferences` is traversed, while `~/Library` and `node_modules` are not. |
| Filters.ExcludedNamesAlwaysRejected | free-up-my-mac/free-up-my-mac/Utilities/FileFilters.swift:71-73 | An excluded directory name is rejected whatever the two flags say. |
| Filters.PermissivePolicy | free-up-my-mac/free-up-my-mac/Utilities/FileFilters.swift:41-76 | With both flags off and empty sets, every directory is traversed and a file is included iff it reaches the minimum size. |
| Hex.Format016llx | free-up-my-mac/free-up-my-mac/Services/FileHasherService.swift:229 | The digest string has exactly 16 characters, each a lowercase hex digit. |
| Hex.FormatRoundTrip | free-up-my-mac/free-up-my-mac/Services/FileHasherService.swift:229 | The string reads back as the digest, so equal strings mean equal digests and vice versa. |
| FileHasher.Open | free-up-my-mac/free-up-my-mac/Services/FileHasherService.swift:204-211 | A missing file gives `fileNotFound`; a file that cannot be opened gives `readError("Unable to open file for reading")`; otherwise it yields what is there. |
| FileHasher.FullHashOutcome | free-up-my-mac/free-up-my-mac/Services/FileHasherService.swift:239-271 | Succeeds iff the file exists and reads; then, for a nonzero chunk size, the 16-digit rendering of the digest of its whole content. A failure is never `cancelled`, names the file, is `fileNotFound` iff the file is missing, and carries a faulty file's read message. |
| FileHasher.PartialHashOutcome | free-up-my-mac/free-up-my-mac/Services/FileHasherService.swift:200-236 | Succeeds iff the file exists and reads; then the rendering of the digest of its two samples (`PartialInput`). The failures are as for the full digest. |
| FileHasher.LastOffset | free-up-my-mac/free-up-my-mac/Services/FileHasherService.swift:220 | The trailing sample starts at size − K when the file holds K bytes, at 0 otherwise, and never past the end. |
| FileHasher.LastOffsetAsWritten | free-up-my-mac/free-up-my-mac/Services/FileHasherService.swift:220 | The unsigned subtraction traps exactly when size < K; otherwise it agrees with the corrected offset. |
| FileHasher.LastOffsetTrapWitness | free-up-my-mac/free-up-my-mac/Services/FileHasherService.swift:220 | With K = 16384, a 10000-byte file is above the default threshold, takes the partial path and traps, where the intended offset is 0. |
| FileHasher.LastOffsetSafeUnderThreshold | free-up-my-mac/free-up-my-mac/Services/FileHasherService.swift:220 | When K ≤ the small-file threshold (the defaults), no file that reaches the partial path traps. |
| FileHasher.PartialInputSamplesEnds | free-up-my-mac/free-up-my-mac/Services/FileHasherService.swift:216-228 | A large file's partial digest covers its first min(K, size) bytes followed by its last min(K, size) bytes. |
| FileHasher.PartialInputDeterminedByEnds | free-up-my-mac/free-up-my-mac/Services/FileHasherService.swift:216-228 | Same-size contents that agree in their first and last K bytes give the same partial digest input, whatever lies between. |
| FileHasher.PartialHashOfEqualContents | free-up-my-mac/free-up-my-mac/Services/FileHasherService.swift:200-236 | Two same-size files with identical readable content get the same, successful partial hash. |
| FileHasher.PartialTransform | free-up-my-mac/free-up-my-mac/Services/FileHasherService.swift:90-98 | On success only the partial hash is set (to the digest); on failure the digest's error is passed on and is never `cancelled`. |
| FileHasher.FullTransform | free-up-my-mac/free-up-my-mac/Services/FileHasherService.swift:109-113 | On success only the full hash is set; on failure the error is the read's and never `cancelled`. |
| FileHasher.SmallPartialIsFull | free-up-my-mac/free-up-my-mac/Services/FileHasherService.swift:92-95 | At or below the threshold the partial digest is the full digest: both transforms succeed together, and the partial hash set equals the full hash set. |
| FileHasher.FullTransformOnContents | free-up-my-mac/free-up-my-mac/Services/FileHasherService.swift:239-271 | Readable files with the same content both hash, to the same full hash. |
| FileHasher.FullTransformFailsOnlyOnUnreadable | free-up-my-mac/free-up-my-mac/Services/FileHasherService.swift:243-250 | Either transform fails iff the file is missing, cannot be opened or cannot be read. |
| FileHasher.HashTransformsNeverCancel | free-up-my-mac/free-up-my-mac/Services/FileHasherService.swift:149-163 | The closures of both batch calls fail only on unreadable files and never with `cancelled`. |
| FileHasher.ProcessOutcome | free-up-my-mac/free-up-my-mac/Services/FileHasherService.swift:147-163 | A task yields the hashed file iff the closure succeeds; a missing file is skipped as "File not found", a read error with its message, always as `hashingFailed`. |
| FileHasher.Process | free-up-my-mac/free-up-my-mac/Services/FileHasherService.swift:147-163 | No contract of its own: `ProcessOutcome` states it. A `cancelled` failure is mapped to a skip (see Left out). |
| FileHasher.Chunks | free-up-my-mac/free-up-my-mac/Services/FileHasherService.swift:136-138 | The chunks are non-empty, hold at most m files, all but the last exactly m, and concatenate back to the input. |
| FileHasher.SuccessesMembers | free-up-my-mac/free-up-my-mac/Services/FileHasherService.swift:175-182 | A file is among the hashed results iff it is the closure's success on some input. |
| FileHasher.SkipsMembers | free-up-my-mac/free-up-my-mac/Services/FileHasherService.swift:175-182 | A skip record is present iff it is the skip of some input whose closure failed. |
| FileHasher.OutcomesCount | free-up-my-mac/free-up-my-mac/Services/FileHasherService.swift:175-182 | Hashed plus skipped files number exactly the inputs: each input lands in one list. |
| FileHasher.ReportsEndAtTotal | free-up-my-mac/free-up-my-mac/Services/FileHasherService.swift:183-186 | A complete non-empty batch reports once per chunk, and its last report is (total, total). |
| FileHasher.ReportsIncrease | free-up-my-mac/free-up-my-mac/Services/FileHasherService.swift:183-186 | Each report's processed count exceeds the previous one by that chunk's length: at least 1 and at most m. |
| FileHasher.FileHasherService.constructor | free-up-my-mac/free-up-my-mac/Services/FileHasherService.swift:25-35 | The configuration and digest are as given, and the flag is clear; `HasherConfig`'s defaults are 4096, 65536, 4 and 8192. |
| FileHasher.FileHasherService.Cancel | free-up-my-mac/free-up-my-mac/Services/FileHasherService.swift:39-41 | The flag is set. |
| FileHasher.FileHasherService.ResetCancellation | free-up-my-mac/free-up-my-mac/Services/FileHasherService.swift:43-45 | The flag is clear. |
| FileHasher.FileHasherService.CheckCancelled | free-up-my-mac/free-up-my-mac/Services/FileHasherService.swift:47-49 | Throws `cancelled` iff the flag is set. |
| FileHasher.FileHasherService.ComputeFullHashSync | free-up-my-mac/free-up-my-mac/Services/FileHasherService.swift:239-271 | The chunked read loop yields the digest of the whole content, or the open or read error. |
| FileHasher.FileHasherService.ComputeFullHash | free-up-my-mac/free-up-my-mac/Services/FileHasherService.swift:68-76 | `cancelled` when the flag is set, else the full digest outcome. |
| FileHasher.FileHasherService.ComputePartialHash | free-up-my-mac/free-up-my-mac/Services/FileHasherService.swift:53-66 | `cancelled` when the flag is set, else the full digest at or below the threshold and the partial digest above it. |
| FileHasher.FileHasherService.RunChunk | free-up-my-mac/free-up-my-mac/Services/FileHasherService.swift:144-182 | A chunk's outcomes arrive in some order that is a permutation of the chunk's; the hashed and skipped lists are split from that order. |
| FileHasher.FileHasherService.RunRound | free-up-my-mac/free-up-my-mac/Services/FileHasherService.swift:144-186 | After one more chunk, the gathered results and reports are those of the first c + 1 chunks. |
| FileHasher.FileHasherService.RunChunks | free-up-my-mac/free-up-my-mac/Services/FileHasherService.swift:140-192 | Succeeds iff no cancel precedes a chunk; then the results are the batch's successes and skips (as multisets) and the reports are all made; a cancel leaves a prefix of the reports and the flag set. |
| FileHasher.FileHasherService.ProcessBatch | free-up-my-mac/free-up-my-mac/Services/FileHasherService.swift:124-195 | The same, over the chunks of `maxConcurrentOperations`. |
| FileHasher.FileHasherService.ComputePartialHashes | free-up-my-mac/free-up-my-mac/Services/FileHasherService.swift:80-99 | Empty input gives empty results and no report; otherwise the batch result for the partial-hash closure. The reports so far are a prefix of the per-chunk reports, all of them on success. |
| FileHasher.FileHasherService.ComputeFullHashes | free-up-my-mac/free-up-my-mac/Services/FileHasherService.swift:101-114 | The same for the full-hash closure, including the report prefix on a cancel. |
| Decimal.DecimalStringInjective | free-up-my-mac/free-up-my-mac/Services/DuplicateDetectorService.swift:185 | Distinct sizes print as distinct decimal strings. |
| DuplicateDetector.HashKeyInjective | free-up-my-mac/free-up-my-mac/Services/DuplicateDetectorService.swift:185 | The key "size-hash" determines both the size and the hash, so buckets never mix sizes or hashes. |
| Grouping.MultiGroupsSound | free-up-my-mac/free-up-my-mac/Services/DuplicateDetectorService.swift:164-173 | Every bucket kept has at least two members, all from the input and sharing one key: all inputs with that key. |
| Grouping.MultiGroupsComplete | free-up-my-mac/free-up-my-mac/Services/DuplicateDetectorService.swift:164-173 | Every input whose key occurs at least twice is in the bucket of its key. |
| Grouping.MultiGroupsDisjoint | free-up-my-mac/free-up-my-mac/Services/DuplicateDetectorService.swift:164-173 | No file lies in two buckets. |
| DuplicateDetector.SizeGroupsSound | free-up-my-mac/free-up-my-mac/Services/DuplicateDetectorService.swift:164-173 | Every size group holds two or more input files, all of one size: all the files of that size. |
| DuplicateDetector.SizeGroupsComplete | free-up-my-mac/free-up-my-mac/Services/DuplicateDetectorService.swift:164-173 | Every input file whose size occurs at least twice is in the group of its size. |
| DuplicateDetector.SizeGroups | free-up-my-mac/free-up-my-mac/Services/DuplicateDetectorService.swift:164-173 | No contract of its own: `SizeGroupsSound` and `SizeGroupsComplete` state it. |
| DuplicateDetector.SplitMembers | free-up-my-mac/free-up-my-mac/Services/DuplicateDetectorService.swift:67-74 | Each group goes to the small side iff its first file is at most the threshold, else to the large side. |
| DuplicateDetector.PotentialDuplicatesMembers | free-up-my-mac/free-up-my-mac/Services/DuplicateDetectorService.swift:177-196 | An output group is exactly a partial-hash bucket of two or more within some input group. |
| DuplicateDetector.PotentialDuplicates | free-up-my-mac/free-up-my-mac/Services/DuplicateDetectorService.swift:177-196 | No contract of its own: `PotentialDuplicatesMembers` states it. |
| DuplicateDetector.PartialBucketSound | free-up-my-mac/free-up-my-mac/Services/DuplicateDetectorService.swift:177-196 | Such a bucket has two or more files from its input group, sharing size and partial hash, with a missing hash read as "none". |
| DuplicateDetector.DuplicateGroupsSound | free-up-my-mac/free-up-my-mac/Services/DuplicateDetectorService.swift:213-238 | Every built group is valid: at least two input files, each with the group's size and with the group's hash as its full hash. |
| DuplicateDetector.DuplicateGroupsComplete | free-up-my-mac/free-up-my-mac/Services/DuplicateDetectorService.swift:213-238 | Two different files with the same size and the same full hash share a built group. |
| DuplicateDetector.SortBySavingsCorrect | free-up-my-mac/free-up-my-mac/Services/DuplicateDetectorService.swift:150 | The output is in non-increasing order of savings and is a permutation of the input. |
| DuplicateDetector.StagedDetected | free-up-my-mac/free-up-my-mac/Services/DuplicateDetectorService.swift:33-160 | A run whose stages compute what each stage specifies yields valid groups of files whose hashes are their current content's full digest, sorted by savings. Byte-identical same-size files share a group, and the skips are exactly the unreadable candidates. |
| DuplicateDetector.NoSharedSizeStaged | free-up-my-mac/free-up-my-mac/Services/DuplicateDetectorService.swift:56-61 | When no size is shared, every stage is empty and the result has no groups and no skips. |
| DuplicateDetector.TakesEffectShared | free-up-my-mac/free-up-my-mac/Services/DuplicateDetectorService.swift:54-145 | With some size shared, a cancel stops the run iff it arrives at a check or chunk the run actually reaches. |
| DuplicateDetector.PhaseRunsMembers | free-up-my-mac/free-up-my-mac/Services/DuplicateDetectorService.swift:48-157 | A phase appears in the collapsed phase sequence iff some event carries it. |
| DuplicateDetector.PhaseRunsBlock | free-up-my-mac/free-up-my-mac/Services/DuplicateDetectorService.swift:88-135 | A block of events of a new phase adds that phase once, and an empty block adds nothing. |
| DuplicateDetector.BatchEvents | free-up-my-mac/free-up-my-mac/Services/DuplicateDetectorService.swift:90-97 | One event per batch report, carrying that report's counts. |
| DuplicateDetector.EmptyReported | free-up-my-mac/free-up-my-mac/Services/DuplicateDetectorService.swift:39-42 | No files: a single `completed` event and an empty result. |
| DuplicateDetector.SizeCheckReported | free-up-my-mac/free-up-my-mac/Services/DuplicateDetectorService.swift:47-54 | A cancel before the first check throws `cancelled` after the grouping event only. |
| DuplicateDetector.NoSharedReported | free-up-my-mac/free-up-my-mac/Services/DuplicateDetectorService.swift:56-61 | No shared size: the grouping event, a `completed` event, and no groups or skips. |
| DuplicateDetector.PartialStopped | free-up-my-mac/free-up-my-mac/Services/DuplicateDetectorService.swift:80-97 | A cancel the partial-hash stage sees ends the run with `cancelled`, before any later stage and with no completion event. |
| DuplicateDetector.SharedReported | free-up-my-mac/free-up-my-mac/Services/DuplicateDetectorService.swift:63-160 | A run with shared sizes keeps every promise of `findDuplicates`: cancel semantics, stage results, the detection guarantees and the phase order. |
| DuplicateDetector.DuplicateDetectorService.constructor | free-up-my-mac/free-up-my-mac/Services/DuplicateDetectorService.swift:14-17 | The hasher and threshold are as given, and the flag is clear. |
| DuplicateDetector.DuplicateDetectorService.EnvFor | free-up-my-mac/free-up-my-mac/Services/DuplicateDetectorService.swift:14-17 | The detection environment uses the hasher's configuration and digest and the detector's threshold. |
| DuplicateDetector.DuplicateDetectorService.Cancel | free-up-my-mac/free-up-my-mac/Services/DuplicateDetectorService.swift:21-24 | Both the detector's flag and the hasher's are set. |
| DuplicateDetector.DuplicateDetectorService.ResetCancellation | free-up-my-mac/free-up-my-mac/Services/DuplicateDetectorService.swift:26-29 | Both flags are clear. |
| DuplicateDetector.DuplicateDetectorService.GroupBySize | free-up-my-mac/free-up-my-mac/Services/DuplicateDetectorService.swift:164-173 | The dictionary loop computes the size groups (it also serves for `rebuildSizeGroups`, lines 201-210). |
| DuplicateDetector.DuplicateDetectorService.SplitBySize | free-up-my-mac/free-up-my-mac/Services/DuplicateDetectorService.swift:63-74 | The loop sends each group to exactly one side, keeping order: small iff its first file is at most the threshold. |
| DuplicateDetector.DuplicateDetectorService.FilterPotentialDuplicates | free-up-my-mac/free-up-my-mac/Services/DuplicateDetectorService.swift:177-196 | Every output group has two or more files drawn from one input group, sharing size and partial hash ("none" when missing). |
| DuplicateDetector.DuplicateDetectorService.BuildDuplicateGroups | free-up-my-mac/free-up-my-mac/Services/DuplicateDetectorService.swift:213-238 | Every group is valid and drawn from the input; files without a full hash are ignored; two files sharing size and full hash are in one group. |
| DuplicateDetector.DuplicateDetectorService.PartialStage | free-up-my-mac/free-up-my-mac/Services/DuplicateDetectorService.swift:76-103 | No large group: no event and empty results. Otherwise it announces the phase, then either is cancelled at its check or batch, or returns the partial-hash batch result. |
| DuplicateDetector.DuplicateDetectorService.FullStage | free-up-my-mac/free-up-my-mac/Services/DuplicateDetectorService.swift:115-135 | The same for the full-hash stage over its input. |
| DuplicateDetector.DuplicateDetectorService.Narrow | free-up-my-mac/free-up-my-mac/Services/DuplicateDetectorService.swift:63-111 | From the split to the full-hash input: the full-hash input is the filtered large files followed by the small-group files, and the partial phase appears iff there are large groups. |
| DuplicateDetector.DuplicateDetectorService.HashCandidates | free-up-my-mac/free-up-my-mac/Services/DuplicateDetectorService.swift:113-135 | The check before the full hashes, then the full-hash stage; its phase appears iff its input is not empty. |
| DuplicateDetector.DuplicateDetectorService.Build | free-up-my-mac/free-up-my-mac/Services/DuplicateDetectorService.swift:137-159 | Finding-duplicates event, the last check, the groups built and sorted, the skips concatenated, and the `completed` event. |
| DuplicateDetector.DuplicateDetectorService.Conclude | free-up-my-mac/free-up-my-mac/Services/DuplicateDetectorService.swift:113-159 | The rest of the run completes the staged trace or is cancelled, never announcing completion when cancelled. |
| DuplicateDetector.DuplicateDetectorService.DetectShared | free-up-my-mac/free-up-my-mac/Services/DuplicateDetectorService.swift:63-159 | Stages 2 to 4 with shared sizes: `SharedOutcome`: fails iff the cancel point is reached, never announcing completion then; else the whole trace is staged and the phases run in order. |
| DuplicateDetector.DuplicateDetectorService.ConcludeShared | free-up-my-mac/free-up-my-mac/Services/DuplicateDetectorService.swift:113-159 | After a partial stage no cancel stopped, the rest of the run meets `SharedOutcome`: only the later checks can stop it. |
| DuplicateDetector.DuplicateDetectorService.FindDuplicates | free-up-my-mac/free-up-my-mac/Services/DuplicateDetectorService.swift:33-160 | A run keeps every promise of `findDuplicates`: valid, complete, sorted groups; sound and complete skips; cancel semantics; phase order; both early returns. |
| FileScanner.KeptIffExposedAccepted | free-up-my-mac/free-up-my-mac/Services/FileScannerService.swift:73-143 | An entry is kept iff no directory above it is pruned and it is a regular, non-link file the filters accept with its reported size. |
| FileScanner.VisitedIffExposed | free-up-my-mac/free-up-my-mac/Services/FileScannerService.swift:94-99 | An entry is yielded by the enumerator iff no directory above it is pruned. |
| FileScanner.NothingBeneathPruned | free-up-my-mac/free-up-my-mac/Services/FileScannerService.swift:94-99 | Nothing beneath a pruned directory is yielded or kept. |
| FileScanner.KeptInOrder | free-up-my-mac/free-up-my-mac/Services/FileScannerService.swift:73-143 | The k-th kept file is made from the k-th kept entry, with the k-th fresh id, in enumeration order. |
| FileScanner.KeptPassFilters | free-up-my-mac/free-up-my-mac/Services/FileScannerService.swift:102-121 | Every kept file passes the filters at its recorded size, has no hash yet, and comes from a regular-file entry. |
| FileScanner.MilestonesAt | free-up-my-mac/free-up-my-mac/Services/FileScannerService.swift:126-136 | One `enumerating` event per hundred kept files, the c-th made right after file 100·(c+1). |
| FileScanner.YieldsInAt | free-up-my-mac/free-up-my-mac/Services/FileScannerService.swift:79-83 | Over n visits the loop yields ceil(n/50) times, and the k-th yield comes when 50·k visits are done. |
| FileScanner.YieldNumber | free-up-my-mac/free-up-my-mac/Services/FileScannerService.swift:79-83 | The loop's `batchCount % 50 == 0` test at count b yields for the k-th time exactly when b is the k-th yield of the first b + 1 visits, that is b = 50·k. |
| FileScanner.FileOf | free-up-my-mac/free-up-my-mac/Services/FileScannerService.swift:107-121 | A kept entry becomes a file with its URL, its size (0 if none reported), its dates and no hashes. |
| FileScanner.FileScannerService.constructor | free-up-my-mac/free-up-my-mac/Services/FileScannerService.swift:24-26 | The filters are as given, and the flag is clear. |
| FileScanner.FileScannerService.CancelScan | free-up-my-mac/free-up-my-mac/Services/FileScannerService.swift:160-162 | The flag is set. |
| FileScanner.FileScannerService.Yield | free-up-my-mac/free-up-my-mac/Services/FileScannerService.swift:79-83 | The flag is set afterwards iff it was set or the scheduled cancel arrives at this yield. |
| FileScanner.FileScannerService.Inspect | free-up-my-mac/free-up-my-mac/Services/FileScannerService.swift:85-113 | One entry: where the enumerator continues (past the subtree of a pruned directory) and whether the entry is kept. |
| FileScanner.FileScannerService.ScanDirectory | free-up-my-mac/free-up-my-mac/Services/FileScannerService.swift:33-157 | Missing root or non-directory: `directoryNotFound` before any event. No enumerator: `accessDenied`. Otherwise either cancelled, with a prefix of the milestones, or exactly the kept files, with the start event, the milestones and the completion event. |
| FileScanner.FileScannerService.Enumerate | free-up-my-mac/free-up-my-mac/Services/FileScannerService.swift:73-154 | The loop over the entries returns the kept files or throws `cancelled` exactly when a cancel lands before the last visit. |
| FileScanner.FileScannerService.Record | free-up-my-mac/free-up-my-mac/Services/FileScannerService.swift:123-136 | Appending a kept file keeps the events equal to the start event followed by one milestone per hundred files. |
| ScanViewModels.WithFolder | free-up-my-mac/free-up-my-mac/ViewModels/ScanViewModel.swift:95-98 | The folders are the old ones, in order, plus the new URL. |
| ScanViewModels.AddFolderKeepsDistinct | free-up-my-mac/free-up-my-mac/ViewModels/ScanViewModel.swift:95-98 | Adding never introduces a duplicate; re-adding a folder changes nothing; a new one grows the list by one. |
| ScanViewModels.WithoutFolder | free-up-my-mac/free-up-my-mac/ViewModels/ScanViewModel.swift:100-102 | Exactly the folders other than the URL remain. |
| ScanViewModels.WithoutFolderAppend | free-up-my-mac/free-up-my-mac/ViewModels/ScanViewModel.swift:100-102 | Removal filters each part of a concatenation, so the rest keep their order. |
| ScanViewModels.WithoutAbsentFolder | free-up-my-mac/free-up-my-mac/ViewModels/ScanViewModel.swift:100-102 | Removing an unselected folder changes nothing. |
| ScanViewModels.WithoutFolderKeepsDistinct | free-up-my-mac/free-up-my-mac/ViewModels/ScanViewModel.swift:100-102 | Removal keeps the folders distinct. |
| ScanViewModels.Toggled | free-up-my-mac/free-up-my-mac/ViewModels/ScanViewModel.swift:110-116 | The id's membership flips and no other id changes. |
| ScanViewModels.ToggleTwice | free-up-my-mac/free-up-my-mac/ViewModels/ScanViewModel.swift:110-116 | Toggling twice restores the selection. |
| ScanViewModels.ToggleCount | free-up-my-mac/free-up-my-mac/ViewModels/ScanViewModel.swift:110-116 | Toggling lowers the number of selected files by one when the id was selected, and raises it by one otherwise. |
| ScanViewModels.NonFirstIdsMembers | free-up-my-mac/free-up-my-mac/ViewModels/ScanViewModel.swift:122-129 | "Select all" selects exactly the members other than the first of each group. |
| ScanViewModels.SelectedFilesMembers | free-up-my-mac/free-up-my-mac/ViewModels/ScanViewModel.swift:236-241 | A file is collected for trashing iff it is a member of some group and its id is selected. |
| ScanViewModels.SavingsOfAllButFirst | free-up-my-mac/free-up-my-mac/ViewModels/ScanViewModel.swift:75-83 | With every member but the first of each group selected, the selected bytes are the groups' total savings. |
| ScanViewModels.SelectAllSavesPotential | free-up-my-mac/free-up-my-mac/ViewModels/ScanViewModel.swift:122-129 | After "select all" on groups with unique ids, the selected savings equal the total potential savings. |
| ScanViewModels.ConvertToFailedFile | free-up-my-mac/free-up-my-mac/ViewModels/ScanViewModel.swift:305-319 | Each operation error maps to its URL and reason: not-found and permission errors to their reasons, the others to their messages, a partial failure to a placeholder. |
| ScanViewModels.TrashOutcomes | free-up-my-mac/free-up-my-mac/ViewModels/ScanViewModel.swift:251-274 | A successful move is a complete success with the bytes freed. One of the operation's own errors is a complete failure of that one URL. A partial failure passes its counts through. Any other error fails every file. |
| ScanViewModels.AfterTrashMembers | free-up-my-mac/free-up-my-mac/ViewModels/ScanViewModel.swift:282-287 | After trashing, every group left has two or more files, and a file is still listed iff it was not trashed and its group kept two or more members. |
| ScanViewModels.TrashedAreSelectedAndNotFailed | free-up-my-mac/free-up-my-mac/ViewModels/ScanViewModel.swift:277-280 | An id is removed iff it belongs to a selected group member whose URL did not fail. |
| ScanViewModels.ScanFoldersFailureStays | free-up-my-mac/free-up-my-mac/ViewModels/ScanViewModel.swift:155-162 | Once a folder's scan throws, later folders do not change the outcome. |
| ScanViewModels.ScanFoldersFirstFailure | free-up-my-mac/free-up-my-mac/ViewModels/ScanViewModel.swift:155-162 | Scanning all folders succeeds iff each folder does; otherwise the error is the first folder's error. |
| ScanViewModels.ScanErrorState | free-up-my-mac/free-up-my-mac/ViewModels/ScanViewModel.swift:180-191 | A cancelled scan returns to idle; any other scan error becomes an error state. |
| ScanViewModels.ScanErrorProgress | free-up-my-mac/free-up-my-mac/ViewModels/ScanViewModel.swift:180-191 | Progress becomes cancelled iff the scan was cancelled, failed otherwise, and is inactive either way. |
| ScanViewModels.HashErrorState | free-up-my-mac/free-up-my-mac/ViewModels/ScanViewModel.swift:192-203 | The same mapping for hash errors. |
| ScanViewModels.HashErrorProgress | free-up-my-mac/free-up-my-mac/ViewModels/ScanViewModel.swift:192-203 | The same for the progress after a hash error. |
| ScanViewModels.DetectorEnv | free-up-my-mac/free-up-my-mac/ViewModels/ScanViewModel.swift:167 | The detector `startScan` creates runs with a positive concurrency. |
| ScanViewModels.ScanViewModel.constructor | free-up-my-mac/free-up-my-mac/ViewModels/ScanViewModel.swift:51-59 | Idle, no folders, groups, selection or files, idle progress, no trash result. |
| ScanViewModels.ScanViewModel.SelectedSavings | free-up-my-mac/free-up-my-mac/ViewModels/ScanViewModel.swift:75-83 | The accumulator loop sums the sizes of the selected group members. |
| ScanViewModels.ScanViewModel.AddFolder | free-up-my-mac/free-up-my-mac/ViewModels/ScanViewModel.swift:95-98 | The folders become `WithFolder`. |
| ScanViewModels.ScanViewModel.RemoveFolder | free-up-my-mac/free-up-my-mac/ViewModels/ScanViewModel.swift:100-102 | The folders become `WithoutFolder`. |
| ScanViewModels.ScanViewModel.ClearFolders | free-up-my-mac/free-up-my-mac/ViewModels/ScanViewModel.swift:104-106 | No folder remains. |
| ScanViewModels.ScanViewModel.ToggleFileSelection | free-up-my-mac/free-up-my-mac/ViewModels/ScanViewModel.swift:110-116 | The selection becomes `Toggled`: `isFileSelected` of the id flips and `selectedFilesCount` moves by one in that direction. |
| ScanViewModels.ScanViewModel.IsFileSelected | free-up-my-mac/free-up-my-mac/ViewModels/ScanViewModel.swift:118-120 | No contract of its own: `ToggleFileSelection` states how it changes. |
| ScanViewModels.ScanViewModel.SelectedFilesCount | free-up-my-mac/free-up-my-mac/ViewModels/ScanViewModel.swift:67-69 | No contract of its own: `ToggleCount` and `ToggleFileSelection` state how it changes. |
| ScanViewModels.ScanViewModel.SelectAllDuplicates | free-up-my-mac/free-up-my-mac/ViewModels/ScanViewModel.swift:122-129 | The loop adds every non-first member's id and removes none. |
| ScanViewModels.ScanViewModel.InsertIds | free-up-my-mac/free-up-my-mac/ViewModels/ScanViewModel.swift:124-128 | The inner loop leaves every id it was given and adds exactly the ids of the files it walks. |
| ScanViewModels.ScanViewModel.DeselectAll | free-up-my-mac/free-up-my-mac/ViewModels/ScanViewModel.swift:131-133 | The selection is empty. |
| ScanViewModels.ScanViewModel.ScanSelectedFolders | free-up-my-mac/free-up-my-mac/ViewModels/ScanViewModel.swift:155-162 | The folder loop returns the concatenated scans or the first error. |
| ScanViewModels.ScanViewModel.StartScan | free-up-my-mac/free-up-my-mac/ViewModels/ScanViewModel.swift:137-208 | Runs only when a scan can start. A scan error or hash error sets the mapped state and progress. Otherwise the state is results, with the detector's groups and its last event. |
| ScanViewModels.ScanViewModel.ScanPhase | free-up-my-mac/free-up-my-mac/ViewModels/ScanViewModel.swift:141-191 | The scanning half of `startScan`, with its error mapping. |
| ScanViewModels.ScanViewModel.DetectDuplicates | free-up-my-mac/free-up-my-mac/ViewModels/ScanViewModel.swift:166-203 | The detection half: the run is as `findDuplicates` promises, and the state follows its outcome. |
| ScanViewModels.ScanViewModel.RunDetector | free-up-my-mac/free-up-my-mac/ViewModels/ScanViewModel.swift:166-171 | A fresh default detector (threshold 8192, a fresh hasher with the default configuration) runs `findDuplicates` with every promise of `Reported`. |
| ScanViewModels.ScanViewModel.CancelScan | free-up-my-mac/free-up-my-mac/ViewModels/ScanViewModel.swift:210-217 | Idle with cancelled progress, and the scanner, detector and hasher all flagged. |
| ScanViewModels.ScanViewModel.ResetToIdle | free-up-my-mac/free-up-my-mac/ViewModels/ScanViewModel.swift:219-225 | Idle, no groups, selection or files, idle progress; the folders stay. |
| ScanViewModels.ScanViewModel.CollectSelected | free-up-my-mac/free-up-my-mac/ViewModels/ScanViewModel.swift:236-241 | The loop collects exactly the selected group members, group by group. |
| ScanViewModels.ScanViewModel.TrashSelectedFiles | free-up-my-mac/free-up-my-mac/ViewModels/ScanViewModel.swift:230-302 | Nothing selected or collected: (0, 0, []) and no change. Otherwise the result matches the outcome, the trashed members are removed, groups below two files are dropped, the selection is cleared and the result is shown. |
| ScanViewModels.ScanViewModel.MoveToTrash | free-up-my-mac/free-up-my-mac/ViewModels/ScanViewModel.swift:251-274 | The `do`/`catch` records exactly the result `TrashResultOf` describes. |
| ScanViewModels.ScanViewModel.RemoveTrashed | free-up-my-mac/free-up-my-mac/ViewModels/ScanViewModel.swift:282-284 | Every group loses its trashed members in place. |
| History.EmptyHistory | free-up-my-mac/free-up-my-mac/Services/HistoryManager.swift:15-20 | No sessions and zero totals. |
| History.LoadIsRead | free-up-my-mac/free-up-my-mac/Services/HistoryManager.swift:121-140 | A cache that mirrors the file is invisible: loading returns what reading the file returns. |
| History.StatsOf | free-up-my-mac/free-up-my-mac/Services/HistoryManager.swift:76-83 | The stats are the history's three totals. |
| History.FirstIndexOf | free-up-my-mac/free-up-my-mac/Services/HistoryManager.swift:90 | The index found has the id and no earlier session has it; none is found only when no session has it. |
| History.FirstIndexUnique | free-up-my-mac/free-up-my-mac/Services/HistoryManager.swift:90 | The first position holding the id is the one found. |
| History.Clamp | free-up-my-mac/free-up-my-mac/Services/HistoryManager.swift:99-101 | Never negative, never below its argument, and the identity on non-negative values. |
| History.SaveKeepsLedger | free-up-my-mac/free-up-my-mac/Services/HistoryManager.swift:55-67 | The saved session comes first, the older ones follow in order, and consistent totals stay consistent. |
| History.DeleteUnknownChangesNothing | free-up-my-mac/free-up-my-mac/Services/HistoryManager.swift:86-105 | Deleting an id no session carries changes nothing. |
| History.DeleteRemovesFirstMatch | free-up-my-mac/free-up-my-mac/Services/HistoryManager.swift:86-105 | Only the first matching session goes, the others keep their order, and the totals stay non-negative. |
| History.DeleteKeepsLedger | free-up-my-mac/free-up-my-mac/Services/HistoryManager.swift:86-105 | With non-negative sessions, deleting keeps the totals equal to the sums over the sessions. |
| History.LedgerStaysConsistent | free-up-my-mac/free-up-my-mac/Services/HistoryManager.swift:55-110 | Any sequence of save, delete and clear with non-negative sessions keeps the ledger consistent. |
| History.LedgerFromEmpty | free-up-my-mac/free-up-my-mac/Services/HistoryManager.swift:55-110 | From the empty history the totals are the sums over the sessions, and the session total is their number. |
| History.HistoryManager.constructor | free-up-my-mac/free-up-my-mac/Services/HistoryManager.swift:40-43 | Nothing is cached. |
| History.HistoryManager.LoadHistoryFile | free-up-my-mac/free-up-my-mac/Services/HistoryManager.swift:121-140 | Returns the cached history if present, else reads the file (empty when there is none); the cache becomes `LoadedCache`, so a decoded file is cached; a cache that mirrored the file still does. |
| History.LoadedCache | free-up-my-mac/free-up-my-mac/Services/HistoryManager.swift:121-140 | A filled cache is kept; otherwise a decoded file is cached and nothing else is; whatever it holds is what the load returned. |
| History.HistoryManager.WriteHistoryFile | free-up-my-mac/free-up-my-mac/Services/HistoryManager.swift:143-160 | A write puts the history in the file and then the cache, or fails and changes nothing. |
| History.HistoryManager.SaveSession | free-up-my-mac/free-up-my-mac/Services/HistoryManager.swift:55-67 | Succeeds iff the load (the cache, else the file) succeeds and the write does; the file and then the cache hold the loaded history with the session in front and the totals updated; on failure the file is unchanged and the cache is what the load left. |
| History.HistoryManager.LoadSessions | free-up-my-mac/free-up-my-mac/Services/HistoryManager.swift:70-73 | The sessions the load (the cache, else the file) gives, or the read error; the cache is what the load leaves. |
| History.HistoryManager.LoadStats | free-up-my-mac/free-up-my-mac/Services/HistoryManager.swift:76-83 | The totals the load (the cache, else the file) gives, as stats, or the read error; the cache is what the load leaves. |
| History.HistoryManager.DeleteSession | free-up-my-mac/free-up-my-mac/Services/HistoryManager.swift:86-105 | On the loaded history (the cache, else the file): an unknown id writes nothing; otherwise the first match is removed, its figures are subtracted, the totals are clamped at 0, and the file and the cache hold the result when the write succeeds. Without a write, the cache is what the load left. |
| History.HistoryManager.FindSession | free-up-my-mac/free-up-my-mac/Services/HistoryManager.swift:90 | The linear search finds the first matching index. |
| History.HistoryManager.ClearHistory | free-up-my-mac/free-up-my-mac/Services/HistoryManager.swift:108-110 | The file and the cache hold the empty history, or the write fails and neither changes. |
| History.HistoryManager.InvalidateCache | free-up-my-mac/free-up-my-mac/Services/HistoryManager.swift:112-116 | The cache is empty, so the next load returns what reading the file returns, whatever another instance wrote to it. |
| History.HistoryManager.OtherInstanceWrites | free-up-my-mac/free-up-my-mac/Services/HistoryManager.swift:112-113 | Another instance's write: the file changes and this manager's cache does not. |
| History.CacheHidesFile | free-up-my-mac/free-up-my-mac/Services/HistoryManager.swift:121-125 | With a filled cache, loading gives the cached history whatever the file holds. |
| History.StaleSaveLosesOtherWrites | free-up-my-mac/free-up-my-mac/Services/HistoryManager.swift:55-67 | With a stale cache, a session another instance saved is missing from the history this save writes. |
| History.InvalidatedSaveKeepsOtherWrites | free-up-my-mac/free-up-my-mac/Services/HistoryManager.swift:112-116 | After `invalidateCache`, a save writes the session in front of every session the file held. |
| HistoryViewModels.Without | free-up-my-mac/free-up-my-mac/ViewModels/HistoryViewModel.swift:44 | Exactly the sessions with another id remain. |
| HistoryViewModels.WithoutAppend | free-up-my-mac/free-up-my-mac/ViewModels/HistoryViewModel.swift:44 | Removal filters each part of a concatenation, so the rest keep their order. |
| HistoryViewModels.WithoutUnknown | free-up-my-mac/free-up-my-mac/ViewModels/HistoryViewModel.swift:44 | An unknown id removes nothing. |
| HistoryViewModels.WithoutUniqueId | free-up-my-mac/free-up-my-mac/ViewModels/HistoryViewModel.swift:44 | When ids are unique, removing a present one removes exactly one session. |
| HistoryViewModels.HistoryViewModel.constructor | free-up-my-mac/free-up-my-mac/ViewModels/HistoryViewModel.swift:17-20 | No sessions, and stats equal to `.empty`. |
| HistoryViewModels.HistoryViewModel.LoadSessions | free-up-my-mac/free-up-my-mac/ViewModels/HistoryViewModel.swift:24-28 | The sessions are left as they are. |
| HistoryViewModels.HistoryViewModel.LoadStats | free-up-my-mac/free-up-my-mac/ViewModels/HistoryViewModel.swift:30-34 | The stats are those of the sessions. |
| HistoryViewModels.HistoryViewModel.Refresh | free-up-my-mac/free-up-my-mac/ViewModels/HistoryViewModel.swift:36-39 | The same after a refresh. |
| HistoryViewModels.HistoryViewModel.DeleteSession | free-up-my-mac/free-up-my-mac/ViewModels/HistoryViewModel.swift:43-50 | Every session with the id goes, and the stats become those of the remaining sessions. |
| HistoryViewModels.HistoryViewModel.ClearHistory | free-up-my-mac/free-up-my-mac/ViewModels/HistoryViewModel.swift:52-57 | No sessions, and `.empty` stats. |
| HistoryViewModels.HistoryViewModel.ComputeStatsFromSessions | free-up-my-mac/free-up-my-mac/ViewModels/HistoryViewModel.swift:80-88 | The loop of `add` gives the summed files and bytes and the session count. |

## Left out

- Paths.Lowercased: only the ASCII letters A–Z are lowercased, where Swift's `lowercased()` lowercases every cased Unicode letter. So `Paths.LowercasedExtension` (and with it `ScannedFiles.ScannedFile.FileExtension`) and `Filters.FileFilters.ShouldIncludeFile` differ from the source on extensions with other letters: an excluded "jpég" rejects `photo.JPÉG` in the source but not in the model.
- Paths.Lowercased: strings compare as sequences of code points, not by Swift's canonical equivalence. This affects the `excludedExtensions` and `excludedDirectoryNames` lookups: a precomposed and a decomposed "é" are the same name to Swift but different here.
- Concurrency: actors, task groups and cross-actor calls run sequentially. Within a chunk, results may arrive in any order. Progress callbacks are taken to arrive in the order they are made.
- `Task.yield()` points are modelled only as the places where a scheduled cancel can arrive.
- Cancellation schedules allow one `cancel()` per run; a later reset followed by another cancel is not modelled.
- XXH64 is the parameter `digest`. Feeding the hasher chunk by chunk is taken to equal digesting the whole content.
- `FileManager`, `FileHandle`, the directory enumerator and `resourceValues` are replaced by the file map, the entry list and `Root`.
  - A resource flag the system leaves `nil` reads as false.
  - Packages appear without their contents, since the enumerator skips package descendants.
- FileOperationService.swift and ShareService.swift are not part of this model: their methods are not implemented. The outcome of `moveToTrash` is an input (`TrashOutcome`), including the `partialFailure` case the view model matches. `revealInFinder` and `openFile` are left out for the same reason.
- ScannedFiles.ScannedFile.FileName, `DirectoryPath` and `FileExtension`, and SkippedFiles.SkippedFile.FileName and `DirectoryPath`, apply the `Paths` function of the same meaning to the file's URL and carry no contract of their own; the rows of `Paths.LastPathComponent`, `Paths.DirectoryPath` and `Paths.LowercasedExtension` state them.
- History.HistoryManager.OtherInstanceWrites is not a member of the source. It stands for another `HistoryManager` writing the same file, which the comment at HistoryManager.swift:112-113 allows for. Such a write lands between two calls of this manager; one landing inside a call, between its load and its write, is not modelled.
- JSON encoding and decoding (`Codable`, ISO 8601 dates, the "spaceSaved" key) are left out. The history file is the `Disk` value, and a corrupt file reads as `Unreadable`.
- UUIDs and dates are opaque parameters.
- `elapsedTime` depends on the clock and is left out.
- Floating point: the progress ratios are reals, not `Double`.
- `ByteFormatter`, `formatDate` and `formatBytes` are presentation code and are left out, as are the Views, `ContentView`, the app entry point and `MockDataProvider`.
- Int64 overflow is not modelled. Sizes and totals are unbounded, assuming files are small enough that `size * count` and the running sums never trap.
- The identifiers of `SkippedFile` and `DuplicateGroup` are fresh `UUID()`s. They are dropped, because no promise depends on them.
- Dictionary grouping returns buckets in first-occurrence order. Swift's dictionary order is unspecified, and no promise depends on it.
- DuplicateDetector.SortBySavings: the sort is an insertion sort. Swift's `sorted` is not promised stable; so the model proves order and permutation only, not which equal-savings order results.
- DuplicateDetector.PartialKey: the "size-partialHash" key with "none" for a missing hash is modelled by its meaning. `HashKeyInjective` shows the key is injective. A real partial hash can never be "none", because a hash is always 16 hex digits.
- `rebuildSizeGroups` is the same dictionary loop as `groupBySize` and is modelled by `GroupBySize`.
- FileHasher.FileHasherService.ProcessBatch requires `maxConcurrentOperations > 0`, because `stride(by: 0)` traps.
- FileHasher.Process maps a `cancelled` failure to a skip, where the source's task rethrows it (FileHasherService.swift:149) and aborts the batch; the `case .cancelled` arm at lines 158-160 is dead. So `FileHasher.ProcessOutcome`, and `FileHasher.FileHasherService.ProcessBatch` with it, do not describe the source for a transform that returns `cancelled`. Neither hashing closure does (`HashTransformsNeverCancel`), so the difference is unreachable.
- ScanViewModels.ScanViewModel.StartScan does not model the final generic `catch`. The scanner and detector throw only `ScanError` and `HashError`, so it cannot be reached.
- The way `startScan` records scanner progress events is left out. Only its state after each outcome is modelled.
- HistoryViewModel's `deleteSession` removes every session with the id, while HistoryManager's removes only the first. The model follows each as written.
- `CleanupSessions.CleanupSession.WasSuccessful` and `ScanViewModels.ScanViewModel.CanStartScan` are stated by their definitions alone. Those match CleanupSession.swift:92-94 and ScanViewModel.swift:63-65, and no lemma is about them. `CanStartScan` is used only as `StartScan`'s guard.
- `isActive`, `ScanResult`'s totals and the view model's totals are predicates and functions without their own `ensures`. Their content is proved in `ActivePhases`, `TotalsOfValidGroups` and `SelectAllSavesPotential`.
- The `errors` and `skippedFiles` defaults of `ScanResult` are defaults of the datatype and need no proof.
- The model follows the code where its tests disagree:
  - `FileFilters.default` has minimum size 1, not 1024;
  - there is no `systemPaths`;
  - `shouldTraverseDirectory` looks only at the last component, so `/Library/Preferences` is traversed and `~/Library` is not (`DefaultTraversalExamples`);
  - the scanner drops unreadable entries without recording them.
- ScanViewModels.ScanViewModel.DetectDuplicates: the source does not compile at ScanViewModel.swift:170. There the `DetectionResult` returned by `findDuplicates` (DuplicateDetectorService.swift:9-12 and 36) is assigned to `duplicateGroups: [DuplicateGroup]` (ScanViewModel.swift:33). The model takes the result's `duplicateGroups`, and the detector's `skippedFiles` are discarded.

## Findings

| source | as written | input that shows it | evidently intended | confidence | as-written member | corrected member |
|---|---|---|---|---|---|---|
| free-up-my-mac/free-up-my-mac/Services/FileHasherService.swift:220 | `max(0, UInt64(file.size) - UInt64(partialHashSize))` subtracts in unsigned arithmetic before `max` applies, so it traps when the file is smaller than `partialHashSize` | a hasher with `partialHashSize` 16384 and the default `smallFileThreshold` 8192, given a 10000-byte file: it takes the partial path (10000 > 8192) and 10000 − 16384 underflows | the trailing sample starts at offset 0, so the digest covers the whole file | not executed | FileHasher.LastOffsetAsWritten (with FileHasher.LastOffsetTrapWitness) | FileHasher.LastOffset (with FileHasher.PartialInputSamplesEnds; FileHasher.LastOffsetSafeUnderThreshold shows the defaults never trap) |
