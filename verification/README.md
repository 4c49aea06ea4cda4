# Verified model of the scanning device and five compact cores

The repository runs an inventory operation: a Raspberry scanner reads labels from a serial port, takes
a photo per accepted reading, keeps the aisle session on disk, exports it and uploads a package; a
backend authenticates users and consolidates counts seen in several video frames; scripts plan uploads
and nest translation keys. This project models that behaviour in Dafny and proves what every run keeps.

How the parts are laid out:

- `CaptureModel`, `CaptureObjects` - the critical sections of the capture service and its store, as
  functions on values and as classes proved to do the same; `CaptureSystem` - the step system: threads
  calling `record`, the photo worker, start/abort/finish (one at a time, as the HTTP layer serialises
  them), unserialised `mark_export_failed`, crashes and restarts, each process with or without a camera
  and a store; `CaptureInvariant`, `CaptureSteps`, `CaptureDiskSteps`, `CaptureWorkerSteps` - the
  invariant, event by event; `CaptureTheorems` - what follows for runs and for
  histories of processes; `CaptureOutcomes` - what each operation of the service achieves.
- `AtomicExport` - publishing the aisle text file without losing earlier ones.
- `LineFraming`, `ScannerSession` - the serial reader, and start/stop racing with the reader thread.
- `ScanSemantics`, `LocalCsvRows`, `CsvDocument`, `ExportCsv` - from photos to `results.csv` and back.
- `PackageFingerprint`, `SessionExport` - which photos a package takes, its fingerprint, and what
  capture guarantees to it; `PackageUpload` - preview, confirm and the frozen export identity;
  `PackageIdentity` - what a lost ZIP must be rebuilt from.
- `ProductLabels` - the D1 check character, the device's reader and the backend's printer.
- `RecognitionSnapshot`, `SnapshotJson`, `SnapshotMerge`, `PackageImport` - validating and merging offline
  configuration, and replacing the two stored files.
- `RefreshTokens`, `BatchPlanner`, `RobustStatistics`, `Consolidation`, `ConsolidateFrames`,
  `DottedKeys` - the compact cores; `Text`, `PhotoNames`, `Options`, `Sequences`, `Sorting`,
  `EffectLists` - shared.

Modelling choices. I/O outcomes, clock readings, uuid4 values, camera shots and backend answers are
parameters or events. A save or an upload that stops part-way leaves a prefix of its atomic writes, so a
crash inside one is a broken outcome followed by a crash. SHA-256 is injective (a digest stands for its
content, or hashing is an injective parameter). JSON is a lossless encoding. Integers are unbounded as in
Python; floats are reals; text is ASCII where case, blanks or digits matter.

Where a plausible claim is false the code is kept and the exact condition is proved: two reads that split
CR LF (`LineFraming.SplitCrLfAddsAnEmptyReading`, `EmptyReadingIff`), zero-size files
(`BatchPlanner.OptimalWithZerosIffSingles`, and for one list `PlanIsLazyIff` and `OptimalUnlessSpilled`),
formula neutralisation (`CsvDocument.NeutralizeCollidesIff`), a failed metadata write
(`CaptureTheorems.MatchKeptIffSaved`), a store without a camera (`AcceptedIsStoredIffCamera`), a repeated
scan of an item known by its code only (`LocalCsvRows.CodeOnlyKeptIff`), a CONFIRMED upload without a
package id (`PackageUpload.ConfirmedIsLeftIff`; by `RunKeeps` no run stores such a record, so this
concerns records put there by other means), a position line whose label has a bar in it
(`LocalCsvRows.PositionLineReadsBackIff`), consolidation thresholds
(`Consolidation.FallbackUnreachableIff`, `PhantomUnreachableIff`), leading dots and prefix keys
(`DottedKeys.RoundTripIff`), printed labels that the reader refuses
(`ProductLabels.PrintedIsRecognisedIff`: the printer lets a line break inside a code through, the
device's pattern does not), a blank code the other way round (`RecognisedIsPrintableIff`), and a package
import cut off between its two replacements (`PackageImport.TornIff`, `PowerLossTearsThePair`).

Where a comment and the code disagree the model follows the code: the docstring of the token refresh
(backend/src/auth/service.py:232-233) speaks of revoking all tokens of the admin on reuse, while the code
revokes those of the user the presented token belongs to.

## Model

| member | source | states |
|---|---|---|
| CaptureTheorems.RunKeepsInv | raspberry-scanner/capture.py:116-475 | every interleaving of record, put, worker, finish, mark, crash and restart keeps the capture invariant |
| CaptureTheorems.HistoryKeepsInv | raspberry-scanner/capture.py:63-114 | so does every history of processes, each configured with or without a camera and a store |
| CaptureTheorems.PipelineIsExact | raspberry-scanner/capture.py:184-261 | in-flight equals jobs not yet put plus queued plus held; without a fatal error every CAPTURING photo has a live job |
| CaptureTheorems.FinishedIsTerminal | raspberry-scanner/capture.py:273-325 | a FINISHED session, in memory or stored, has only terminal photos and no job; the last section of finish never sees a CAPTURING one |
| CaptureDiskSteps.GuardNeverFires | raspberry-scanner/capture.py:280-284 | at the lock of finish no photo is CAPTURING, so the guard cannot raise |
| CaptureTheorems.CountsAreConserved | raspberry-scanner/capture.py:190-209 | physical = rejected + F2-accepted, F2-accepted = not exportable + accepted, accepted = records, in memory and on disk |
| CaptureTheorems.RestartIsSafe | raspberry-scanner/capture.py:540-599 | after a crash anywhere, and whatever configuration restarts, a restored session has only terminal photos, each COMPLETE one with its file and digest, numbers exactly 1..n with n+1 next |
| CaptureTheorems.FinishedIsNeverRevived | raspberry-scanner/capture_session_store.py:182-213 | a session stored FINISHED or EXPORT_FAILED is never ACTIVE again, on disk or in any later process of any configuration |
| CaptureTheorems.ClosedStaysClosed | raspberry-scanner/capture_session_store.py:198-207 | no single event reopens a stored closed session |
| CaptureTheorems.RecordsMatchPhotos | raspberry-scanner/capture.py:208-231 | as long as no metadata write fails and no process records without photos, records and photos match one to one, in memory and on disk |
| CaptureTheorems.CamerasPhotographAll | raspberry-scanner/capture.py:208-213 | nothing is recorded without a photo as long as every process has camera and store |
| CaptureTheorems.MatchKeptIffSaved | raspberry-scanner/capture.py:241-258 | an accepted reading keeps the match exactly when its metadata is saved; otherwise one record is left without a photo and the fatal flag is up |
| CaptureTheorems.FatalMeansStranded | raspberry-scanner/capture.py:245-258 | whatever raises the fatal flag leaves the session open, not accepting, with records |
| CaptureTheorems.FatalIsPermanent | raspberry-scanner/capture.py:444-455 | until the process dies nothing is recorded and the session is never finished |
| CaptureTheorems.AcceptedIsStoredIffCamera | raspberry-scanner/capture.py:208-244 | with a store, an accepted reading is on disk at once exactly when there is a camera |
| CaptureOutcomes.FinishOutcome | raspberry-scanner/capture.py:280-325 | whenever finish reaches its last section the session becomes FINISHED exactly when there were no records or the file was written, EXPORT_FAILED otherwise; a save that works stores just that |
| CaptureOutcomes.FinishedHasItsFile | raspberry-scanner/capture.py:284-325 | in every history a FINISHED session with records, in memory or stored, has had its text file written with exactly these records |
| CaptureOutcomes.FinishGetsThrough | raspberry-scanner/capture.py:273-279 | with an idle pipeline a finish gets to its last section, having only stopped the recording, unless there is a fatal error |
| CaptureOutcomes.PointerNamesAStoredSession | raspberry-scanner/capture_session_store.py:198-213 | in every history the active pointer names a stored session |
| CaptureOutcomes.UpdateCompletes | raspberry-scanner/capture.py:408-442 | a photo whose shot was written becomes COMPLETE with its digest and size, alone among the photos, in memory and on disk if the save works |
| CaptureOutcomes.UpdateFails | raspberry-scanner/capture.py:408-442 | one whose file was removed becomes PHOTO_FAILED without digest |
| CaptureOutcomes.ReadingsAddUp | raspberry-scanner/capture.py:184-209 | between start and end of a session the counters and records are exactly the tallies and lines of the readings looked at |
| CaptureOutcomes.ReadingIsCaptured | raspberry-scanner/capture.py:184-262 | with camera and store and nothing failing an accepted reading ends as one more record and one more COMPLETE photo with its file, stored, the pipeline idle again |
| CaptureOutcomes.RestartResumes | raspberry-scanner/capture.py:540-599 | a restart resumes exactly the ACTIVE session that the active pointer leads to; a photo stays COMPLETE exactly when its file is there, and only files of unfinished photos are removed |
| CaptureInvariant.PersistEffect | raspberry-scanner/capture_session_store.py:198-213 | a save, whole or broken off, touches only its own session file and the active pointer, and what it can leave there |
| CaptureObjects.CaptureSessionStore.Save | raspberry-scanner/capture_session_store.py:198-207 | the two-step save does to the disk what the model says, for every outcome |
| CaptureObjects.CaptureService.constructor | raspberry-scanner/capture.py:63-114 | a new process is blank or the restored session |
| CaptureObjects.CaptureService.RestoreSession | raspberry-scanner/capture.py:540-599 | the restoring loop settles every photo and file as the model says |
| CaptureObjects.CaptureService.Photograph | raspberry-scanner/capture.py:210-258 | the new photo and its job, or everything taken back and the fatal flag |
| CaptureObjects.CaptureService.UpdatePhotoRecord | raspberry-scanner/capture.py:477-507 | the one photo settled, and saved |
| PhotoNames.NamesDiffer | raspberry-scanner/capture.py:698-701 | photos of different number never share a file name |
| PhotoNames.NamesAreDelimiterFree | raspberry-scanner/capture.py:698-701 | whatever the id, a photo name has neither package delimiter |
| PhotoNames.NamesArePlain | raspberry-scanner/capture.py:698-701 | a photo name has no slash and is neither dot name |
| AtomicExport.ExportDirectory.WriteAtomicPreservingExisting | raspberry-scanner/capture.py:750-793 | the numbering loop terminates; the old file is archived under the first free number and the new one published, or the call raises at any point in between |
| AtomicExport.HistoryIsKept | raspberry-scanner/capture.py:750-793 | over any interleaved exports of several aisles, each failing or cut short anywhere, the file is the aisle's latest export and the archive holds, under 1, 2, ..., exactly the exports listed |
| AtomicExport.EachIsArchived | raspberry-scanner/capture.py:750-793 | every superseded export is among them, older ones under lower numbers |
| AtomicExport.ArchivedInOrder | raspberry-scanner/capture.py:750-793 | when nothing is cut short, archive i is the i-th export |
| AtomicExport.NothingIsOverwritten | raspberry-scanner/capture.py:750-793 | publishing, cut short or not, never changes or drops an archived file and replaces a file only once it is archived |
| AtomicExport.ArchiveNamesDiffer | raspberry-scanner/capture.py:704-714 | archive names of different aisles or numbers never collide |
| LineFraming.SerialLineReader.Read | raspberry-scanner/scanner_service.py:73-96 | one read: not ready, end of file, overflow, or the framed readings and what stays buffered |
| LineFraming.SerialLineReader.TakeReadings | raspberry-scanner/scanner_service.py:84-96 | the framing loop over the buffer, with its delimiter-skipping inner loop |
| LineFraming.FramesAreRuns | raspberry-scanner/scanner_service.py:84-96 | one buffer gives exactly its delimiter-ended non-empty runs, plus one empty reading if it starts with a delimiter; the unended tail stays |
| LineFraming.StreamSplits | raspberry-scanner/scanner_service.py:73-96 | of an earlier stream only its unended tail matters to later readings |
| LineFraming.ChunkingDoesNotMatter | raspberry-scanner/scanner_service.py:73-96 | for any chunking without overflow the non-empty readings are the ended runs of the whole stream, in order, and the buffer its tail |
| LineFraming.EmptyReadingIff | raspberry-scanner/scanner_service.py:84-96 | a read adds an empty reading exactly when nothing was pending and the chunk starts with a delimiter, and at most one |
| LineFraming.SplitCrLfAddsAnEmptyReading | raspberry-scanner/scanner_service.py:84-96 | CR and LF in two reads give an empty reading that one read does not |
| LineFraming.NeverOverflowsIff | raspberry-scanner/scanner_service.py:77-82 | the check weighs tail plus chunk: every chunk fits exactly when the tail is at most 7168 bytes |
| LineFraming.OverflowIff | raspberry-scanner/scanner_service.py:73-96 | a read overflows exactly beyond 8192 bytes of tail plus chunk and then starts anew; no other read loses a byte |
| ScannerSession.Scanner.Record | raspberry-scanner/scanner_service.py:210-245 | all values numbered in order and the deque holding the last of them, or nothing |
| ScannerSession.RunKeepsInv | raspberry-scanner/scanner_service.py:104-245 | every interleaving of start, stop and reader-thread steps keeps the session invariant |
| ScannerSession.OneReaderThread | raspberry-scanner/scanner_service.py:134-136 | at most one reader thread is alive |
| ScannerSession.InstalledReaderIsCurrent | raspberry-scanner/scanner_service.py:139-149 | an installed reader's generation is the session's, with no stop since, and the state is connected |
| ScannerSession.NothingIsRecordedAfterAStop | raspberry-scanner/scanner_service.py:210-216 | a value is logged only if no stop came after its reader was installed |
| ScannerSession.CountIsExact | raspberry-scanner/scanner_service.py:217-230 | count is the number ever logged, numbered 1, 2, ..., and the readings are the last max_readings |
| ScannerSession.NoReaderLeaks | raspberry-scanner/scanner_service.py:165-202 | with threads and stops at rest, every reader opened is closed or installed |
| ScannerSession.StoppedStaysSilent | raspberry-scanner/scanner_service.py:139-149 | after a stop nothing is logged or installed until the next start |
| ScannerSession.StopSilences | raspberry-scanner/scanner_service.py:139-149 | a stop takes the reader out to be closed, and nothing is recorded or installed from then to the next start |
| ScannerSession.StartMakesWanted | raspberry-scanner/scanner_service.py:123-137 | a start makes a configured session wanted with a reader thread alive, in a new generation unless it was wanted already |
| ScannerSession.RecordedIff | raspberry-scanner/scanner_service.py:210-230 | what a thread read is logged, all and in order, exactly when its reader was installed by it in the present generation with no stop since |
| ScannerSession.ReaderReads | raspberry-scanner/scanner_service.py:151-202 | a thread of a wanted session without a reader opens one, installs it, and what it reads is logged |
| ScannerSession.FailedReadIsCleared | raspberry-scanner/scanner_service.py:190-201 | a failing read closes the reader, takes it out and leaves the session waiting for the next |
| ScanSemantics.BuiltIsWellMade | raspberry-scanner/scan_semantics.py:117-146 | semantics built from a decision hold a valid position only when classified POSITION |
| ScanSemantics.LegacyIsWellMade | raspberry-scanner/scan_semantics.py:221-235 | so do legacy semantics |
| ScanSemantics.BuiltKeepsItem | raspberry-scanner/scan_semantics.py:117-184 | the product read from a built snapshot is the one the decision recognised |
| ScanSemantics.BuiltKeepsPosition | raspberry-scanner/scan_semantics.py:129-146 | so is the position of a scan classified POSITION |
| LocalCsvRows.RunningPositionFromPhotos | raspberry-scanner/local_csv_rows.py:77-102 | the scanning loop with its break finds the position after the photos up to a number |
| LocalCsvRows.IncrementalIsFromScratch | raspberry-scanner/local_csv_rows.py:158-187 | the position the row loop carries equals the from-scratch one at every photo, and its fallback finds nothing |
| LocalCsvRows.OtherwiseTheyDiffer | raspberry-scanner/local_csv_rows.py:132-143 | with a position remembered for an ITEM the two differ |
| LocalCsvRows.PositionLineReadsBackIff | raspberry-scanner/local_csv_rows.py:66-74 | the line captured for a position reads back as its label and itself exactly when the label has no bar |
| LocalCsvRows.BuildLocalCsvRows | raspberry-scanner/local_csv_rows.py:146-284 | the row loop, its running variables and its two refusals, for all photo lists |
| LocalCsvRows.AddRow | raspberry-scanner/local_csv_rows.py:163-273 | one turn of the loop gives the photo's row and the running position and labels after it |
| LocalCsvRows.OneRowPerPhoto | raspberry-scanner/local_csv_rows.py:163-273 | at most one row per photo, in strictly increasing capture order |
| LocalCsvRows.LabelsExactlyOnce | raspberry-scanner/local_csv_rows.py:235-245 | the labels in product rows are exactly those the photos bear, each once and in the lowest-numbered photo bearing it |
| LocalCsvRows.UnlabelledIsNeverDropped | raspberry-scanner/local_csv_rows.py:238-245 | a product whose label is empty (a RAW scan or a parsed line) always has its row |
| LocalCsvRows.ProductRowKeptIff | raspberry-scanner/local_csv_rows.py:235-245 | a photo with a product keeps its row exactly when its label is empty or no lower-numbered photo bears it |
| LocalCsvRows.CodeOnlyKeptIff | raspberry-scanner/scan_semantics.py:149-184 | an item recognised by its code alone bears the code as label, so it keeps its row exactly when no lower-numbered photo bears that code |
| LocalCsvRows.RowsCarryThePosition | raspberry-scanner/local_csv_rows.py:182-203 | each product row carries the position in force at its photo |
| LocalCsvRows.ProductRowIs | raspberry-scanner/local_csv_rows.py:256-273 | each product row holds the id, number, time and product of its photo |
| LocalCsvRows.PositionRowIs | raspberry-scanner/local_csv_rows.py:215-233 | a position photo without product has a row with the position its line spells, or the one in force |
| LocalCsvRows.EmptyIff | raspberry-scanner/local_csv_rows.py:275-276 | PACKAGE_EXPORT_EMPTY exactly when no photo shows a position or a product |
| LocalCsvRows.BuiltIff | raspberry-scanner/local_csv_rows.py:277-284 | rows are built exactly when some photo bears a product with a label or a code |
| CsvDocument.BuildCsvDocument | raspberry-scanner/local_csv_rows.py:55-59 | the loops print the document |
| CsvDocument.NeutralizeIsSafe | raspberry-scanner/local_csv_rows.py:40-45 | no cell starts a formula; neutralising is idempotent |
| CsvDocument.NeutralizeCollidesIff | raspberry-scanner/local_csv_rows.py:40-45 | two values print alike exactly when equal or one is the other's quoted twin |
| CsvDocument.DocumentReadsBack | raspberry-scanner/local_csv_rows.py:48-59 | an RFC 4180 section 2 reader recovers header plus rows, 23 neutralised fields each |
| CsvDocument.DocumentsEqualIff | raspberry-scanner/local_csv_rows.py:55-59 | documents are equal exactly when the neutralised values are |
| CsvDocument.HeadersAreNames | raspberry-scanner/local_package_contract.py:10-34 | the 23 headers are plain names that print unquoted |
| ExportCsv.BuildResultsCsv | raspberry-scanner/local_csv_rows.py:146-299 | rows and document together: the text, or none when the rows are refused |
| ExportCsv.ReadingTheExport | raspberry-scanner/local_csv_rows.py:189-213 | reading the exported text gives the 23 columns of each row, in order, up to neutralisation |
| PackageFingerprint.SelectedIff | raspberry-scanner/session_package_export.py:176-205 | photos are accepted exactly when all COMPLETE with distinct ids and numbers; then all are selected, sorted |
| PackageFingerprint.ResolvePhotoAssets | raspberry-scanner/session_package_export.py:208-257 | every photo's file matches its recorded size and digest, or the first failing photo names the error |
| PackageFingerprint.ResolvedIff | raspberry-scanner/session_package_export.py:215-256 | a photo resolves exactly when its file is there, inside the directory, with the recorded digest and size |
| PackageFingerprint.PayloadIgnoresOrder | raspberry-scanner/session_package_export.py:89-113 | the hashed text does not depend on the order of the photo list |
| PackageFingerprint.PayloadSpelled | raspberry-scanner/session_package_export.py:59-113 | the hashed text, character by character |
| PackageFingerprint.LineDetermines | raspberry-scanner/session_package_export.py:59-79 | a descriptor line determines id, number, name, size and digest, even for an id with a colon |
| PackageFingerprint.PayloadsEqualIff | raspberry-scanner/session_package_export.py:82-114 | payloads are equal exactly when CSV checksum and photos are |
| PackageFingerprint.NamedIsPlain | raspberry-scanner/capture.py:698-701 | names made by the device meet the payload's condition |
| SessionExport.StoredSessionsExport | raspberry-scanner/session_package_export.py:190-257 | for a session stored in any history of capture processes the export refuses only photos not COMPLETE or files lost, never duplicates, mismatches or paths outside the session |
| PackageUpload.PackageUploadStore.EnsureSessionPackageExported | raspberry-scanner/session_package_upload.py:146-200 | effects and outcome of an export: reuse, locked recovery, refused identity, or the saved record |
| PackageUpload.PackageUploadStore.UploadSessionPackage | raspberry-scanner/session_package_upload.py:229-317 | effects and outcome of an upload, branch by branch |
| PackageUpload.PackageUploadStore.Confirm | raspberry-scanner/session_package_upload.py:287-317 | the confirm half |
| PackageUpload.PackageUploadStore.MarkRecordFailed | raspberry-scanner/session_package_upload.py:458-483 | FAILED is saved unless CONFIRMED is stored |
| PackageUpload.RunKeeps | raspberry-scanner/session_package_upload.py:137-317 | every run of attempts, each cut off anywhere, keeps the upload invariant and loses no record |
| PackageUpload.IdentityIsFrozen | raspberry-scanner/session_package_upload.py:163-193 | once a record exists, export id, export time, both checksums, inventory and aisle never change |
| PackageUpload.ConfirmOnlyAfterPreview | raspberry-scanner/session_package_upload.py:260-291 | confirm is sent only after a preview of that export and inventory was answered PREVIEWED; a stored CONFIRMED was answered CONFIRMED |
| PackageUpload.ConfirmedIsNeverLeft | raspberry-scanner/session_package_upload.py:241-251 | in every run a confirmed record is never touched again |
| PackageUpload.ConfirmedIsLeftIff | raspberry-scanner/session_package_upload.py:241-285 | an upload can move a record out of CONFIRMED exactly when it has no package id |
| PackageUpload.PreservingBranchIsUnreachable | raspberry-scanner/session_package_upload.py:325-357 | an export writes EXPORTED only, over nothing or over EXPORTED or FAILED |
| PackageUpload.UploadOnce | raspberry-scanner/session_package_upload.py:241-251 | after a success every later upload reports the same package as a duplicate and sends nothing |
| PackageUpload.UploadSucceedsIff | raspberry-scanner/session_package_upload.py:229-317 | an upload succeeds exactly on a record of that inventory that is confirmed, or has its ZIP and good answers to preview - unless previewed before - and confirm |
| PackageUpload.UploadDoes | raspberry-scanner/session_package_upload.py:253-317 | what it then sends, stores and answers |
| PackageUpload.RefusedUploadIsMarked | raspberry-scanner/session_package_upload.py:253-317 | a refused one leaves the record FAILED with the error reported |
| PackageUpload.FirstExport | raspberry-scanner/session_package_upload.py:146-200 | a first export succeeds exactly when the context is accepted and the package built and put in place, and stores an EXPORTED record of just that |
| PackageUpload.ContextAcceptedIff | raspberry-scanner/session_package_export.py:117-173 | a context is accepted exactly when not blank and the session's own |
| PackageUpload.RebuildIff | raspberry-scanner/session_package_upload.py:148-186 | a lost ZIP is rebuilt exactly before preview, in its context, with both checksums reproduced |
| PackageIdentity.SameChecksumsIff | raspberry-scanner/session_package_export.py:82-114 | both checksums are equal exactly when all rows agree cell by cell after neutralisation and the photos are the same |
| PackageIdentity.LostZipIsRebuiltIff | raspberry-scanner/session_package_upload.py:146-200 | after a first export and any attempts, a lost ZIP is rebuilt exactly before preview with the first export's sheet, device id included, and photos |
| PackageIdentity.SameSheetIffSameDevice | raspberry-scanner/local_csv_rows.py:189-213 | with the device id alone changed the sheet is the same exactly when both ids neutralise to the same cell |
| PackageIdentity.SelectedIsExportable | raspberry-scanner/session_package_export.py:176-258 | photos selected, resolved and named by the device meet the fingerprint's conditions |
| RefreshTokens.EveryRun | backend/src/auth/service.py:84-289 | in every run the table invariant holds (index and table agree, links are forward within a user), no token refreshes twice, and there are no more live tokens than logins |
| RefreshTokens.ChainFacts | backend/src/auth/service.py:112-119 | a replacement chain is acyclic, stays with one user, and only its last token can be unrevoked |
| RefreshTokens.ChainsAreDisjoint | backend/src/auth/service.py:227-277 | chains that meet share everything before |
| RefreshTokens.RefreshSucceedsIff | backend/src/auth/service.py:227-277 | a refresh succeeds exactly on an unexpired unrevoked token, which it revokes and links |
| RefreshTokens.ReuseRevokesEverything | backend/src/auth/service.py:227-277 | presenting an unexpired revoked token leaves its user no live token |
| RefreshTokens.NoLiveUntilLogin | backend/src/auth/service.py:195-289 | then none works until the next login |
| RefreshTokens.NothingIsForgotten | backend/src/auth/service.py:84-289 | no run drops a record, changes its user or expiry, or undoes a revocation |
| RefreshTokens.LoginIssues | backend/src/auth/service.py:84-99 | a login makes one token live, to be refreshed until its lifetime is over, and changes no other |
| RefreshTokens.LogoutRevokes | backend/src/auth/service.py:280-289 | a logout with a known token makes it unusable at all times and changes no other record; with an unknown one nothing |
| RefreshTokens.LogoutIsFinal | backend/src/auth/service.py:227-289 | in every run, no refresh with a token once logged out is ever answered with a new one |
| RefreshTokens.RefreshTokenRecord.Revoke | backend/src/auth/service.py:112-119 | the revocation time is set, and the replacement only when one is given |
| RefreshTokens.TokenRegistry.IssueRefreshToken | backend/src/auth/service.py:84-99 | the new record in table and index |
| RefreshTokens.TokenRegistry.FindRefreshRecord | backend/src/auth/service.py:102-109 | the record under the hash, if any |
| RefreshTokens.TokenRegistry.RevokeAllForUser | backend/src/auth/service.py:121-124 | the loop revokes all of that user's and nobody else's |
| RefreshTokens.TokenRegistry.RefreshSession | backend/src/auth/service.py:227-277 | the whole table and the answer |
| RefreshTokens.TokenRegistry.LogoutSession | backend/src/auth/service.py:280-289 | the whole table |
| BatchPlanner.CreateBatches | scripts/benchmark_bulk_upload_batching.py:17-39 | the loop computes the plan |
| BatchPlanner.PlanIsPartition | scripts/benchmark_bulk_upload_batching.py:17-39 | the batches concatenate to the input and each obeys the limits or is one oversized item |
| BatchPlanner.PlanIsOptimal | scripts/benchmark_bulk_upload_batching.py:17-39 | no order-preserving partition under the rule has fewer batches |
| BatchPlanner.CountMonotone | scripts/benchmark_bulk_upload_batching.py:17-39 | dropping items from the front never needs more batches |
| BatchPlanner.LazyIsOptimal | scripts/benchmark_bulk_upload_batching.py:17-39 | filling each batch as far as the rule allows is optimal, zero sizes included |
| BatchPlanner.PlanIsLazyIff | scripts/benchmark_bulk_upload_batching.py:17-39 | the plan is that optimal one exactly when no zero opens a batch after one closed at exactly max_bytes with room left |
| BatchPlanner.OptimalUnlessSpilled | scripts/benchmark_bulk_upload_batching.py:34-37 | a list without such a zero is planned optimally; any list is exactly when its plan is no longer than the optimal one |
| BatchPlanner.ZeroAfterFullBatch | scripts/benchmark_bulk_upload_batching.py:17-39 | a zero-size file after a full batch costs an extra batch |
| BatchPlanner.OptimalWithZerosIffSingles | scripts/benchmark_bulk_upload_batching.py:17-39 | with zero sizes allowed, greedy is optimal for all lists exactly when batches hold one file |
| RobustStatistics.MedianIsHalfway | backend/src/consolidate/consolidate.py:43-47 | the median of n numbers is halfway between those with the places (n-1)/2 and n/2 in their order |
| RobustStatistics.RankIsUnique | backend/src/consolidate/consolidate.py:43-47 | at most one value has a given place, so this determines the median |
| RobustStatistics.HalfAboveMedian | backend/src/consolidate/consolidate.py:43-47 | at most half of any list is below its median |
| RobustStatistics.MajorityHoldsMedian | backend/src/consolidate/consolidate.py:43-47 | the median lies where a strict majority lies, whatever the rest |
| RobustStatistics.HalfBelowMedian | backend/src/consolidate/consolidate.py:43-47 | at least half of any list is at most its median |
| RobustStatistics.MajorityZero | backend/src/consolidate/consolidate.py:43-47 | a non-negative list with median 0 is mostly 0 |
| Consolidation.HalfAreInliers | backend/src/consolidate/consolidate.py:134-152 | for thresholds of at least 1, half are inliers and no fallback is used; with MAD 0 a strict majority equals the median and is the inliers |
| Consolidation.ZeroMad | backend/src/consolidate/consolidate.py:138-145 | at any threshold, MAD 0 means a strict majority equals the median and is the inliers |
| Consolidation.InliersAreNear | backend/src/consolidate/consolidate.py:134-152 | when a strict majority of counts lies in [a, b], every inlier is within threshold times (b - a) of it |
| Consolidation.WildCountIsIgnored | backend/src/consolidate/consolidate.py:134-174 | counts 10, 11, 12 and a surer 100: the inliers are the first three, the estimate 10 |
| Consolidation.FallbackUnreachableIff | backend/src/consolidate/consolidate.py:139-152 | both fallbacks are dead exactly for thresholds of at least 1 |
| Consolidation.PhantomUnreachableIff | backend/src/consolidate/consolidate.py:193-198 | for every mad_threshold, the phantom filter never fires exactly when it asks for no positive confidence or for at most two inliers - one when the threshold is in [0, 1) |
| Consolidation.WeightedMode | backend/src/consolidate/consolidate.py:164-170 | the loops find the count of greatest weight, the first seen among equals |
| Consolidation.ModeIsObserved | backend/src/consolidate/consolidate.py:164-174 | the estimate is a count some inlier reported, and none weighs more |
| Consolidation.ModeIsUnique | backend/src/consolidate/consolidate.py:169-170 | the choice is determined |
| Consolidation.FirstsInOrder | backend/src/consolidate/consolidate.py:165-170 | ties and groups go by first appearance |
| ConsolidateFrames.GroupObservations | backend/src/consolidate/consolidate.py:99-118 | the three loops group every observation under its pallet and key, in order of first appearance |
| ConsolidateFrames.GroupHolds | backend/src/consolidate/consolidate.py:99-108 | a group holds exactly the counts and confidences some frame reports on that pallet for that key |
| ConsolidateFrames.ConsolidateProduct | backend/src/consolidate/consolidate.py:126-198 | one group's product with all its statistics, or none when the filter fires |
| ConsolidateFrames.ReportIsNearTheMajority | backend/src/consolidate/consolidate.py:126-198 | estimate and median of inliers stay within threshold times (b - a) of a majority in [a, b], and the MAD below b - a |
| ConsolidateFrames.Consolidate | backend/src/consolidate/consolidate.py:99-284 | one pallet per pallet seen, one product per key unless dropped |
| ConsolidateFrames.OneProductPerGroup | backend/src/consolidate/consolidate.py:123-271 | with settings that cannot drop, the defaults among them, every observed pallet and key gives exactly one product |
| ConsolidateFrames.ObservationsAreConserved | backend/src/consolidate/consolidate.py:99-271 | the products' observation counts add up to the observations in the frames |
| ProductLabels.CheckCharStep | raspberry-scanner/recognition.py:180-182 | the check character itself: '0' for nothing, and each character adds its worth times its position modulo 36 |
| ProductLabels.KnownLabel | raspberry-scanner/recognition.py:163-184 | one genuine label, read and printed, and the same label with a wrong check character refused |
| ProductLabels.SubstitutionUnnoticedIff | raspberry-scanner/recognition.py:180-182 | substituting at position p goes unnoticed exactly when 36 divides p times the difference |
| ProductLabels.SwapUnnoticedIff | raspberry-scanner/recognition.py:180-182 | swapping i < j goes unnoticed exactly when 36 divides (j - i) times the difference |
| ProductLabels.AdjacentSwapIsNoticed | raspberry-scanner/recognition.py:180-182 | swapping neighbours of different value always changes the check character |
| ProductLabels.CatchesAllIff | raspberry-scanner/recognition.py:180-182 | a position catches every substitution exactly when it is coprime to 36 |
| ProductLabels.PrintedIsRecognisedIff | backend/src/domain/product_labels/format.py:119-138 | the device reads back every printed label except exactly those with a line break in the code |
| ProductLabels.RecognisedIsPrintableIff | backend/src/domain/product_labels/format.py:119-138 | whatever the device takes as valid the backend prints, and the print reads the same, exactly unless the code is blank |
| ProductLabels.SwappedCodeIsRefused | raspberry-scanner/recognition.py:163-184 | a printed label with two neighbouring code characters of different value exchanged is refused |
| ProductLabels.WellFormedIsJudged | raspberry-scanner/recognition.py:163-184 | a text of D1 shape is judged by its check character alone |
| RecognitionSnapshot.ValidateSupplierConfiguration | raspberry-scanner/config/models.py:201-253 | the loops accept exactly the consistent configurations |
| SnapshotJson.SurvivesIff | raspberry-scanner/config/models.py:362-428 | a snapshot survives as_dict then from_dict exactly when it is valid |
| SnapshotJson.SnapshotFromIsValid | raspberry-scanner/config/models.py:369-417 | whatever from_dict returns is valid |
| RecognitionSnapshot.ExactlyOneProfile | raspberry-scanner/config/models.py:346-359 | a SUPPLIER source has exactly one profile of its kind, the one looked up |
| RecognitionSnapshot.MissingProfileIsUnreachable | raspberry-scanner/recognition.py:139-156 | with a validated snapshot the missing-profile branch is never taken |
| SnapshotMerge.MergeRecognitionSnapshots | raspberry-scanner/config/offline_package.py:178-198 | the merge loops and counters; added + updated = incoming clients |
| SnapshotMerge.MergeIsValid | raspberry-scanner/config/offline_package.py:178-198 | merging valid snapshots is valid, survives a round trip, is sorted with unique clients, the incoming one winning |
| SnapshotMerge.MergeIsAssociative | raspberry-scanner/config/offline_package.py:178-198 | merging is associative |
| SnapshotMerge.ImportTwice | raspberry-scanner/config/offline_package.py:178-198 | importing the same package again changes nothing |
| SnapshotMerge.IdempotentIff | raspberry-scanner/config/offline_package.py:191-197 | merging a snapshot with itself gives it back exactly when it is sorted under its computed revision |
| SnapshotMerge.CountsAddUp | raspberry-scanner/config/offline_package.py:182-191 | the stored clients grow by exactly the added ones |
| PackageImport.PackageFiles.AtomicReplacePair | raspberry-scanner/config/offline_package.py:224-260 | the two replacements with backup and rollback, for every way they can fail |
| PackageImport.ThreeOutcomes | raspberry-scanner/config/offline_package.py:224-260 | by the step that fails and the point of interruption: the old pair, the new pair, or the new snapshot beside the old catalog |
| PackageImport.TornIff | raspberry-scanner/config/offline_package.py:224-260 | the stored pair is neither the old nor the new one exactly when the import stops after the first replacement, or the second and the rollback both fail, and both documents change |
| PackageImport.PowerLossTearsThePair | raspberry-scanner/config/offline_package.py:249-258 | a first import interrupted between the replacements leaves a snapshot and no catalog |
| PackageImport.ReimportHeals | raspberry-scanner/config/offline_package.py:272-299 | wherever an import was cut off, importing the package again ends where one smooth import would have |
| PackageImport.RunKeepsSound | raspberry-scanner/config/offline_package.py:272-299 | over any imports, cut off or not, the stored snapshot stays valid and no client or inventory is lost |
| PackageImport.MergeCatalogDocuments | raspberry-scanner/config/inventory_catalog.py:223-253 | the two loops and their counters: the incoming entry wins, added and updated count the new and the known keys |
| PackageImport.ImportStoresThePackage | raspberry-scanner/config/offline_package.py:272-299 | a smooth import stores every inventory and context of the package as it is there and leaves every other one |
| PackageImport.LastWordIsStored | raspberry-scanner/config/offline_package.py:272-299 | over any imports, the last completed one that holds an inventory or context decides what is stored of it |
| PackageImport.LastClientIsStored | raspberry-scanner/config/offline_package.py:272-299 | and the last one that left its snapshot in place decides each client |
| DottedKeys.NestItems | frontend/scripts/generate_i18n.py:74-82 | the loop over the keys, raising where a leaf is in the way |
| DottedKeys.GetInsert | frontend/scripts/generate_i18n.py:76-81 | one key sets its path and overwrites what lay below it, nothing else |
| DottedKeys.InsertFailsIff | frontend/scripts/generate_i18n.py:79-81 | nesting raises exactly when a leaf lies on the way |
| DottedKeys.FlattenTop | frontend/scripts/generate_i18n.py:51-60 | the flat map holds exactly the leaves at their dotted paths |
| DottedKeys.RoundTripIff | frontend/scripts/generate_i18n.py:51-82 | nest then flatten gives the map back exactly when no key is a proper dotted prefix of another and none starts with a dot |
| DottedKeys.OrderDoesNotMatter | frontend/scripts/generate_i18n.py:74-82 | then the insertion order is irrelevant |
| DottedKeys.PrefixDependsOnOrder | frontend/scripts/generate_i18n.py:74-82 | with a prefix key, nest raises in one order and loses a key in the other |

## Left out

- HTTP routing, multipart, static pages, network clients, SQL repositories, settings, both UIs, operations scripts: plumbing and I/O.
- Camera, termios and select, JPEG and ZIP bytes, the text of JSON: a shot succeeds with bytes or fails; JSON is lossless.
- The confidence formula with exp and log (consolidate.py:176-191): a parameter, clamped as the code clamps it.
- Brand and product labels and the final display sort (consolidate.py:200-247, 273-282).
- ConsolidateFrames.ConsolidateProduct: the confidence formula and its three factors are a parameter, and labels are not modelled.
- ConsolidateFrames.Consolidate: the final sorts of products and pallets are for display and not modelled; order is that of first appearance.
- Unicode case mapping, Unicode digits and blanks: ASCII only. Floats and JSON fractions.
- Capture: error texts, timestamps and the selection fields of a session; the finish wait's timeout (finish passes none); temporary files of atomic writes; the text that finish hands to the export, which is represented by the records it is made of. A store, when configured, is the same directory for every process.
- ScannerSession.RunKeepsInv: liveness of start is not stated, because a start can meet a reader thread that has returned but is not yet gone, and then creates none.
- ScannerSession.Scanner.Record: the reading policy and the listener with its errors are not modelled; they do not touch the fields modelled.
- LineFraming.SerialLineReader.Read: UTF-8 decoding of a reading is left out; readings are bytes.
- AtomicExport.ExportDirectory.WriteAtomicPreservingExisting: temporary files left by a crash are not modelled, and a link or a replacement that took effect is durable.
- PackageFingerprint.ResolvePhotoAssets: resolving links and dot-dot is a parameter that says which names leave the session's directory.
- RefreshTokens.EveryRun: operations run one after another; the module takes no lock, so two simultaneous refreshes are not covered.
- RefreshTokens.TokenRegistry.RefreshSession: one clock reading per operation, where the code may take several; access tokens are not modelled.
- PackageUpload.IdentityIsFrozen: operations of one session are serialised by its lock, so a run is a sequence of attempts; that the checks of photos, assets and rows pass is a parameter of an attempt.
- PackageUpload.ConfirmOnlyAfterPreview: convergence after a lost confirm acknowledgement depends on the backend and is not stated.
- LocalCsvRows.BuildLocalCsvRows: parsing a legacy product label line is a parameter.
- DottedKeys.NestItems: the nested dictionaries are values rather than shared mutable objects; nest never aliases them.
- RecognitionSnapshot.MissingProfileIsUnreachable: what a supplier profile does with a reading and how the outcomes of the two kinds are combined (recognition.py:94-113, 229-316) are not modelled.
- PackageImport.ThreeOutcomes: catalog entries are opaque and the catalog's JSON form is not modelled; agreement of memory with disk when sync and import overlap is not stated, because the code does not guarantee it.
