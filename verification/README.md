# Verified model of Eva-CLI's restore, credential and admission cores

This project models, in Dafny, the parts of Eva-CLI whose correctness does not show in any single function, and
proves properties of them over all inputs, all runs or all interleavings. It needs nothing but Dafny 4.11:
`dafny verify dfyconfig.toml`. Nothing was executed.

## What is modelled

**Transactional restore.** The forward engine runs Copy, Delete and Replace steps over a tree and writes a log; the
rollback engine reads that text back, derives candidates, looks at the current contents and restores bytes from a
parsed backup archive. The tree is a map from path to bytes and every file-system call may fail (`RestoreDisk`). The
engines are methods over a mutable disk (`RestoreEngine`, `RestoreRollback`), equal to recursive functions about which
the undo theorems are proved. `RestoreForward` says exactly when a run commits its steps and what tree it leaves,
`RestoreLogReader` and `BackupReader` what the two parsers make of any text. `RestoreBackup.BackupThenRollback` ties
everything together: backup text, log text, both engines, one conclusion about every file.

**Credential lifecycle.** Any number of callers with permits, release workers and drains, interleaved at the
granularity of the source's locks (`Lifecycle`). Ownership of every lease is followed through the lease map, release
tasks, worker threads and callers' hands. `LifecycleMaps` has the map updates as the code performs them.
`LifecycleProgress` says exactly when the lifecycle can still be drained, and `CredentialDrain` exactly when a drain,
which also asks the session registry and the finalizer, can still return Ok.

**Credential finalizer.** The background thread, which may die, with its channel, queue, workers, guards and per-scope
counters (`Finalizer`), where counter updates of callers interleave with those of the thread between any two of its local
changes. `FinalizerLoop` has the loops as the code runs them and shows that they are runs of the state machine;
`FinalizerProgress` says exactly when scopes can still be drained.

**Release intent.** Retiring a drained provider writes an intent, releases a reservation and marks the intent resolved;
reconciliation replays what a crash left. Expiry, successors, reservations made meanwhile, I/O errors at every call and
the commits of other writers are parameters; a compare-and-set succeeds exactly if the version has not moved
(`ReleaseReconcile`).

**Admission and restarts.** Fixed-window rate limit, circuit breaker, their composition in one acquire with the
sessions that are out, pending or recovered (`Admission`), backoff and the restart loop.

**Encodings and hashing.** The transaction log, the archive text, the canonical plan payload, the signed manifest text,
the length-prefixed digest material, and SHA-256 against FIPS 180-4.

## Where a plausible property is false

* Rollback that reports success need not restore the tree. It does if and only if no committed Copy that is the first
  step on its file overwrote one, and a failing Replace that is the first step on its file found it as planned
  (`RestoreUndo.UndoExactly`). Two families of failing inputs, for every digest and all contents, are
  `RestoreTheorem.FailedReplaceCreatesAFile` and `RestoreTheorem.CopyOverUnseenFileIsLost`. The second arises because
  `Path::exists` answers false when its metadata call fails.
* Rollback may refuse the log that its own engine wrote after a mutation: exactly if a step that the run reached has a
  line break in its path, which the validator lets through and the log sanitises (`RestoreTheorem.OwnLogAccepted`,
  `RestoreTheorem.BrokenPathIsRefused`).
* A drain cannot always be brought to an Ok. It can if and only if the registry can shut down every session it has and no
  session of the finalizer's scope is lost, quarantined or dependent on a dead thread, or a drain that has already found
  the finalizer clear finds nothing left (`CredentialDrain.OkExactly`). So an Ok does not mean that no session is doomed
  (`CredentialDrain.DoomedAfterTheLook`).
* A reconciliation that returns Ok may leave an intent: exactly if another writer committed between the mark's read and its
  commit and nobody on the way marked it (`ReleaseReconcile.ReconciledLeavesNoIntent`); `ReleaseReconcile.LostMark` is
  such a world. The reservation itself is gone, and the next reconciliation tries again.
* The rate limiter bounds every interval of a window's length by its limit if and only if the limit is at most one or the
  window at most one millisecond (`RateLimit.SlidingBoundExactly`). Otherwise twice the limit less one is the sharp bound
  (`RateLimit.IntervalLimit`, `RateLimit.IntervalLimitIsReached`).
* The signature does not bind the encryption key id of every manifest: exactly those whose signed names are the pair none
  and none can be confused with one that names another key or none (`SealedArchive.SignatureBindsKeyIdExactly`,
  `SealedArchive.EncryptionNamedNone`). The algorithm name that sealing writes is never part of that pair.
* The comment on probing says that only one half-open probe is allowed after the recovery window. A second one can be
  granted before the first ends if and only if another execution of the adapter was out or pending, another process may
  leave one pending, or the probe may be restarted (`Admission.SecondProbeExactly`; `Admission.TwoProbesAreOut` is such a
  run). What holds of every run is that two probe permits have a completion between them
  (`CircuitBreaker.ProbesAreSeparated`).
* An open circuit need not get a new probe: a permit is kept when a later check refuses (`Admission.BurntExactly`). Fresh
  acquires of the adapter are then refused for good if and only if none of its executions is out or pending and no other
  process leaves one pending (`Admission.BurntShutsOutExactly`); a session that recovery left pending is resumed past the
  circuit and frees it (`Admission.PendingSessionFrees`).

## Hypotheses

* Restore: the digest does not collide on the contents of the run and the archive (`NoCollision`); no step names a
  staging file `.eva-restore-N.tmp`; no step names the file of either engine's log, which are kept outside the modelled
  tree; plan id, root and hash have no line break, digests no line break or separator; the tree is not edited between
  the two engines, except in the results about edited trees.
* Lifecycle: the registry never issues a session number twice (it uses a checked counter,
  `crates/eva-mcp/src/lifecycle.rs:755-775`); a permit outlives the calls made with it, as Rust's borrowing rules enforce;
  the two maps have fewer than 2^64 names together.
* Finalizer: fewer than 2^64 sessions of one scope are outstanding at once; where drainability is stated, fewer than
  2^64 retries have been asked for.
* Release intent: a reservation id occurs at most once per session and is not made again by others. The code builds it
  from the session and a millisecond clock (`crates/eva-storage/src/provider_admission.rs:92-96`), so two reservations
  of one session in one millisecond would share it. Other writers of a record append to its audit trail and keep its
  adapter, as all code in the repository does and `ensure_immutable_identity` enforces for the adapter
  (`crates/eva-storage/src/provider_process.rs:1009-1032`).
* Admission: a fixed limit and configuration per adapter and a clock that does not go back, where a result says so.
* Digests as binding: the two texts compared do not collide. The text encoding is injective.

## Model

| member | source | states |
|---|---|---|
| `RestoreDisk.Disk.WriteAtomically` | crates/eva-backup/src/restore_apply.rs:2181-2218 | staged write then rename, as the in-place form of `AtomicWrite`, with any call allowed to fail |
| `RestoreDisk.Disk.ReplaceAtomically` | crates/eva-backup/src/restore_apply.rs:2233-2277 | staged write, removal of the old file, rename: not atomic; equal to `AtomicReplace` for every failure |
| `RestoreDisk.AtomicWriteEffect` | crates/eva-backup/src/restore_apply.rs:2181-2218 | a write either puts the bytes at the target or leaves every visible file alone |
| `RestoreDisk.AtomicReplaceEffect` | crates/eva-backup/src/restore_apply.rs:2233-2277 | a replace puts the new bytes, leaves the old ones, or leaves the target missing; no other visible file changes |
| `RestoreDisk.AtomicWriteSucceeds` | crates/eva-backup/src/restore_apply.rs:2181-2218 | a write succeeds when no call breaks, whatever stale staging file is there |
| `RestoreDisk.WriteLeavesNoStaging` | crates/eva-backup/src/restore_apply.rs:2181-2218 | a new staging file stays behind only after a broken write, or a broken rename whose clean-up broke too |
| `RestoreDisk.ReplaceLeavesNoStaging` | crates/eva-backup/src/restore_apply.rs:2233-2277 | the same for a replace, or if the old file could not be removed |
| `RestorePlan.AcceptedPathStaysBelow` | crates/eva-backup/src/restore_apply.rs:1298-1336 | every component of an accepted path is a plain name: none is empty, `.` or `..`, and none has a separator, a drive colon or a zero character |
| `RestoreApply.CheckedStep` | crates/eva-backup/src/restore_apply.rs:1485-1534 | the in-place step engine equals `ApplyStep`: same branches, same errors, same tree after every failure |
| `RestoreApply.VerifiedTarget` | crates/eva-backup/src/restore_apply.rs:2145-2174 | the digest guard before Delete and Replace: missing, unreadable and mismatching targets are refused |
| `RestoreApply.ApplyStepEffect` | crates/eva-backup/src/restore_apply.rs:1485-1534 | what a step may do to the visible tree, by operation and result: only its own target, and only between the planned contents |
| `RestoreApply.ForwardShape` | crates/eva-backup/src/restore_apply.rs:933-993 | a run is committed steps followed by at most one failing step, the last one reached |
| `RestoreForward.SourceExactly` | crates/eva-backup/src/restore_apply.rs:2114-2143 | a step gets its bytes exactly if its artifact is there with its own and the planned digest |
| `RestoreForward.CopySeesFile` | crates/eva-backup/src/restore_apply.rs:1493-1504 | a Copy whose existence call works is refused as a conflict exactly if a file is there, with the tree left alone |
| `RestoreForward.StepExactly` | crates/eva-backup/src/restore_apply.rs:1485-1534 | without I/O failure a step commits exactly if it meets what it plans for, and then leaves the planned tree; else it changes nothing |
| `RestoreForward.TreeIsPlanned` | crates/eva-backup/src/restore_apply.rs:933-993 | for every plan, repeated paths included, and every I/O failure: the files after a run are those of its committed steps |
| `RestoreForward.ReachedExactly` | crates/eva-backup/src/restore_apply.rs:933-993 | without I/O failure a run gets to a step exactly if every step before it met its plan on the tree the earlier ones left |
| `RestoreForward.RunSucceedsExactly` | crates/eva-backup/src/restore_apply.rs:890-1009 | without I/O failure a run commits every step exactly if each meets its plan in turn, and then the tree is the planned one |
| `RestoreForward.CopiesFoundNothing` | crates/eva-backup/src/restore_apply.rs:1493-1504 | without I/O failure no committed Copy found a file at its target |
| `RestoreEngine.ApplyPlan` | crates/eva-backup/src/restore_apply.rs:890-1009 | the forward loop: final tree, report and log text are those of the recursive run, for every plan and every I/O failure |
| `RestoreEngine.ReportMeansRun` | crates/eva-backup/src/restore_apply.rs:933-1009 | `applied` exactly if every step was committed; how many were, which path failed, and whether anything was changed |
| `RestoreLog.RunEntriesTell` | crates/eva-backup/src/restore_apply.rs:933-993 | a run writes, for each step it reached, that it started and that it was committed with its digest or failed |
| `RestoreLog.Stable` | crates/eva-backup/src/restore_apply.rs:2362-2370 | sanitised values have no line break and no field separator, and a value without them is kept as it is |
| `RestoreLog.StableKeepsValid` | crates/eva-backup/src/restore_apply.rs:1298-1336 | a valid path is still one after sanitising, so the parser accepts what was logged |
| `RestoreLog.ParseTransactionLog` | crates/eva-backup/src/restore_apply.rs:1695-1762 | the parsing loop equals `ParseLog`, including every refusal |
| `RestoreLog.ReadStep` | crates/eva-backup/src/restore_apply.rs:1765-1803 | the reader of one step entry undoes its printer |
| `RestoreLog.LogRoundTrip` | crates/eva-backup/src/restore_apply.rs:1695-1803 | reading the log of any run back gives its plan id, hash, status, flag and ordered entries, paths and messages sanitised |
| `RestoreLog.RollbackCandidates` | crates/eva-backup/src/restore_apply.rs:1818-1860 | the candidate loop equals `Candidates`, including its refusals |
| `RestoreLog.CandidatesOfRun` | crates/eva-backup/src/restore_apply.rs:1818-1860 | read back from its own log, a run yields its committed steps reversed, after the failing step exactly if that is a Replace, if no step it reached has a line break in its path; else the log is refused |
| `RestoreLog.ExecutedHasCandidate` | crates/eva-backup/src/restore_apply.rs:1818-1860 | a run that mutated something always has a candidate to undo |
| `RestoreLogReader.ParseLogExactly` | crates/eva-backup/src/restore_apply.rs:1695-1803 | for every text: it reads as a log exactly if each line is readable and the four fields have a value; the last value of a field counts, and the entries are the step lines in order |
| `RestoreLogReader.AcceptedExactly` | crates/eva-backup/src/restore_apply.rs:1019-1088 | for every plan and every text: rollback goes ahead exactly if it is a log of this plan and preflight, of a run that failed after a mutation, whose entries all name steps of the plan and some of which can be undone; then it undoes those, the last first |
| `RestoreRollback.CheckedUndo` | crates/eva-backup/src/restore_apply.rs:1874-1936 | one undo in place equals `Undo`: same order of checks, same errors, same tree after every failure |
| `RestoreRollback.UndoLoop` | crates/eva-backup/src/restore_apply.rs:1090-1174 | the undo loop stops at the first failure and reports how many undos were completed |
| `RestoreRollback.RollbackApply` | crates/eva-backup/src/restore_apply.rs:1019-1175 | rollback from log text: refusals leave the tree alone, acceptance folds the undos of the candidates |
| `RestoreRollback.ReportMeansUndone` | crates/eva-backup/src/restore_apply.rs:1090-1174 | `rolled_back` is reported exactly if every candidate was undone, with their number; else the path of the first that was not, and how many were undone before it |
| `RestoreUndo.UndoInvertsStep` | crates/eva-backup/src/restore_apply.rs:1874-2028 | on any two trees that a step relates: undoing a committed step, or a failed Replace that found its target as planned, gives the tree before the step back |
| `RestoreUndo.UndoGivesBack` | crates/eva-backup/src/restore_apply.rs:1874-2028 | so in every run, for every step that met what its undo puts back, on the tree the step left |
| `RestoreUndo.UndoExactly` | crates/eva-backup/src/restore_apply.rs:1019-1175 | for every plan, repeated paths included, every tree and every I/O failure: a reported success restores the starting tree if and only if no committed Copy that is the first step on its file found a file there, and a failing Replace that is the first step on its file found it as planned |
| `RestoreUndo.FirstStepDecides` | crates/eva-backup/src/restore_apply.rs:1090-1174 | after a completed rollback a file is as before the run if and only if the first undone step on it had met what its undo puts back |
| `RestoreUndo.RollbackSucceedsExactly` | crates/eva-backup/src/restore_apply.rs:1019-1175 | with distinct paths, archived originals and no rollback I/O failure, rollback succeeds if and only if the failing Replace's target is missing or has a planned digest |
| `RestoreUndo.ForeignFilesKept` | crates/eva-backup/src/restore_apply.rs:1090-1174 | on an arbitrarily edited tree, a file with none of its steps' planned digests stays byte-identical |
| `RestoreUndo.StoppedRollbackIsAPrefix` | crates/eva-backup/src/restore_apply.rs:1090-1174 | on any tree, the result of a rollback is the fold of exactly `completed_steps` undos |
| `RestoreUndo.UndoAcceptsExactly` | crates/eva-backup/src/restore_apply.rs:1874-2028 | without I/O failure an undo succeeds exactly if the file it finds, and the archived one it needs, have the digests it looks for |
| `RestoreTheorem.OwnLogAccepted` | crates/eva-backup/src/restore_apply.rs:1019-1088 | for every run: rollback accepts the log it left, and derives its candidates, if and only if the run failed, mutated something and reached no step with a line break in its path; else, an applied run included, it is a conflict |
| `RestoreTheorem.OtherLogRefused` | crates/eva-backup/src/restore_apply.rs:1028-1046 | the log of a run of a plan with another id or another preflight hash is a conflict |
| `RestoreTheorem.ManifestTellsUndo` | crates/eva-backup/src/restore_apply.rs:1398-1414 | the action in the rollback manifest is what an undo that succeeds does: it deletes the restored file, or puts the file of the pre-restore digest back |
| `RestoreTheorem.BrokenPathIsRefused` | crates/eva-backup/src/restore_apply.rs:1298-1336 | for every digest and content, a plan of valid steps whose run deletes a file and whose own log rollback then refuses |
| `RestoreTheorem.NothingExecuted` | crates/eva-backup/src/restore_apply.rs:1019-1088 | a failed run that mutated nothing left the tree as it was, and rollback refuses its log |
| `RestoreTheorem.RollbackUndoesApply` | crates/eva-backup/src/restore_apply.rs:890-1175 | apply, then rollback from the log text, for repeated paths too: the log is accepted if and only if no path in it had a line break, and then `rolled_back` means the starting tree if and only if the run was restorable |
| `RestoreTheorem.FailedReplaceCreatesAFile` | crates/eva-backup/src/restore_apply.rs:1843-1850 | for every digest function and all contents, an input on which that condition fails for Replace: rollback reports success and creates a file that never existed |
| `RestoreTheorem.CopyOverUnseenFileIsLost` | crates/eva-backup/src/restore_apply.rs:1493-1504 | for every digest function, all contents and every archive, an input on which it fails for Copy: an existence probe that breaks lets a file be overwritten, and rollback deletes it |
| `RestoreBackup.BackupThenRollback` | crates/eva-backup/src/restore_apply.rs:890-1175 | from the text of a backup of the originals and the log text, rollback of any restorable run reports `rolled_back` and gives every file back |
| `RestoreBackup.DeletedFileComesBack` | crates/eva-backup/src/restore_apply.rs:890-1175 | for every digest and content its hypotheses are met by a run that has something to give back: a file is deleted, the next step fails, and rollback writes the file again from the backup |
| `RestoreBackup.BackupCovers` | crates/eva-backup/src/restore_apply.rs:1542-1675 | a parsed backup of the starting contents holds what the undo of every undone step needs |
| `BackupArchive.BackupArchivePayload` | crates/eva-backup/src/backup_service.rs:301-319 | the printing loop equals `Payload` |
| `BackupArchive.ParsePreRestoreArchive` | crates/eva-backup/src/restore_apply.rs:1542-1610 | the line loop equals `ParseArchive`, including every refusal |
| `BackupArchive.ParsedArchiveIsHonest` | crates/eva-backup/src/restore_apply.rs:1641-1674 | every parsed entry has the digest of its bytes and a valid path |
| `BackupArchive.LastEntriesPaths` | crates/eva-backup/src/restore_apply.rs:1542-1610 | the paths of the parsed archive are the paths of the plan |
| `BackupArchive.LastEntryWins` | crates/eva-backup/src/restore_apply.rs:1542-1610 | a repeated path keeps its last entry |
| `BackupArchive.ArchiveRoundTrip` | crates/eva-backup/src/backup_service.rs:301-319 | parsing the printed payload returns exactly each path's last entry, with bytes, digest and redacted flag |
| `BackupReader.ParseArchiveExactly` | crates/eva-backup/src/restore_apply.rs:1542-1675 | for every text: it reads as an archive exactly if it starts with the format's name, every further line is readable and every entry has a valid path and as many bytes as its size says; and what it then holds |
| `Octets.HexEncode` | crates/eva-backup/src/backup_service.rs:322-328 | the loop prints two lower-case digits a byte |
| `Octets.HexDecode` | crates/eva-backup/src/restore_apply.rs:2057-2081 | the loop equals `HexDecoded`: odd length and foreign characters are refused |
| `Octets.HexRoundTrip` | crates/eva-backup/src/restore_apply.rs:2057-2081 | decoding the encoding of any bytes returns them |
| `Octets.HexDecodedExactly` | crates/eva-backup/src/restore_apply.rs:2057-2081 | a text decodes exactly if it is digit pairs, of either case, to the bytes that print as its lower-case form |
| `Preflight.StagePlan` | crates/eva-backup/src/restore_apply.rs:835-879 | the planner's loop: affected paths, rollback manifest and preflight hash, or the refusal of the target root |
| `Preflight.CanonicalPayload` | crates/eva-backup/src/restore_apply.rs:1416-1459 | the appended payload text is the canonical one |
| `Preflight.AffectedPathsMeaning` | crates/eva-backup/src/restore_apply.rs:837-844 | affected paths are the paths of the steps, sorted, each once |
| `Preflight.PayloadBindsPlan` | crates/eva-backup/src/restore_apply.rs:1416-1459 | two plans of valid steps without line breaks have the same payload only if they agree on plan id, root, both artifact ids and the ordered steps; digests may contain the separator |
| `Preflight.PreflightHashBindsPlan` | crates/eva-backup/src/restore_apply.rs:845-853 | with a digest that does not collide on the two payloads, equal hashes and equal plans are the same thing |
| `Preflight.PayloadTells` | crates/eva-backup/src/restore_apply.rs:1416-1459 | the payload names every affected path and, for each step, how it is undone |
| `SealedArchive.XorWithKeyInvolution` | crates/eva-backup/src/archive.rs:496-514 | unsealing with the sealing key undoes the sealing, for all bytes and keys |
| `SealedArchive.SignArchive` | crates/eva-backup/src/archive.rs:447-490 | the growing payload ends as the canonical signed text |
| `SealedArchive.SealedOpens` | crates/eva-backup/src/archive.rs:275-363 | a sealed record opens to its plaintext with its key, and its signature verifies |
| `SealedArchive.SealRecords` | crates/eva-backup/src/archive.rs:275-323 | what the manifest of a sealed archive records: both digests, whether and with which key id it is encrypted, and the remote target |
| `SealedArchive.StreamIsDigests` | crates/eva-backup/src/archive.rs:496-514 | the key stream is the digest texts of the seeds of block 0, 1 and so on, one after the other |
| `SealedArchive.SeedBindsBlock` | crates/eva-backup/src/archive.rs:496-514 | no two blocks of one key have the same seed |
| `SealedArchive.StreamsDiffer` | crates/eva-backup/src/archive.rs:496-514 | two keys of one id and different secrets have different streams, already in the first block, short of a collision |
| `SealedArchive.WrongSecretIsRefused` | crates/eva-backup/src/archive.rs:325-363 | an archive of at least one block does not open with a key of the same id and another secret, short of a collision |
| `SealedArchive.VerifiesWithItsKeyOnly` | crates/eva-backup/src/archive.rs:371-414 | a manifest signed with one key verifies with another if and only if they are the same key, id and secret, short of a collision |
| `SealedArchive.AcceptedMeans` | crates/eva-backup/src/archive.rs:371-414 | a manifest is accepted with a key exactly if it has the archive format and the signature that the key gives its fields |
| `SealedArchive.SealedNeedsKey` | crates/eva-backup/src/archive.rs:325-363 | without the key, or with a key of another id, opening is refused |
| `SealedArchive.SealedOpensToNothingElse` | crates/eva-backup/src/archive.rs:325-363 | whatever record and key are brought, a sealed manifest opens to nothing but its plaintext, short of a digest collision |
| `SealedArchive.SignatureBindsManifest` | crates/eva-backup/src/archive.rs:371-414 | two manifests accepted with one key have the same signature value if and only if they agree on artifact key, both checksums, encryption names and remote target |
| `SealedArchive.NamesBindKeyIdExactly` | crates/eva-backup/src/archive.rs:458-466 | the signed names of a manifest fix its encryption key id, among all manifests, if and only if they are not the pair none and none |
| `SealedArchive.SignatureBindsKeyIdExactly` | crates/eva-backup/src/archive.rs:371-414 | short of a collision, the signature value of an accepted manifest binds its encryption key id among all manifests accepted with the same key, if and only if its signed names are not the pair none and none |
| `SealedArchive.OwnAlgorithmBindsKeyId` | crates/eva-backup/src/archive.rs:458-466 | among manifests with the code's own algorithm name the signed names and the encryption key ids say the same |
| `SealedArchive.EncryptionNamedNone` | crates/eva-backup/src/archive.rs:458-466 | the failing pair: an encryption and a key called `none` sign like no encryption |
| `Sha256.Sha256Digest` | crates/eva-core/src/digest.rs:21-41 | the whole digest equals the recursive definition of FIPS 180-4 |
| `Sha256Example.AbcDigest` | crates/eva-core/src/digest.rs:5-86 | the worked example of FIPS 180-4: the digest of "abc", through all 64 rounds, which fixes every constant, rotation and shift |
| `Sha256.Pad` | crates/eva-core/src/digest.rs:22-29 | the padding loop computes section 5.1.1 of FIPS 180-4 |
| `Sha256.PaddedLength` | crates/eva-core/src/digest.rs:22-29 | the padding is a multiple of 64 bytes |
| `Sha256.ZeroBytesIsLeast` | crates/eva-core/src/digest.rs:25-28 | it uses the least number of zero bytes |
| `Sha256.PaddingInjective` | crates/eva-core/src/digest.rs:22-29 | below 2^61 bytes no two messages are padded alike |
| `Sha256.FoldBlocks` | crates/eva-core/src/digest.rs:30-34 | the block loop folds the compression over the blocks |
| `Sha256.Compress` | crates/eva-core/src/digest.rs:44-86 | the in-place compression equals section 6.2.2 of FIPS 180-4 |
| `Sha256.FillFirstWords` | crates/eva-core/src/digest.rs:47-49 | the first sixteen words are the block, big-endian |
| `Sha256.FillOtherWords` | crates/eva-core/src/digest.rs:50-59 | the other words follow the schedule recurrence |
| `Sha256.RunRounds` | crates/eva-core/src/digest.rs:60-81 | the eight rotating variables compute 64 recursive rounds |
| `Sha256.AddInPlace` | crates/eva-core/src/digest.rs:83-85 | the working variables are added into the state, modulo 2^32 |
| `LifecycleSteps.RunKeeps` | crates/eva-adapter/src/supervisor.rs:398-1075 | the lifecycle invariant holds after every sequence of steps of callers, workers and drains |
| `LifecycleSteps.CompleteShape` | crates/eva-adapter/src/supervisor.rs:828-931 | a wait that ends finds its own registered task with one ended worker and an outcome; the error branches for a lost owner are unreachable |
| `LifecycleSteps.CallMeansOpen` | crates/eva-adapter/src/supervisor.rs:597-615 | while a call is under way no drain has seen zero operations |
| `LifecycleTheorem.ExactlyOneOwner` | crates/eva-adapter/src/supervisor.rs:398-547 | in every interleaving a handed lease is in exactly one of the lease map, one task or one caller's hands, or released and owned by nobody; it is never dropped unreleased |
| `LifecycleTheorem.OwnersDiffer` | crates/eva-adapter/src/supervisor.rs:398-547 | no two places ever have the same lease |
| `LifecycleTheorem.LaunchedOnce` | crates/eva-adapter/src/supervisor.rs:734-826 | no task is launched twice, and a starting worker always finds its lease |
| `LifecycleTheorem.VaultOnce` | crates/eva-adapter/src/credential_vault.rs:1222-1241 | a vault session is successfully released at most once although asking the vault and recording the answer are two steps; it was released once if and only if that is recorded or one worker is about to record it |
| `LifecycleTheorem.NobodyElseAsks` | crates/eva-adapter/src/supervisor.rs:734-826 | between a success and its record no other worker can ask the vault about that lease |
| `LifecycleTheorem.CompletionReturnsOwner` | crates/eva-adapter/src/supervisor.rs:828-931 | a failed release puts its lease back under the name it had; a successful one lets go of a released lease |
| `LifecycleTheorem.CounterIsPermits` | crates/eva-adapter/src/supervisor.rs:563-577 | the gate counter is the number of live permits, so its decrement never saturates |
| `LifecycleTheorem.ClosedForGood` | crates/eva-adapter/src/supervisor.rs:1035-1060 | once a drain has closed admission it stays closed, a timed-out drain included, and nobody is admitted |
| `LifecycleTheorem.ZeroForGood` | crates/eva-adapter/src/supervisor.rs:1035-1060 | once a drain has seen zero under the gate, no permit and no call exists then or ever again |
| `LifecycleTheorem.DrainOkIsFinal` | crates/eva-adapter/src/supervisor.rs:933-1015 | a drain may return Ok only in states after which, in every later state, both maps, the registry and the permits are empty and every lease ever handed over is released, exactly once |
| `LifecycleTheorem.DrainRemembersFailure` | crates/eva-adapter/src/supervisor.rs:933-1015 | from collecting its work to its end, over any interleaving, a drain remembers exactly whether the registry kept a session or one of its own steps went wrong, and then it cannot answer Ok |
| `LifecycleTheorem.CollectedFailure` | crates/eva-adapter/src/supervisor.rs:933-972 | it starts with a failure exactly if the registry still has a session |
| `LifecycleTheorem.AskedExactly` | crates/eva-adapter/src/supervisor.rs:734-826 | the vault is called exactly by a worker that is in time and whose lease is not known to be released; what the worker answers |
| `LifecycleProgress.StillDrainable` | crates/eva-adapter/src/supervisor.rs:933-1015 | from every state after a drain has seen zero operations, whatever releases and drains failed since, if the registry can shut down its sessions then some continuation brings the lifecycle to where a drain may return Ok |
| `LifecycleProgress.StubbornStays` | crates/eva-mcp/src/lifecycle.rs:1091-1180 | a session that the registry cannot shut down stays and keeps every later drain from an Ok |
| `LifecycleProgress.DrainableExactly` | crates/eva-adapter/src/supervisor.rs:933-1015 | so after any run: the lifecycle's part of a later Ok is possible if and only if the registry can shut down every session it has |
| `CredentialDrain.OkExactly` | crates/eva-adapter/src/supervisor.rs:933-1015 | lifecycle, registry and finalizer together, the look at the finalizer before the last look at the maps: after any run and from any time on, on a clock that does not go back, a drain can return Ok if and only if one that has looked now finds nothing left, or the registry can shut down every session it has and no session of the finalizer's scope is doomed |
| `CredentialDrain.DoomedAfterTheLook` | crates/eva-adapter/src/supervisor.rs:973-981 | for every session a run in which it is doomed after the look at the finalizer, and the drain returns Ok |
| `CredentialDrain.LookedStays` | crates/eva-adapter/src/supervisor.rs:973-981 | between the two looks nothing but the drain's end changes what the last look will find |
| `LifecycleProgress.NothingLeft` | crates/eva-adapter/src/supervisor.rs:994-1004 | a drain that missed nothing and has worked off its lists finds both maps empty |
| `LifecycleMaps.LifecycleState.RegisterStartingSession` | crates/eva-adapter/src/supervisor.rs:399-423 | a session is registered, or its refused credentials become a detached task |
| `LifecycleMaps.LifecycleState.PrepareRelease` | crates/eva-adapter/src/supervisor.rs:446-455 | the lease moves from the map into a new task, or its absence is an error |
| `LifecycleMaps.LifecycleState.PrepareDetached` | crates/eva-adapter/src/supervisor.rs:457-473 | the loop uses the next number that no lease and no task has, wrapping around at 2^64 |
| `LifecycleMaps.AllTaken` | crates/eva-adapter/src/supervisor.rs:457-473 | that loop ends: it could find no free number only if the maps had 2^64 names |
| `LifecycleMaps.LifecycleState.PrepareOwner` | crates/eva-adapter/src/supervisor.rs:475-508 | a pending task is entered under the name |
| `LifecycleMaps.LifecycleState.PrepareCompleted` | crates/eva-adapter/src/supervisor.rs:510-520 | every listed session that the registry no longer has is retaken in turn |
| `LifecycleMaps.PreparedExactly` | crates/eva-adapter/src/supervisor.rs:510-520 | then the lease map is the old one restricted to the registry, every other lease is in a new pending task under its own name, and nothing else has changed |
| `LifecycleMaps.PrepareCompletedIsARun` | crates/eva-adapter/src/supervisor.rs:510-520 | it is a run of the machine's steps of that name, each possible when it comes |
| `LifecycleMaps.LifecycleState.ReleaseWork` | crates/eva-adapter/src/supervisor.rs:522-546 | tasks are split, in order, into those without and those with a worker handle |
| `LifecycleMaps.WithHandleMeaning` | crates/eva-adapter/src/supervisor.rs:522-546 | each list has exactly the registered tasks of its kind |
| `LifecycleMaps.CollectOnMaps` | crates/eva-adapter/src/supervisor.rs:522-546 | the state machine's collection finds the same two lists |
| `LifecycleMaps.LifecycleState.Complete` | crates/eva-adapter/src/supervisor.rs:879-929 | the finished task is removed and its lease let go or put back |
| `LifecycleMaps.DetachOnMaps` | crates/eva-adapter/src/supervisor.rs:457-508 | the state machine's step does to the maps what the code does |
| `LifecycleMaps.ShutdownOnMaps` | crates/eva-adapter/src/supervisor.rs:437-455 | likewise for a shutdown |
| `LifecycleMaps.RegisterOnMaps` | crates/eva-adapter/src/supervisor.rs:399-423 | likewise for a registration |
| `LifecycleMaps.SettleOnMaps` | crates/eva-adapter/src/supervisor.rs:879-929 | likewise for a completion |
| `FinalizerConservation.CountersAreReal` | crates/eva-adapter/src/credential_vault.rs:521-689 | in every reachable state and for every scope the counters equal what is in callers' hands, channel, queue, workers, guards and quarantine |
| `FinalizerConservation.OutstandingIsTheSum` | crates/eva-adapter/src/credential_vault.rs:446-451 | outstanding is pending plus running plus quarantined, always |
| `FinalizerConservation.NothingSaturates` | crates/eva-adapter/src/credential_vault.rs:677-689 | no counter that a step decrements is zero and none that it increments is full |
| `FinalizerConservation.SessionsAreConserved` | crates/eva-adapter/src/credential_vault.rs:521-725 | every deferred session is in as many places as it was deferred: none lost, none doubled |
| `FinalizerConservation.NothingOutstandingMeansReleased` | crates/eva-adapter/src/credential_vault.rs:776-834 | a drain that sees nothing outstanding in its scope: no guard is left and every session counted there is released |
| `FinalizerRetry.AttemptsAreBounded` | crates/eva-adapter/src/credential_vault.rs:564-636 | over any run a session is attempted at most once plus once per retry command of its scope, at strictly growing epochs |
| `FinalizerRetry.RetryNeedsNewerEpoch` | crates/eva-adapter/src/credential_vault.rs:569-584 | a further attempt starts only at an epoch newer than all before it and before that epoch's deadline |
| `FinalizerRetry.AtMostFourWorkers` | crates/eva-adapter/src/credential_vault.rs:577-580 | at most four workers run at once, the one just spawned included |
| `FinalizerProgress.ClearableExactly` | crates/eva-adapter/src/credential_vault.rs:776-834 | after any run and from any time on, on a clock that does not go back, some scopes can still be drained to zero together if and only if none of them has a doomed session: one lost or quarantined, or any that still needed the thread when it died; a fresh retry with a vault that answers clears the rest, also after the deadline of an earlier one |
| `FinalizerProgress.StillClearable` | crates/eva-adapter/src/credential_vault.rs:521-689 | the continuation that clears one scope at one moment, from any sound state, and keeps the others sound and the clear ones clear |
| `FinalizerProgress.DoomedIsOutstanding` | crates/eva-adapter/src/credential_vault.rs:727-744 | a doomed session is outstanding in every later state |
| `FinalizerLoop.FinalizerThread.Apply` | crates/eva-adapter/src/credential_vault.rs:612-636 | a command is queued, or raises its scope's epoch and deadline |
| `FinalizerLoop.FinalizerThread.Reap` | crates/eva-adapter/src/credential_vault.rs:638-675 | the swap-remove loop equals `Reaped` |
| `FinalizerLoop.ReapedAll` | crates/eva-adapter/src/credential_vault.rs:638-675 | after reaping no finished worker is left |
| `FinalizerLoop.FinalizerThread.Pass` | crates/eva-adapter/src/credential_vault.rs:564-604 | the pass over the queue equals `Passed` |
| `FinalizerLoop.FinalizerThread.TakeTurn` | crates/eva-adapter/src/credential_vault.rs:566-603 | one turn: back into the queue, spawned and counted, or back because the spawn failed |
| `FinalizerLoop.FinalizerThread.UpdateProgress` | crates/eva-adapter/src/credential_vault.rs:677-689 | exactly the counters of one scope change |
| `FinalizerLoop.PassSplits` | crates/eva-adapter/src/credential_vault.rs:564-604 | a pass keeps the order of the sessions it does not start, moves the started ones to the workers in order, and loses none |
| `FinalizerLoop.PassBound` | crates/eva-adapter/src/credential_vault.rs:564-604 | a pass never exceeds four workers |
| `FinalizerLoop.PassStartsExactly` | crates/eva-adapter/src/credential_vault.rs:564-604 | a session is started exactly if it is its first attempt or a newer retry has not run out, a thread can be spawned, and fewer such sessions stand before it than places are free |
| `FinalizerLoop.TurnUsesEpoch` | crates/eva-adapter/src/credential_vault.rs:566-603 | a turn that tried a session, spawned or not, has used up the epoch for it |
| `FinalizerLoop.PassIsARun` | crates/eva-adapter/src/credential_vault.rs:564-604 | the pass is a run of the state machine |
| `FinalizerLoop.ReapIsARun` | crates/eva-adapter/src/credential_vault.rs:638-675 | so is reaping |
| `FinalizerLoop.DrainDeferred` | crates/eva-adapter/src/credential_vault.rs:776-834 | the wait answers Ok exactly if a look before the deadline sees nothing outstanding; the errors are a timeout or an unreachable finalizer |
| `ReleaseIntent.PendingReleaseIds` | crates/eva-adapter/src/supervisor.rs:2645-2663 | the loop over the audit trail equals `PendingIds` |
| `ReleaseIntent.PendingIdsMeaning` | crates/eva-adapter/src/supervisor.rs:2645-2663 | the pending ids are the intents without a resolution, each once |
| `ReleaseIntent.ReservationIdMeaning` | crates/eva-adapter/src/supervisor.rs:2632-2639 | the recorded reservation is that of the last entry with an id |
| `ReleaseIntent.CompareAndSetExactly` | crates/eva-storage/src/provider_process.rs:1036-1063 | a candidate is committed, one version on, exactly if no other writer came between its read and its commit |
| `ReleaseIntent.SecondCommitLoses` | crates/eva-storage/src/provider_process.rs:1036-1063 | of two candidates made from one read only the first is committed |
| `ReleaseIntent.MarkedOnce` | crates/eva-adapter/src/supervisor.rs:2053-2072 | a second mark of an intent changes nothing |
| `ReleaseIntent.LiveMeaning` | crates/eva-storage/src/provider_admission.rs:158-168 | a table snapshot keeps exactly the unexpired reservations |
| `ReleaseIntent.WithoutOwnedMeaning` | crates/eva-storage/src/provider_admission.rs:111-128 | `release_owned` removes one owned reservation and nothing else |
| `ReleaseReconcile.Supervisor.Retire` | crates/eva-adapter/src/supervisor.rs:1959-2019 | retiring an active record, with other writers before both commits and a cleanup before the release: world and answer are those of `AfterRetire`; a record that is gone or inactive changes nothing |
| `ReleaseReconcile.Supervisor.Reconcile` | crates/eva-adapter/src/supervisor.rs:2077-2119 | the nested loops equal `ReconcileAll`, stopped by the first error |
| `ReleaseReconcile.Supervisor.ReconcileIntent` | crates/eva-adapter/src/supervisor.rs:2083-2116 | one intent, with an error possible at every call |
| `ReleaseReconcile.Supervisor.ReleaseReservation` | crates/eva-adapter/src/supervisor.rs:2084-2099 | expired entries go, then the exact reservation if it is there |
| `ReleaseReconcile.Supervisor.NoteAndMark` | crates/eva-adapter/src/supervisor.rs:2104-2115 | a successor is noted once, and there a conflict is an error; then the intent is marked |
| `ReleaseReconcile.Supervisor.MarkResolved` | crates/eva-adapter/src/supervisor.rs:2053-2072 | the intent is marked once; a mark that meets another writer's commit is passed over |
| `ReleaseReconcile.Supervisor.Upsert` | crates/eva-storage/src/provider_process.rs:1036-1063 | a candidate is committed exactly if the version in the table is the one it was read with |
| `ReleaseReconcile.RecordEffect` | crates/eva-adapter/src/supervisor.rs:2053-2115 | handling an intent only appends to the trail: what other writers add, and the mark exactly if no other writer came before it |
| `ReleaseReconcile.OneSucceedsExactly` | crates/eva-adapter/src/supervisor.rs:2083-2116 | an intent is handled exactly if the table answers, its live reservation can be released, the record can be read and its commits go through; then a live successor has been noted |
| `ReleaseReconcile.LastPendingExactly` | crates/eva-adapter/src/supervisor.rs:2641-2663 | the check after a reconciliation is a conflict exactly if the intent is pending and was written last among the pending ones |
| `ReleaseReconcile.ReconciledLeavesNoIntent` | crates/eva-adapter/src/supervisor.rs:2077-2119 | one reconciliation that returns Ok, on any world and with any other writers: no intended reservation is left, and an intent stays unresolved if and only if another writer committed between the reading of its record and the mark and none of the writers on the way marked it |
| `ReleaseReconcile.LostMark` | crates/eva-adapter/src/supervisor.rs:2053-2072 | the world on which it stays: the reservation is gone, the answer is Ok, and the intent is still pending |
| `ReleaseReconcile.NoNewIntent` | crates/eva-adapter/src/supervisor.rs:2077-2119 | no intent appears that was not there and that no other writer wrote |
| `ReleaseReconcile.StoppedKeepsIntent` | crates/eva-adapter/src/supervisor.rs:2077-2119 | stopped anywhere, an intended reservation that is still there still has its intent, unless another writer marked it |
| `ReleaseReconcile.OthersAreKept` | crates/eva-adapter/src/supervisor.rs:2077-2119 | no other reservation is removed: successors of the session and other sessions are safe, whatever happens |
| `ReleaseRetire.AdmissionReleaseMeaning` | crates/eva-adapter/src/supervisor.rs:2021-2051 | a reservation to release is the recorded one and present; none means it is gone |
| `ReleaseRetire.AdmissionReleaseExactly` | crates/eva-adapter/src/supervisor.rs:2021-2051 | a reservation is to be released exactly if it is the recorded one and the session's only live one; none exactly if one is recorded and none lives; else a conflict |
| `ReleaseRetire.RetiredAudit` | crates/eva-adapter/src/supervisor.rs:1959-2000 | the terminal record is inactive, keeps its trail and adds the intent, if there is one, and the four retirement notes |
| `ReleaseRetire.CrashPoints` | crates/eva-adapter/src/supervisor.rs:1959-2019 | after a crash at any durable write, with other writers before both commits and others dropping what expires: a record that another writer changed first is as that writer left it; else the reservation is absent, or the record is active, or the intent is written; and nothing is released before its intent |
| `ReleaseRetire.RetireKeepsOthers` | crates/eva-adapter/src/supervisor.rs:1959-2019 | a retirement removes no other unexpired reservation |
| `ReleaseRetire.CrashThenReconcile` | crates/eva-adapter/src/supervisor.rs:1959-2119 | after a crash at any point behind an uncontested first commit and one successful reconciliation a retired provider holds no reservation, and its intent is resolved unless another writer came between the read and the commit of the mark or wrote it anew |
| `ReleaseRetire.RetireIsItsWrites` | crates/eva-adapter/src/supervisor.rs:1959-2019 | whoever else writes, the in-place retirement ends in the world of its last durable write, or where somebody dropped the reservation in what a reconciliation makes of it, with the answer that goes with it |
| `ReleaseRetire.RetireAnswers` | crates/eva-adapter/src/supervisor.rs:1959-2019 | what the answers mean: `Ok(false)` is exactly a commit that met another writer; with `Ok(true)` the reservation is gone, and where this call released it the intent is left exactly if another writer came before the mark and did not resolve it; where somebody else had dropped it, the intent is not left as the last one |
| `RateLimit.RateLimiter.AdmitRateLimit` | crates/eva-adapter/src/supervisor.rs:2487-2523 | the window update equals `Admit`; the saturating count never saturates |
| `RateLimit.WindowLimit` | crates/eva-adapter/src/supervisor.rs:2487-2523 | over any run with a non-decreasing clock and fixed limits every window admits at most its limit, for any number of interleaved adapters |
| `RateLimit.AdmittedExactly` | crates/eva-adapter/src/supervisor.rs:2487-2523 | after any run a call is admitted exactly if the limit is not zero and it opens a window or its window has room; without a limit it is admitted and not counted |
| `RateLimit.IntervalLimit` | crates/eva-adapter/src/supervisor.rs:2487-2523 | any interval as long as the window admits at most twice the limit less one |
| `RateLimit.IntervalLimitIsReached` | crates/eva-adapter/src/supervisor.rs:2487-2523 | that bound is reached for every positive limit and every window of at least two milliseconds |
| `RateLimit.SlidingBoundExactly` | crates/eva-adapter/src/supervisor.rs:2487-2523 | the limit bounds every interval of a window's length, over all runs, if and only if the limit is at most one or the window at most one millisecond |
| `RateLimit.RefusalCountsNothing` | crates/eva-adapter/src/supervisor.rs:2506-2520 | a refused call changes neither the count nor another adapter |
| `RateLimit.RetryAfterIsExact` | crates/eva-adapter/src/supervisor.rs:2507-2512 | with no call in between, a refused caller is admitted if and only if it waits the announced delay |
| `CircuitBreaker.Breaker.Admit` | crates/eva-adapter/src/supervisor.rs:2526-2565 | admission equals `AdmitCircuit` |
| `CircuitBreaker.Breaker.RecordOutcome` | crates/eva-adapter/src/supervisor.rs:2568-2598 | recording equals `Record` |
| `CircuitBreaker.CounterIsFailures` | crates/eva-adapter/src/supervisor.rs:2568-2598 | over any run the counter is the saturated number of failures since the last success |
| `CircuitBreaker.OpensExactly` | crates/eva-adapter/src/supervisor.rs:2586-2597 | a failure opens the circuit if and only if it is the probe's or the failures since the last success reach a positive threshold |
| `CircuitBreaker.OpenedExactly` | crates/eva-adapter/src/supervisor.rs:2526-2598 | over any run the circuit is open exactly if there was an opening failure since the last success, and since when |
| `CircuitBreaker.ProbingExactly` | crates/eva-adapter/src/supervisor.rs:2526-2598 | a probe is out exactly if one was granted since the last outcome |
| `CircuitBreaker.PermitExactly` | crates/eva-adapter/src/supervisor.rs:2526-2565 | what an acquire gets after any run, from the history alone: closed, the probe, or refused |
| `CircuitBreaker.SuccessCloses` | crates/eva-adapter/src/supervisor.rs:2568-2585 | right after a completed outcome every acquire at every time finds the circuit closed |
| `CircuitBreaker.RetryAfterIsExact` | crates/eva-adapter/src/supervisor.rs:2539-2556 | a refused caller gets the probe exactly if it waits the announced delay, unless a probe is out |
| `CircuitBreaker.OnlyConfiguredCount` | crates/eva-adapter/src/supervisor.rs:2526-2598 | an adapter without a configuration is let in and not counted |
| `CircuitBreaker.NoAcquireWhileOpen` | crates/eva-adapter/src/supervisor.rs:2539-2546 | from opening until the recovery window ends the circuit check, which every fresh acquire passes, refuses, unless the adapter succeeds in between |
| `CircuitBreaker.ProbesAreSeparated` | crates/eva-adapter/src/supervisor.rs:2542-2546 | between two probe permits of an adapter one of its executions ends |
| `CircuitBreaker.UnusedProbeShutsOut` | crates/eva-adapter/src/supervisor.rs:2542-2546 | a probe permit that no execution ends makes the circuit check refuse every fresh acquire of the adapter at every later time |
| `Admission.ProviderSupervisor.AcquireSlot` | crates/eva-adapter/src/supervisor.rs:2124-2243 | a session with a record is resumed past all checks, never as the probe, exactly if it is pending, due, reserved and stored; any other passes circuit, concurrency, rate and the stored record in this order, each refusal leaving behind what the earlier checks have changed |
| `Admission.ProviderSupervisor.CompleteSlot` | crates/eva-adapter/src/supervisor.rs:2246-2278 | an outcome goes to the circuit of the slot's adapter with the slot's own probe flag; the session ends or is pending |
| `Admission.ProviderSupervisor.PrepareRestart` | crates/eva-adapter/src/supervisor.rs:2329-2345 | the slot that waited goes on with its own probe flag once due, or its invocation ends and the record stays pending |
| `Admission.CircuitsAreHistory` | crates/eva-adapter/src/supervisor.rs:2124-2278 | over any run of acquires, outcomes, restarts and recoveries the circuits are those of the outcomes and fresh acquires they have seen |
| `Admission.FreshAcquireExactly` | crates/eva-adapter/src/supervisor.rs:2182-2243 | what a fresh acquire is answered after any run: behind a closed circuit, as the probe, or the first of circuit, concurrency, rate and storage that refuses; only a call that came to the rate limit counts |
| `Admission.SuccessLetsIn` | crates/eva-adapter/src/supervisor.rs:2246-2278 | after a successful outcome the circuit lets every fresh acquire of the adapter pass |
| `Admission.ResumedExactly` | crates/eva-adapter/src/supervisor.rs:2140-2181 | a session with a record is resumed exactly if it is pending for that adapter, due, reserved and stored: never as the probe, with circuits and windows untouched |
| `Admission.RestartCycle` | crates/eva-adapter/src/supervisor.rs:2246-2345 | a failed execution that is restarted by its waiting slot keeps its probe flag and has one restart fewer; before it is due it is left for an acquire |
| `Admission.OutcomesAreBounded` | crates/eva-adapter/src/supervisor.rs:2246-2345 | over any run a session has at most one outcome more than restarts were left |
| `Admission.FreshStartsWithinLimit` | crates/eva-adapter/src/supervisor.rs:2468-2484 | a fresh start leaves at most the concurrency limit active |
| `Admission.NoFreshStartWhileOpen` | crates/eva-adapter/src/supervisor.rs:2140-2188 | over any run of acquires, outcomes, restarts and recoveries without a success of the adapter, an acquire in the recovery window starts nothing: a fresh one is refused by the circuit, only a pending session is resumed |
| `Admission.BurntExactly` | crates/eva-adapter/src/supervisor.rs:2185-2188 | a probe permit is burnt if and only if the acquire is a fresh one, the circuit grants it the probe, and the concurrency, rate or storage step refuses |
| `Admission.BurntShutsOutExactly` | crates/eva-adapter/src/supervisor.rs:2185-2188 | a burnt permit shuts fresh acquires of the adapter out at every later time if and only if none of its executions is out or pending and no other process leaves one pending |
| `Admission.PendingSessionFrees` | crates/eva-adapter/src/supervisor.rs:2140-2181 | a burnt permit with no execution out that a recovered pending session frees |
| `Admission.AnotherPermitExactly` | crates/eva-adapter/src/supervisor.rs:2586-2587 | while a probe is out, a further probe permit can be granted before it ends if and only if some execution of the adapter that is out or pending can report an outcome, or another process may leave one pending |
| `Admission.SecondProbeExactly` | crates/eva-adapter/src/supervisor.rs:2526-2598 | a granted probe can be joined by another before it ends if and only if it may be restarted, another execution of its adapter was out or pending, or another process may leave one pending |
| `Admission.TwoProbesAreOut` | crates/eva-adapter/src/supervisor.rs:2586-2587 | a run of six calls after which two probes of one adapter are out |
| `Restart.Fnv1a64` | crates/eva-adapter/src/restart.rs:95-102 | the loop is the 64-bit FNV-1a recurrence with wrapping multiplication |
| `Restart.FnvOfA` | crates/eva-adapter/src/restart.rs:95-102 | the published FNV-1a values of the empty text and of "a" |
| `Restart.BackoffIsExponential` | crates/eva-adapter/src/restart.rs:69-74 | the saturating 64-bit code equals min(backoff * 2^(attempt - 1), 24 h) for every attempt |
| `Restart.DelayBounds` | crates/eva-adapter/src/restart.rs:48-85 | every delay is in 0..24 h, within max(1, a quarter) of that backoff, and consumes one attempt of the budget |
| `Restart.JitterReaches` | crates/eva-adapter/src/restart.rs:75-80 | every delay of that range is the delay of some hash |
| `Restart.MarkPendingExactly` | crates/eva-storage/src/provider_process.rs:308-321 | an attempt is recorded exactly if it is past those recorded and within the budget |
| `Restart.InvokeSupervised` | crates/eva-adapter/src/runtime.rs:514-682 | every invocation dispatches at most one plus the attempts left, once without restarts; it waits as decided before each restart, which only an eligible failure and answering supervisor calls lead to; and exactly when it is done or gives up |
| `DigestMaterial.PushCollection` | crates/eva-adapter/src/supervisor.rs:3018-3032 | the loop appends the count and every item |
| `DigestMaterial.PushField` | crates/eva-adapter/src/supervisor.rs:3012-3015 | name and value are appended, each with its length |
| `DigestMaterial.MaterialInjective` | crates/eva-adapter/src/supervisor.rs:3035-3038 | the length-prefixed material is uniquely decodable |
| `ManifestDigest.ComponentsInjective` | crates/eva-adapter/src/supervisor.rs:2815-3009 | the component list determines every bound field, argument boundaries and optional sections included |
| `ManifestDigest.MaterialBindsManifest` | crates/eva-adapter/src/supervisor.rs:2815-3009 | two manifests have the same material if and only if they agree on every field of the handle: secrets by their hashes, sets in any order, absent and empty texts identified |
| `ManifestDigest.MaterialIgnoresOrder` | crates/eva-adapter/src/supervisor.rs:2950-3006 | permuting capabilities, credential names or vault secrets does not change the material |
| `Ordering.SortOfPermutation` | crates/eva-adapter/src/supervisor.rs:2950-2997 | sorting forgets the order of its input |

## Left out

- Processes, signals, job objects and user switching (`process_backend.rs`); a termination is not modelled, only the
  retirement that follows it.
- In restore: symbolic links, canonicalisation, creation of directories, a path that is a prefix of another, fsync and
  lock files. Only read, write, remove, rename and the existence probe are kept, on whole paths.
- Runs of the forward engine in which appending to the log itself fails.
- The text of the rollback engine's own log, previews, audit strings that no later code reads, and the wording and
  context of errors; errors are their kinds.
- Decoding of archive bytes as UTF-8, and the digest guard on the archive record before parsing. Text encodings are
  parameters.
- Leases that clear local secrets, vault back ends, transports, HTTP and MCP wire handling, observability and the CLI.
- Real clocks, sleeps and condition variables: time is a parameter, a wait is a step that is possible when its condition
  holds. Whether a drain can still be completed is decided exactly; that it will be completed in time is not proved.
- Poisoned locks, except as a way for a wait to end.
- A finalizer thread that cannot be started: its sessions are leaked without being counted, and a drain has nothing to
  wait for. The model starts with the thread running.
- Provider concurrency limits across durable restarts and admission renewal threads.
- Lifecycle: the model lets a drain launch and wait in any order, of which the code's order is one.
- Admission.ProviderSupervisor.AcquireSlot: the reconciliation before it and a supervisor that is draining are left out; a request is compared with its record by the adapter only; reserving and storing are one step that may fail.
- Admission.ProviderSupervisor.CompleteSlot: the registration of a restarted process is not a step of its own; an outcome whose record cannot be read or stored is left out.
- Admission.ProviderSupervisor.PrepareRestart: an acquire that resumes a session takes it over, and the slot that waited with it before is not followed further.
- ReleaseReconcile.Supervisor.Retire: a supervisor without an admission table is not modelled, since it has nothing to release.
- ManifestDigest.MaterialBindsManifest: speaks about the material; the 64-bit hash of it can collide. The canonical spelling of the server transport is an input.
- Restart.InvokeSupervised: acquisition of the slot, the policy decision before the loop and the stored due time are left out.
- DigestMaterial.PushCollection: the straight-line pushes of `manifest_digest` around it are the function `ManifestDigest.Components`.
- The gate, generation, migration and release-snapshot code, the agent lifecycle and the adapter router: their claims can be read off single functions.
