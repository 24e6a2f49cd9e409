# Verified model of the development data plane

Dafny models of six components of the repository, with proofs of what each of them promises over all
inputs and all runs. `dafny verify dfyconfig.toml` checks everything; the files need nothing but Dafny.

| component | source | files |
|---|---|---|
| exec coordinator | `dev-agent/exec_worker.go` | `ExecRecords`, `ExecProtocol`, `ExecTheorems`, `ExecProvenance`, `ExecOwnership`, `ExecForeignResult`, `ExecForeignCommand`, `ExecDispatchRecord`, `ExecAnswers`, `ExecJourney`, `ExecCoordinator` |
| workspace revision store | `dev-agent/main.go`, `dev-agent/workspace.go`, `dev-agent/exec_server.go` | `WorkspaceDigest`, `WorkspaceModel`, `WorkspaceStore`, `WorkspaceAgent`, `WorkspaceFacts`, `WorkspaceRuns`, `WorkspaceEffects`, `WorkspaceFailures` |
| access-proxy caches | `accessproxy/proxy.go`, `accessproxy/bearer.go` | `ProxyCaches`, `AccessProxy`, `ProxyTheorems` |
| merge patch and immutable inputs | `mcpserver/update.go` | `JsonMerge`, `Immutability` |
| SimpleSchema printer and parser | `backend/kro/simpleschema.go`, `kro/schema.go` | `MarkerText`, `MarkerLines`, `SimpleSchema`, `SchemaMarkers`, `SchemaRoundTrip`, `SchemaExact`, `SchemaObjects` |
| sync routing, process cleanup | `apis/v1alpha1/template_validation.go`, `mcpserver/tools_dev.go`, `dev-agent/process_cleanup_linux.go` | `Routing`, `ProcessTree` |

`Collections` and `GoStrings` hold facts about sequences and the Go string functions used throughout.

## How the models are built

**Exec coordinator.** `ExecProtocol` is a labelled step relation over the durable records, the live
goroutines with their program counters, the holder of the mutation lock, the cancel functions and a log
of creations, flips to running, dispatches and crashes. Starts, polls, cancels, the steps of `run`,
crashes and recovery interleave freely. A write may fail without effect or after its effect (the rename
precedes the directory sync). Every creation numbers a new incarnation, because a session ID may be
started again once its record was collected. States said to be reached are the ends of runs
(`ExecForeignResult.ReachedByRun`). `ExecCoordinator` is the object itself, its directory loops
included; each handler and each critical section of `run` is proved to be one step of the
relation, and recovery a sequence of steps.

**Workspace store.** `WorkspaceAgent.Workspace` holds the files, the manifest and the checkpoints and
updates them file by file. Refused or half-done writes, what a reload hook leaves on disk and the
runtime's answers are parameters, so every contract holds for all of them. `WorkspaceRuns` composes the
methods' contracts into runs in which the files may also change between operations. SHA-256 is an
injective constructor; the manifest file is written by the agent only.

**Access proxy.** A step is one critical section of the proxy mutex; the hub's answers, the clock and the
random session values are parameters. The hash of a credential is any injective function into non-empty
hexadecimal strings. Durations wrap around like int64.

**Trees and schemas.** JSON objects are maps, and every loop over a Go map picks keys in any order.

## What does not hold, and exactly when it does

- *A session started again.* Once a record is collected its session ID may be started again while a
  goroutine of the old record is still there. That goroutine flips and runs whatever record lies under
  the session ID. So a finished and collected session's command can be sent under another request's
  record (`ExecForeignCommand.ForeignCommand`), and a record can end with a success nobody sent it for
  (`ExecForeignResult.ForeignResult`) or a cancellation meant for its predecessor
  (`ExecForeignCommand.ForeignCancel`). Still each record has at most one dispatch, and each start's
  command is sent at most once (`ExecOwnership.SentOncePerStart`). A dispatch sends the command of the very start that created its record if
  and only if the session had not been started again when the record was flipped to running
  (`ExecOwnership.DispatchOwn`); a goroutine records its outcome, whatever it is, in its own record if and
  only if the session was not started again since (`ExecOwnership.OwnOutcome`).
- *A cancel before the dispatch.* Nothing looks at the record between its flip and the sending of its
  command, so a cancel may come between them, and the canceled record may even be collected
  (`ExecDispatchRecord.UnrecordedDispatch`). At a dispatch the flipped record is still stored and running
  if and only if it was not canceled since (`ExecDispatchRecord.DispatchStored`).
- *The digest is ambiguous.* With NUL bytes in files, `path NUL bytes NUL` lets different workspaces share
  a digest (`WorkspaceDigest.DigestAmbiguous`, and with as many files `WorkspaceDigest.CountNotEnough`).
  Workspaces with one digest hold the same files if and only if they have the same paths with files of the
  same sizes, whatever the bytes (`WorkspaceDigest.DigestDetermines`). The repeated-sync shortcut
  (`WorkspaceRuns.RepeatSyncExact`), the "Unchanged" answer of mutate (`WorkspaceRuns.MutateExact`) and
  the admission of commands (`WorkspaceRuns.SameRevisionSameFiles`) are right under exactly that
  condition. `WorkspaceFailures.RepeatSyncShort` is a run in which the shortcut is wrong.
- *The manifest's temporary name.* A managed file called `.railgrid-workspace-manifest.json.tmp` is lost
  when the manifest is written; `WorkspaceFailures.TmpLost` is a sync answered 200 that loses it, and after a
  reload hook an authoritative sync of such a bundle fails
  (`WorkspaceAgent.Workspace.AuthoritativeSync`). The
  operation is exact if and only if no such file is among its files: for a full sync
  `WorkspaceRuns.FullSyncExact`, a plain sync `WorkspaceRuns.PlainExact`, a mutation
  `WorkspaceRuns.MutateExact`, a restore `WorkspaceRuns.RestoreAfterRun`.
- *Unreadable manifests.* A sync that wrote its manifest can be followed up if and only if its reload
  ran, or what it leaves to run is at most 32 commands of at most 4096 bytes
  (`WorkspaceRuns.ReadableExact`). With at most 32 bounded rules this always holds
  (`WorkspaceRuns.ReadableThroughout`); with 33 rules a run falls back from revision 2 to revision 1
  (`WorkspaceFailures.UnreadableRun`).
- *Immutable inputs.* An empty immutable path protects nothing below an empty field name
  (`Immutability.EmptyInputUnprotected`), and a dotted field name is mistaken for a path
  (`Immutability.DottedNameRefused`). Without empty and dotted field names the check is exact
  (`Immutability.AcceptanceExact`).
- *SimpleSchema.* Item types of arrays are lost; maps, and arrays of anything but strings and integers,
  come back as strings; list and map defaults and enum items that are no strings never survive; double
  quotes become single ones. Objects lose whether they are required and what they say besides their
  fields; fields declared by anything but an object, and required names that are no fields, are dropped.
  `SchemaObjects.SchemaRoundTrips` says what comes back from every schema,
  `SchemaObjects.SchemaExactly` when it is the schema itself.
- In `start` (`dev-agent/exec_worker.go`) the branch that answers from a record found under the session
  ID with the same request is unreachable, since the request lookup before it already answered
  (`ExecTheorems.SessionNeverAnswers`). A start whose write fails after landing leaves a queued record
  without a goroutine (`ExecTheorems.LandedStart`).

## Model

| member | source | states |
|---|---|---|
| `ExecTheorems.DispatchSafety` | dev-agent/exec_worker.go:230-411 | in every run, each incarnation of a record is dispatched at most once, only after its durable creation and flip to running since the last crash; no record in flight at a crash is dispatched after it |
| `ExecOwnership.DispatchOwn` | dev-agent/exec_worker.go:331-374 | every dispatch sends the command of the start that spawned its goroutine; the incarnation it runs under is the one that start created if and only if the session had not been started again when the record was flipped to running, and then its request is the one sent |
| `ExecOwnership.SentOncePerStart` | dev-agent/exec_worker.go:274-279 | every dispatch sends the command of exactly one start, and every start's command is sent at most once, whatever record it is sent under |
| `ExecDispatchRecord.DispatchStored` | dev-agent/exec_worker.go:341-352 | when a command is sent, the record flipped to running is still stored and running if and only if nobody canceled it since the flip |
| `ExecDispatchRecord.UnrecordedDispatch` | dev-agent/exec_worker.go:293-312 | a run that sends a command whose record was canceled and collected after the flip |
| `ExecForeignCommand.ForeignCommand` | dev-agent/exec_worker.go:355-374 | a run that sends a collected session's command under the record of a different request |
| `ExecTheorems.RunningHoldsLock` | dev-agent/exec_worker.go:331-374 | while the coordinator serves, a running record's goroutine holds the mutation lock, so at most one record is running |
| `ExecJourney.DispatchJourney` | dev-agent/exec_worker.go:331-374 | before every dispatch lie, in order and with no crash since: the valid start whose durable record spawned the goroutine, its taking the free lock, its look at a context not cancelled, and its durable flip of a live record |
| `ExecJourney.CanceledNeverSent` | dev-agent/exec_worker.go:293-312 | a command whose record was canceled while it was queued is never sent under that record, however the run goes on |
| `ExecAnswers.ResultOrigin` | dev-agent/exec_worker.go:382-438 | every finished record of every run was finished once: by a cancel of its session, by a recovery, or by a goroutine of its session with the outcome its executor returned or its cancelled context gave |
| `ExecAnswers.SuccessOrigin` | dev-agent/exec_worker.go:382-438 | a stored success was written when a goroutine of its session finished whose executor had returned exit code 0 without an error, neither timed out nor cancelled, and its output is the executor's |
| `ExecAnswers.OutcomeOfExec` | dev-agent/exec_worker.go:422-438 | canceled before timed out before failed before succeeded, for every response and error; exit code modulo 2^32, output kept, the error's text only where there is no error output |
| `ExecTheorems.StoreBounded` | dev-agent/exec_worker.go:262-268 | a store that starts empty never exceeds 128 records, and holds at most one per caller and request |
| `ExecAnswers.StartAnswers` | dev-agent/exec_worker.go:230-281 | a start answers with the record of the same request or a conflict, refuses a taken session ID (403, 409) or a full store (503), else stores the queued record and spawns its goroutine, or reports the failed write |
| `ExecAnswers.PollAnswers` | dev-agent/exec_worker.go:283-291 | a poll answers 404, 403 or the stored result, and changes nothing |
| `ExecAnswers.CancelAnswers` | dev-agent/exec_worker.go:293-329 | a cancel refuses strangers, reports a finished session as it is, and otherwise cancels the goroutine's context and only the state and time of the record |
| `ExecTheorems.RecordLifetime` | dev-agent/exec_worker.go:293-411 | between any two points of a run a record only moves queued, running, finished, keeps its identity and is frozen once finished; a collected incarnation never returns |
| `ExecTheorems.RepeatedStart` | dev-agent/exec_worker.go:239-261 | a start repeated while its record is kept answers that record's result or a conflict and changes neither the record nor the goroutines |
| `ExecTheorems.RetryReuses` | dataplane/persistent_executor.go:127-168 | a client's repeated start creates and spawns nothing as long as the record of its first attempt is kept, whatever happened in between |
| `ExecProtocol.StepInv` | dev-agent/exec_worker.go:230-531 | every step, crashes and recovery included, keeps the coordinator's invariant |
| `ExecOwnership.OwnOutcome` | dev-agent/exec_worker.go:382-411 | a goroutine records any outcome in the record it ran, or was started for when it ran none, if and only if the session was not started again since |
| `ExecProvenance.OwnResultInRuns` | dev-agent/exec_worker.go:382-411 | a success is written into a record whose command was sent if and only if the session was not started again since the record it ran |
| `ExecForeignCommand.ForeignCancel` | dev-agent/exec_worker.go:336-340 | a run in which a record says canceled while its own goroutine waits with a live context |
| `ExecTheorems.SessionNeverAnswers` | dev-agent/exec_worker.go:239-261 | after the request lookup failed, no record under the session ID answers |
| `ExecTheorems.LandedStart` | dev-agent/exec_worker.go:271-275 | a start whose write landed although it failed leaves a queued record and no goroutine |
| `ExecForeignResult.ForeignResult` | dev-agent/exec_worker.go:382-411 | a run in which a record says succeeded although its command was never sent |
| `ExecRecords.OldestFirstKeeps` | dev-agent/exec_worker.go:533-564 | removing finished records oldest first keeps unique requests, filing and the bound |
| `ExecRecords.ToInt32` | dev-agent/exec_worker.go:422-438 | the exit code wraps around modulo 2^32 into the int32 range |
| `ExecCoordinator.InterruptedFields` | dev-agent/exec_worker.go:507-531 | recovery field by field: state and error output of what was queued or running, nothing else |
| `ExecCoordinator.PrefixCollected` | dev-agent/exec_worker.go:533-564 | removing any prefix of the finished records in age order, up to where a removal failed, is a legal collection: no live record, no younger before an older |
| `ExecCoordinator.Coordinator.GcLocked` | dev-agent/exec_worker.go:533-564 | the retention pass removes an oldest-first prefix of finished records, each over ten minutes old or beyond 128 files; it stops only at a failing access, and otherwise leaves no finished record that is due |
| `ExecCoordinator.Coordinator.FindByRequest` | dev-agent/exec_worker.go:580-598 | finds a record of the caller and request exactly when one exists, and fails only when an access does |
| `ExecCoordinator.Coordinator.Start` | dev-agent/exec_worker.go:230-281 | a start is one protocol step: collect, answer from a known record, refuse, or write the queued record and then start its goroutine; without a failing access it collects and reads to the end |
| `ExecCoordinator.Coordinator.Poll` | dev-agent/exec_worker.go:283-291 | a poll answers its own caller's record and changes nothing |
| `ExecCoordinator.Coordinator.Cancel` | dev-agent/exec_worker.go:293-312 | a cancel is one protocol step: it finishes a queued record, cancels the context of a running one, and leaves a finished one alone |
| `ExecCoordinator.Coordinator.SetRunning` | dev-agent/exec_worker.go:355-374 | flips a live record to running, durably, or gives up |
| `ExecCoordinator.Coordinator.Finish` | dev-agent/exec_worker.go:382-411 | writes the result into a live record, leaves a finished one alone, or dies on a failed write |
| `ExecCoordinator.Coordinator.RecoverSessions` | dev-agent/exec_worker.go:507-531 | recovery is a sequence of recovery steps that ends serving, or in a crash; when it serves, every record that was queued or running is failed with the restart as its error output and is otherwise unchanged, every finished one is as before, and none is live; it gives up only when an access or a write fails |
| `WorkspaceDigest.AscendingUnique` | dev-agent/main.go:1296-1311 | there is one ascending listing of a set of paths, so the digest does not depend on the input order |
| `WorkspaceDigest.LessIs` | dev-agent/main.go:1296-1311 | paths are ordered bytewise, a prefix before the rest |
| `WorkspaceDigest.DigestOfTwo` | dev-agent/main.go:1312-1341 | files are hashed in path order as path, NUL, bytes, NUL |
| `WorkspaceDigest.DigestDetermines` | dev-agent/main.go:1312-1341 | two workspaces with one digest hold the same files if and only if they have the same paths with files of the same sizes |
| `WorkspaceDigest.TextDigestDetermines` | dev-agent/main.go:1312-1341 | if one of them is NUL-free, it is enough that they have as many files, or that the other is NUL-free too |
| `WorkspaceDigest.CountNotEnough` | dev-agent/main.go:1312-1341 | two different binary workspaces with one digest, the same paths and so as many files |
| `WorkspaceDigest.DigestAmbiguous` | dev-agent/main.go:1312-1341 | two different workspaces with one digest, one of them with a NUL byte in a file |
| `WorkspaceStore.DigestBundle` | dev-agent/main.go:1296-1311 | the digest of a request's files is the digest of their path-to-bytes map |
| `WorkspaceStore.DigestListed` | dev-agent/main.go:1445-1483 | the digest streamed from disk is the same function of the listed files |
| `WorkspaceStore.DigestFiles` | dev-agent/workspace.go:1015-1043 | the digest of mixed text and opaque views is the same function, and every opaque view still matches its bytes on disk |
| `WorkspaceStore.MatchReloadRules` | dev-agent/main.go:737-752 | the rule loop computes the matched commands |
| `WorkspaceStore.MatchedFacts` | dev-agent/main.go:737-752 | these are exactly the commands of the rules that fire, each once |
| `WorkspaceFacts.MatchedAre` | dev-agent/main.go:737-752 | the matched commands are in declaration order, each at the first rule that fires with it |
| `WorkspaceStore.MergeReloadCommands` | dev-agent/main.go:758-772 | the merge loop trims both lists and drops empty and repeated commands |
| `WorkspaceStore.DeduplicatedFacts` | dev-agent/main.go:758-772 | what is left are exactly the non-empty strings of the list, each once |
| `WorkspaceFacts.DeduplicatedAre` | dev-agent/main.go:758-772 | the merged commands are the first occurrences, in order |
| `WorkspaceModel.RecordsUnique` | dev-agent/workspace.go:1241-1271 | a checkpoint's views describe one tree only |
| `WorkspaceFacts.ManageableIs` | dev-agent/main.go:1435-1443 | a path is manageable if and only if none of its components is `.git`, `node_modules` or `.assistant-snapshots` in any case |
| `WorkspaceFacts.PlainManagedIs` | dev-agent/main.go:1637-1660 | what a plain sync manages, path by path |
| `WorkspaceFacts.EditedBy` | dev-agent/workspace.go:526-563 | the last edit of a path decides what the edited tree holds there |
| `WorkspaceAgent.Workspace.WriteFiles` | dev-agent/main.go:1035-1060 | the write loop leaves the old disk overlaid with the bundle and reports exactly the files whose content differed when their turn came |
| `WorkspaceAgent.Workspace.DeleteCandidates` | dev-agent/main.go:1573-1613 | deletes exactly what the old manifest managed, or without one what the request names, outside the bundle, and reports in order what was there |
| `WorkspaceAgent.Workspace.WriteManifest` | dev-agent/main.go:1387-1402 | replaces the manifest or leaves it, touching no other file but the temporary |
| `WorkspaceAgent.Workspace.Verify` | dev-agent/main.go:1445-1483 | succeeds exactly when every managed file exists and their digest is the manifest's |
| `WorkspaceAgent.Workspace.ValidateBundle` | dev-agent/main.go:1262-1277 | accepts exactly distinct, unreserved paths with NUL-free UTF-8 text or declared binary content |
| `WorkspaceAgent.Workspace.Judge` | dev-agent/main.go:979-1033 | a sync is refused if and only if it does not name a revision and a digest, a delete path is reserved, its bundle is malformed, its digest is not that of its files, or its revision is older than the applied one or the same with another digest; the shortcut is taken exactly for a verified workspace at its revision with nothing pending |
| `WorkspaceAgent.Workspace.AuthoritativeSync` | dev-agent/main.go:979-1204 | when nothing fails it answers 200 if and only if the request is acceptable, except that a bundle with the manifest's temporary name cannot be put back after a hook; whatever it answers, the revision rule and the pending commands are kept, and on 200 the disk is the bundle over the hook's disk without the replaced files |
| `WorkspaceAgent.Workspace.Converge` | dev-agent/main.go:1126-1152 | after a hook the bundle, the manifest and the deletions are put back from whatever disk the hook left, and verified |
| `WorkspaceAgent.Workspace.Stamp` | dev-agent/main.go:1637-1713 | the stamped manifest lists the managed files that exist with their digest; its revision is one on exactly when the digest changed |
| `WorkspaceAgent.Workspace.PlainSync` | dev-agent/main.go:1035-1204 | answers 200 when nothing fails and there is a next revision; stamps the disk it leaves, keeps the revision rule and every pending command it did not run |
| `WorkspaceAgent.Workspace.Sync` | dev-agent/main.go:939-1204 | a request that names a revision or digest is authoritative, any other plain; each answers 200 when it may and nothing fails |
| `WorkspaceAgent.Workspace.EditFiles` | dev-agent/workspace.go:526-563 | succeeds exactly for different unreserved paths, NUL-free UTF-8 text of at most 1 MiB and at most 512 files; the edited views stand for the edited tree |
| `WorkspaceAgent.Workspace.ApplyFiles` | dev-agent/workspace.go:1067-1111 | converges the managed files to the views and removes the managed files they do not name |
| `WorkspaceAgent.Workspace.Mutate` | dev-agent/workspace.go:477-600 | compare-and-set on revision and digest; on 200 nothing changed or the edited tree is one revision on; it answers 200 whenever the workspace is as expected, the edits are legal and nothing fails |
| `WorkspaceAgent.Workspace.CreateCheckpoint` | dev-agent/workspace.go:717-760 | records a verified workspace; an existing checkpoint is never overwritten; succeeds whenever the workspace is as expected, there is room and nothing fails |
| `WorkspaceAgent.Workspace.DeleteCheckpoint` | dev-agent/workspace.go:1494-1513 | removes one checkpoint and no other |
| `WorkspaceAgent.Workspace.Restore` | dev-agent/workspace.go:762-831 | on 200 the managed files are exactly those the checkpoint describes, one revision on; it answers 200 whenever the workspace is as expected, the checkpoint's opaque files are still on disk, there is a next revision and nothing fails |
| `WorkspaceAgent.Workspace.Admit` | dev-agent/exec_server.go:215-234 | admits a command exactly at its revision and digest, with nothing pending, on verified files |
| `WorkspaceRuns.ReadableThroughout` | dev-agent/main.go:1343-1385 | with at most 32 bounded rules, every manifest of every run can be read back |
| `WorkspaceRuns.ReadableExact` | dev-agent/main.go:1090-1103 | a sync that wrote its manifest can be followed up if and only if its reload ran or what it leaves to run is at most 32 commands that fit |
| `WorkspaceRuns.UnreadableRestarts` | dev-agent/main.go:1690-1703 | without a readable manifest a plain sync starts again at revision 1 |
| `WorkspaceFailures.UnreadableRun` | dev-agent/main.go:1374-1376 | a run with 33 rules in which the manifest becomes unreadable at revision 2 and the next plain sync stamps revision 1 |
| `WorkspaceRuns.RevisionsAdvance` | dev-agent/main.go:1020-1032 | over every run the revision never decreases and no revision has two digests |
| `WorkspaceRuns.SameRevisionSameFiles` | dev-agent/exec_server.go:215-234 | two commands admitted at one revision name one digest, and see the same managed files if and only if these have the same paths and sizes |
| `WorkspaceRuns.SameRevisionTextFiles` | dev-agent/exec_server.go:215-234 | with NUL-free files at one of them it is enough that they see as many |
| `WorkspaceRuns.FullSyncExact` | dev-agent/main.go:1035-1172 | after a full sync the bundle is managed byte for byte and verifies, the replaced files are gone and nothing else was touched |
| `WorkspaceRuns.RepeatSyncExact` | dev-agent/main.go:1028-1031 | the shortcut is right if and only if the managed files have the bundle's paths and sizes |
| `WorkspaceRuns.TextDigestHolds` | dev-agent/main.go:1445-1483 | a verified workspace with the digest of NUL-free files holds these if and only if it manages as many |
| `WorkspaceRuns.AuthoritativeExact` | dev-agent/main.go:979-1204 | what every authoritative sync answered 200 leaves, on either path and whatever the bytes |
| `WorkspaceEffects.FullSyncLeaves` | dev-agent/main.go:979-1204 | after a full sync every file of the bundle has its bytes and is managed, the replaced files are gone, every other file is as the hook left it, and its commands were all run or are all pending |
| `WorkspaceFailures.RepeatSyncShort` | dev-agent/main.go:1028-1031 | a run of two syncs, both answered 200, after which a file of the second is not on disk |
| `WorkspaceFailures.TmpLost` | dev-agent/main.go:1387-1402 | a run in which a sync answered 200 loses a file with the manifest's temporary name, which the manifest lists |
| `WorkspaceRuns.PlainExact` | dev-agent/main.go:1637-1713 | a plain sync's manifest lists exactly the files that exist, were listed before or are manageable paths of the bundle, and neither are nor lie beneath a deleted path; its revision is one on exactly when their digest changed; it verifies unless the temporary name is among them |
| `WorkspaceEffects.PlainLeaves` | dev-agent/main.go:1035-1090 | without a hook a plain sync leaves, file by file, the old files and the bundle's, less the deleted paths and all beneath |
| `WorkspaceRuns.MutateExact` | dev-agent/workspace.go:564-587 | a mutation answered 200 leaves the edited files managed, one revision on; an unchanged digest is trusted rightly if and only if paths and sizes did not change |
| `WorkspaceEffects.MutateLeaves` | dev-agent/workspace.go:526-600 | a mutation that changed the digest leaves every named path as its last edit says and touches no other file |
| `WorkspaceRuns.RestoreAfterRun` | dev-agent/workspace.go:762-831 | restoring after any run brings back exactly the files of checkpoint time, verified, at a strictly later revision |
| `WorkspaceEffects.RestoreLeaves` | dev-agent/workspace.go:762-831 | a restore manages exactly the checkpoint's files, removes the other managed ones and touches nothing else |
| `WorkspaceRuns.PendingStays` | dev-agent/main.go:1090-1184 | a pending command stays until a reload that contains it succeeds or a mutation or restore clears it |
| `WorkspaceRuns.RulePending` | dev-agent/main.go:1088-1100 | a rule fired by a file that a manifest-writing sync altered is run by that sync or left pending |
| `WorkspaceEffects.ToRunIs` | dev-agent/main.go:1088-1100 | a sync runs exactly the unfinished commands and those of the rules that fire for a path it altered, each once, the unfinished ones first |
| `WorkspaceEffects.TouchedIs` | dev-agent/main.go:1035-1090 | the altered paths are the files whose content differed and those deleted, or for a plain sync asked to be deleted |
| `ProxyCaches.SessionTtl` | accessproxy/proxy.go:589-595 | for every int64 a cookie session lives more than 0 and at most 24 hours |
| `ProxyCaches.SessionTtlIs` | accessproxy/proxy.go:589-595 | as granted up to 24 hours, 24 hours for more, 15 minutes for nothing |
| `ProxyCaches.BearerTtl` | accessproxy/bearer.go:146-149 | for every int64 a grant lives more than 0 and at most 15 minutes |
| `ProxyCaches.BearerTtlIs` | accessproxy/bearer.go:146-149 | as granted up to 15 minutes, 15 minutes for anything else |
| `ProxyCaches.KeysApart` | accessproxy/bearer.go:115-118 | a key belongs to one credential of one kind, and no key is empty |
| `ProxyCaches.SweepKeepsHits` | accessproxy/proxy.go:610-632 | a sweep changes no answer from its own time on and never makes a miss a hit |
| `ProxyCaches.SweptIs` | accessproxy/proxy.go:610-632 | a sweep removes the expired entries, at most every 30 seconds unless the map is full |
| `ProxyCaches.PutStays` | accessproxy/proxy.go:569-582 | sweeping, making room and storing one entry changes no other entry, and below the cap loses no live one |
| `ProxyCaches.EvictionKeepsValues` | accessproxy/proxy.go:634-658 | an eviction only loses entries |
| `ProxyCaches.OldestKey` | accessproxy/proxy.go:634-658 | a pass in any order finds an entry of minimal expiry; with the empty string as only key it finds none |
| `ProxyCaches.EvictUntilRoom` | accessproxy/proxy.go:577-579 | the loop ends, makes room for one entry, removes no more than needed, and nothing that expires later than what stays |
| `AccessProxy.Proxy.SweepSessions` | accessproxy/proxy.go:622-632 | drops exactly the expired entries when due, else nothing |
| `AccessProxy.Proxy.PutSession` | accessproxy/proxy.go:584-606 | a sign-in stores one cookie session for the clamped TTL; below the cap no live session is lost, and no other entry changes |
| `AccessProxy.Proxy.CurrentSession` | accessproxy/proxy.go:218-247 | a session is found if and only if some cookie that is not blank has a live entry that is no bearer verdict; it is that of the first such cookie, and exactly the expired sessions of the cookies before it lose their entry |
| `AccessProxy.ResolveSettles` | accessproxy/proxy.go:226-247 | the recursive lookup finds the first cookie that opens a session and drops exactly the expired sessions before it |
| `AccessProxy.Proxy.CachedVerdict` | accessproxy/bearer.go:218-232 | answers a live bearer verdict if and only if there is one, else removes the entry |
| `AccessProxy.Proxy.PutVerdict` | accessproxy/bearer.go:234-246 | stores a verdict, evicting only when its key is new and the map full |
| `AccessProxy.Proxy.Conclude` | accessproxy/bearer.go:143-165 | caches grants for their TTL and denials for 30 seconds, changes nothing when the hub is unclear, and forwards on a grant only |
| `AccessProxy.Proxy.AuthorizeBearer` | accessproxy/bearer.go:122-165 | forwards if and only if the token carries the app prefix and its live cached verdict allows it, or it has none and the hub grants where relaying is on; a sequence of protocol steps with exactly one event for this token |
| `AccessProxy.Proxy.Gate` | accessproxy/proxy.go:196-214 | a private request is forwarded if and only if a cookie opens a session, or its app token has a live allowing verdict, or no live verdict but a grant of the hub; with a cookie session the first such cookie's; each forward is exactly one event |
| `AccessProxy.Proxy.MarkStateUsed` | accessproxy/proxy.go:569-582 | a nonce is accepted if and only if it is unknown, or expired and due for the sweep; then it is recorded with its expiry |
| `ProxyTheorems.ForwardsRestOnGrants` | accessproxy/bearer.go:122-165 | every forward of every run rests on the last verdict recorded for its credential, an allow within its TTL; none follows a denial without a newer grant |
| `ProxyTheorems.RunContinues` | accessproxy/proxy.go:196-214 | what a request leaves at the end of a run is the end of a longer run, so every result over runs holds of it |
| `ProxyTheorems.KindsApart` | accessproxy/proxy.go:236-241 | in every run a cookie's key never holds a bearer verdict and a token's key never a cookie session |
| `ProxyTheorems.CachesBounded` | accessproxy/proxy.go:569-658 | both maps stay within their caps in every run and no key is empty |
| `ProxyTheorems.NonceReuse` | accessproxy/proxy.go:569-582 | with a monotone clock a nonce is accepted again only after its recorded expiry, or after eviction from a full map |
| `JsonMerge.MergePatchValues` | mcpserver/update.go:130-149 | the key-by-key merge, in any order, is the MergePatch function of section 2 of RFC 7386 |
| `JsonMerge.Idempotent` | mcpserver/update.go:130-149 | applying a patch twice is applying it once |
| `JsonMerge.UnmentionedStays` | mcpserver/update.go:130-149 | at any depth, what the patch does not mention keeps its value |
| `Immutability.CollectChangedPaths` | mcpserver/update.go:162-206 | reports exactly the rendered paths of the positions at which the trees differ |
| `Immutability.DiffersIffPruned` | mcpserver/update.go:154-206 | two trees differ somewhere if and only if they differ after pruning empty objects |
| `Immutability.UnchangedIff` | mcpserver/update.go:154-160 | the changed list is empty if and only if the values are equal after pruning empty objects |
| `Immutability.RejectImmutableChanges` | mcpserver/update.go:98-110 | accepts exactly when no changed path is an immutable path or lies beneath one |
| `Immutability.AcceptedKeeps` | mcpserver/update.go:98-110 | if an update is accepted, every value an immutable path can name is unchanged up to empty objects |
| `Immutability.ImmutableKept` | mcpserver/update.go:44 | an update that is accepted, or changes nothing, keeps name, railgridMode, expose and credentialsSecretName, and every declared input |
| `Immutability.AcceptanceExact` | mcpserver/update.go:98-110 | without empty or dotted field names, accepted if and only if every immutable path keeps its value |
| `Immutability.EmptyInputUnprotected` | mcpserver/update.go:98-110 | an accepted change below the empty immutable path |
| `Immutability.DottedNameRefused` | mcpserver/update.go:98-110 | a refused change that touches no immutable path |
| `Immutability.Update` | mcpserver/update.go:74-92 | an update merges by RFC 7386, does nothing if and only if nothing changed up to empty objects, and otherwise is stored exactly when accepted; one that changes name, railgridMode, expose, credentialsSecretName or a declared input is rejected |
| `MarkerText.TokenizeMarkers` | kro/schema.go:153-188 | the byte loop computes the quote-aware scan that MarkerLines.ScanLine characterises on every text |
| `MarkerText.ScanAll` | kro/schema.go:153-188 | printed markers joined by spaces are read back one token each |
| `MarkerLines.ScanLine` | kro/schema.go:153-188 | words of bare and quoted pieces in either kind of quote, separated by any mix of spaces, tabs and bars, are read one by one without their quotes; nothing inside quotes splits a word |
| `MarkerLines.EveryText` | kro/schema.go:153-188 | every text is such a line, a quote left open running to the end, so the tokenizer is known on every text |
| `MarkerText.MarkerRead` | kro/schema.go:209-216 | a printed marker splits into its key and its trimmed value |
| `SimpleSchema.TypeRoundTrip` | kro/schema.go:190-207 | a type's name is read back exactly for a scalar, a plain object, or an array of strings or integers; the whole type if it also declares no items |
| `SimpleSchema.ParseSimpleSchemaLeaf` | kro/schema.go:102-142 | the marker loop computes the parse that SchemaMarkers.ParseIs characterises part by part |
| `SchemaMarkers.ParseIs` | kro/schema.go:102-142 | whatever separates and quotes the markers: the type before the first bar, the last marker of a key for default, enum, pattern and description, the last numeric one for the bounds, required if some marker says so |
| `SchemaMarkers.ParsePlain` | kro/schema.go:102-109 | a field without a bar is only its type, and a word without `=` says nothing |
| `SchemaMarkers.TypeSpellings` | kro/schema.go:190-207 | which of the accepted spellings yields which JSON type, with any white space around; every other text is a string |
| `SchemaMarkers.CoerceIs` | kro/schema.go:223-238 | a default is a number for number types where it reads as one, a truth value for booleans, else its text |
| `SchemaMarkers.CatalogReplicas` | kro/stub.go:48 | a field of the catalog with bars between its markers keeps its default and both bounds |
| `SchemaMarkers.PrintedOrder` | backend/kro/simpleschema.go:90-136 | a printed field has every marker at most once, in one fixed order |
| `SimpleSchema.ParsePrinted` | kro/schema.go:102-142 | parsing a printed field folds its markers into a blank property of its type |
| `SchemaRoundTrip.LeafRoundTrip` | backend/kro/simpleschema.go:90-136 | every printed leaf parses to its normal form with its required flag |
| `SchemaExact.EnumsExact` | backend/kro/simpleschema.go:97-103 | enum items come back unchanged if and only if every one is a string without comma, double quote and outer space |
| `SchemaExact.DefaultExact` | kro/schema.go:223-238 | a default comes back unchanged if and only if it is a string, number or boolean that its type reads as itself |
| `SchemaExact.LeafExact` | backend/kro/simpleschema.go:90-136 | a leaf is printed and parsed back to itself if and only if its type is expressible without items, its texts and enum items are clean strings and its default fits |
| `SchemaObjects.ObjectToSimpleSchema` | backend/kro/simpleschema.go:65-85 | the property loop computes the projection, in any order: objects with fields become blocks, every other property a printed line |
| `SchemaObjects.ConvertSimpleSchema` | kro/schema.go:45-87 | the conversion loop computes the conversion, in any order: every field but the three reserved names, required as its line says |
| `SchemaObjects.SchemaRoundTrips` | backend/kro/simpleschema.go:65-136 | every object schema, printed and parsed back, is its normal form |
| `SchemaObjects.SchemaExactly` | backend/kro/simpleschema.go:65-136 | it is the schema itself if and only if no field has a reserved name, every leaf survives and declares no fields, the required names are leaves, and objects say nothing but their fields |
| `Routing.ValidatePaths` | apis/v1alpha1/template_validation.go:85-128 | accepts if and only if every component path is relative and stays in the workspace once cleaned, and no two are equal, nested, or the root beside others |
| `Routing.NormalizeIs` | apis/v1alpha1/template_validation.go:159-172 | a path is accepted if and only if it is not blank, not absolute and its cleaned form does not escape |
| `Routing.RouteFiles` | mcpserver/tools_dev.go:624-640 | every component gets exactly the files under its path, stripped, in order |
| `Routing.OneComponent` | mcpserver/tools_dev.go:624-640 | in an accepted template a file belongs to at most one component |
| `Routing.RoutingUndone` | mcpserver/tools_dev.go:535-541 | mapping a component's files back gives exactly the synced files under its path |
| `Routing.RouteToIs` | mcpserver/tools_dev.go:624-640 | a component below the root gets exactly the files under its path, without that path |
| `Routing.CountRouted` | mcpserver/tools_dev.go:725-731 | the count is the sum over the components, in any order |
| `Routing.RoutedCount` | mcpserver/tools_dev.go:725-731 | in an accepted template the routed count is the number of files that belong to some component, at most the file count |
| `ProcessTree.DescendsFrom` | dev-agent/process_cleanup_linux.go:178-195 | ends on every table, cyclic ones included, and decides reachability along parent links |
| `ProcessTree.SelectProcesses` | dev-agent/process_cleanup_linux.go:113-153 | selects exactly the live new processes that descend from the executor or carry the marker, each once, and fails exactly when one cannot be decided |
| `ProcessTree.Cleanup` | dev-agent/process_cleanup_linux.go:57-91 | reports success in the first round that completes three empty scans in a row, and only then |

## Left out

- HTTP, JSON, base64, URL parsing, cookies as wire format, TLS, timeouts, authentication of the control endpoints.
- SHA-256 itself: an injective constructor in the workspace, an injective function in the proxy.
- `path.Clean`, UTF-8 validity and `path.Match`: parameters. Paths reach the model cleaned.
- File-system detail: directories, symlinks, modes and path conflicts appear as paths on which an access is refused.
- Files changed by other processes while an operation runs, except by its reload hook; between operations they may change arbitrarily.
- Size and count limits of sync requests, checkpoint identifiers, the size limit of a stored checkpoint and its EntriesDigest seal: they only reject requests, and stored checkpoints are read back as written.
- The restart policy of a sync: whether a restart is wanted is a parameter.
- `validatePersistentExecRequest`: whether a command is well formed is a boolean of the request.
- Liveness: that a queued session finishes or a proxy request is answered.
- The client's retry loop itself (three attempts with a pause): the coordinator sees it as repeated starts.
- Diff and listing of workspaces, sample values of a parsed schema, the order of reported changed paths, proxy route ordering: they would add only easy members.
- Floating-point bounds, defaults and enum items in schemas: integers, whose two text forms are any numerals that read back. Lists and objects are known by their printed form.
- Unicode white space: trimming removes the ASCII white space only.
- Process signalling, pid reuse between scan and kill, reading the process table.
