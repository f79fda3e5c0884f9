# Verified models of Publaryn

Publaryn is a multi-ecosystem package registry.  This project models the parts of it whose
correctness does not show from reading one function, and proves their properties for all inputs, all
runs and all reachable states:

- **The job queue** (`Jobs`, `JobsProofs`, `RetryTiming`, `Worker`): the job table as a state machine of
  atomic SQL statements, taken in any order by any number of workers.  A *ticket* is what a worker got
  from the claim's `RETURNING`; `complete_job` and `fail_job` update by id only, so a stale ticket can
  act late.  Theorems say which *mode* they need: any interleaving, locks respected, one worker loop, or
  runs without the stale-job sweep.  `Worker` holds the queue functions and the worker loop as methods
  that are proved to take exactly the machine's steps.
- **Release scanning** (`Scanning`, `ScanRuns`, `ScanningProofs`, `ScanRaces`, `ScanHandler`, `ScanWorker`,
  `ScanDelivery`): the scan handler's statements on top of the queue, when a release may leave `scanning`, exactly
  when it gets stuck there, and what goes wrong without each assumption.  `ScanWorker.ScanLoop` is one process, loop
  and handler together, and `ScanDelivery` follows a release from its submission to the decision.
- **Maven deploys** (`MavenNames`, `MavenDeploy`, `MavenSteps`, `MavenProofs`, `MavenRuns`, `MavenAcks`, `MavenWindow`,
  `MavenGrace`, `MavenScenarios`, `MavenSerial`, `MavenAnswers`): each PUT is a sequence of separate statements, any
  of which may fail, and PUTs interleave and take time.  `MavenSerial.Repository` is the handler as it runs, proved
  to follow the machine, and `MavenAnswers` its table of answers.
- **The POM reader** (`Pom`, `PomTree`, `PomFields`): an event loop with a name stack against a query on the tree, and
  field by field.
- **The Cargo registry** (`CargoWire`, `CargoRegistry`, `CargoProofs`, `CargoRuns`): the publish wire format, and an
  index that keeps agreeing with the downloads.
- **OCI blob cleanup** (`OciCleanup`, `OciChain`): batches, self-enqueued chains, failures between deletes.
- **Authorization** (`Authorization`): the cascade of joins against a rule, and the adapters' shorter check.
- **The package form** (`PackageForm`, `PackageFormProofs`), **rate limiting** (`RateLimit`) and **XML escaping**
  (`XmlEscape`).

Conventions.  A machine has `Enabled(s, step)`, `Apply(s, step)` (or `Outcome`), `Run` and `Exec`; theorems
quantify over all runs.  SHA-256, JSON decoding, JSON encoding and `toLowerCase` are function-valued
parameters with their assumptions written as predicates (`SlashFreeDigest`, `OneLine`,
`LowersLetters`).  I/O failures are parameters (`Faults`, `Choice`, `Outcome`).

Assumptions about the surroundings.  Each SQL statement is atomic and the application's and the
database's clocks are one clock.  UUIDs are never drawn twice and, like hex digests, hold no slash.
The schema's constraints are taken as given: unique (package, version) for releases, unique
(release, filename) for artifacts, cascading deletes, the foreign keys of the membership tables.  Digests
sort by their characters.  The scan jobs of a release are all enqueued before one of them is claimed.
`1i64 << attempts` is read as in a release build, with the shift count modulo 64 and wrapping results.

Where the source's comments and the code differ, the model follows the code: `fail_job` is commented with
a first delay of 10 seconds (crates/workers/src/queue.rs, line 205), but attempts start at 1 and the
first delay is 20 seconds (`RetryTiming.BackoffExact`).

Properties that do not hold as one would first put them, each with the run or input that shows it and with the
theorem that says when they do hold:

- completed jobs stay completed: `JobsProofs.StaleTicketReopensCompletedJob`, and exactly when in
  `JobsProofs.SettledExactlyWhen`;
- a release leaves scanning only when all is scanned: `ScanRaces.LateCountPublishesUnscanned` and
  `ScanRaces.SweptDeadJobPublishesUnscanned`, and when in `ScanningProofs.MovedOnlyAfterAllScansStored`;
- a release does not get stuck in scanning: `ScanRaces.TwoWorkersStrandRelease` and
  `ScanRaces.SweptDeadJobStrandsRelease`, and exactly when in `ScanningProofs.DueStrandsExactlyWhen` (for a state) and
  `ScanningProofs.NeverStrandsExactlyWhen` (for a run);
- the file of an acknowledged Maven PUT is recorded: `MavenScenarios.AcknowledgedFileLost`, and exactly when in
  `MavenAcks.AcknowledgedMeansRecorded`;
- a release takes no file an hour after its publication: `MavenScenarios.FileRecordedAfterTheHour`, which files
  may come late in `MavenGrace.LateFilesWereChecked`, and exactly when none does in `MavenGrace.FilesFixedExactlyWhen`;
- a release is published once: `MavenScenarios.InterleavedPutsRepublish`, and exactly when in
  `MavenWindow.RepublishedExactlyWhen`;
- the POM reader agrees with the tree: `PomTree.SlashInNameMisleads`, and exactly when in
  `PomTree.PathFoundExactlyWhen`;
- a failed Cargo publish can be repeated: exactly when in `CargoRuns.FailedPublishBurnsVersion`;
- more rights never worsen a decision: `Authorization.StricterOwnerBreaksMonotonicity`, and exactly when in
  `Authorization.RightsCostExactlyWhen`;
- an untouched package form changes nothing: exactly when in `PackageFormProofs.UntouchedFormChangesNothing`.

Check everything with `dafny verify dfyconfig.toml`.

## Model

| member | source | states |
|---|---|---|
| JobsProofs.AttemptsBounded | crates/workers/src/queue.rs:115-248 | in every interleaving, stale tickets included, attempts stay within max(1, max_attempts) plus the number of recoveries, and a dead job has used its attempts up |
| RetryTiming.AttemptsBoundReached | crates/workers/src/queue.rs:115-248 | that bound is exact: for every limit and every number of recoveries some run reaches it |
| JobsProofs.InvStep | crates/workers/src/queue.rs:115-266 | every statement keeps the relation between rows, outstanding tickets and spent attempts |
| JobsProofs.AtMostOneLiveTicket | crates/workers/src/queue.rs:124-181 | with locks respected, or one worker loop, or no sweep: two unexpired unsettled tickets of a job are the same |
| JobsProofs.ByIdRefinesFenced | crates/workers/src/queue.rs:171-227 | in those runs updating by id is the same as updating under a fence on the claim's attempts |
| JobsProofs.SettledStaysSettled | crates/workers/src/queue.rs:171-243 | in those runs completed and dead rows do not change until they are deleted |
| JobsProofs.SettledExactlyWhen | crates/workers/src/queue.rs:171-248 | in every interleaving a settled row stays settled exactly if no ticket with attempts left is outstanding for it, and does not change at all exactly if none is |
| JobsProofs.LiveStep | crates/workers/src/worker.rs:82-102 | every step allowed by such a discipline keeps each usable ticket in possession of its row |
| JobsProofs.StaleTicketReopensCompletedJob | crates/workers/src/queue.rs:185-227 | without a discipline a late failure reopens a completed job, which a fenced update would not |
| JobsProofs.NothingStuck | crates/workers/src/queue.rs:124-266 | in every run each row comes due, or turns stale and is due once recovered, or is swept, after some waiting |
| RetryTiming.BackoffExact | crates/workers/src/queue.rs:192-207 | the 64-bit shift and product equal 10 * 2^attempts exactly up to 59 attempts, double each time, and start at 20 seconds |
| RetryTiming.BackoffPeriodic | crates/workers/src/queue.rs:205-207 | beyond 63 attempts the delays start again from the beginning |
| RetryTiming.DeadNoSoonerThanBackoffs | crates/workers/src/queue.rs:192-218 | without recovery a job that dies does so at least 10 * (2^max_attempts - 2) seconds after its first failure |
| Worker.EarliestExists | crates/workers/src/queue.rs:132-139 | the claim's sub-select always has a result: as many as fit of the due, unlocked jobs, none later than one left out |
| Worker.JobQueue.EnqueueAt | crates/workers/src/queue.rs:88-108 | takes the enqueue step with the schema's default limit |
| Worker.JobQueue.ClaimJobs | crates/workers/src/queue.rs:115-168 | claims the earliest due jobs not locked by others and returns each once, with its new attempts |
| Worker.JobQueue.CompleteJob | crates/workers/src/queue.rs:171-181 | takes the by-id completion step |
| Worker.JobQueue.FailJob | crates/workers/src/queue.rs:185-227 | takes the by-id failure step with the caller's attempts |
| Worker.JobQueue.RecoverStaleJobs | crates/workers/src/queue.rs:231-248 | takes the recovery step and counts the recovered rows |
| Worker.JobQueue.CleanupFinishedJobs | crates/workers/src/queue.rs:251-266 | takes the retention step and counts the deleted rows |
| Worker.WorkerLoop.ProcessBatch | crates/workers/src/worker.rs:120-173 | settles every claimed job exactly once, in the order listed, and leaves no ticket over |
| Worker.WorkerLoop.PollAndProcess | crates/workers/src/worker.rs:104-174 | one poll claims an earliest batch of the due jobs and then handles and settles all of it, or does nothing where the claim fails; it is a run of the machine that a single loop allows |
| Worker.PollSettles | crates/workers/src/worker.rs:104-174 | job by job: each claimed job has one attempt more and ends completed, dead, pending or running as its handler and its settlement went, and no other job is touched |
| Worker.DueJobsComplete | crates/workers/src/worker.rs:104-174 | where the due jobs fit in one batch and all handlers succeed and are recorded, every due job ends completed with one attempt more |
| Worker.EarliestWrittenOut | crates/workers/src/queue.rs:132-139 | the claimed batch is of due jobs that nobody holds locked, and leaves a due job out only if it is full of earlier ones |
| Worker.WorkerLoop.RunLoop | crates/workers/src/worker.rs:69-102 | the loop does what its events say, in their order, up to the first stop: polls, sweeps and waiting; whatever ticks come and however long handlers take, it sweeps and claims only between batches |
| Worker.LoopUnfolds | crates/workers/src/worker.rs:82-102 | the loop is its first event and then the rest, unless that event stops it |
| Worker.SweepOutcome | crates/workers/src/worker.rs:87-90 | a recovery tick row by row: which rows it deletes, by hours, and which it makes due again |
| Worker.WaitOutcome | crates/workers/src/worker.rs:82-100 | waiting lets time go by and nothing else |
| Worker.OneTickCompletes | crates/workers/src/worker.rs:82-174 | one tick of the loop completes every due job whose handler succeeds, with one attempt more, if they fit in a batch |
| ScanningProofs.MovedOnlyAfterAllScansStored | crates/workers/src/scanners.rs:256-359 | every interleaving: a handler whose own count was right moves a release out of scanning, other than to quarantine, only after all its scans handed in their findings and the check saw no unresolved critical or malware finding, unless a dead scan job that had not was swept |
| ScanningProofs.OwnJobOpen | crates/workers/src/scanners.rs:283-305 | the count is right whenever the handler's own job is open |
| ScanningProofs.DisciplineKeepsMovesRight | crates/workers/src/scanners.rs:256-359 | any number of workers that respect their locks, or one worker loop, or no stale-job sweep: every such move is right, with the same exception |
| ScanRuns.QueueOfScanRun | crates/workers/src/worker.rs:104-174 | what scanning does to the queue is a run of the queue under the same discipline, so the queue's theorems hold of it |
| ScanningProofs.DueStrandsExactlyWhen | crates/workers/src/scanners.rs:283-305 | any number of workers, in any reached state: the completions that are due, and nothing else, leave a release in scanning with no scan job pending, running or dead, exactly if it is scanning and each of its outstanding scan jobs has a completion due |
| ScanningProofs.NeverStrandsExactlyWhen | crates/workers/src/scanners.rs:283-305 | any number of workers, over any run: this threatens at no time exactly if each count that leaves the move to others leaves an outstanding job besides its own of which no completion is due, and each retention sweep one that it does not take |
| ScanningProofs.SweepLeavesWaiting | crates/workers/src/queue.rs:251-266 | a sweep that takes no dead scan job of the release meets that condition, if there was such a job |
| ScanningProofs.ScanningHasOpenJob | crates/workers/src/scanners.rs:283-359 | in such runs a release in scanning has a pending, running or dead scan job |
| ScanningProofs.StrandedForGood | crates/workers/src/scanners.rs:333-359 | a release in scanning without such a job, and without a handler that has counted and may still move it, stays so until its status is set from elsewhere |
| ScanningProofs.SingleLoopHasOpenJob | crates/workers/src/worker.rs:69-174 | one worker loop, however long its handlers take: a release is never left so by what is due exactly if each retention sweep that finds it scanning leaves one of its outstanding scan jobs, and then a release in scanning has a pending, running or dead one |
| ScanRaces.TwoWorkersStrandRelease | crates/workers/src/scanners.rs:283-305 | a run from the empty tables, locks respected, in which both handlers count before either settles and the release is stuck in scanning |
| ScanRaces.LateCountPublishesUnscanned | crates/workers/src/scanners.rs:283-305 | a run from the empty tables in which a count after the lock was lost publishes a release with a pending scan |
| ScanRaces.SweptDeadJobPublishesUnscanned | crates/workers/src/queue.rs:251-266 | a run from the empty tables, locks respected, in which a dead scan job is swept and its release published without that scan |
| ScanRaces.SweptDeadJobStrandsRelease | crates/workers/src/queue.rs:251-266 | a run from the empty tables, with one loop or with locks respected, in which the sweep leaves the release in scanning with no scan job |
| ScanHandler.ScanDatabase.PersistFindings | crates/workers/src/scanners.rs:256-281 | appends an unresolved row for exactly the findings whose insert went through, in their order |
| ScanHandler.ScanDatabase.Handle | crates/workers/src/scanners.rs:220-377 | takes the machine's steps; moves the release exactly when at most one scan job of the release is open, its own or another, all statements went through and it is still scanning: to quarantine exactly if an unresolved critical or malware finding of it was there or a scanner reported one and it went in, and else by its flags |
| ScanHandler.BlocksExactlyWhen | crates/workers/src/scanners.rs:233-320 | the blocking check after the inserts, in terms of the rows before and of what each scanner reported |
| ScanHandler.ReportedAt | crates/workers/src/scanners.rs:233-253 | the findings are taken scanner by scanner, each in its order, and those that fail add nothing |
| ScanHandler.ScanDatabase.SubmitRelease | crates/api/src/job_handlers.rs:33-77 | puts a new release in scanning with one pending scan job for each artifact, and leaves all else as it was |
| ScanHandler.ScanDatabase.Settle | crates/workers/src/worker.rs:133-172 | takes the completion, the failure or, where the statement fails, the abandoning step after the handler has returned |
| ScanWorker.ScanLoop.ProcessBatch | crates/workers/src/worker.rs:120-173 | with the scan handler registered, every claimed job is waited for, handled and settled once, in the order listed, as a run of the scanning machine that a single loop allows |
| ScanWorker.ScanLoop.PollAndProcess | crates/workers/src/worker.rs:104-174 | one poll claims an earliest batch of the due jobs and takes all of it, or does nothing where the claim fails |
| ScanWorker.ScanLoop.RunLoop | crates/workers/src/worker.rs:69-102 | loop and handler together do what the events say, in their order, up to the first stop, and take only steps of the scanning machine that a single loop allows |
| ScanDelivery.SubmissionDecided | crates/workers/src/scanners.rs:220-377 | from end to end: a release of n artifacts is submitted and one worker polls a queue with nothing else in it; if its statements go through, then whatever the scanners report and whichever inserts fail, every scan job is completed by its first attempt, every finding that went in is in the table, and the release is in quarantine exactly if the table holds an unresolved critical or malware finding of it, and published else |
| ScanDelivery.LoopDecidesSubmission | crates/workers/src/worker.rs:82-174 | the same of the loop: a submission, some time and one tick |
| MavenNames.ClassifiedTarget | crates/adapters/maven/src/publish.rs:419-464 | the target of an accepted name depends on its suffix alone, and accepted names hold no slash |
| MavenNames.TargetUploadable | crates/adapters/maven/src/publish.rs:419-501 | the exact condition under which the target of an accepted name can be uploaded itself |
| MavenNames.PrimaryExactlyWhen | crates/adapters/maven/src/publish.rs:466-501 | exactly the names `artifactId-version.extension` and `artifactId-version-classifier.extension` pass as primary names, and each other name has its error |
| MavenNames.PrimaryFileExactlyWhen | crates/adapters/maven/src/publish.rs:419-464 | a name is accepted as a POM, or as another primary file, exactly if it is plain, has no checksum or signature suffix and fits the coordinates, by its `.pom` |
| MavenNames.ChecksumExactlyWhen | crates/adapters/maven/src/publish.rs:419-445 | a name is accepted as a checksum of t by an algorithm exactly if it is plain and is t with the algorithm's suffix, and t fits the coordinates |
| MavenNames.SignatureExactlyWhen | crates/adapters/maven/src/publish.rs:437-445 | likewise for signatures |
| MavenNames.RefusedExactlyWhen | crates/adapters/maven/src/publish.rs:419-530 | which error a refused name has, exactly |
| MavenNames.CharactersListed | crates/adapters/maven/src/publish.rs:503-524 | which characters count as white space and as control characters, one by one |
| MavenNames.AcceptedWithUnacceptableTarget | crates/adapters/maven/src/publish.rs:466-478 | for all coordinates there are accepted names whose target is always refused |
| MavenNames.StorageKeyInjective | crates/adapters/maven/src/publish.rs:306-310 | no two (release, digest, file name) triples share a storage key |
| MavenProofs.InvStep | crates/adapters/maven/src/routes.rs:104-279 | every statement of every PUT keeps rows, blobs, targets and unfinished PUTs consistent |
| MavenProofs.RecordedBytesMatch | crates/adapters/maven/src/routes.rs:193-234 | interleaved PUTs with failures: each row's storage key holds bytes of the row's digest |
| MavenProofs.RecordedSizesMatch | crates/adapters/maven/src/routes.rs:193-234 | and of the row's size, unless two uploads of the run have one digest and two lengths |
| MavenProofs.RecordedNeverChanges | crates/adapters/maven/src/routes.rs:156-279 | interleaved PUTs with failures: a recorded file keeps its row while its release exists |
| MavenProofs.EveryRecordedTargetRecorded | crates/adapters/maven/src/routes.rs:147-154 | the target of a recorded checksum or signature is recorded, and following targets ends at a recorded primary or POM file |
| MavenSerial.Repository.ResolveOrCreateRelease | crates/adapters/maven/src/routes.rs:648-737 | resolves or creates as the machine does, or ends the PUT with the machine's response |
| MavenSerial.Repository.EnsureTarget | crates/adapters/maven/src/routes.rs:739-777 | goes on or ends the PUT as the machine does |
| MavenSerial.Repository.StoreBlob | crates/adapters/maven/src/routes.rs:193-211 | stores the bytes, or rolls a created release back and ends the PUT |
| MavenSerial.Repository.InsertArtifact | crates/adapters/maven/src/routes.rs:213-278 | inserts the row or finds the one that is there, as the machine does |
| MavenSerial.Repository.ApplyPostUploadUpdates | crates/adapters/maven/src/routes.rs:779-884 | runs the package's and the release's statement where the source has them, either of which may fail, publishing on a POM of an unpublished release only |
| MavenSerial.Repository.RollBack | crates/adapters/maven/src/routes.rs:203-208 | deletes the created release with its rows, or ignores that this failed |
| MavenSerial.Repository.RepositoryPut | crates/adapters/maven/src/routes.rs:104-279 | the whole handler ends in the tables and with the response that the machine's uninterrupted PUT ends with |
| MavenAnswers.PutToRelease | crates/adapters/maven/src/routes.rs:104-279 | one PUT, alone and without failures, to a release that is there: the answer and everything written, by target, recorded digest, hour and role |
| MavenAnswers.PutToNothing | crates/adapters/maven/src/routes.rs:648-737 | and to one that is not: a primary file or POM creates it and is recorded, a POM publishes it at once, a checksum or signature is a conflict |
| MavenWindow.ReleaseRowChanges | crates/adapters/maven/src/routes.rs:815-839 | every interleaving: a release row that stays changes exactly by the publishing statement of a POM whose PUT read it as unpublished, or by a status change from elsewhere |
| MavenWindow.PublicationSetsTime | crates/adapters/maven/src/routes.rs:815-839 | every interleaving: the publishing statement stamps the release with its own time and finds the POM recorded |
| MavenWindow.PublishedOnlyWithPom | crates/adapters/maven/src/routes.rs:815-839 | every interleaving without status changes from elsewhere: a published release has a recorded POM |
| MavenWindow.RepublishedExactlyWhen | crates/adapters/maven/src/routes.rs:156-279 | every interleaving: a release that is not unpublished is published again in some continuation, without being unpublished from elsewhere, exactly if an unfinished PUT of a POM that read it as unpublished is not rolling back and has its file unrecorded or recorded with its own digest |
| MavenWindow.OwnStatementsPublish | crates/adapters/maven/src/routes.rs:156-279 | and then that PUT's own statements publish it, if none of them fails |
| MavenWindow.PublishedOnce | crates/adapters/maven/src/routes.rs:815-839 | in particular, where at the time of publication no other such PUT of the release is under way and nobody unpublishes it, it is published once and its time set once |
| MavenGrace.LateFilesWereChecked | crates/adapters/maven/src/routes.rs:186-234 | every interleaving: a file enters a release its PUT read as published only if that PUT checked the window within the hour |
| MavenGrace.FilesFixedExactlyWhen | crates/adapters/maven/src/routes.rs:156-279 | every interleaving: a release that a PUT reading it now could add nothing to keeps row and files for good, while nobody sets its status, exactly if no unfinished PUT may still record a file of it or publish it again |
| MavenGrace.OwnStatementsRecord | crates/adapters/maven/src/routes.rs:147-234 | a PUT that may still record its file does so by its own statements, if none of them fails |
| MavenGrace.OpenTakesFile | crates/adapters/maven/src/routes.rs:104-234 | while the release accepts new files, any acceptable new file of a PUT that comes alone is recorded |
| MavenGrace.PublishedIsFinal | crates/adapters/maven/src/routes.rs:186-234 | PUTs one at a time that take their time: after publication no PUT, a repeated POM included, moves status or time, and later files come from PUTs that checked the window within the hour |
| MavenAcks.GoneExactlyWhen | crates/adapters/maven/src/routes.rs:203-208 | a release goes away exactly by a deletion or by a rollback that goes through |
| MavenAcks.AcknowledgedUnlessRemoved | crates/adapters/maven/src/routes.rs:156-279 | every interleaving: the file of an acknowledged PUT is recorded with its digest and bytes at the end exactly unless some step removed the release |
| MavenAcks.AcknowledgedMeansRecorded | crates/adapters/maven/src/routes.rs:203-279 | without deletions from elsewhere, exactly unless the PUT that created the release failed to write its blob and rolled back |
| MavenAcks.SecondPut | crates/adapters/maven/src/routes.rs:156-184 | where a file is deployed already, a PUT of it answers OK and touches nothing |
| MavenAcks.DeployTwiceIsDeployOnce | crates/adapters/maven/src/routes.rs:104-279 | after a PUT that succeeded without interruption, the same PUT without failures answers OK at any later time and leaves every table and blob as it is |
| MavenScenarios.AcknowledgedFileLost | crates/adapters/maven/src/routes.rs:203-211 | a run from the empty tables in which a PUT is acknowledged and its file goes with another PUT's rollback, after or even before |
| MavenScenarios.FileRecordedAfterTheHour | crates/adapters/maven/src/routes.rs:186-234 | a run from the empty tables, PUTs one at a time, in which a file is recorded any time after the hour |
| MavenScenarios.InterleavedPutsRepublish | crates/adapters/maven/src/routes.rs:815-839 | a run from the empty tables in which two overlapping PUTs of a POM publish twice, and the second moves the time |
| MavenScenarios.UploadsExist | crates/adapters/maven/src/publish.rs:419-464 | uploads as these runs need them exist for all acceptable coordinates |
| Pom.LocalName | crates/adapters/maven/src/publish.rs:584-591 | what follows the last colon of a name, or the whole name |
| Pom.ParsePomXml | crates/adapters/maven/src/publish.rs:324-416 | for every event sequence the loop returns what the texts met at each joined path make, and errors on malformed input or missing coordinates |
| PomFields.ReaderErrors | crates/adapters/maven/src/publish.rs:386-404 | for every event sequence: which error comes exactly when, with the parent standing in for group id and version |
| PomFields.ReaderFields | crates/adapters/maven/src/publish.rs:324-416 | for every event sequence that is read: at which joined path each of the nine fields has its text, and from which element of the parent group id and version come otherwise |
| PomFields.LettersLowered | crates/adapters/maven/src/publish.rs:604-625 | licenses that differ in the case of ASCII letters only are the same |
| PomFields.ReadDocument | crates/adapters/maven/src/publish.rs:324-416 | the same for documents in which nothing strays, by the elements of the tree |
| PomFields.DocumentErrors | crates/adapters/maven/src/publish.rs:386-404 | the same of the query on the tree: its errors |
| PomFields.DocumentFields | crates/adapters/maven/src/publish.rs:324-416 | and its fields |
| PomFields.ParentStandsIn | crates/adapters/maven/src/publish.rs:395-404 | for all texts: a POM that leaves group id and version to its parent has each from its own element |
| Pom.NormalizeStringList | crates/adapters/maven/src/publish.rs:604-625 | keeps the first spelling of each non-blank entry, trimmed, ignoring ASCII case |
| Texts.FirstSpellingsCover | crates/adapters/maven/src/publish.rs:604-625 | every non-blank entry keeps a representative |
| Texts.FirstSpellingsExactly | crates/adapters/maven/src/publish.rs:604-625 | the kept entries are, in order, exactly the first ones of their spelling, trimmed |
| Texts.FirstSpellingsOfNormalized | crates/adapters/maven/src/publish.rs:604-625 | normalizing a normalized list changes nothing |
| PomTree.JoinedInjective | crates/adapters/maven/src/publish.rs:370-370 | joined paths of slash-free names determine the names |
| PomTree.TextsMetForest | crates/adapters/maven/src/publish.rs:343-400 | over the events of any forest the loop meets the texts whose joined element names read the path, and has its stack back after |
| PomTree.ReaderGoesByJoinedNames | crates/adapters/maven/src/publish.rs:324-416 | for every document, whatever its names, the reader's result is made of those texts |
| PomTree.PathFoundExactlyWhen | crates/adapters/maven/src/publish.rs:370-383 | for every document and path the reader meets exactly the tree's texts if and only if no text elsewhere has names that read like the path |
| PomTree.ReaderAgreesWithTree | crates/adapters/maven/src/publish.rs:324-416 | where nothing strays to the paths of a POM, the reader's result is the tree query's, parent fallbacks included |
| PomTree.ReaderAgreesOnXml | crates/adapters/maven/src/publish.rs:324-416 | in particular for every document whose element names have no slash |
| PomTree.DeeperElementsIgnored | crates/adapters/maven/src/publish.rs:370-383 | a child that is no coordinate does not touch the coordinates, whatever it contains |
| PomTree.SlashInNameMisleads | crates/adapters/maven/src/publish.rs:370-371 | a document without a group id for which the reader returns one, by an element named after the path |
| CargoWire.ParseIsInverseOfBuild | crates/adapters/cargo-registry/src/publish.rs:146-235 | a body parses to a result exactly if it starts with a payload built within the limits whose JSON decodes to it with name and version |
| CargoWire.SplitOfBuilt | crates/adapters/cargo-registry/src/publish.rs:242-249 | parsing a built payload, whatever follows it, returns the same JSON and crate bytes |
| CargoWire.SplitIsBuilt | crates/adapters/cargo-registry/src/publish.rs:146-206 | every body that splits is a built payload followed by ignored bytes |
| CargoWire.BuildPrefixFree | crates/adapters/cargo-registry/src/publish.rs:242-249 | no payload within the limits is the start of another |
| CargoWire.CutPayloadIsRefused | crates/adapters/cargo-registry/src/publish.rs:146-206 | cutting bytes off an accepted payload is always noticed |
| CargoWire.TooLargeIsRefused | crates/adapters/cargo-registry/src/publish.rs:157-197 | payloads beyond a limit, or with an empty crate, are refused with the error of that limit |
| CargoWire.PayloadBytes | crates/adapters/cargo-registry/src/publish.rs:1-10 | a payload byte by byte, each length with its lowest byte first |
| CargoWire.RefusedExactlyWhen | crates/adapters/cargo-registry/src/publish.rs:138-196 | which error a body has, exactly, by the bytes of its two lengths |
| CargoWire.MetadataRefusedExactlyWhen | crates/adapters/cargo-registry/src/publish.rs:198-215 | and which one its metadata has |
| CargoRegistry.StripBuildMetadata | crates/adapters/cargo-registry/src/name.rs:97-99 | the part before the first plus sign |
| CargoRegistry.Registry.PublishCrate | crates/adapters/cargo-registry/src/routes.rs:722-867 | publishes statement by statement, with the state and response of each failure |
| CargoRegistry.Registry.PutCrate | crates/adapters/cargo-registry/src/routes.rs:454-867 | reads the body, then publishes it, or refuses it without a change |
| CargoRegistry.Registry.YankVersion | crates/adapters/cargo-registry/src/routes.rs:906-963 | yanks the visible release of that version, if there is one |
| CargoRegistry.Registry.UnyankVersion | crates/adapters/cargo-registry/src/routes.rs:965-1023 | unyanks the visible release of that version, if there is one |
| CargoRegistry.LinesComeBack | crates/adapters/cargo-registry/src/metadata.rs:71-73 | splitting the index at newlines gives back the lines that were joined |
| CargoRegistry.BuildIndexContent | crates/adapters/cargo-registry/src/metadata.rs:49-75 | the content splits into one encoded line per version, in order |
| CargoRegistry.Registry.ServeIndex | crates/adapters/cargo-registry/src/routes.rs:371-451 | serves one line per listed row, in the query's order, or answers that the client is current, that nothing is listed, or that the query failed |
| CargoRegistry.TagComparesDigests | crates/adapters/cargo-registry/src/routes.rs:427-439 | an earlier entity tag, quoted or not, is answered as current exactly if its digest is the content's |
| CargoRegistry.Registry.DownloadCrate | crates/adapters/cargo-registry/src/routes.rs:1297-1344 | serves the blob and digest of a visible artifact of that version, or answers not found or a failure |
| CargoProofs.InvStep | crates/adapters/cargo-registry/src/routes.rs:722-1000 | publish, yank and unyank keep artifacts sound, versions and times distinct, and every visible release with one artifact |
| CargoRuns.ListingUnique | crates/adapters/cargo-registry/src/routes.rs:372-381 | the index query has one possible result |
| CargoRuns.ListingSorted | crates/adapters/cargo-registry/src/routes.rs:372-381 | no version is listed twice, and lines are in strict order of publication |
| CargoRuns.PublishAppendsLine | crates/adapters/cargo-registry/src/routes.rs:722-867 | a successful publish appends one line with the digest of the uploaded bytes; any other leaves every index as it was |
| CargoRuns.YankChangesOneFlag | crates/adapters/cargo-registry/src/routes.rs:929-1000 | yank and unyank change the flag of that version's line and nothing else |
| CargoRuns.IndexGrows | crates/adapters/cargo-registry/src/routes.rs:371-425 | over whole runs the index only grows at its end, and a line only ever changes its flag |
| CargoRuns.DownloadMatchesIndex | crates/adapters/cargo-registry/src/routes.rs:1297-1327 | every listed version downloads, with bytes whose digest is the listed cksum |
| CargoRuns.OnlyListedDownloads | crates/adapters/cargo-registry/src/routes.rs:1297-1327 | exactly the listed versions download |
| CargoRuns.PublishedBytesComeBack | crates/adapters/cargo-registry/src/routes.rs:454-867 | after a built body is published every later download returns its crate bytes, whatever happens in between |
| CargoRuns.FailedPublishBurnsVersion | crates/adapters/cargo-registry/src/routes.rs:722-867 | a failed publish takes its version out of use for good exactly if its release row was written and not deleted again, or the version was taken before, and no index lists what it leaves |
| CargoRuns.PublishAnswers | crates/adapters/cargo-registry/src/routes.rs:722-867 | conflict, success or internal error, exactly when |
| CargoRuns.PublishWrites | crates/adapters/cargo-registry/src/routes.rs:722-867 | everything that a successful publish writes: release, file name, storage key, digest, size, extras and bytes |
| CargoRuns.YankWrites | crates/adapters/cargo-registry/src/routes.rs:906-1023 | yank and unyank write status and flag of the one release of that version, and nothing else |
| CargoRuns.OnlyQuarantineHidden | crates/adapters/cargo-registry/src/routes.rs:1297-1344 | index, downloads, yank and unyank see every release that is not in quarantine |
| OciCleanup.LexTotal | crates/api/src/job_handlers.rs:134-134 | the digest order of the candidate query is total |
| OciCleanup.OldestOrdered | crates/api/src/job_handlers.rs:122-135 | a batch is in query order, and nothing left out comes before anything in it |
| OciCleanup.Collector.CleanupOciBlobBatch | crates/api/src/job_handlers.rs:113-167 | deletes object and row of each candidate in order, and stops where a delete fails |
| OciCleanup.Collector.Handle | crates/api/src/job_handlers.rs:182-208 | enqueues itself again exactly after a full batch |
| OciCleanup.CleanupKeepsInventoried | crates/api/src/job_handlers.rs:143-164 | with a failure at either delete every stored blob still has its inventory row |
| OciChain.ChainCollectsAll | crates/api/src/job_handlers.rs:113-208 | the chain deletes exactly the aged unreferenced blobs, oldest first, in floor(n / b) + 1 runs |
| OciChain.RetriesConverge | crates/api/src/job_handlers.rs:143-208 | after any failing runs a retry ends where the chain would have ended |
| OciChain.RunsKeepInventoried | crates/api/src/job_handlers.rs:143-164 | over any failing runs every stored blob keeps its inventory row |
| OciChain.BlobSurvives | crates/api/src/job_handlers.rs:122-164 | a blob and its row survive exactly if it is young or referenced by a published release |
| OciChain.KeptExactlyWhen | crates/api/src/job_handlers.rs:119-135 | in microseconds and without helper names: a blob stays exactly if it is younger than the grace period or a published release refers to it as config or layer |
| OciChain.DeletedOldestFirst | crates/api/src/job_handlers.rs:134-134 | the chain deletes from the oldest upload to the newest, and by digest among equals |
| OciChain.LexByFirstDifference | crates/api/src/job_handlers.rs:134-134 | the digest order goes by the first character that differs |
| Authorization.CascadeFollowsRule | crates/api/src/request_auth.rs:1573-1618 | whichever rows the three queries pick, the cascade decides by the rule |
| Authorization.RolePicked | crates/api/src/request_auth.rs:471-580 | the role query's row decides by role and second factor |
| Authorization.PackageGrantPicked | crates/api/src/request_auth.rs:835-886 | whichever package grant is picked, the answer is the same |
| Authorization.RepositoryGrantPicked | crates/api/src/request_auth.rs:888-939 | whichever repository grant is picked, the answer is the same |
| Authorization.MissingExactlyWhen | crates/api/src/request_auth.rs:835-939 | the permission is missing exactly if the actor is not the owner and has no sufficient role, no serving grant on this package through a team of its organization, and none on its repository through a team of the repository's, with roles and permissions for each requirement |
| Authorization.MfaExactlyWhen | crates/api/src/request_auth.rs:1573-1618 | otherwise the second factor is missing exactly if the organization that the access comes from demands one and the actor has none |
| Authorization.OnlyOwnRowsDecide | crates/api/src/request_auth.rs:835-939 | no row of another user, package, repository or organization matters, neither to the API's decision nor to the adapters' |
| Authorization.NoRowsNoAccess | crates/api/src/request_auth.rs:1573-1618 | without rows of his own nobody but the owner gets through |
| Authorization.AdminGrantSuffices | crates/api/src/request_auth.rs:1573-1618 | one admin grant through a team of the right organization is enough for every requirement |
| Authorization.RuleMonotoneWithOneOwner | crates/api/src/request_auth.rs:1573-1618 | with one owner organization promotions, grants and second factors never take rights away |
| Authorization.RuleMonotoneUnlessStricter | crates/api/src/request_auth.rs:1573-1618 | nor where being held to the package owner's policy is no worse than to the repository owner's |
| Authorization.RightsCostExactlyWhen | crates/api/src/request_auth.rs:1573-1618 | in any database some gain of rights worsens a decision exactly if the actor, not the owner, is allowed now although the package owner's policy stops him, and making him an owner of the organization is one |
| Authorization.StricterOwnerBreaksMonotonicity | crates/api/src/request_auth.rs:1573-1618 | with a stricter package owner that situation arises, and a grant on the package takes publishing away |
| Authorization.AdaptersAgreeWithApi | crates/adapters/cargo-registry/src/routes.rs:1447-1530 | the Cargo and Maven check is true exactly if the API's publish decision is not a missing permission, and failing queries only refuse more |
| Authorization.FailureReadsAsNoRows | crates/adapters/cargo-registry/src/routes.rs:1447-1530 | a failing query of the adapters reads as one without rows |
| PackageForm.NormalizeKeywordList | frontend/src/utils/package-metadata.ts:264-295 | the first spellings of the keywords, or nothing |
| PackageForm.NormalizePackageMetadataKeywords | frontend/src/utils/package-metadata.ts:225-252 | the first spellings of the parts between separators, or nothing |
| PackageForm.BuildPackageMetadataUpdateInput | frontend/src/utils/package-metadata.ts:79-121 | names exactly the fields in which the form differs from the package, or reports an invalid visibility |
| PackageFormProofs.RunsDoNotMatter | frontend/src/utils/package-metadata.ts:233-233 | splitting at runs of separators finds the same words as splitting at each |
| PackageFormProofs.KeywordsComeBack | frontend/src/utils/package-metadata.ts:51-63 | printed and read back, keywords without separators are the same normalized keywords |
| PackageFormProofs.UntouchedFormChangesNothing | frontend/src/utils/package-metadata.ts:51-121 | saving an untouched form sends nothing exactly if no trimmed keyword has a comma or newline |
| PackageFormProofs.EditedFieldSent | frontend/src/utils/package-metadata.ts:51-121 | an edit of one text field names that field of the package, trimmed or null, if it differs, and no other |
| PackageFormProofs.EditedKeywordsSent | frontend/src/utils/package-metadata.ts:51-121 | likewise for the keywords |
| PackageFormProofs.EditedVisibilitySent | frontend/src/utils/package-metadata.ts:51-121 | likewise for the visibility, where a blank field clears it and another word is an error |
| PackageFormProofs.GapsAreOneUnderscore | frontend/src/utils/package-metadata.ts:184-213 | a run of blanks and hyphens inside a visibility stands for one underscore |
| PackageForm.WhiteListed | frontend/src/utils/package-metadata.ts:184-252 | which characters `trim` and the white-space class take, one by one |
| PackageFormProofs.SplitAtCommaOrNewline | frontend/src/utils/package-metadata.ts:225-252 | keywords are split at commas and newlines, and nowhere else |
| PackageFormProofs.SavingTwiceIsSavingOnce | frontend/src/utils/package-metadata.ts:79-121 | after an update, the same form values send nothing |
| RateLimit.RedisKeyInjective | crates/api/src/rate_limit.rs:147-149 | tier, identity and minute can be read off a key |
| RateLimit.KeyWrittenOut | crates/api/src/rate_limit.rs:147-149 | the key is the tier's prefix, the identity and the number of the minute |
| RateLimit.Limiter.CheckRateLimit | crates/api/src/rate_limit.rs:185-212 | the effect of INCR and EXPIRE on the counter, and the answer for each count: beyond the limit the time to wait is the TTL, or 60 seconds without a positive one |
| RateLimit.Limiter.RateLimitRequest | crates/api/src/rate_limit.rs:119-176 | a request is allowed exactly if fewer than the limit were counted before it in its minute, with or without EXPIRE, and let through if Redis fails |
| RateLimit.CountedExactly | crates/api/src/rate_limit.rs:185-197 | a counter cannot expire within its own minute, so INCR counts exactly |
| RateLimit.FirstOnesAllowed | crates/api/src/rate_limit.rs:185-212 | over any run, with lost EXPIREs and failing INCRs: of the requests counted in a minute exactly the first min(n, max) get through, and besides them those that Redis failed to count |
| RateLimit.TwiceTheLimit | crates/api/src/rate_limit.rs:147-149 | over any run, in any 60 seconds at most twice the limit gets through, and what Redis failed to count |
| RateLimit.TwiceTheLimitIsReached | crates/api/src/rate_limit.rs:147-149 | that bound is reached without any failure |
| XmlEscape.EscapeIsPerCharacter | crates/adapters/maven/src/metadata.rs:43-50 | the five replacements are one substitution per character |
| XmlEscape.PredefinedEntities | crates/adapters/maven/src/metadata.rs:43-50 | the entity of each of the five characters, and that no other character changes |
| XmlEscape.EscapedHasNoMarkup | crates/adapters/maven/src/metadata.rs:43-50 | no raw angle bracket or quote is left |
| XmlEscape.UnescapeEscape | crates/adapters/maven/src/metadata.rs:43-50 | expanding the predefined entities gives back the original |

## Left out

- HTTP, routing, authentication, audit logs, download counters and search indexing: no modelled property reads them.
- The admin routes that recover or retry jobs, and the other control-plane routes: a machine step exists for status changes of Maven releases, others would add transitions the theorems do not speak about.
- `enqueue_release_scan_jobs` inserts scan jobs one by one: the model states the assumption that they are all there before one is claimed.
- The scanners themselves: what they report is a parameter.
- `chrono::Duration` and `DateTime` ranges: times are unbounded integers, so a backoff that overflows a date is not modelled.
- A shift by 64 or more panics in a debug build: only the release-build reading is modelled.
- Package resolution and auto-creation in the Maven and Cargo adapters, and the metadata columns that uploads update: a request comes with its package.
- The comparison of a POM's coordinates with the request path in `parse_maven_upload`, and the upload's SHA-512: an upload comes parsed.
- ScanWorker.ScanLoop.RunLoop: submissions come between batches, sweeps do not fail, and jobs of other kinds touch the queue only; the theorems of `ScanningProofs` hold with all of these at any time.
- ScanHandler.ScanDatabase.SubmitRelease: a release is new when it is submitted, with its artifacts numbered from 0; uploading artifacts to it is not modelled here.
- MavenSerial.Repository.ApplyPostUploadUpdates: does not model the metadata columns of packages and releases, which no modelled property reads.
- MavenAcks.DeployTwiceIsDeployOnce: the two PUTs do not interleave with others, which could delete the release in between.
- XML tokenizing: the reader's events are the input, CDATA sections and entity references are other events, and text that does not decode is empty.
- The dependency conversion of a Cargo publish: it only renames fields, and is part of the abstract JSON.
- CargoRuns.IndexGrows: deletions and status changes by the control plane are not steps of this machine.
- OciChain.ChainCollectsAll: uploads and reference changes during a chain are not modelled; the clock, the references and the inventory's additions are fixed.
- Decisions on organizations, namespaces and teams, and reads of packages, in `request_auth.rs`: only the package write cascade is modelled.
- RateLimit.Limiter.RateLimitRequest: the key and the counter use one clock in one step, and the TTL reply is a parameter.
- `build_maven_metadata_xml`: a template around `xml_escape`, which would only add easy members.
- Other adapters (npm, PyPI, NuGet, RubyGems, Composer, OCI uploads), name validators, scopes, enum tables, the frontend's pages.
- Levenshtein similarity: the algorithm is in another crate.
