/**
 One worker process with the scan handler registered (crates/workers/src/worker.rs,
 crates/workers/src/scanners.rs, `register_handler` in crates/api/src/main.rs): the select loop, the
 claimed batches and the handler together, proved to take the steps of the `Scanning` machine that a
 single loop allows, and to take all of them.
 */
module ScanWorker {
  import opened Common
  import opened Jobs
  import opened Scanning
  import opened ScanRuns
  import opened Worker
  import opened ScanHandler

  /** What the environment does with one claimed job: the time before and after its statements, and its settlement. */
  datatype JobRun = JobRun(before: nat, scan: Scan, other: Handling, error: string, after: nat, recorded: bool)

  datatype ScanEvent =
    | PollTick(skipped: set<JobId>, claimFails: bool, run: Ticket -> JobRun)
    | RecoveryTick
    | Submission(release: ReleaseId, package: nat, artifacts: nat)
    | ShutdownChanged(stop: bool)
    | Idle(seconds: nat)

  // ---------------------------------------------------------------- what the loop is to do

  function Waited(s: ScanState, seconds: nat): (s': ScanState)
    ensures s'.q.tickets == s.q.tickets && s'.q.history == s.q.history
  {
    s.(q := Apply(s.q, Tick(seconds)))
  }

  function HandlerRan(s: ScanState, job: Ticket, o: JobRun, id: JobId): (s': ScanState)
    requires id !in s.q.history
    ensures s'.q.tickets == s.q.tickets && s.q.history.Keys <= s'.q.history.Keys <= s.q.history.Keys + {id}
  {
    if job.work.ScanArtifact? then AfterHandler(s, job, o.scan, id) else s
  }

  /** How the handler returned, if there was one. */
  predicate HandledOk(s: ScanState, job: Ticket, o: JobRun) {
    if job.work.ScanArtifact? then job in s.phases && s.phases[job] == Finished(true) else o.other.Succeeded?
  }

  function ErrorOf(job: Ticket, o: JobRun): string {
    if job.work.ScanArtifact? then o.error else if o.other.Errored? then o.other.message else NO_HANDLER_MESSAGE
  }

  /** One claimed job: its time, its handler and its settlement. */
  function JobEnd(s: ScanState, job: Ticket, o: JobRun, id: JobId): ScanState
    requires job in s.q.tickets && id !in s.q.history
  {
    var handled := Waited(HandlerRan(Waited(s, o.before), job, o, id), o.after);
    AfterSettling(handled, job, HandledOk(handled, job, o), ErrorOf(job, o), o.recorded)
  }

  /** ... with whatever new id the handler may have drawn. */
  ghost predicate JobTaken(s: ScanState, job: Ticket, o: JobRun, s': ScanState) {
    job in s.q.tickets && exists id: JobId :: id !in s.q.history && id !in s.jobs && s' == JobEnd(s, job, o, id)
  }

  /** The states between the jobs of a batch. */
  ghost predicate BatchTrace(claimed: seq<Ticket>, run: Ticket -> JobRun, trace: seq<ScanState>) {
    |trace| == |claimed| + 1 && forall i :: 0 <= i < |claimed| ==> JobTaken(trace[i], claimed[i], run(claimed[i]), trace[i + 1])
  }

  ghost predicate BatchTaken(s: ScanState, claimed: seq<Ticket>, run: Ticket -> JobRun, s': ScanState) {
    exists trace :: BatchTrace(claimed, run, trace) && trace[0] == s && trace[|claimed|] == s'
  }

  /** One poll: nothing if the claim fails, and otherwise the claim and then the claimed batch, all of it. */
  ghost predicate ScanPolls(c: Config, s: ScanState, e: ScanEvent, s': ScanState)
    requires e.PollTick?
  {
    if e.claimFails then s' == s
    else
      exists ids: set<JobId>, claimed: seq<Ticket> ::
        && ClaimsBatch(c, s.q, e.skipped, ids, claimed)
        && BatchTaken(s.(q := Apply(s.q, Claim(c.workerId, ids, c.lockSeconds))), claimed, e.run, s')
  }

  /** What each event of the select loop does.  A submission needs a new release and an artifact. */
  ghost predicate ScanHappens(c: Config, s: ScanState, e: ScanEvent, s': ScanState) {
    match e
    case PollTick(_, _, _) => ScanPolls(c, s, e, s')
    case RecoveryTick => s' == ApplyScan(ApplyScan(s, Queue(RecoverStale)), Queue(CleanupFinished(c.retentionHours)))
    case Submission(release, package, artifacts) =>
      if release in s.releases || artifacts == 0 then s' == s
      else exists first: JobId :: NewFrom(s, first) && Submitted(s, release, package, first, artifacts, s')
    case ShutdownChanged(_) => s' == s
    case Idle(seconds) => s' == Waited(s, seconds)
  }

  ghost predicate NewFrom(s: ScanState, first: JobId) {
    (forall id | id in s.q.history :: id < first) && (forall id | id in s.jobs :: id < first)
  }

  const SCAN_STOP := ScanEvent.ShutdownChanged(true)

  /** The states between the events, up to the first stop or to the end. */
  ghost predicate ScanTrace(c: Config, events: seq<ScanEvent>, trace: seq<ScanState>) {
    && 1 <= |trace| <= |events| + 1
    && (forall i :: 0 <= i < |trace| - 1 ==> events[i] != SCAN_STOP && ScanHappens(c, trace[i], events[i], trace[i + 1]))
    && (|trace| <= |events| ==> events[|trace| - 1] == SCAN_STOP)
  }

  // ---------------------------------------------------------------- the loop

  class ScanLoop {
    const db: ScanDatabase
    const config: Config
    /** Ids are drawn in order, for UUIDs that are never drawn twice. */
    var nextId: JobId

    constructor (db: ScanDatabase, config: Config)
      requires db.Snapshot() == InitScan(db.queue.now)
      ensures this.db == db && this.config == config && Valid() && db.queue.tickets == {}
    {
      this.db := db;
      this.config := config;
      nextId := 0;
    }

    /** Between two jobs: no handler is at work, every submitted job is enqueued, and the next id is new. */
    ghost predicate Valid()
      reads this, db, db.queue
    {
      && db.phases == map[]
      && (forall id | id in db.jobs :: id in db.queue.history)
      && (forall id | id in db.queue.history :: id < nextId)
    }

    /** Time goes by. */
    method Pass(seconds: nat, ghost from: ScanState)
      requires ScanReached(SingleLoop, from, db.Snapshot())
      modifies db.queue
      ensures ScanReached(SingleLoop, from, db.Snapshot())
      ensures db.Snapshot() == Waited(old(db.Snapshot()), seconds)
    {
      hide ScanReached;
      ScanReachedStep(SingleLoop, from, db.Snapshot(), Queue(Tick(seconds)));
      db.queue.Advance(seconds);
    }

    /** The registered handler, or the lack of one. */
    method RunHandler(job: Ticket, o: JobRun) returns (ok: bool, error: string)
      requires Valid() && job in db.queue.tickets
      modifies this`nextId, db, db.queue
      ensures ScanReached(SingleLoop, old(db.Snapshot()), db.Snapshot())
      ensures db.Snapshot() == HandlerRan(old(db.Snapshot()), job, o, old(nextId))
      ensures db.phases == if job.work.ScanArtifact? then map[job := Finished(ok)] else map[]
      ensures ok == HandledOk(db.Snapshot(), job, o) && error == ErrorOf(job, o) && nextId == old(nextId) + 1
    {
      hide ScanReached, AfterHandler;
      match job.work {
        case ScanArtifact(release, artifact) =>
          ok := db.Handle(job, release, artifact, o.scan, nextId, SingleLoop);
          error := o.error;
        case _ =>
          ScanReachedStart(SingleLoop, db.Snapshot());
          ok := o.other.Succeeded?;
          error := if o.other.Errored? then o.other.message else NO_HANDLER_MESSAGE;
      }
      nextId := nextId + 1;
    }

    method HandleOne(job: Ticket, o: JobRun)
      requires Valid() && job in db.queue.tickets
      modifies this`nextId, db, db.queue
      ensures Valid() && db.queue.tickets == old(db.queue.tickets) - {job}
      ensures ScanReached(SingleLoop, old(db.Snapshot()), db.Snapshot())
      ensures JobTaken(old(db.Snapshot()), job, o, db.Snapshot())
    {
      hide ScanReached, HandlerRan, AfterHandler, AfterSettling;
      ghost var s := db.Snapshot();
      ghost var id := nextId;
      ScanReachedStart(SingleLoop, s);
      Pass(o.before, s);
      ghost var started := db.Snapshot();
      var ok, error := RunHandler(job, o);
      KeepsJobs(started, job, o, id);
      ScanReachedTransitive(SingleLoop, s, started, db.Snapshot());
      Pass(o.after, s);
      ghost var handled := db.Snapshot();
      db.Settle(job, ok, error, o.recorded, SingleLoop);
      ScanReachedTransitive(SingleLoop, s, handled, db.Snapshot());
      assert db.Snapshot() == JobEnd(s, job, o, id);
      SettlingKeepsJobs(handled, job, ok, error, o.recorded);
    }

    /** Every claimed job is handled and settled exactly once, in the order RETURNING listed it. */
    method ProcessBatch(claimed: seq<Ticket>, run: Ticket -> JobRun)
      requires Valid() && Handled(claimed) == db.queue.tickets
      requires forall i, k | 0 <= i < k < |claimed| :: claimed[i] != claimed[k]
      modifies this`nextId, db, db.queue
      ensures Valid() && db.queue.tickets == {}
      ensures BatchTaken(old(db.Snapshot()), claimed, run, db.Snapshot())
      ensures ScanReached(SingleLoop, old(db.Snapshot()), db.Snapshot())
    {
      hide ScanReached, JobTaken;
      ghost var s := db.Snapshot();
      ghost var trace := [s];
      ScanReachedStart(SingleLoop, s);
      for i := 0 to |claimed|
        invariant Valid() && db.queue.tickets == Handled(claimed) - Handled(claimed[..i])
        invariant |trace| == i + 1 && trace[0] == s && trace[i] == db.Snapshot()
        invariant forall k :: 0 <= k < i ==> JobTaken(trace[k], claimed[k], run(claimed[k]), trace[k + 1])
        invariant ScanReached(SingleLoop, s, db.Snapshot())
      {
        ghost var before := db.Snapshot();
        NextTicket(claimed, i);
        HandleOne(claimed[i], run(claimed[i]));
        ScanReachedTransitive(SingleLoop, s, before, db.Snapshot());
        trace := trace + [db.Snapshot()];
      }
      assert claimed[..|claimed|] == claimed;
      assert BatchTrace(claimed, run, trace);
    }

    method PollAndProcess(e: ScanEvent)
      requires e.PollTick? && Valid() && db.queue.tickets == {}
      modifies this`nextId, db, db.queue
      ensures Valid() && db.queue.tickets == {}
      ensures ScanPolls(config, old(db.Snapshot()), e, db.Snapshot())
      ensures ScanReached(SingleLoop, old(db.Snapshot()), db.Snapshot())
    {
      hide ScanReached, EarliestOf, BatchTaken;
      ghost var s := db.Snapshot();
      ScanReachedStart(SingleLoop, s);
      if e.claimFails {
        return;
      }
      var claimed := db.queue.ClaimJobs(config.workerId, config.batchSize, config.lockSeconds, e.skipped);
      ghost var ids: set<JobId> :|
        && EarliestOf(s.q.rows, Candidates(s.q.rows, s.q.now, e.skipped), ids, config.batchSize)
        && Enabled(s.q, Claim(config.workerId, ids, config.lockSeconds))
        && db.queue.Snapshot() == Apply(s.q, Claim(config.workerId, ids, config.lockSeconds))
        && ReturningRows(claimed, s.q.rows, ids, s.q.now, config.lockSeconds, config.workerId);
      ScanReachedStep(SingleLoop, s, s, Queue(Claim(config.workerId, ids, config.lockSeconds)));
      ClaimedAll(s.q, claimed, ids, config.lockSeconds, config.workerId);
      ghost var mid := db.Snapshot();
      ProcessBatch(claimed, e.run);
      ScanReachedTransitive(SingleLoop, s, mid, db.Snapshot());
      assert ClaimsBatch(config, s.q, e.skipped, ids, claimed) && BatchTaken(mid, claimed, e.run, db.Snapshot());
    }

    method RecoverAndCleanup()
      requires Valid() && db.queue.tickets == {}
      modifies db`deadDropped, db.queue
      ensures Valid() && db.queue.tickets == {}
      ensures db.Snapshot() == ApplyScan(ApplyScan(old(db.Snapshot()), Queue(RecoverStale)), Queue(CleanupFinished(config.retentionHours)))
      ensures ScanReached(SingleLoop, old(db.Snapshot()), db.Snapshot())
    {
      hide ScanReached;
      ghost var s := db.Snapshot();
      ScanReachedStart(SingleLoop, s);
      ScanReachedStep(SingleLoop, s, s, Queue(RecoverStale));
      var _ := db.queue.RecoverStaleJobs();
      CleanupOld(s);
    }

    method CleanupOld(ghost from: ScanState)
      requires ScanReached(SingleLoop, from, db.Snapshot()) && Valid() && db.queue.tickets == {}
      modifies db`deadDropped, db.queue
      ensures Valid() && db.queue.tickets == {}
      ensures db.Snapshot() == ApplyScan(old(db.Snapshot()), Queue(CleanupFinished(config.retentionHours)))
      ensures ScanReached(SingleLoop, from, db.Snapshot())
    {
      hide ScanReached;
      ScanReachedStep(SingleLoop, from, db.Snapshot(), Queue(CleanupFinished(config.retentionHours)));
      db.RecordDropped(config.retentionHours);
      var _ := db.queue.CleanupFinishedJobs(config.retentionHours);
    }

    method Submit(release: ReleaseId, package: nat, artifacts: nat)
      requires Valid() && db.queue.tickets == {}
      modifies this`nextId, db, db.queue
      ensures Valid() && db.queue.tickets == {}
      ensures ScanHappens(config, old(db.Snapshot()), Submission(release, package, artifacts), db.Snapshot())
      ensures ScanReached(SingleLoop, old(db.Snapshot()), db.Snapshot())
    {
      hide ScanReached;
      ghost var s := db.Snapshot();
      ScanReachedStart(SingleLoop, s);
      if release !in db.releases && artifacts > 0 {
        assert NewFrom(s, nextId);
        db.SubmitRelease(release, package, nextId, artifacts, SingleLoop);
        assert Submitted(s, release, package, nextId, artifacts, db.Snapshot());
        nextId := nextId + artifacts;
      }
    }

    /**
     Submissions, polls with whole batches of scans, sweeps and waiting: the process does what its events
     say, in their order, until it is told to stop, and takes only steps of the scanning machine that the
     `SingleLoop` discipline allows.
     */
    method RunLoop(events: seq<ScanEvent>)
      requires Valid() && db.queue.tickets == {}
      modifies this`nextId, db, db.queue
      ensures Valid() && db.queue.tickets == {}
      ensures exists trace :: ScanTrace(config, events, trace)
                && trace[0] == old(db.Snapshot()) && trace[|trace| - 1] == db.Snapshot()
      ensures ScanReached(SingleLoop, old(db.Snapshot()), db.Snapshot())
    {
      hide ScanReached, ScanPolls, Submitted;
      ghost var s := db.Snapshot();
      ghost var trace := [s];
      ScanReachedStart(SingleLoop, s);
      for i := 0 to |events|
        invariant Valid() && db.queue.tickets == {}
        invariant |trace| == i + 1 && trace[0] == s && trace[i] == db.Snapshot()
        invariant forall k :: 0 <= k < i ==> events[k] != SCAN_STOP && ScanHappens(config, trace[k], events[k], trace[k + 1])
        invariant ScanReached(SingleLoop, s, db.Snapshot())
      {
        ghost var before := db.Snapshot();
        ScanReachedStart(SingleLoop, before);
        match events[i] {
          case PollTick(_, _, _) => PollAndProcess(events[i]);
          case RecoveryTick => RecoverAndCleanup();
          case Submission(release, package, artifacts) => Submit(release, package, artifacts);
          case ShutdownChanged(stop) =>
            if stop {
              assert ScanTrace(config, events, trace);
              return;
            }
          case Idle(seconds) => Pass(seconds, before);
        }
        ScanReachedTransitive(SingleLoop, s, before, db.Snapshot());
        assert ScanHappens(config, before, events[i], db.Snapshot());
        trace := trace + [db.Snapshot()];
      }
      assert ScanTrace(config, events, trace);
    }
  }

  lemma KeepsJobs(s: ScanState, job: Ticket, o: JobRun, id: JobId)
    requires id !in s.q.history
    ensures HandlerRan(s, job, o, id).jobs == s.jobs
  {
    hide RemainingScanJobs, Decided, InsertedRows;
  }

  lemma SettlingKeepsJobs(s: ScanState, job: Ticket, ok: bool, error: string, recorded: bool)
    requires job in s.q.tickets
    ensures AfterSettling(s, job, ok, error, recorded).jobs == s.jobs
  {
  }
}
