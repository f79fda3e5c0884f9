/**
 Artifact scanning on top of the job queue (crates/workers/src/scanners.rs, `ScanArtifactHandler`):
 the handler's statements as separate steps, interleaved with every other worker and with the queue.
 */
module Scanning {
  import opened Common
  import opened Jobs

  datatype Finding = Finding(kind: string, severity: string, title: string)

  datatype FindingRow = FindingRow(release: ReleaseId, artifact: nat, finding: Finding, resolved: bool)

  datatype ReleaseStatus = Quarantine | Scanning | Published | Deprecated | Yanked | Deleted

  datatype Release = Release(package: nat, status: ReleaseStatus, isYanked: bool, isDeprecated: bool)

  /** Where the handler of one claimed scan job stands. */
  datatype Phase =
    | Storing(todo: seq<Finding>)
    | Passed
    | Checked(blocking: bool, seen: seq<FindingRow>)
    | Loaded(blocking: bool, seen: seq<FindingRow>, package: nat, isYanked: bool, isDeprecated: bool)
    | Moved(package: nat)
    | Finished(ok: bool)

  /**
   `jobs`, `storedAt` and `deadDropped` record the past: the scan jobs that releases were submitted
   with, the length of the findings table when a job first had all its findings handed in, and the
   releases that lost a dead scan job that never did to the retention sweep.
   */
  datatype ScanState = ScanState(
    q: State,
    releases: map<ReleaseId, Release>,
    findings: seq<FindingRow>,
    phases: map<Ticket, Phase>,
    jobs: map<JobId, ReleaseId>,
    storedAt: map<JobId, nat>,
    deadDropped: set<ReleaseId>)

  datatype ScanStep =
    | Submit(release: ReleaseId, package: nat, jobs: set<JobId>)
    | Queue(step: Step)
    | Begin(ticket: Ticket, scanned: Option<seq<Finding>>)
    | Store(ticket: Ticket, inserted: bool)
    | Count(ticket: Ticket, dbError: bool)
    | Check(ticket: Ticket, dbError: bool)
    | Load(ticket: Ticket, dbError: bool)
    | Move(ticket: Ticket, dbError: bool)
    | Reindex(ticket: Ticket, id: JobId, dbError: bool)
    | SetFlags(release: ReleaseId, isYanked: bool, isDeprecated: bool)
    | SetStatus(release: ReleaseId, status: ReleaseStatus)
    | Resolve(index: nat, resolved: bool)

  // ---------------------------------------------------------------- the handler's queries

  predicate IsBlocking(f: FindingRow, release: ReleaseId) {
    f.release == release && !f.resolved && (f.finding.severity == "critical" || f.finding.kind == "malware")
  }

  predicate HasBlocking(findings: seq<FindingRow>, release: ReleaseId) {
    exists i :: 0 <= i < |findings| && IsBlocking(findings[i], release)
  }

  predicate Open(status: Status) {
    status.Pending? || status.Running? || status.Dead?
  }

  predicate OpenScanJob(rows: map<JobId, Job>, release: ReleaseId, id: JobId) {
    id in rows && rows[id].work.ScanArtifact? && rows[id].work.release == release && Open(rows[id].status)
  }

  function RemainingScanJobs(rows: map<JobId, Job>, release: ReleaseId): set<JobId> {
    set id | id in rows && OpenScanJob(rows, release, id)
  }

  function FinalStatus(blocking: bool, isYanked: bool, isDeprecated: bool): ReleaseStatus {
    if blocking then Quarantine else if isYanked then Yanked else if isDeprecated then Deprecated else Published
  }

  // ---------------------------------------------------------------- the machine

  function InitScan(now: int): ScanState {
    ScanState(Init(now), map[], [], map[], map[], map[], {})
  }

  predicate InPhase(s: ScanState, t: Ticket) {
    t in s.q.tickets && t.work.ScanArtifact? && t in s.phases
  }

  /** A scan job is settled only when its handler has returned; other kinds whenever they like. */
  predicate QueueEnabled(s: ScanState, step: Step) {
    && Enabled(s.q, step)
    && match step
       case Enqueue(id, work, _, _) =>
         if work.ScanArtifact? then id in s.jobs && s.jobs[id] == work.release else id !in s.jobs
       case Complete(t) => t.work.ScanArtifact? ==> t in s.phases && s.phases[t] == Finished(true)
       case Fail(t, _) => t.work.ScanArtifact? ==> t in s.phases && s.phases[t] == Finished(false)
       case _ => true
  }

  predicate ScanEnabled(s: ScanState, step: ScanStep) {
    match step
    case Submit(r, _, jobs) =>
      && r !in s.releases && jobs != {}
      && (forall id | id in jobs :: id !in s.q.history && id !in s.jobs)
    case Queue(step) => QueueEnabled(s, step)
    case Begin(t, _) => t in s.q.tickets && t.work.ScanArtifact? && t !in s.phases
    case Store(t, _) => InPhase(s, t) && s.phases[t].Storing? && s.phases[t].todo != []
    case Count(t, _) => InPhase(s, t) && s.phases[t] == Storing([])
    case Check(t, _) => InPhase(s, t) && s.phases[t].Passed?
    case Load(t, _) => InPhase(s, t) && s.phases[t].Checked?
    case Move(t, _) => InPhase(s, t) && s.phases[t].Loaded?
    case Reindex(t, id, _) =>
      && InPhase(s, t) && s.phases[t].Moved?
      && id !in s.q.history && id !in s.jobs
    case SetFlags(r, _, _) => r in s.releases
    case SetStatus(r, status) => r in s.releases && !status.Scanning?
    case Resolve(i, _) => i < |s.findings|
  }

  function DeadDroppedBy(rows: map<JobId, Job>, storedAt: map<JobId, nat>, now: int, hours: int): set<ReleaseId> {
    set id | id in rows && rows[id].status.Dead? && Expired(rows[id], now - 3600 * hours) && rows[id].work.ScanArtifact?
             && id !in storedAt
      :: rows[id].work.release
  }

  function ApplyQueue(s: ScanState, step: Step): ScanState
    requires QueueEnabled(s, step)
  {
    var s' := s.(q := Apply(s.q, step));
    match step
    case Complete(t) => s'.(phases := s.phases - {t})
    case Fail(t, _) => s'.(phases := s.phases - {t})
    case Abandon(lost) => s'.(phases := s.phases - lost)
    case CleanupFinished(hours) => s'.(deadDropped := s.deadDropped + DeadDroppedBy(s.q.rows, s.storedAt, s.q.now, hours))
    case _ => s'
  }

  function ApplyScan(s: ScanState, step: ScanStep): ScanState
    requires ScanEnabled(s, step)
  {
    match step
    case Submit(r, package, jobs) =>
      s.(releases := s.releases[r := Release(package, Scanning, false, false)], 
         jobs := map id | id in s.jobs.Keys + jobs :: if id in s.jobs then s.jobs[id] else r)
    case Queue(step) => ApplyQueue(s, step)
    case Begin(t, scanned) =>
      s.(phases := s.phases[t := if scanned.None? then Finished(false) else Storing(scanned.value)])
    case Store(t, inserted) =>
      var todo := s.phases[t].todo;
      s.(findings := if inserted then s.findings + [FindingRow(t.work.release, t.work.artifact, todo[0], false)] else s.findings,
         phases := s.phases[t := Storing(todo[1..])])
    case Count(t, dbError) =>
      var phase := if dbError then Finished(false)
                   else if |RemainingScanJobs(s.q.rows, t.work.release)| > 1 then Finished(true)
                   else Passed;
      s.(phases := s.phases[t := phase],
         storedAt := if t.id in s.storedAt then s.storedAt else s.storedAt[t.id := |s.findings|])
    case Check(t, dbError) =>
      s.(phases := s.phases[t := if dbError then Finished(false)
                                 else Checked(HasBlocking(s.findings, t.work.release), s.findings)])
    case Load(t, dbError) =>
      var r := t.work.release;
      s.(phases := s.phases[t := if dbError || r !in s.releases then Finished(false)
                                 else Loaded(s.phases[t].blocking, s.phases[t].seen, s.releases[r].package,
                                             s.releases[r].isYanked, s.releases[r].isDeprecated)])
    case Move(t, dbError) =>
      var r := t.work.release;
      if dbError then s.(phases := s.phases[t := Finished(false)])
      else if r in s.releases && s.releases[r].status.Scanning? then
        var status := FinalStatus(s.phases[t].blocking, s.phases[t].isYanked, s.phases[t].isDeprecated);
        s.(releases := s.releases[r := s.releases[r].(status := status)], phases := s.phases[t := Moved(s.phases[t].package)])
      else s.(phases := s.phases[t := Finished(true)])
    case Reindex(t, id, dbError) =>
      if dbError then s.(phases := s.phases[t := Finished(false)])
      else s.(q := Apply(s.q, Enqueue(id, ReindexSearch(s.phases[t].package), 5, s.q.now)), phases := s.phases[t := Finished(true)])
    case SetFlags(r, isYanked, isDeprecated) =>
      s.(releases := s.releases[r := s.releases[r].(isYanked := isYanked, isDeprecated := isDeprecated)])
    case SetStatus(r, status) =>
      s.(releases := s.releases[r := s.releases[r].(status := status)])
    case Resolve(i, resolved) =>
      s.(findings := s.findings[i := s.findings[i].(resolved := resolved)])
  }

  predicate AllEnqueued(s: ScanState, r: ReleaseId) {
    forall id | id in s.jobs && s.jobs[id] == r :: id in s.q.history
  }

  /**
   The disciplines of `Jobs.Allowed`, read for handlers as well.  In every mode the scan jobs of a
   release are all enqueued before one of them is claimed.  A lock-respecting worker counts the
   remaining jobs, and settles, only while its lock lasts; a single loop runs one handler at a time.
   */
  predicate ScanAllowed(mode: Mode, s: ScanState, step: ScanStep) {
    && (step.Queue? ==>
          && Allowed(mode, s.q, step.step)
          && (step.step.Claim? ==> forall id | id in step.step.ids && id in s.jobs :: AllEnqueued(s, s.jobs[id])))
    && (mode.LockRespecting? && step.Count? ==> s.q.now <= step.ticket.lockedUntil)
    && (mode.SingleLoop? && step.Begin? ==> s.phases == map[])
  }

  predicate ScanRun(mode: Mode, s: ScanState, steps: seq<ScanStep>)
    decreases |steps|
  {
    steps == [] ||
    (ScanEnabled(s, steps[0]) && ScanAllowed(mode, s, steps[0]) && ScanRun(mode, ApplyScan(s, steps[0]), steps[1..]))
  }

  function ScanExec(mode: Mode, s: ScanState, steps: seq<ScanStep>): ScanState
    requires ScanRun(mode, s, steps)
    decreases |steps|
  {
    if steps == [] then s else ScanExec(mode, ApplyScan(s, steps[0]), steps[1..])
  }
}
