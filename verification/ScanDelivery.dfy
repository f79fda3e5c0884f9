/**
 From the submission of a release to its decision (crates/api/src/job_handlers.rs,
 crates/workers/src/worker.rs, crates/workers/src/scanners.rs): what one poll of one worker makes of it.
 */
module ScanDelivery {
  import opened Common
  import opened Jobs
  import opened JobsProofs
  import opened Scanning
  import opened Worker
  import opened ScanHandler
  import opened ScanWorker

  const ALL_WELL := Faults(false, false, false, false, false)

  /** Bytes and scanners may bring whatever they like, and inserts may fail; every other statement goes through. */
  predicate GoesThrough(o: JobRun) {
    o.scan.fetched && o.scan.faults == ALL_WELL && o.recorded
  }

  // ---------------------------------------------------------------- one job

  /** What one scan job does to its release, which is scanning. */
  lemma ScanTaken(s: ScanState, t: Ticket, o: JobRun, s': ScanState)
    requires JobTaken(s, t, o, s') && GoesThrough(o) && s.phases == map[]
    requires t.work.ScanArtifact? && OpenScanJob(s.q.rows, t.work.release, t.id)
    requires t.work.release in s.releases && s.releases[t.work.release].status.Scanning?
    requires forall id | id in s.q.rows :: id in s.q.history
    ensures var r := t.work.release; var others := RemainingScanJobs(s.q.rows, r) - {t.id};
      && s'.phases == map[] && (forall id | id in s'.q.rows :: id in s'.q.history)
      && t.id in s'.q.rows && s'.q.rows[t.id].status.Completed? && s'.q.rows[t.id].attempts == s.q.rows[t.id].attempts
      && (forall id | id in s.q.rows && id != t.id :: id in s'.q.rows && s'.q.rows[id] == s.q.rows[id])
      && RemainingScanJobs(s'.q.rows, r) == others
      && s'.findings == s.findings + InsertedRows(r, t.work.artifact, AllFindings(o.scan.results), o.scan.insertOk)
      && s'.releases == if others != {} then s.releases else Decided(s.releases, s'.findings, r)
  {
    var id: JobId :| id !in s.q.history && id !in s.jobs && s' == JobEnd(s, t, o, id);
    var r := t.work.release;
    OthersCounted(RemainingScanJobs(s.q.rows, r), t.id);
    CountedLater(s, t, o.before);
    hide RemainingScanJobs, Decided, InsertedRows, AllFindings;
    ScanTakenBy(s, t, o, id);
    RemainingAfter(s.q.rows, s'.q.rows, r, t.id);
  }

  lemma OthersCounted(remaining: set<JobId>, id: JobId)
    requires id in remaining
    ensures |remaining| > 1 <==> remaining - {id} != {}
  {
    assert |remaining - {id}| == |remaining| - 1;
  }

  lemma CountedLater(s: ScanState, t: Ticket, seconds: nat)
    ensures Waited(s, seconds).q.rows == s.q.rows && Waited(s, seconds).findings == s.findings
    ensures Waited(s, seconds).releases == s.releases && Waited(s, seconds).phases == s.phases
  {
  }

  lemma ScanTakenBy(s: ScanState, t: Ticket, o: JobRun, id: JobId)
    requires t in s.q.tickets && id !in s.q.history && GoesThrough(o) && s.phases == map[]
    requires t.work.ScanArtifact? && t.id in s.q.rows && t.work.release in s.releases && s.releases[t.work.release].status.Scanning?
    requires forall id | id in s.q.rows :: id in s.q.history
    ensures var s' := JobEnd(s, t, o, id); var r := t.work.release; var last := |RemainingScanJobs(s.q.rows, r)| <= 1;
      && s'.phases == map[] && (forall id | id in s'.q.rows :: id in s'.q.history)
      && t.id in s'.q.rows && s'.q.rows[t.id].status.Completed? && s'.q.rows[t.id].attempts == s.q.rows[t.id].attempts
      && (forall id | id in s.q.rows && id != t.id :: id in s'.q.rows && s'.q.rows[id] == s.q.rows[id])
      && (forall id | id in s'.q.rows && id !in s.q.rows :: s'.q.rows[id].work.ReindexSearch?)
      && s'.findings == s.findings + InsertedRows(r, t.work.artifact, AllFindings(o.scan.results), o.scan.insertOk)
      && s'.releases == if last then Decided(s.releases, s'.findings, r) else s.releases
  {
    hide RemainingScanJobs, Decided, InsertedRows, AllFindings;
  }

  lemma RemainingAfter(rows: map<JobId, Job>, rows': map<JobId, Job>, r: ReleaseId, done: JobId)
    requires done in rows && done in rows' && rows'[done].status.Completed?
    requires forall id | id in rows && id != done :: id in rows' && rows'[id] == rows[id]
    requires forall id | id in rows' && id !in rows :: rows'[id].work.ReindexSearch?
    ensures RemainingScanJobs(rows', r) == RemainingScanJobs(rows, r) - {done}
  {
  }

  // ---------------------------------------------------------------- the batch

  function IdsOf(claimed: seq<Ticket>): set<JobId> {
    set t | t in claimed :: t.id
  }

  /** The batch holds exactly the open scan jobs of one scanning release, and every job goes through. */
  predicate WholeRelease(s: ScanState, claimed: seq<Ticket>, run: Ticket -> JobRun, r: ReleaseId) {
    && s.phases == map[] && (forall id | id in s.q.rows :: id in s.q.history)
    && r in s.releases && s.releases[r].status.Scanning?
    && (forall i | 0 <= i < |claimed| ::
          claimed[i].work.ScanArtifact? && claimed[i].work.release == r && GoesThrough(run(claimed[i])))
    && (forall i, k | 0 <= i < k < |claimed| :: claimed[i].id != claimed[k].id)
    && RemainingScanJobs(s.q.rows, r) == IdsOf(claimed)
  }

  /** Where the batch stands after its first `i` jobs. */
  predicate Progress(s: ScanState, claimed: seq<Ticket>, r: ReleaseId, i: nat, s': ScanState)
    requires i <= |claimed|
  {
    && s'.phases == map[] && (forall id | id in s'.q.rows :: id in s'.q.history)
    && RemainingScanJobs(s'.q.rows, r) == IdsOf(claimed[i..])
    && (forall id | id in s.q.rows :: id in s'.q.rows && s'.q.rows[id].attempts == s.q.rows[id].attempts)
    && (forall k | 0 <= k < i :: claimed[k].id in s'.q.rows && s'.q.rows[claimed[k].id].status.Completed?)
    && s.findings <= s'.findings
    && (r in s.releases ==> s'.releases == if i == |claimed| > 0 then Decided(s.releases, s'.findings, r) else s.releases)
  }

  lemma IdsLeft(claimed: seq<Ticket>, i: nat)
    requires i < |claimed| && forall i, k | 0 <= i < k < |claimed| :: claimed[i].id != claimed[k].id
    ensures claimed[i].id in IdsOf(claimed[i..]) && IdsOf(claimed[i..]) - {claimed[i].id} == IdsOf(claimed[i + 1..])
    ensures IdsOf(claimed[i + 1..]) == {} <==> i + 1 == |claimed|
  {
    assert claimed[i..] == [claimed[i]] + claimed[i + 1..];
    if i + 1 < |claimed| {
      assert claimed[i + 1..][0].id in IdsOf(claimed[i + 1..]);
    }
  }

  lemma {:induction false} BatchProgress(s: ScanState, claimed: seq<Ticket>, run: Ticket -> JobRun, r: ReleaseId, trace: seq<ScanState>, i: nat)
    requires BatchTrace(claimed, run, trace) && trace[0] == s && WholeRelease(s, claimed, run, r) && i <= |claimed|
    ensures Progress(s, claimed, r, i, trace[i])
    ensures forall k | 0 <= k < i :: StoredIn(r, claimed[k].work.artifact, run(claimed[k]).scan, trace[i].findings)
    decreases i
  {
    hide JobTaken, RemainingScanJobs, Decided, StoredIn, IdsOf;
    if i == 0 {
      assert claimed[0..] == claimed;
    } else {
      BatchProgress(s, claimed, run, r, trace, i - 1);
      IdsLeft(claimed, i - 1);
      var before, t, o := trace[i - 1], claimed[i - 1], run(claimed[i - 1]);
      IsOpen(before.q.rows, r, t.id);
      ScanTaken(before, t, o, trace[i]);
      NowStored(before.findings, r, t.work.artifact, o.scan);
      forall k | 0 <= k < i - 1 ensures StoredIn(r, claimed[k].work.artifact, run(claimed[k]).scan, trace[i].findings) {
        StaysStored(r, claimed[k].work.artifact, run(claimed[k]).scan, before.findings, trace[i].findings);
      }
    }
  }

  lemma IsOpen(rows: map<JobId, Job>, r: ReleaseId, id: JobId)
    requires id in RemainingScanJobs(rows, r)
    ensures OpenScanJob(rows, r, id)
  {
  }

  /** Every finding that a scanner reported on the artifact, and whose insert went through, is in the table. */
  predicate StoredIn(r: ReleaseId, artifact: nat, scan: Scan, findings: seq<FindingRow>) {
    forall k, j | 0 <= k < |scan.results| && scan.results[k].Some? && 0 <= j < |scan.results[k].value|
      && scan.insertOk(Before(scan.results, k) + j) :: FindingRow(r, artifact, scan.results[k].value[j], false) in findings
  }

  lemma NowStored(before: seq<FindingRow>, r: ReleaseId, artifact: nat, scan: Scan)
    ensures StoredIn(r, artifact, scan, before + InsertedRows(r, artifact, AllFindings(scan.results), scan.insertOk))
  {
    hide InsertedRows, AllFindings, Before;
    var found := AllFindings(scan.results);
    var after := before + InsertedRows(r, artifact, found, scan.insertOk);
    var kept := InsertedRowsAreKept(before, r, artifact, found, scan.insertOk);
    forall k, j | 0 <= k < |scan.results| && scan.results[k].Some? && 0 <= j < |scan.results[k].value|
      && scan.insertOk(Before(scan.results, k) + j) ensures FindingRow(r, artifact, scan.results[k].value[j], false) in after
    {
      var i := Before(scan.results, k) + j;
      ReportedAt(scan.results, k, j);
      assert i in kept;
      var a :| 0 <= a < |kept| && kept[a] == i;
      assert after[|before| + a] == FindingRow(r, artifact, found[kept[a]], false);
    }
  }

  lemma StaysStored(r: ReleaseId, artifact: nat, scan: Scan, findings: seq<FindingRow>, findings': seq<FindingRow>)
    requires StoredIn(r, artifact, scan, findings) && findings <= findings'
    ensures StoredIn(r, artifact, scan, findings')
  {
    hide Before;
    assert forall row | row in findings :: row in findings';
  }

  // ---------------------------------------------------------------- from submission to decision

  function TicketOf(c: Config, q: State, id: JobId): Ticket
    requires id in q.rows
  {
    NewTicket(id, q.rows[id], q.now, c.lockSeconds, c.workerId)
  }

  /** The tickets are those of the submitted jobs, each once. */
  ghost predicate HoldsSubmitted(c: Config, q: State, r: ReleaseId, first: JobId, n: nat, claimed: seq<Ticket>) {
    && (forall id | id in IdsFrom(first, n) ::
          id in q.rows && TicketOf(c, q, id) in claimed && q.rows[id].work == ScanArtifact(r, id - first))
    && (forall i | 0 <= i < |claimed| :: claimed[i].id in IdsFrom(first, n) && claimed[i] == TicketOf(c, q, claimed[i].id))
    && (forall i, k | 0 <= i < k < |claimed| :: claimed[i].id != claimed[k].id)
  }

  /** The batch of a poll that finds the submitted jobs, and nothing else, due. */
  lemma ClaimsSubmitted(c: Config, s: ScanState, r: ReleaseId, package: nat, n: nat, first: JobId, s1: ScanState, seconds: nat,
                        ids: set<JobId>, claimed: seq<Ticket>)
    requires s.q.rows == map[] && Submitted(s, r, package, first, n, s1) && n <= c.batchSize
    requires ClaimsBatch(c, Waited(s1, seconds).q, {}, ids, claimed)
    ensures ids == IdsFrom(first, n)
    ensures HoldsSubmitted(c, Waited(s1, seconds).q, r, first, n, claimed)
  {
    hide EarliestOf, Candidates, Submitted, Waited, ScansEnqueued, IdsFrom, Apply, Enabled;
    var q := Waited(s1, seconds).q;
    DueAfterSubmission(s, r, package, n, first, s1, seconds);
    IdsFromSize(first, n);
    AllFit(q.rows, Candidates(q.rows, q.now, {}), ids, c.batchSize);
  }

  function NewScanJob(r: ReleaseId, artifact: nat, now: int): Job {
    Job(ScanArtifact(r, artifact), Pending, 0, DEFAULT_MAX_ATTEMPTS, now, None, None, None, None, None)
  }

  lemma EnqueuedRow(q: State, r: ReleaseId, first: JobId, n: nat, q': State, id: JobId)
    requires ScansEnqueued(q, r, first, n, q') && first <= id < first + n
    ensures id in q'.rows && q'.rows[id] == NewScanJob(r, id - first, q.now)
  {
    var i := id - first;
    assert q'.rows[first + i] == NewScanJob(r, i, q.now);
  }

  lemma DueAfterSubmission(s: ScanState, r: ReleaseId, package: nat, n: nat, first: JobId, s1: ScanState, seconds: nat)
    requires s.q.rows == map[] && Submitted(s, r, package, first, n, s1)
    ensures var q := Waited(s1, seconds).q;
      && q.rows == s1.q.rows && q.rows.Keys == IdsFrom(first, n) && Candidates(q.rows, q.now, {}) == IdsFrom(first, n)
      && (forall id | id in IdsFrom(first, n) :: q.rows[id] == NewScanJob(r, id - first, s.q.now))
  {
    hide IdsFrom, Candidates;
    var q := Waited(s1, seconds).q;
    assert q.rows == s1.q.rows && q.rows.Keys == IdsFrom(first, n) && s.q.now <= q.now;
    forall id | id in IdsFrom(first, n) ensures q.rows[id] == NewScanJob(r, id - first, s.q.now) {
      EnqueuedRow(s.q, r, first, n, s1.q, id);
    }
    AllDue(q.rows, q.now, s.q.now, r, first);
  }

  lemma AllDue(rows: map<JobId, Job>, now: int, enqueued: int, r: ReleaseId, first: JobId)
    requires enqueued <= now
    requires forall id | id in rows :: id >= first && rows[id] == NewScanJob(r, id - first, enqueued)
    ensures Candidates(rows, now, {}) == rows.Keys
  {
  }

  lemma IdsFromSize(first: JobId, n: nat)
    ensures |IdsFrom(first, n)| == n
  {
  }

  /** The state in which the poll has claimed the jobs. */
  function AfterClaim(c: Config, w: ScanState, ids: set<JobId>): ScanState
    requires Enabled(w.q, Claim(c.workerId, ids, c.lockSeconds))
  {
    w.(q := Apply(w.q, Claim(c.workerId, ids, c.lockSeconds)))
  }

  lemma ClaimKeeps(c: Config, w: ScanState, ids: set<JobId>)
    requires Enabled(w.q, Claim(c.workerId, ids, c.lockSeconds)) && ids == w.q.rows.Keys
    ensures var mid := AfterClaim(c, w, ids);
      && mid == w.(q := mid.q) && mid.q.history == w.q.history && mid.q.rows.Keys == w.q.rows.Keys
      && (forall id | id in mid.q.rows :: mid.q.rows[id] == ClaimedRow(w.q.rows[id], w.q.now, c.lockSeconds, c.workerId))
  {
  }

  lemma OpenAfterClaim(r: ReleaseId, artifact: nat, enqueued: int, now: int, lockSeconds: int, worker: WorkerId)
    ensures var j := ClaimedRow(NewScanJob(r, artifact, enqueued), now, lockSeconds, worker);
      j.work == ScanArtifact(r, artifact) && j.status.Running? && j.attempts == 1
  {
  }

  lemma SubmittedKeeps(s: ScanState, r: ReleaseId, package: nat, n: nat, first: JobId, s1: ScanState, seconds: nat)
    requires Submitted(s, r, package, first, n, s1) && s.q.rows == map[]
    ensures var w := Waited(s1, seconds);
      && w.phases == s.phases && w.findings == s.findings && w.q.rows.Keys <= w.q.history.Keys
      && w.releases == s.releases[r := Release(package, ReleaseStatus.Scanning, false, false)]
  {
    hide IdsFrom;
  }

  lemma BatchIsWhole(c: Config, s: ScanState, r: ReleaseId, package: nat, n: nat, first: JobId, s1: ScanState, seconds: nat,
                     claimed: seq<Ticket>, run: Ticket -> JobRun)
    requires s.q.rows == map[] && s.phases == map[] && Submitted(s, r, package, first, n, s1)
    requires HoldsSubmitted(c, Waited(s1, seconds).q, r, first, n, claimed) && forall t :: GoesThrough(run(t))
    requires Enabled(Waited(s1, seconds).q, Claim(c.workerId, IdsFrom(first, n), c.lockSeconds))
    ensures var mid := AfterClaim(c, Waited(s1, seconds), IdsFrom(first, n));
      && WholeRelease(mid, claimed, run, r) && mid.q.rows.Keys == IdsFrom(first, n)
      && (forall id | id in IdsFrom(first, n) :: mid.q.rows[id].attempts == 1)
      && mid.releases == s.releases[r := Release(package, ReleaseStatus.Scanning, false, false)] && mid.findings == s.findings
  {
    hide IdsFrom, Candidates, GoesThrough, Submitted, ScansEnqueued, AfterClaim, Waited, Enabled, Apply, RemainingScanJobs, IdsOf, NewScanJob, ClaimedRow;
    var w := Waited(s1, seconds);
    var mid := AfterClaim(c, w, IdsFrom(first, n));
    DueAfterSubmission(s, r, package, n, first, s1, seconds);
    SubmittedKeeps(s, r, package, n, first, s1, seconds);
    ClaimKeeps(c, w, IdsFrom(first, n));
    forall id | id in IdsFrom(first, n) ensures OpenScanJob(mid.q.rows, r, id) && mid.q.rows[id].attempts == 1 {
      OpenAfterClaim(r, id - first, s.q.now, w.q.now, c.lockSeconds, c.workerId);
    }
    AllRunning(mid.q.rows, r, claimed, IdsFrom(first, n));
  }

  lemma AllRunning(rows: map<JobId, Job>, r: ReleaseId, claimed: seq<Ticket>, ids: set<JobId>)
    requires rows.Keys == ids && forall id | id in rows :: OpenScanJob(rows, r, id)
    requires (forall i | 0 <= i < |claimed| :: claimed[i].id in ids) && (forall id | id in ids :: exists t :: t in claimed && t.id == id)
    ensures RemainingScanJobs(rows, r) == IdsOf(claimed)
  {
  }

  lemma BatchDecides(mid: ScanState, claimed: seq<Ticket>, run: Ticket -> JobRun, r: ReleaseId, s2: ScanState)
    requires BatchTaken(mid, claimed, run, s2) && WholeRelease(mid, claimed, run, r) && claimed != []
    ensures Progress(mid, claimed, r, |claimed|, s2) && s2.releases == Decided(mid.releases, s2.findings, r)
    ensures forall k | 0 <= k < |claimed| :: StoredIn(r, claimed[k].work.artifact, run(claimed[k]).scan, s2.findings)
  {
    hide JobTaken, RemainingScanJobs, Decided, IdsOf, StoredIn;
    var trace :| BatchTrace(claimed, run, trace) && trace[0] == mid && trace[|claimed|] == s2;
    BatchProgress(mid, claimed, run, r, trace, |claimed|);
  }

  lemma DecidedByGrave(releases: map<ReleaseId, Release>, findings: seq<FindingRow>, r: ReleaseId)
    requires r in releases && !releases[r].isYanked && !releases[r].isDeprecated
    ensures r in Decided(releases, findings, r) && Decided(releases, findings, r)[r].status ==
      if exists i :: 0 <= i < |findings| && findings[i].release == r && !findings[i].resolved && Grave(findings[i].finding)
      then Quarantine else Published
  {
    if i :| 0 <= i < |findings| && findings[i].release == r && !findings[i].resolved && Grave(findings[i].finding) {
      assert IsBlocking(findings[i], r);
    }
  }

  /**
   A release of `n` artifacts is submitted, and some time later one worker polls a queue that holds nothing
   else.  If its statements go through, then whatever the scanners report, and whichever inserts fail,
   every scan job is completed by its first attempt, every finding whose insert went through is in the
   table, and the release has left `scanning`: to quarantine exactly if the table holds an unresolved
   critical or malware finding of it.
   */
  lemma SubmissionDecided(c: Config, s: ScanState, r: ReleaseId, package: nat, n: nat, s1: ScanState, seconds: nat, e: ScanEvent, s2: ScanState)
    returns (first: JobId)
    requires s.q.rows == map[] && s.q.tickets == {} && s.phases == map[] && r !in s.releases && 0 < n <= c.batchSize
    requires ScanHappens(c, s, Submission(r, package, n), s1)
    requires e.PollTick? && !e.claimFails && e.skipped == {} && forall t :: GoesThrough(e.run(t))
    requires ScanHappens(c, Waited(s1, seconds), e, s2)
    ensures var q := Waited(s1, seconds).q;
      && (forall id | first <= id < first + n :: id in q.rows && q.rows[id].work == ScanArtifact(r, id - first))
      && (forall id | first <= id < first + n :: id in s2.q.rows && s2.q.rows[id].status.Completed? && s2.q.rows[id].attempts == 1)
      && s.findings <= s2.findings
      && (forall id | first <= id < first + n :: StoredIn(r, id - first, e.run(TicketOf(c, q, id)).scan, s2.findings))
    ensures r in s2.releases && s2.releases[r].status ==
      if exists i :: 0 <= i < |s2.findings| && s2.findings[i].release == r && !s2.findings[i].resolved && Grave(s2.findings[i].finding)
      then Quarantine else Published
  {
    hide Submitted, ClaimsBatch, BatchTaken, GoesThrough, Waited, Enabled, Apply, StoredIn, Progress, Decided, WholeRelease, IdsFrom;
    first :| NewFrom(s, first) && Submitted(s, r, package, first, n, s1);
    var w := Waited(s1, seconds);
    var ids, claimed := PolledBatch(c, w, e, s2);
    ClaimsSubmitted(c, s, r, package, n, first, s1, seconds, ids, claimed);
    BatchIsWhole(c, s, r, package, n, first, s1, seconds, claimed, e.run);
    var mid := AfterClaim(c, w, ids);
    assert first in IdsFrom(first, n);
    BatchDecides(mid, claimed, e.run, r, s2);
    DecidedByGrave(mid.releases, s2.findings, r);
    forall id | first <= id < first + n
      ensures id in w.q.rows && w.q.rows[id].work == ScanArtifact(r, id - first)
      ensures id in s2.q.rows && s2.q.rows[id].status.Completed? && s2.q.rows[id].attempts == 1
      ensures StoredIn(r, id - first, e.run(TicketOf(c, w.q, id)).scan, s2.findings)
    {
      assert id in IdsFrom(first, n);
      JobDone(mid, claimed, r, s2, TicketOf(c, w.q, id));
    }
    ProgressKeeps(mid, claimed, r, s2);
  }

  lemma PolledBatch(c: Config, w: ScanState, e: ScanEvent, s2: ScanState) returns (ids: set<JobId>, claimed: seq<Ticket>)
    requires e.PollTick? && !e.claimFails && ScanHappens(c, w, e, s2)
    ensures ClaimsBatch(c, w.q, e.skipped, ids, claimed) && Enabled(w.q, Claim(c.workerId, ids, c.lockSeconds))
    ensures BatchTaken(AfterClaim(c, w, ids), claimed, e.run, s2)
  {
    hide EarliestOf, BatchTaken, Apply, ReturningRows;
    ids, claimed :| ClaimsBatch(c, w.q, e.skipped, ids, claimed)
      && BatchTaken(w.(q := Apply(w.q, Claim(c.workerId, ids, c.lockSeconds))), claimed, e.run, s2);
  }

  lemma ProgressKeeps(mid: ScanState, claimed: seq<Ticket>, r: ReleaseId, s2: ScanState)
    requires Progress(mid, claimed, r, |claimed|, s2)
    ensures mid.findings <= s2.findings
  {
    hide RemainingScanJobs, Decided, IdsOf;
  }

  lemma JobDone(mid: ScanState, claimed: seq<Ticket>, r: ReleaseId, s2: ScanState, t: Ticket)
    requires Progress(mid, claimed, r, |claimed|, s2) && t in claimed && t.id in mid.q.rows
    ensures t.id in s2.q.rows && s2.q.rows[t.id].status.Completed? && s2.q.rows[t.id].attempts == mid.q.rows[t.id].attempts
  {
    hide RemainingScanJobs, Decided, IdsOf;
    var k :| 0 <= k < |claimed| && claimed[k] == t;
  }

  /** The same of the loop: a submission, some time, and one tick. */
  lemma LoopDecidesSubmission(c: Config, r: ReleaseId, package: nat, n: nat, seconds: nat, e: ScanEvent, trace: seq<ScanState>)
    returns (first: JobId)
    requires ScanTrace(c, [Submission(r, package, n), ScanEvent.Idle(seconds), e], trace)
    requires var s := trace[0]; s.q.rows == map[] && s.q.tickets == {} && s.phases == map[] && r !in s.releases && 0 < n <= c.batchSize
    requires e.PollTick? && !e.claimFails && e.skipped == {} && forall t :: GoesThrough(e.run(t))
    ensures var s, s' := trace[0], trace[|trace| - 1];
      && (forall id | first <= id < first + n :: id in s'.q.rows && s'.q.rows[id].status.Completed? && s'.q.rows[id].attempts == 1)
      && s.findings <= s'.findings
      && r in s'.releases && s'.releases[r].status ==
           (if exists i :: 0 <= i < |s'.findings| && s'.findings[i].release == r && !s'.findings[i].resolved && Grave(s'.findings[i].finding)
            then Quarantine else Published)
  {
    hide ScanPolls, Submitted, GoesThrough, StoredIn;
    var events := [Submission(r, package, n), ScanEvent.Idle(seconds), e];
    assert events[0] != SCAN_STOP && events[1] != SCAN_STOP && events[2] != SCAN_STOP;
    assert |trace| == 4;
    assert ScanHappens(c, trace[0], events[0], trace[1]) && ScanHappens(c, trace[1], events[1], trace[2]) && ScanHappens(c, trace[2], events[2], trace[3]);
    first := SubmissionDecided(c, trace[0], r, package, n, trace[1], seconds, e, trace[3]);
  }
}
