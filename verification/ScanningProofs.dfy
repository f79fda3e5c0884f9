/**
 What scanning guarantees about releases that leave `scanning` (crates/workers/src/scanners.rs).
 */
module ScanningProofs {
  import opened Common
  import opened Jobs
  import opened JobsProofs
  import opened Scanning

  // ---------------------------------------------------------------- rows and submissions agree

  predicate RowConsistent(s: ScanState, id: JobId)
    requires id in s.q.rows
  {
    var work := s.q.rows[id].work;
    (work.ScanArtifact? <==> id in s.jobs) && (work.ScanArtifact? ==> s.jobs[id] == work.release)
  }

  predicate TicketConsistent(s: ScanState, t: Ticket) {
    t.work.ScanArtifact? ==> t.id in s.jobs && s.jobs[t.id] == t.work.release && AllEnqueued(s, t.work.release)
  }

  ghost predicate Consistent(s: ScanState) {
    && Inv(s.q)
    && (forall id | id in s.q.rows :: RowConsistent(s, id))
    && (forall t | t in s.q.tickets :: TicketConsistent(s, t))
    && s.phases.Keys <= s.q.tickets
    && (forall t | t in s.phases :: t.work.ScanArtifact?)
    && (forall id | id in s.jobs :: s.jobs[id] in s.releases)
  }

  lemma ClaimConsistent(mode: Mode, s: ScanState, q: Step)
    requires Consistent(s) && q.Claim? && ScanEnabled(s, Queue(q)) && ScanAllowed(mode, s, Queue(q))
    ensures Consistent(ApplyScan(s, Queue(q)))
  {
    hide Inv, RowSound, TicketSound;
    InvStep(s.q, q);
    var s' := ApplyScan(s, Queue(q));
    forall id | id in s'.q.rows ensures RowConsistent(s', id) {
      assert RowConsistent(s, id);
    }
    forall t | t in s'.q.tickets ensures TicketConsistent(s', t) {
      if t in s.q.tickets {
        assert TicketConsistent(s, t);
      } else {
        assert t.id in q.ids && RowConsistent(s, t.id);
      }
    }
  }

  lemma QueueConsistent(mode: Mode, s: ScanState, q: Step)
    requires Consistent(s) && ScanEnabled(s, Queue(q)) && ScanAllowed(mode, s, Queue(q))
    ensures Consistent(ApplyScan(s, Queue(q)))
  {
    hide Inv, RowSound, TicketSound;
    if q.Claim? {
      ClaimConsistent(mode, s, q);
      return;
    }
    InvStep(s.q, q);
    var s' := ApplyScan(s, Queue(q));
    forall id | id in s'.q.rows ensures RowConsistent(s', id) {
      assert id in s.q.rows ==> RowConsistent(s, id);
    }
    forall t | t in s'.q.tickets ensures TicketConsistent(s', t) {
      assert TicketConsistent(s, t);
    }
  }

  /** What a statement that is not of the queue does to queue, submissions and handlers. */
  lemma HandlerFrame(s: ScanState, step: ScanStep)
    requires !step.Queue? && ScanEnabled(s, step)
    ensures var s' := ApplyScan(s, step);
      && s'.q == (if step.Reindex? && !step.dbError
                  then Apply(s.q, Enqueue(step.id, ReindexSearch(s.phases[step.ticket].package), 5, s.q.now)) else s.q)
      && s'.jobs == (if step.Submit? then map id | id in s.jobs.Keys + step.jobs :: if id in s.jobs then s.jobs[id] else step.release else s.jobs)
      && s.releases.Keys <= s'.releases.Keys && (step.Submit? ==> step.release in s'.releases)
      && (forall t | t in s'.phases :: (t in s.q.tickets && t.work.ScanArtifact?) || t in s.phases)
  {
    hide Apply, HasBlocking, RemainingScanJobs, FinalStatus;
  }

  lemma HandlerConsistent(mode: Mode, s: ScanState, step: ScanStep)
    requires Consistent(s) && !step.Queue? && ScanEnabled(s, step)
    ensures Consistent(ApplyScan(s, step))
  {
    hide ApplyScan, Inv;
    HandlerFrame(s, step);
    var s' := ApplyScan(s, step);
    if step.Reindex? && !step.dbError {
      InvStep(s.q, Enqueue(step.id, ReindexSearch(s.phases[step.ticket].package), 5, s.q.now));
    }
    forall id | id in s'.q.rows ensures RowConsistent(s', id) {
      assert id in s.q.rows ==> RowConsistent(s, id);
      if id in s.q.rows {
        RowHasHistory(s.q, id);
      }
    }
    forall t | t in s'.q.tickets ensures TicketConsistent(s', t) {
      assert TicketConsistent(s, t);
    }
  }

  lemma RowHasHistory(s: State, id: JobId)
    requires Inv(s) && id in s.rows
    ensures id in s.history
  {
    assert RowSound(s, id);
  }

  // ---------------------------------------------------------------- every interleaving

  predicate AfterStoring(p: Phase) {
    p.Passed? || p.Checked? || p.Loaded? || p.Moved? || p == Finished(true)
  }

  predicate AllStored(s: ScanState, r: ReleaseId) {
    forall id | id in s.jobs && s.jobs[id] == r :: id in s.storedAt
  }

  predicate AllStoredBy(s: ScanState, r: ReleaseId, length: nat) {
    forall id | id in s.jobs && s.jobs[id] == r :: id in s.storedAt && s.storedAt[id] <= length
  }

  /** `later` extends `earlier`; only `resolved` flags of the old rows may have changed. */
  predicate Extends(earlier: seq<FindingRow>, later: seq<FindingRow>) {
    && |earlier| <= |later|
    && forall i | 0 <= i < |earlier| :: later[i].(resolved := false) == earlier[i].(resolved := false)
  }

  predicate HandedIn(s: ScanState, t: Ticket)
    requires t in s.phases
  {
    AfterStoring(s.phases[t]) ==> t.id in s.storedAt
  }

  /** What a handler that passed its count knows. */
  predicate SeenSound(s: ScanState, t: Ticket)
    requires t in s.phases && t.work.ScanArtifact?
  {
    var p := s.phases[t];
    var r := t.work.release;
    && (p.Passed? ==> r in s.deadDropped || AllStored(s, r))
    && (p.Checked? || p.Loaded? ==>
          && Extends(p.seen, s.findings)
          && p.blocking == HasBlocking(p.seen, r)
          && (r in s.deadDropped || AllStoredBy(s, r, |p.seen|)))
  }

  /** A scan job that is completed, or gone, has handed in its findings, or was dropped when dead. */
  predicate JobAccounted(s: ScanState, id: JobId)
    requires id in s.jobs
  {
    id in s.q.history ==>
      if id in s.q.rows then s.q.rows[id].status.Completed? ==> id in s.storedAt
      else id in s.storedAt || s.jobs[id] in s.deadDropped
  }

  /** The last conjunct speaks of one handler only, that of ticket `mover`. */
  ghost predicate StoreInv(s: ScanState, mover: Ticket) {
    && Consistent(s)
    && (forall id | id in s.storedAt :: s.storedAt[id] <= |s.findings|)
    && (forall id | id in s.jobs :: JobAccounted(s, id))
    && (forall t | t in s.phases :: HandedIn(s, t))
    && (mover in s.phases ==> SeenSound(s, mover))
  }

  /** Where the count lets the handler of `t` pass, no other scan job of the release is open. */
  predicate CountRight(s: ScanState, t: Ticket)
    requires t.work.ScanArtifact?
  {
    var remaining := RemainingScanJobs(s.q.rows, t.work.release);
    |remaining| <= 1 ==> remaining <= {t.id}
  }

  /** The count is right as long as the handler's own job is open itself. */
  lemma OwnJobOpen(s: ScanState, t: Ticket)
    requires t.work.ScanArtifact? && OpenScanJob(s.q.rows, t.work.release, t.id)
    ensures CountRight(s, t)
  {
    var remaining := RemainingScanJobs(s.q.rows, t.work.release);
    if |remaining| <= 1 {
      forall id | id in remaining ensures id == t.id {
        SubsetSize({id, t.id}, remaining);
      }
    }
  }

  /** Each time the handler of `mover` counts, in this run, the count is right. */
  predicate CountsRight(s: ScanState, steps: seq<ScanStep>, mover: Ticket)
    requires ScanRun(AnyInterleaving, s, steps)
    decreases |steps|
  {
    steps == [] ||
    ((steps[0].Count? && steps[0].ticket == mover ==> CountRight(s, mover))
     && CountsRight(ApplyScan(s, steps[0]), steps[1..], mover))
  }

  lemma CountedAlone(s: ScanState, t: Ticket)
    requires StoreInv(s, t) && ScanEnabled(s, Count(t, false)) && CountRight(s, t)
    requires |RemainingScanJobs(s.q.rows, t.work.release)| <= 1
    ensures forall id | id in s.jobs && s.jobs[id] == t.work.release && id != t.id ::
      id in s.storedAt || t.work.release in s.deadDropped
  {
    var r := t.work.release;
    var remaining := RemainingScanJobs(s.q.rows, r);
    assert TicketConsistent(s, t);
    forall id | id in s.jobs && s.jobs[id] == r && id != t.id ensures id in s.storedAt || r in s.deadDropped {
      assert JobAccounted(s, id);
      assert id !in remaining;
      if id in s.q.rows {
        assert RowConsistent(s, id) && RowSound(s.q, id);
      }
    }
  }

  lemma QueueKeepsJobAccounted(s: ScanState, q: Step, id: JobId, mover: Ticket)
    requires StoreInv(s, mover) && ScanEnabled(s, Queue(q)) && id in s.jobs
    ensures JobAccounted(ApplyScan(s, Queue(q)), id)
  {
    hide SeenSound, TicketConsistent, RowSound;
    assert JobAccounted(s, id);
    if id in s.q.rows {
      assert RowConsistent(s, id);
    }
    if q.Complete? && q.ticket.id == id && id in s.q.rows {
      assert TicketSound(s.q, q.ticket);
      assert HandedIn(s, q.ticket);
    }
    if q.CleanupFinished? && id in s.q.rows && s.q.rows[id].status.Dead? && id !in ApplyScan(s, Queue(q)).q.rows && id !in s.storedAt {
      assert s.q.rows[id].work.release in DeadDroppedBy(s.q.rows, s.storedAt, s.q.now, q.retentionHours);
    }
  }

  lemma QueueKeepsStoreInv(s: ScanState, q: Step, mover: Ticket)
    requires StoreInv(s, mover) && ScanEnabled(s, Queue(q)) && ScanAllowed(AnyInterleaving, s, Queue(q))
    ensures StoreInv(ApplyScan(s, Queue(q)), mover)
  {
    hide Inv, RowConsistent, TicketConsistent;
    QueueConsistent(AnyInterleaving, s, q);
    hide Consistent;
    var s' := ApplyScan(s, Queue(q));
    forall id | id in s'.jobs ensures JobAccounted(s', id) {
      QueueKeepsJobAccounted(s, q, id, mover);
    }
    hide JobAccounted;
    forall t | t in s'.phases ensures HandedIn(s', t) {
      assert HandedIn(s, t);
    }
  }

  /** A handler's own step. */
  lemma HandlerHandsIn(s: ScanState, step: ScanStep, t: Ticket, mover: Ticket)
    requires StoreInv(s, mover) && !step.Queue? && ScanEnabled(s, step) && t in ApplyScan(s, step).phases
    ensures HandedIn(ApplyScan(s, step), t)
  {
    hide Consistent, JobAccounted, SeenSound, Apply, HasBlocking;
    if t in s.phases {
      assert HandedIn(s, t);
    }
  }

  predicate StepOf(step: ScanStep, t: Ticket) {
    (step.Begin? || step.Store? || step.Count? || step.Check? || step.Load? || step.Move? || step.Reindex?) && step.ticket == t
  }

  lemma OwnSeen(s: ScanState, step: ScanStep, t: Ticket)
    requires StoreInv(s, t) && ScanEnabled(s, step) && StepOf(step, t) && (step.Count? ==> CountRight(s, t))
    ensures SeenSound(ApplyScan(s, step), t)
  {
    hide Consistent, JobAccounted, Apply, CountRight;
    if step.Count? && ApplyScan(s, step).phases[t].Passed? {
      CountedAlone(s, t);
    }
  }

  lemma FindingsExtend(s: ScanState, step: ScanStep, seen: seq<FindingRow>)
    requires ScanEnabled(s, step) && Extends(seen, s.findings)
    ensures Extends(seen, ApplyScan(s, step).findings)
  {
    hide Apply, HasBlocking, RemainingScanJobs;
  }

  /** What a step of somebody else leaves alone. */
  lemma OthersKeep(s: ScanState, step: ScanStep, t: Ticket)
    requires Consistent(s) && !step.Queue? && ScanEnabled(s, step) && !StepOf(step, t) && t in s.phases
    ensures var s' := ApplyScan(s, step);
      && t in s'.phases && s'.phases[t] == s.phases[t]
      && s'.deadDropped == s.deadDropped
      && (forall id | id in s.storedAt :: id in s'.storedAt && s'.storedAt[id] == s.storedAt[id])
      && (forall id | id in s'.jobs && s'.jobs[id] == t.work.release :: id in s.jobs && s.jobs[id] == t.work.release)
  {
    hide Inv, Apply, HasBlocking, RemainingScanJobs, RowConsistent;
    assert TicketConsistent(s, t);
  }

  /** Anybody else's step. */
  lemma OtherSeen(s: ScanState, step: ScanStep, t: Ticket)
    requires StoreInv(s, t) && !step.Queue? && ScanEnabled(s, step) && !StepOf(step, t) && t in s.phases
    ensures t in ApplyScan(s, step).phases && SeenSound(ApplyScan(s, step), t)
  {
    hide ApplyScan, Consistent, JobAccounted, HandedIn, Extends, HasBlocking;
    OthersKeep(s, step, t);
    if s.phases[t].Checked? || s.phases[t].Loaded? {
      FindingsExtend(s, step, s.phases[t].seen);
    }
  }

  lemma HandlerKeepsJobAccounted(s: ScanState, step: ScanStep, id: JobId, mover: Ticket)
    requires StoreInv(s, mover) && !step.Queue? && ScanEnabled(s, step) && id in ApplyScan(s, step).jobs
    ensures JobAccounted(ApplyScan(s, step), id)
  {
    hide Inv, HandedIn, SeenSound, TicketConsistent, RowConsistent, HasBlocking, RemainingScanJobs, FinalStatus;
    assert id in s.jobs ==> JobAccounted(s, id);
  }

  lemma StoredBounds(s: ScanState, step: ScanStep)
    requires ScanEnabled(s, step) && !step.Queue? && forall id | id in s.storedAt :: s.storedAt[id] <= |s.findings|
    ensures var s' := ApplyScan(s, step); forall id | id in s'.storedAt :: s'.storedAt[id] <= |s'.findings|
    ensures forall t | t in ApplyScan(s, step).phases && !StepOf(step, t) :: t in s.phases
  {
    hide Apply, HasBlocking, RemainingScanJobs;
  }

  lemma HandlerKeepsStoreInv(s: ScanState, step: ScanStep, mover: Ticket)
    requires StoreInv(s, mover) && !step.Queue? && ScanEnabled(s, step)
    requires step.Count? && step.ticket == mover ==> CountRight(s, mover)
    ensures StoreInv(ApplyScan(s, step), mover)
  {
    hide Inv, SeenSound, HandedIn, JobAccounted, CountRight;
    HandlerConsistent(AnyInterleaving, s, step);
    StoredBounds(s, step);
    hide ApplyScan, Consistent;
    var s' := ApplyScan(s, step);
    forall id | id in s'.jobs ensures JobAccounted(s', id) {
      HandlerKeepsJobAccounted(s, step, id, mover);
    }
    forall t | t in s'.phases ensures HandedIn(s', t) {
      HandlerHandsIn(s, step, t, mover);
    }
    if mover in s'.phases {
      if StepOf(step, mover) {
        OwnSeen(s, step, mover);
      } else {
        OtherSeen(s, step, mover);
      }
    }
  }

  lemma {:induction false} StoreInvRun(s: ScanState, steps: seq<ScanStep>, mover: Ticket)
    requires StoreInv(s, mover) && ScanRun(AnyInterleaving, s, steps) && CountsRight(s, steps, mover)
    ensures StoreInv(ScanExec(AnyInterleaving, s, steps), mover)
    decreases |steps|
  {
    hide StoreInv, ApplyScan, ScanEnabled, CountRight;
    if steps != [] {
      if steps[0].Queue? {
        QueueKeepsStoreInv(s, steps[0].step, mover);
      } else {
        HandlerKeepsStoreInv(s, steps[0], mover);
      }
      StoreInvRun(ApplyScan(s, steps[0]), steps[1..], mover);
    }
  }

  /** The handler of `t` may now move its release out of `scanning`, other than to quarantine. */
  predicate AboutToMove(s: ScanState, t: Ticket) {
    && ScanEnabled(s, Move(t, false))
    && t.work.release in s.releases && s.releases[t.work.release].status.Scanning?
    && !ApplyScan(s, Move(t, false)).releases[t.work.release].status.Quarantine?
  }

  /**
   Every scan job of the release had handed in all its findings before the blocking check read the table,
   and what the check read held no unresolved critical or malware finding of the release.
   */
  predicate RightToMove(s: ScanState, t: Ticket)
    requires AboutToMove(s, t)
  {
    var r := t.work.release; var seen := s.phases[t].seen;
    && t.id in s.jobs && s.jobs[t.id] == r
    && Extends(seen, s.findings)
    && (forall id | id in s.jobs && s.jobs[id] == r :: id in s.storedAt && s.storedAt[id] <= |seen|)
    && (forall i | 0 <= i < |seen| && seen[i].release == r && !seen[i].resolved ::
          seen[i].finding.severity != "critical" && seen[i].finding.kind != "malware")
  }

  lemma StoreInvAtStart(start: int, mover: Ticket)
    ensures StoreInv(InitScan(start), mover)
  {
  }

  /**
   Every interleaving, with no discipline on locks.  When a handler moves a release from `scanning` to
   published, yanked or deprecated, it is right to, provided that its own count was right and that no
   dead scan job of the release was swept away before it had handed in its findings.
   */
  lemma MovedOnlyAfterAllScansStored(start: int, steps: seq<ScanStep>, t: Ticket)
    requires ScanRun(AnyInterleaving, InitScan(start), steps) && CountsRight(InitScan(start), steps, t)
    requires var s := ScanExec(AnyInterleaving, InitScan(start), steps); AboutToMove(s, t) && t.work.release !in s.deadDropped
    ensures RightToMove(ScanExec(AnyInterleaving, InitScan(start), steps), t)
  {
    StoreInvAtStart(start, t);
    StoreInvRun(InitScan(start), steps, t);
    var s := ScanExec(AnyInterleaving, InitScan(start), steps);
    hide ScanRun, ScanExec, Inv, RowConsistent, JobAccounted;
    assert TicketConsistent(s, t);
    NotBlocking(s.phases[t].seen, t.work.release);
  }

  lemma NotBlocking(seen: seq<FindingRow>, r: ReleaseId)
    ensures !HasBlocking(seen, r) ==> forall i | 0 <= i < |seen| && seen[i].release == r && !seen[i].resolved ::
              seen[i].finding.severity != "critical" && seen[i].finding.kind != "malware"
  {
    forall i | 0 <= i < |seen| && !HasBlocking(seen, r) ensures !IsBlocking(seen[i], r) {
    }
  }

  // ---------------------------------------------------------------- tickets in possession of their rows

  /** The row of a handler that may still act is its own, and running. */
  lemma LiveMakesCountRight(mode: Mode, s: ScanState, t: Ticket)
    requires LiveInv(mode, s.q) && Consistent(s) && ScanEnabled(s, Count(t, false)) && Unexpired(mode, s.q, t)
    ensures CountRight(s, t)
  {
    assert Live(s.q, t) && TicketSound(s.q, t);
    OwnJobOpen(s, t);
  }

  lemma {:induction false} DisciplineMakesCountsRight(mode: Mode, s: ScanState, steps: seq<ScanStep>, mover: Ticket)
    requires !mode.AnyInterleaving? && LiveInv(mode, s.q) && Consistent(s) && ScanRun(mode, s, steps)
    ensures ScanRun(AnyInterleaving, s, steps)
    ensures ScanExec(AnyInterleaving, s, steps) == ScanExec(mode, s, steps)
    ensures CountsRight(s, steps, mover)
    decreases |steps|
  {
    hide LiveInv, Consistent, ApplyScan, CountRight;
    if steps != [] {
      if steps[0].Count? {
        LiveMakesCountRight(mode, s, steps[0].ticket);
      }
      LiveScanStep(mode, s, steps[0]);
      DisciplineMakesCountsRight(mode, ApplyScan(s, steps[0]), steps[1..], mover);
    }
  }

  lemma LiveScanStep(mode: Mode, s: ScanState, step: ScanStep)
    requires !mode.AnyInterleaving?
    requires LiveInv(mode, s.q) && Consistent(s) && ScanEnabled(s, step) && ScanAllowed(mode, s, step)
    ensures LiveInv(mode, ApplyScan(s, step).q) && Consistent(ApplyScan(s, step))
  {
    hide Inv, LiveInv, Consistent;
    if step.Queue? {
      LiveStep(mode, s.q, step.step);
      QueueConsistent(mode, s, step.step);
    } else {
      HandlerConsistent(mode, s, step);
      if step.Reindex? && !step.dbError {
        LiveStep(mode, s.q, Enqueue(step.id, ReindexSearch(s.phases[step.ticket].package), 5, s.q.now));
      }
    }
  }

  /**
   Any number of workers that respect their locks, or one worker loop, or workers without the stale-job
   sweep: their counts are right, so their moves are.
   */
  lemma DisciplineKeepsMovesRight(mode: Mode, start: int, steps: seq<ScanStep>, t: Ticket)
    requires !mode.AnyInterleaving? && ScanRun(mode, InitScan(start), steps)
    requires var s := ScanExec(mode, InitScan(start), steps); AboutToMove(s, t) && t.work.release !in s.deadDropped
    ensures RightToMove(ScanExec(mode, InitScan(start), steps), t)
  {
    StoreInvAtStart(start, t);
    DisciplineMakesCountsRight(mode, InitScan(start), steps, t);
    hide ScanRun, ScanExec, CountsRight;
    MovedOnlyAfterAllScansStored(start, steps, t);
  }

  // ---------------------------------------------------------------- releases that get stuck

  predicate IsScanning(s: ScanState, r: ReleaseId) {
    r in s.releases && s.releases[r].status.Scanning?
  }

  /** Still `scanning`, with every scan job enqueued and none pending, running or dead. */
  predicate Stranded(s: ScanState, r: ReleaseId) {
    IsScanning(s, r) && AllEnqueued(s, r) && RemainingScanJobs(s.q.rows, r) == {}
  }

  /** A scan job of the release that is not settled for good: not enqueued yet, pending, running or dead. */
  predicate Outstanding(s: ScanState, r: ReleaseId, id: JobId) {
    id in s.jobs && s.jobs[id] == r && (id !in s.q.history || (id in s.q.rows && Open(s.q.rows[id].status)))
  }

  /** A handler of the release has returned, may still settle its job, and has not yet: its completion is due. */
  predicate Returned(mode: Mode, s: ScanState, t: Ticket, r: ReleaseId) {
    && t in s.phases && t.work.ScanArtifact? && t.work.release == r
    && s.phases[t] == Finished(true) && Unexpired(mode, s.q, t)
  }

  /** An outstanding job of which no completion is due. */
  ghost predicate Waits(mode: Mode, s: ScanState, r: ReleaseId, id: JobId) {
    Outstanding(s, r, id) && forall t :: Returned(mode, s, t, r) ==> t.id != id
  }

  ghost predicate HasWaiting(mode: Mode, s: ScanState, r: ReleaseId) {
    exists id :: Waits(mode, s, r, id)
  }

  predicate SweptBy(s: ScanState, retentionHours: int, id: JobId) {
    id in s.q.rows && Expired(s.q.rows[id], s.q.now - 3600 * retentionHours)
  }

  /**
   The two steps that may take a scanning release its last waiting job leave one: a count that finds other
   jobs open, one besides its own; a retention sweep, one that it does not take.
   */
  ghost predicate LeavesWaiting(mode: Mode, s: ScanState, step: ScanStep, r: ReleaseId)
    requires ScanEnabled(s, step)
  {
    IsScanning(s, r) ==>
      && (step.Count? && !step.dbError && step.ticket.work.release == r && |RemainingScanJobs(s.q.rows, r)| > 1 ==>
            exists id :: id != step.ticket.id && Waits(mode, s, r, id))
      && (step.Queue? && step.step.CleanupFinished? ==>
            exists id :: !SweptBy(s, step.step.retentionHours, id) && Waits(mode, s, r, id))
  }

  predicate HasMoved(s: ScanState, t: Ticket) {
    t in s.phases && t.work.ScanArtifact? && s.phases[t].Moved?
  }

  /** Every reachable state of a discipline that keeps tickets in possession of their rows. */
  ghost predicate Sound(mode: Mode, s: ScanState) {
    && LiveInv(mode, s.q) && Consistent(s)
    && forall t | HasMoved(s, t) :: !IsScanning(s, t.work.release)
  }

  // ---------------------------------------------------------------- one step

  lemma QueueKeepsPhases(s: ScanState, q: Step)
    requires ScanEnabled(s, Queue(q))
    ensures forall t | t in ApplyScan(s, Queue(q)).phases :: t in s.phases && ApplyScan(s, Queue(q)).phases[t] == s.phases[t]
    ensures ApplyScan(s, Queue(q)).releases == s.releases && ApplyScan(s, Queue(q)).jobs == s.jobs
    ensures q.Complete? ==> ApplyScan(s, Queue(q)).phases == s.phases - {q.ticket}
    ensures q.CleanupFinished? ==> ApplyScan(s, Queue(q)).phases == s.phases
  {
  }

  lemma TimePasses(s: State, q: Step)
    requires Enabled(s, q)
    ensures s.now <= Apply(s, q).now && s.history.Keys <= Apply(s, q).history.Keys
  {
  }

  /** How a handler comes to have moved its release. */
  lemma MovesByMoving(s: ScanState, step: ScanStep, t: Ticket)
    requires ScanEnabled(s, step) && HasMoved(ApplyScan(s, step), t)
    ensures HasMoved(s, t) || !IsScanning(ApplyScan(s, step), t.work.release)
  {
    hide Apply, HasBlocking, RemainingScanJobs;
    if step.Queue? {
      QueueKeepsPhases(s, step.step);
      hide ApplyScan;
    }
  }

  lemma StillScanning(s: ScanState, step: ScanStep, r: ReleaseId)
    requires ScanEnabled(s, step) && IsScanning(ApplyScan(s, step), r)
    ensures IsScanning(s, r) || (step.Submit? && step.release == r && r !in s.releases)
  {
    hide Apply;
  }

  lemma MovedHasLeft(s: ScanState, step: ScanStep, t: Ticket)
    requires Consistent(s) && ScanEnabled(s, step) && HasMoved(ApplyScan(s, step), t)
    requires HasMoved(s, t) ==> !IsScanning(s, t.work.release)
    ensures !IsScanning(ApplyScan(s, step), t.work.release)
  {
    hide Inv, ApplyScan, ScanEnabled, RowConsistent;
    MovesByMoving(s, step, t);
    assert t in s.phases ==> TicketConsistent(s, t);
    if IsScanning(ApplyScan(s, step), t.work.release) {
      StillScanning(s, step, t.work.release);
    }
  }

  lemma SoundStep(mode: Mode, s: ScanState, step: ScanStep)
    requires !mode.AnyInterleaving? && Sound(mode, s) && ScanEnabled(s, step) && ScanAllowed(mode, s, step)
    ensures Sound(mode, ApplyScan(s, step))
  {
    LiveScanStep(mode, s, step);
    var s' := ApplyScan(s, step);
    hide ApplyScan, ScanEnabled, ScanAllowed, LiveInv, Consistent, IsScanning;
    forall t | HasMoved(s', t) ensures !IsScanning(s', t.work.release) {
      MovedHasLeft(s, step, t);
    }
  }

  lemma {:induction false} SoundRun(mode: Mode, s: ScanState, steps: seq<ScanStep>)
    requires !mode.AnyInterleaving? && Sound(mode, s) && ScanRun(mode, s, steps)
    ensures Sound(mode, ScanExec(mode, s, steps))
    decreases |steps|
  {
    hide Sound, ApplyScan, ScanEnabled, ScanAllowed;
    if steps != [] {
      SoundStep(mode, s, steps[0]);
      SoundRun(mode, ApplyScan(s, steps[0]), steps[1..]);
    }
  }

  lemma SoundAtStart(mode: Mode, start: int)
    ensures Sound(mode, InitScan(start))
  {
  }

  /** How a handler of a release that is still scanning comes to have returned. */
  lemma ReturnsByCounting(mode: Mode, s: ScanState, step: ScanStep, t: Ticket, r: ReleaseId)
    requires Sound(mode, s) && ScanEnabled(s, step)
    requires Returned(mode, ApplyScan(s, step), t, r) && IsScanning(ApplyScan(s, step), r)
    ensures Returned(mode, s, t, r) || (step == Count(t, false) && |RemainingScanJobs(s.q.rows, r)| > 1 && t.work.release == r)
    ensures IsScanning(s, r)
  {
    hide Inv, LiveInv, RemainingScanJobs, HasBlocking;
    if step.Queue? {
      QueueKeepsPhases(s, step.step);
      TimePasses(s.q, step.step);
      hide Apply;
    } else {
      hide Apply;
    }
    assert t in s.phases ==> TicketConsistent(s, t);
  }

  lemma StaysOpen(s: State, q: Step, id: JobId)
    requires Enabled(s, q) && id in s.rows && Open(s.rows[id].status)
    requires q.Complete? ==> q.ticket.id != id
    requires q.CleanupFinished? ==> !Expired(s.rows[id], s.now - 3600 * q.retentionHours)
    ensures id in Apply(s, q).rows && Open(Apply(s, q).rows[id].status)
  {
  }

  /** Unless it is completed or swept, an outstanding job stays so. */
  lemma StaysOutstanding(s: ScanState, step: ScanStep, r: ReleaseId, id: JobId)
    requires Consistent(s) && ScanEnabled(s, step) && Outstanding(s, r, id)
    requires step.Queue? && step.step.Complete? ==> step.step.ticket.id != id
    requires step.Queue? && step.step.CleanupFinished? ==> !SweptBy(s, step.step.retentionHours, id)
    ensures Outstanding(ApplyScan(s, step), r, id)
  {
    if step.Queue? {
      QueueStaysOutstanding(s, step.step, r, id);
    } else {
      hide Inv, TicketConsistent, RowConsistent, HasBlocking, RemainingScanJobs;
      if id in s.q.rows {
        RowHasHistory(s.q, id);
      }
    }
  }

  lemma QueueStaysOutstanding(s: ScanState, q: Step, r: ReleaseId, id: JobId)
    requires Consistent(s) && ScanEnabled(s, Queue(q)) && Outstanding(s, r, id)
    requires q.Complete? ==> q.ticket.id != id
    requires q.CleanupFinished? ==> !SweptBy(s, q.retentionHours, id)
    ensures Outstanding(ApplyScan(s, Queue(q)), r, id)
  {
    hide Inv, TicketConsistent;
    QueueKeepsPhases(s, q);
    if id in s.q.rows {
      RowHasHistory(s.q, id);
      TimePasses(s.q, q);
      StaysOpen(s.q, q, id);
      assert RowConsistent(s, id);
      hide Apply;
    }
  }

  /** Whoever completes a job has returned with it. */
  lemma CompletesOther(mode: Mode, s: ScanState, t: Ticket, r: ReleaseId, id: JobId)
    requires LiveInv(mode, s.q) && Consistent(s) && Waits(mode, s, r, id)
    requires ScanEnabled(s, Queue(Complete(t))) && ScanAllowed(mode, s, Queue(Complete(t)))
    ensures t.id != id
  {
    assert Unexpired(mode, s.q, t);
    assert TicketSound(s.q, t) && Live(s.q, t) && TicketConsistent(s, t);
    assert RowConsistent(s, t.id);
  }

  lemma StaysWaiting(mode: Mode, s: ScanState, step: ScanStep, r: ReleaseId, id: JobId)
    requires Sound(mode, s) && ScanEnabled(s, step) && ScanAllowed(mode, s, step) && Waits(mode, s, r, id)
    requires step.Count? && !step.dbError && step.ticket.work.release == r && |RemainingScanJobs(s.q.rows, r)| > 1 ==> step.ticket.id != id
    requires step.Queue? && step.step.CleanupFinished? ==> !SweptBy(s, step.step.retentionHours, id)
    requires IsScanning(ApplyScan(s, step), r)
    ensures Waits(mode, ApplyScan(s, step), r, id)
  {
    hide ApplyScan, ScanAllowed, Outstanding, Returned, LiveInv, Consistent, IsScanning, RemainingScanJobs, SweptBy;
    if step.Queue? && step.step.Complete? {
      CompletesOther(mode, s, step.step.ticket, r, id);
    }
    StaysOutstanding(s, step, r, id);
    forall t | Returned(mode, ApplyScan(s, step), t, r) ensures t.id != id {
      ReturnsByCounting(mode, s, step, t, r);
    }
  }

  lemma SubmittedWaits(mode: Mode, s: ScanState, step: ScanStep, r: ReleaseId)
    requires Sound(mode, s) && ScanEnabled(s, step) && step.Submit? && step.release == r
    ensures HasWaiting(mode, ApplyScan(s, step), r)
  {
    var s' := ApplyScan(s, step);
    var id :| id in step.jobs;
    assert Outstanding(s', r, id);
    forall t ensures !Returned(mode, s', t, r) {
      assert t in s.phases ==> TicketConsistent(s, t);
    }
    assert Waits(mode, s', r, id);
  }

  /** A step keeps a waiting job of a scanning release, provided that it leaves one. */
  lemma KeepsWaiting(mode: Mode, s: ScanState, step: ScanStep, r: ReleaseId)
    requires Sound(mode, s) && (IsScanning(s, r) ==> HasWaiting(mode, s, r))
    requires ScanEnabled(s, step) && ScanAllowed(mode, s, step) && LeavesWaiting(mode, s, step, r)
    requires IsScanning(ApplyScan(s, step), r)
    ensures HasWaiting(mode, ApplyScan(s, step), r)
  {
    StillScanning(s, step, r);
    if step.Submit? && step.release == r {
      SubmittedWaits(mode, s, step, r);
    } else {
      hide ApplyScan, ScanEnabled, ScanAllowed, Waits, Sound, IsScanning, RemainingScanJobs, SweptBy;
      var id :| Waits(mode, s, r, id);
      if step.Count? && !step.dbError && step.ticket.work.release == r && |RemainingScanJobs(s.q.rows, r)| > 1 {
        id :| id != step.ticket.id && Waits(mode, s, r, id);
      }
      if step.Queue? && step.step.CleanupFinished? {
        id :| !SweptBy(s, step.step.retentionHours, id) && Waits(mode, s, r, id);
      }
      StaysWaiting(mode, s, step, r, id);
    }
  }

  /** And otherwise it takes the last one. */
  lemma TakesLastWaiting(mode: Mode, s: ScanState, step: ScanStep, r: ReleaseId)
    requires Sound(mode, s) && ScanEnabled(s, step) && ScanAllowed(mode, s, step) && !LeavesWaiting(mode, s, step, r)
    ensures IsScanning(ApplyScan(s, step), r) && !HasWaiting(mode, ApplyScan(s, step), r)
  {
    hide LiveInv, Consistent, ScanAllowed, RemainingScanJobs, Waits, SweptBy;
    var s' := ApplyScan(s, step);
    forall id ensures !Waits(mode, s', r, id) {
      if Waits(mode, s', r, id) {
        if step.Count? {
          WaitsBeforeCount(mode, s, step.ticket, r, id);
        } else {
          WaitsBeforeSweep(mode, s, step.step.retentionHours, r, id);
        }
      }
    }
  }

  lemma WaitsBeforeCount(mode: Mode, s: ScanState, t: Ticket, r: ReleaseId, id: JobId)
    requires ScanEnabled(s, Count(t, false)) && ScanAllowed(mode, s, Count(t, false)) && t.work.release == r
    requires |RemainingScanJobs(s.q.rows, r)| > 1 && Waits(mode, ApplyScan(s, Count(t, false)), r, id)
    ensures id != t.id && Waits(mode, s, r, id)
  {
    hide RemainingScanJobs;
    var s' := ApplyScan(s, Count(t, false));
    assert Returned(mode, s', t, r);
    forall u | Returned(mode, s, u, r) ensures u.id != id {
      assert Returned(mode, s', u, r);
    }
  }

  lemma WaitsBeforeSweep(mode: Mode, s: ScanState, retentionHours: int, r: ReleaseId, id: JobId)
    requires Consistent(s) && ScanEnabled(s, Queue(CleanupFinished(retentionHours)))
    requires Waits(mode, ApplyScan(s, Queue(CleanupFinished(retentionHours))), r, id)
    ensures !SweptBy(s, retentionHours, id) && Waits(mode, s, r, id)
  {
    var s' := ApplyScan(s, Queue(CleanupFinished(retentionHours)));
    assert id in s.q.rows ==> RowSound(s.q, id);
    forall u | Returned(mode, s, u, r) ensures u.id != id {
      assert Returned(mode, s', u, r);
    }
  }

  // ---------------------------------------------------------------- what the due completions do

  /** Nothing but completions of the release's jobs that are due in `s`. */
  predicate OnlyDue(mode: Mode, s: ScanState, steps: seq<ScanStep>, r: ReleaseId) {
    forall i :: 0 <= i < |steps| ==>
      steps[i].Queue? && steps[i].step.Complete? && Returned(mode, s, steps[i].step.ticket, r)
  }

  /** The completions that are due, and nothing else, leave the release stranded. */
  ghost predicate DueStrands(mode: Mode, s: ScanState, r: ReleaseId) {
    exists steps :: OnlyDue(mode, s, steps, r) && ScanRun(mode, s, steps) && Stranded(ScanExec(mode, s, steps), r)
  }

  lemma StrandedExactlyWhen(s: ScanState, r: ReleaseId)
    requires Consistent(s)
    ensures Stranded(s, r) <==> IsScanning(s, r) && forall id :: !Outstanding(s, r, id)
  {
    hide Inv, TicketConsistent;
    if Stranded(s, r) {
      forall id ensures !Outstanding(s, r, id) {
        assert id in s.q.rows ==> RowConsistent(s, id);
        assert id !in RemainingScanJobs(s.q.rows, r);
      }
    }
    if forall id :: !Outstanding(s, r, id) {
      forall id ensures id !in RemainingScanJobs(s.q.rows, r) {
        assert id in s.q.rows ==> RowConsistent(s, id);
        assert !Outstanding(s, r, id);
      }
      forall id | id in s.jobs && s.jobs[id] == r ensures id in s.q.history {
        assert !Outstanding(s, r, id);
      }
    }
  }

  /** Completions alone leave a waiting job alone. */
  lemma {:induction false} CompletionsKeepWaiting(mode: Mode, s: ScanState, steps: seq<ScanStep>, r: ReleaseId)
    requires !mode.AnyInterleaving? && Sound(mode, s) && ScanRun(mode, s, steps)
    requires forall i :: 0 <= i < |steps| ==> steps[i].Queue? && steps[i].step.Complete?
    ensures var e := ScanExec(mode, s, steps);
      && Sound(mode, e) && (IsScanning(e, r) <==> IsScanning(s, r))
      && (IsScanning(s, r) && HasWaiting(mode, s, r) ==> HasWaiting(mode, e, r))
    decreases |steps|
  {
    if steps != [] {
      QueueKeepsPhases(s, steps[0].step);
      assert IsScanning(ApplyScan(s, steps[0]), r) == IsScanning(s, r);
      hide Sound, ApplyScan, ScanEnabled, ScanAllowed, HasWaiting, IsScanning;
      SoundStep(mode, s, steps[0]);
      if IsScanning(s, r) && HasWaiting(mode, s, r) {
        KeepsWaiting(mode, s, steps[0], r);
      }
      CompletionsKeepWaiting(mode, ApplyScan(s, steps[0]), steps[1..], r);
    }
  }

  lemma DueIsOpen(mode: Mode, s: ScanState, t: Ticket, r: ReleaseId)
    requires Sound(mode, s) && Returned(mode, s, t, r) && Outstanding(s, r, t.id)
    ensures ScanEnabled(s, Queue(Complete(t))) && ScanAllowed(mode, s, Queue(Complete(t))) && OpenScanJob(s.q.rows, r, t.id)
  {
    assert TicketSound(s.q, t) && RowConsistent(s, t.id);
    hide LiveInv, Consistent;
  }

  lemma CompletedRows(s: ScanState, t: Ticket)
    requires ScanEnabled(s, Queue(Complete(t))) && t.id in s.q.rows
    ensures ApplyScan(s, Queue(Complete(t))) ==
      s.(q := s.q.(rows := s.q.rows[t.id := CompletedRow(s.q.rows[t.id], s.q.now)], tickets := s.q.tickets - {t}),
         phases := s.phases - {t})
  {
  }

  /** One due completion: its job is settled, and no other is touched. */
  lemma CompleteDue(mode: Mode, s: ScanState, t: Ticket, r: ReleaseId)
    requires Sound(mode, s) && IsScanning(s, r) && !HasWaiting(mode, s, r)
    requires Returned(mode, s, t, r) && Outstanding(s, r, t.id)
    ensures ScanEnabled(s, Queue(Complete(t))) && ScanAllowed(mode, s, Queue(Complete(t)))
    ensures var s' := ApplyScan(s, Queue(Complete(t)));
      && IsScanning(s', r) && !HasWaiting(mode, s', r)
      && RemainingScanJobs(s'.q.rows, r) == RemainingScanJobs(s.q.rows, r) - {t.id}
      && t.id in RemainingScanJobs(s.q.rows, r)
      && (forall u :: Returned(mode, s', u, r) ==> Returned(mode, s, u, r))
  {
    DueIsOpen(mode, s, t, r);
    CompletedRows(s, t);
    hide Sound, ApplyScan, ScanEnabled, ScanAllowed;
    var s' := ApplyScan(s, Queue(Complete(t)));
    forall id ensures !Waits(mode, s', r, id) {
      if Outstanding(s', r, id) {
        assert id != t.id && Outstanding(s, r, id);
        var u := DueOf(mode, s, r, id);
        assert Returned(mode, s', u, r);
      }
    }
  }

  /** Without a waiting job the due completions, one after another, strand the release. */
  lemma {:induction false} SettleDue(mode: Mode, s: ScanState, r: ReleaseId) returns (steps: seq<ScanStep>)
    requires !mode.AnyInterleaving? && Sound(mode, s) && IsScanning(s, r) && !HasWaiting(mode, s, r)
    ensures OnlyDue(mode, s, steps, r) && ScanRun(mode, s, steps) && Stranded(ScanExec(mode, s, steps), r)
    decreases |RemainingScanJobs(s.q.rows, r)|
  {
    StrandedExactlyWhen(s, r);
    hide Sound, ApplyScan, ScanEnabled, ScanAllowed, Stranded, Returned, Outstanding, RemainingScanJobs, IsScanning, HasWaiting, OnlyDue;
    if id :| Outstanding(s, r, id) {
      var t := DueOf(mode, s, r, id);
      CompleteDue(mode, s, t, r);
      var step := Queue(Complete(t));
      SoundStep(mode, s, step);
      SmallerWithout(RemainingScanJobs(s.q.rows, r), id);
      var rest := SettleDue(mode, ApplyScan(s, step), r);
      steps := [step] + rest;
      assert steps[1..] == rest;
      DueFirst(mode, s, t, rest, r);
    } else {
      steps := [];
      NoneDue(mode, s, r);
    }
  }

  lemma SmallerWithout<T>(a: set<T>, x: T)
    requires x in a
    ensures |a - {x}| < |a|
  {
  }

  lemma NoneDue(mode: Mode, s: ScanState, r: ReleaseId)
    ensures OnlyDue(mode, s, [], r)
  {
  }

  lemma DueOf(mode: Mode, s: ScanState, r: ReleaseId, id: JobId) returns (t: Ticket)
    requires Outstanding(s, r, id) && !HasWaiting(mode, s, r)
    ensures Returned(mode, s, t, r) && t.id == id
  {
    hide Outstanding, Returned;
    assert !Waits(mode, s, r, id);
    t :| Returned(mode, s, t, r) && t.id == id;
  }

  lemma DueFirst(mode: Mode, s: ScanState, t: Ticket, rest: seq<ScanStep>, r: ReleaseId)
    requires ScanEnabled(s, Queue(Complete(t))) && Returned(mode, s, t, r)
    requires OnlyDue(mode, ApplyScan(s, Queue(Complete(t))), rest, r)
    requires forall u :: Returned(mode, ApplyScan(s, Queue(Complete(t))), u, r) ==> Returned(mode, s, u, r)
    ensures OnlyDue(mode, s, [Queue(Complete(t))] + rest, r)
  {
    hide Returned, ApplyScan;
  }

  lemma DueStrandsByInv(mode: Mode, s: ScanState, r: ReleaseId)
    requires !mode.AnyInterleaving? && Sound(mode, s)
    ensures DueStrands(mode, s, r) <==> IsScanning(s, r) && !HasWaiting(mode, s, r)
  {
    hide LiveInv, Consistent, ScanRun, ScanExec, Stranded, Returned, IsScanning, Outstanding;
    if DueStrands(mode, s, r) {
      var steps :| OnlyDue(mode, s, steps, r) && ScanRun(mode, s, steps) && Stranded(ScanExec(mode, s, steps), r);
      CompletionsKeepWaiting(mode, s, steps, r);
      StrandedExactlyWhen(ScanExec(mode, s, steps), r);
    }
    if IsScanning(s, r) && !HasWaiting(mode, s, r) {
      var steps := SettleDue(mode, s, r);
    }
  }

  /**
   Any number of workers, under any discipline that keeps tickets in possession of their rows.  In a
   reached state the completions that are due, and nothing else, leave the release `scanning` with no scan
   job pending, running or dead, exactly if it is scanning and each of its outstanding scan jobs has a
   completion due.
   */
  lemma DueStrandsExactlyWhen(mode: Mode, start: int, steps: seq<ScanStep>, r: ReleaseId)
    requires !mode.AnyInterleaving? && ScanRun(mode, InitScan(start), steps)
    ensures var s := ScanExec(mode, InitScan(start), steps);
      DueStrands(mode, s, r)
      <==> IsScanning(s, r) && forall id :: Outstanding(s, r, id) ==> exists t :: Returned(mode, s, t, r) && t.id == id
  {
    SoundAtStart(mode, start);
    SoundRun(mode, InitScan(start), steps);
    var s := ScanExec(mode, InitScan(start), steps);
    hide ScanRun, ScanExec, Sound, Outstanding, Returned, DueStrands;
    DueStrandsByInv(mode, s, r);
    if HasWaiting(mode, s, r) {
      var id :| Waits(mode, s, r, id);
    } else {
      forall id | Outstanding(s, r, id) ensures exists t :: Returned(mode, s, t, r) && t.id == id {
        assert !Waits(mode, s, r, id);
      }
    }
  }

  // ---------------------------------------------------------------- whole runs

  /** In no state of the run do the due completions strand the release. */
  ghost predicate NeverDueStrands(mode: Mode, s: ScanState, steps: seq<ScanStep>, r: ReleaseId)
    requires ScanRun(mode, s, steps)
    decreases |steps|
  {
    && !DueStrands(mode, s, r)
    && (steps == [] || NeverDueStrands(mode, ApplyScan(s, steps[0]), steps[1..], r))
  }

  /** Every count and every sweep of the run leaves a waiting job of the release. */
  ghost predicate AlwaysLeavesWaiting(mode: Mode, s: ScanState, steps: seq<ScanStep>, r: ReleaseId)
    requires ScanRun(mode, s, steps)
    decreases |steps|
  {
    steps == [] || (LeavesWaiting(mode, s, steps[0], r) && AlwaysLeavesWaiting(mode, ApplyScan(s, steps[0]), steps[1..], r))
  }

  lemma {:induction false} NeverDueByInv(mode: Mode, s: ScanState, steps: seq<ScanStep>, r: ReleaseId)
    requires !mode.AnyInterleaving? && Sound(mode, s) && ScanRun(mode, s, steps) && (IsScanning(s, r) ==> HasWaiting(mode, s, r))
    ensures NeverDueStrands(mode, s, steps, r) <==> AlwaysLeavesWaiting(mode, s, steps, r)
    decreases |steps|
  {
    hide Sound, ApplyScan, ScanEnabled, ScanAllowed, IsScanning, HasWaiting, LeavesWaiting, DueStrands;
    DueStrandsByInv(mode, s, r);
    if steps != [] {
      var s' := ApplyScan(s, steps[0]);
      SoundStep(mode, s, steps[0]);
      if LeavesWaiting(mode, s, steps[0], r) {
        if IsScanning(s', r) {
          KeepsWaiting(mode, s, steps[0], r);
        }
        NeverDueByInv(mode, s', steps[1..], r);
      } else {
        TakesLastWaiting(mode, s, steps[0], r);
        DueStrandsByInv(mode, s', r);
        NeverDueHere(mode, s', steps[1..], r);
      }
    }
  }

  lemma NeverDueHere(mode: Mode, s: ScanState, steps: seq<ScanStep>, r: ReleaseId)
    requires ScanRun(mode, s, steps)
    ensures NeverDueStrands(mode, s, steps, r) ==> !DueStrands(mode, s, r)
  {
  }

  /**
   Any number of workers.  At no time of a run do the due completions strand the release, exactly if each
   count that leaves the move to others leaves a waiting job besides its own, and each retention sweep one
   that it does not take, while the release is `scanning`.
   */
  lemma NeverStrandsExactlyWhen(mode: Mode, start: int, steps: seq<ScanStep>, r: ReleaseId)
    requires !mode.AnyInterleaving? && ScanRun(mode, InitScan(start), steps)
    ensures NeverDueStrands(mode, InitScan(start), steps, r) <==> AlwaysLeavesWaiting(mode, InitScan(start), steps, r)
  {
    SoundAtStart(mode, start);
    NeverDueByInv(mode, InitScan(start), steps, r);
  }

  lemma {:induction false} NeverDueAtEnd(mode: Mode, s: ScanState, steps: seq<ScanStep>, r: ReleaseId)
    requires ScanRun(mode, s, steps) && NeverDueStrands(mode, s, steps, r)
    ensures !DueStrands(mode, ScanExec(mode, s, steps), r)
    decreases |steps|
  {
    hide ApplyScan, ScanEnabled, ScanAllowed, DueStrands;
    if steps != [] {
      NeverDueAtEnd(mode, ApplyScan(s, steps[0]), steps[1..], r);
    }
  }

  lemma NothingDue(mode: Mode, s: ScanState, r: ReleaseId)
    requires !DueStrands(mode, s, r)
    ensures !Stranded(s, r)
  {
    hide Stranded;
    assert OnlyDue(mode, s, [], r) && ScanRun(mode, s, []);
  }

  /** In particular such a run ends with a scan job of the release pending, running or dead, if it is still scanning. */
  lemma ScanningHasOpenJob(mode: Mode, start: int, steps: seq<ScanStep>, r: ReleaseId)
    requires !mode.AnyInterleaving? && ScanRun(mode, InitScan(start), steps) && AlwaysLeavesWaiting(mode, InitScan(start), steps, r)
    requires var s := ScanExec(mode, InitScan(start), steps); IsScanning(s, r) && AllEnqueued(s, r)
    ensures exists id :: OpenScanJob(ScanExec(mode, InitScan(start), steps).q.rows, r, id)
  {
    hide ScanRun, ScanExec, NeverDueStrands, AlwaysLeavesWaiting, DueStrands;
    NeverStrandsExactlyWhen(mode, start, steps, r);
    NeverDueAtEnd(mode, InitScan(start), steps, r);
    var s := ScanExec(mode, InitScan(start), steps);
    NothingDue(mode, s, r);
    var id :| id in RemainingScanJobs(s.q.rows, r);
  }

  /** A sweep that takes no dead scan job of the release leaves a waiting job, if there is one. */
  lemma SweepLeavesWaiting(mode: Mode, s: ScanState, retentionHours: int, r: ReleaseId)
    requires ScanEnabled(s, Queue(CleanupFinished(retentionHours))) && Consistent(s) && HasWaiting(mode, s, r)
    requires forall id | OpenScanJob(s.q.rows, r, id) :: !SweptBy(s, retentionHours, id)
    ensures LeavesWaiting(mode, s, Queue(CleanupFinished(retentionHours)), r)
  {
    hide Inv, TicketConsistent;
    var id :| Waits(mode, s, r, id);
    if id in s.q.rows {
      RowHasHistory(s.q, id);
      assert RowConsistent(s, id) && OpenScanJob(s.q.rows, r, id);
    }
    assert !SweptBy(s, retentionHours, id);
  }

  // ---------------------------------------------------------------- stranded for good

  /** A handler of the release has counted last and may still move it. */
  predicate MayMove(s: ScanState, t: Ticket, r: ReleaseId) {
    && t in s.phases && t.work.ScanArtifact? && t.work.release == r
    && (s.phases[t].Passed? || s.phases[t].Checked? || s.phases[t].Loaded?)
  }

  predicate ChangesStatus(step: ScanStep, r: ReleaseId) {
    step.SetStatus? && step.release == r
  }

  /** Nobody holds a job of a stranded release. */
  lemma NoneHolds(mode: Mode, s: ScanState, t: Ticket, r: ReleaseId)
    requires Sound(mode, s) && Stranded(s, r) && t in s.q.tickets && t.work.ScanArtifact? && t.work.release == r
    ensures !Unexpired(mode, s.q, t)
  {
    hide LiveInv, Consistent;
    assert t.id !in RemainingScanJobs(s.q.rows, r);
    if Unexpired(mode, s.q, t) {
      LiveIsOpen(mode, s, t);
    }
  }

  lemma LiveIsOpen(mode: Mode, s: ScanState, t: Ticket)
    requires LiveInv(mode, s.q) && t in s.q.tickets && t.work.ScanArtifact? && Unexpired(mode, s.q, t)
    ensures OpenScanJob(s.q.rows, t.work.release, t.id)
  {
    assert Live(s.q, t) && TicketSound(s.q, t);
  }

  /** What opens a scan job: that it is enqueued, or that it fails. */
  lemma OpensByFailing(s: State, q: Step, r: ReleaseId, id: JobId)
    requires Enabled(s, q) && OpenScanJob(Apply(s, q).rows, r, id) && !OpenScanJob(s.rows, r, id)
    ensures (q.Enqueue? && q.id == id && q.work.ScanArtifact? && q.work.release == r)
         || (q.Fail? && q.ticket.id == id && id in s.rows && s.rows[id].work.ScanArtifact? && s.rows[id].work.release == r)
  {
  }

  lemma FailsOther(mode: Mode, s: ScanState, q: Step, r: ReleaseId)
    requires !mode.AnyInterleaving? && Sound(mode, s) && Stranded(s, r)
    requires ScanEnabled(s, Queue(q)) && ScanAllowed(mode, s, Queue(q)) && q.Fail? && q.ticket.id in s.q.rows
    ensures s.q.rows[q.ticket.id].work.ScanArtifact? ==> s.q.rows[q.ticket.id].work.release != r
  {
    assert TicketSound(s.q, q.ticket) && Unexpired(mode, s.q, q.ticket);
    hide LiveInv, Consistent, Stranded;
    if q.ticket.work.ScanArtifact? && q.ticket.work.release == r {
      NoneHolds(mode, s, q.ticket, r);
    }
  }

  lemma NoNewOpenJob(mode: Mode, s: ScanState, step: ScanStep, r: ReleaseId, id: JobId)
    requires Sound(mode, s) && Stranded(s, r) && ScanEnabled(s, step) && ScanAllowed(mode, s, step)
    requires !mode.AnyInterleaving?
    ensures !OpenScanJob(ApplyScan(s, step).q.rows, r, id)
  {
    hide LiveInv, Consistent, Apply, Sound, HasBlocking;
    assert id !in RemainingScanJobs(s.q.rows, r);
    if OpenScanJob(ApplyScan(s, step).q.rows, r, id) {
      if step.Queue? {
        OpensByFailing(s.q, step.step, r, id);
        if step.step.Fail? {
          FailsOther(mode, s, step.step, r);
        }
      } else if step.Reindex? {
        OpensByFailing(s.q, Enqueue(step.id, ReindexSearch(s.phases[step.ticket].package), 5, s.q.now), r, id);
      }
    }
  }

  lemma NoneOpen(mode: Mode, s: ScanState, step: ScanStep, r: ReleaseId)
    requires !mode.AnyInterleaving? && Sound(mode, s) && Stranded(s, r) && ScanEnabled(s, step) && ScanAllowed(mode, s, step)
    ensures RemainingScanJobs(ApplyScan(s, step).q.rows, r) == {}
  {
    hide Sound, Stranded, ApplyScan, ScanEnabled, ScanAllowed;
    forall id ensures id !in RemainingScanJobs(ApplyScan(s, step).q.rows, r) {
      NoNewOpenJob(mode, s, step, r, id);
    }
  }

  lemma MoversHaveCounted(s: ScanState, step: ScanStep, t: Ticket, r: ReleaseId)
    requires ScanEnabled(s, step) && MayMove(ApplyScan(s, step), t, r) && !MayMove(s, t, r)
    ensures step == Count(t, false)
  {
    hide Apply, HasBlocking, RemainingScanJobs, FinalStatus;
    if step.Queue? {
      QueueKeepsPhases(s, step.step);
      hide ApplyScan;
    }
  }

  lemma NoNewMover(mode: Mode, s: ScanState, step: ScanStep, r: ReleaseId, t: Ticket)
    requires !mode.AnyInterleaving? && Sound(mode, s) && Stranded(s, r) && ScanEnabled(s, step) && ScanAllowed(mode, s, step)
    requires !MayMove(s, t, r)
    ensures !MayMove(ApplyScan(s, step), t, r)
  {
    hide LiveInv, Consistent, ApplyScan, Stranded;
    if t in s.q.tickets && t.work.ScanArtifact? && t.work.release == r {
      NoneHolds(mode, s, t, r);
    }
    if MayMove(ApplyScan(s, step), t, r) {
      MoversHaveCounted(s, step, t, r);
    }
  }

  lemma StaysStranded(mode: Mode, s: ScanState, step: ScanStep, r: ReleaseId)
    requires !mode.AnyInterleaving? && Sound(mode, s) && Stranded(s, r) && ScanEnabled(s, step) && ScanAllowed(mode, s, step)
    requires (forall t :: !MayMove(s, t, r)) && !ChangesStatus(step, r)
    ensures Stranded(ApplyScan(s, step), r) && forall t :: !MayMove(ApplyScan(s, step), t, r)
  {
    hide Sound, MayMove, ApplyScan, ScanEnabled, ScanAllowed, ChangesStatus, RemainingScanJobs;
    var s' := ApplyScan(s, step);
    forall t ensures !MayMove(s', t, r) {
      NoNewMover(mode, s, step, r, t);
    }
    NoneOpen(mode, s, step, r);
    StaysScanning(s, step, r);
    StaysEnqueued(s, step, r);
  }

  lemma StaysScanning(s: ScanState, step: ScanStep, r: ReleaseId)
    requires ScanEnabled(s, step) && IsScanning(s, r) && (forall t :: !MayMove(s, t, r)) && !ChangesStatus(step, r)
    ensures IsScanning(ApplyScan(s, step), r)
  {
    hide Apply, RemainingScanJobs, HasBlocking, FinalStatus;
    if step.Queue? {
      QueueKeepsPhases(s, step.step);
      hide ApplyScan;
    } else if step.Move? {
      assert !MayMove(s, step.ticket, r);
    }
  }

  lemma StaysEnqueued(s: ScanState, step: ScanStep, r: ReleaseId)
    requires ScanEnabled(s, step) && r in s.releases && AllEnqueued(s, r)
    ensures AllEnqueued(ApplyScan(s, step), r)
  {
    hide RemainingScanJobs, HasBlocking, FinalStatus;
    if step.Queue? {
      QueueKeepsPhases(s, step.step);
      TimePasses(s.q, step.step);
      hide ApplyScan;
    } else {
      hide Apply;
      HandlerFrame(s, step);
      if step.Reindex? && !step.dbError {
        TimePasses(s.q, Enqueue(step.id, ReindexSearch(s.phases[step.ticket].package), 5, s.q.now));
      }
      hide ApplyScan;
    }
  }

  lemma {:induction false} StaysStrandedRun(mode: Mode, s: ScanState, steps: seq<ScanStep>, r: ReleaseId)
    requires !mode.AnyInterleaving? && Sound(mode, s) && Stranded(s, r) && forall t :: !MayMove(s, t, r)
    requires ScanRun(mode, s, steps) && forall i :: 0 <= i < |steps| ==> !ChangesStatus(steps[i], r)
    ensures Stranded(ScanExec(mode, s, steps), r)
    decreases |steps|
  {
    hide Sound, Stranded, MayMove, ApplyScan, ScanEnabled, ScanAllowed, ChangesStatus;
    if steps != [] {
      SoundStep(mode, s, steps[0]);
      StaysStranded(mode, s, steps[0], r);
      StaysStrandedRun(mode, ApplyScan(s, steps[0]), steps[1..], r);
    }
  }

  /** A stranded release that no handler may still move stays `scanning` until somebody else sets its status. */
  lemma StrandedForGood(mode: Mode, start: int, before: seq<ScanStep>, after: seq<ScanStep>, r: ReleaseId)
    requires !mode.AnyInterleaving? && ScanRun(mode, InitScan(start), before)
    requires var s := ScanExec(mode, InitScan(start), before);
      Stranded(s, r) && (forall t :: !MayMove(s, t, r)) && ScanRun(mode, s, after)
    requires forall i :: 0 <= i < |after| ==> !ChangesStatus(after[i], r)
    ensures Stranded(ScanExec(mode, ScanExec(mode, InitScan(start), before), after), r)
  {
    SoundAtStart(mode, start);
    SoundRun(mode, InitScan(start), before);
    hide ScanRun, ScanExec, Sound, Stranded, MayMove, ChangesStatus;
    StaysStrandedRun(mode, ScanExec(mode, InitScan(start), before), after, r);
  }

  // ---------------------------------------------------------------- one worker loop

  ghost predicate OneHandlerAtATime(s: ScanState) {
    forall t, u | t in s.phases && u in s.phases :: t == u
  }

  lemma OneHandlerStep(s: ScanState, step: ScanStep)
    requires OneHandlerAtATime(s) && ScanEnabled(s, step) && (step.Begin? ==> s.phases == map[])
    ensures OneHandlerAtATime(ApplyScan(s, step))
  {
    hide Apply;
    if step.Queue? {
      QueueKeepsPhases(s, step.step);
    }
  }

  /** More than one remaining row: besides the handler's own there is another. */
  lemma CountedOthers(s: ScanState, t: Ticket) returns (id: JobId)
    requires Consistent(s) && t.work.ScanArtifact? && |RemainingScanJobs(s.q.rows, t.work.release)| > 1
    ensures id != t.id && Outstanding(s, t.work.release, id)
  {
    var remaining := RemainingScanJobs(s.q.rows, t.work.release);
    if forall id | id in remaining :: id == t.id {
      assert remaining <= {t.id};
      SubsetSize(remaining, {t.id});
    }
    id :| id in remaining && id != t.id;
    assert RowConsistent(s, id);
  }

  /** A retention sweep leaves a scan job of a scanning release that is still to be settled. */
  ghost predicate SweepLeavesJob(s: ScanState, step: ScanStep, r: ReleaseId) {
    IsScanning(s, r) && step.Queue? && step.step.CleanupFinished? ==>
      exists id :: !SweptBy(s, step.step.retentionHours, id) && Outstanding(s, r, id)
  }

  ghost predicate SweepsLeaveJob(s: ScanState, steps: seq<ScanStep>, r: ReleaseId)
    requires ScanRun(SingleLoop, s, steps)
    decreases |steps|
  {
    steps == [] || (SweepLeavesJob(s, steps[0], r) && SweepsLeaveJob(ApplyScan(s, steps[0]), steps[1..], r))
  }

  /** One loop counts while no other handler has returned, and sweeps while none has. */
  lemma LoopLeavesWaiting(s: ScanState, step: ScanStep, r: ReleaseId)
    requires Consistent(s) && OneHandlerAtATime(s) && ScanEnabled(s, step) && ScanAllowed(SingleLoop, s, step)
    ensures LeavesWaiting(SingleLoop, s, step, r) <==> SweepLeavesJob(s, step, r)
  {
    hide RemainingScanJobs, Inv, RowConsistent, Outstanding;
    if step.Count? && step.ticket.work.release == r && |RemainingScanJobs(s.q.rows, r)| > 1 {
      var id := CountedOthers(s, step.ticket);
      assert Waits(SingleLoop, s, r, id);
    }
    if step.Queue? && step.step.CleanupFinished? {
      assert forall id :: Waits(SingleLoop, s, r, id) == Outstanding(s, r, id);
    }
  }

  lemma {:induction false} LoopAlwaysLeavesWaiting(s: ScanState, steps: seq<ScanStep>, r: ReleaseId)
    requires Sound(SingleLoop, s) && OneHandlerAtATime(s) && ScanRun(SingleLoop, s, steps)
    ensures AlwaysLeavesWaiting(SingleLoop, s, steps, r) <==> SweepsLeaveJob(s, steps, r)
    decreases |steps|
  {
    if steps != [] {
      OneHandlerStep(s, steps[0]);
      LoopLeavesWaiting(s, steps[0], r);
      hide ApplyScan, Sound, ScanEnabled, ScanAllowed, OneHandlerAtATime, LeavesWaiting, SweepLeavesJob;
      SoundStep(SingleLoop, s, steps[0]);
      LoopAlwaysLeavesWaiting(ApplyScan(s, steps[0]), steps[1..], r);
    }
  }

  /**
   One worker whose handlers run one after another, however long they take: the release is never stranded
   by what is due, exactly if each retention sweep that finds it `scanning` leaves one of its outstanding
   scan jobs; and then a scanning release has one pending, running or dead.
   */
  lemma SingleLoopHasOpenJob(start: int, steps: seq<ScanStep>, r: ReleaseId)
    requires ScanRun(SingleLoop, InitScan(start), steps)
    ensures NeverDueStrands(SingleLoop, InitScan(start), steps, r) <==> SweepsLeaveJob(InitScan(start), steps, r)
    ensures var s := ScanExec(SingleLoop, InitScan(start), steps);
      SweepsLeaveJob(InitScan(start), steps, r) && IsScanning(s, r) && AllEnqueued(s, r) ==>
        exists id :: OpenScanJob(s.q.rows, r, id)
  {
    SoundAtStart(SingleLoop, start);
    LoopAlwaysLeavesWaiting(InitScan(start), steps, r);
    hide ScanRun, ScanExec, AlwaysLeavesWaiting, SweepsLeaveJob, NeverDueStrands;
    NeverStrandsExactlyWhen(SingleLoop, start, steps, r);
    if SweepsLeaveJob(InitScan(start), steps, r) && IsScanning(ScanExec(SingleLoop, InitScan(start), steps), r)
       && AllEnqueued(ScanExec(SingleLoop, InitScan(start), steps), r)
    {
      ScanningHasOpenJob(SingleLoop, start, steps, r);
    }
  }
}
