/**
 The background job table and its statements (crates/workers/src/queue.rs), as a state machine
 whose steps any number of workers take in any order.

 A ticket is what a worker got back from the claim's RETURNING clause.  Settling a ticket updates
 the row by id alone, with the ticket's own `attempts`, so a worker that lost its lock can still
 act on a row that somebody else holds by then.
 */
module Jobs {
  import opened Common

  type JobId = nat
  type WorkerId = nat
  type ReleaseId = nat

  datatype Work =
    | ScanArtifact(release: ReleaseId, artifact: nat)
    | ReindexSearch(package: nat)
    | CleanupOciBlobs(graceHours: int, batchSize: int)
    | OtherWork

  datatype Status = Pending | Running | Completed | Failed | Dead

  /** One row of `background_jobs`.  Times are seconds on one clock. */
  datatype Job = Job(
    work: Work,
    status: Status,
    attempts: int,
    maxAttempts: int,
    scheduledAt: int,
    lockedUntil: Option<int>,
    lockedBy: Option<WorkerId>,
    startedAt: Option<int>,
    completedAt: Option<int>,
    lastError: Option<string>)

  /** A claimed job as the worker holds it. */
  datatype Ticket = Ticket(
    id: JobId,
    work: Work,
    attempts: int,
    maxAttempts: int,
    lockedUntil: int,
    worker: WorkerId)

  /** What happened to one job so far; the program does not store this. */
  datatype History = History(recovered: nat, spent: set<int>, firstFailure: Option<int>)

  datatype State = State(
    now: int,
    rows: map<JobId, Job>,
    tickets: set<Ticket>,
    history: map<JobId, History>)

  datatype Step =
    | Enqueue(id: JobId, work: Work, maxAttempts: int, at: int)
    | Claim(worker: WorkerId, ids: set<JobId>, lockSeconds: int)
    | Complete(ticket: Ticket)
    | Fail(ticket: Ticket, error: string)
    | Abandon(lost: set<Ticket>)
    | RecoverStale
    | CleanupFinished(retentionHours: int)
    | Tick(seconds: nat)

  // ---------------------------------------------------------------- backoff

  function Pow2(n: nat): (p: int)
    ensures p >= 1
  {
    if n == 0 then 1 else 2 * Pow2(n - 1)
  }

  const I64_RANGE := 0x1_0000_0000_0000_0000
  const I64_LIMIT := 0x8000_0000_0000_0000

  /** Two's complement reading of an integer in 64 bits. */
  function WrapI64(x: int): (r: int)
    ensures -I64_LIMIT <= r < I64_LIMIT && (r - x) % I64_RANGE == 0
  {
    if -I64_LIMIT <= x < I64_LIMIT then x
    else (x + I64_LIMIT) % I64_RANGE - I64_LIMIT
  }

  /** `(1i64 << attempts) * 10`: the shift count is taken modulo 64 and both results wrap. */
  function BackoffSeconds(attempts: nat): int {
    WrapI64(WrapI64(Pow2(if attempts < 64 then attempts else attempts % 64)) * 10)
  }

  // ---------------------------------------------------------------- statements on rows

  predicate Due(rows: map<JobId, Job>, now: int, id: JobId) {
    id in rows && rows[id].status.Pending? && rows[id].scheduledAt <= now
  }

  function ClaimedRow(j: Job, now: int, lockSeconds: int, worker: WorkerId): Job {
    j.(status := Running, attempts := j.attempts + 1, lockedUntil := Some(now + lockSeconds),
       lockedBy := Some(worker), startedAt := Some(now))
  }

  function CompletedRow(j: Job, now: int): Job {
    j.(status := Completed, completedAt := Some(now), lockedUntil := None, lockedBy := None)
  }

  /** `fail_job` looks at the caller's `attempts` and `maxAttempts`, never at the row's. */
  function FailedRow(j: Job, now: int, error: string, attempts: int, maxAttempts: int): Job {
    if attempts >= maxAttempts then
      j.(status := Dead, lastError := Some(error), completedAt := Some(now), lockedUntil := None, lockedBy := None)
    else
      j.(status := Pending, lastError := Some(error),
         scheduledAt := now + BackoffSeconds(if attempts < 0 then 0 else attempts),
         lockedUntil := None, lockedBy := None)
  }

  predicate Stale(j: Job, now: int) {
    j.status.Running? && j.lockedUntil.Some? && j.lockedUntil.value < now
  }

  function RecoveredRow(j: Job, now: int): Job {
    j.(status := Pending, lockedUntil := None, lockedBy := None, startedAt := None, scheduledAt := now)
  }

  predicate Expired(j: Job, cutoff: int) {
    (j.status.Completed? || j.status.Dead?) && j.completedAt.Some? && j.completedAt.value < cutoff
  }

  function NewTicket(id: JobId, j: Job, now: int, lockSeconds: int, worker: WorkerId): Ticket {
    Ticket(id, j.work, j.attempts + 1, j.maxAttempts, now + lockSeconds, worker)
  }

  // ---------------------------------------------------------------- the machine

  function Init(now: int): State {
    State(now, map[], {}, map[])
  }

  /** When a step can be taken.  Ids are random UUIDs and never come back. */
  predicate Enabled(s: State, step: Step) {
    match step
    case Enqueue(id, _, _, _) => id !in s.history
    case Claim(_, ids, _) => forall id | id in ids :: Due(s.rows, s.now, id)
    case Complete(t) => t in s.tickets
    case Fail(t, _) => t in s.tickets
    case Abandon(lost) => lost <= s.tickets
    case RecoverStale => true
    case CleanupFinished(_) => true
    case Tick(_) => true
  }

  function SpendTicket(h: History, t: Ticket, now: int): History {
    History(
      h.recovered,
      if t.attempts < t.maxAttempts then h.spent + {t.attempts} else h.spent,
      if h.firstFailure.Some? then h.firstFailure else Some(now))
  }

  function Apply(s: State, step: Step): State
    requires Enabled(s, step)
  {
    match step
    case Enqueue(id, work, maxAttempts, at) =>
      s.(rows := s.rows[id := Job(work, Pending, 0, maxAttempts, at, None, None, None, None, None)],
         history := s.history[id := History(0, {}, None)])
    case Claim(worker, ids, lockSeconds) =>
      s.(rows := map id | id in s.rows ::
           if id in ids then ClaimedRow(s.rows[id], s.now, lockSeconds, worker) else s.rows[id],
         tickets := s.tickets + set id | id in ids :: NewTicket(id, s.rows[id], s.now, lockSeconds, worker))
    case Complete(t) =>
      s.(rows := if t.id in s.rows then s.rows[t.id := CompletedRow(s.rows[t.id], s.now)] else s.rows,
         tickets := s.tickets - {t})
    case Fail(t, error) =>
      s.(rows := if t.id in s.rows
                 then s.rows[t.id := FailedRow(s.rows[t.id], s.now, error, t.attempts, t.maxAttempts)]
                 else s.rows,
         tickets := s.tickets - {t},
         history := if t.id in s.history then s.history[t.id := SpendTicket(s.history[t.id], t, s.now)] else s.history)
    case Abandon(lost) =>
      s.(tickets := s.tickets - lost)
    case RecoverStale =>
      s.(rows := map id | id in s.rows ::
           if Stale(s.rows[id], s.now) then RecoveredRow(s.rows[id], s.now) else s.rows[id],
         history := map id | id in s.history ::
           if id in s.rows && Stale(s.rows[id], s.now)
           then s.history[id].(recovered := s.history[id].recovered + 1) else s.history[id])
    case CleanupFinished(hours) =>
      s.(rows := map id | id in s.rows && !Expired(s.rows[id], s.now - 3600 * hours) :: s.rows[id])
    case Tick(seconds) =>
      s.(now := s.now + seconds)
  }

  /** Which runs a theorem speaks about. */
  datatype Mode =
    | AnyInterleaving   // every interleaving, stale tickets included
    | LockRespecting    // a ticket is settled before its lock expires, or never
    | SingleLoop        // one worker loop: it sweeps and claims only between batches
    | NoRecovery        // no stale-job sweep

  predicate Allowed(mode: Mode, s: State, step: Step) {
    match mode
    case AnyInterleaving => true
    case LockRespecting => (step.Complete? || step.Fail?) ==> s.now <= step.ticket.lockedUntil
    case SingleLoop => (step.Claim? || step.RecoverStale? || step.CleanupFinished?) ==> s.tickets == {}
    case NoRecovery => !step.RecoverStale?
  }

  /** A sequence of steps each of which is enabled, and allowed, when its turn comes. */
  predicate Run(mode: Mode, s: State, steps: seq<Step>)
    decreases |steps|
  {
    steps == [] ||
    (Enabled(s, steps[0]) && Allowed(mode, s, steps[0]) && Run(mode, Apply(s, steps[0]), steps[1..]))
  }

  function Exec(mode: Mode, s: State, steps: seq<Step>): State
    requires Run(mode, s, steps)
    decreases |steps|
  {
    if steps == [] then s else Exec(mode, Apply(s, steps[0]), steps[1..])
  }
}
