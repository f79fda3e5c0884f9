/**
 The queue functions and the worker loop as they run (crates/workers/src/queue.rs,
 crates/workers/src/worker.rs), proved to take the steps of the `Jobs` machine.
 */
module Worker {
  import opened Common
  import opened Jobs
  import opened JobsProofs

  /** The schema's default for `max_attempts`; no enqueue function sets another value. */
  const DEFAULT_MAX_ATTEMPTS := 5

  // ---------------------------------------------------------------- the claim's sub-select

  function Candidates(rows: map<JobId, Job>, now: int, skipped: set<JobId>): set<JobId> {
    set id | id in rows && Due(rows, now, id) && id !in skipped
  }

  /** `ids` is a possible result of ORDER BY scheduled_at FOR UPDATE SKIP LOCKED LIMIT batchSize. */
  predicate EarliestOf(rows: map<JobId, Job>, candidates: set<JobId>, ids: set<JobId>, batchSize: nat) {
    && ids <= candidates <= rows.Keys
    && |ids| == (if batchSize <= |candidates| then batchSize else |candidates|)
    && forall a, b | a in ids && b in candidates && b !in ids :: rows[a].scheduledAt <= rows[b].scheduledAt
  }

  lemma {:induction false} EarliestOne(rows: map<JobId, Job>, ids: set<JobId>) returns (least: JobId)
    requires ids != {} && ids <= rows.Keys
    ensures least in ids && forall id | id in ids :: rows[least].scheduledAt <= rows[id].scheduledAt
    decreases |ids|
  {
    least :| least in ids;
    if ids != {least} {
      assert ids - {least} != {};
      var other := EarliestOne(rows, ids - {least});
      if rows[other].scheduledAt < rows[least].scheduledAt {
        least := other;
      }
    }
  }

  lemma {:induction false} EarliestExists(rows: map<JobId, Job>, candidates: set<JobId>, batchSize: nat) returns (ids: set<JobId>)
    requires candidates <= rows.Keys
    ensures EarliestOf(rows, candidates, ids, batchSize)
    decreases batchSize
  {
    if batchSize == 0 {
      ids := {};
    } else {
      ids := EarliestExists(rows, candidates, batchSize - 1);
      if ids == candidates {
      } else {
        var more :| more in candidates && more !in ids;
        assert more in candidates - ids;
        var next := EarliestOne(rows, candidates - ids);
        ids := ids + {next};
        SubsetSize(ids, candidates);
      }
    }
  }

  // ---------------------------------------------------------------- the table

  method ListRows(rows: map<JobId, Job>, ids: set<JobId>, now: int, lockSeconds: int, worker: WorkerId) returns (claimed: seq<Ticket>)
    requires ids <= rows.Keys
    ensures ReturningRows(claimed, rows, ids, now, lockSeconds, worker)
  {
    claimed := [];
    ReturningNone(rows, now, lockSeconds, worker);
    hide ReturningRows;
    var left := ids;
    assert ids - left == {};
    while left != {}
      invariant left <= ids
      invariant ReturningRows(claimed, rows, ids - left, now, lockSeconds, worker)
      decreases |left|
    {
      var id :| id in left;
      ReturningOneMore(claimed, rows, ids - left, now, lockSeconds, worker, id);
      assert ids - (left - {id}) == (ids - left) + {id};
      claimed := claimed + [NewTicket(id, rows[id], now, lockSeconds, worker)];
      left := left - {id};
    }
    assert ids - left == ids;
  }

  class JobQueue {
    var now: int
    var rows: map<JobId, Job>
    ghost var tickets: set<Ticket>
    ghost var history: map<JobId, History>

    ghost function Snapshot(): State
      reads this
    {
      State(now, rows, tickets, history)
    }

    constructor (start: int)
      ensures Snapshot() == Init(start)
    {
      now := start;
      rows := map[];
      tickets := {};
      history := map[];
    }

    method Advance(seconds: nat)
      modifies this
      ensures Snapshot() == Apply(old(Snapshot()), Tick(seconds))
    {
      now := now + seconds;
    }

    method EnqueueAt(id: JobId, work: Work, scheduledAt: int)
      requires id !in history
      modifies this
      ensures Snapshot() == Apply(old(Snapshot()), Enqueue(id, work, DEFAULT_MAX_ATTEMPTS, scheduledAt))
      ensures id in rows && rows[id].status.Pending? && rows[id].attempts == 0 && rows[id].maxAttempts == 5
    {
      rows := rows[id := Job(work, Pending, 0, DEFAULT_MAX_ATTEMPTS, scheduledAt, None, None, None, None, None)];
      history := history[id := History(0, {}, None)];
    }

    /** `skipped` are the rows other transactions hold locked at that moment. */
    method ClaimJobs(worker: WorkerId, batchSize: nat, lockSeconds: int, skipped: set<JobId>)
      returns (claimed: seq<Ticket>)
      modifies this
      ensures exists ids: set<JobId> ::
        && EarliestOf(old(rows), Candidates(old(rows), old(now), skipped), ids, batchSize)
        && Enabled(old(Snapshot()), Claim(worker, ids, lockSeconds))
        && Snapshot() == Apply(old(Snapshot()), Claim(worker, ids, lockSeconds))
        && ReturningRows(claimed, old(rows), ids, old(now), lockSeconds, worker)
    {
      var candidates := Candidates(rows, now, skipped);
      ghost var some := EarliestExists(rows, candidates, batchSize);
      assert some <= candidates;
      var ids :| ids <= candidates && EarliestOf(rows, candidates, ids, batchSize);
      claimed := UpdateReturning(ids, worker, lockSeconds);
    }

    /** The UPDATE ... RETURNING of a chosen set of rows. */
    method UpdateReturning(ids: set<JobId>, worker: WorkerId, lockSeconds: int) returns (claimed: seq<Ticket>)
      requires Enabled(Snapshot(), Claim(worker, ids, lockSeconds))
      modifies this
      ensures Snapshot() == Apply(old(Snapshot()), Claim(worker, ids, lockSeconds))
      ensures ReturningRows(claimed, old(rows), ids, old(now), lockSeconds, worker)
    {
      claimed := ListRows(rows, ids, now, lockSeconds, worker);
      ghost var before := rows;
      rows := map id | id in rows :: if id in ids then ClaimedRow(rows[id], now, lockSeconds, worker) else rows[id];
      tickets := tickets + set id | id in ids :: NewTicket(id, before[id], now, lockSeconds, worker);
    }

    method CompleteJob(ghost t: Ticket, id: JobId)
      requires t in tickets && t.id == id
      modifies this
      ensures Snapshot() == Apply(old(Snapshot()), Complete(t))
    {
      if id in rows {
        rows := rows[id := CompletedRow(rows[id], now)];
      }
      tickets := tickets - {t};
    }

    method FailJob(ghost t: Ticket, id: JobId, error: string, currentAttempts: int, maxAttempts: int)
      requires t in tickets && t.id == id && t.attempts == currentAttempts && t.maxAttempts == maxAttempts
      modifies this
      ensures Snapshot() == Apply(old(Snapshot()), Fail(t, error))
    {
      if id in rows {
        var j := rows[id];
        if currentAttempts >= maxAttempts {
          rows := rows[id := j.(status := Dead, lastError := Some(error), completedAt := Some(now),
                               lockedUntil := None, lockedBy := None)];
        } else {
          var retryAt := now + BackoffSeconds(if currentAttempts < 0 then 0 else currentAttempts);
          rows := rows[id := j.(status := Pending, lastError := Some(error), scheduledAt := retryAt,
                               lockedUntil := None, lockedBy := None)];
        }
      }
      tickets := tickets - {t};
      if t.id in history {
        history := history[t.id := SpendTicket(history[t.id], t, now)];
      }
    }

    method RecoverStaleJobs() returns (recovered: nat)
      modifies this
      ensures Snapshot() == Apply(old(Snapshot()), RecoverStale)
      ensures recovered == |set id | id in old(rows) && Stale(old(rows)[id], now)|
    {
      var stale := set id | id in rows && Stale(rows[id], now);
      recovered := |stale|;
      history := map id | id in history ::
        if id in stale then history[id].(recovered := history[id].recovered + 1) else history[id];
      rows := map id | id in rows :: if id in stale then RecoveredRow(rows[id], now) else rows[id];
    }

    method CleanupFinishedJobs(retentionHours: int) returns (deleted: nat)
      modifies this
      ensures Snapshot() == Apply(old(Snapshot()), CleanupFinished(retentionHours))
      ensures deleted == |old(rows).Keys| - |rows.Keys|
    {
      var cutoff := now - 3600 * retentionHours;
      var gone := set id | id in rows && Expired(rows[id], cutoff);
      deleted := |gone|;
      rows := rows - gone;
      assert old(rows).Keys == rows.Keys + gone && rows.Keys !! gone;
    }

    /** A worker gives up on a ticket: the settlement statement failed and was only logged. */
    ghost method Forget(t: Ticket)
      requires t in tickets
      modifies this`tickets
      ensures Snapshot() == Apply(old(Snapshot()), Abandon({t}))
    {
      tickets := tickets - {t};
    }
  }

  /** RETURNING lists each updated row once, in some order. */
  ghost predicate ReturningRows(claimed: seq<Ticket>, rows: map<JobId, Job>, ids: set<JobId>, now: int, lockSeconds: int, worker: WorkerId) {
    && ids <= rows.Keys
    && (forall i | 0 <= i < |claimed| :: claimed[i].id in ids && claimed[i] == NewTicket(claimed[i].id, rows[claimed[i].id], now, lockSeconds, worker))
    && (forall i, k | 0 <= i < k < |claimed| :: claimed[i].id != claimed[k].id)
    && |claimed| == |ids|
    && (forall id | id in ids :: NewTicket(id, rows[id], now, lockSeconds, worker) in claimed)
  }

  lemma ReturningNone(rows: map<JobId, Job>, now: int, lockSeconds: int, worker: WorkerId)
    ensures ReturningRows([], rows, {}, now, lockSeconds, worker)
  {
  }

  lemma ReturningOneMore(claimed: seq<Ticket>, rows: map<JobId, Job>, ids: set<JobId>, now: int, lockSeconds: int, worker: WorkerId, id: JobId)
    requires ReturningRows(claimed, rows, ids, now, lockSeconds, worker) && id in rows && id !in ids
    ensures ReturningRows(claimed + [NewTicket(id, rows[id], now, lockSeconds, worker)], rows, ids + {id}, now, lockSeconds, worker)
  {
  }

  // ---------------------------------------------------------------- the worker

  datatype Handling = NoHandler | Succeeded | Errored(message: string)

  /** What the environment does with one job: how long the handler takes, how it ends, and whether
      the settlement statement itself goes through. */
  datatype Outcome = Outcome(seconds: nat, handling: Handling, recorded: bool)

  const NO_HANDLER_MESSAGE := "No handler registered for job kind"

  function SettleStep(t: Ticket, o: Outcome): Step {
    if !o.recorded then Abandon({t})
    else if o.handling.Succeeded? then Complete(t)
    else Fail(t, if o.handling.Errored? then o.handling.message else NO_HANDLER_MESSAGE)
  }

  /** The steps of one batch: for each job its handler's time, then one settlement. */
  function BatchSteps(claimed: seq<Ticket>, outcome: Ticket -> Outcome): seq<Step> {
    if claimed == [] then []
    else
      var last := claimed[|claimed| - 1];
      BatchSteps(claimed[..|claimed| - 1], outcome) + [Tick(outcome(last).seconds), SettleStep(last, outcome(last))]
  }

  lemma BatchNone(s: State, outcome: Ticket -> Outcome)
    ensures Run(SingleLoop, s, BatchSteps([], outcome)) && Exec(SingleLoop, s, BatchSteps([], outcome)) == s
  {
  }

  lemma BatchOneMore(s: State, done: seq<Ticket>, t: Ticket, outcome: Ticket -> Outcome)
    requires Run(SingleLoop, s, BatchSteps(done, outcome)) && t in Exec(SingleLoop, s, BatchSteps(done, outcome)).tickets
    ensures Run(SingleLoop, s, BatchSteps(done + [t], outcome))
    ensures var e := Exec(SingleLoop, s, BatchSteps(done, outcome));
      Exec(SingleLoop, s, BatchSteps(done + [t], outcome)) == Apply(Apply(e, Tick(outcome(t).seconds)), SettleStep(t, outcome(t)))
  {
    hide Run, Exec;
    var steps := BatchSteps(done, outcome);
    Extend(SingleLoop, s, steps, Tick(outcome(t).seconds));
    Extend(SingleLoop, s, steps + [Tick(outcome(t).seconds)], SettleStep(t, outcome(t)));
    assert (done + [t])[..|done|] == done;
    assert steps + [Tick(outcome(t).seconds)] + [SettleStep(t, outcome(t))] == BatchSteps(done + [t], outcome);
  }

  lemma NextTicket(claimed: seq<Ticket>, i: nat)
    requires i < |claimed| && forall k, l | 0 <= k < l < |claimed| :: claimed[k] != claimed[l]
    ensures claimed[..i + 1] == claimed[..i] + [claimed[i]] && claimed[i] !in claimed[..i]
    ensures Handled(claimed[..i + 1]) == Handled(claimed[..i]) + {claimed[i]}
  {
  }

  function Handled(claimed: seq<Ticket>): set<Ticket> {
    set t | t in claimed
  }

  datatype LoopEvent =
    | PollTick(skipped: set<JobId>, claimFails: bool, outcome: Ticket -> Outcome)
    | RecoveryTick
    | ShutdownChanged(stop: bool)
    | Idle(seconds: nat)

  /** `WorkerConfig`, without the intervals, which decide when the ticks of the loop come. */
  datatype Config = Config(workerId: WorkerId, batchSize: nat, lockSeconds: int, retentionHours: int)

  /** The claim of one poll: an earliest batch of the due rows that nobody holds locked, each returned once. */
  ghost predicate ClaimsBatch(c: Config, s: State, skipped: set<JobId>, ids: set<JobId>, claimed: seq<Ticket>) {
    && EarliestOf(s.rows, Candidates(s.rows, s.now, skipped), ids, c.batchSize)
    && Enabled(s, Claim(c.workerId, ids, c.lockSeconds))
    && ReturningRows(claimed, s.rows, ids, s.now, c.lockSeconds, c.workerId)
  }

  /** One poll: nothing if the claim fails, and otherwise the claim and then the claimed batch, all of it. */
  ghost predicate Polls(c: Config, s: State, e: LoopEvent, s': State)
    requires e.PollTick?
  {
    if e.claimFails then s' == s
    else
      exists ids: set<JobId>, claimed: seq<Ticket> ::
        && ClaimsBatch(c, s, e.skipped, ids, claimed)
        && BatchLeads(Apply(s, Claim(c.workerId, ids, c.lockSeconds)), claimed, e.outcome, s')
  }

  ghost predicate BatchLeads(s: State, claimed: seq<Ticket>, outcome: Ticket -> Outcome, s': State) {
    Run(SingleLoop, s, BatchSteps(claimed, outcome)) && s' == Exec(SingleLoop, s, BatchSteps(claimed, outcome))
  }

  /** What each event of the select loop does. */
  ghost predicate Happens(c: Config, s: State, e: LoopEvent, s': State) {
    match e
    case PollTick(_, _, _) => Polls(c, s, e, s')
    case RecoveryTick => s' == Apply(Apply(s, RecoverStale), CleanupFinished(c.retentionHours))
    case ShutdownChanged(_) => s' == s
    case Idle(seconds) => s' == Apply(s, Tick(seconds))
  }

  const STOP := ShutdownChanged(true)

  /** The states between the events, up to the first stop or to the end. */
  ghost predicate LoopTrace(c: Config, events: seq<LoopEvent>, trace: seq<State>) {
    && 1 <= |trace| <= |events| + 1
    && (forall i :: 0 <= i < |trace| - 1 ==> events[i] != STOP && Happens(c, trace[i], events[i], trace[i + 1]))
    && (|trace| <= |events| ==> events[|trace| - 1] == STOP)
  }

  class WorkerLoop {
    const db: JobQueue
    const config: Config

    constructor (db: JobQueue, config: Config)
      ensures this.db == db && this.config == config
    {
      this.db := db;
      this.config := config;
    }

    method HandleOne(job: Ticket, o: Outcome)
      requires job in db.tickets
      modifies db
      ensures db.Snapshot() == Apply(Apply(old(db.Snapshot()), Tick(o.seconds)), SettleStep(job, o))
      ensures db.tickets == old(db.tickets) - {job}
    {
      db.Advance(o.seconds);
      if !o.recorded {
        db.Forget(job);
      } else {
        match o.handling {
          case NoHandler => db.FailJob(job, job.id, NO_HANDLER_MESSAGE, job.attempts, job.maxAttempts);
          case Succeeded => db.CompleteJob(job, job.id);
          case Errored(message) => db.FailJob(job, job.id, message, job.attempts, job.maxAttempts);
        }
      }
    }

    /**
     Every claimed job is settled exactly once, in the order RETURNING listed it, and no ticket is
     left over: the table ends where the batch's steps lead.
     */
    method ProcessBatch(claimed: seq<Ticket>, outcome: Ticket -> Outcome)
      requires forall i | 0 <= i < |claimed| :: claimed[i] in db.tickets
      requires forall i, k | 0 <= i < k < |claimed| :: claimed[i] != claimed[k]
      modifies db
      ensures Run(SingleLoop, old(db.Snapshot()), BatchSteps(claimed, outcome))
      ensures db.Snapshot() == Exec(SingleLoop, old(db.Snapshot()), BatchSteps(claimed, outcome))
      ensures db.tickets == old(db.tickets) - Handled(claimed)
    {
      hide Run, Exec, BatchSteps, Apply, SettleStep, Enabled, Allowed;
      ghost var s := db.Snapshot();
      BatchNone(s, outcome);
      for i := 0 to |claimed|
        invariant Run(SingleLoop, s, BatchSteps(claimed[..i], outcome))
        invariant db.Snapshot() == Exec(SingleLoop, s, BatchSteps(claimed[..i], outcome))
        invariant db.tickets == old(db.tickets) - Handled(claimed[..i])
      {
        var job := claimed[i];
        NextTicket(claimed, i);
        BatchOneMore(s, claimed[..i], job, outcome);
        HandleOne(job, outcome(job));
      }
      assert claimed[..|claimed|] == claimed;
    }

    /** One poll does what `Polls` says, and is a run that the `SingleLoop` discipline allows. */
    method PollAndProcess(e: LoopEvent)
      requires e.PollTick? && db.tickets == {}
      modifies db
      ensures db.tickets == {}
      ensures Polls(config, old(db.Snapshot()), e, db.Snapshot())
      ensures Reached(SingleLoop, old(db.Snapshot()), db.Snapshot())
    {
      hide Reached, EarliestOf, BatchSteps, Run, Exec;
      ghost var s := db.Snapshot();
      ReachedStart(SingleLoop, s);
      if e.claimFails {
        return;
      }
      var claimed := db.ClaimJobs(config.workerId, config.batchSize, config.lockSeconds, e.skipped);
      ghost var ids: set<JobId> :|
        && EarliestOf(s.rows, Candidates(s.rows, s.now, e.skipped), ids, config.batchSize)
        && Enabled(s, Claim(config.workerId, ids, config.lockSeconds))
        && db.Snapshot() == Apply(s, Claim(config.workerId, ids, config.lockSeconds))
        && ReturningRows(claimed, s.rows, ids, s.now, config.lockSeconds, config.workerId);
      ReachedStep(SingleLoop, s, s, Claim(config.workerId, ids, config.lockSeconds));
      ClaimedAll(s, claimed, ids, config.lockSeconds, config.workerId);
      ghost var mid := db.Snapshot();
      ProcessBatch(claimed, e.outcome);
      ReachedRun(SingleLoop, s, mid, BatchSteps(claimed, e.outcome));
      assert ClaimsBatch(config, s, e.skipped, ids, claimed) && BatchLeads(mid, claimed, e.outcome, db.Snapshot());
    }

    /**
     The select loop does what its events say, in their order, until it is told to stop.  Whatever the
     order of ticks and the durations of handlers, it takes only steps that the `SingleLoop` discipline
     allows: it sweeps and claims between batches.
     */
    method RunLoop(events: seq<LoopEvent>)
      requires db.tickets == {}
      modifies db
      ensures db.tickets == {}
      ensures exists trace :: LoopTrace(config, events, trace)
                && trace[0] == old(db.Snapshot()) && trace[|trace| - 1] == db.Snapshot()
      ensures Reached(SingleLoop, old(db.Snapshot()), db.Snapshot())
    {
      hide Reached, Polls;
      ghost var s := db.Snapshot();
      ReachedStart(SingleLoop, s);
      ghost var trace := [s];
      for i := 0 to |events|
        invariant db.tickets == {}
        invariant |trace| == i + 1 && trace[0] == s && trace[i] == db.Snapshot()
        invariant forall k :: 0 <= k < i ==> events[k] != STOP && Happens(config, trace[k], events[k], trace[k + 1])
        invariant Reached(SingleLoop, s, db.Snapshot())
      {
        ghost var before := db.Snapshot();
        match events[i] {
          case PollTick(_, _, _) =>
            PollAndProcess(events[i]);
            ReachedTransitive(SingleLoop, s, before, db.Snapshot());
          case RecoveryTick =>
            ReachedStep(SingleLoop, s, before, RecoverStale);
            var _ := db.RecoverStaleJobs();
            ReachedStep(SingleLoop, s, db.Snapshot(), CleanupFinished(config.retentionHours));
            var _ := db.CleanupFinishedJobs(config.retentionHours);
          case ShutdownChanged(stop) =>
            if stop {
              assert LoopTrace(config, events, trace);
              return;
            }
          case Idle(seconds) =>
            ReachedStep(SingleLoop, s, before, Tick(seconds));
            db.Advance(seconds);
        }
        assert Happens(config, before, events[i], db.Snapshot());
        trace := trace + [db.Snapshot()];
      }
      assert LoopTrace(config, events, trace);
    }
  }

  lemma ClaimedAll(s: State, claimed: seq<Ticket>, ids: set<JobId>, lockSeconds: int, worker: WorkerId)
    requires Enabled(s, Claim(worker, ids, lockSeconds)) && s.tickets == {}
    requires ReturningRows(claimed, s.rows, ids, s.now, lockSeconds, worker)
    ensures Handled(claimed) == Apply(s, Claim(worker, ids, lockSeconds)).tickets
    ensures Apply(s, Claim(worker, ids, lockSeconds)).history == s.history
    ensures forall i, k | 0 <= i < k < |claimed| :: claimed[i] != claimed[k]
  {
  }

  // ---------------------------------------------------------------- what a poll does to each job

  /** What becomes of a running row whose ticket is settled with outcome `o`. */
  predicate SettledAs(before: Job, t: Ticket, o: Outcome, after: Job) {
    && after.work == before.work && after.attempts == before.attempts && after.maxAttempts == before.maxAttempts
    && (if !o.recorded then after == before
        else if o.handling.Succeeded? then after.status.Completed?
        else if t.attempts >= t.maxAttempts then after.status.Dead?
        else after.status.Pending?)
  }

  /** A batch settles the row of each of its tickets, and leaves every other row alone. */
  lemma {:induction false} BatchRows(s: State, claimed: seq<Ticket>, outcome: Ticket -> Outcome, s': State, id: JobId)
    requires BatchLeads(s, claimed, outcome, s')
    requires forall i, k | 0 <= i < k < |claimed| :: claimed[i].id != claimed[k].id
    requires forall i | 0 <= i < |claimed| :: claimed[i].id in s.rows
    ensures s'.rows.Keys == s.rows.Keys
    ensures forall i | 0 <= i < |claimed| && claimed[i].id == id :: SettledAs(s.rows[id], claimed[i], outcome(claimed[i]), s'.rows[id])
    ensures (forall i | 0 <= i < |claimed| :: claimed[i].id != id) && id in s.rows ==> s'.rows[id] == s.rows[id]
    decreases |claimed|
  {
    if claimed != [] {
      var n := |claimed| - 1;
      var t := claimed[n];
      var mid := BatchUpTo(s, claimed, outcome, s');
      BatchRows(s, claimed[..n], outcome, mid, id);
      hide Run, Exec, BatchLeads, BackoffSeconds;
      SettlesRow(mid, t, outcome(t), id);
    }
  }

  lemma BatchUpTo(s: State, claimed: seq<Ticket>, outcome: Ticket -> Outcome, s': State) returns (mid: State)
    requires claimed != [] && BatchLeads(s, claimed, outcome, s')
    ensures var n := |claimed| - 1; var t := claimed[n];
      && BatchLeads(s, claimed[..n], outcome, mid) && t in mid.tickets
      && s' == Apply(Apply(mid, Tick(outcome(t).seconds)), SettleStep(t, outcome(t)))
  {
    var n := |claimed| - 1;
    var t := claimed[n];
    var steps := BatchSteps(claimed[..n], outcome);
    SplitRun(SingleLoop, s, steps, [Tick(outcome(t).seconds), SettleStep(t, outcome(t))]);
    mid := Exec(SingleLoop, s, steps);
    hide Run, Exec, Apply;
    TwoSteps(SingleLoop, mid, Tick(outcome(t).seconds), SettleStep(t, outcome(t)));
    SettlesHeld(mid, t, outcome(t));
  }

  lemma SettlesHeld(s: State, t: Ticket, o: Outcome)
    requires Enabled(Apply(s, Tick(o.seconds)), SettleStep(t, o))
    ensures t in s.tickets
  {
    assert Apply(s, Tick(o.seconds)).tickets == s.tickets;
    assert t in {t};
  }

  lemma TwoSteps(mode: Mode, s: State, a: Step, b: Step)
    requires Run(mode, s, [a, b])
    ensures Enabled(s, a) && Enabled(Apply(s, a), b) && Exec(mode, s, [a, b]) == Apply(Apply(s, a), b)
  {
    hide Enabled, Allowed, Apply;
    var mid := Apply(s, a);
    assert [a, b][1..] == [b] && [b][1..] == [];
    assert Run(mode, mid, [b]);
    assert Exec(mode, mid, [b]) == Apply(mid, b);
  }

  lemma {:induction false} SplitRun(mode: Mode, s: State, a: seq<Step>, b: seq<Step>)
    requires Run(mode, s, a + b)
    ensures Run(mode, s, a) && Run(mode, Exec(mode, s, a), b)
    ensures Exec(mode, s, a + b) == Exec(mode, Exec(mode, s, a), b)
    decreases |a|
  {
    hide Enabled, Allowed, Apply;
    if a == [] {
      assert a + b == b;
    } else {
      assert (a + b)[1..] == a[1..] + b;
      SplitRun(mode, Apply(s, a[0]), a[1..], b);
    }
  }

  lemma SettlesRow(s: State, t: Ticket, o: Outcome, id: JobId)
    requires t in s.tickets && t.id in s.rows
    ensures var s' := Apply(Apply(s, Tick(o.seconds)), SettleStep(t, o));
      && s'.rows.Keys == s.rows.Keys
      && (t.id == id ==> SettledAs(s.rows[id], t, o, s'.rows[id]))
      && (t.id != id && id in s.rows ==> s'.rows[id] == s.rows[id])
  {
    hide BackoffSeconds;
  }

  /**
   One poll, job by job: an earliest batch is claimed, each of its jobs has one attempt more and ends as its
   handler and its settlement did, and no other job is touched.
   */
  lemma PollSettles(c: Config, s: State, e: LoopEvent, s': State) returns (ids: set<JobId>)
    requires e.PollTick? && !e.claimFails && Polls(c, s, e, s')
    ensures EarliestOf(s.rows, Candidates(s.rows, s.now, e.skipped), ids, c.batchSize)
    ensures s'.rows.Keys == s.rows.Keys
    ensures forall id | id in ids ::
      var t := NewTicket(id, s.rows[id], s.now, c.lockSeconds, c.workerId);
      && s'.rows[id].attempts == s.rows[id].attempts + 1
      && s'.rows[id].status ==
           (if !e.outcome(t).recorded then Running
            else if e.outcome(t).handling.Succeeded? then Completed
            else if s.rows[id].attempts + 1 >= s.rows[id].maxAttempts then Dead
            else Pending)
    ensures forall id | id in s.rows && id !in ids :: s'.rows[id] == s.rows[id]
  {
    var claimed: seq<Ticket>;
    ids, claimed :| ClaimsBatch(c, s, e.skipped, ids, claimed)
      && BatchLeads(Apply(s, Claim(c.workerId, ids, c.lockSeconds)), claimed, e.outcome, s');
    var mid := Apply(s, Claim(c.workerId, ids, c.lockSeconds));
    hide EarliestOf, BatchLeads, Candidates;
    BatchRows(mid, claimed, e.outcome, s', 0);
    forall id | id in s.rows
      ensures id !in ids ==> s'.rows[id] == s.rows[id]
      ensures id in ids ==> SettledAs(mid.rows[id], NewTicket(id, s.rows[id], s.now, c.lockSeconds, c.workerId),
                              e.outcome(NewTicket(id, s.rows[id], s.now, c.lockSeconds, c.workerId)), s'.rows[id])
    {
      BatchRows(mid, claimed, e.outcome, s', id);
    }
  }

  /** The claimed batch: due jobs that nobody holds locked, and a due job is left out only by a full batch of earlier ones. */
  lemma EarliestWrittenOut(rows: map<JobId, Job>, now: int, skipped: set<JobId>, ids: set<JobId>, batchSize: nat)
    requires EarliestOf(rows, Candidates(rows, now, skipped), ids, batchSize)
    ensures forall id | id in ids :: id in rows && rows[id].status.Pending? && rows[id].scheduledAt <= now && id !in skipped
    ensures forall id, other | id in ids && other in rows && rows[other].status.Pending? && rows[other].scheduledAt <= now
              && other !in skipped && other !in ids :: |ids| == batchSize && rows[id].scheduledAt <= rows[other].scheduledAt
  {
    var candidates := Candidates(rows, now, skipped);
    if |candidates| <= batchSize {
      AllFit(rows, candidates, ids, batchSize);
    }
  }

  /**
   In particular, where the due jobs fit in one batch and every handler succeeds and is recorded, all of them
   end completed, with one attempt more.
   */
  lemma DueJobsComplete(c: Config, s: State, e: LoopEvent, s': State, id: JobId)
    requires e.PollTick? && !e.claimFails && Polls(c, s, e, s')
    requires |Candidates(s.rows, s.now, e.skipped)| <= c.batchSize
    requires forall t :: e.outcome(t).recorded && e.outcome(t).handling.Succeeded?
    requires id in s.rows && s.rows[id].status.Pending? && s.rows[id].scheduledAt <= s.now && id !in e.skipped
    ensures id in s'.rows && s'.rows[id].status.Completed? && s'.rows[id].attempts == s.rows[id].attempts + 1
  {
    hide Polls;
    var ids := PollSettles(c, s, e, s');
    AllFit(s.rows, Candidates(s.rows, s.now, e.skipped), ids, c.batchSize);
    assert id in Candidates(s.rows, s.now, e.skipped);
  }

  lemma AllFit(rows: map<JobId, Job>, candidates: set<JobId>, ids: set<JobId>, batchSize: nat)
    requires EarliestOf(rows, candidates, ids, batchSize) && |candidates| <= batchSize
    ensures ids == candidates
  {
    assert |candidates - ids| == |candidates| - |ids|;
  }

  // ---------------------------------------------------------------- what the other events do

  /** A recovery tick, row by row: expired rows go, and running rows whose lock is over are due again. */
  lemma SweepOutcome(c: Config, s: State, s': State, id: JobId)
    requires Happens(c, s, RecoveryTick, s')
    ensures s'.now == s.now && s'.tickets == s.tickets
    ensures id in s'.rows <==>
      && id in s.rows
      && !((s.rows[id].status == Completed || s.rows[id].status == Dead) && s.rows[id].completedAt.Some?
           && s.now - s.rows[id].completedAt.value > 60 * 60 * c.retentionHours)
    ensures id in s'.rows ==>
      s'.rows[id] == if s.rows[id].status == Running && s.rows[id].lockedUntil.Some? && s.rows[id].lockedUntil.value < s.now
                     then s.rows[id].(status := Pending, lockedUntil := None, lockedBy := None, startedAt := None, scheduledAt := s.now)
                     else s.rows[id]
  {
  }

  /** Waiting lets time go by, and being told to stop ends the loop as it is. */
  lemma WaitOutcome(c: Config, s: State, seconds: nat, stop: bool, s': State)
    ensures Happens(c, s, Idle(seconds), s') ==> s' == s.(now := s.now + seconds)
    ensures Happens(c, s, ShutdownChanged(stop), s') ==> s' == s
  {
  }

  /** The loop is its first event and then the rest, unless that event stops it. */
  lemma LoopUnfolds(c: Config, e: LoopEvent, rest: seq<LoopEvent>, trace: seq<State>)
    ensures LoopTrace(c, [e] + rest, trace) <==>
      if e == ShutdownChanged(true) then |trace| == 1
      else |trace| > 1 && Happens(c, trace[0], e, trace[1]) && LoopTrace(c, rest, trace[1..])
    ensures LoopTrace(c, [], trace) <==> |trace| == 1
  {
    hide Happens;
    assert ([e] + rest)[0] == e;
    if e != STOP && |trace| > 1 && Happens(c, trace[0], e, trace[1]) && LoopTrace(c, rest, trace[1..]) {
      LoopGrows(c, e, rest, trace);
    }
    if e != STOP && LoopTrace(c, [e] + rest, trace) {
      LoopShrinks(c, e, rest, trace);
    }
  }

  lemma LoopGrows(c: Config, e: LoopEvent, rest: seq<LoopEvent>, trace: seq<State>)
    requires e != STOP && |trace| > 1 && Happens(c, trace[0], e, trace[1]) && LoopTrace(c, rest, trace[1..])
    ensures LoopTrace(c, [e] + rest, trace)
  {
    hide Happens;
    var events := [e] + rest;
    forall i | 0 <= i < |trace| - 1 ensures events[i] != STOP && Happens(c, trace[i], events[i], trace[i + 1]) {
      if i > 0 {
        assert events[i] == rest[i - 1] && trace[1..][i - 1] == trace[i] && trace[1..][i] == trace[i + 1];
      }
    }
    assert |trace| <= |events| ==> events[|trace| - 1] == rest[|trace| - 2];
  }

  lemma LoopShrinks(c: Config, e: LoopEvent, rest: seq<LoopEvent>, trace: seq<State>)
    requires e != STOP && LoopTrace(c, [e] + rest, trace)
    ensures |trace| > 1 && Happens(c, trace[0], e, trace[1]) && LoopTrace(c, rest, trace[1..])
  {
    hide Happens;
    var events := [e] + rest;
    assert events[0] == e;
    forall i | 0 <= i < |trace[1..]| - 1 ensures rest[i] != STOP && Happens(c, trace[1..][i], rest[i], trace[1..][i + 1]) {
      assert events[i + 1] == rest[i] && trace[1..][i] == trace[i + 1] && trace[1..][i + 1] == trace[i + 2];
    }
    assert |trace| <= |events| ==> events[|trace| - 1] == rest[|trace| - 2];
  }

  /** From end to end: one tick of the loop completes every due job whose handler succeeds, if they fit in a batch. */
  lemma OneTickCompletes(c: Config, e: LoopEvent, trace: seq<State>, id: JobId)
    requires e.PollTick? && !e.claimFails && e.skipped == {} && LoopTrace(c, [e], trace)
    requires forall t :: e.outcome(t) == Outcome(e.outcome(t).seconds, Succeeded, true)
    requires var s := trace[0];
      && id in s.rows && s.rows[id].status == Pending && s.rows[id].scheduledAt <= s.now
      && |set d | d in s.rows && s.rows[d].status == Pending && s.rows[d].scheduledAt <= s.now| <= c.batchSize
    ensures var s, s' := trace[0], trace[|trace| - 1];
      id in s'.rows && s'.rows[id].status == Completed && s'.rows[id].attempts == s.rows[id].attempts + 1
  {
    hide Polls;
    LoopUnfolds(c, e, [], trace);
    LoopUnfolds(c, e, [], trace[1..]);
    assert [e] + [] == [e];
    var s := trace[0];
    assert Candidates(s.rows, s.now, {}) == set d | d in s.rows && s.rows[d].status == Pending && s.rows[d].scheduledAt <= s.now;
    DueJobsComplete(c, s, e, trace[1], id);
  }
}
