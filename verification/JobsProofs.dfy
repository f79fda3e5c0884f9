/**
 What every run of the job table keeps (crates/workers/src/queue.rs, crates/workers/src/worker.rs).
 */
module JobsProofs {
  import opened Common
  import opened Jobs

  // ---------------------------------------------------------------- counting a set of small numbers

  function UpTo(n: nat): (s: set<int>)
    ensures forall k :: k in s <==> 1 <= k <= n
    ensures |s| == n
  {
    if n == 0 then {} else UpTo(n - 1) + {n}
  }

  lemma {:induction false} SubsetSize<T>(a: set<T>, b: set<T>)
    requires a <= b
    ensures |a| <= |b|
  {
    if a != {} {
      var x :| x in a;
      SubsetSize(a - {x}, b - {x});
    }
  }

  // ---------------------------------------------------------------- tickets and attempts

  predicate TicketSound(s: State, t: Ticket) {
    && t.id in s.history
    && 1 <= t.attempts
    && t.attempts !in s.history[t.id].spent
    && (t.id in s.rows ==>
          && t.attempts <= s.rows[t.id].attempts
          && t.maxAttempts == s.rows[t.id].maxAttempts
          && t.work == s.rows[t.id].work)
  }

  predicate RowSound(s: State, id: JobId)
    requires id in s.rows
  {
    var j := s.rows[id];
    && id in s.history
    && 0 <= j.attempts
    && (forall k | k in s.history[id].spent :: 1 <= k < j.maxAttempts && k <= j.attempts)
    && j.attempts + (if j.status.Pending? then 1 else 0) <= 1 + |s.history[id].spent| + s.history[id].recovered
    && (j.status.Dead? ==> j.attempts >= j.maxAttempts)
    && !j.status.Failed?
  }

  ghost predicate Inv(s: State) {
    && (forall id | id in s.rows :: RowSound(s, id))
    && (forall t | t in s.tickets :: TicketSound(s, t))
    && (forall t, u | t in s.tickets && u in s.tickets && t.id == u.id && t.attempts == u.attempts :: t == u)
  }

  lemma RowSoundStep(s: State, step: Step, id: JobId)
    requires Inv(s) && Enabled(s, step) && id in Apply(s, step).rows
    ensures RowSound(Apply(s, step), id)
  {
    if id in s.rows {
      assert RowSound(s, id);
    }
    if step.Fail? && step.ticket.id == id {
      var t := step.ticket;
      assert TicketSound(s, t);
      if t.attempts < t.maxAttempts {
        assert |s.history[id].spent + {t.attempts}| == |s.history[id].spent| + 1;
      }
    }
  }

  lemma TicketSoundStep(s: State, step: Step, t: Ticket)
    requires Inv(s) && Enabled(s, step) && t in Apply(s, step).tickets
    ensures TicketSound(Apply(s, step), t)
  {
    if t in s.tickets {
      assert TicketSound(s, t);
    } else {
      assert t.id in step.ids && RowSound(s, t.id);
    }
    if step.Fail? {
      assert TicketSound(s, step.ticket);
    }
  }

  lemma TicketsDistinctStep(s: State, step: Step, t: Ticket, u: Ticket)
    requires Inv(s) && Enabled(s, step)
    requires t in Apply(s, step).tickets && u in Apply(s, step).tickets && t.id == u.id && t.attempts == u.attempts
    ensures t == u
  {
    if t in s.tickets {
      assert TicketSound(s, t);
    }
    if u in s.tickets {
      assert TicketSound(s, u);
    }
  }

  lemma InvStep(s: State, step: Step)
    requires Inv(s) && Enabled(s, step)
    ensures Inv(Apply(s, step))
  {
    var s' := Apply(s, step);
    forall id | id in s'.rows ensures RowSound(s', id) {
      RowSoundStep(s, step, id);
    }
    forall t | t in s'.tickets ensures TicketSound(s', t) {
      TicketSoundStep(s, step, t);
    }
    forall t, u | t in s'.tickets && u in s'.tickets && t.id == u.id && t.attempts == u.attempts ensures t == u {
      TicketsDistinctStep(s, step, t, u);
    }
  }

  lemma {:induction false} InvRun(mode: Mode, s: State, steps: seq<Step>)
    requires Inv(s) && Run(mode, s, steps)
    ensures Inv(Exec(mode, s, steps))
    decreases |steps|
  {
    if steps != [] {
      InvStep(s, steps[0]);
      InvRun(mode, Apply(s, steps[0]), steps[1..]);
    }
  }

  function Max(a: int, b: int): int { if a >= b then a else b }

  /**
   Any interleaving of any number of workers, late stale tickets included: a job is handed out at
   most max(1, max_attempts) times plus once for each time it was recovered as stale, and a dead
   job has used up its attempts.
   */
  lemma AttemptsBounded(start: int, steps: seq<Step>, id: JobId)
    requires Run(AnyInterleaving, Init(start), steps)
    ensures var s := Exec(AnyInterleaving, Init(start), steps);
      id in s.rows ==>
        && id in s.history
        && s.rows[id].attempts <= Max(1, s.rows[id].maxAttempts) + s.history[id].recovered
        && (s.rows[id].status.Dead? ==> s.rows[id].attempts >= s.rows[id].maxAttempts)
  {
    InvRun(AnyInterleaving, Init(start), steps);
    var s := Exec(AnyInterleaving, Init(start), steps);
    if id in s.rows {
      assert RowSound(s, id);
      var m := Max(0, s.rows[id].maxAttempts - 1);
      assert s.history[id].spent <= UpTo(m);
      SubsetSize(s.history[id].spent, UpTo(m));
    }
  }

  // ---------------------------------------------------------------- fencing

  /** The ticket still holds its job: what a fenced update would ask for. */
  predicate Live(s: State, t: Ticket) {
    && t.id in s.rows
    && s.rows[t.id].status.Running?
    && s.rows[t.id].attempts == t.attempts
    && s.rows[t.id].lockedUntil == Some(t.lockedUntil)
  }

  /** The tickets whose holder may still act in a run of this mode. */
  predicate Unexpired(mode: Mode, s: State, t: Ticket) {
    mode.LockRespecting? ==> s.now <= t.lockedUntil
  }

  ghost predicate LiveInv(mode: Mode, s: State) {
    Inv(s) && forall t | t in s.tickets && Unexpired(mode, s, t) :: Live(s, t)
  }

  lemma TicketStaysLive(mode: Mode, s: State, step: Step, t: Ticket)
    requires !mode.AnyInterleaving?
    requires LiveInv(mode, s) && Enabled(s, step) && Allowed(mode, s, step)
    requires t in Apply(s, step).tickets && Unexpired(mode, Apply(s, step), t)
    ensures Live(Apply(s, step), t)
  {
    hide RowSound;
    assert t in s.tickets ==> TicketSound(s, t);
    if t in s.tickets {
      assert Live(s, t);
    } else {
      assert step.Claim? && t.id in step.ids;
    }
  }

  lemma LiveStep(mode: Mode, s: State, step: Step)
    requires !mode.AnyInterleaving?
    requires LiveInv(mode, s) && Enabled(s, step) && Allowed(mode, s, step)
    ensures LiveInv(mode, Apply(s, step))
  {
    InvStep(s, step);
    hide Apply, Enabled, Allowed, Live;
    var s' := Apply(s, step);
    forall t | t in s'.tickets && Unexpired(mode, s', t) ensures Live(s', t) {
      TicketStaysLive(mode, s, step, t);
    }
  }

  lemma {:induction false} LiveRun(mode: Mode, s: State, steps: seq<Step>)
    requires !mode.AnyInterleaving?
    requires LiveInv(mode, s) && Run(mode, s, steps)
    ensures LiveInv(mode, Exec(mode, s, steps))
    decreases |steps|
  {
    if steps != [] {
      LiveStep(mode, s, steps[0]);
      LiveRun(mode, Apply(s, steps[0]), steps[1..]);
    }
  }

  /** In every such run two unexpired unsettled tickets of one job are the same ticket. */
  lemma AtMostOneLiveTicket(mode: Mode, start: int, steps: seq<Step>, t: Ticket, u: Ticket)
    requires !mode.AnyInterleaving?
    requires Run(mode, Init(start), steps)
    requires var s := Exec(mode, Init(start), steps);
      t in s.tickets && u in s.tickets && t.id == u.id && Unexpired(mode, s, t) && Unexpired(mode, s, u)
    ensures t == u
  {
    LiveRun(mode, Init(start), steps);
    var s := Exec(mode, Init(start), steps);
    assert Live(s, t) && Live(s, u);
  }

  /**
   The settlement as a fenced statement would do it: it touches the row only if the row is still
   running the attempt the ticket was claimed for.
   */
  function ApplyFenced(s: State, step: Step): State
    requires Enabled(s, step) && (step.Complete? || step.Fail?)
  {
    var holds := step.ticket.id in s.rows
              && s.rows[step.ticket.id].status.Running?
              && s.rows[step.ticket.id].attempts == step.ticket.attempts;
    if holds then Apply(s, step) else Apply(s, step).(rows := s.rows)
  }

  /**
   Under lock-respecting settlement, for a single worker loop whatever its handlers' durations, and
   in runs without a sweep, updating by id alone is the same as the fenced update.
   */
  lemma ByIdRefinesFenced(mode: Mode, start: int, steps: seq<Step>, step: Step)
    requires !mode.AnyInterleaving?
    requires Run(mode, Init(start), steps)
    requires var s := Exec(mode, Init(start), steps);
      Enabled(s, step) && Allowed(mode, s, step) && (step.Complete? || step.Fail?)
    ensures var s := Exec(mode, Init(start), steps);
      Apply(s, step) == ApplyFenced(s, step) && Live(s, step.ticket)
  {
    LiveRun(mode, Init(start), steps);
    var s := Exec(mode, Init(start), steps);
    assert step.ticket in s.tickets && Unexpired(mode, s, step.ticket);
  }

  predicate Settled(j: Job) {
    j.status.Completed? || j.status.Dead?
  }

  /** Completed and dead are absorbing: later such a row is the same row, or it was deleted. */
  lemma {:induction false} SettledAbsorbing(mode: Mode, s: State, steps: seq<Step>, id: JobId)
    requires !mode.AnyInterleaving?
    requires LiveInv(mode, s) && Run(mode, s, steps)
    requires id in s.history && (id in s.rows ==> Settled(s.rows[id]))
    ensures var s' := Exec(mode, s, steps);
      id in s'.rows ==> id in s.rows && s'.rows[id] == s.rows[id]
    decreases |steps|
  {
    if steps != [] {
      var step := steps[0];
      LiveStep(mode, s, step);
      var s1 := Apply(s, step);
      if step.Complete? || step.Fail? {
        assert Live(s, step.ticket);
      }
      SettledAbsorbing(mode, s1, steps[1..], id);
    }
  }

  /** From the empty table: once settled at some point of the run, settled or gone at its end. */
  lemma SettledStaysSettled(mode: Mode, start: int, before: seq<Step>, after: seq<Step>, id: JobId)
    requires !mode.AnyInterleaving?
    requires Run(mode, Init(start), before) && Run(mode, Exec(mode, Init(start), before), after)
    requires var s := Exec(mode, Init(start), before); id in s.rows && Settled(s.rows[id])
    ensures var s := Exec(mode, Init(start), before);
            var s' := Exec(mode, s, after);
      id in s'.rows ==> s'.rows[id] == s.rows[id]
  {
    LiveRun(mode, Init(start), before);
    var s := Exec(mode, Init(start), before);
    assert RowSound(s, id);
    SettledAbsorbing(mode, s, after, id);
  }

  // ---------------------------------------------------------------- when settled is settled for good

  /** Somebody still holds a ticket of the job. */
  predicate Held(s: State, id: JobId) {
    exists t :: t in s.tickets && t.id == id
  }

  /** Somebody holds a ticket whose failure would send the job back for another attempt. */
  predicate HeldForRetry(s: State, id: JobId) {
    exists t :: t in s.tickets && t.id == id && t.attempts < t.maxAttempts
  }

  predicate SettledOrGone(s: State, id: JobId) {
    id in s.rows ==> Settled(s.rows[id])
  }

  lemma SettledStep(s: State, step: Step, id: JobId)
    requires Enabled(s, step) && id in s.history && SettledOrGone(s, id)
    ensures id in Apply(s, step).history
    ensures !HeldForRetry(s, id) ==> SettledOrGone(Apply(s, step), id) && !HeldForRetry(Apply(s, step), id)
    ensures !Held(s, id) ==>
      && !Held(Apply(s, step), id)
      && (id in Apply(s, step).rows ==> id in s.rows && Apply(s, step).rows[id] == s.rows[id])
  {
  }

  lemma {:induction false} SettledWhileNotRetried(s: State, steps: seq<Step>, id: JobId)
    requires Run(AnyInterleaving, s, steps) && id in s.history && SettledOrGone(s, id) && !HeldForRetry(s, id)
    ensures SettledOrGone(Exec(AnyInterleaving, s, steps), id)
    decreases |steps|
  {
    hide Enabled, Apply, HeldForRetry, Held, SettledOrGone;
    if steps != [] {
      SettledStep(s, steps[0], id);
      SettledWhileNotRetried(Apply(s, steps[0]), steps[1..], id);
    }
  }

  lemma {:induction false} UnchangedWhileNotHeld(s: State, steps: seq<Step>, id: JobId)
    requires Run(AnyInterleaving, s, steps) && id in s.history && SettledOrGone(s, id) && !Held(s, id)
    ensures var s' := Exec(AnyInterleaving, s, steps); id in s'.rows ==> id in s.rows && s'.rows[id] == s.rows[id]
    decreases |steps|
  {
    hide Enabled, Apply, Held;
    if steps != [] {
      HeldForRetryIsHeld(s, id);
      SettledStep(s, steps[0], id);
      UnchangedWhileNotHeld(Apply(s, steps[0]), steps[1..], id);
    }
  }

  lemma HeldForRetryIsHeld(s: State, id: JobId)
    ensures HeldForRetry(s, id) ==> Held(s, id)
  {
  }

  lemma OneStepRun(s: State, step: Step)
    requires Enabled(s, step)
    ensures Run(AnyInterleaving, s, [step]) && Exec(AnyInterleaving, s, [step]) == Apply(s, step)
  {
    assert [step][1..] == [];
  }

  ghost predicate StaysSettled(s: State, id: JobId) {
    forall steps :: Run(AnyInterleaving, s, steps) ==> SettledOrGone(Exec(AnyInterleaving, s, steps), id)
  }

  ghost predicate StaysTheSame(s: State, id: JobId)
    requires id in s.rows
  {
    forall steps :: Run(AnyInterleaving, s, steps) ==>
      var s' := Exec(AnyInterleaving, s, steps);
      id in s'.rows ==> s'.rows[id] == s.rows[id]
  }

  lemma RetryReopens(s: State, id: JobId)
    requires id in s.rows && HeldForRetry(s, id)
    ensures !StaysSettled(s, id)
  {
    var t :| t in s.tickets && t.id == id && t.attempts < t.maxAttempts;
    OneStepRun(s, Fail(t, ""));
    hide Run, Exec;
    assert !SettledOrGone(Apply(s, Fail(t, "")), id);
  }

  lemma LateSettlementChanges(s: State, id: JobId)
    requires id in s.rows && Held(s, id)
    ensures !StaysTheSame(s, id)
  {
    var t :| t in s.tickets && t.id == id;
    var wait := if s.rows[id].completedAt == Some(s.now) then 1 else 0;
    OneStepRun(s, Tick(wait));
    Extend(AnyInterleaving, s, [Tick(wait)], Complete(t));
    hide Run, Exec;
    assert Apply(Apply(s, Tick(wait)), Complete(t)).rows[id].completedAt == Some(s.now + wait);
  }

  /**
   Every interleaving.  A settled row stays settled, until it is deleted, exactly if no ticket with
   attempts left is outstanding for it, and it does not change at all exactly if none is.
   */
  lemma SettledExactlyWhen(start: int, before: seq<Step>, id: JobId)
    requires Run(AnyInterleaving, Init(start), before)
    requires var s := Exec(AnyInterleaving, Init(start), before); id in s.rows && Settled(s.rows[id])
    ensures var s := Exec(AnyInterleaving, Init(start), before);
      && (StaysSettled(s, id) <==> !HeldForRetry(s, id))
      && (StaysTheSame(s, id) <==> !Held(s, id))
  {
    InvRun(AnyInterleaving, Init(start), before);
    var s := Exec(AnyInterleaving, Init(start), before);
    assert RowSound(s, id);
    hide Inv, RowSound;
    if HeldForRetry(s, id) {
      RetryReopens(s, id);
    }
    if Held(s, id) {
      LateSettlementChanges(s, id);
    }
    hide HeldForRetry, Held;
    forall steps | Run(AnyInterleaving, s, steps)
      ensures !HeldForRetry(s, id) ==> SettledOrGone(Exec(AnyInterleaving, s, steps), id)
    {
      if !HeldForRetry(s, id) {
        SettledWhileNotRetried(s, steps, id);
      }
    }
    forall steps | Run(AnyInterleaving, s, steps) && !Held(s, id)
      ensures var s' := Exec(AnyInterleaving, s, steps); id in s'.rows ==> s'.rows[id] == s.rows[id]
    {
      UnchangedWhileNotHeld(s, steps, id);
    }
  }

  // ---------------------------------------------------------------- stale tickets do act

  lemma {:induction false} Extend(mode: Mode, s: State, steps: seq<Step>, step: Step)
    requires Run(mode, s, steps)
    requires Enabled(Exec(mode, s, steps), step) && Allowed(mode, Exec(mode, s, steps), step)
    ensures Run(mode, s, steps + [step])
    ensures Exec(mode, s, steps + [step]) == Apply(Exec(mode, s, steps), step)
    decreases |steps|
  {
    if steps == [] {
      assert Run(mode, Apply(s, step), [step][1..]);
    } else {
      assert (steps + [step])[1..] == steps[1..] + [step];
      Extend(mode, Apply(s, steps[0]), steps[1..], step);
    }
  }

  ghost predicate Reached(mode: Mode, from: State, to: State) {
    exists steps :: Run(mode, from, steps) && Exec(mode, from, steps) == to
  }

  lemma ReachedStart(mode: Mode, s: State)
    ensures Reached(mode, s, s)
  {
    assert Run(mode, s, []);
  }

  lemma ReachedStep(mode: Mode, from: State, s: State, step: Step)
    requires Reached(mode, from, s) && Enabled(s, step) && Allowed(mode, s, step)
    ensures Reached(mode, from, Apply(s, step))
  {
    var steps :| Run(mode, from, steps) && Exec(mode, from, steps) == s;
    Extend(mode, from, steps, step);
  }

  lemma {:induction false} ReachedRun(mode: Mode, from: State, s: State, steps: seq<Step>)
    requires Reached(mode, from, s) && Run(mode, s, steps)
    ensures Reached(mode, from, Exec(mode, s, steps))
    decreases |steps|
  {
    if steps != [] {
      ReachedStep(mode, from, s, steps[0]);
      ReachedRun(mode, from, Apply(s, steps[0]), steps[1..]);
    }
  }

  lemma ReachedTransitive(mode: Mode, a: State, b: State, c: State)
    requires Reached(mode, a, b) && Reached(mode, b, c)
    ensures Reached(mode, a, c)
  {
    var steps :| Run(mode, b, steps) && Exec(mode, b, steps) == c;
    ReachedRun(mode, a, b, steps);
  }

  /** A table that holds one job, with id 0. */
  function OneJob(now: int, j: Job, tickets: set<Ticket>, h: History): State {
    State(now, map[0 := j], tickets, map[0 := h])
  }

  lemma EnqueueOne(work: Work, m: int)
    ensures Enabled(Init(0), Enqueue(0, work, m, 0))
    ensures Apply(Init(0), Enqueue(0, work, m, 0))
         == OneJob(0, Job(work, Pending, 0, m, 0, None, None, None, None, None), {}, History(0, {}, None))
  {
  }

  lemma ClaimOne(now: int, j: Job, tickets: set<Ticket>, h: History, worker: WorkerId, lockSeconds: int)
    requires j.status.Pending? && j.scheduledAt <= now
    ensures Enabled(OneJob(now, j, tickets, h), Claim(worker, {0}, lockSeconds))
    ensures Apply(OneJob(now, j, tickets, h), Claim(worker, {0}, lockSeconds))
         == OneJob(now, ClaimedRow(j, now, lockSeconds, worker), tickets + {NewTicket(0, j, now, lockSeconds, worker)}, h)
  {
    var s := OneJob(now, j, tickets, h);
    var ids: set<JobId> := {0};
    var claimed := set id | id in ids :: NewTicket(id, s.rows[id], s.now, lockSeconds, worker);
    assert NewTicket(0, s.rows[0], s.now, lockSeconds, worker) in claimed;
    assert claimed == {NewTicket(0, j, now, lockSeconds, worker)};
  }

  lemma RecoverOne(now: int, j: Job, tickets: set<Ticket>, h: History)
    requires Stale(j, now)
    ensures Apply(OneJob(now, j, tickets, h), RecoverStale)
         == OneJob(now, RecoveredRow(j, now), tickets, h.(recovered := h.recovered + 1))
  {
  }

  /** Worker 1 loses its lock, worker 2 takes the job over and completes it. */
  lemma TakenOverAndCompleted() returns (s: State, stale: Ticket)
    ensures Reached(AnyInterleaving, Init(0), s)
    ensures stale in s.tickets && stale.id == 0 && stale.attempts == 1 && stale.maxAttempts == 5
    ensures s.rows.Keys == {0} && s.rows[0].status.Completed?
  {
    var pending := Job(OtherWork, Pending, 0, 5, 0, None, None, None, None, None);
    stale := NewTicket(0, pending, 0, 300, 1);
    ReachedStart(AnyInterleaving, Init(0));
    EnqueueOne(OtherWork, 5);
    ReachedStep(AnyInterleaving, Init(0), Init(0), Enqueue(0, OtherWork, 5, 0));

    ClaimOne(0, pending, {}, History(0, {}, None), 1, 300);
    ReachedStep(AnyInterleaving, Init(0), OneJob(0, pending, {}, History(0, {}, None)), Claim(1, {0}, 300));
    var claimed := ClaimedRow(pending, 0, 300, 1);
    s := OneJob(0, claimed, {} + {stale}, History(0, {}, None));
    ReachedStep(AnyInterleaving, Init(0), s, Tick(301));
    s := OneJob(301, claimed, {} + {stale}, History(0, {}, None));

    RecoverOne(301, claimed, {} + {stale}, History(0, {}, None));
    ReachedStep(AnyInterleaving, Init(0), s, RecoverStale);
    var again := RecoveredRow(claimed, 301);
    s := OneJob(301, again, {} + {stale}, History(1, {}, None));

    ClaimOne(301, again, {} + {stale}, History(1, {}, None), 2, 300);
    ReachedStep(AnyInterleaving, Init(0), s, Claim(2, {0}, 300));
    var holder := NewTicket(0, again, 301, 300, 2);
    s := OneJob(301, ClaimedRow(again, 301, 300, 2), {} + {stale} + {holder}, History(1, {}, None));
    ReachedStep(AnyInterleaving, Init(0), s, Complete(holder));
    s := Apply(s, Complete(holder));
  }

  /**
   Without any of these disciplines the by-id updates are not fenced: when the stale ticket of the
   run above fails late, the completed job is pending again, which the fenced update would not do.
   */
  lemma StaleTicketReopensCompletedJob()
    ensures exists s: State, late: Step ::
      && Reached(AnyInterleaving, Init(0), s)
      && Enabled(s, late) && late.Fail?
      && 0 in s.rows && s.rows[0].status.Completed?
      && Apply(s, late).rows[0].status.Pending?
      && ApplyFenced(s, late).rows == s.rows
  {
    var s, stale := TakenOverAndCompleted();
    var late := Fail(stale, "late");
    assert Enabled(s, late);
    assert Apply(s, late).rows[0] == FailedRow(s.rows[0], s.now, "late", 1, 5);
  }

  // ---------------------------------------------------------------- nothing gets stuck

  predicate RowMoves(j: Job) {
    && (j.status.Running? <==> j.lockedUntil.Some?)
    && (j.status.Running? <==> j.lockedBy.Some?)
    && (j.status.Completed? || j.status.Dead? ==> j.completedAt.Some?)
    && !j.status.Failed?
  }

  ghost predicate RowsMove(s: State) {
    forall id | id in s.rows :: RowMoves(s.rows[id])
  }

  lemma RowsMoveStep(s: State, step: Step)
    requires RowsMove(s) && Enabled(s, step)
    ensures RowsMove(Apply(s, step))
  {
    var s' := Apply(s, step);
    forall id | id in s'.rows ensures RowMoves(s'.rows[id]) {
      assert id in s.rows ==> RowMoves(s.rows[id]);
    }
  }

  lemma {:induction false} RowsMoveRun(mode: Mode, s: State, steps: seq<Step>)
    requires RowsMove(s) && Run(mode, s, steps)
    ensures RowsMove(Exec(mode, s, steps))
    decreases |steps|
  {
    hide RowsMove, Apply, Enabled;
    if steps != [] {
      RowsMoveStep(s, steps[0]);
      RowsMoveRun(mode, Apply(s, steps[0]), steps[1..]);
    }
  }

  /** After waiting, some statement of the queue takes the row on. */
  predicate TakenOnAfter(s: State, id: JobId, retentionHours: nat, wait: nat)
    requires id in s.rows
  {
    var later := Apply(s, Tick(wait));
    if s.rows[id].status.Pending? then Due(later.rows, later.now, id)
    else if s.rows[id].status.Running? then
      Stale(later.rows[id], later.now) && Due(Apply(later, RecoverStale).rows, later.now, id)
    else id !in Apply(later, CleanupFinished(retentionHours)).rows
  }

  /**
   Whatever happened, no row is out of reach of all statements: a pending one comes due, a running one
   is stale once its lock is over, and recovering it makes it due at once, and a settled one is swept
   after the retention.
   */
  lemma NothingStuck(mode: Mode, start: int, steps: seq<Step>, id: JobId, retentionHours: nat)
    requires Run(mode, Init(start), steps) && id in Exec(mode, Init(start), steps).rows
    ensures exists wait: nat :: TakenOnAfter(Exec(mode, Init(start), steps), id, retentionHours, wait)
  {
    RowsMoveRun(mode, Init(start), steps);
    var s := Exec(mode, Init(start), steps);
    hide Run, Exec;
    var j := s.rows[id];
    assert RowMoves(j);
    var until := if j.status.Pending? then j.scheduledAt
                 else if j.status.Running? then j.lockedUntil.value + 1
                 else j.completedAt.value + 3600 * retentionHours + 1;
    var wait: nat := if until > s.now then until - s.now else 0;
    assert Apply(s, Tick(wait)).now >= until;
    assert TakenOnAfter(s, id, retentionHours, wait);
  }
}
