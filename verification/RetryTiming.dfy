/**
 When failed jobs come back (crates/workers/src/queue.rs, `fail_job` and `claim_jobs`), and how far
 the retry counter can go.
 */
module RetryTiming {
  import opened Common
  import opened Jobs
  import opened JobsProofs

  lemma {:induction false} Pow2Monotone(a: nat, b: nat)
    requires a <= b
    ensures Pow2(a) <= Pow2(b)
    decreases b - a
  {
    if a < b {
      Pow2Monotone(a + 1, b);
    }
  }

  lemma Pow2Five(a: nat)
    ensures Pow2(a + 5) == 32 * Pow2(a)
  {
    assert Pow2(a + 1) == 2 * Pow2(a);
    assert Pow2(a + 2) == 4 * Pow2(a);
    assert Pow2(a + 3) == 8 * Pow2(a);
    assert Pow2(a + 4) == 16 * Pow2(a);
  }

  lemma Pow2Twenty(a: nat)
    ensures Pow2(a + 20) == 0x10_0000 * Pow2(a)
  {
    Pow2Five(a);
    Pow2Five(a + 5);
    Pow2Five(a + 10);
    Pow2Five(a + 15);
  }

  lemma Pow2Sixty()
    ensures Pow2(60) == 0x1000_0000_0000_0000
    ensures Pow2(59) == 0x800_0000_0000_0000
  {
    Pow2Twenty(0);
    Pow2Twenty(20);
    Pow2Twenty(40);
    assert Pow2(60) == 2 * Pow2(59);
  }

  lemma WrapNothing(p: int)
    requires 1 <= p <= 0x800_0000_0000_0000
    ensures WrapI64(WrapI64(p) * 10) == 10 * p
  {
  }

  lemma BackoffInRange(attempts: nat)
    requires attempts <= 59 && Pow2(attempts) <= 0x800_0000_0000_0000
    ensures BackoffSeconds(attempts) == 10 * Pow2(attempts)
  {
    WrapNothing(Pow2(attempts));
  }

  lemma BackoffWithin(attempts: nat)
    requires attempts <= 59
    ensures BackoffSeconds(attempts) == 10 * Pow2(attempts)
  {
    Pow2Sixty();
    Pow2Monotone(attempts, 59);
    BackoffInRange(attempts);
  }

  lemma BackoffBeyond(attempts: nat)
    requires attempts >= 60
    ensures BackoffSeconds(attempts) < 10 * Pow2(attempts)
  {
    Pow2Sixty();
    Pow2Monotone(60, attempts);
  }

  /**
   The shift and the multiplication in 64 bits give 10 * 2^attempts exactly up to 59 attempts, and
   never beyond; inside that range each delay is twice the one before.  Attempts start at 1, so the
   first delay is 20 seconds, not the 10 of the source's comment.
   */
  lemma BackoffExact(attempts: nat)
    ensures BackoffSeconds(attempts) == 10 * Pow2(attempts) <==> attempts <= 59
    ensures attempts < 59 ==> BackoffSeconds(attempts + 1) == 2 * BackoffSeconds(attempts)
    ensures BackoffSeconds(1) == 20
  {
    BackoffWithin(1);
    if attempts <= 59 {
      BackoffWithin(attempts);
    } else {
      BackoffBeyond(attempts);
    }
    if attempts < 59 {
      BackoffWithin(attempts + 1);
    }
  }

  /** 20 + 40 + ... + 10 * 2^failures. */
  function TotalDelay(failures: nat): int {
    10 * (Pow2(failures + 1) - 2)
  }

  predicate RowTimed(s: State, id: JobId)
    requires id in s.rows
  {
    var j := s.rows[id];
    && id in s.history
    && (j.maxAttempts <= 60 ==>
      match j.status
      case Pending =>
        if j.attempts == 0 then s.history[id].firstFailure == None
        else
          && j.attempts >= 1
          && s.history[id].firstFailure.Some?
          && j.scheduledAt >= s.history[id].firstFailure.value + TotalDelay(j.attempts)
      case Running =>
        if j.attempts == 1 then s.history[id].firstFailure == None
        else
          && j.attempts >= 2
          && s.history[id].firstFailure.Some?
          && s.now >= s.history[id].firstFailure.value + TotalDelay(j.attempts - 1)
      case Dead =>
        && j.attempts >= 1
        && j.attempts >= j.maxAttempts
        && s.history[id].firstFailure.Some?
        && j.completedAt.Some?
        && j.completedAt.value >= s.history[id].firstFailure.value + TotalDelay(j.attempts - 1)
      case _ => true)
  }

  ghost predicate Timed(s: State) {
    LiveInv(NoRecovery, s) && forall id | id in s.rows :: RowTimed(s, id)
  }

  lemma FailTimed(s: State, t: Ticket, error: string)
    requires Timed(s) && Enabled(s, Fail(t, error))
    ensures t.id in Apply(s, Fail(t, error)).rows && RowTimed(Apply(s, Fail(t, error)), t.id)
  {
    assert Live(s, t) && RowTimed(s, t.id) && TicketSound(s, t);
    if t.attempts < t.maxAttempts <= 60 {
      BackoffExact(t.attempts);
    }
  }

  lemma RowTimedStep(s: State, step: Step, id: JobId)
    requires Timed(s) && Enabled(s, step) && Allowed(NoRecovery, s, step) && id in Apply(s, step).rows
    requires !(step.Fail? && step.ticket.id == id)
    ensures RowTimed(Apply(s, step), id)
  {
    hide LiveInv, Pow2;
    assert id in s.rows ==> RowTimed(s, id);
  }

  lemma TimedStep(s: State, step: Step)
    requires Timed(s) && Enabled(s, step) && Allowed(NoRecovery, s, step)
    ensures Timed(Apply(s, step))
  {
    hide RowTimed, LiveInv, Apply, Enabled, Allowed;
    LiveStep(NoRecovery, s, step);
    var s' := Apply(s, step);
    forall id | id in s'.rows ensures RowTimed(s', id) {
      if step.Fail? && id == step.ticket.id {
        FailTimed(s, step.ticket, step.error);
      } else {
        RowTimedStep(s, step, id);
      }
    }
  }

  lemma {:induction false} TimedRun(s: State, steps: seq<Step>)
    requires Timed(s) && Run(NoRecovery, s, steps)
    ensures Timed(Exec(NoRecovery, s, steps))
    decreases |steps|
  {
    if steps != [] {
      TimedStep(s, steps[0]);
      TimedRun(Apply(s, steps[0]), steps[1..]);
    }
  }

  /**
   Without stale recovery, a job with 1 <= max_attempts <= 60 that is dead died at least
   20 + 40 + ... seconds, 10 * (2^max_attempts - 2) in all, after its first failure.
   */
  lemma DeadNoSoonerThanBackoffs(start: int, steps: seq<Step>, id: JobId)
    requires Run(NoRecovery, Init(start), steps)
    requires var s := Exec(NoRecovery, Init(start), steps);
      id in s.rows && s.rows[id].status.Dead? && 1 <= s.rows[id].maxAttempts <= 60
    ensures var s := Exec(NoRecovery, Init(start), steps);
      && id in s.history && s.history[id].firstFailure.Some? && s.rows[id].completedAt.Some?
      && s.rows[id].completedAt.value - s.history[id].firstFailure.value >= 10 * (Pow2(s.rows[id].maxAttempts) - 2)
  {
    TimedRun(Init(start), steps);
    var s := Exec(NoRecovery, Init(start), steps);
    assert RowTimed(s, id);
    Pow2Monotone(s.rows[id].maxAttempts, s.rows[id].attempts);
  }

  // ---------------------------------------------------------------- the attempts bound is reached

  /** A reachable table with one due pending job and no outstanding ticket. */
  ghost predicate Waiting(m: nat, attempts: int, recovered: nat) {
    exists now: int, j: Job, h: History ::
      && Reached(AnyInterleaving, Init(0), OneJob(now, j, {}, h))
      && j.status.Pending? && j.scheduledAt <= now
      && j.attempts == attempts && j.maxAttempts == m && h.recovered == recovered
  }

  lemma FailOne(now: int, j: Job, tickets: set<Ticket>, h: History, t: Ticket)
    requires t in tickets && t.id == 0
    ensures Enabled(OneJob(now, j, tickets, h), Fail(t, ""))
    ensures Apply(OneJob(now, j, tickets, h), Fail(t, ""))
         == OneJob(now, FailedRow(j, now, "", t.attempts, t.maxAttempts), tickets - {t}, SpendTicket(h, t, now))
  {
  }

  lemma WaitOutBackoff(m: nat, now: int, j: Job, h: History)
    requires Reached(AnyInterleaving, Init(0), OneJob(now, j, {}, h))
    requires j.status.Pending? && j.maxAttempts == m
    ensures Waiting(m, j.attempts, h.recovered)
  {
    var wait := if j.scheduledAt > now then j.scheduledAt - now else 0;
    ReachedStep(AnyInterleaving, Init(0), OneJob(now, j, {}, h), Tick(wait));
    assert Apply(OneJob(now, j, {}, h), Tick(wait)) == OneJob(now + wait, j, {}, h);
  }

  lemma WaitingAfterFailure(m: nat, attempts: nat)
    requires Waiting(m, attempts, 0) && attempts + 1 < m
    ensures Waiting(m, attempts + 1, 0)
  {
    var now: int, j: Job, h: History :|
      && Reached(AnyInterleaving, Init(0), OneJob(now, j, {}, h))
      && j.status.Pending? && j.scheduledAt <= now
      && j.attempts == attempts && j.maxAttempts == m && h.recovered == 0;
    ClaimOne(now, j, {}, h, 1, 300);
    ReachedStep(AnyInterleaving, Init(0), OneJob(now, j, {}, h), Claim(1, {0}, 300));
    var t := NewTicket(0, j, now, 300, 1);
    FailOne(now, ClaimedRow(j, now, 300, 1), {} + {t}, h, t);
    ReachedStep(AnyInterleaving, Init(0), OneJob(now, ClaimedRow(j, now, 300, 1), {} + {t}, h), Fail(t, ""));
    assert {} + {t} - {t} == {};
    WaitOutBackoff(m, now, FailedRow(ClaimedRow(j, now, 300, 1), now, "", t.attempts, t.maxAttempts), SpendTicket(h, t, now));
  }

  lemma WaitingAfterRecovery(m: nat, attempts: int, recovered: nat)
    requires Waiting(m, attempts, recovered)
    ensures Waiting(m, attempts + 1, recovered + 1)
  {
    var now: int, j: Job, h: History :|
      && Reached(AnyInterleaving, Init(0), OneJob(now, j, {}, h))
      && j.status.Pending? && j.scheduledAt <= now
      && j.attempts == attempts && j.maxAttempts == m && h.recovered == recovered;
    ClaimOne(now, j, {}, h, 1, 300);
    ReachedStep(AnyInterleaving, Init(0), OneJob(now, j, {}, h), Claim(1, {0}, 300));
    var t := NewTicket(0, j, now, 300, 1);
    var claimed := ClaimedRow(j, now, 300, 1);
    var s := OneJob(now, claimed, {} + {t}, h);
    ReachedStep(AnyInterleaving, Init(0), s, Abandon({t}));
    assert Apply(s, Abandon({t})) == OneJob(now, claimed, {}, h);
    ReachedStep(AnyInterleaving, Init(0), OneJob(now, claimed, {}, h), Tick(301));
    assert Apply(OneJob(now, claimed, {}, h), Tick(301)) == OneJob(now + 301, claimed, {}, h);
    RecoverOne(now + 301, claimed, {}, h);
    ReachedStep(AnyInterleaving, Init(0), OneJob(now + 301, claimed, {}, h), RecoverStale);
    assert Reached(AnyInterleaving, Init(0),
                   OneJob(now + 301, RecoveredRow(claimed, now + 301), {}, h.(recovered := h.recovered + 1)));
  }

  lemma {:induction false} WaitingFor(m: nat, failures: nat, recovered: nat)
    requires failures == 0 || failures < m
    ensures Waiting(m, failures + recovered, recovered)
    decreases failures + recovered
  {
    if recovered > 0 {
      WaitingFor(m, failures, recovered - 1);
      WaitingAfterRecovery(m, failures + recovered - 1, recovered - 1);
    } else if failures > 0 {
      WaitingFor(m, failures - 1, 0);
      WaitingAfterFailure(m, failures - 1);
    } else {
      ReachedStart(AnyInterleaving, Init(0));
      EnqueueOne(OtherWork, m);
      ReachedStep(AnyInterleaving, Init(0), Init(0), Enqueue(0, OtherWork, m, 0));
      assert Reached(AnyInterleaving, Init(0),
                     OneJob(0, Job(OtherWork, Pending, 0, m, 0, None, None, None, None, None), {}, History(0, {}, None)));
    }
  }

  /** The bound of `AttemptsBounded` is exact: some run reaches it, for every limit and recovery count. */
  lemma AttemptsBoundReached(m: nat, recovered: nat)
    ensures exists s: State ::
      && Reached(AnyInterleaving, Init(0), s)
      && 0 in s.rows && 0 in s.history
      && s.rows[0].maxAttempts == m && s.history[0].recovered == recovered
      && s.rows[0].attempts == Max(1, m) + recovered
  {
    WaitingFor(m, Max(0, m - 1), recovered);
    var now: int, j: Job, h: History :|
      && Reached(AnyInterleaving, Init(0), OneJob(now, j, {}, h))
      && j.status.Pending? && j.scheduledAt <= now
      && j.attempts == Max(0, m - 1) + recovered && j.maxAttempts == m && h.recovered == recovered;
    ClaimOne(now, j, {}, h, 1, 300);
    ReachedStep(AnyInterleaving, Init(0), OneJob(now, j, {}, h), Claim(1, {0}, 300));
  }

  /** Beyond 63 attempts the shift starts again, as the machine takes its count modulo 64. */
  lemma BackoffPeriodic(attempts: nat)
    ensures BackoffSeconds(attempts + 64) == BackoffSeconds(attempts % 64) == BackoffSeconds(attempts)
  {
    hide Pow2, WrapI64;
    assert (attempts + 64) % 64 == attempts % 64;
  }
}
