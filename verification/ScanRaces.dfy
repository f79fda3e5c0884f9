/**
 What the sibling count of the scan handler does when its conditions are not met
 (crates/workers/src/scanners.rs, lines 283-305; crates/workers/src/queue.rs): runs from the empty tables
 with one release, number 0, and its two scan jobs, 0 and 1.
 */
module ScanRaces {
  import opened Common
  import opened Jobs
  import opened Scanning
  import opened ScanningProofs
  import opened ScanRuns

  // ---------------------------------------------------------------- states of these runs

  const NEW_RELEASE := Release(0, ReleaseStatus.Scanning, false, false)

  /** Everything about a state but the history of its jobs; nothing has been found, and the release has not moved. */
  ghost predicate View(s: ScanState, now: int, rows: map<JobId, Job>, tickets: set<Ticket>, phases: map<Ticket, Phase>,
                       storedAt: map<JobId, nat>, dead: set<ReleaseId>) {
    && s.q.now == now && s.q.rows == rows && s.q.tickets == tickets && s.q.history.Keys == {0, 1}
    && s.releases == map[0 := NEW_RELEASE] && s.findings == []
    && s.phases == phases && s.jobs == map[0 := 0, 1 := 0] && s.storedAt == storedAt && s.deadDropped == dead
  }

  ghost predicate Seen(mode: Mode, s: ScanState, now: int, rows: map<JobId, Job>, tickets: set<Ticket>, phases: map<Ticket, Phase>,
                       storedAt: map<JobId, nat>, dead: set<ReleaseId>) {
    ScanReached(mode, InitScan(0), s) && View(s, now, rows, tickets, phases, storedAt, dead)
  }

  function ScanJob(artifact: nat): Job {
    Job(ScanArtifact(0, artifact), Pending, 0, 5, 0, None, None, None, None, None)
  }

  lemma Submitted(mode: Mode) returns (s: ScanState)
    ensures Seen(mode, s, 0, map[0 := ScanJob(0), 1 := ScanJob(1)], {}, map[], map[], {})
  {
    hide ScanReached;
    var s0 := InitScan(0);
    ScanReachedStart(mode, s0);
    var submit := Submit(0, 0, {0, 1});
    ScanReachedStep(mode, s0, s0, submit);
    var s1 := ApplyScan(s0, submit);
    var first := Queue(Enqueue(0, ScanArtifact(0, 0), 5, 0));
    ScanReachedStep(mode, s0, s1, first);
    var s2 := ApplyScan(s1, first);
    var second := Queue(Enqueue(1, ScanArtifact(0, 1), 5, 0));
    ScanReachedStep(mode, s0, s2, second);
    s := ApplyScan(s2, second);
    assert s.q.rows == map[0 := ScanJob(0), 1 := ScanJob(1)];
    assert s.jobs == map[0 := 0, 1 := 0];
  }

  // ---------------------------------------------------------------- one statement further

  lemma ThenClaim(mode: Mode, s: ScanState, now: int, rows: map<JobId, Job>, tickets: set<Ticket>, phases: map<Ticket, Phase>,
                  storedAt: map<JobId, nat>, dead: set<ReleaseId>, id: JobId, worker: WorkerId) returns (s': ScanState, t: Ticket)
    requires Seen(mode, s, now, rows, tickets, phases, storedAt, dead) && Due(rows, now, id)
    requires mode.SingleLoop? ==> tickets == {}
    ensures t == NewTicket(id, rows[id], now, 300, worker)
    ensures Seen(mode, s', now, rows[id := ClaimedRow(rows[id], now, 300, worker)], tickets + {t}, phases, storedAt, dead)
  {
    hide ScanReached;
    t := NewTicket(id, rows[id], now, 300, worker);
    var ids := {id};
    var step := Queue(Claim(worker, ids, 300));
    ScanReachedStep(mode, InitScan(0), s, step);
    s' := ApplyScan(s, step);
    assert (set i | i in ids :: NewTicket(i, rows[i], now, 300, worker)) == {t};
    assert s'.q.rows == rows[id := ClaimedRow(rows[id], now, 300, worker)];
  }

  lemma ThenBegin(mode: Mode, s: ScanState, now: int, rows: map<JobId, Job>, tickets: set<Ticket>, phases: map<Ticket, Phase>,
                  storedAt: map<JobId, nat>, dead: set<ReleaseId>, t: Ticket, found: bool) returns (s': ScanState)
    requires Seen(mode, s, now, rows, tickets, phases, storedAt, dead) && t in tickets && t.work.ScanArtifact? && t !in phases
    requires mode.SingleLoop? ==> phases == map[]
    ensures Seen(mode, s', now, rows, tickets, phases[t := if found then Storing([]) else Finished(false)], storedAt, dead)
  {
    hide ScanReached, Apply;
    var step := Begin(t, if found then Some([]) else None);
    ScanReachedStep(mode, InitScan(0), s, step);
    s' := ApplyScan(s, step);
  }

  lemma ThenCount(mode: Mode, s: ScanState, now: int, rows: map<JobId, Job>, tickets: set<Ticket>, phases: map<Ticket, Phase>,
                  storedAt: map<JobId, nat>, dead: set<ReleaseId>, t: Ticket) returns (s': ScanState)
    requires Seen(mode, s, now, rows, tickets, phases, storedAt, dead) && t in tickets && t.work.ScanArtifact? && t.work.release == 0
    requires t in phases && phases[t] == Storing([]) && t.id !in storedAt && (mode.LockRespecting? ==> now <= t.lockedUntil)
    ensures Seen(mode, s', now, rows, tickets, phases[t := if |RemainingScanJobs(rows, 0)| > 1 then Finished(true) else Passed],
                 storedAt[t.id := 0], dead)
  {
    hide ScanReached, Apply, RemainingScanJobs;
    ScanReachedStep(mode, InitScan(0), s, Count(t, false));
    s' := ApplyScan(s, Count(t, false));
  }

  lemma ThenSettle(mode: Mode, s: ScanState, now: int, rows: map<JobId, Job>, tickets: set<Ticket>, phases: map<Ticket, Phase>,
                   storedAt: map<JobId, nat>, dead: set<ReleaseId>, t: Ticket, ok: bool) returns (s': ScanState)
    requires Seen(mode, s, now, rows, tickets, phases, storedAt, dead) && t in tickets && t.work.ScanArtifact?
    requires t in phases && phases[t] == Finished(ok) && t.id in rows && t.id <= 1 && (mode.LockRespecting? ==> now <= t.lockedUntil)
    ensures Seen(mode, s', now,
                 rows[t.id := if ok then CompletedRow(rows[t.id], now) else FailedRow(rows[t.id], now, "", t.attempts, t.maxAttempts)],
                 tickets - {t}, phases - {t}, storedAt, dead)
  {
    hide ScanReached;
    var step := Queue(if ok then Complete(t) else Fail(t, ""));
    ScanReachedStep(mode, InitScan(0), s, step);
    s' := ApplyScan(s, step);
  }

  lemma ThenWait(mode: Mode, s: ScanState, now: int, rows: map<JobId, Job>, tickets: set<Ticket>, phases: map<Ticket, Phase>,
                 storedAt: map<JobId, nat>, dead: set<ReleaseId>, seconds: nat) returns (s': ScanState)
    requires Seen(mode, s, now, rows, tickets, phases, storedAt, dead)
    ensures Seen(mode, s', now + seconds, rows, tickets, phases, storedAt, dead)
  {
    hide ScanReached;
    ScanReachedStep(mode, InitScan(0), s, Queue(Tick(seconds)));
    s' := ApplyScan(s, Queue(Tick(seconds)));
  }

  lemma ThenRecover(mode: Mode, s: ScanState, now: int, rows: map<JobId, Job>, tickets: set<Ticket>, phases: map<Ticket, Phase>,
                    storedAt: map<JobId, nat>, dead: set<ReleaseId>, id: JobId) returns (s': ScanState)
    requires Seen(mode, s, now, rows, tickets, phases, storedAt, dead) && !mode.NoRecovery? && !mode.SingleLoop?
    requires id in rows && Stale(rows[id], now) && forall i | i in rows && i != id :: !Stale(rows[i], now)
    ensures Seen(mode, s', now, rows[id := RecoveredRow(rows[id], now)], tickets, phases, storedAt, dead)
  {
    hide ScanReached;
    ScanReachedStep(mode, InitScan(0), s, Queue(RecoverStale));
    s' := ApplyScan(s, Queue(RecoverStale));
    assert s'.q.rows == rows[id := RecoveredRow(rows[id], now)];
  }

  function Swept(rows: map<JobId, Job>, cutoff: int): map<JobId, Job> {
    map id | id in rows && !Expired(rows[id], cutoff) :: rows[id]
  }

  /** The retention sweep takes a dead row, among others. */
  lemma ThenSweep(mode: Mode, s: ScanState, now: int, rows: map<JobId, Job>, tickets: set<Ticket>, phases: map<Ticket, Phase>,
                  storedAt: map<JobId, nat>, id: JobId, hours: int) returns (s': ScanState)
    requires Seen(mode, s, now, rows, tickets, phases, storedAt, {}) && (mode.SingleLoop? ==> tickets == {})
    requires id in rows && rows[id].status.Dead? && Expired(rows[id], now - 3600 * hours) && id !in storedAt
    requires forall i | i in rows :: rows[i].work.ScanArtifact? && rows[i].work.release == 0
    ensures Seen(mode, s', now, Swept(rows, now - 3600 * hours), tickets, phases, storedAt, {0})
  {
    hide ScanReached;
    var step := Queue(CleanupFinished(hours));
    ScanReachedStep(mode, InitScan(0), s, step);
    s' := ApplyScan(s, step);
    assert rows[id].work.release in DeadDroppedBy(rows, storedAt, now, hours);
    assert DeadDroppedBy(rows, storedAt, now, hours) == {0};
    assert s'.q.rows == Swept(rows, now - 3600 * hours);
  }

  // ---------------------------------------------------------------- two workers

  lemma BothOpen(rows: map<JobId, Job>)
    requires rows.Keys == {0, 1} && OpenScanJob(rows, 0, 0) && OpenScanJob(rows, 0, 1)
    ensures RemainingScanJobs(rows, 0) == {0, 1} && |RemainingScanJobs(rows, 0)| == 2
  {
    assert RemainingScanJobs(rows, 0) == {0, 1};
  }

  /** Both jobs claimed, by two workers, and both scanned without a finding. */
  lemma BothScanned(mode: Mode) returns (s: ScanState, t: Ticket, u: Ticket)
    requires !mode.SingleLoop?
    ensures t == NewTicket(0, ScanJob(0), 0, 300, 1) && u == NewTicket(1, ScanJob(1), 0, 300, 2)
    ensures Seen(mode, s, 0, map[0 := ClaimedRow(ScanJob(0), 0, 300, 1), 1 := ClaimedRow(ScanJob(1), 0, 300, 2)],
                 {t, u}, map[t := Storing([]), u := Storing([])], map[], {})
  {
    hide Seen;
    var rows: map<JobId, Job> := map[0 := ScanJob(0), 1 := ScanJob(1)];
    s := Submitted(mode);
    s, t := ThenClaim(mode, s, 0, rows, {}, map[], map[], {}, 0, 1);
    rows := rows[0 := ClaimedRow(ScanJob(0), 0, 300, 1)];
    s, u := ThenClaim(mode, s, 0, rows, {} + {t}, map[], map[], {}, 1, 2);
    rows := rows[1 := ClaimedRow(ScanJob(1), 0, 300, 2)];
    s := ThenBegin(mode, s, 0, rows, {} + {t} + {u}, map[], map[], {}, t, true);
    s := ThenBegin(mode, s, 0, rows, {} + {t} + {u}, map[t := Storing([])], map[], {}, u, true);
    assert {} + {t} + {u} == {t, u};
    assert rows == map[0 := ClaimedRow(ScanJob(0), 0, 300, 1), 1 := ClaimedRow(ScanJob(1), 0, 300, 2)];
  }

  /**
   With two workers that respect their locks a release can get stuck: both handlers count while the other
   has not settled, both see two open jobs and leave the move to the other, and both complete.
   */
  lemma TwoWorkersStrandRelease() returns (s: ScanState)
    ensures ScanReached(LockRespecting, InitScan(0), s)
    ensures Stranded(s, 0) && s.deadDropped == {}
  {
    hide Seen, RemainingScanJobs, ScanReached;
    var t, u;
    s, t, u := BothScanned(LockRespecting);
    var rows: map<JobId, Job> := map[0 := ClaimedRow(ScanJob(0), 0, 300, 1), 1 := ClaimedRow(ScanJob(1), 0, 300, 2)];
    BothOpen(rows);
    s := ThenCount(LockRespecting, s, 0, rows, {t, u}, map[t := Storing([]), u := Storing([])], map[], {}, t);
    var phases := map[t := Finished(true), u := Storing([])];
    assert map[t := Storing([]), u := Storing([])][t := Finished(true)] == phases;
    s := ThenCount(LockRespecting, s, 0, rows, {t, u}, phases, map[0 := 0], {}, u);
    phases := map[t := Finished(true), u := Finished(true)];
    assert map[t := Finished(true), u := Storing([])][u := Finished(true)] == phases;
    s := BothSettle(s, rows, phases, map[0 := 0][1 := 0], t, u);
  }

  lemma BothSettle(s: ScanState, rows: map<JobId, Job>, phases: map<Ticket, Phase>, storedAt: map<JobId, nat>, t: Ticket, u: Ticket)
    returns (s': ScanState)
    requires Seen(LockRespecting, s, 0, rows, {t, u}, phases, storedAt, {})
    requires rows.Keys == {0, 1} && t.id == 0 && u.id == 1 && t.lockedUntil == u.lockedUntil == 300
    requires t.work.ScanArtifact? && u.work.ScanArtifact? && phases == map[t := Finished(true), u := Finished(true)]
    ensures ScanReached(LockRespecting, InitScan(0), s')
    ensures Stranded(s', 0) && s'.deadDropped == {}
  {
    hide ScanReached;
    s' := ThenSettle(LockRespecting, s, 0, rows, {t, u}, phases, storedAt, {}, t, true);
    var rows1 := rows[0 := CompletedRow(rows[0], 0)];
    s' := ThenSettle(LockRespecting, s', 0, rows1, {t, u} - {t}, phases - {t}, storedAt, {}, u, true);
    var rows2 := rows1[1 := CompletedRow(rows1[1], 0)];
    assert s'.q.rows == rows2;
    NothingOpen(rows2);
  }

  lemma NothingOpen(rows: map<JobId, Job>)
    requires forall id | id in rows :: !Open(rows[id].status)
    ensures RemainingScanJobs(rows, 0) == {}
  {
  }

  // ---------------------------------------------------------------- a count that comes late

  /** From a handler about to count alone to the state in which it moves the release. */
  lemma PassOn(mode: Mode, s: ScanState, now: int, rows: map<JobId, Job>, tickets: set<Ticket>, phases: map<Ticket, Phase>,
               storedAt: map<JobId, nat>, dead: set<ReleaseId>, t: Ticket, other: JobId) returns (s': ScanState)
    requires Seen(mode, s, now, rows, tickets, phases, storedAt, dead) && t in tickets && t.work.ScanArtifact? && t.work.release == 0
    requires t in phases && phases[t] == Storing([]) && (mode.LockRespecting? ==> now <= t.lockedUntil)
    requires |RemainingScanJobs(rows, 0)| <= 1 && other <= 1 && other != t.id && other !in storedAt
    ensures ScanReached(mode, InitScan(0), s') && s'.q == s.q && s'.deadDropped == dead
    ensures AboutToMove(s', t) && !RightToMove(s', t)
    ensures ApplyScan(s', Move(t, false)).releases[0].status.Published? && other !in s'.storedAt
  {
    hide ScanReached, Apply, RemainingScanJobs;
    ScanReachedStep(mode, InitScan(0), s, Count(t, false));
    var s1 := ApplyScan(s, Count(t, false));
    assert s1.phases[t].Passed?;
    ScanReachedStep(mode, InitScan(0), s1, Check(t, false));
    var s2 := ApplyScan(s1, Check(t, false));
    ScanReachedStep(mode, InitScan(0), s2, Load(t, false));
    s' := ApplyScan(s2, Load(t, false));
    assert other in s'.jobs && s'.jobs[other] == 0 && other !in s'.storedAt;
  }

  /**
   Without the right count the move goes wrong: worker 1 loses its lock, worker 2 takes job 0 over, counts
   job 1 besides it and completes it.  Then worker 1 counts, sees job 1 only, and goes on to publish the
   release with job 1 still pending and its artifact unscanned.
   */
  lemma LateCountPublishesUnscanned() returns (s: ScanState, t: Ticket)
    ensures ScanReached(AnyInterleaving, InitScan(0), s) && s.deadDropped == {} && t.work == ScanArtifact(0, 0)
    ensures AboutToMove(s, t) && !RightToMove(s, t)
    ensures ApplyScan(s, Move(t, false)).releases[0].status.Published?
    ensures OpenScanJob(s.q.rows, 0, 1) && 1 !in s.storedAt
  {
    hide ScanReached, RemainingScanJobs;
    var u, rows, phases;
    s, t, u, rows, phases := TakenOver();
    BothOpen(rows);
    s := ThenCount(AnyInterleaving, s, 301, rows, {t, u}, phases, map[], {}, u);
    var phases1 := phases[u := Finished(true)];
    s := ThenSettle(AnyInterleaving, s, 301, rows, {t, u}, phases1, map[0 := 0], {}, u, true);
    var rows1 := rows[0 := CompletedRow(rows[0], 301)];
    OneOpen(rows1, 1);
    s := PassOn(AnyInterleaving, s, 301, rows1, {t, u} - {u}, phases1 - {u}, map[0 := 0], {}, t, 1);
  }

  lemma OneOpen(rows: map<JobId, Job>, id: JobId)
    requires id in rows && forall i | i in rows && i != id :: !Open(rows[i].status)
    ensures |RemainingScanJobs(rows, 0)| <= 1
    ensures OpenScanJob(rows, 0, id) ==> RemainingScanJobs(rows, 0) == {id}
  {
    var remaining := RemainingScanJobs(rows, 0);
    if id in remaining {
      assert remaining == {id};
    } else {
      assert remaining == {};
    }
  }

  lemma TakenOver() returns (s: ScanState, t: Ticket, u: Ticket, rows: map<JobId, Job>, phases: map<Ticket, Phase>)
    ensures t != u && t.id == 0 && u.id == 0 && t.work == u.work == ScanArtifact(0, 0)
    ensures rows.Keys == {0, 1} && OpenScanJob(rows, 0, 0) && OpenScanJob(rows, 0, 1)
    ensures phases == map[t := Storing([]), u := Storing([])]
    ensures Seen(AnyInterleaving, s, 301, rows, {t, u}, phases, map[], {})
  {
    hide ScanReached;
    rows := map[0 := ScanJob(0), 1 := ScanJob(1)];
    s := Submitted(AnyInterleaving);
    s, t := ThenClaim(AnyInterleaving, s, 0, rows, {}, map[], map[], {}, 0, 1);
    rows := rows[0 := ClaimedRow(ScanJob(0), 0, 300, 1)];
    s := ThenBegin(AnyInterleaving, s, 0, rows, {} + {t}, map[], map[], {}, t, true);
    s := ThenWait(AnyInterleaving, s, 0, rows, {} + {t}, map[t := Storing([])], map[], {}, 301);
    s := ThenRecover(AnyInterleaving, s, 301, rows, {} + {t}, map[t := Storing([])], map[], {}, 0);
    rows := rows[0 := RecoveredRow(rows[0], 301)];
    s, u := ThenClaim(AnyInterleaving, s, 301, rows, {} + {t}, map[t := Storing([])], map[], {}, 0, 2);
    rows := rows[0 := ClaimedRow(rows[0], 301, 300, 2)];
    s := ThenBegin(AnyInterleaving, s, 301, rows, {} + {t} + {u}, map[t := Storing([])], map[], {}, u, true);
    phases := map[t := Storing([]), u := Storing([])];
    assert {} + {t} + {u} == {t, u};
  }

  // ---------------------------------------------------------------- a dead job that is swept

  /** Job 1 as it is between its attempts. */
  predicate BetweenAttempts(j: Job, attempts: int) {
    j.status.Pending? && j.attempts == attempts && j.maxAttempts == 5 && j.work == ScanArtifact(0, 1)
  }

  /** Job 1 once more: claimed when it is due, and failed. */
  lemma FailOnce(mode: Mode, s: ScanState, now: int, j0: Job, j1: Job, storedAt: map<JobId, nat>) returns (s': ScanState, now': int, j1': Job)
    requires Seen(mode, s, now, map[0 := j0, 1 := j1], {}, map[], storedAt, {}) && BetweenAttempts(j1, j1.attempts) && j1.attempts < 5
    ensures Seen(mode, s', now', map[0 := j0, 1 := j1'], {}, map[], storedAt, {}) && now <= now'
    ensures if j1.attempts + 1 < 5 then BetweenAttempts(j1', j1.attempts + 1)
            else j1'.status.Dead? && j1'.completedAt == Some(now') && j1'.work == j1.work
  {
    hide Seen;
    var rows: map<JobId, Job> := map[0 := j0, 1 := j1];
    var wait: nat := if j1.scheduledAt > now then j1.scheduledAt - now else 0;
    s' := ThenWait(mode, s, now, rows, {}, map[], storedAt, {}, wait);
    now' := now + wait;
    var t;
    s', t := ThenClaim(mode, s', now', rows, {}, map[], storedAt, {}, 1, 1);
    rows := rows[1 := ClaimedRow(j1, now', 300, 1)];
    s' := ThenBegin(mode, s', now', rows, {} + {t}, map[], storedAt, {}, t, false);
    s' := ThenSettle(mode, s', now', rows, {} + {t}, map[t := Finished(false)], storedAt, {}, t, false);
    j1' := FailedRow(ClaimedRow(j1, now', 300, 1), now', "", t.attempts, t.maxAttempts);
    assert {} + {t} - {t} == {} && map[t := Finished(false)] - {t} == map[];
    assert rows[1 := j1'] == map[0 := j0, 1 := j1'];
  }

  lemma {:induction false} FailToDeath(mode: Mode, s: ScanState, now: int, j0: Job, j1: Job, storedAt: map<JobId, nat>)
    returns (s': ScanState, now': int, j1': Job)
    requires Seen(mode, s, now, map[0 := j0, 1 := j1], {}, map[], storedAt, {}) && BetweenAttempts(j1, j1.attempts) && 0 <= j1.attempts < 5
    ensures Seen(mode, s', now', map[0 := j0, 1 := j1'], {}, map[], storedAt, {}) && now <= now'
    ensures j1'.status.Dead? && j1'.completedAt == Some(now') && j1'.work == j1.work
    decreases 5 - j1.attempts
  {
    hide Seen;
    s', now', j1' := FailOnce(mode, s, now, j0, j1, storedAt);
    if j1.attempts + 1 < 5 {
      s', now', j1' := FailToDeath(mode, s', now', j0, j1', storedAt);
    }
  }

  /** Job 1 uses up its attempts, and `hours` later the sweep comes by. */
  lemma DeadAndSwept(mode: Mode, s: ScanState, now: int, j0: Job, storedAt: map<JobId, nat>, hours: nat) returns (s': ScanState, now': int)
    requires Seen(mode, s, now, map[0 := j0, 1 := ScanJob(1)], {}, map[], storedAt, {}) && j0.work == ScanArtifact(0, 0)
    requires 1 !in storedAt
    requires j0.status.Pending? || (j0.status.Completed? && j0.completedAt == Some(now))
    ensures now <= now' && Seen(mode, s', now', if j0.status.Pending? then map[0 := j0] else map[], {}, map[], storedAt, {0})
  {
    var died, j1;
    hide Seen;
    s', died, j1 := FailToDeath(mode, s, now, j0, ScanJob(1), storedAt);
    var rows: map<JobId, Job> := map[0 := j0, 1 := j1];
    s' := ThenWait(mode, s', died, rows, {}, map[], storedAt, {}, 3600 * hours + 1);
    now' := died + (3600 * hours + 1);
    assert Expired(j1, now' - 3600 * hours);
    s' := ThenSweep(mode, s', now', rows, {}, map[], storedAt, 1, hours);
    assert Swept(rows, now' - 3600 * hours) == if j0.status.Pending? then map[0 := j0] else map[];
  }

  /**
   The retention sweep makes even locked counts see too little: job 1 dies and its row is swept, and the
   handler of job 0 publishes the release although the other scan never got through.
   */
  lemma SweptDeadJobPublishesUnscanned(hours: nat) returns (s: ScanState, t: Ticket)
    ensures ScanReached(LockRespecting, InitScan(0), s) && s.deadDropped == {0} && t.work == ScanArtifact(0, 0)
    ensures AboutToMove(s, t) && !RightToMove(s, t)
    ensures ApplyScan(s, Move(t, false)).releases[0].status.Published? && 1 !in s.storedAt
  {
    hide ScanReached, RemainingScanJobs;
    var now;
    s := Submitted(LockRespecting);
    s, now := DeadAndSwept(LockRespecting, s, 0, ScanJob(0), map[], hours);
    var rows: map<JobId, Job> := map[0 := ScanJob(0)];
    s, t := ThenClaim(LockRespecting, s, now, rows, {}, map[], map[], {0}, 0, 1);
    rows := rows[0 := ClaimedRow(ScanJob(0), now, 300, 1)];
    s := ThenBegin(LockRespecting, s, now, rows, {} + {t}, map[], map[], {0}, t, true);
    OneOpen(rows, 0);
    s := PassOn(LockRespecting, s, now, rows, {} + {t}, map[t := Storing([])], map[], {0}, t, 1);
  }

  /**
   And it can strand a release, with one worker or with many that respect their locks: job 0 is scanned
   and leaves the move to job 1, which dies and is swept.
   */
  lemma SweptDeadJobStrandsRelease(mode: Mode, hours: nat) returns (s: ScanState)
    requires mode.SingleLoop? || mode.LockRespecting?
    ensures ScanReached(mode, InitScan(0), s)
    ensures Stranded(s, 0) && s.deadDropped == {0}
  {
    hide ScanReached, RemainingScanJobs;
    var rows: map<JobId, Job> := map[0 := ScanJob(0), 1 := ScanJob(1)];
    s := Submitted(mode);
    var t, now;
    s, t := ThenClaim(mode, s, 0, rows, {}, map[], map[], {}, 0, 1);
    rows := rows[0 := ClaimedRow(ScanJob(0), 0, 300, 1)];
    s := ThenBegin(mode, s, 0, rows, {} + {t}, map[], map[], {}, t, true);
    BothOpen(rows);
    s := ThenCount(mode, s, 0, rows, {} + {t}, map[t := Storing([])], map[], {}, t);
    assert map[t := Storing([])][t := Finished(true)] == map[t := Finished(true)];
    s := ThenSettle(mode, s, 0, rows, {} + {t}, map[t := Finished(true)], map[0 := 0], {}, t, true);
    var j0 := CompletedRow(ClaimedRow(ScanJob(0), 0, 300, 1), 0);
    assert rows[0 := j0] == map[0 := j0, 1 := ScanJob(1)];
    assert {} + {t} - {t} == {} && map[t := Finished(true)] - {t} == map[];
    s, now := DeadAndSwept(mode, s, 0, j0, map[0 := 0], hours);
    NothingOpen(map[]);
  }
}
