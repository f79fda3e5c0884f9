/**
 Composing runs of the scanning machine (crates/workers/src/scanners.rs, crates/workers/src/queue.rs).
 */
module ScanRuns {
  import opened Jobs
  import opened JobsProofs
  import opened Scanning

  ghost predicate ScanReached(mode: Mode, from: ScanState, to: ScanState) {
    exists steps :: ScanRun(mode, from, steps) && ScanExec(mode, from, steps) == to
  }

  lemma ScanReachedStart(mode: Mode, s: ScanState)
    ensures ScanReached(mode, s, s)
  {
    assert ScanRun(mode, s, []);
  }

  lemma {:induction false} ExtendScan(mode: Mode, s: ScanState, steps: seq<ScanStep>, step: ScanStep)
    requires ScanRun(mode, s, steps)
    requires var e := ScanExec(mode, s, steps); ScanEnabled(e, step) && ScanAllowed(mode, e, step)
    ensures ScanRun(mode, s, steps + [step])
    ensures ScanExec(mode, s, steps + [step]) == ApplyScan(ScanExec(mode, s, steps), step)
    decreases |steps|
  {
    hide ApplyScan, ScanEnabled, ScanAllowed;
    if steps == [] {
      assert ScanRun(mode, ApplyScan(s, step), [step][1..]);
    } else {
      assert (steps + [step])[1..] == steps[1..] + [step];
      ExtendScan(mode, ApplyScan(s, steps[0]), steps[1..], step);
    }
  }

  lemma ScanReachedStep(mode: Mode, from: ScanState, s: ScanState, step: ScanStep)
    requires ScanReached(mode, from, s) && ScanEnabled(s, step) && ScanAllowed(mode, s, step)
    ensures ScanReached(mode, from, ApplyScan(s, step))
  {
    hide ApplyScan, ScanEnabled, ScanAllowed;
    var steps :| ScanRun(mode, from, steps) && ScanExec(mode, from, steps) == s;
    ExtendScan(mode, from, steps, step);
  }

  lemma {:induction false} ScanReachedRun(mode: Mode, from: ScanState, s: ScanState, steps: seq<ScanStep>)
    requires ScanReached(mode, from, s) && ScanRun(mode, s, steps)
    ensures ScanReached(mode, from, ScanExec(mode, s, steps))
    decreases |steps|
  {
    hide ApplyScan, ScanEnabled, ScanAllowed, ScanReached;
    if steps != [] {
      ScanReachedStep(mode, from, s, steps[0]);
      ScanReachedRun(mode, from, ApplyScan(s, steps[0]), steps[1..]);
    }
  }

  lemma ScanReachedTransitive(mode: Mode, a: ScanState, b: ScanState, c: ScanState)
    requires ScanReached(mode, a, b) && ScanReached(mode, b, c)
    ensures ScanReached(mode, a, c)
  {
    var steps :| ScanRun(mode, b, steps) && ScanExec(mode, b, steps) == c;
    ScanReachedRun(mode, a, b, steps);
  }

  /** What the scanning machine does to the queue is a run of the queue: its theorems hold here too. */
  lemma {:induction false} QueueOfScanRun(mode: Mode, s: ScanState, steps: seq<ScanStep>)
    requires ScanRun(mode, s, steps)
    ensures Reached(mode, s.q, ScanExec(mode, s, steps).q)
    decreases |steps|
  {
    hide Reached, ApplyScan, ScanEnabled, ScanAllowed;
    ReachedStart(mode, s.q);
    if steps != [] {
      QueueOfScanStep(mode, s, steps[0]);
      QueueOfScanRun(mode, ApplyScan(s, steps[0]), steps[1..]);
      ReachedTransitive(mode, s.q, ApplyScan(s, steps[0]).q, ScanExec(mode, s, steps).q);
    }
  }

  lemma QueueOfScanStep(mode: Mode, s: ScanState, step: ScanStep)
    requires ScanEnabled(s, step) && ScanAllowed(mode, s, step)
    ensures Reached(mode, s.q, ApplyScan(s, step).q)
  {
    hide Apply, Reached, RemainingScanJobs, HasBlocking;
    ReachedStart(mode, s.q);
    if step.Queue? {
      ReachedStep(mode, s.q, s.q, step.step);
    } else if step.Reindex? && !step.dbError {
      ReachedStep(mode, s.q, s.q, Enqueue(step.id, ReindexSearch(s.phases[step.ticket].package), 5, s.q.now));
    }
  }
}
