/**
 `ScanArtifactHandler::handle` as it runs on one worker (crates/workers/src/scanners.rs), proved to
 take the handler's steps of the `Scanning` machine.
 */
module ScanHandler {
  import opened Common
  import opened Jobs
  import opened Scanning
  import opened ScanRuns
  import opened Worker

  /** What the scanners that did not fail reported, in registration order. */
  function AllFindings(results: seq<Option<seq<Finding>>>): seq<Finding> {
    if results == [] then []
    else
      var last := results[|results| - 1];
      AllFindings(results[..|results| - 1]) + (if last.Some? then last.value else [])
  }

  /** The rows that went in; a failed insert is logged and the finding is lost. */
  function InsertedRows(release: ReleaseId, artifact: nat, found: seq<Finding>, insertOk: nat -> bool): seq<FindingRow> {
    if found == [] then []
    else
      var k := |found| - 1;
      InsertedRows(release, artifact, found[..k], insertOk)
      + (if insertOk(k) then [FindingRow(release, artifact, found[k], false)] else [])
  }

  /** Which of the later statements the database refuses. */
  datatype Faults = Faults(count: bool, check: bool, load: bool, move: bool, reindex: bool)

  /** The release out of `scanning`, by what was found and by its flags. */
  function Decided(releases: map<ReleaseId, Release>, findings: seq<FindingRow>, release: ReleaseId): map<ReleaseId, Release>
    requires release in releases
  {
    var row := releases[release];
    releases[release := row.(status := FinalStatus(HasBlocking(findings, release), row.isYanked, row.isDeprecated))]
  }

  /** What the environment does with one scan job: bytes and scanners, inserts, statements that fail. */
  datatype Scan = Scan(fetched: bool, results: seq<Option<seq<Finding>>>, insertOk: nat -> bool, faults: Faults)

  // ---------------------------------------------------------------- the handler as one function

  /** Queue and tables after the count and, if no other scan job is open, the decision. */
  function AfterCount(s: ScanState, t: Ticket, faults: Faults, reindexId: JobId): (s': ScanState)
    requires t.work.ScanArtifact? && reindexId !in s.q.history
    ensures s'.q.tickets == s.q.tickets && s.q.history.Keys <= s'.q.history.Keys <= s.q.history.Keys + {reindexId}
  {
    var release := t.work.release;
    if faults.count then s.(phases := s.phases[t := Finished(false)])
    else if |RemainingScanJobs(s.q.rows, release)| > 1 then s.(phases := s.phases[t := Finished(true)])
    else if faults.check || faults.load || release !in s.releases || faults.move then s.(phases := s.phases[t := Finished(false)])
    else if !s.releases[release].status.Scanning? then s.(phases := s.phases[t := Finished(true)])
    else s.(releases := Decided(s.releases, s.findings, release),
            q := if faults.reindex then s.q
                 else Apply(s.q, Enqueue(reindexId, ReindexSearch(s.releases[release].package), DEFAULT_MAX_ATTEMPTS, s.q.now)),
            phases := s.phases[t := Finished(!faults.reindex)])
  }

  /** What the whole handler does without interruption. */
  function AfterHandler(s: ScanState, t: Ticket, scan: Scan, reindexId: JobId): (s': ScanState)
    requires t.work.ScanArtifact? && reindexId !in s.q.history
    ensures s'.q.tickets == s.q.tickets && s.q.history.Keys <= s'.q.history.Keys <= s.q.history.Keys + {reindexId}
  {
    if !scan.fetched then s.(phases := s.phases[t := Finished(false)])
    else
      var rows := s.findings + InsertedRows(t.work.release, t.work.artifact, AllFindings(scan.results), scan.insertOk);
      AfterCount(s.(findings := rows, phases := s.phases[t := Storing([])], storedAt := if t.id in s.storedAt then s.storedAt else s.storedAt[t.id := |rows|]),
                 t, scan.faults, reindexId)
  }

  // ---------------------------------------------------------------- which findings are stored

  /** `after` is `before` and a row for each of the findings whose insert went through, at `kept`, in order. */
  ghost predicate StoredAt(before: seq<FindingRow>, after: seq<FindingRow>, release: ReleaseId, artifact: nat,
                     found: seq<Finding>, insertOk: nat -> bool, kept: seq<nat>) {
    && |after| == |before| + |kept| && before <= after
    && (forall a, b :: 0 <= a < b < |kept| ==> kept[a] < kept[b])
    && (forall a :: 0 <= a < |kept| ==>
          kept[a] < |found| && insertOk(kept[a]) && after[|before| + a] == FindingRow(release, artifact, found[kept[a]], false))
    && (forall i: nat | i < |found| && insertOk(i) :: i in kept)
  }

  lemma {:induction false} InsertedRowsAreKept(before: seq<FindingRow>, release: ReleaseId, artifact: nat, found: seq<Finding>, insertOk: nat -> bool)
    returns (kept: seq<nat>)
    ensures StoredAt(before, before + InsertedRows(release, artifact, found, insertOk), release, artifact, found, insertOk, kept)
  {
    if found == [] {
      kept := [];
    } else {
      var k := |found| - 1;
      kept := InsertedRowsAreKept(before, release, artifact, found[..k], insertOk);
      if insertOk(k) {
        kept := kept + [k];
      }
    }
  }

  /** How many findings the scanners before the `k`-th reported. */
  function Before(results: seq<Option<seq<Finding>>>, k: nat): nat
    requires k <= |results|
  {
    if k == 0 then 0 else Before(results, k - 1) + (if results[k - 1].Some? then |results[k - 1].value| else 0)
  }

  lemma {:induction false} BeforeOfPrefix(results: seq<Option<seq<Finding>>>, n: nat, k: nat)
    requires k <= n <= |results|
    ensures Before(results[..n], k) == Before(results, k)
  {
    if k > 0 {
      BeforeOfPrefix(results, n, k - 1);
    }
  }

  lemma {:induction false} AllCounted(results: seq<Option<seq<Finding>>>)
    ensures |AllFindings(results)| == Before(results, |results|)
    decreases |results|
  {
    if results != [] {
      var n := |results| - 1;
      AllCounted(results[..n]);
      BeforeOfPrefix(results, n, n);
    }
  }

  /** The findings are taken scanner by scanner: the `j`-th of the `k`-th comes after all of the scanners before. */
  lemma {:induction false} ReportedAt(results: seq<Option<seq<Finding>>>, k: nat, j: nat)
    requires k < |results| && results[k].Some? && j < |results[k].value|
    ensures Before(results, k) + j < |AllFindings(results)| && AllFindings(results)[Before(results, k) + j] == results[k].value[j]
    decreases |results|
  {
    var n := |results| - 1;
    AllCounted(results[..n]);
    BeforeOfPrefix(results, n, k);
    if k < n {
      ReportedAt(results[..n], k, j);
    }
    hide Before;
  }

  lemma {:induction false} ReporterOf(results: seq<Option<seq<Finding>>>, i: nat) returns (k: nat, j: nat)
    requires i < |AllFindings(results)|
    ensures k < |results| && results[k].Some? && j < |results[k].value| && Before(results, k) + j == i
    decreases |results|
  {
    var n := |results| - 1;
    AllCounted(results[..n]);
    BeforeOfPrefix(results, n, n);
    if i < |AllFindings(results[..n])| {
      k, j := ReporterOf(results[..n], i);
      BeforeOfPrefix(results, n, k);
    } else {
      k, j := n, i - |AllFindings(results[..n])|;
    }
  }

  predicate Grave(f: Finding) {
    f.severity == "critical" || f.kind == "malware"
  }

  /** The check blocks exactly if an unresolved grave finding was there, or a grave one was reported and went in. */
  lemma BlocksExactlyWhen(before: seq<FindingRow>, release: ReleaseId, artifact: nat, results: seq<Option<seq<Finding>>>, insertOk: nat -> bool)
    ensures HasBlocking(before + InsertedRows(release, artifact, AllFindings(results), insertOk), release) <==>
      || (exists i :: 0 <= i < |before| && before[i].release == release && !before[i].resolved && Grave(before[i].finding))
      || (exists k, j :: 0 <= k < |results| && results[k].Some? && 0 <= j < |results[k].value|
            && Grave(results[k].value[j]) && insertOk(Before(results, k) + j))
  {
    hide InsertedRows, AllFindings, Before;
    var found := AllFindings(results);
    var after := before + InsertedRows(release, artifact, found, insertOk);
    var kept := InsertedRowsAreKept(before, release, artifact, found, insertOk);
    if HasBlocking(after, release) {
      var i :| 0 <= i < |after| && IsBlocking(after[i], release);
      if i < |before| {
        assert before[i] == after[i];
      } else {
        var a := i - |before|;
        assert after[|before| + a] == FindingRow(release, artifact, found[kept[a]], false);
        var k, j := ReporterOf(results, kept[a]);
        ReportedAt(results, k, j);
        assert Grave(results[k].value[j]) && insertOk(Before(results, k) + j);
      }
    }
    if i :| 0 <= i < |before| && before[i].release == release && !before[i].resolved && Grave(before[i].finding) {
      assert IsBlocking(after[i], release);
    }
    if k, j :| 0 <= k < |results| && results[k].Some? && 0 <= j < |results[k].value|
               && Grave(results[k].value[j]) && insertOk(Before(results, k) + j) {
      ReportedAt(results, k, j);
      GraveGoesIn(before, after, release, artifact, found, insertOk, kept, Before(results, k) + j);
    }
  }

  /** The release is moved, and to the status that findings and flags demand. */
  predicate Moves(findings: seq<FindingRow>, before: map<ReleaseId, Release>, release: ReleaseId, scan: Scan, after: map<ReleaseId, Release>)
    requires release in before
  {
    var grave :=
      || (exists i :: 0 <= i < |findings| && findings[i].release == release && !findings[i].resolved && Grave(findings[i].finding))
      || (exists k, j :: 0 <= k < |scan.results| && scan.results[k].Some? && 0 <= j < |scan.results[k].value|
            && Grave(scan.results[k].value[j]) && scan.insertOk(Before(scan.results, k) + j));
    after == before[release := before[release].(
      status := if grave then Quarantine
                else if before[release].isYanked then Yanked
                else if before[release].isDeprecated then Deprecated
                else Published)]
  }

  lemma HandlerMoves(s: ScanState, t: Ticket, scan: Scan, reindexId: JobId)
    requires t.work.ScanArtifact? && reindexId !in s.q.history
    ensures var release := t.work.release;
            var decides := scan.fetched && !scan.faults.count && |RemainingScanJobs(s.q.rows, release)| <= 1
                          && !scan.faults.check && !scan.faults.load && release in s.releases && !scan.faults.move
                          && s.releases[release].status.Scanning?;
            var s' := AfterHandler(s, t, scan, reindexId);
      if decides then Moves(s.findings, s.releases, release, scan, s'.releases) else s'.releases == s.releases
  {
    hide RemainingScanJobs, Decided, InsertedRows, AllFindings, Moves, Apply;
    if t.work.release in s.releases {
      MovesByFindings(s.releases, s.findings, t.work.release, t.work.artifact, scan);
    }
  }

  lemma MovesByFindings(releases: map<ReleaseId, Release>, findings: seq<FindingRow>, release: ReleaseId, artifact: nat, scan: Scan)
    requires release in releases
    ensures Moves(findings, releases, release, scan,
                  Decided(releases, findings + InsertedRows(release, artifact, AllFindings(scan.results), scan.insertOk), release))
  {
    hide HasBlocking, InsertedRows, AllFindings, Before;
    BlocksExactlyWhen(findings, release, artifact, scan.results, scan.insertOk);
  }

  lemma GraveGoesIn(before: seq<FindingRow>, after: seq<FindingRow>, release: ReleaseId, artifact: nat,
                    found: seq<Finding>, insertOk: nat -> bool, kept: seq<nat>, i: nat)
    requires StoredAt(before, after, release, artifact, found, insertOk, kept) && i < |found| && insertOk(i) && Grave(found[i])
    ensures HasBlocking(after, release)
  {
    assert i in kept;
    var a :| 0 <= a < |kept| && kept[a] == i;
    assert IsBlocking(after[|before| + a], release);
  }

  class ScanDatabase {
    const queue: JobQueue
    var releases: map<ReleaseId, Release>
    var findings: seq<FindingRow>
    ghost var phases: map<Ticket, Phase>
    ghost var jobs: map<JobId, ReleaseId>
    ghost var storedAt: map<JobId, nat>
    ghost var deadDropped: set<ReleaseId>

    constructor (queue: JobQueue)
      requires queue.Snapshot() == Init(queue.now)
      ensures this.queue == queue && Snapshot() == InitScan(queue.now)
    {
      this.queue := queue;
      releases, findings, phases, jobs, storedAt, deadDropped := map[], [], map[], map[], map[], {};
    }

    ghost function Snapshot(): ScanState
      reads this, queue
    {
      ScanState(queue.Snapshot(), releases, findings, phases, jobs, storedAt, deadDropped)
    }

    ghost method BeginScan(t: Ticket, fetched: bool, found: seq<Finding>, from: ScanState, mode: Mode)
      requires ScanReached(mode, from, Snapshot()) && t.work.ScanArtifact? && t in queue.tickets && t !in phases
      requires mode.SingleLoop? ==> phases == map[]
      modifies this`phases
      ensures ScanReached(mode, from, Snapshot())
      ensures phases == old(phases)[t := if fetched then Storing(found) else Finished(false)]
    {
      ScanReachedStep(mode, from, Snapshot(), Begin(t, if fetched then Some(found) else None));
      phases := phases[t := if fetched then Storing(found) else Finished(false)];
    }

    method CountRemaining(ghost t: Ticket, release: ReleaseId, dbError: bool, ghost from: ScanState, ghost mode: Mode) returns (remaining: nat)
      requires ScanReached(mode, from, Snapshot()) && t.work.ScanArtifact? && t.work.release == release
      requires t in queue.tickets && t in phases && phases[t] == Storing([])
      requires mode.LockRespecting? ==> queue.now <= t.lockedUntil
      modifies this`phases, this`storedAt
      ensures ScanReached(mode, from, Snapshot())
      ensures remaining == |RemainingScanJobs(queue.rows, release)|
      ensures storedAt == if t.id in old(storedAt) then old(storedAt) else old(storedAt)[t.id := |findings|]
      ensures phases == old(phases)[t := if dbError then Finished(false) else if remaining > 1 then Finished(true) else Passed]
    {
      remaining := |RemainingScanJobs(queue.rows, release)|;
      ScanReachedStep(mode, from, Snapshot(), Count(t, dbError));
      if t.id !in storedAt {
        storedAt := storedAt[t.id := |findings|];
      }
      phases := phases[t := if dbError then Finished(false) else if remaining > 1 then Finished(true) else Passed];
    }

    method CheckBlocking(ghost t: Ticket, release: ReleaseId, dbError: bool, ghost from: ScanState, ghost mode: Mode) returns (blocking: bool)
      requires ScanReached(mode, from, Snapshot()) && t.work.ScanArtifact? && t.work.release == release
      requires t in queue.tickets && t in phases && phases[t].Passed?
      modifies this`phases
      ensures ScanReached(mode, from, Snapshot())
      ensures blocking == HasBlocking(findings, release)
      ensures phases == old(phases)[t := if dbError then Finished(false) else Checked(blocking, findings)]
    {
      blocking := exists i :: 0 <= i < |findings| && IsBlocking(findings[i], release);
      ScanReachedStep(mode, from, Snapshot(), Check(t, dbError));
      phases := phases[t := if dbError then Finished(false) else Checked(blocking, findings)];
    }

    method LoadRelease(ghost t: Ticket, release: ReleaseId, dbError: bool, ghost from: ScanState, ghost mode: Mode) returns (row: Option<Release>)
      requires ScanReached(mode, from, Snapshot()) && t.work.ScanArtifact? && t.work.release == release
      requires t in queue.tickets && t in phases && phases[t].Checked?
      modifies this`phases
      ensures ScanReached(mode, from, Snapshot())
      ensures row == if dbError || release !in releases then None else Some(releases[release])
      ensures phases == old(phases)[t := if row.None? then Finished(false)
        else Loaded(old(phases)[t].blocking, old(phases)[t].seen, row.value.package, row.value.isYanked, row.value.isDeprecated)]
    {
      row := if dbError || release !in releases then None else Some(releases[release]);
      ScanReachedStep(mode, from, Snapshot(), Load(t, dbError));
      phases := phases[t := if row.None? then Finished(false)
        else Loaded(phases[t].blocking, phases[t].seen, row.value.package, row.value.isYanked, row.value.isDeprecated)];
    }

    method MoveRelease(ghost t: Ticket, release: ReleaseId, newStatus: ReleaseStatus, dbError: bool, ghost from: ScanState, ghost mode: Mode) returns (moved: bool)
      requires ScanReached(mode, from, Snapshot()) && t.work.ScanArtifact? && t.work.release == release
      requires t in queue.tickets && t in phases && phases[t].Loaded? && release in releases
      requires newStatus == FinalStatus(phases[t].blocking, phases[t].isYanked, phases[t].isDeprecated)
      modifies this`phases, this`releases
      ensures ScanReached(mode, from, Snapshot())
      ensures moved == (!dbError && old(releases)[release].status.Scanning?)
      ensures releases == if moved then old(releases)[release := old(releases)[release].(status := newStatus)] else old(releases)
      ensures phases == old(phases)[t := if moved then Moved(old(phases)[t].package) else Finished(!dbError)]
    {
      ScanReachedStep(mode, from, Snapshot(), Move(t, dbError));
      moved := !dbError && releases[release].status.Scanning?;
      if moved {
        releases := releases[release := releases[release].(status := newStatus)];
      }
      phases := phases[t := if moved then Moved(phases[t].package) else Finished(!dbError)];
    }

    method EnqueueReindex(ghost t: Ticket, packageId: nat, reindexId: JobId, dbError: bool, ghost from: ScanState, ghost mode: Mode)
      requires ScanReached(mode, from, Snapshot()) && t.work.ScanArtifact?
      requires t in queue.tickets && t in phases && phases[t] == Moved(packageId)
      requires reindexId !in queue.history && reindexId !in jobs
      modifies this`phases, queue
      ensures ScanReached(mode, from, Snapshot())
      ensures phases == old(phases)[t := Finished(!dbError)]
      ensures queue.Snapshot() ==
        if dbError then old(queue.Snapshot())
        else Apply(old(queue.Snapshot()), Enqueue(reindexId, ReindexSearch(packageId), DEFAULT_MAX_ATTEMPTS, old(queue.now)))
    {
      ScanReachedStep(mode, from, Snapshot(), Reindex(t, reindexId, dbError));
      if !dbError {
        queue.EnqueueAt(reindexId, ReindexSearch(packageId), queue.now);
      }
      phases := phases[t := Finished(!dbError)];
    }

    method CollectFindings(results: seq<Option<seq<Finding>>>) returns (found: seq<Finding>)
      ensures found == AllFindings(results)
    {
      found := [];
      for i := 0 to |results|
        invariant found == AllFindings(results[..i])
      {
        assert results[..i + 1][..i] == results[..i];
        if results[i].Some? {
          found := found + results[i].value;
        }
      }
      assert results[..|results|] == results;
    }

    method PersistFindings(ghost t: Ticket, release: ReleaseId, artifact: nat, found: seq<Finding>, insertOk: nat -> bool, ghost from: ScanState, ghost mode: Mode)
      requires t.work == ScanArtifact(release, artifact) && t in queue.tickets && t in phases && phases[t] == Storing(found)
      requires ScanReached(mode, from, Snapshot())
      modifies this`findings, this`phases
      ensures ScanReached(mode, from, Snapshot())
      ensures phases == old(phases)[t := Storing([])]
      ensures findings == old(findings) + InsertedRows(release, artifact, found, insertOk)
      ensures exists kept :: StoredAt(old(findings), findings, release, artifact, found, insertOk, kept)
    {
      hide ScanReached, StoredAt;
      ghost var kept := InsertedRowsAreKept(findings, release, artifact, found, insertOk);
      for i := 0 to |found|
        invariant ScanReached(mode, from, Snapshot())
        invariant phases == old(phases)[t := Storing(found[i..])]
        invariant findings == old(findings) + InsertedRows(release, artifact, found[..i], insertOk)
      {
        ghost var s := Snapshot();
        ScanReachedStep(mode, from, s, Store(t, insertOk(i)));
        assert found[..i + 1][..i] == found[..i];
        assert found[i..][1..] == found[i + 1..];
        if insertOk(i) {
          findings := findings + [FindingRow(release, artifact, found[i], false)];
        }
        phases := phases[t := Storing(found[i + 1..])];
        assert Snapshot() == ApplyScan(s, Store(t, insertOk(i)));
      }
      assert found[..|found|] == found;
    }

    method ScanAndStore(ghost t: Ticket, release: ReleaseId, artifact: nat, scan: Scan, ghost from: ScanState, ghost mode: Mode)
      requires t.work == ScanArtifact(release, artifact) && t in queue.tickets && t !in phases
      requires ScanReached(mode, from, Snapshot()) && (mode.SingleLoop? ==> phases == map[])
      modifies this`phases, this`findings
      ensures ScanReached(mode, from, Snapshot())
      ensures phases == old(phases)[t := if scan.fetched then Storing([]) else Finished(false)]
      ensures findings == old(findings)
                + (if scan.fetched then InsertedRows(release, artifact, AllFindings(scan.results), scan.insertOk) else [])
    {
      hide ScanReached;
      if !scan.fetched {
        BeginScan(t, false, [], from, mode);
        return;
      }
      var found := CollectFindings(scan.results);
      BeginScan(t, true, found, from, mode);
      PersistFindings(t, release, artifact, found, scan.insertOk, from, mode);
    }

    /**
     The whole handler without interruption: `AfterHandler`, by steps of the machine.  If it moves the
     release, then to quarantine exactly if an unresolved critical or malware finding of the release was
     there, or a scanner reported one and it went in; and otherwise by the release's flags.
     */
    method Handle(ghost t: Ticket, release: ReleaseId, artifact: nat, scan: Scan, reindexId: JobId, ghost mode: Mode) returns (ok: bool)
      requires t.work == ScanArtifact(release, artifact) && t in queue.tickets && t !in phases
      requires reindexId !in queue.history && reindexId !in jobs
      requires (mode.SingleLoop? ==> phases == map[]) && (mode.LockRespecting? ==> queue.now <= t.lockedUntil)
      modifies this, queue
      ensures ScanReached(mode, old(Snapshot()), Snapshot())
      ensures Snapshot() == AfterHandler(old(Snapshot()), t, scan, reindexId)
      ensures phases == old(phases)[t := Finished(ok)]
      ensures var decides := scan.fetched && !scan.faults.count && |RemainingScanJobs(old(queue.rows), release)| <= 1
                          && !scan.faults.check && !scan.faults.load && release in old(releases) && !scan.faults.move
                          && old(releases)[release].status.Scanning?;
        if decides then Moves(old(findings), old(releases), release, scan, releases) else releases == old(releases)
    {
      hide ScanReached, RemainingScanJobs, HasBlocking, Decided, InsertedRows, AllFindings, Moves, Apply, AfterCount;
      ghost var from := Snapshot();
      ScanReachedStart(mode, from);
      HandlerMoves(from, t, scan, reindexId);
      ScanAndStore(t, release, artifact, scan, from, mode);
      if !scan.fetched {
        return false;
      }
      ok := CountAndFinalize(t, release, scan.faults, reindexId, from, mode);
    }

    method CountAndFinalize(ghost t: Ticket, release: ReleaseId, faults: Faults, reindexId: JobId,
                            ghost from: ScanState, ghost mode: Mode) returns (ok: bool)
      requires ScanReached(mode, from, Snapshot()) && t.work.ScanArtifact? && t.work.release == release
      requires t in queue.tickets && t in phases && phases[t] == Storing([])
      requires reindexId !in queue.history && reindexId !in jobs && (mode.LockRespecting? ==> queue.now <= t.lockedUntil)
      modifies this`phases, this`storedAt, this`releases, queue
      ensures ScanReached(mode, from, Snapshot())
      ensures Snapshot() == AfterCount(old(Snapshot()).(storedAt := if t.id in old(storedAt) then old(storedAt)
                                                                   else old(storedAt)[t.id := |findings|]), t, faults, reindexId)
      ensures phases == old(phases)[t := Finished(ok)]
    {
      hide ScanReached, RemainingScanJobs, HasBlocking, Decided, Apply;
      var remaining := CountRemaining(t, release, faults.count, from, mode);
      if faults.count {
        return false;
      }
      if remaining > 1 {
        return true;
      }
      ok := FinalizeRelease(t, release, faults, reindexId, from, mode);
    }

    method FinalizeRelease(ghost t: Ticket, release: ReleaseId, faults: Faults, reindexId: JobId, ghost from: ScanState, ghost mode: Mode) returns (ok: bool)
      requires ScanReached(mode, from, Snapshot()) && t.work.ScanArtifact? && t.work.release == release
      requires t in queue.tickets && t in phases && phases[t].Passed?
      requires reindexId !in queue.history && reindexId !in jobs
      modifies this`phases, this`releases, queue
      ensures ScanReached(mode, from, Snapshot())
      ensures phases == old(phases)[t := Finished(ok)]
      ensures var moved := !faults.check && !faults.load && release in old(releases) && !faults.move
                          && old(releases)[release].status.Scanning?;
        && releases == (if moved then Decided(old(releases), findings, release) else old(releases))
        && ok == (!faults.check && !faults.load && release in old(releases) && !faults.move && (moved ==> !faults.reindex))
        && queue.Snapshot() == (if moved && !faults.reindex
             then Apply(old(queue.Snapshot()), Enqueue(reindexId, ReindexSearch(old(releases)[release].package), DEFAULT_MAX_ATTEMPTS, old(queue.now)))
             else old(queue.Snapshot()))
    {
      hide ScanReached, Apply;
      var hasBlocking := CheckBlocking(t, release, faults.check, from, mode);
      if faults.check {
        return false;
      }
      var row := LoadRelease(t, release, faults.load, from, mode);
      if row.None? {
        return false;
      }
      var newStatus := if hasBlocking then Quarantine
                       else if row.value.isYanked then Yanked
                       else if row.value.isDeprecated then Deprecated
                       else Published;
      var moved := MoveRelease(t, release, newStatus, faults.move, from, mode);
      if !moved {
        return !faults.move;
      }
      EnqueueReindex(t, row.value.package, reindexId, faults.reindex, from, mode);
      return !faults.reindex;
    }

    /** The sweep is about to take dead scan jobs that never handed in their findings. */
    ghost method RecordDropped(retentionHours: int)
      modifies this`deadDropped
      ensures deadDropped == old(deadDropped) + DeadDroppedBy(queue.rows, storedAt, queue.now, retentionHours)
    {
      deadDropped := deadDropped + DeadDroppedBy(queue.rows, storedAt, queue.now, retentionHours);
    }

    /** The settlement of a job after its handler has returned; it may fail, and is then only logged. */
    method Settle(job: Ticket, ok: bool, error: string, recorded: bool, ghost mode: Mode)
      requires job in queue.tickets && (job.work.ScanArtifact? ==> job in phases && phases[job] == Finished(ok))
      requires mode.LockRespecting? ==> queue.now <= job.lockedUntil
      modifies this`phases, queue
      ensures ScanReached(mode, old(Snapshot()), Snapshot())
      ensures Snapshot() == AfterSettling(old(Snapshot()), job, ok, error, recorded)
      ensures phases == old(phases) - {job} && queue.tickets == old(queue.tickets) - {job}
      ensures queue.history.Keys == old(queue.history.Keys)
    {
      hide ScanReached, Apply, ApplyScan, ScanEnabled, ScanAllowed;
      ghost var s := Snapshot();
      ghost var step := Settlement(job, ok, error, recorded);
      SettlesJob(mode, s, step, job, ok);
      ScanReachedStart(mode, s);
      ScanReachedStep(mode, s, s, Queue(step));
      if !recorded {
        queue.Forget(job);
      } else if ok {
        queue.CompleteJob(job, job.id);
      } else {
        queue.FailJob(job, job.id, error, job.attempts, job.maxAttempts);
      }
      phases := phases - {job};
    }

    /** A new release is submitted, and its scan jobs are enqueued: ids `first` and up, one for each artifact. */
    method SubmitRelease(release: ReleaseId, package: nat, first: JobId, artifacts: nat, ghost mode: Mode)
      requires release !in releases && artifacts > 0
      requires (forall id | id in queue.history :: id < first) && (forall id | id in jobs :: id < first)
      modifies this`releases, this`jobs, queue
      ensures ScanReached(mode, old(Snapshot()), Snapshot())
      ensures Submitted(old(Snapshot()), release, package, first, artifacts, Snapshot())
    {
      hide ScanReached, ScansEnqueued, Apply;
      ghost var s := Snapshot();
      var ids := IdsFrom(first, artifacts);
      assert first in ids;
      MarkScanning(release, package, ids, mode);
      ghost var marked := Snapshot();
      NoScansEnqueued(s.q, release, first);
      for i := 0 to artifacts
        invariant ScanReached(mode, s, Snapshot())
        invariant Snapshot() == marked.(q := queue.Snapshot())
        invariant ScansEnqueued(s.q, release, first, i, queue.Snapshot())
      {
        NextScanEnqueued(s.q, release, first, i, queue.Snapshot());
        EnqueueScan(first + i, release, i, s, mode);
      }
    }

    method MarkScanning(release: ReleaseId, package: nat, ids: set<JobId>, ghost mode: Mode)
      requires ScanEnabled(Snapshot(), Submit(release, package, ids))
      modifies this`releases, this`jobs
      ensures ScanReached(mode, old(Snapshot()), Snapshot())
      ensures jobs == old(jobs) + (map id | id in ids :: release)
      ensures releases == old(releases)[release := Release(package, ReleaseStatus.Scanning, false, false)]
    {
      hide ScanReached;
      ScanReachedStart(mode, Snapshot());
      ScanReachedStep(mode, Snapshot(), Snapshot(), Submit(release, package, ids));
      releases := releases[release := Release(package, ReleaseStatus.Scanning, false, false)];
      jobs := map id | id in jobs.Keys + ids :: if id in jobs then jobs[id] else release;
    }

    method EnqueueScan(id: JobId, release: ReleaseId, artifact: nat, ghost from: ScanState, ghost mode: Mode)
      requires ScanReached(mode, from, Snapshot()) && id !in queue.history && id in jobs && jobs[id] == release
      modifies queue
      ensures ScanReached(mode, from, Snapshot())
      ensures queue.Snapshot() == Apply(old(queue.Snapshot()), Enqueue(id, ScanArtifact(release, artifact), DEFAULT_MAX_ATTEMPTS, old(queue.now)))
    {
      hide ScanReached;
      ScanReachedStep(mode, from, Snapshot(), Queue(Enqueue(id, ScanArtifact(release, artifact), DEFAULT_MAX_ATTEMPTS, queue.now)));
      queue.EnqueueAt(id, ScanArtifact(release, artifact), queue.now);
    }
  }

  /** The settlement statement; where it fails, the worker gives up on the ticket. */
  function Settlement(job: Ticket, ok: bool, error: string, recorded: bool): Step {
    if !recorded then Abandon({job}) else if ok then Complete(job) else Fail(job, error)
  }

  function AfterSettling(s: ScanState, job: Ticket, ok: bool, error: string, recorded: bool): ScanState
    requires job in s.q.tickets
  {
    s.(q := Apply(s.q, Settlement(job, ok, error, recorded)), phases := s.phases - {job})
  }

  /** One pending scan job for each of the first `n` artifacts. */
  predicate ScansEnqueued(q: State, release: ReleaseId, first: JobId, n: nat, q': State) {
    && q'.now == q.now && q'.tickets == q.tickets
    && q'.rows.Keys == q.rows.Keys + IdsFrom(first, n) && q'.history.Keys == q.history.Keys + IdsFrom(first, n)
    && (forall id | id in q.rows && id < first :: q'.rows[id] == q.rows[id])
    && (forall i | 0 <= i < n ::
          q'.rows[first + i] == Job(ScanArtifact(release, i), Pending, 0, DEFAULT_MAX_ATTEMPTS, q.now, None, None, None, None, None))
  }

  lemma NoScansEnqueued(q: State, release: ReleaseId, first: JobId)
    ensures ScansEnqueued(q, release, first, 0, q)
  {
  }

  lemma NextScanEnqueued(q: State, release: ReleaseId, first: JobId, n: nat, q': State)
    requires ScansEnqueued(q, release, first, n, q') && forall id | id in q.history :: id < first
    ensures first + n !in q'.history
    ensures ScansEnqueued(q, release, first, n + 1,
              Apply(q', Enqueue(first + n, ScanArtifact(release, n), DEFAULT_MAX_ATTEMPTS, q'.now)))
  {
  }

  /** The release is new and scanning, its jobs are enqueued, and all else is as it was. */
  predicate Submitted(s: ScanState, release: ReleaseId, package: nat, first: JobId, artifacts: nat, s': ScanState) {
    && s' == s.(q := s'.q, releases := s.releases[release := Release(package, ReleaseStatus.Scanning, false, false)],
                jobs := s.jobs + (map id | id in IdsFrom(first, artifacts) :: release))
    && ScansEnqueued(s.q, release, first, artifacts, s'.q)
  }

  function IdsFrom(first: JobId, n: nat): (ids: set<JobId>)
    ensures forall id :: id in ids <==> first <= id < first + n
  {
    if n == 0 then {} else IdsFrom(first, n - 1) + {first + n - 1}
  }

  lemma SettlesJob(mode: Mode, s: ScanState, step: Step, job: Ticket, ok: bool)
    requires job in s.q.tickets && (job.work.ScanArtifact? ==> job in s.phases && s.phases[job] == Finished(ok))
    requires mode.LockRespecting? ==> s.q.now <= job.lockedUntil
    requires step == Abandon({job}) || step == (if ok then Complete(job) else Fail(job, if step.Fail? then step.error else ""))
    ensures ScanEnabled(s, Queue(step)) && ScanAllowed(mode, s, Queue(step))
    ensures ApplyScan(s, Queue(step)) == s.(q := Apply(s.q, step), phases := s.phases - {job})
    ensures Apply(s.q, step).tickets == s.q.tickets - {job} && Apply(s.q, step).history.Keys == s.q.history.Keys
  {
  }
}
