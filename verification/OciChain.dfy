/**
 Chains of OCI cleanup jobs (crates/api/src/job_handlers.rs, `CleanupOciBlobsHandler::handle`), with
 references and clock fixed and nothing uploaded in between.
 */
module OciChain {
  import opened Common
  import opened OciCleanup

  // ---------------------------------------------------------------- the query order and removals

  /** Removing rows does not reorder the others. */
  lemma {:induction false} OldestFrame(a: map<Digest, Row>, b: map<Digest, Row>, all: set<Digest>, n: nat)
    requires all <= a.Keys && all <= b.Keys && forall d | d in all :: a[d] == b[d]
    ensures Oldest(a, all, n) == Oldest(b, all, n)
    decreases n
  {
    if n > 0 && all != {} {
      var m := FirstExists(a, all);
      OldestUnfold(a, all, n, m);
      OldestUnfold(b, all, n, m);
      OldestFrame(a, b, all - {m}, n - 1);
    }
  }

  lemma OldestNone(inventory: map<Digest, Row>, all: set<Digest>, n: nat, k: nat)
    requires all <= inventory.Keys && (n == 0 || all == {})
    ensures Oldest(inventory, all, n) == []
    ensures Oldest(inventory, all, n + k) == Oldest(inventory, all - Elements([]), k)
  {
    assert all - Elements([]) == all;
  }

  /** The next batch goes on where this one stops. */
  lemma {:induction false} OldestSplit(inventory: map<Digest, Row>, all: set<Digest>, n: nat, k: nat)
    requires all <= inventory.Keys
    ensures var first := Oldest(inventory, all, n);
      Oldest(inventory, all, n + k) == first + Oldest(inventory, all - Elements(first), k)
    decreases n
  {
    hide Oldest, Elements, IsFirst;
    if n == 0 || all == {} {
      OldestNone(inventory, all, n, k);
    } else {
      var m := FirstExists(inventory, all);
      OldestSplit(inventory, all - {m}, n - 1, k);
      OldestSplitStep(inventory, all, n, k, m);
    }
  }

  lemma OldestSplitStep(inventory: map<Digest, Row>, all: set<Digest>, n: nat, k: nat, m: Digest)
    requires all <= inventory.Keys && n > 0 && IsFirst(inventory, all, m)
    requires var rest := Oldest(inventory, all - {m}, n - 1);
      Oldest(inventory, all - {m}, n - 1 + k) == rest + Oldest(inventory, (all - {m}) - Elements(rest), k)
    ensures var first := Oldest(inventory, all, n);
      Oldest(inventory, all, n + k) == first + Oldest(inventory, all - Elements(first), k)
  {
    hide Oldest, Elements, IsFirst;
    OldestUnfold(inventory, all, n, m);
    OldestUnfold(inventory, all, n + k, m);
    LeftAfter(all, m, Oldest(inventory, all - {m}, n - 1));
  }

  lemma LeftAfter(all: set<Digest>, m: Digest, rest: seq<Digest>)
    ensures (all - {m}) - Elements(rest) == all - Elements([m] + rest)
  {
    assert Elements([m] + rest) == {m} + Elements(rest);
  }

  lemma {:induction false} ElementsSize(ds: seq<Digest>)
    requires forall i, j :: 0 <= i < j < |ds| ==> ds[i] != ds[j]
    ensures |Elements(ds)| == |ds|
  {
    if ds != [] {
      var init := ds[..|ds| - 1];
      ElementsSize(init);
      assert Elements(ds) == Elements(init) + {ds[|ds| - 1]};
    }
  }

  /** Everything, once `n` covers it. */
  lemma OldestAll(inventory: map<Digest, Row>, all: set<Digest>, n: nat)
    requires all <= inventory.Keys && n >= |all|
    ensures Elements(Oldest(inventory, all, n)) == all
  {
    var r := Oldest(inventory, all, n);
    ElementsSize(r);
    EqualSizeSubset(Elements(r), all);
  }

  lemma EqualSizeSubset(a: set<Digest>, b: set<Digest>)
    requires a <= b && |a| == |b|
    ensures a == b
  {
    assert |b - a| == |b| - |a|;
  }

  // ---------------------------------------------------------------- whole chains

  lemma EligibleLeft(s: State, rows: set<Digest>, objects: set<Digest>, grace: nat)
    ensures Eligible(Without(s, rows, objects), grace) == Eligible(s, grace) - rows
  {
    var s' := Without(s, rows, objects);
    assert forall d :: Referenced(s', d) == Referenced(s, d);
  }

  /** Finishing what a run has begun, whether or not it failed in between, ends where one clean sweep ends. */
  lemma FinishSweep(s: State, rows: set<Digest>, objects: set<Digest>, all: set<Digest>)
    requires rows <= objects <= all <= s.inventory.Keys
    ensures Without(Without(s, rows, objects), all - rows, all - rows) == Without(s, all, all)
  {
    var s1 := Without(s, rows, objects);
    assert KeysOf(s1, all - rows) == KeysOf(s, all - rows);
    assert KeysOf(s, objects) + KeysOf(s, all - rows) == KeysOf(s, all);
    assert s1.inventory - (all - rows) == s.inventory - all;
  }

  /** One run without failures. */
  lemma CleanRun(s: State, p: Payload)
    ensures var all := Eligible(s, Grace(p)); var batch := Batch(s, p);
      && Cleaned(s, p, NoFault) == (Without(s, Elements(batch), Elements(batch)), Some(|batch|))
      && Elements(batch) <= all <= s.inventory.Keys
      && |batch| == (if BatchSize(p) < |all| then BatchSize(p) else |all|)
      && (forall i, j :: 0 <= i < j < |batch| ==> batch[i] != batch[j])
  {
  }

  ghost predicate Requeues(s: State, p: Payload) {
    |Batch(s, p)| == BatchSize(p)
  }

  /** A chain of runs: where it ends, how many runs it takes, and what it deletes in which order. */
  ghost function Chain(s: State, p: Payload): (State, nat, seq<Digest>)
    decreases |Eligible(s, Grace(p))|
  {
    var batch := Batch(s, p);
    var s1 := Cleaned(s, p, NoFault).0;
    if Requeues(s, p) then
      RunShrinks(s, p);
      var (end, runs, order) := Chain(s1, p);
      (end, runs + 1, batch + order)
    else (s1, 1, batch)
  }

  lemma RunShrinks(s: State, p: Payload)
    ensures var all := Eligible(s, Grace(p)); var left := Eligible(Cleaned(s, p, NoFault).0, Grace(p));
      left == all - Elements(Batch(s, p)) && |left| == |all| - |Batch(s, p)|
  {
    hide Eligible, Batch, BatchSize, Oldest;
    var all, batch := Eligible(s, Grace(p)), Batch(s, p);
    CleanRun(s, p);
    EligibleLeft(s, Elements(batch), Elements(batch), Grace(p));
    ElementsSize(batch);
    assert |all - Elements(batch)| == |all| - |Elements(batch)|;
  }

  /**
   The chain deletes exactly the aged blobs without a published reference, oldest first, and stops
   after floor(n / b) + 1 runs.
   */
  lemma {:induction false} ChainCollectsAll(s: State, p: Payload)
    ensures var all := Eligible(s, Grace(p));
            var (end, runs, order) := Chain(s, p);
      && end == Without(s, all, all)
      && runs == |all| / BatchSize(p) + 1
      && order == Oldest(s.inventory, all, |all|)
    decreases |Eligible(s, Grace(p))|
  {
    hide Eligible, Oldest, BatchSize;
    var all, batch, b := Eligible(s, Grace(p)), Batch(s, p), BatchSize(p);
    CleanRun(s, p);
    RunShrinks(s, p);
    if Requeues(s, p) {
      var s1 := Cleaned(s, p, NoFault).0;
      ChainCollectsAll(s1, p);
      FinishSweep(s, Elements(batch), Elements(batch), all);
      OldestSplit(s.inventory, all, b, |all| - b);
      OldestFrame(s.inventory, s1.inventory, all - Elements(batch), |all| - b);
      OneMoreRun(|all|, b);
    } else {
      OldestAll(s.inventory, all, b);
      OldestBeyond(s.inventory, all, b);
      Small(|all|, b);
    }
  }

  lemma OneMoreRun(n: nat, b: nat)
    requires 0 < b <= n
    ensures (n - b) / b + 1 == n / b
  {
    var q, r := (n - b) / b, (n - b) % b;
    assert n == (q + 1) * b + r;
    QuotientUnique(n, b, q + 1, r);
  }

  lemma QuotientUnique(n: nat, b: nat, q: nat, r: nat)
    requires r < b && n == q * b + r
    ensures n / b == q
  {
    var q' := n / b;
    assert n == q' * b + n % b;
    assert q' < q ==> (q' + 1) * b <= q * b;
    assert q < q' ==> (q + 1) * b <= q' * b;
  }

  lemma Small(n: nat, b: nat)
    requires n < b
    ensures n / b == 0
  {
  }

  lemma OldestBeyond(inventory: map<Digest, Row>, all: set<Digest>, n: nat)
    requires all <= inventory.Keys && n >= |all|
    ensures Oldest(inventory, all, n) == Oldest(inventory, all, |all|)
  {
    hide Oldest;
    OldestSplit(inventory, all, |all|, n - |all|);
    OldestAll(inventory, all, |all|);
    assert all - Elements(Oldest(inventory, all, |all|)) == {};
    OldestNone(inventory, {}, 0, n - |all|);
    OldestNone(inventory, {}, n - |all|, 0);
  }

  // ---------------------------------------------------------------- failures and retries

  /** A run that fails has removed some of the eligible rows, and the objects of those and maybe one more. */
  lemma RunIsPartial(s: State, p: Payload, fault: Fault) returns (rows: set<Digest>, objects: set<Digest>)
    ensures Cleaned(s, p, fault).0 == Without(s, rows, objects)
    ensures rows <= objects <= Eligible(s, Grace(p)) <= s.inventory.Keys
  {
    var batch := Batch(s, p);
    match fault
    case QueryFails =>
      rows, objects := {}, {};
    case StorageFails(i, landed) =>
      rows := if i < |batch| then Elements(batch[..i]) else Elements(batch);
      objects := if i < |batch| then Elements(batch[..if landed then i + 1 else i]) else Elements(batch);
    case InventoryFails(i) =>
      rows := if i < |batch| then Elements(batch[..i]) else Elements(batch);
      objects := if i < |batch| then Elements(batch[..i + 1]) else Elements(batch);
    case _ =>
      rows, objects := Elements(batch), Elements(batch);
  }

  ghost function AfterRuns(s: State, p: Payload, faults: seq<Fault>): State
    decreases |faults|
  {
    if faults == [] then s else AfterRuns(Cleaned(s, p, faults[0]).0, p, faults[1..])
  }

  /** Any number of failing runs, and then a chain of retries, end where the chain alone would have ended. */
  lemma {:induction false} RetriesConverge(s: State, p: Payload, faults: seq<Fault>)
    ensures Chain(AfterRuns(s, p, faults), p).0 == Chain(s, p).0
    decreases |faults|
  {
    hide Chain, Cleaned, Eligible, Without;
    if faults != [] {
      var rows, objects := RunIsPartial(s, p, faults[0]);
      var s1 := Cleaned(s, p, faults[0]).0;
      RetriesConverge(s1, p, faults[1..]);
      ChainCollectsAll(s, p);
      ChainCollectsAll(s1, p);
      EligibleLeft(s, rows, objects, Grace(p));
      FinishSweep(s, rows, objects, Eligible(s, Grace(p)));
    }
  }

  lemma {:induction false} RunsKeepInventoried(s: State, p: Payload, faults: seq<Fault>)
    requires Inventoried(s)
    ensures Inventoried(AfterRuns(s, p, faults))
    decreases |faults|
  {
    hide Cleaned, Inventoried;
    if faults != [] {
      CleanupKeepsInventoried(s, p, faults[0]);
      RunsKeepInventoried(Cleaned(s, p, faults[0]).0, p, faults[1..]);
    }
  }

  predicate UniqueKeys(s: State) {
    forall d, d' :: d in s.inventory && d' in s.inventory && s.inventory[d].storageKey == s.inventory[d'].storageKey ==> d == d'
  }

  /** In terms of one blob: its object goes exactly if it is eligible, and then its row goes too. */
  lemma BlobSurvives(s: State, p: Payload, faults: seq<Fault>, d: Digest)
    requires UniqueKeys(s) && d in s.inventory
    ensures var end := Chain(AfterRuns(s, p, faults), p).0;
      && (s.inventory[d].storageKey in end.storage <==>
            s.inventory[d].storageKey in s.storage && (!Aged(s, d, Grace(p)) || Referenced(s, d)))
      && (d in end.inventory <==> !Aged(s, d, Grace(p)) || Referenced(s, d))
      && (d in end.inventory ==> end.inventory[d] == s.inventory[d])
  {
    hide Chain, AfterRuns, Referenced, Aged;
    RetriesConverge(s, p, faults);
    ChainCollectsAll(s, p);
    var all := Eligible(s, Grace(p));
    if s.inventory[d].storageKey in KeysOf(s, all) {
      var d' :| d' in all && s.inventory[d'].storageKey == s.inventory[d].storageKey;
      assert d == d';
    }
  }

  // ---------------------------------------------------------------- written out

  /**
   A blob's row outlives any failing runs and the chain that finishes them exactly if it was uploaded within the
   grace period, in microseconds and not below zero, or a published release refers to it as a config or a
   layer.
   */
  lemma KeptExactlyWhen(s: State, p: Payload, faults: seq<Fault>, d: Digest)
    requires UniqueKeys(s) && d in s.inventory
    ensures var hours := if p.gracePeriodHours > 0 then p.gracePeriodHours else 0;
      d in Chain(AfterRuns(s, p, faults), p).0.inventory <==>
        || s.now - s.inventory[d].lastUploadedAt < hours * 60 * 60 * 1000000
        || (exists r :: r in s.references && r.digest == d && (r.kind == Config || r.kind == Layer)
              && r.release in s.releases && s.releases[r.release] == Published)
  {
    BlobSurvives(s, p, faults, d);
    hide Chain, AfterRuns;
    InMicroseconds(Grace(p));
  }

  lemma InMicroseconds(hours: nat)
    ensures hours * HOUR == hours * 60 * 60 * 1000000
  {
  }

  /** The first character in which two digests differ tells their order; a beginning comes first. */
  lemma {:induction false} LexByFirstDifference(a: string, b: string)
    ensures LexLess(a, b) <==> a < b || exists i :: 0 <= i < |a| && i < |b| && a[..i] == b[..i] && a[i] < b[i]
  {
    if a != "" && b != "" {
      LexByFirstDifference(a[1..], b[1..]);
      assert a == [a[0]] + a[1..] && b == [b[0]] + b[1..];
      if LexLess(a, b) && a[0] == b[0] && !(a[1..] < b[1..]) {
        var i :| 0 <= i < |a[1..]| && i < |b[1..]| && a[1..][..i] == b[1..][..i] && a[1..][i] < b[1..][i];
        PrefixOneLonger(a, b, i);
      }
      if LexLess(a, b) && a[0] < b[0] {
        assert a[..0] == b[..0];
      }
      if i :| 0 <= i < |a| && i < |b| && a[..i] == b[..i] && a[i] < b[i] {
        if i > 0 {
          PrefixOneShorter(a, b, i);
        }
      }
    }
  }

  lemma PrefixOneLonger(a: string, b: string, i: nat)
    requires a != "" && b != "" && a[0] == b[0] && i < |a[1..]| && i < |b[1..]| && a[1..][..i] == b[1..][..i]
    ensures a[..i + 1] == b[..i + 1] && a[i + 1] == a[1..][i] && b[i + 1] == b[1..][i]
  {
    assert a[..i + 1] == [a[0]] + a[1..][..i] && b[..i + 1] == [b[0]] + b[1..][..i];
  }

  lemma PrefixOneShorter(a: string, b: string, i: nat)
    requires 0 < i < |a| && i < |b| && a[..i] == b[..i]
    ensures a[0] == b[0] && a[1..][..i - 1] == b[1..][..i - 1] && a[1..][i - 1] == a[i] && b[1..][i - 1] == b[i]
  {
    assert a[..i][0] == a[0] && b[..i][0] == b[0];
    assert a[1..][..i - 1] == a[..i][1..] && b[1..][..i - 1] == b[..i][1..];
  }

  /** The chain deletes from the oldest upload to the newest, and among uploads of one instant by digest. */
  lemma DeletedOldestFirst(s: State, p: Payload, i: nat, j: nat)
    requires i < j < |Chain(s, p).2|
    ensures var order := Chain(s, p).2;
      && order[i] in s.inventory && order[j] in s.inventory
      && s.inventory[order[i]].lastUploadedAt <= s.inventory[order[j]].lastUploadedAt
      && (s.inventory[order[i]].lastUploadedAt == s.inventory[order[j]].lastUploadedAt ==> LexLess(order[i], order[j]))
  {
    hide Chain, Oldest, LexLess, Referenced;
    ChainCollectsAll(s, p);
    var all := Eligible(s, Grace(p));
    OldestOrdered(s.inventory, all, |all|);
    assert Before(s.inventory, Chain(s, p).2[i], Chain(s, p).2[j]);
  }
}
