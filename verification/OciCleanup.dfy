/**
 The OCI blob collector (crates/api/src/job_handlers.rs, `cleanup_oci_blob_batch` and
 `CleanupOciBlobsHandler::handle`): one batch per job, which enqueues its own successor.
 */
module OciCleanup {
  import opened Common

  type Digest = string
  type ReleaseId = nat

  datatype ReleaseStatus = Published | OtherStatus

  datatype RefKind = Config | Layer | OtherRef

  datatype Reference = Reference(release: ReleaseId, kind: RefKind, digest: Digest)

  datatype Row = Row(storageKey: string, lastUploadedAt: int)

  /** `storage` holds the keys that have an object. */
  datatype State = State(
    now: int,
    references: set<Reference>,
    releases: map<ReleaseId, ReleaseStatus>,
    inventory: map<Digest, Row>,
    storage: set<string>)

  datatype Payload = Payload(gracePeriodHours: int, batchSize: int)

  /** Where a run of the job fails.  A failing delete of an object may have deleted it. */
  datatype Fault =
    | NoFault
    | QueryFails
    | StorageFails(at: nat, landed: bool)
    | InventoryFails(at: nat)
    | EnqueueFails

  const HOUR := 3_600_000_000

  function Grace(p: Payload): nat {
    if p.gracePeriodHours < 0 then 0 else p.gracePeriodHours
  }

  function BatchSize(p: Payload): (n: nat)
    ensures 1 <= n <= 1000
    ensures 1 <= p.batchSize <= 1000 ==> n == p.batchSize
    ensures p.batchSize < 1 ==> n == 1
    ensures p.batchSize > 1000 ==> n == 1000
  {
    if p.batchSize < 1 then 1 else if p.batchSize > 1000 then 1000 else p.batchSize
  }

  // ---------------------------------------------------------------- candidates

  predicate Referenced(s: State, d: Digest) {
    exists r :: r in s.references && r.digest == d && (r.kind.Config? || r.kind.Layer?)
      && r.release in s.releases && s.releases[r.release].Published?
  }

  predicate Aged(s: State, d: Digest, grace: nat)
    requires d in s.inventory
  {
    s.inventory[d].lastUploadedAt <= s.now - grace * HOUR
  }

  /** The aged blobs that no published release refers to. */
  ghost function Eligible(s: State, grace: nat): set<Digest> {
    set d | d in s.inventory && Aged(s, d, grace) && !Referenced(s, d)
  }

  predicate LexLess(a: string, b: string) {
    b != "" && (a == "" || a[0] < b[0] || (a[0] == b[0] && LexLess(a[1..], b[1..])))
  }

  /** ORDER BY last_uploaded_at, digest. */
  predicate Before(inventory: map<Digest, Row>, a: Digest, b: Digest)
    requires a in inventory && b in inventory
  {
    || inventory[a].lastUploadedAt < inventory[b].lastUploadedAt
    || (inventory[a].lastUploadedAt == inventory[b].lastUploadedAt && LexLess(a, b))
  }

  predicate IsFirst(inventory: map<Digest, Row>, all: set<Digest>, m: Digest)
    requires all <= inventory.Keys
  {
    m in all && forall d | d in all && d != m :: Before(inventory, m, d)
  }

  lemma {:induction false} LexTotal(a: string, b: string)
    ensures a == b || LexLess(a, b) || LexLess(b, a)
    ensures LexLess(a, b) ==> !LexLess(b, a) && a != b
  {
    if a != "" && b != "" && a[0] == b[0] {
      LexTotal(a[1..], b[1..]);
      assert a == [a[0]] + a[1..] && b == [b[0]] + b[1..];
    }
  }

  lemma {:induction false} LexTransitive(a: string, b: string, c: string)
    requires LexLess(a, b) && LexLess(b, c)
    ensures LexLess(a, c)
  {
    if a != "" && a[0] == b[0] && b[0] == c[0] {
      LexTransitive(a[1..], b[1..], c[1..]);
    }
  }

  lemma {:induction false} FirstExists(inventory: map<Digest, Row>, all: set<Digest>) returns (m: Digest)
    requires all <= inventory.Keys && all != {}
    ensures IsFirst(inventory, all, m)
    decreases all
  {
    var d :| d in all;
    if all == {d} {
      m := d;
    } else {
      var rest := all - {d};
      m := FirstExists(inventory, rest);
      LexTotal(d, m);
      if Before(inventory, d, m) {
        forall e | e in all && e != d ensures Before(inventory, d, e) {
          if e != m {
            assert Before(inventory, m, e);
            if LexLess(d, m) && LexLess(m, e) {
              LexTransitive(d, m, e);
            }
          }
        }
        m := d;
      } else {
        assert forall e | e in all && e != m :: e == d || e in rest;
      }
    }
  }

  lemma FirstUnique(inventory: map<Digest, Row>, all: set<Digest>, m: Digest, m': Digest)
    requires all <= inventory.Keys && IsFirst(inventory, all, m) && IsFirst(inventory, all, m')
    ensures m == m'
  {
    LexTotal(m, m');
  }

  /** The first `n` of `all` in query order. */
  ghost function Oldest(inventory: map<Digest, Row>, all: set<Digest>, n: nat): (r: seq<Digest>)
    requires all <= inventory.Keys
    ensures |r| == if n < |all| then n else |all|
    ensures forall d :: d in r ==> d in all
    ensures forall i, j :: 0 <= i < j < |r| ==> r[i] != r[j]
    decreases n
  {
    if n == 0 || all == {} then []
    else
      assert exists m :: IsFirst(inventory, all, m) by {
        var m := FirstExists(inventory, all);
      }
      var m :| IsFirst(inventory, all, m);
      [m] + Oldest(inventory, all - {m}, n - 1)
  }

  lemma OldestUnfold(inventory: map<Digest, Row>, all: set<Digest>, n: nat, m: Digest)
    requires all <= inventory.Keys && n > 0 && IsFirst(inventory, all, m)
    ensures Oldest(inventory, all, n) == [m] + Oldest(inventory, all - {m}, n - 1)
  {
    var r := Oldest(inventory, all, n);
    assert exists m' :: IsFirst(inventory, all, m') && r == [m'] + Oldest(inventory, all - {m'}, n - 1);
    var m' :| IsFirst(inventory, all, m') && r == [m'] + Oldest(inventory, all - {m'}, n - 1);
    FirstUnique(inventory, all, m, m');
  }

  /** In order, and nothing that is left out comes before anything that is in. */
  lemma {:induction false} OldestOrdered(inventory: map<Digest, Row>, all: set<Digest>, n: nat)
    requires all <= inventory.Keys
    ensures var r := Oldest(inventory, all, n);
      && (forall i, j :: 0 <= i < j < |r| ==> Before(inventory, r[i], r[j]))
      && (forall d, e | d in r && e in all && e !in r :: Before(inventory, d, e))
    decreases n
  {
    hide Oldest, Before;
    if n > 0 && all != {} {
      var m := FirstExists(inventory, all);
      OldestOrdered(inventory, all - {m}, n - 1);
      OldestUnfold(inventory, all, n, m);
      FirstInFront(inventory, all, m, Oldest(inventory, all - {m}, n - 1));
    }
  }

  lemma FirstInFront(inventory: map<Digest, Row>, all: set<Digest>, m: Digest, tail: seq<Digest>)
    requires all <= inventory.Keys && IsFirst(inventory, all, m) && forall d :: d in tail ==> d in all && d != m
    requires forall i, j :: 0 <= i < j < |tail| ==> Before(inventory, tail[i], tail[j])
    requires forall d, e | d in tail && e in all - {m} && e !in tail :: Before(inventory, d, e)
    ensures var r := [m] + tail;
      && (forall i, j :: 0 <= i < j < |r| ==> Before(inventory, r[i], r[j]))
      && (forall d, e | d in r && e in all && e !in r :: Before(inventory, d, e))
  {
    hide Before;
    var r := [m] + tail;
    forall i, j | 0 <= i < j < |r| ensures Before(inventory, r[i], r[j]) {
      if i == 0 {
        assert r[j] == tail[j - 1];
      } else {
        assert r[i] == tail[i - 1] && r[j] == tail[j - 1];
      }
    }
  }

  /** What the candidate query returns. */
  ghost function Batch(s: State, p: Payload): (r: seq<Digest>)
    ensures forall d :: d in r ==> d in s.inventory
  {
    Oldest(s.inventory, Eligible(s, Grace(p)), BatchSize(p))
  }

  // ---------------------------------------------------------------- what a run does

  function Elements(ds: seq<Digest>): set<Digest> {
    set d | d in ds
  }

  function KeysOf(s: State, ds: set<Digest>): set<string> {
    set d | d in ds && d in s.inventory :: s.inventory[d].storageKey
  }

  /** The tables and the object store without some blobs. */
  function Without(s: State, rows: set<Digest>, objects: set<Digest>): State {
    s.(inventory := s.inventory - rows, storage := s.storage - KeysOf(s, objects))
  }

  /** The state after one run, and the number of blobs it cleaned unless it failed. */
  ghost function Cleaned(s: State, p: Payload, fault: Fault): (State, Option<nat>) {
    var batch := Batch(s, p);
    match fault
    case QueryFails => (s, None)
    case StorageFails(i, landed) =>
      if i < |batch| then (Without(s, Elements(batch[..i]), Elements(batch[..if landed then i + 1 else i])), None)
      else (Without(s, Elements(batch), Elements(batch)), Some(|batch|))
    case InventoryFails(i) =>
      if i < |batch| then (Without(s, Elements(batch[..i]), Elements(batch[..i + 1])), None)
      else (Without(s, Elements(batch), Elements(batch)), Some(|batch|))
    case _ => (Without(s, Elements(batch), Elements(batch)), Some(|batch|))
  }

  class Collector {
    const references: set<Reference>
    const releases: map<ReleaseId, ReleaseStatus>
    var now: int
    var inventory: map<Digest, Row>
    var storage: set<string>
    /** The follow-up jobs enqueued so far. */
    var queue: seq<Payload>

    constructor (s: State)
      ensures Tables() == s && queue == []
    {
      references, releases := s.references, s.releases;
      now, inventory, storage, queue := s.now, s.inventory, s.storage, [];
    }

    function Tables(): State
      reads this
    {
      State(now, references, releases, inventory, storage)
    }

    /** `candidates` is what the database returns for the query, unless that fails. */
    method CleanupOciBlobBatch(p: Payload, candidates: seq<Digest>, fault: Fault) returns (cleaned: Option<nat>)
      requires candidates == Batch(Tables(), p)
      modifies this`inventory, this`storage
      ensures Cleaned(old(Tables()), p, fault) == (Tables(), cleaned)
    {
      hide Batch, Referenced;
      if fault.QueryFails? {
        return None;
      }
      ghost var was := Tables();
      for i := 0 to |candidates|
        invariant inventory == was.inventory - Elements(candidates[..i])
        invariant storage == was.storage - KeysOf(was, Elements(candidates[..i]))
        invariant (fault.StorageFails? || fault.InventoryFails?) ==> fault.at >= i
      {
        var d := candidates[i];
        DistinctPrefix(was, p, i);
        ElementsNext(was, candidates, i);
        var key := inventory[d].storageKey;
        if fault.StorageFails? && fault.at == i {
          if fault.landed {
            storage := storage - {key};
            assert storage == was.storage - KeysOf(was, Elements(candidates[..i + 1]));
          }
          return None;
        }
        storage := storage - {key};
        assert storage == was.storage - KeysOf(was, Elements(candidates[..i + 1]));
        if fault.InventoryFails? && fault.at == i {
          return None;
        }
        inventory := inventory - {d};
      }
      assert candidates[..|candidates|] == candidates;
      return Some(|candidates|);
    }

    /** The job: a full batch enqueues the job again. */
    method Handle(p: Payload, candidates: seq<Digest>, fault: Fault) returns (ok: bool)
      requires candidates == Batch(Tables(), p)
      modifies this`inventory, this`storage, this`queue
      ensures Tables() == Cleaned(old(Tables()), p, fault).0
      ensures ok == (Cleaned(old(Tables()), p, fault).1.Some?
                     && (fault.EnqueueFails? ==> |candidates| < BatchSize(p)))
      ensures queue == if ok && |candidates| == BatchSize(p) then old(queue) + [p] else old(queue)
    {
      var cleaned := CleanupOciBlobBatch(p, candidates, fault);
      if cleaned.None? {
        return false;
      }
      if cleaned.value >= BatchSize(p) {
        if fault.EnqueueFails? {
          return false;
        }
        queue := queue + [p];
      }
      return true;
    }
  }

  lemma DistinctPrefix(s: State, p: Payload, i: nat)
    requires i < |Batch(s, p)|
    ensures Batch(s, p)[i] in s.inventory && Batch(s, p)[i] !in Elements(Batch(s, p)[..i])
  {
  }

  lemma ElementsNext(s: State, ds: seq<Digest>, i: nat)
    requires i < |ds| && ds[i] in s.inventory
    ensures Elements(ds[..i + 1]) == Elements(ds[..i]) + {ds[i]}
    ensures KeysOf(s, Elements(ds[..i + 1])) == KeysOf(s, Elements(ds[..i])) + {s.inventory[ds[i]].storageKey}
    ensures s.inventory - Elements(ds[..i + 1]) == (s.inventory - Elements(ds[..i])) - {ds[i]}
  {
    assert ds[..i + 1] == ds[..i] + [ds[i]];
  }

  // ---------------------------------------------------------------- every stored blob has a row

  predicate Inventoried(s: State) {
    forall key :: key in s.storage ==> exists d :: d in s.inventory && s.inventory[d].storageKey == key
  }

  /** No failure loses track of a stored blob: the object goes first, its row second. */
  lemma CleanupKeepsInventoried(s: State, p: Payload, fault: Fault)
    requires Inventoried(s)
    ensures Inventoried(Cleaned(s, p, fault).0)
  {
    hide Batch, Referenced;
    var batch := Batch(s, p);
    var rows, objects: set<Digest> :| Cleaned(s, p, fault).0 == Without(s, rows, objects) && rows <= objects;
    WithoutKeepsInventoried(s, rows, objects);
  }

  lemma WithoutKeepsInventoried(s: State, rows: set<Digest>, objects: set<Digest>)
    requires Inventoried(s) && rows <= objects
    ensures Inventoried(Without(s, rows, objects))
  {
    var s' := Without(s, rows, objects);
    forall key | key in s'.storage ensures exists d :: d in s'.inventory && s'.inventory[d].storageKey == key {
      var d :| d in s.inventory && s.inventory[d].storageKey == key;
      assert d !in objects;
      assert d in s'.inventory;
    }
  }
}
