/**
 The Cargo index and the downloads agree (crates/adapters/cargo-registry/src/routes.rs,
 crates/adapters/cargo-registry/src/metadata.rs), over all sequential runs of publish, yank and unyank
 in which every publish reads a later clock than the ones before.
 */
module CargoProofs {
  import opened Common
  import opened CargoWire
  import opened MavenNames
  import opened CargoRegistry

  datatype Step =
    | PublishStep(package: PackageId, upload: Parsed<Extra>, faults: Faults)
    | YankStep(package: PackageId, version: string, yanked: bool, fault: bool)
    | Tick(seconds: nat)

  ghost predicate Enabled(digest: Bytes -> string, s: State, step: Step) {
    step.PublishStep? ==>
      && step.upload.sha256 == digest(step.upload.crateBytes)
      && step.faults.freshId !in s.usedIds && '/' !in step.faults.freshId
      && (forall r | r in s.releases :: s.releases[r].publishedAt < s.now)
  }

  ghost function Outcome(s: State, step: Step): (State, Response) {
    match step
    case PublishStep(p, u, f) => Publish(s, p, u, f)
    case YankStep(p, version, yanked, fault) => SetYanked(s, p, version, yanked, fault)
    case Tick(seconds) => (s.(now := s.now + seconds), OkResponse)
  }

  ghost predicate Run(digest: Bytes -> string, s: State, steps: seq<Step>)
    decreases |steps|
  {
    steps == [] || (Enabled(digest, s, steps[0]) && Run(digest, Outcome(s, steps[0]).0, steps[1..]))
  }

  ghost function Exec(digest: Bytes -> string, s: State, steps: seq<Step>): State
    requires Run(digest, s, steps)
    decreases |steps|
  {
    if steps == [] then s else Exec(digest, Outcome(s, steps[0]).0, steps[1..])
  }

  // ---------------------------------------------------------------- the invariant

  ghost predicate SlashFreeDigest(digest: Bytes -> string) {
    forall b :: '/' !in digest(b)
  }

  ghost predicate ArtifactSound(digest: Bytes -> string, s: State, k: Key)
    requires k in s.artifacts
  {
    var a := s.artifacts[k];
    && k.0 in s.releases
    && '/' !in a.sha256
    && a.storageKey == StorageKey(k.0, a.sha256, k.1)
    && a.storageKey in s.blobs
    && digest(s.blobs[a.storageKey]) == a.sha256
    && |s.blobs[a.storageKey]| == a.size
  }

  ghost predicate ReleaseSound(s: State, r: ReleaseId)
    requires r in s.releases
  {
    && r in s.usedIds && '/' !in r
    && (s.releases[r].yanked <==> s.releases[r].status.Yanked?)
    && (Visible(s.releases[r]) ==> exists k :: k in s.artifacts && k.0 == r)
  }

  ghost predicate Distinct(s: State, r: ReleaseId, r': ReleaseId)
    requires r in s.releases && r' in s.releases
  {
    && s.releases[r].publishedAt != s.releases[r'].publishedAt
    && !(s.releases[r].package == s.releases[r'].package && s.releases[r].version == s.releases[r'].version)
  }

  ghost predicate Inv(digest: Bytes -> string, s: State) {
    && SlashFreeDigest(digest)
    && (forall k | k in s.artifacts :: ArtifactSound(digest, s, k))
    && (forall r | r in s.releases :: ReleaseSound(s, r))
    && (forall r, r' | r in s.releases && r' in s.releases && r != r' :: Distinct(s, r, r'))
    && (forall k, k' | k in s.artifacts && k' in s.artifacts && k.0 == k'.0 :: k == k')
    && s.extras.Keys <= s.usedIds
  }

  // ---------------------------------------------------------------- the three ends of a publish

  function NewRow(s: State, p: PackageId, u: Parsed<Extra>, status: Status): Release {
    Release(p, StripBuildMetadata(u.metadata.vers), status, false, s.now)
  }

  function NewKey(u: Parsed<Extra>, f: Faults): Key {
    (f.freshId, FileName(u))
  }

  function WithBlob(s: State, u: Parsed<Extra>, f: Faults): map<string, Bytes> {
    s.blobs[CrateKey(f.freshId, u) := u.crateBytes]
  }

  /** Refused, or created and deleted again. */
  predicate Dropped(s: State, s': State, f: Faults) {
    s' == s.(usedIds := s'.usedIds) && (s'.usedIds == s.usedIds || s'.usedIds == s.usedIds + {f.freshId})
  }

  /** A release in quarantine without an artifact is left behind. */
  predicate LeftBare(s: State, s': State, p: PackageId, u: Parsed<Extra>, f: Faults) {
    && s' == s.(releases := s.releases[f.freshId := NewRow(s, p, u, Quarantine)], usedIds := s.usedIds + {f.freshId}, blobs := s'.blobs)
    && (s'.blobs == s.blobs || s'.blobs == WithBlob(s, u, f))
    && !Has(s, p, StripBuildMetadata(u.metadata.vers))
  }

  predicate Recorded(s: State, s': State, p: PackageId, u: Parsed<Extra>, f: Faults, status: Status) {
    && s' == State(s.now, s.releases[f.freshId := NewRow(s, p, u, status)],
                   s.artifacts[NewKey(u, f) := Artifact(CrateKey(f.freshId, u), u.sha256, |u.crateBytes|)],
                   if f.extra then s.extras else s.extras[f.freshId := u.metadata.rest],
                   WithBlob(s, u, f), s.usedIds + {f.freshId})
    && !Has(s, p, StripBuildMetadata(u.metadata.vers))
  }

  lemma PublishEnds(s: State, p: PackageId, u: Parsed<Extra>, f: Faults)
    requires f.freshId !in s.releases
    ensures var (s', response) := Publish(s, p, u, f);
      if response.OkResponse? then Recorded(s, s', p, u, f, Published)
      else Dropped(s, s', f) || LeftBare(s, s', p, u, f) || Recorded(s, s', p, u, f, Quarantine)
  {
    hide StripBuildMetadata, FileName, CrateKey, Has;
    assert s.releases - {f.freshId} == s.releases;
  }

  lemma IdsFresh(digest: Bytes -> string, s: State, id: ReleaseId)
    requires Inv(digest, s) && id !in s.usedIds
    ensures id !in s.releases && id !in s.extras && forall k | k in s.artifacts :: k.0 != id
  {
    assert forall r | r in s.releases :: ReleaseSound(s, r);
    assert forall k | k in s.artifacts :: ArtifactSound(digest, s, k);
  }

  /** A new crate's bytes go under a key of their own. */
  lemma BlobKept(digest: Bytes -> string, s: State, u: Parsed<Extra>, f: Faults, k: Key)
    requires Inv(digest, s) && u.sha256 == digest(u.crateBytes) && f.freshId !in s.usedIds && '/' !in f.freshId
    requires k in s.artifacts
    ensures s.artifacts[k].storageKey in s.blobs
    ensures WithBlob(s, u, f)[s.artifacts[k].storageKey] == s.blobs[s.artifacts[k].storageKey]
  {
    hide FileName, StorageKey;
    IdsFresh(digest, s, f.freshId);
    assert ArtifactSound(digest, s, k);
    assert ReleaseSound(s, k.0);
    if CrateKey(f.freshId, u) == s.artifacts[k].storageKey {
      StorageKeyInjective(f.freshId, u.sha256, FileName(u), k.0, s.artifacts[k].sha256, k.1);
    }
  }

  /** What a step leaves alone: rows up to status and flag, artifacts, and the bytes under their keys. */
  ghost predicate Keeps(s: State, s': State) {
    && (forall r | r in s.releases :: r in s'.releases && SameRow(s.releases[r], s'.releases[r]))
    && (forall k | k in s.artifacts :: k in s'.artifacts && s'.artifacts[k] == s.artifacts[k])
    && (forall k | k in s.artifacts && s.artifacts[k].storageKey in s.blobs ::
          s.artifacts[k].storageKey in s'.blobs && s'.blobs[s.artifacts[k].storageKey] == s.blobs[s.artifacts[k].storageKey])
    && (forall k | k in s.artifacts && k.0 in s.extras :: k.0 in s'.extras && s'.extras[k.0] == s.extras[k.0])
    && (forall k | k in s.artifacts && k.0 !in s.extras :: k.0 !in s'.extras)
  }

  predicate SameRow(a: Release, b: Release) {
    a.package == b.package && a.version == b.version && a.publishedAt == b.publishedAt && (Visible(a) ==> Visible(b))
  }

  lemma PublishKeeps(digest: Bytes -> string, s: State, p: PackageId, u: Parsed<Extra>, f: Faults)
    requires Inv(digest, s) && Enabled(digest, s, PublishStep(p, u, f))
    ensures Keeps(s, Publish(s, p, u, f).0)
  {
    hide StripBuildMetadata, FileName, CrateKey, Has, Inv, Publish;
    IdsFresh(digest, s, f.freshId);
    PublishEnds(s, p, u, f);
    forall k | k in s.artifacts ensures s.artifacts[k].storageKey in s.blobs
      && WithBlob(s, u, f)[s.artifacts[k].storageKey] == s.blobs[s.artifacts[k].storageKey]
    {
      BlobKept(digest, s, u, f, k);
    }
    hide WithBlob;
  }

  lemma StepKeeps(digest: Bytes -> string, s: State, step: Step)
    requires Inv(digest, s) && Enabled(digest, s, step)
    ensures Keeps(s, Outcome(s, step).0)
  {
    hide Has, Inv, Publish;
    if step.PublishStep? {
      PublishKeeps(digest, s, step.package, step.upload, step.faults);
      hide Keeps;
    }
  }

  lemma PublishedArtifactSound(digest: Bytes -> string, s: State, p: PackageId, u: Parsed<Extra>, f: Faults, k: Key)
    requires Inv(digest, s) && Enabled(digest, s, PublishStep(p, u, f)) && k in Publish(s, p, u, f).0.artifacts
    ensures ArtifactSound(digest, Publish(s, p, u, f).0, k)
  {
    hide StripBuildMetadata, FileName, Has, Publish, StorageKey;
    IdsFresh(digest, s, f.freshId);
    PublishEnds(s, p, u, f);
    PublishKeeps(digest, s, p, u, f);
    if k in s.artifacts {
      assert ArtifactSound(digest, s, k);
    }
  }

  lemma PublishedReleaseSound(digest: Bytes -> string, s: State, p: PackageId, u: Parsed<Extra>, f: Faults, r: ReleaseId)
    requires Inv(digest, s) && Enabled(digest, s, PublishStep(p, u, f)) && r in Publish(s, p, u, f).0.releases
    ensures ReleaseSound(Publish(s, p, u, f).0, r)
  {
    hide StripBuildMetadata, FileName, Has, Publish, CrateKey, ArtifactSound, Distinct, WithBlob;
    var s' := Publish(s, p, u, f).0;
    IdsFresh(digest, s, f.freshId);
    PublishEnds(s, p, u, f);
    if r in s.releases {
      assert ReleaseSound(s, r);
      if Visible(s.releases[r]) {
        var k :| k in s.artifacts && k.0 == r;
        assert k in s'.artifacts;
      }
    } else if Visible(s'.releases[r]) {
      assert NewKey(u, f) in s'.artifacts;
    }
  }

  lemma PublishedDistinct(digest: Bytes -> string, s: State, p: PackageId, u: Parsed<Extra>, f: Faults, r: ReleaseId, r': ReleaseId)
    requires Inv(digest, s) && Enabled(digest, s, PublishStep(p, u, f))
    requires r in Publish(s, p, u, f).0.releases && r' in Publish(s, p, u, f).0.releases && r != r'
    ensures Distinct(Publish(s, p, u, f).0, r, r')
  {
    hide StripBuildMetadata, FileName, Publish, CrateKey, ArtifactSound, ReleaseSound;
    IdsFresh(digest, s, f.freshId);
    PublishEnds(s, p, u, f);
    if r in s.releases && r' in s.releases {
      assert Distinct(s, r, r');
    }
  }

  lemma PublishedKeys(digest: Bytes -> string, s: State, p: PackageId, u: Parsed<Extra>, f: Faults)
    requires Inv(digest, s) && Enabled(digest, s, PublishStep(p, u, f))
    ensures var s' := Publish(s, p, u, f).0;
      && (forall k, k' | k in s'.artifacts && k' in s'.artifacts && k.0 == k'.0 :: k == k')
      && s'.extras.Keys <= s'.usedIds
  {
    hide Publish, ArtifactSound, ReleaseSound, Distinct, CrateKey, FileName, StripBuildMetadata, Has, WithBlob;
    IdsFresh(digest, s, f.freshId);
    PublishEnds(s, p, u, f);
  }

  lemma PublishInv(digest: Bytes -> string, s: State, p: PackageId, u: Parsed<Extra>, f: Faults)
    requires Inv(digest, s) && Enabled(digest, s, PublishStep(p, u, f))
    ensures Inv(digest, Publish(s, p, u, f).0)
  {
    hide Publish, ArtifactSound, ReleaseSound, Distinct, Enabled;
    var s' := Publish(s, p, u, f).0;
    PublishedKeys(digest, s, p, u, f);
    forall k | k in s'.artifacts ensures ArtifactSound(digest, s', k) {
      PublishedArtifactSound(digest, s, p, u, f, k);
    }
    forall r | r in s'.releases ensures ReleaseSound(s', r) {
      PublishedReleaseSound(digest, s, p, u, f, r);
    }
    forall r, r' | r in s'.releases && r' in s'.releases && r != r' ensures Distinct(s', r, r') {
      PublishedDistinct(digest, s, p, u, f, r, r');
    }
  }

  lemma SetStatusInv(digest: Bytes -> string, s: State, r: ReleaseId, yanked: bool)
    requires Inv(digest, s) && r in s.releases && Visible(s.releases[r])
    ensures Inv(digest, SetStatus(s, r, if yanked then Yanked else Published, yanked))
  {
    var s' := SetStatus(s, r, if yanked then Yanked else Published, yanked);
    forall k | k in s'.artifacts ensures ArtifactSound(digest, s', k) {
      assert ArtifactSound(digest, s, k);
    }
    hide ArtifactSound;
    forall q | q in s'.releases ensures ReleaseSound(s', q) {
      assert ReleaseSound(s, q);
    }
    forall q, q' | q in s'.releases && q' in s'.releases && q != q' ensures Distinct(s', q, q') {
      assert Distinct(s, q, q');
    }
  }

  lemma InvStep(digest: Bytes -> string, s: State, step: Step)
    requires Inv(digest, s) && Enabled(digest, s, step)
    ensures Inv(digest, Outcome(s, step).0)
  {
    hide Publish, Inv, SetStatus;
    match step
    case PublishStep(p, u, f) =>
      PublishInv(digest, s, p, u, f);
    case YankStep(p, version, yanked, fault) =>
      if FindRelease(s, p, version).Some? {
        SetStatusInv(digest, s, FindRelease(s, p, version).value, yanked);
      }
    case Tick(seconds) =>
      TickInv(digest, s, seconds);
  }

  lemma TickInv(digest: Bytes -> string, s: State, seconds: nat)
    requires Inv(digest, s)
    ensures Inv(digest, s.(now := s.now + seconds))
  {
    var s' := s.(now := s.now + seconds);
    forall k | k in s'.artifacts ensures ArtifactSound(digest, s', k) {
      assert ArtifactSound(digest, s, k);
    }
    forall r | r in s'.releases ensures ReleaseSound(s', r) {
      assert ReleaseSound(s, r);
    }
    forall q, q' | q in s'.releases && q' in s'.releases && q != q' ensures Distinct(s', q, q') {
      assert Distinct(s, q, q');
    }
  }

  lemma {:induction false} InvRun(digest: Bytes -> string, s: State, steps: seq<Step>)
    requires Inv(digest, s) && Run(digest, s, steps)
    ensures Inv(digest, Exec(digest, s, steps))
    decreases |steps|
  {
    hide Inv, Outcome, Enabled;
    if steps != [] {
      InvStep(digest, s, steps[0]);
      InvRun(digest, Outcome(s, steps[0]).0, steps[1..]);
    }
  }

  // ---------------------------------------------------------------- the listing is one sequence

  lemma HasOne(b: seq<Key>)
    requires b != []
    ensures exists k :: k in b
  {
    assert b[0] in b;
  }

  lemma WithoutLast(rank: Key -> int, a: seq<Key>, init: seq<Key>, x: Key)
    requires a == init + [x] && forall i, j :: 0 <= i < j < |a| ==> rank(a[i]) < rank(a[j])
    ensures forall k :: k in init <==> k in a && k != x
  {
    forall k | k in init ensures k in a && k != x {
      var i :| 0 <= i < |init| && init[i] == k;
      assert a[i] == k && a[|init|] == x;
    }
  }

  lemma {:induction false} SortedUnique(rank: Key -> int, a: seq<Key>, b: seq<Key>)
    requires forall i, j :: 0 <= i < j < |a| ==> rank(a[i]) < rank(a[j])
    requires forall i, j :: 0 <= i < j < |b| ==> rank(b[i]) < rank(b[j])
    requires forall k :: k in a <==> k in b
    ensures a == b
  {
    if a == [] {
      if b != [] {
        HasOne(b);
      }
    } else {
      assert a[|a| - 1] in b && b[|b| - 1] in a;
      var x, y := a[|a| - 1], b[|b| - 1];
      assert x == y;
      var a', b' := a[..|a| - 1], b[..|b| - 1];
      assert a == a' + [x] && b == b' + [x];
      WithoutLast(rank, a, a', x);
      WithoutLast(rank, b, b', x);
      SortedUnique(rank, a', b');
    }
  }

  /** Whatever plan the database uses, the index query returns the same rows in the same order. */
  lemma OneListing(digest: Bytes -> string, s: State, p: PackageId, a: seq<Key>, b: seq<Key>)
    requires Inv(digest, s) && IsListing(s, p, a) && IsListing(s, p, b)
    ensures a == b
  {
    var rank := (k: Key) => if k.0 in s.releases then s.releases[k.0].publishedAt else 0;
    SortedListing(digest, s, p, a);
    SortedListing(digest, s, p, b);
    hide Inv;
    forall k ensures k in a <==> k in b {
      assert k in a ==> Lists(s, p, k);
      assert k in b ==> Lists(s, p, k);
    }
    SortedUnique(rank, a, b);
  }

  /** One line per version, in strict order of publication. */
  lemma SortedListing(digest: Bytes -> string, s: State, p: PackageId, rows: seq<Key>)
    requires Inv(digest, s) && IsListing(s, p, rows)
    ensures forall i, j :: 0 <= i < j < |rows| ==> s.releases[rows[i].0].publishedAt < s.releases[rows[j].0].publishedAt
    ensures forall i, j :: 0 <= i < j < |rows| ==> Entries(s, p, rows)[i].version != Entries(s, p, rows)[j].version
  {
    hide ArtifactSound, ReleaseSound;
    forall i, j | 0 <= i < j < |rows|
      ensures s.releases[rows[i].0].publishedAt < s.releases[rows[j].0].publishedAt
      ensures s.releases[rows[i].0].version != s.releases[rows[j].0].version
    {
      assert Lists(s, p, rows[i]) && Lists(s, p, rows[j]);
      assert rows[i] != rows[j];
      assert Distinct(s, rows[i].0, rows[j].0);
    }
  }

  // ---------------------------------------------------------------- what the steps do to the index

  lemma SameListing(s: State, s': State, p: PackageId, rows: seq<Key>)
    requires IsListing(s, p, rows)
    requires forall k :: Lists(s', p, k) <==> Lists(s, p, k)
    requires forall k :: Lists(s, p, k) ==> k.0 in s'.releases && s'.releases[k.0].publishedAt == s.releases[k.0].publishedAt
    ensures IsListing(s', p, rows)
  {
    forall k | k in s'.artifacts && Lists(s', p, k) ensures k in rows {
      assert k in s.artifacts by { ListedIsRecorded(s, p, k); }
    }
    forall i | 0 <= i < |rows| ensures Lists(s', p, rows[i]) && s'.releases[rows[i].0].publishedAt == s.releases[rows[i].0].publishedAt {
      assert Lists(s, p, rows[i]);
    }
  }

  lemma ListedIsRecorded(s: State, p: PackageId, k: Key)
    requires Lists(s, p, k)
    ensures k in s.artifacts && k.0 in s.releases
  {
  }

  /** What a failed publish leaves behind, or a publish of another crate, does not show up. */
  lemma HiddenPublish(digest: Bytes -> string, s: State, p: PackageId, u: Parsed<Extra>, f: Faults, q: PackageId)
    requires Inv(digest, s) && Enabled(digest, s, PublishStep(p, u, f))
    requires !Publish(s, p, u, f).1.OkResponse? || p != q
    ensures var s' := Publish(s, p, u, f).0;
      && (forall k :: Lists(s', q, k) <==> Lists(s, q, k))
      && (forall k :: Lists(s, q, k) ==> k.0 in s'.releases && s'.releases[k.0].publishedAt == s.releases[k.0].publishedAt && EntryOf(s', k) == EntryOf(s, k))
  {
    hide FileName, CrateKey, Publish, StripBuildMetadata, Has, WithBlob, ArtifactSound, ReleaseSound, Distinct;
    IdsFresh(digest, s, f.freshId);
    PublishEnds(s, p, u, f);
    hide Inv;
  }

  predicate UnchangedBefore(s: State, s': State, k: Key, time: int) {
    && k in s.artifacts && k.0 in s.releases && k in s'.artifacts && k.0 in s'.releases
    && s'.releases[k.0] == s.releases[k.0] && EntryOf(s', k) == EntryOf(s, k)
    && s.releases[k.0].publishedAt < time
  }

  lemma SamePublishedRows(digest: Bytes -> string, s: State, p: PackageId, u: Parsed<Extra>, f: Faults, k: Key)
    requires Inv(digest, s) && Enabled(digest, s, PublishStep(p, u, f)) && Publish(s, p, u, f).1.OkResponse?
    ensures var s' := Publish(s, p, u, f).0;
      && (Lists(s', p, k) <==> Lists(s, p, k) || k == NewKey(u, f))
      && (Lists(s, p, k) ==> UnchangedBefore(s, s', k, s.now))
  {
    hide FileName, CrateKey, Publish, StripBuildMetadata, Has, WithBlob, ArtifactSound, ReleaseSound, Distinct;
    IdsFresh(digest, s, f.freshId);
    PublishEnds(s, p, u, f);
    hide Inv;
  }

  /**
   Publishing appends one line at the end of the crate's index, with the digest of the uploaded bytes;
   a publish that fails, or of another crate, leaves the index as it was.
   */
  lemma PublishAppends(digest: Bytes -> string, s: State, p: PackageId, u: Parsed<Extra>, f: Faults, q: PackageId, rows: seq<Key>)
    requires Inv(digest, s) && Enabled(digest, s, PublishStep(p, u, f)) && IsListing(s, q, rows)
    ensures var (s', response) := Publish(s, p, u, f);
      if response.OkResponse? && p == q then
        && IsListing(s', q, rows + [NewKey(u, f)])
        && Entries(s', q, rows + [NewKey(u, f)]) == Entries(s, q, rows) + [
             Entry(StripBuildMetadata(u.metadata.vers), if f.extra then None else Some(u.metadata.rest), digest(u.crateBytes), false)]
      else IsListing(s', q, rows) && Entries(s', q, rows) == Entries(s, q, rows)
  {
    hide Publish, Inv, Lists, EntryOf, Enabled;
    var (s', response) := Publish(s, p, u, f);
    if response.OkResponse? && p == q {
      AppendedListing(digest, s, p, u, f, rows);
    } else {
      HiddenPublish(digest, s, p, u, f, q);
      SameListing(s, s', q, rows);
    }
  }

  lemma AppendedListing(digest: Bytes -> string, s: State, p: PackageId, u: Parsed<Extra>, f: Faults, rows: seq<Key>)
    requires Inv(digest, s) && Enabled(digest, s, PublishStep(p, u, f)) && IsListing(s, p, rows)
    requires Publish(s, p, u, f).1.OkResponse?
    ensures var s' := Publish(s, p, u, f).0;
      && IsListing(s', p, rows + [NewKey(u, f)])
      && Entries(s', p, rows + [NewKey(u, f)]) == Entries(s, p, rows) + [
           Entry(StripBuildMetadata(u.metadata.vers), if f.extra then None else Some(u.metadata.rest), digest(u.crateBytes), false)]
  {
    hide Publish, StripBuildMetadata, FileName, CrateKey, Inv, Has;
    var s' := Publish(s, p, u, f).0;
    var k0 := NewKey(u, f);
    IdsFresh(digest, s, f.freshId);
    PublishEnds(s, p, u, f);
    assert Lists(s', p, k0) && !Lists(s, p, k0) && s'.releases[k0.0].publishedAt == s.now;
    assert EntryOf(s', k0) == Entry(StripBuildMetadata(u.metadata.vers), if f.extra then None else Some(u.metadata.rest), digest(u.crateBytes), false);
    forall k ensures (Lists(s', p, k) <==> Lists(s, p, k) || k == k0)
      && (Lists(s, p, k) ==> UnchangedBefore(s, s', k, s.now))
    {
      SamePublishedRows(digest, s, p, u, f, k);
    }
    AppendsRow(s, s', p, rows, k0);
  }

  lemma AppendsRow(s: State, s': State, p: PackageId, rows: seq<Key>, k0: Key)
    requires IsListing(s, p, rows) && Lists(s', p, k0) && !Lists(s, p, k0)
    requires forall k :: Lists(s', p, k) <==> Lists(s, p, k) || k == k0
    requires forall k :: Lists(s, p, k) ==> UnchangedBefore(s, s', k, s'.releases[k0.0].publishedAt)
    ensures IsListing(s', p, rows + [k0])
    ensures Entries(s', p, rows + [k0]) == Entries(s, p, rows) + [EntryOf(s', k0)]
  {
    hide EntryOf;
    var rows' := rows + [k0];
    forall i | 0 <= i < |rows| ensures Lists(s', p, rows[i]) && rows[i] != k0 && UnchangedBefore(s, s', rows[i], s'.releases[k0.0].publishedAt) {
      assert Lists(s, p, rows[i]);
    }
  }

  /**
   Yank and unyank keep every line of every index where it is, and change one thing: the flag of the
   version they name.
   */
  lemma YankFlips(digest: Bytes -> string, s: State, p: PackageId, version: string, yanked: bool, fault: bool, q: PackageId, rows: seq<Key>)
    requires Inv(digest, s) && IsListing(s, q, rows)
    ensures var (s', response) := SetYanked(s, p, version, yanked, fault);
      && IsListing(s', q, rows)
      && (forall i :: 0 <= i < |rows| ==>
            var before := Entries(s, q, rows)[i];
            Entries(s', q, rows)[i] ==
              if response.OkResponse? && p == q && before.version == version then before.(yanked := yanked) else before)
      && (response.NotFound? <==> forall r :: !Names(s, r, p, version))
  {
    hide ArtifactSound, ReleaseSound;
    var (s', response) := SetYanked(s, p, version, yanked, fault);
    forall k ensures Lists(s', q, k) <==> Lists(s, q, k) {
    }
    SameListing(s, s', q, rows);
    forall i | 0 <= i < |rows|
      ensures EntryOf(s', rows[i]) ==
        if response.OkResponse? && p == q && s.releases[rows[i].0].version == version then EntryOf(s, rows[i]).(yanked := yanked)
        else EntryOf(s, rows[i])
    {
      assert Lists(s, q, rows[i]);
      if FindRelease(s, p, version).Some? && FindRelease(s, p, version).value != rows[i].0 {
        assert Distinct(s, FindRelease(s, p, version).value, rows[i].0);
      }
    }
  }

  // ---------------------------------------------------------------- over whole runs

  predicate SameLine(a: Entry, b: Entry) {
    a.(yanked := b.yanked) == b
  }

  /** The index only ever grows at its end; a line that is there stays there, and only its flag can change. */
  lemma {:induction false} IndexExtends(digest: Bytes -> string, s: State, steps: seq<Step>, p: PackageId, rows: seq<Key>) returns (rows': seq<Key>)
    requires Inv(digest, s) && Run(digest, s, steps) && IsListing(s, p, rows)
    ensures var s' := Exec(digest, s, steps);
      && IsListing(s', p, rows') && rows <= rows'
      && (forall i :: 0 <= i < |rows| ==> SameLine(Entries(s, p, rows)[i], Entries(s', p, rows')[i]))
    decreases |steps|
  {
    hide Inv, Outcome, Enabled, IsListing, EntryOf, Lists;
    if steps == [] {
      return rows;
    }
    InvStep(digest, s, steps[0]);
    var next := IndexStep(digest, s, steps[0], p, rows);
    rows' := IndexExtends(digest, Outcome(s, steps[0]).0, steps[1..], p, next);
  }

  lemma IndexStep(digest: Bytes -> string, s: State, step: Step, p: PackageId, rows: seq<Key>) returns (rows': seq<Key>)
    requires Inv(digest, s) && Enabled(digest, s, step) && IsListing(s, p, rows)
    ensures var s' := Outcome(s, step).0;
      && IsListing(s', p, rows') && rows <= rows'
      && (forall i :: 0 <= i < |rows| ==> SameLine(Entries(s, p, rows)[i], Entries(s', p, rows')[i]))
  {
    hide Inv, Publish, SetYanked, Enabled, Lists;
    match step
    case PublishStep(q, u, f) =>
      PublishAppends(digest, s, q, u, f, p, rows);
      rows' := if Publish(s, q, u, f).1.OkResponse? && q == p then rows + [NewKey(u, f)] else rows;
      hide IsListing, EntryOf;
      forall i | 0 <= i < |rows| ensures Entries(Publish(s, q, u, f).0, p, rows')[i] == Entries(s, p, rows)[i] {
      }
    case YankStep(q, version, yanked, fault) =>
      YankFlips(digest, s, q, version, yanked, fault, p, rows);
      rows' := rows;
    case Tick(seconds) =>
      rows' := rows;
      TickListing(s, seconds, p, rows);
  }

  lemma TickListing(s: State, seconds: nat, p: PackageId, rows: seq<Key>)
    requires IsListing(s, p, rows)
    ensures var s' := s.(now := s.now + seconds);
      IsListing(s', p, rows) && forall i :: 0 <= i < |rows| ==> EntryOf(s', rows[i]) == EntryOf(s, rows[i])
  {
    var s' := s.(now := s.now + seconds);
    assert forall k :: Lists(s', p, k) <==> Lists(s, p, k);
    SameListing(s, s', p, rows);
  }

  // ---------------------------------------------------------------- the index and the download

  /** Every listed version can be downloaded, and what comes has the listed checksum. */
  lemma DownloadMatches(digest: Bytes -> string, s: State, p: PackageId, rows: seq<Key>, i: nat, r: Result<(Bytes, string), Response>)
    requires Inv(digest, s) && IsListing(s, p, rows) && i < |rows|
    requires Downloads(s, p, Entries(s, p, rows)[i].version, r)
    ensures var e := Entries(s, p, rows)[i];
      r.Ok? && digest(r.value.0) == e.cksum && r.value.1 == e.cksum
  {
    hide ReleaseSound, StorageKey;
    var k := rows[i];
    assert Lists(s, p, k);
    assert Serves(s, k, p, s.releases[k.0].version);
    assert ArtifactSound(digest, s, k);
    forall k' | k' in s.artifacts && Serves(s, k', p, s.releases[k.0].version) ensures k' == k {
      assert k'.0 != k.0 ==> Distinct(s, k'.0, k.0);
    }
  }

  /** A download of anything that is not listed is refused, so index and downloads offer the same versions. */
  lemma ListedDownloads(digest: Bytes -> string, s: State, p: PackageId, rows: seq<Key>, version: string, r: Result<(Bytes, string), Response>)
    requires Inv(digest, s) && IsListing(s, p, rows) && Downloads(s, p, version, r)
    ensures r.Ok? <==> exists i :: 0 <= i < |rows| && Entries(s, p, rows)[i].version == version
  {
    hide Inv, ArtifactSound, ReleaseSound;
    if r.Ok? {
      var k :| k in s.artifacts && Serves(s, k, p, version);
      assert k in rows;
      var i :| 0 <= i < |rows| && rows[i] == k;
      assert Entries(s, p, rows)[i].version == version;
    }
    if i :| 0 <= i < |rows| && Entries(s, p, rows)[i].version == version {
      DownloadMatches(digest, s, p, rows, i, r);
    }
  }

  /**
   From the request to every later download: once the body Cargo built from `json` and `crateBytes` has
   been published, each download of that version returns `crateBytes`, whatever happens in between.
   */
  lemma PublishedBytesStay(digest: Bytes -> string, decode: Bytes -> Option<Metadata<Extra>>, s: State, p: PackageId,
                               json: Bytes, crateBytes: Bytes, f: Faults, steps: seq<Step>, r: Result<(Bytes, string), Response>)
    requires Inv(digest, s) && WithinLimits(json, crateBytes)
    requires ParseCargoPublish(decode, digest, BuildPayload(json, crateBytes)).Ok?
    requires var u := ParseCargoPublish(decode, digest, BuildPayload(json, crateBytes)).value;
      && Enabled(digest, s, PublishStep(p, u, f)) && Publish(s, p, u, f).1.OkResponse?
      && Run(digest, Publish(s, p, u, f).0, steps)
      && Downloads(Exec(digest, Publish(s, p, u, f).0, steps), p, StripBuildMetadata(u.metadata.vers), r)
    ensures r == Ok((crateBytes, digest(crateBytes)))
  {
    hide StripBuildMetadata, FileName, Has, Inv, Split, BuildPayload, WithinLimits;
    var u := ParseCargoPublish(decode, digest, BuildPayload(json, crateBytes)).value;
    SplitOfBuilt(json, crateBytes, []);
    assert BuildPayload(json, crateBytes) + [] == BuildPayload(json, crateBytes);
    assert u.crateBytes == crateBytes && u.sha256 == digest(crateBytes);
    IdsFresh(digest, s, f.freshId);
    PublishEnds(s, p, u, f);
    InvStep(digest, s, PublishStep(p, u, f));
    var s1 := Publish(s, p, u, f).0;
    hide Publish, CrateKey, ParseCargoPublish;
    var k := NewKey(u, f);
    assert Serves(s1, k, p, StripBuildMetadata(u.metadata.vers));
    ServedForever(digest, s1, steps, p, StripBuildMetadata(u.metadata.vers), k, r);
  }

  /** A row that is served keeps being the one that is served, with the same bytes. */
  lemma {:induction false} ServedForever(digest: Bytes -> string, s: State, steps: seq<Step>, p: PackageId, version: string, k: Key,
                                         r: Result<(Bytes, string), Response>)
    requires Inv(digest, s) && Run(digest, s, steps) && Serves(s, k, p, version)
    requires k in s.artifacts && s.artifacts[k].storageKey in s.blobs
    requires Downloads(Exec(digest, s, steps), p, version, r)
    ensures r == Ok((s.blobs[s.artifacts[k].storageKey], s.artifacts[k].sha256))
    decreases |steps|
  {
    if steps == [] {
      hide ArtifactSound, ReleaseSound;
      forall k' | k' in s.artifacts && Serves(s, k', p, version) ensures k' == k {
        assert k'.0 != k.0 ==> Distinct(s, k'.0, k.0);
      }
    } else {
      hide Inv, Outcome, Enabled, Downloads;
      InvStep(digest, s, steps[0]);
      StepKeeps(digest, s, steps[0]);
      ServedForever(digest, Outcome(s, steps[0]).0, steps[1..], p, version, k, r);
    }
  }
}
