/**
 The Cargo registry over whole runs from the empty tables (crates/adapters/cargo-registry/src/routes.rs,
 crates/adapters/cargo-registry/src/metadata.rs): what the index says, what downloads return, and which
 versions a failed publish takes out of use.
 */
module CargoRuns {
  import opened Common
  import opened CargoWire
  import opened MavenNames
  import opened CargoRegistry
  import opened CargoProofs

  /** Some run of publishes, yanks, unyanks and waiting leads from the empty tables to `s`. */
  ghost predicate Reached(digest: Bytes -> string, s: State) {
    exists start: int, steps: seq<Step> :: Run(digest, Init(start), steps) && Exec(digest, Init(start), steps) == s
  }

  lemma InvAtStart(digest: Bytes -> string, start: int)
    requires SlashFreeDigest(digest)
    ensures Inv(digest, Init(start))
  {
  }

  lemma ReachedInv(digest: Bytes -> string, s: State)
    requires SlashFreeDigest(digest) && Reached(digest, s)
    ensures Inv(digest, s)
  {
    hide Inv, Run, Exec;
    var start: int, steps: seq<Step> :| Run(digest, Init(start), steps) && Exec(digest, Init(start), steps) == s;
    InvAtStart(digest, start);
    InvRun(digest, Init(start), steps);
  }

  // ---------------------------------------------------------------- the index

  /** Whatever plan the database uses, the index query has one result. */
  lemma ListingUnique(digest: Bytes -> string, s: State, p: PackageId, a: seq<Key>, b: seq<Key>)
    requires SlashFreeDigest(digest) && Reached(digest, s) && IsListing(s, p, a) && IsListing(s, p, b)
    ensures a == b
  {
    hide Inv, IsListing;
    ReachedInv(digest, s);
    OneListing(digest, s, p, a, b);
  }

  /** One line per version, in strict order of publication. */
  lemma ListingSorted(digest: Bytes -> string, s: State, p: PackageId, rows: seq<Key>)
    requires SlashFreeDigest(digest) && Reached(digest, s) && IsListing(s, p, rows)
    ensures forall i, j :: 0 <= i < j < |rows| ==> s.releases[rows[i].0].publishedAt < s.releases[rows[j].0].publishedAt
    ensures forall i, j :: 0 <= i < j < |rows| ==> Entries(s, p, rows)[i].version != Entries(s, p, rows)[j].version
  {
    hide Inv;
    ReachedInv(digest, s);
    SortedListing(digest, s, p, rows);
  }

  /**
   Publishing appends one line at the end of the crate's index, with the digest of the uploaded bytes;
   a publish that fails, or of another crate, leaves the index as it was.
   */
  lemma PublishAppendsLine(digest: Bytes -> string, s: State, p: PackageId, u: Parsed<Extra>, f: Faults, q: PackageId, rows: seq<Key>)
    requires SlashFreeDigest(digest) && Reached(digest, s)
    requires Enabled(digest, s, PublishStep(p, u, f)) && IsListing(s, q, rows)
    ensures var (s', response) := Publish(s, p, u, f);
      if response.OkResponse? && p == q then
        && IsListing(s', q, rows + [NewKey(u, f)])
        && Entries(s', q, rows + [NewKey(u, f)]) == Entries(s, q, rows) + [
             Entry(StripBuildMetadata(u.metadata.vers), if f.extra then None else Some(u.metadata.rest), digest(u.crateBytes), false)]
      else IsListing(s', q, rows) && Entries(s', q, rows) == Entries(s, q, rows)
  {
    hide Inv, Publish, IsListing, EntryOf, Enabled;
    ReachedInv(digest, s);
    PublishAppends(digest, s, p, u, f, q, rows);
  }

  /**
   Yank and unyank keep every line of every index where it is, and change one thing: the flag of the
   version they name.
   */
  lemma YankChangesOneFlag(digest: Bytes -> string, s: State, p: PackageId, version: string, yanked: bool, fault: bool, q: PackageId, rows: seq<Key>)
    requires SlashFreeDigest(digest) && Reached(digest, s) && IsListing(s, q, rows)
    ensures var (s', response) := SetYanked(s, p, version, yanked, fault);
      && IsListing(s', q, rows)
      && (forall i :: 0 <= i < |rows| ==>
            var before := Entries(s, q, rows)[i];
            Entries(s', q, rows)[i] ==
              if response.OkResponse? && p == q && before.version == version then before.(yanked := yanked) else before)
      && (response.NotFound? <==> forall r :: !Names(s, r, p, version))
  {
    hide Inv, SetYanked, IsListing, EntryOf;
    ReachedInv(digest, s);
    YankFlips(digest, s, p, version, yanked, fault, q, rows);
  }

  /** The index only ever grows at its end; a line that is there stays there, and only its flag can change. */
  lemma IndexGrows(digest: Bytes -> string, s: State, steps: seq<Step>, p: PackageId, rows: seq<Key>) returns (rows': seq<Key>)
    requires SlashFreeDigest(digest) && Reached(digest, s) && Run(digest, s, steps) && IsListing(s, p, rows)
    ensures var s' := Exec(digest, s, steps);
      && IsListing(s', p, rows') && rows <= rows'
      && (forall i :: 0 <= i < |rows| ==> SameLine(Entries(s, p, rows)[i], Entries(s', p, rows')[i]))
  {
    hide Inv, Run, Exec, IsListing, EntryOf;
    ReachedInv(digest, s);
    rows' := IndexExtends(digest, s, steps, p, rows);
  }

  // ---------------------------------------------------------------- the downloads

  /** Every listed version can be downloaded, and what comes has the listed checksum. */
  lemma DownloadMatchesIndex(digest: Bytes -> string, s: State, p: PackageId, rows: seq<Key>, i: nat, r: Result<(Bytes, string), Response>)
    requires SlashFreeDigest(digest) && Reached(digest, s) && IsListing(s, p, rows) && i < |rows|
    requires Downloads(s, p, Entries(s, p, rows)[i].version, r)
    ensures var e := Entries(s, p, rows)[i];
      r.Ok? && digest(r.value.0) == e.cksum && r.value.1 == e.cksum
  {
    hide Inv, Downloads, IsListing;
    ReachedInv(digest, s);
    DownloadMatches(digest, s, p, rows, i, r);
  }

  /** Index and downloads offer the same versions. */
  lemma OnlyListedDownloads(digest: Bytes -> string, s: State, p: PackageId, rows: seq<Key>, version: string, r: Result<(Bytes, string), Response>)
    requires SlashFreeDigest(digest) && Reached(digest, s) && IsListing(s, p, rows) && Downloads(s, p, version, r)
    ensures r.Ok? <==> exists i :: 0 <= i < |rows| && Entries(s, p, rows)[i].version == version
  {
    hide Inv, Downloads, IsListing;
    ReachedInv(digest, s);
    ListedDownloads(digest, s, p, rows, version, r);
  }

  /**
   From the request to every later download: once the body Cargo built from `json` and `crateBytes` has
   been published, each download of that version returns `crateBytes`, whatever happens in between.
   */
  lemma PublishedBytesComeBack(digest: Bytes -> string, decode: Bytes -> Option<Metadata<Extra>>, s: State, p: PackageId,
                               json: Bytes, crateBytes: Bytes, f: Faults, steps: seq<Step>, r: Result<(Bytes, string), Response>)
    requires SlashFreeDigest(digest) && Reached(digest, s) && WithinLimits(json, crateBytes)
    requires ParseCargoPublish(decode, digest, BuildPayload(json, crateBytes)).Ok?
    requires var u := ParseCargoPublish(decode, digest, BuildPayload(json, crateBytes)).value;
      && Enabled(digest, s, PublishStep(p, u, f)) && Publish(s, p, u, f).1.OkResponse?
      && Run(digest, Publish(s, p, u, f).0, steps)
      && Downloads(Exec(digest, Publish(s, p, u, f).0, steps), p, StripBuildMetadata(u.metadata.vers), r)
    ensures r == Ok((crateBytes, digest(crateBytes)))
  {
    hide Inv, Publish, Enabled, Run, Exec, Downloads, ParseCargoPublish, BuildPayload, StripBuildMetadata;
    ReachedInv(digest, s);
    PublishedBytesStay(digest, decode, s, p, json, crateBytes, f, steps, r);
  }

  // ---------------------------------------------------------------- versions out of use

  lemma HasStays(digest: Bytes -> string, s: State, step: Step, p: PackageId, version: string)
    requires Inv(digest, s) && Enabled(digest, s, step) && Has(s, p, version)
    ensures Has(Outcome(s, step).0, p, version)
  {
    hide Inv, Enabled, Outcome;
    StepKeeps(digest, s, step);
    var r :| r in s.releases && s.releases[r].package == p && s.releases[r].version == version;
    assert r in Outcome(s, step).0.releases;
  }

  lemma {:induction false} HasStaysRun(digest: Bytes -> string, s: State, steps: seq<Step>, p: PackageId, version: string)
    requires Inv(digest, s) && Run(digest, s, steps) && Has(s, p, version)
    ensures Has(Exec(digest, s, steps), p, version)
    decreases |steps|
  {
    hide Inv, Enabled, Outcome, Has;
    if steps != [] {
      HasStays(digest, s, steps[0], p, version);
      InvStep(digest, s, steps[0]);
      HasStaysRun(digest, Outcome(s, steps[0]).0, steps[1..], p, version);
    }
  }

  /** What is left of a publish under that version. */
  lemma LeftByPublish(s: State, p: PackageId, u: Parsed<Extra>, f: Faults)
    requires f.freshId !in s.releases
    ensures var s' := Publish(s, p, u, f).0; var version := StripBuildMetadata(u.metadata.vers);
      Has(s', p, version) <==> Has(s, p, version) || (!f.create && (f.put ==> f.rollback))
  {
    hide StripBuildMetadata, FileName, CrateKey;
    var s' := Publish(s, p, u, f).0;
    var version := StripBuildMetadata(u.metadata.vers);
    if f.freshId in s'.releases {
      assert s'.releases[f.freshId].package == p && s'.releases[f.freshId].version == version;
    }
    if Has(s, p, version) {
      assert s' == s;
    } else if f.create || (f.put && !f.rollback) {
      assert s'.releases == s.releases;
    }
  }

  /** The version cannot be published any more, whatever anybody does. */
  ghost predicate Burned(digest: Bytes -> string, s: State, p: PackageId, version: string) {
    forall steps, u, f :: PublishAttempt(digest, s, steps, p, version, u, f) ==>
      !Publish(Exec(digest, s, steps), p, u, f).1.OkResponse?
  }

  ghost predicate PublishAttempt(digest: Bytes -> string, s: State, steps: seq<Step>, p: PackageId, version: string, u: Parsed<Extra>, f: Faults) {
    && Run(digest, s, steps) && StripBuildMetadata(u.metadata.vers) == version
    && Enabled(digest, Exec(digest, s, steps), PublishStep(p, u, f))
  }

  lemma TakenVersionRefused(s: State, p: PackageId, u: Parsed<Extra>, f: Faults)
    requires Has(s, p, StripBuildMetadata(u.metadata.vers))
    ensures !Publish(s, p, u, f).1.OkResponse?
  {
  }

  lemma FreeVersionPublishes(s: State, p: PackageId, u: Parsed<Extra>, id: ReleaseId)
    requires !Has(s, p, StripBuildMetadata(u.metadata.vers))
    ensures Publish(s, p, u, Faults(false, false, false, false, false, false, false, id)).1.OkResponse?
  {
  }

  lemma {:induction false} FreshId(used: set<ReleaseId>) returns (id: ReleaseId)
    ensures id !in used && '/' !in id
    ensures forall r | r in used :: |r| < |id|
    decreases used
  {
    if used == {} {
      id := "a";
    } else {
      var r :| r in used;
      var other := FreshId(used - {r});
      id := if |r| < |other| then other else seq(|r| + 1, _ => 'a');
      forall q | q in used ensures |q| < |id| {
        if q != r {
          assert q in used - {r};
        }
      }
    }
  }

  /**
   A publish that failed has taken its version out of use for good exactly if the release row was
   written and, should the blob write have failed, not deleted again, or if the version was taken
   before; and what it leaves behind is listed by no index.
   */
  lemma FailedPublishBurnsVersion(digest: Bytes -> string, s: State, p: PackageId, u: Parsed<Extra>, f: Faults)
    requires SlashFreeDigest(digest) && Reached(digest, s) && Enabled(digest, s, PublishStep(p, u, f))
    requires !Publish(s, p, u, f).1.OkResponse?
    ensures var s' := Publish(s, p, u, f).0; var version := StripBuildMetadata(u.metadata.vers);
      && (Burned(digest, s', p, version) <==> Has(s, p, version) || (!f.create && (f.put ==> f.rollback)))
      && (forall q, k :: Lists(s', q, k) <==> Lists(s, q, k))
  {
    ReachedInv(digest, s);
    IdsFresh(digest, s, f.freshId);
    LeftByPublish(s, p, u, f);
    var s' := Publish(s, p, u, f).0;
    var version := StripBuildMetadata(u.metadata.vers);
    InvStep(digest, s, PublishStep(p, u, f));
    forall q, k ensures Lists(s', q, k) <==> Lists(s, q, k) {
      HiddenPublish(digest, s, p, u, f, q);
    }
    BurnedExactly(digest, s, p, u, f);
    hide Publish, Burned, Has, Lists;
  }

  lemma BurnedExactly(digest: Bytes -> string, s: State, p: PackageId, u: Parsed<Extra>, f: Faults)
    requires Inv(digest, s) && Enabled(digest, s, PublishStep(p, u, f)) && Inv(digest, Publish(s, p, u, f).0)
    ensures var s' := Publish(s, p, u, f).0; var version := StripBuildMetadata(u.metadata.vers);
      Burned(digest, s', p, version) <==> Has(s', p, version)
  {
    var s' := Publish(s, p, u, f).0;
    var version := StripBuildMetadata(u.metadata.vers);
    if Has(s', p, version) {
      TakenIsBurned(digest, s', p, version);
    } else {
      IdsFresh(digest, s, f.freshId);
      LeftByPublish(s, p, u, f);
      PublishEnds(s, p, u, f);
      FreeIsNotBurned(digest, s', p, u);
    }
  }

  lemma TakenIsBurned(digest: Bytes -> string, s: State, p: PackageId, version: string)
    requires Inv(digest, s) && Has(s, p, version)
    ensures Burned(digest, s, p, version)
  {
    hide Inv, Has, Publish, Enabled, Run, Exec;
    forall steps, u, f | PublishAttempt(digest, s, steps, p, version, u, f)
      ensures !Publish(Exec(digest, s, steps), p, u, f).1.OkResponse?
    {
      HasStaysRun(digest, s, steps, p, version);
      TakenVersionRefused(Exec(digest, s, steps), p, u, f);
    }
  }

  lemma FreeIsNotBurned(digest: Bytes -> string, s: State, p: PackageId, u: Parsed<Extra>)
    requires !Has(s, p, StripBuildMetadata(u.metadata.vers)) && u.sha256 == digest(u.crateBytes)
    requires forall r | r in s.releases :: s.releases[r].publishedAt < s.now
    ensures !Burned(digest, s, p, StripBuildMetadata(u.metadata.vers))
  {
    hide Publish, StripBuildMetadata;
    var id := FreshId(s.usedIds);
    var f := Faults(false, false, false, false, false, false, false, id);
    FreeVersionPublishes(s, p, u, id);
    assert Exec(digest, s, []) == s;
    assert PublishAttempt(digest, s, [], p, StripBuildMetadata(u.metadata.vers), u, f);
  }

  // ---------------------------------------------------------------- what each request answers and writes

  /** The answers of a publish: a version that is there is a conflict, unless the search for it fails. */
  lemma PublishAnswers(s: State, p: PackageId, u: Parsed<Extra>, f: Faults)
    ensures var response := Publish(s, p, u, f).1;
            var taken := exists r :: r in s.releases && s.releases[r].package == p && s.releases[r].version == StripBuildMetadata(u.metadata.vers);
      && (response == Conflict <==> taken && !f.search)
      && (response == OkResponse <==> !taken && !f.create && !f.put && !f.artifact && !f.finalize)
      && (response == Conflict || response == OkResponse || response == InternalError)
      && (response == Conflict ==> Publish(s, p, u, f).0 == s)
  {
    hide StripBuildMetadata, FileName, CrateKey;
  }

  /** What a publish that goes through writes: the release, its one artifact, the bytes under its key and the index extras. */
  lemma PublishWrites(s: State, p: PackageId, u: Parsed<Extra>, f: Faults)
    requires Publish(s, p, u, f).1.OkResponse?
    ensures var version := StripBuildMetadata(u.metadata.vers);
            var file := u.metadata.name + "-" + version + ".crate";
            var key := "releases/" + (f.freshId + ("/artifacts/" + (u.sha256 + ("/" + file))));
      Publish(s, p, u, f).0 == s.(
        releases := s.releases[f.freshId := Release(p, version, Published, false, s.now)],
        artifacts := s.artifacts[(f.freshId, file) := Artifact(key, u.sha256, |u.crateBytes|)],
        extras := if f.extra then s.extras else s.extras[f.freshId := u.metadata.rest],
        blobs := s.blobs[key := u.crateBytes],
        usedIds := s.usedIds + {f.freshId})
  {
    hide StripBuildMetadata, Has;
    KeyWrittenOut(f.freshId, u.sha256, FileName(u));
  }

  lemma KeyWrittenOut(release: string, sha256: string, file: string)
    ensures StorageKey(release, sha256, file) == "releases/" + (release + ("/artifacts/" + (sha256 + ("/" + file))))
  {
    assert "/" + ("artifacts/" + (sha256 + ("/" + file))) == "/artifacts/" + (sha256 + ("/" + file));
  }

  /** Only releases in quarantine are hidden from index, download, yank and unyank. */
  lemma OnlyQuarantineHidden(r: Release)
    ensures Visible(r) <==> r.status != Quarantine
  {
  }

  /** Yank and unyank write the status and the flag of the one visible release of that version. */
  lemma YankWrites(digest: Bytes -> string, s: State, r: ReleaseId, fault: bool)
    requires SlashFreeDigest(digest) && Reached(digest, s) && r in s.releases && s.releases[r].status != Quarantine
    ensures var p, version := s.releases[r].package, s.releases[r].version;
      && SetYanked(s, p, version, true, fault) ==
           (if fault then (s, InternalError)
            else (s.(releases := s.releases[r := s.releases[r].(status := Yanked, yanked := true)]), OkResponse))
      && SetYanked(s, p, version, false, fault) ==
           (if fault then (s, InternalError)
            else (s.(releases := s.releases[r := s.releases[r].(status := Published, yanked := false)]), OkResponse))
  {
    ReachedInv(digest, s);
    var found := FindRelease(s, s.releases[r].package, s.releases[r].version);
    assert Names(s, r, s.releases[r].package, s.releases[r].version);
    OnePerVersion(digest, s, found.value, r);
    hide Inv;
  }

  lemma OnePerVersion(digest: Bytes -> string, s: State, r: ReleaseId, r': ReleaseId)
    requires Inv(digest, s) && r in s.releases && r' in s.releases
    ensures s.releases[r].package == s.releases[r'].package && s.releases[r].version == s.releases[r'].version ==> r == r'
  {
    assert r != r' ==> Distinct(s, r, r');
  }
}
