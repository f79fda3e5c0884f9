/**
 What interleaved Maven deploys keep (crates/adapters/maven/src/routes.rs,
 crates/adapters/maven/src/publish.rs).
 */
module MavenProofs {
  import opened Common
  import opened MavenNames
  import opened MavenDeploy

  /** All that is asked of the digest, which is written in hex: it has no slash. */
  ghost predicate SlashFreeDigest(digest: Bytes -> string) {
    forall b :: '/' !in digest(b)
  }

  ghost predicate BlobHolds(digest: Bytes -> string, s: State, key: string, sha256: string) {
    key in s.blobs && digest(s.blobs[key]) == sha256
  }

  ghost predicate ArtifactSound(digest: Bytes -> string, s: State, k: (ReleaseId, string))
    requires k in s.artifacts
  {
    var a := s.artifacts[k];
    && k.0 in s.releases
    && a.storageKey == StorageKey(k.0, a.sha256, k.1)
    && '/' !in a.sha256
    && BlobHolds(digest, s, a.storageKey, a.sha256)
    && (a.kind.JarKind? || a.kind.PomKind? <==> Target(k.1).None?)
    && (Target(k.1).Some? ==> (k.0, Target(k.1).value) in s.artifacts)
  }

  predicate HasContext(pc: Pc) {
    !pc.Resolving? && !pc.Creating? && !pc.Reloading? && !pc.Done?
  }

  predicate TargetChecked(pc: Pc) {
    HasContext(pc) && !pc.CheckingTarget?
  }

  ghost predicate PutSound(digest: Bytes -> string, s: State, p: PutId)
    requires p in s.puts
  {
    var u := s.puts[p].upload;
    var pc := s.puts[p].pc;
    && Parsed(digest, u)
    && (HasContext(pc) ==> pc.ctx.release in s.usedIds)
    && (TargetChecked(pc) && pc.ctx.release in s.releases && Target(u.filename).Some? ==>
          (pc.ctx.release, Target(u.filename).value) in s.artifacts)
    && (pc.Inserting? ==> BlobHolds(digest, s, KeyOf(pc.ctx.release, u), u.sha256))
  }

  ghost predicate Inv(digest: Bytes -> string, s: State) {
    && SlashFreeDigest(digest)
    && s.releases.Keys <= s.usedIds
    && (forall r | r in s.usedIds :: '/' !in r)
    && (forall r, r' | r in s.releases && r' in s.releases && s.releases[r].package == s.releases[r'].package
          && s.releases[r].version == s.releases[r'].version :: r == r')
    && (forall k | k in s.artifacts :: ArtifactSound(digest, s, k))
    && (forall p | p in s.puts :: PutSound(digest, s, p))
  }

  /** Writing a blob under an upload's key leaves every other holder of that key with the right bytes. */
  lemma BlobStaysRight(digest: Bytes -> string, s: State, u: Upload, release: ReleaseId,
                       r: ReleaseId, sha256: string, f: string)
    requires SlashFreeDigest(digest) && Parsed(digest, u) && '/' !in release && '/' !in r && '/' !in sha256
    requires BlobHolds(digest, s, StorageKey(r, sha256, f), sha256)
    ensures BlobHolds(digest, s.(blobs := s.blobs[KeyOf(release, u) := u.bytes]), StorageKey(r, sha256, f), sha256)
  {
    if KeyOf(release, u) == StorageKey(r, sha256, f) {
      StorageKeyInjective(release, u.sha256, u.filename, r, sha256, f);
    }
  }

  // ---------------------------------------------------------------- one step

  lemma FrameIds(digest: Bytes -> string, s: State, step: Step)
    requires Enabled(digest, s, step)
    ensures var s' := Apply(digest, s, step);
      && s.usedIds <= s'.usedIds
      && (forall r | r in s'.usedIds :: r in s.usedIds || '/' !in r)
      && (forall r | r in s'.releases :: r in s.releases || (r !in s.usedIds && r in s'.usedIds))
  {
    hide Parsed, FindRelease, KeyOf, MakeArtifact, NextPc;
  }

  lemma FrameRows(digest: Bytes -> string, s: State, step: Step)
    requires Enabled(digest, s, step)
    ensures var s' := Apply(digest, s, step);
      && (forall k | k in s.artifacts && k in s'.artifacts :: s'.artifacts[k] == s.artifacts[k])
      && (forall k | k in s.artifacts && k !in s'.artifacts :: k.0 !in s'.releases)
      && (forall k | k in s.artifacts && k in s'.artifacts && k.0 in s.releases :: k.0 in s'.releases)
  {
    hide Parsed, FindRelease, KeyOf, MakeArtifact, NextPc;
  }

  /** Rows disappear only with their release, and neither a row nor an id is ever reused. */
  lemma StepFrame(digest: Bytes -> string, s: State, step: Step)
    requires Inv(digest, s) && Enabled(digest, s, step)
    ensures var s' := Apply(digest, s, step);
      && s.usedIds <= s'.usedIds && s'.releases.Keys <= s'.usedIds
      && (forall r | r in s'.releases && r in s.usedIds :: r in s.releases)
      && (forall k | k in s.artifacts && k.0 in s'.releases :: k in s'.artifacts && s'.artifacts[k] == s.artifacts[k])
      && (forall k | k in s'.artifacts && k in s.artifacts :: s'.artifacts[k] == s.artifacts[k] && k.0 in s'.releases)
      && (forall r | r in s'.usedIds :: '/' !in r)
  {
    FrameIds(digest, s, step);
    FrameRows(digest, s, step);
    hide Apply, Enabled, SlashFreeDigest, PutSound;
    forall k | k in s.artifacts ensures k.0 in s.releases {
      assert ArtifactSound(digest, s, k);
    }
    hide ArtifactSound;
  }

  predicate WritesBlob(s: State, step: Step) {
    step.Advance? && step.put in s.puts && s.puts[step.put].pc.StoringBlob? && (!step.choice.fault || step.choice.landed)
  }

  lemma FrameBlobs(digest: Bytes -> string, s: State, step: Step)
    requires Enabled(digest, s, step)
    ensures Apply(digest, s, step).blobs ==
      if WritesBlob(s, step)
      then s.blobs[KeyOf(s.puts[step.put].pc.ctx.release, s.puts[step.put].upload) := s.puts[step.put].upload.bytes]
      else s.blobs
  {
    hide Parsed, FindRelease, KeyOf, MakeArtifact, NextPc;
  }

  lemma StepBlobs(digest: Bytes -> string, s: State, step: Step, r: ReleaseId, sha256: string, f: string)
    requires Inv(digest, s) && Enabled(digest, s, step)
    requires '/' !in r && '/' !in sha256 && BlobHolds(digest, s, StorageKey(r, sha256, f), sha256)
    ensures BlobHolds(digest, Apply(digest, s, step), StorageKey(r, sha256, f), sha256)
  {
    FrameBlobs(digest, s, step);
    hide Apply, Enabled, ArtifactSound, StorageKey;
    if WritesBlob(s, step) {
      assert PutSound(digest, s, step.put);
      hide Parsed;
      BlobStaysRight(digest, s, s.puts[step.put].upload, s.puts[step.put].pc.ctx.release, r, sha256, f);
    }
  }

  lemma ReleasesUniqueStep(digest: Bytes -> string, s: State, step: Step, r: ReleaseId, r': ReleaseId)
    requires Inv(digest, s) && Enabled(digest, s, step)
    requires var s' := Apply(digest, s, step);
      r in s'.releases && r' in s'.releases && s'.releases[r].package == s'.releases[r'].package
      && s'.releases[r].version == s'.releases[r'].version
    ensures r == r'
  {
    hide SlashFreeDigest, ArtifactSound, PutSound, Parsed;
    if step.Advance? && s.puts[step.put].pc.Creating? {
      var u := s.puts[step.put].upload;
      assert forall id | id in s.releases :: !Matches(s, u, id) || FindRelease(s, u).Some?;
    }
  }

  predicate InsertsRow(s: State, step: Step, k: (ReleaseId, string)) {
    && step.Advance? && step.put in s.puts && s.puts[step.put].pc.Inserting?
    && k == (s.puts[step.put].pc.ctx.release, s.puts[step.put].upload.filename)
  }

  lemma NewRowsAreInserted(digest: Bytes -> string, s: State, step: Step, k: (ReleaseId, string))
    requires Enabled(digest, s, step) && k in Apply(digest, s, step).artifacts && k !in s.artifacts
    ensures InsertsRow(s, step, k) && k.0 in s.releases
    ensures Apply(digest, s, step).artifacts[k] == MakeArtifact(k.0, s.puts[step.put].upload)
    ensures k.0 in Apply(digest, s, step).releases
  {
    hide Parsed;
  }

  lemma OldArtifactSound(digest: Bytes -> string, s: State, step: Step, k: (ReleaseId, string))
    requires Inv(digest, s) && Enabled(digest, s, step) && k in s.artifacts && k in Apply(digest, s, step).artifacts
    ensures ArtifactSound(digest, Apply(digest, s, step), k)
  {
    hide Apply, Enabled, PutSound, StorageKey, Target, SlashFreeDigest;
    StepFrame(digest, s, step);
    assert ArtifactSound(digest, s, k);
    var a := s.artifacts[k];
    StepBlobs(digest, s, step, k.0, a.sha256, k.1);
  }

  lemma NewArtifactSound(digest: Bytes -> string, s: State, step: Step, k: (ReleaseId, string))
    requires Inv(digest, s) && Enabled(digest, s, step) && k !in s.artifacts && k in Apply(digest, s, step).artifacts
    ensures ArtifactSound(digest, Apply(digest, s, step), k)
  {
    hide Apply, Enabled, StorageKey, Target, Classify, BlobHolds;
    StepFrame(digest, s, step);
    NewRowsAreInserted(digest, s, step, k);
    assert PutSound(digest, s, step.put);
    var u := s.puts[step.put].upload;
    assert '/' !in u.sha256;
    hide SlashFreeDigest;
    ClassifiedTarget(u.artifactId, u.version, u.filename);
    StepBlobs(digest, s, step, k.0, u.sha256, u.filename);
  }

  // ---------------------------------------------------------------- the PUTs in flight

  lemma FramePuts(digest: Bytes -> string, s: State, step: Step, p: PutId)
    requires Enabled(digest, s, step) && p in s.puts && !(step.Advance? && step.put == p)
    ensures p in Apply(digest, s, step).puts && Apply(digest, s, step).puts[p] == s.puts[p]
  {
    hide Parsed, FindRelease, Effect, NextPc;
  }

  lemma OtherPutSound(digest: Bytes -> string, s: State, step: Step, p: PutId)
    requires Inv(digest, s) && Enabled(digest, s, step) && p in s.puts && !(step.Advance? && step.put == p)
    ensures p in Apply(digest, s, step).puts && PutSound(digest, Apply(digest, s, step), p)
  {
    hide Apply, Enabled, StorageKey, Target, Classify, ArtifactSound;
    StepFrame(digest, s, step);
    FramePuts(digest, s, step, p);
    assert PutSound(digest, s, p);
    var u := s.puts[p].upload;
    if s.puts[p].pc.Inserting? {
      StepBlobs(digest, s, step, s.puts[p].pc.ctx.release, u.sha256, u.filename);
    }
  }

  /** Where a PUT can come from: it keeps the release it resolved, and passes the target check once. */
  lemma NextPcSound(digest: Bytes -> string, s: State, p: PutId, c: Choice)
    requires CanAdvance(s, p, c) && s.releases.Keys <= s.usedIds
    requires Classify(s.puts[p].upload.artifactId, s.puts[p].upload.version, s.puts[p].upload.filename) == Ok(s.puts[p].upload.role)
    ensures var pc := s.puts[p].pc; var pc' := NextPc(s, p, c); var u := s.puts[p].upload;
      && (HasContext(pc') ==>
            || pc'.ctx.release in s.usedIds
            || (HasContext(pc) && pc'.ctx == pc.ctx)
            || (CreatesRelease(s, p, c) && pc'.ctx.release == c.freshId))
      && (TargetChecked(pc') && Target(u.filename).Some? ==>
            || (TargetChecked(pc) && pc'.ctx == pc.ctx)
            || (pc.CheckingTarget? && pc'.ctx == pc.ctx && (pc.ctx.release, Target(u.filename).value) in s.artifacts))
      && (pc'.Inserting? ==> pc.StoringBlob? && !c.fault && pc'.ctx == pc.ctx)
  {
    hide Classify, Target, FindRelease, AcceptsNewArtifacts;
    var u := s.puts[p].upload;
    ClassifiedTarget(u.artifactId, u.version, u.filename);
  }

  lemma OwnPutSound(digest: Bytes -> string, s: State, p: PutId, c: Choice)
    requires Inv(digest, s) && Enabled(digest, s, Advance(p, c))
    ensures PutSound(digest, Apply(digest, s, Advance(p, c)), p)
  {
    hide StorageKey, Target, Classify, ArtifactSound, NextPc, FindRelease;
    StepFrame(digest, s, Advance(p, c));
    FrameBlobs(digest, s, Advance(p, c));
    assert PutSound(digest, s, p);
    NextPcSound(digest, s, p, c);
  }

  ghost predicate CreatesRelease(s: State, p: PutId, c: Choice) {
    CanAdvance(s, p, c) && s.puts[p].pc.Creating? && !Aborts(s.puts[p].upload, s.puts[p].pc, c) && FindRelease(s, s.puts[p].upload).None?
  }

  lemma PutSoundStep(digest: Bytes -> string, s: State, step: Step, p: PutId)
    requires Inv(digest, s) && Enabled(digest, s, step) && p in Apply(digest, s, step).puts
    ensures PutSound(digest, Apply(digest, s, step), p)
  {
    hide Parsed, Inv, ArtifactSound, FindRelease, Effect, NextPc;
    if step.Advance? && step.put == p {
      OwnPutSound(digest, s, p, step.choice);
    } else if p in s.puts {
      OtherPutSound(digest, s, step, p);
    }
  }

  lemma InvStep(digest: Bytes -> string, s: State, step: Step)
    requires Inv(digest, s) && Enabled(digest, s, step)
    ensures Inv(digest, Apply(digest, s, step))
  {
    hide Apply, Enabled, ArtifactSound, PutSound, SlashFreeDigest;
    var s' := Apply(digest, s, step);
    StepFrame(digest, s, step);
    forall r, r' | r in s'.releases && r' in s'.releases && s'.releases[r].package == s'.releases[r'].package
      && s'.releases[r].version == s'.releases[r'].version ensures r == r'
    {
      ReleasesUniqueStep(digest, s, step, r, r');
    }
    forall k | k in s'.artifacts ensures ArtifactSound(digest, s', k) {
      if k in s.artifacts {
        OldArtifactSound(digest, s, step, k);
      } else {
        NewArtifactSound(digest, s, step, k);
      }
    }
    forall p | p in s'.puts ensures PutSound(digest, s', p) {
      PutSoundStep(digest, s, step, p);
    }
  }

  lemma {:induction false} InvRun(digest: Bytes -> string, s: State, steps: seq<Step>)
    requires Inv(digest, s) && Run(digest, s, steps)
    ensures Inv(digest, Exec(digest, s, steps))
    decreases |steps|
  {
    hide Inv, Apply, Enabled;
    if steps != [] {
      InvStep(digest, s, steps[0]);
      InvRun(digest, Apply(digest, s, steps[0]), steps[1..]);
    }
  }

  // ---------------------------------------------------------------- the theorems

  /**
   Interleaved PUTs, with failing statements and blob writes: every recorded artifact's storage key
   holds bytes with the recorded digest.
   */
  lemma RecordedBytesMatch(digest: Bytes -> string, start: int, steps: seq<Step>, k: (ReleaseId, string))
    requires SlashFreeDigest(digest) && Run(digest, Init(start), steps)
    requires k in Exec(digest, Init(start), steps).artifacts
    ensures var s := Exec(digest, Init(start), steps); var a := s.artifacts[k];
      && a.storageKey in s.blobs
      && digest(s.blobs[a.storageKey]) == a.sha256
  {
    InvRun(digest, Init(start), steps);
    assert ArtifactSound(digest, Exec(digest, Init(start), steps), k);
  }

  lemma RowHasRelease(digest: Bytes -> string, s: State, k: (ReleaseId, string))
    requires Inv(digest, s) && k in s.artifacts
    ensures k.0 in s.releases && k.0 in s.usedIds
  {
    assert ArtifactSound(digest, s, k);
  }

  /** As long as its release exists, a recorded file keeps its row: digest, size and key included. */
  lemma {:induction false} RecordedStays(digest: Bytes -> string, s: State, steps: seq<Step>, k: (ReleaseId, string))
    requires Inv(digest, s) && Run(digest, s, steps)
    requires k.0 in s.usedIds && (k.0 in s.releases ==> k in s.artifacts)
    ensures var s' := Exec(digest, s, steps);
      k.0 in s'.releases ==> k in s.artifacts && k in s'.artifacts && s'.artifacts[k] == s.artifacts[k]
    decreases |steps|
  {
    hide Inv, Apply, Enabled;
    if steps != [] {
      var s1 := Apply(digest, s, steps[0]);
      StepFrame(digest, s, steps[0]);
      InvStep(digest, s, steps[0]);
      RecordedStays(digest, s1, steps[1..], k);
      if k in s1.artifacts {
        RowHasRelease(digest, s1, k);
      }
    }
  }

  lemma RecordedNeverChanges(digest: Bytes -> string, start: int, before: seq<Step>, after: seq<Step>, k: (ReleaseId, string))
    requires SlashFreeDigest(digest) && Run(digest, Init(start), before)
    requires Run(digest, Exec(digest, Init(start), before), after)
    requires k in Exec(digest, Init(start), before).artifacts
    ensures var s := Exec(digest, Init(start), before);
            var s' := Exec(digest, s, after);
      k.0 in s'.releases ==> k in s'.artifacts && s'.artifacts[k] == s.artifacts[k]
  {
    InvRun(digest, Init(start), before);
    var s := Exec(digest, Init(start), before);
    assert ArtifactSound(digest, s, k);
    RecordedStays(digest, s, after, k);
  }

  /**
   Following targets from any recorded checksum or signature reaches a recorded primary or POM file
   of the same release, in as many steps as the name has such suffixes.
   */
  lemma {:induction false} TargetsReachRecordedFile(digest: Bytes -> string, s: State, k: (ReleaseId, string))
    requires Inv(digest, s) && k in s.artifacts
    ensures var root := (k.0, RootFile(k.1));
      root in s.artifacts && (s.artifacts[root].kind.JarKind? || s.artifacts[root].kind.PomKind?)
    decreases |k.1|
  {
    assert ArtifactSound(digest, s, k);
    if Target(k.1).Some? {
      TargetsReachRecordedFile(digest, s, (k.0, Target(k.1).value));
    }
  }

  lemma EveryRecordedTargetRecorded(digest: Bytes -> string, start: int, steps: seq<Step>, k: (ReleaseId, string))
    requires SlashFreeDigest(digest) && Run(digest, Init(start), steps)
    requires k in Exec(digest, Init(start), steps).artifacts
    ensures var s := Exec(digest, Init(start), steps);
            var root := (k.0, RootFile(k.1));
      && (Target(k.1).Some? ==> (k.0, Target(k.1).value) in s.artifacts)
      && root in s.artifacts && (s.artifacts[root].kind.JarKind? || s.artifacts[root].kind.PomKind?)
  {
    InvRun(digest, Init(start), steps);
    var s := Exec(digest, Init(start), steps);
    assert ArtifactSound(digest, s, k);
    TargetsReachRecordedFile(digest, s, k);
  }

  // ---------------------------------------------------------------- sizes

  /** Every blob and every row comes from an upload. */
  ghost predicate FromUploads(s: State) {
    && (forall key | key in s.blobs :: BlobFromUpload(s, key))
    && (forall k | k in s.artifacts :: RowFromUpload(s, k))
  }

  predicate BlobFromUpload(s: State, key: string)
    requires key in s.blobs
  {
    exists p :: p in s.puts && s.puts[p].upload.bytes == s.blobs[key]
  }

  predicate RowFromUpload(s: State, k: (ReleaseId, string))
    requires k in s.artifacts
  {
    exists p :: p in s.puts && s.puts[p].upload.sha256 == s.artifacts[k].sha256 && s.puts[p].upload.size == s.artifacts[k].size
  }

  lemma UploadsKept(digest: Bytes -> string, s: State, step: Step)
    requires Enabled(digest, s, step)
    ensures forall p | p in s.puts :: p in Apply(digest, s, step).puts && Apply(digest, s, step).puts[p].upload == s.puts[p].upload
  {
    hide Parsed, FindRelease, NextPc, Effect;
  }

  lemma FromUploadsStep(digest: Bytes -> string, s: State, step: Step)
    requires Enabled(digest, s, step) && FromUploads(s)
    ensures FromUploads(Apply(digest, s, step))
  {
    UploadsKept(digest, s, step);
    FrameBlobs(digest, s, step);
    FrameRows(digest, s, step);
    var s' := Apply(digest, s, step);
    forall k | k in s'.artifacts && k !in s.artifacts ensures RowFromUpload(s', k) {
      NewRowsAreInserted(digest, s, step, k);
      hide Apply, Enabled;
      assert step.put in s'.puts;
    }
    hide Apply, Enabled, KeyOf;
    forall k | k in s'.artifacts && k in s.artifacts ensures RowFromUpload(s', k) {
      assert RowFromUpload(s, k);
    }
    forall key | key in s'.blobs ensures BlobFromUpload(s', key) {
      if key in s.blobs && s'.blobs[key] == s.blobs[key] {
        assert BlobFromUpload(s, key);
      } else {
        assert step.put in s'.puts;
      }
    }
  }

  lemma {:induction false} FromUploadsRun(digest: Bytes -> string, s: State, steps: seq<Step>)
    requires FromUploads(s) && Run(digest, s, steps)
    ensures FromUploads(Exec(digest, s, steps))
    decreases |steps|
  {
    hide FromUploads, Apply, Enabled;
    if steps != [] {
      FromUploadsStep(digest, s, steps[0]);
      FromUploadsRun(digest, Apply(digest, s, steps[0]), steps[1..]);
    }
  }

  /** No two bodies uploaded so far have one digest and two lengths. */
  predicate LengthsTold(s: State) {
    forall p, q | p in s.puts && q in s.puts && s.puts[p].upload.sha256 == s.puts[q].upload.sha256 ::
      |s.puts[p].upload.bytes| == |s.puts[q].upload.bytes|
  }

  /** The bytes behind a row have the row's size, unless the digest failed to tell two uploads of the run apart. */
  lemma RecordedSizesMatch(digest: Bytes -> string, start: int, steps: seq<Step>, k: (ReleaseId, string))
    requires SlashFreeDigest(digest) && Run(digest, Init(start), steps)
    requires k in Exec(digest, Init(start), steps).artifacts && LengthsTold(Exec(digest, Init(start), steps))
    ensures var s := Exec(digest, Init(start), steps); var a := s.artifacts[k];
      a.storageKey in s.blobs && |s.blobs[a.storageKey]| == a.size
  {
    InvRun(digest, Init(start), steps);
    FromUploadsRun(digest, Init(start), steps);
    var s := Exec(digest, Init(start), steps);
    hide Run, Exec, StorageKey, Target, Classify;
    assert ArtifactSound(digest, s, k);
    var key := s.artifacts[k].storageKey;
    assert BlobFromUpload(s, key) && RowFromUpload(s, k);
    var p :| p in s.puts && s.puts[p].upload.bytes == s.blobs[key];
    var q :| q in s.puts && s.puts[q].upload.sha256 == s.artifacts[k].sha256 && s.puts[q].upload.size == s.artifacts[k].size;
    assert PutSound(digest, s, p) && PutSound(digest, s, q);
  }
}
