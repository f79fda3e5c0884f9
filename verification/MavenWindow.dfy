/**
 When a Maven release is published, and how long it takes new files
 (crates/adapters/maven/src/routes.rs, `apply_post_upload_updates`, `release_accepts_new_artifacts`), with
 PUTs that take time and interleave.
 */
module MavenWindow {
  import opened Common
  import opened MavenNames
  import opened MavenDeploy
  import opened MavenSteps
  import opened MavenProofs
  import opened MavenRuns
  import opened MavenAcks

  predicate IsPomFile(f: string) {
    Target(f).None? && StripSuffix(f, ".pom").Some?
  }

  predicate HasPom(s: State, r: ReleaseId) {
    exists k :: k in s.artifacts && k.0 == r && IsPomFile(k.1)
  }

  lemma PomUploadIsPomFile(digest: Bytes -> string, u: Upload)
    requires Parsed(digest, u) && u.role.Pom?
    ensures IsPomFile(u.filename)
  {
    ClassifiedTarget(u.artifactId, u.version, u.filename);
  }

  // ---------------------------------------------------------------- what changes a release row

  predicate Unpublished(status: Status) { status.Quarantine? || status.Scanning? }

  /** The publishing statement: that of a POM whose PUT read the release as unpublished. */
  predicate PublishesRow(s: State, step: Step, r: ReleaseId) {
    && step.Advance? && !step.choice.fault && step.put in s.puts
    && s.puts[step.put].pc.Updating? && s.puts[step.put].upload.role.Pom?
    && s.puts[step.put].pc.ctx.release == r && Unpublished(s.puts[step.put].pc.ctx.status)
    && r in s.releases
  }

  /**
   Any interleaving: a release row that stays changes exactly by a publishing statement, which sets
   status and time, or by a change of status from elsewhere.
   */
  lemma ReleaseRowChanges(digest: Bytes -> string, s: State, step: Step, r: ReleaseId)
    requires Enabled(digest, s, step) && r in s.releases && r in Apply(digest, s, step).releases
    requires s.releases.Keys <= s.usedIds
    ensures Apply(digest, s, step).releases[r] ==
      if PublishesRow(s, step, r) then s.releases[r].(status := Published, publishedAt := s.now)
      else if step.SetStatus? && step.release == r then s.releases[r].(status := step.status)
      else s.releases[r]
  {
    hide Parsed, FindRelease, NextPc, KeyOf, MakeArtifact;
  }

  /** The publishing statement finds the POM recorded, and stamps the release with its own time. */
  lemma PublicationSetsTime(digest: Bytes -> string, start: int, steps: seq<Step>, i: nat, r: ReleaseId)
    requires SlashFreeDigest(digest) && Run(digest, Init(start), steps) && i < |steps|
    requires PublishesRow(StateAt(digest, Init(start), steps, i), steps[i], r)
    ensures var s := StateAt(digest, Init(start), steps, i); var s' := StateAt(digest, Init(start), steps, i + 1);
      && r in s'.releases && s'.releases[r].status.Published? && s'.releases[r].publishedAt == s'.now == s.now
      && HasPom(s', r)
  {
    AcksAt(digest, start, steps, i);
    NextState(digest, Init(start), steps, i);
    hide Run, StateAt;
    PublishingHasPom(digest, StateAt(digest, Init(start), steps, i), steps[i], r);
  }

  lemma PublishingHasPom(digest: Bytes -> string, s: State, step: Step, r: ReleaseId)
    requires Inv(digest, s) && AcksSound(s) && Enabled(digest, s, step) && PublishesRow(s, step, r)
    ensures var s' := Apply(digest, s, step);
      && r in s'.releases && s'.releases[r] == s.releases[r].(status := Published, publishedAt := s.now) && s'.now == s.now
      && HasPom(s', r)
  {
    var p := step.put;
    AtUpdating(s, p, step.choice);
    assert PutSound(digest, s, p) && AckSound(s, p);
    PomUploadIsPomFile(digest, s.puts[p].upload);
    hide Inv, Parsed, IsPomFile, Advanced;
    PomWitness(Apply(digest, s, step), r, s.puts[p].upload.filename);
  }

  lemma PomWitness(s: State, r: ReleaseId, f: string)
    requires (r, f) in s.artifacts && IsPomFile(f)
    ensures HasPom(s, r)
  {
    hide IsPomFile;
    var k := (r, f);
    assert k in s.artifacts && k.0 == r && IsPomFile(k.1);
  }

  // ---------------------------------------------------------------- published only with a POM

  ghost predicate PomFirst(s: State) {
    forall r | r in s.releases :: s.releases[r].status.Quarantine? || (s.releases[r].status.Published? && HasPom(s, r))
  }

  lemma PomFirstStep(digest: Bytes -> string, s: State, step: Step)
    requires Inv(digest, s) && AcksSound(s) && PomFirst(s) && Enabled(digest, s, step) && !step.SetStatus?
    ensures PomFirst(Apply(digest, s, step))
  {
    hide ArtifactSound, PutSound, SlashFreeDigest, IsPomFile, Enabled, Apply, AcksSound, HasPom;
    var s' := Apply(digest, s, step);
    forall r | r in s'.releases ensures s'.releases[r].status.Quarantine? || (s'.releases[r].status.Published? && HasPom(s', r)) {
      if r in s.releases {
        ReleaseRowChanges(digest, s, step, r);
        if PublishesRow(s, step, r) {
          PublishingHasPom(digest, s, step, r);
        } else if HasPom(s, r) {
          PomStays(digest, s, step, r);
        }
      } else {
        NewRelease(digest, s, step, r);
      }
    }
  }

  lemma PomStays(digest: Bytes -> string, s: State, step: Step, r: ReleaseId)
    requires Inv(digest, s) && Enabled(digest, s, step) && HasPom(s, r) && r in Apply(digest, s, step).releases
    ensures HasPom(Apply(digest, s, step), r)
  {
    hide Inv, Enabled, Apply, IsPomFile;
    var k :| k in s.artifacts && k.0 == r && IsPomFile(k.1);
    StepFrame(digest, s, step);
    assert k in Apply(digest, s, step).artifacts;
  }

  lemma NewRelease(digest: Bytes -> string, s: State, step: Step, r: ReleaseId)
    requires Enabled(digest, s, step) && r !in s.releases && r in Apply(digest, s, step).releases
    ensures Apply(digest, s, step).releases[r].status.Quarantine?
  {
    hide Parsed, FindRelease, NextPc, KeyOf, MakeArtifact;
  }

  ghost predicate NoStatusChange(steps: seq<Step>) {
    forall i :: 0 <= i < |steps| ==> !steps[i].SetStatus?
  }

  /** Interleaved PUTs, without status changes from elsewhere: a published release has a recorded POM. */
  lemma {:induction false} PublishedOnlyWithPom(digest: Bytes -> string, start: int, steps: seq<Step>, n: nat, r: ReleaseId)
    requires SlashFreeDigest(digest) && Run(digest, Init(start), steps) && NoStatusChange(steps) && n <= |steps|
    requires r in StateAt(digest, Init(start), steps, n).releases
    ensures var s := StateAt(digest, Init(start), steps, n);
      && (s.releases[r].status.Quarantine? || s.releases[r].status.Published?)
      && (s.releases[r].status.Published? ==> exists k :: k in s.artifacts && k.0 == r && IsPomFile(k.1))
  {
    PomFirstAt(digest, start, steps, n);
    hide Run, StateAt, IsPomFile;
  }

  lemma {:induction false} PomFirstAt(digest: Bytes -> string, start: int, steps: seq<Step>, n: nat)
    requires SlashFreeDigest(digest) && Run(digest, Init(start), steps) && NoStatusChange(steps) && n <= |steps|
    ensures PomFirst(StateAt(digest, Init(start), steps, n))
    decreases n
  {
    hide Run, Inv, Enabled, Apply;
    if n > 0 {
      PomFirstAt(digest, start, steps, n - 1);
      AcksAt(digest, start, steps, n - 1);
      NextState(digest, Init(start), steps, n - 1);
      PomFirstStep(digest, StateAt(digest, Init(start), steps, n - 1), steps[n - 1]);
    }
  }

  // ---------------------------------------------------------------- published once

  predicate Unfinished(s: State, p: PutId) {
    p in s.puts && !s.puts[p].pc.Done?
  }

  /**
   A POM upload that may still publish `r`: it has read it as unpublished, is not about to roll back, and
   its file is not recorded yet, or recorded as its own.
   */
  predicate MayRepublish(s: State, p: PutId, r: ReleaseId) {
    && Unfinished(s, p) && r in s.releases
    && s.puts[p].upload.role.Pom? && HasContext(s.puts[p].pc) && !s.puts[p].pc.RollingBack?
    && s.puts[p].pc.ctx.release == r && Unpublished(s.puts[p].pc.ctx.status)
    && ((r, s.puts[p].upload.filename) in s.artifacts ==> RecordedAs(s, r, s.puts[p].upload))
  }

  ghost predicate SomeMayRepublish(s: State, r: ReleaseId) {
    exists p :: MayRepublish(s, p, r)
  }

  /** A change of status from elsewhere after which the release may be published anew. */
  predicate Unpublishes(step: Step, r: ReleaseId) {
    step.SetStatus? && step.release == r && Unpublished(step.status)
  }

  /** Nobody publishes the release any more: it is not unpublished, and no upload may still publish it. */
  ghost predicate PublishedForGood(s: State, r: ReleaseId) {
    && r in s.usedIds
    && (r in s.releases ==> !Unpublished(s.releases[r].status))
    && !SomeMayRepublish(s, r)
  }

  lemma MayBefore(digest: Bytes -> string, s: State, step: Step, r: ReleaseId, p: PutId)
    requires Inv(digest, s) && Enabled(digest, s, step) && r in s.usedIds
    requires r in s.releases ==> !Unpublished(s.releases[r].status)
    requires MayRepublish(Apply(digest, s, step), p, r)
    ensures MayRepublish(s, p, r)
  {
    hide Apply, Enabled, Inv, Parsed, NextPc, FindRelease, AcceptsNewArtifacts;
    PcMoves(digest, s, step, p);
    StepKeeps(digest, s, step);
    StepFrame(digest, s, step);
    if p in s.puts && step.Advance? && step.put == p && CanAdvance(s, p, step.choice) {
      CameFrom(s, p, step.choice);
      RollbackEnds(s, p, step.choice);
    }
  }

  lemma RollbackEnds(s: State, p: PutId, c: Choice)
    requires CanAdvance(s, p, c)
    ensures s.puts[p].pc.RollingBack? ==> NextPc(s, p, c).Done?
  {
    hide FindRelease, AcceptsNewArtifacts;
  }

  lemma MayNotPublish(s: State, step: Step, r: ReleaseId)
    requires AcksSound(s) && PublishesRow(s, step, r)
    ensures SomeMayRepublish(s, r)
  {
    assert AckSound(s, step.put);
    assert MayRepublish(s, step.put, r);
  }

  lemma PublishedForGoodStep(digest: Bytes -> string, s: State, step: Step, r: ReleaseId)
    requires Inv(digest, s) && AcksSound(s) && Enabled(digest, s, step) && PublishedForGood(s, r) && !Unpublishes(step, r)
    ensures PublishedForGood(Apply(digest, s, step), r) && !PublishesRow(s, step, r)
  {
    hide Apply, Enabled, Inv, AcksSound, MayRepublish, PublishesRow;
    var s' := Apply(digest, s, step);
    IdsUsed(digest, s);
    StepFrame(digest, s, step);
    StepKeeps(digest, s, step);
    if PublishesRow(s, step, r) {
      MayNotPublish(s, step, r);
    }
    if r in s'.releases {
      ReleaseRowChanges(digest, s, step, r);
    }
    forall p | MayRepublish(s', p, r) ensures MayRepublish(s, p, r) {
      MayBefore(digest, s, step, r, p);
    }
  }

  lemma IdsUsed(digest: Bytes -> string, s: State)
    requires Inv(digest, s)
    ensures s.releases.Keys <= s.usedIds
  {
  }

  ghost predicate NeverUnpublishes(steps: seq<Step>, r: ReleaseId) {
    forall k :: 0 <= k < |steps| ==> !Unpublishes(steps[k], r)
  }

  lemma {:induction false} PublishedForGoodLater(digest: Bytes -> string, s: State, after: seq<Step>, j: nat, r: ReleaseId)
    requires Inv(digest, s) && AcksSound(s) && PublishedForGood(s, r)
    requires Run(digest, s, after) && j < |after| && NeverUnpublishes(after, r)
    ensures !PublishesRow(StateAt(digest, s, after, j), after[j], r)
    decreases j
  {
    hide PublishedForGood, Inv, Enabled, Apply, Unpublishes, PublishesRow, AcksSound;
    PublishedForGoodStep(digest, s, after[0], r);
    if j > 0 {
      InvStep(digest, s, after[0]);
      AcksStep(digest, s, after[0]);
      PublishedForGoodLater(digest, Apply(digest, s, after[0]), after[1..], j - 1, r);
    }
  }

  // ---------------------------------------------------------------- published again

  /** Some continuation publishes the release, without its being unpublished from elsewhere. */
  ghost predicate PublishesAgain(digest: Bytes -> string, s: State, r: ReleaseId) {
    exists after: seq<Step>, j: nat :: Run(digest, s, after) && j < |after| && NeverUnpublishes(after, r)
      && PublishesRow(StateAt(digest, s, after, j), after[j], r)
  }

  const NO_FAULT := Choice(false, false, "")

  /** Nothing but the statements of one PUT, none of which fails. */
  predicate OwnStatements(steps: seq<Step>, p: PutId) {
    forall i :: 0 <= i < |steps| ==> steps[i] == Advance(p, NO_FAULT)
  }

  function Distance(pc: Pc): nat {
    match pc
    case CheckingTarget(_) => 7
    case CheckingExisting(_) => 6
    case CheckingWindow(_) => 5
    case StoringBlob(_) => 4
    case Inserting(_) => 3
    case Rereading(_) => 2
    case UpdatingPackage(_, _) => 1
    case _ => 0
  }

  /** One statement nearer to publishing. */
  lemma Nearer(s: State, p: PutId, r: ReleaseId)
    requires AcksSound(s) && MayRepublish(s, p, r) && !s.puts[p].pc.Updating?
    ensures CanAdvance(s, p, NO_FAULT) && MayRepublish(Advanced(s, p, NO_FAULT), p, r)
    ensures Distance(Advanced(s, p, NO_FAULT).puts[p].pc) < Distance(s.puts[p].pc) && Advanced(s, p, NO_FAULT).now == s.now
  {
    hide Advanced, MakeArtifact, KeyOf;
    assert AckSound(s, p);
    var pc := s.puts[p].pc;
    if pc.CheckingExisting? {
      AtCheckingExisting(s, p, NO_FAULT);
    } else if pc.CheckingWindow? {
      AtCheckingWindow(s, p, NO_FAULT);
    } else if pc.StoringBlob? {
      AtStoringBlob(s, p, NO_FAULT);
    } else if pc.Inserting? {
      AtInserting(s, p, NO_FAULT);
      MadeForUpload(pc.ctx.release, s.puts[p].upload);
    } else if pc.Rereading? {
      AtRereading(s, p, NO_FAULT);
    } else {
      AtUpdatingPackage(s, p, NO_FAULT);
    }
  }

  lemma {:induction false} OwnStatementsPublish(digest: Bytes -> string, s: State, p: PutId, r: ReleaseId) returns (after: seq<Step>)
    requires Inv(digest, s) && AcksSound(s) && MayRepublish(s, p, r)
    ensures after != [] && OwnStatements(after, p) && Run(digest, s, after)
    ensures PublishesRow(StateAt(digest, s, after, |after| - 1), after[|after| - 1], r)
    ensures var e := Exec(digest, s, after);
      r in e.releases && e.releases[r].status.Published? && e.releases[r].publishedAt == s.now
    decreases Distance(s.puts[p].pc)
  {
    hide Inv, AcksSound, Advanced;
    var step := Advance(p, NO_FAULT);
    if s.puts[p].pc.Updating? {
      after := [step];
      assert after[1..] == [];
      AtUpdating(s, p, NO_FAULT);
    } else {
      Nearer(s, p, r);
      InvStep(digest, s, step);
      AcksStep(digest, s, step);
      var rest := OwnStatementsPublish(digest, Advanced(s, p, NO_FAULT), p, r);
      after := [step] + rest;
      assert after[1..] == rest;
    }
  }

  /**
   Any interleaving.  A release that has been published is published again in some continuation, without
   being unpublished from elsewhere, exactly if some POM upload may still publish it; and then that
   upload's own statements do, if none of them fails.
   */
  lemma RepublishedExactlyWhen(digest: Bytes -> string, start: int, before: seq<Step>, r: ReleaseId)
    requires SlashFreeDigest(digest) && Run(digest, Init(start), before)
    requires var s := Exec(digest, Init(start), before); r in s.releases && !Unpublished(s.releases[r].status)
    ensures var s := Exec(digest, Init(start), before);
      PublishesAgain(digest, s, r) <==> exists p :: MayRepublish(s, p, r)
  {
    var s := Exec(digest, Init(start), before);
    AcksAt(digest, start, before, |before|);
    LastState(digest, Init(start), before);
    IdsUsed(digest, s);
    hide Run, Exec, StateAt, Inv, AcksSound, MayRepublish, PublishesRow, Unpublishes;
    if p :| MayRepublish(s, p, r) {
      var after := OwnStatementsPublish(digest, s, p, r);
      OwnNeverUnpublish(after, p, r);
      assert PublishesRow(StateAt(digest, s, after, |after| - 1), after[|after| - 1], r);
    } else {
      forall after: seq<Step>, j: nat | Run(digest, s, after) && j < |after| && NeverUnpublishes(after, r)
        ensures !PublishesRow(StateAt(digest, s, after, j), after[j], r)
      {
        PublishedForGoodLater(digest, s, after, j, r);
      }
    }
  }

  lemma OwnNeverUnpublish(after: seq<Step>, p: PutId, r: ReleaseId)
    requires OwnStatements(after, p)
    ensures NeverUnpublishes(after, r)
  {
  }

  /** Besides the upload that publishes it, none may. */
  lemma AfterPublication(digest: Bytes -> string, s: State, step: Step, r: ReleaseId)
    requires Inv(digest, s) && Enabled(digest, s, step) && PublishesRow(s, step, r)
    requires forall p | MayRepublish(s, p, r) :: p == step.put
    ensures PublishedForGood(Apply(digest, s, step), r)
  {
    hide ArtifactSound, PutSound, SlashFreeDigest, Parsed;
    AtUpdating(s, step.put, step.choice);
    hide Advanced;
    var s' := Apply(digest, s, step);
    forall p ensures !MayRepublish(s', p, r) {
      assert MayRepublish(s', p, r) ==> MayRepublish(s, p, r);
    }
  }

  /**
   In particular, where no other POM upload of it may publish it at the time, a release is published once,
   and its time is set once.
   */
  lemma PublishedOnce(digest: Bytes -> string, start: int, steps: seq<Step>, i: nat, j: nat, r: ReleaseId)
    requires SlashFreeDigest(digest) && Run(digest, Init(start), steps) && i < j < |steps|
    requires PublishesRow(StateAt(digest, Init(start), steps, i), steps[i], r)
    requires forall p | MayRepublish(StateAt(digest, Init(start), steps, i), p, r) :: p == steps[i].put
    requires forall k :: i <= k < |steps| ==> !Unpublishes(steps[k], r)
    ensures !PublishesRow(StateAt(digest, Init(start), steps, j), steps[j], r)
  {
    hide Run, StateAt, Inv, Enabled, Apply, PublishesRow, PublishedForGood, Unpublishes, MayRepublish, AcksSound;
    AcksAt(digest, start, steps, i);
    AcksAt(digest, start, steps, i + 1);
    NextState(digest, Init(start), steps, i);
    AfterPublication(digest, StateAt(digest, Init(start), steps, i), steps[i], r);
    RestOfRun(digest, Init(start), steps, i + 1, j - (i + 1));
    PublishedForGoodLater(digest, StateAt(digest, Init(start), steps, i + 1), steps[i + 1..], j - (i + 1), r);
  }

  lemma {:induction false} RestOfRun(digest: Bytes -> string, s: State, steps: seq<Step>, i: nat, k: nat)
    requires Run(digest, s, steps) && i + k <= |steps|
    ensures Run(digest, StateAt(digest, s, steps, i), steps[i..])
    ensures StateAt(digest, StateAt(digest, s, steps, i), steps[i..], k) == StateAt(digest, s, steps, i + k)
    decreases i
  {
    hide Enabled, Apply;
    if i == 0 {
      assert steps[0..] == steps;
    } else {
      assert steps[i..] == steps[1..][i - 1..];
      RestOfRun(digest, Apply(digest, s, steps[0]), steps[1..], i - 1, k);
    }
  }
}
