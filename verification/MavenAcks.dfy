/**
 What a successful response to a Maven PUT means (crates/adapters/maven/src/routes.rs,
 `repository_put`): with any interleaving the file is recorded with the digest that was sent, and
 without interleaving the same PUT may be repeated at will.
 */
module MavenAcks {
  import opened Common
  import opened MavenNames
  import opened MavenDeploy
  import opened MavenProofs
  import opened MavenSteps
  import opened MavenSerial
  import opened MavenRuns

  predicate RecordedAs(s: State, r: ReleaseId, u: Upload) {
    (r, u.filename) in s.artifacts && s.artifacts[(r, u.filename)].sha256 == u.sha256
  }

  predicate Succeeded(pc: Pc) {
    pc == Done(OkResponse) || pc == Done(CreatedResponse)
  }

  // ---------------------------------------------------------------- interleaved PUTs

  /**
   A PUT about to be acknowledged has its file recorded, and one that reads the file again finds it, unless
   the release is gone.  Only files with a target are checked for it.
   */
  predicate AckSound(s: State, p: PutId)
    requires p in s.puts
  {
    var pc := s.puts[p].pc;
    var u := s.puts[p].upload;
    && ((pc.UpdatingPackage? || pc.Updating?) && pc.ctx.release in s.releases ==> RecordedAs(s, pc.ctx.release, u))
    && (pc.Rereading? && pc.ctx.release in s.releases ==> (pc.ctx.release, u.filename) in s.artifacts)
    && (pc.CheckingTarget? ==> u.role.TargetFilename().Some?)
  }

  lemma OwnAckSound(digest: Bytes -> string, s: State, p: PutId, c: Choice)
    requires Inv(digest, s) && Enabled(digest, s, Advance(p, c)) && AckSound(s, p)
    ensures AckSound(Apply(digest, s, Advance(p, c)), p)
  {
    hide Inv, SlashFreeDigest, Parsed, FindRelease, KeyOf, AcceptsNewArtifacts, WithoutRelease;
  }

  lemma OtherAckSound(digest: Bytes -> string, s: State, step: Step, p: PutId)
    requires Inv(digest, s) && Enabled(digest, s, step) && p in s.puts && !(step.Advance? && step.put == p)
    requires AckSound(s, p)
    ensures p in Apply(digest, s, step).puts && AckSound(Apply(digest, s, step), p)
  {
    hide Apply, Enabled, SlashFreeDigest, ArtifactSound, Parsed;
    StepFrame(digest, s, step);
    FramePuts(digest, s, step, p);
    assert PutSound(digest, s, p);
  }

  ghost predicate AcksSound(s: State) {
    forall p | p in s.puts :: AckSound(s, p)
  }

  lemma AcksStep(digest: Bytes -> string, s: State, step: Step)
    requires Inv(digest, s) && AcksSound(s) && Enabled(digest, s, step)
    ensures AcksSound(Apply(digest, s, step))
  {
    hide Inv, Parsed, Advanced;
    var s' := Apply(digest, s, step);
    forall p | p in s'.puts ensures AckSound(s', p) {
      if step.Advance? && step.put == p {
        OwnAckSound(digest, s, p, step.choice);
      } else if p in s.puts {
        OtherAckSound(digest, s, step, p);
      } else {
        NewPutStarts(digest, s, step, p);
      }
    }
  }

  lemma NewPutStarts(digest: Bytes -> string, s: State, step: Step, p: PutId)
    requires Enabled(digest, s, step) && p !in s.puts && p in Apply(digest, s, step).puts
    ensures Apply(digest, s, step).puts[p].pc.Resolving?
  {
    hide Parsed, Effect, NextPc;
  }

  lemma {:induction false} AcksFrom(digest: Bytes -> string, s: State, steps: seq<Step>, i: nat)
    requires Inv(digest, s) && AcksSound(s) && Run(digest, s, steps) && i <= |steps|
    ensures Inv(digest, StateAt(digest, s, steps, i)) && AcksSound(StateAt(digest, s, steps, i))
    decreases i
  {
    hide Inv, Apply, Enabled, AcksSound;
    if i > 0 {
      InvStep(digest, s, steps[0]);
      AcksStep(digest, s, steps[0]);
      AcksFrom(digest, Apply(digest, s, steps[0]), steps[1..], i - 1);
    }
  }

  lemma AcksAt(digest: Bytes -> string, start: int, steps: seq<Step>, i: nat)
    requires SlashFreeDigest(digest) && Run(digest, Init(start), steps) && i <= |steps|
    ensures Inv(digest, StateAt(digest, Init(start), steps, i)) && AcksSound(StateAt(digest, Init(start), steps, i))
  {
    hide Run, StateAt;
    InvAtStart(digest, start);
    AcksFrom(digest, Init(start), steps, i);
  }

  // ---------------------------------------------------------------- releases that go away

  /** The rollback of a PUT, going through. */
  predicate RollsBack(s: State, step: Step, r: ReleaseId) {
    step.Advance? && step.put in s.puts && s.puts[step.put].pc.RollingBack? && s.puts[step.put].pc.ctx.release == r && !step.choice.fault
  }

  predicate Removes(s: State, step: Step, r: ReleaseId) {
    r in s.releases && (step == DeleteRelease(r) || RollsBack(s, step, r))
  }

  lemma GoneExactlyWhen(digest: Bytes -> string, s: State, step: Step, r: ReleaseId)
    requires Enabled(digest, s, step) && r in s.releases
    ensures r !in Apply(digest, s, step).releases <==> Removes(s, step, r)
  {
    hide Parsed, FindRelease, NextPc, KeyOf, MakeArtifact;
  }

  lemma IdsAreReleases(digest: Bytes -> string, s: State, step: Step, r: ReleaseId)
    requires Enabled(digest, s, step) && r in Apply(digest, s, step).usedIds && r !in s.usedIds
    ensures r in Apply(digest, s, step).releases
  {
    hide Parsed, FindRelease, NextPc, KeyOf, MakeArtifact;
  }

  ghost predicate EverRemoved(digest: Bytes -> string, s: State, steps: seq<Step>, n: nat, r: ReleaseId)
    requires Run(digest, s, steps) && n <= |steps|
  {
    exists i :: 0 <= i < n && Removes(StateAt(digest, s, steps, i), steps[i], r)
  }

  /** An id that was given out names a release still there, exactly unless some step removed it. */
  lemma {:induction false} ThereUnlessRemoved(digest: Bytes -> string, start: int, steps: seq<Step>, n: nat, r: ReleaseId)
    requires SlashFreeDigest(digest) && Run(digest, Init(start), steps) && n <= |steps|
    requires r in StateAt(digest, Init(start), steps, n).usedIds
    ensures r in StateAt(digest, Init(start), steps, n).releases <==> !EverRemoved(digest, Init(start), steps, n, r)
    decreases n
  {
    hide Inv, Apply, Enabled, Removes;
    if n > 0 {
      var before := StateAt(digest, Init(start), steps, n - 1);
      InvAtStart(digest, start);
      InvAt(digest, Init(start), steps, n - 1);
      NextState(digest, Init(start), steps, n - 1);
      hide StateAt;
      StepFrame(digest, before, steps[n - 1]);
      if r in before.usedIds {
        ThereUnlessRemoved(digest, start, steps, n - 1, r);
        if r in before.releases {
          GoneExactlyWhen(digest, before, steps[n - 1], r);
        }
        EverRemovedNext(digest, Init(start), steps, n - 1, r);
      } else {
        IdsAreReleases(digest, before, steps[n - 1], r);
        forall i | 0 <= i < n ensures !Removes(StateAt(digest, Init(start), steps, i), steps[i], r) {
          InvAt(digest, Init(start), steps, i);
          LaterKeeps(digest, Init(start), steps, i, n - 1);
          NotRemovedUnused(digest, StateAt(digest, Init(start), steps, i), steps[i], r);
        }
      }
    }
  }

  lemma NotRemovedUnused(digest: Bytes -> string, s: State, step: Step, r: ReleaseId)
    requires Inv(digest, s) && r !in s.usedIds
    ensures !Removes(s, step, r)
  {
  }

  lemma EverRemovedNext(digest: Bytes -> string, s: State, steps: seq<Step>, n: nat, r: ReleaseId)
    requires Run(digest, s, steps) && n < |steps|
    ensures EverRemoved(digest, s, steps, n + 1, r)
       <==> EverRemoved(digest, s, steps, n, r) || Removes(StateAt(digest, s, steps, n), steps[n], r)
  {
    hide Removes, StateAt, Run;
  }

  // ---------------------------------------------------------------- what an acknowledgement is worth

  /** Step `n` acknowledges PUT `p`, which has written `u` to release `r`. */
  ghost predicate Acknowledges(digest: Bytes -> string, start: int, steps: seq<Step>, n: nat, p: PutId, u: Upload, r: ReleaseId)
    requires Run(digest, Init(start), steps)
  {
    && n < |steps| && steps[n].Advance? && steps[n].put == p
    && var s := StateAt(digest, Init(start), steps, n);
      && CanAdvance(s, p, steps[n].choice) && Succeeded(NextPc(s, p, steps[n].choice))
      && s.puts[p].upload == u && s.puts[p].pc.Updating? && s.puts[p].pc.ctx.release == r
  }

  /** The file is recorded with the digest that was sent, and the bytes are there. */
  predicate Kept(digest: Bytes -> string, s: State, r: ReleaseId, u: Upload) {
    && RecordedAs(s, r, u)
    && s.artifacts[(r, u.filename)].storageKey in s.blobs
    && digest(s.blobs[s.artifacts[(r, u.filename)].storageKey]) == u.sha256
  }

  /**
   Any interleaving, any failures: the file of an acknowledged PUT is recorded at the end of the run,
   with the digest that was sent and its bytes, exactly unless a step of the run, before or after the
   acknowledgement, removed the release.
   */
  lemma AcknowledgedUnlessRemoved(digest: Bytes -> string, start: int, steps: seq<Step>, n: nat, p: PutId, u: Upload, r: ReleaseId)
    requires SlashFreeDigest(digest) && Run(digest, Init(start), steps) && Acknowledges(digest, start, steps, n, p, u, r)
    ensures Kept(digest, Exec(digest, Init(start), steps), r, u) <==> !EverRemoved(digest, Init(start), steps, |steps|, r)
  {
    var s := StateAt(digest, Init(start), steps, n);
    var e := StateAt(digest, Init(start), steps, |steps|);
    LastState(digest, Init(start), steps);
    AcksAt(digest, start, steps, n);
    InvAtStart(digest, start);
    InvAt(digest, Init(start), steps, |steps|);
    LaterKeeps(digest, Init(start), steps, n, |steps|);
    assert PutSound(digest, s, p) && AckSound(s, p);
    LaterRows(digest, Init(start), steps, n, |steps|, (r, u.filename));
    ThereUnlessRemoved(digest, start, steps, |steps|, r);
    hide Run, Exec, StateAt, EverRemoved;
    if (r, u.filename) in e.artifacts {
      assert ArtifactSound(digest, e, (r, u.filename));
    }
  }

  /** A PUT created `r`, its blob write failed, and its rollback went through. */
  ghost predicate CreatorRolledBack(digest: Bytes -> string, start: int, steps: seq<Step>, r: ReleaseId)
    requires Run(digest, Init(start), steps)
  {
    exists q, a: nat, b: nat, c: nat, ctx: Context ::
      && a < b < c < |steps| && ctx.created && ctx.release == r
      && Took(digest, Init(start), steps, a, q, Creating) && steps[a].choice.freshId == r
      && CreatesRelease(StateAt(digest, Init(start), steps, a), q, steps[a].choice)
      && Took(digest, Init(start), steps, b, q, StoringBlob(ctx)) && steps[b].choice.fault
      && Took(digest, Init(start), steps, c, q, RollingBack(ctx)) && !steps[c].choice.fault
  }

  lemma RollbackHistory(digest: Bytes -> string, start: int, steps: seq<Step>, c: nat, r: ReleaseId)
    requires Run(digest, Init(start), steps) && c < |steps| && RollsBack(StateAt(digest, Init(start), steps, c), steps[c], r)
    ensures CreatorRolledBack(digest, start, steps, r)
  {
    hide Run, StateAt, CreatesRelease;
    var q := steps[c].put;
    var ctx := StateAt(digest, Init(start), steps, c).puts[q].pc.ctx;
    assert Took(digest, Init(start), steps, c, q, RollingBack(ctx));
    var b := BeforeRollingBack(digest, start, steps, c, q);
    var a := BeforeCreated(digest, start, steps, b, q);
  }

  /** The rollback of the release's creator removes it, if it is there. */
  lemma RollbackRemoves(digest: Bytes -> string, start: int, steps: seq<Step>, r: ReleaseId)
    requires SlashFreeDigest(digest) && Run(digest, Init(start), steps) && CreatorRolledBack(digest, start, steps, r)
    requires r in StateAt(digest, Init(start), steps, |steps|).usedIds
    ensures EverRemoved(digest, Init(start), steps, |steps|, r)
  {
    hide StateAt, CreatesRelease, Run, EverRemoved;
    var q, a: nat, b: nat, c: nat, ctx: Context :|
      && a < b < c < |steps| && ctx.created && ctx.release == r
      && Took(digest, Init(start), steps, a, q, Creating) && steps[a].choice.freshId == r
      && CreatesRelease(StateAt(digest, Init(start), steps, a), q, steps[a].choice)
      && Took(digest, Init(start), steps, b, q, StoringBlob(ctx)) && steps[b].choice.fault
      && Took(digest, Init(start), steps, c, q, RollingBack(ctx)) && !steps[c].choice.fault;
    RollbackRemovesAt(digest, start, steps, c, q, ctx);
  }

  lemma RollbackRemovesAt(digest: Bytes -> string, start: int, steps: seq<Step>, c: nat, q: PutId, ctx: Context)
    requires SlashFreeDigest(digest) && Run(digest, Init(start), steps)
    requires Took(digest, Init(start), steps, c, q, RollingBack(ctx)) && !steps[c].choice.fault
    ensures EverRemoved(digest, Init(start), steps, |steps|, ctx.release)
  {
    hide StateAt, Run, Removes;
    var s := StateAt(digest, Init(start), steps, c);
    if ctx.release in s.releases {
      RemovedByRollback(s, steps[c], ctx.release);
    } else {
      UsedWhileInContext(digest, start, steps, c, q);
      ThereUnlessRemoved(digest, start, steps, c, ctx.release);
    }
  }

  lemma RemovedByRollback(s: State, step: Step, r: ReleaseId)
    requires r in s.releases && RollsBack(s, step, r)
    ensures Removes(s, step, r)
  {
  }

  lemma UsedWhileInContext(digest: Bytes -> string, start: int, steps: seq<Step>, c: nat, q: PutId)
    requires SlashFreeDigest(digest) && Run(digest, Init(start), steps) && c <= |steps|
    requires var s := StateAt(digest, Init(start), steps, c); q in s.puts && HasContext(s.puts[q].pc)
    ensures var s := StateAt(digest, Init(start), steps, c); s.puts[q].pc.ctx.release in s.usedIds
  {
    hide StateAt, Run;
    InvAtStart(digest, start);
    InvAt(digest, Init(start), steps, c);
    assert PutSound(digest, StateAt(digest, Init(start), steps, c), q);
  }

  /**
   As long as nobody deletes releases, the file of an acknowledged PUT stays recorded exactly unless the
   PUT that created its release fails to write its own blob and rolls the release back.
   */
  lemma AcknowledgedMeansRecorded(digest: Bytes -> string, start: int, steps: seq<Step>, n: nat, p: PutId, u: Upload, r: ReleaseId)
    requires SlashFreeDigest(digest) && Run(digest, Init(start), steps) && Acknowledges(digest, start, steps, n, p, u, r)
    requires forall i :: 0 <= i < |steps| ==> steps[i] != DeleteRelease(r)
    ensures Kept(digest, Exec(digest, Init(start), steps), r, u) <==> !CreatorRolledBack(digest, start, steps, r)
  {
    hide Run, Exec, StateAt, CreatorRolledBack, Acknowledges, Kept, EverRemoved;
    AcknowledgedUnlessRemoved(digest, start, steps, n, p, u, r);
    if CreatorRolledBack(digest, start, steps, r) {
      AcknowledgedIsUsed(digest, start, steps, n, p, u, r);
      RollbackRemoves(digest, start, steps, r);
    }
    if EverRemoved(digest, Init(start), steps, |steps|, r) {
      RemovedIsRolledBack(digest, start, steps, r);
    }
  }

  lemma RemovedIsRolledBack(digest: Bytes -> string, start: int, steps: seq<Step>, r: ReleaseId)
    requires Run(digest, Init(start), steps) && EverRemoved(digest, Init(start), steps, |steps|, r)
    requires forall i :: 0 <= i < |steps| ==> steps[i] != DeleteRelease(r)
    ensures CreatorRolledBack(digest, start, steps, r)
  {
    hide Run, StateAt, CreatorRolledBack, RollsBack;
    var i :| 0 <= i < |steps| && Removes(StateAt(digest, Init(start), steps, i), steps[i], r);
    RollbackHistory(digest, start, steps, i, r);
  }

  lemma AcknowledgedIsUsed(digest: Bytes -> string, start: int, steps: seq<Step>, n: nat, p: PutId, u: Upload, r: ReleaseId)
    requires SlashFreeDigest(digest) && Run(digest, Init(start), steps) && Acknowledges(digest, start, steps, n, p, u, r)
    ensures r in StateAt(digest, Init(start), steps, |steps|).usedIds
  {
    hide Run, StateAt;
    UsedWhileInContext(digest, start, steps, n, p);
    LaterKeeps(digest, Init(start), steps, n, |steps|);
  }

  // ---------------------------------------------------------------- the same PUT again

  /** The state in which the same PUT has nothing left to do. */
  predicate Deployed(s: State, r: ReleaseId, u: Upload) {
    && Matches(s, u, r) && RecordedAs(s, r, u)
    && (u.role.Pom? ==> !s.releases[r].status.Quarantine? && !s.releases[r].status.Scanning?)
  }

  /** What an uninterrupted PUT of `u` knows at each point. */
  ghost predicate OnTheWay(s: State, p: PutId)
    requires p in s.puts
  {
    var u := s.puts[p].upload;
    var pc := s.puts[p].pc;
    && (HasContext(pc) ==> Matches(s, u, pc.ctx.release) && pc.ctx.status == s.releases[pc.ctx.release].status)
    && (pc.UpdatingPackage? || pc.Updating? ==> RecordedAs(s, pc.ctx.release, u))
    && (Succeeded(pc) ==> exists r :: Deployed(s, r, u))
  }

  lemma OnTheWayStep(s: State, p: PutId, f: Faults)
    requires Ready(s, p, f) && !s.puts[p].pc.Done? && OnTheWay(s, p)
    ensures OnTheWay(OneStep(s, p, f), p)
  {
    hide Advanced, FindRelease, KeyOf, MakeArtifact, AcceptsNewArtifacts, WithoutRelease, AfterResolving;
    var pc, c := s.puts[p].pc, ChoiceFor(s.puts[p].pc, f);
    ResolvedPc(s.puts[p].upload);
    if pc.Resolving? {
      AtResolving(s, p, c);
    } else if pc.Creating? {
      AtCreating(s, p, c);
    } else if pc.Reloading? {
      AtReloading(s, p, c);
    } else if pc.CheckingTarget? {
      AtCheckingTarget(s, p, c);
    } else {
      OnTheWayBeyond(s, p, f);
    }
  }

  lemma ResolvedPc(u: Upload)
    ensures forall ctx :: AfterResolving(u, ctx) == CheckingTarget(ctx) || AfterResolving(u, ctx) == CheckingExisting(ctx)
  {
  }

  lemma OnTheWayBeyond(s: State, p: PutId, f: Faults)
    requires Ready(s, p, f) && OnTheWay(s, p)
    requires HasContext(s.puts[p].pc) && !s.puts[p].pc.CheckingTarget?
    ensures OnTheWay(OneStep(s, p, f), p)
  {
    hide Advanced, KeyOf, MakeArtifact, AcceptsNewArtifacts, WithoutRelease;
    var pc, c := s.puts[p].pc, ChoiceFor(s.puts[p].pc, f);
    if pc.CheckingExisting? {
      AtCheckingExisting(s, p, c);
    } else if pc.CheckingWindow? {
      AtCheckingWindow(s, p, c);
    } else if pc.StoringBlob? {
      AtStoringBlob(s, p, c);
    } else if pc.RollingBack? {
      AtRollingBack(s, p, c);
    } else if pc.Inserting? {
      AtInserting(s, p, c);
      MadeForUpload(pc.ctx.release, s.puts[p].upload);
    } else if pc.Rereading? {
      AtRereading(s, p, c);
    } else if pc.UpdatingPackage? {
      AtUpdatingPackage(s, p, c);
    } else {
      AtUpdating(s, p, c);
      assert Succeeded(OneStep(s, p, f).puts[p].pc) ==> Deployed(OneStep(s, p, f), pc.ctx.release, s.puts[p].upload);
    }
  }

  lemma MadeForUpload(r: ReleaseId, u: Upload)
    ensures MakeArtifact(r, u).sha256 == u.sha256
  {
  }

  lemma {:induction false} FinishOnTheWay(s: State, p: PutId, f: Faults)
    requires Ready(s, p, f) && OnTheWay(s, p)
    ensures OnTheWay(Finish(s, p, f), p) && Finish(s, p, f).puts[p].upload == s.puts[p].upload
    decreases Rank(s.puts[p].pc)
  {
    hide OnTheWay, OneStep;
    if !s.puts[p].pc.Done? {
      OnTheWayStep(s, p, f);
      FinishOnTheWay(OneStep(s, p, f), p, f);
    }
  }

  predicate NoFaults(f: Faults) {
    !f.resolve && !f.target && !f.existing && !f.updatePackage && !f.update
  }

  /** Where the file is deployed already, a PUT of it answers OK and touches nothing. */
  lemma SecondPut(digest: Bytes -> string, s: State, r: ReleaseId, u: Upload, f: Faults)
    requires Inv(digest, s) && Parsed(digest, u) && Deployed(s, r, u) && NoFaults(f) && Ready(Alone(s, u, Resolving), 0, f)
    ensures Finish(Alone(s, u, Resolving), 0, f) == Alone(s, u, Done(OkResponse))
  {
    var ctx := ReadContext(s, r);
    ClassifiedTarget(u.artifactId, u.version, u.filename);
    assert ArtifactSound(digest, s, (r, u.filename));
    FoundAgain(digest, s, r, u, Resolving);
    hide OneStep, Advanced, Finish, Inv, Classify, Target, FindRelease, Parsed, ArtifactSound, MakeArtifact;
    Proceeds(s, u, Resolving, AfterResolving(u, ctx), f);
    if u.role.TargetFilename().Some? {
      Proceeds(s, u, CheckingTarget(ctx), CheckingExisting(ctx), f);
    }
    Proceeds(s, u, CheckingExisting(ctx), UpdatingPackage(ctx, false), f);
    Proceeds(s, u, UpdatingPackage(ctx, false), Updating(ctx, false), f);
    Proceeds(s, u, Updating(ctx, false), Done(OkResponse), f);
    FinishDone(s, u, OkResponse, f);
  }

  lemma FoundAgain(digest: Bytes -> string, s: State, r: ReleaseId, u: Upload, pc: Pc)
    requires Inv(digest, s) && Matches(s, u, r)
    ensures FindRelease(Alone(s, u, pc), u) == Some(r)
  {
    hide ArtifactSound, PutSound, SlashFreeDigest;
    assert Matches(Alone(s, u, pc), u, r);
  }

  /** Without failures a deployed file goes from statement to statement and changes nothing. */
  lemma Proceeds(s: State, u: Upload, pc: Pc, pc': Pc, f: Faults)
    requires Ready(Alone(s, u, pc), 0, f) && NoFaults(f)
    requires match pc
      case Resolving => FindRelease(Alone(s, u, pc), u).Some?
                        && pc' == AfterResolving(u, ReadContext(Alone(s, u, pc), FindRelease(Alone(s, u, pc), u).value))
      case CheckingTarget(ctx) => (ctx.release, u.role.TargetFilename().GetOr("")) in s.artifacts && pc' == CheckingExisting(ctx)
      case CheckingExisting(ctx) => RecordedAs(s, ctx.release, u) && pc' == UpdatingPackage(ctx, false)
      case UpdatingPackage(ctx, inserted) => pc' == Updating(ctx, inserted)
      case Updating(ctx, inserted) => !Publishes(s, u, ctx) && pc' == Done(if inserted then CreatedResponse else OkResponse)
      case _ => false
    ensures Finish(Alone(s, u, pc), 0, f) == Finish(Alone(s, u, pc'), 0, f)
  {
    hide Advanced, Finish, FindRelease, AfterResolving;
    var from, c := Alone(s, u, pc), ChoiceFor(pc, f);
    FinishOne(from, f);
    if pc.Resolving? {
      AtResolving(from, 0, c);
    } else if pc.CheckingTarget? {
      AtCheckingTarget(from, 0, c);
    } else if pc.CheckingExisting? {
      AtCheckingExisting(from, 0, c);
    } else if pc.UpdatingPackage? {
      AtUpdatingPackage(from, 0, c);
    } else {
      AtUpdating(from, 0, c);
    }
    assert Advanced(from, 0, c) == Alone(s, u, pc');
  }

  lemma SucceededOnce(digest: Bytes -> string, s: State, u: Upload, f: Faults) returns (r: ReleaseId)
    requires Inv(digest, s) && s.puts == map[] && Parsed(digest, u) && Ready(Alone(s, u, Resolving), 0, f)
    requires Succeeded(Finish(Alone(s, u, Resolving), 0, f).puts[0].pc)
    ensures Inv(digest, Finish(Alone(s, u, Resolving), 0, f)) && Deployed(Finish(Alone(s, u, Resolving), 0, f), r, u)
  {
    hide Inv, Parsed, Finish, Deployed;
    StartInv(digest, s, u);
    FinishInv(digest, Alone(s, u, Resolving), 0, f);
    FinishOnTheWay(Alone(s, u, Resolving), 0, f);
    r :| Deployed(Finish(Alone(s, u, Resolving), 0, f), r, u);
  }

  /**
   Deploying is idempotent: after a PUT that succeeded, whatever failures it met, and however much
   later, the same PUT without failures answers OK and leaves every table and blob as it is.
   */
  lemma DeployTwiceIsDeployOnce(digest: Bytes -> string, s: State, u: Upload, f: Faults, f': Faults, later: int)
    requires Inv(digest, s) && s.puts == map[] && Parsed(digest, u) && Ready(Alone(s, u, Resolving), 0, f)
    requires Succeeded(Finish(Alone(s, u, Resolving), 0, f).puts[0].pc)
    requires NoFaults(f') && f'.freshId !in Finish(Alone(s, u, Resolving), 0, f).usedIds && '/' !in f'.freshId
    ensures var once := Finish(Alone(s, u, Resolving), 0, f).(now := later);
      Finish(Alone(once, u, Resolving), 0, f') == Alone(once, u, Done(OkResponse))
  {
    hide Finish, Inv, Parsed, OneStep, ReadContext;
    var r := SucceededOnce(digest, s, u, f);
    var once := Finish(Alone(s, u, Resolving), 0, f);
    LaterInv(digest, once, later);
    SecondPut(digest, once.(now := later), r, u, f');
  }

  lemma LaterInv(digest: Bytes -> string, s: State, later: int)
    requires Inv(digest, s)
    ensures Inv(digest, s.(now := later))
  {
    var s' := s.(now := later);
    hide SlashFreeDigest, StorageKey, Target, Classify;
    forall k | k in s'.artifacts ensures ArtifactSound(digest, s', k) {
      assert ArtifactSound(digest, s, k);
    }
    forall p | p in s'.puts ensures PutSound(digest, s', p) {
      assert PutSound(digest, s, p);
    }
  }
}
