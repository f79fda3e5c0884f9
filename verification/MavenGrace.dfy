/**
 The grace window of a published Maven release (crates/adapters/maven/src/routes.rs, `repository_put`,
 `release_accepts_new_artifacts`): which files may still come, and until when.  A PUT looks at the window
 once and takes its time afterwards.
 */
module MavenGrace {
  import opened Common
  import opened MavenNames
  import opened MavenDeploy
  import opened MavenSteps
  import opened MavenProofs
  import opened MavenRuns
  import opened MavenAcks
  import opened MavenWindow

  /** Step `n` records a new file of `r`, by PUT `p`. */
  ghost predicate Records(digest: Bytes -> string, start: int, steps: seq<Step>, n: nat, p: PutId, r: ReleaseId)
    requires Run(digest, Init(start), steps)
  {
    && n < |steps| && steps[n].Advance? && steps[n].put == p
    && var s := StateAt(digest, Init(start), steps, n);
       p in s.puts && InsertsRow(s, steps[n], (r, s.puts[p].upload.filename))
       && (r, s.puts[p].upload.filename) !in s.artifacts
       && (r, s.puts[p].upload.filename) in Apply(digest, s, steps[n]).artifacts
  }

  /**
   Any interleaving: a file enters a release that its PUT read as published only if that PUT checked the
   window at most an hour after the publication time it had read.  The file itself may come later.
   */
  lemma LateFilesWereChecked(digest: Bytes -> string, start: int, steps: seq<Step>, n: nat, p: PutId, r: ReleaseId) returns (i: nat)
    requires Run(digest, Init(start), steps) && Records(digest, start, steps, n, p, r)
    ensures var ctx := StateAt(digest, Init(start), steps, n).puts[p].pc.ctx;
      && i < n && Took(digest, Init(start), steps, i, p, CheckingWindow(ctx))
      && (Unpublished(ctx.status)
          || (ctx.status.Published? && StateAt(digest, Init(start), steps, i).now <= ctx.publishedAt + GRACE_WINDOW_SECONDS))
  {
    hide Run, StateAt, Apply, Enabled;
    i := BeforeInserting(digest, start, steps, n, p);
  }

  // ---------------------------------------------------------------- when the files are fixed

  /**
   A PUT that may still record a new file of `r`: it has passed the window check, or will with the context
   it has, and its target, if yet to be checked, is there.
   */
  predicate MayRecord(s: State, p: PutId, r: ReleaseId) {
    && Unfinished(s, p) && r in s.releases && HasContext(s.puts[p].pc) && s.puts[p].pc.ctx.release == r
    && (r, s.puts[p].upload.filename) !in s.artifacts
    && match s.puts[p].pc
       case StoringBlob(_) => true
       case Inserting(_) => true
       case CheckingWindow(ctx) => AcceptsNewArtifacts(ctx, s.now)
       case CheckingExisting(ctx) => AcceptsNewArtifacts(ctx, s.now)
       case CheckingTarget(ctx) =>
         AcceptsNewArtifacts(ctx, s.now) && (r, s.puts[p].upload.role.TargetFilename().GetOr("")) in s.artifacts
       case _ => false
  }

  /** A PUT that reads the release now may record nothing in it. */
  predicate Closed(s: State, r: ReleaseId) {
    r in s.releases && !AcceptsNewArtifacts(ReadContext(s, r), s.now)
  }

  /** The release has the same row and the same files. */
  ghost predicate SameRowAndFiles(s: State, s': State, r: ReleaseId) {
    && r in s.releases && r in s'.releases && s'.releases[r] == s.releases[r]
    && (forall f :: (r, f) in s'.artifacts <==> (r, f) in s.artifacts)
    && (forall f :: (r, f) in s.artifacts ==> s'.artifacts[(r, f)] == s.artifacts[(r, f)])
  }

  ghost predicate StatusLeftAlone(steps: seq<Step>, r: ReleaseId) {
    forall k :: 0 <= k < |steps| ==> !(steps[k].SetStatus? && steps[k].release == r)
  }

  /** Whatever comes, the release keeps row and files as long as it is there and nobody sets its status from elsewhere. */
  ghost predicate FixedForGood(digest: Bytes -> string, s: State, r: ReleaseId) {
    forall after: seq<Step> | Run(digest, s, after) && StatusLeftAlone(after, r) && r in Exec(digest, s, after).releases ::
      SameRowAndFiles(s, Exec(digest, s, after), r)
  }

  ghost predicate NothingToCome(s: State, r: ReleaseId) {
    forall p :: !MayRecord(s, p, r) && !MayRepublish(s, p, r)
  }

  lemma AcceptsLess(ctx: Context, now: int, later: int)
    requires now <= later && !AcceptsNewArtifacts(ctx, now)
    ensures !AcceptsNewArtifacts(ctx, later) && !Unpublished(ctx.status)
  {
  }

  lemma NoNewFile(digest: Bytes -> string, s: State, step: Step, r: ReleaseId, f: string)
    requires Enabled(digest, s, step) && NothingToCome(s, r)
    ensures (r, f) in Apply(digest, s, step).artifacts ==> (r, f) in s.artifacts
  {
    hide Apply, Enabled, AcceptsNewArtifacts, MayRepublish;
    if (r, f) in Apply(digest, s, step).artifacts && (r, f) !in s.artifacts {
      NewRowsAreInserted(digest, s, step, (r, f));
      InserterMayRecord(s, step, r, f);
    }
  }

  lemma InserterMayRecord(s: State, step: Step, r: ReleaseId, f: string)
    requires InsertsRow(s, step, (r, f)) && r in s.releases && (r, f) !in s.artifacts
    ensures MayRecord(s, step.put, r)
  {
  }

  lemma MayRecordBefore(digest: Bytes -> string, s: State, step: Step, r: ReleaseId, p: PutId)
    requires Inv(digest, s) && Enabled(digest, s, step) && Closed(s, r) && NothingToCome(s, r)
    requires MayRecord(Apply(digest, s, step), p, r)
    ensures MayRecord(s, p, r)
  {
    hide Apply, Enabled, Inv, AcceptsNewArtifacts, NothingToCome, MayRepublish, NextPc, FindRelease, CreatesRelease;
    var s' := Apply(digest, s, step);
    PcMoves(digest, s, step, p);
    StepKeeps(digest, s, step);
    StepFrame(digest, s, step);
    IdsUsed(digest, s);
    NoNewFile(digest, s, step, r, s'.puts[p].upload.role.TargetFilename().GetOr(""));
    if p in s.puts && HasContext(s.puts[p].pc) && !AcceptsNewArtifacts(s.puts[p].pc.ctx, s.now) {
      AcceptsLess(s.puts[p].pc.ctx, s.now, s'.now);
    }
    if p in s.puts && step.Advance? && step.put == p && CanAdvance(s, p, step.choice) {
      CameFrom(s, p, step.choice);
      ToWindow(s, p, step.choice);
      AcceptsLess(ReadContext(s, r), s.now, s'.now);
    }
  }

  lemma ToWindow(s: State, p: PutId, c: Choice)
    requires CanAdvance(s, p, c)
    ensures var pc := s.puts[p].pc; var pc' := NextPc(s, p, c);
      && (pc'.CheckingWindow? ==> pc == CheckingExisting(pc'.ctx))
      && (pc'.CheckingExisting? && HasContext(pc) ==>
            pc == CheckingTarget(pc'.ctx) && (pc'.ctx.release, s.puts[p].upload.role.TargetFilename().GetOr("")) in s.artifacts)
      && (pc'.CheckingTarget? ==> !HasContext(pc))
      && (s.puts[p].pc.Creating? && HasContext(pc') ==> pc'.ctx.release !in s.usedIds)
  {
    hide FindRelease, AcceptsNewArtifacts;
  }

  lemma FixedStep(digest: Bytes -> string, s: State, step: Step, r: ReleaseId)
    requires Inv(digest, s) && AcksSound(s) && Enabled(digest, s, step) && Closed(s, r) && NothingToCome(s, r)
    requires !(step.SetStatus? && step.release == r) && r in Apply(digest, s, step).releases
    ensures var s' := Apply(digest, s, step); Closed(s', r) && NothingToCome(s', r) && SameRowAndFiles(s, s', r)
  {
    hide Apply, Enabled, Inv, AcksSound, MayRecord, MayRepublish, PublishesRow, AcceptsNewArtifacts;
    var s' := Apply(digest, s, step);
    IdsUsed(digest, s);
    StepFrame(digest, s, step);
    StepKeeps(digest, s, step);
    ReleaseRowChanges(digest, s, step, r);
    AcceptsLess(ReadContext(s, r), s.now, s'.now);
    PublishedForGoodStep(digest, s, step, r);
    forall f ensures (r, f) in s'.artifacts <==> (r, f) in s.artifacts {
      NoNewFile(digest, s, step, r, f);
    }
    forall p ensures !MayRecord(s', p, r) {
      if MayRecord(s', p, r) {
        MayRecordBefore(digest, s, step, r, p);
      }
    }
  }

  lemma {:induction false} FixedLater(digest: Bytes -> string, s: State, after: seq<Step>, r: ReleaseId)
    requires Inv(digest, s) && AcksSound(s) && Closed(s, r) && NothingToCome(s, r)
    requires Run(digest, s, after) && StatusLeftAlone(after, r) && r in Exec(digest, s, after).releases
    ensures SameRowAndFiles(s, Exec(digest, s, after), r)
    decreases |after|
  {
    hide Inv, AcksSound, Closed, NothingToCome, Apply, Enabled;
    if after != [] {
      var s' := Apply(digest, s, after[0]);
      InvStep(digest, s, after[0]);
      AcksStep(digest, s, after[0]);
      ClosedIsUsed(digest, s, r);
      StepFrame(digest, s, after[0]);
      StillThere(digest, s', after[1..], r);
      FixedStep(digest, s, after[0], r);
      FixedLater(digest, s', after[1..], r);
    }
  }

  lemma ClosedIsUsed(digest: Bytes -> string, s: State, r: ReleaseId)
    requires Inv(digest, s) && Closed(s, r)
    ensures r in s.releases && r in s.usedIds
  {
  }

  /** A release that was given out and is there at the end was there all the time. */
  lemma StillThere(digest: Bytes -> string, s: State, after: seq<Step>, r: ReleaseId)
    requires Inv(digest, s) && Run(digest, s, after) && r in s.usedIds && r in Exec(digest, s, after).releases
    ensures r in s.releases
  {
    hide Inv, Run, Exec;
    LastState(digest, s, after);
    LaterRows(digest, s, after, 0, |after|, (r, ""));
  }

  // ---------------------------------------------------------------- what is still to come

  /** One statement nearer to recording. */
  lemma NearerRecord(s: State, p: PutId, r: ReleaseId)
    requires MayRecord(s, p, r) && !s.puts[p].pc.Inserting?
    ensures CanAdvance(s, p, NO_FAULT) && MayRecord(Advanced(s, p, NO_FAULT), p, r)
    ensures Distance(Advanced(s, p, NO_FAULT).puts[p].pc) < Distance(s.puts[p].pc)
    ensures Advanced(s, p, NO_FAULT).puts[p].upload == s.puts[p].upload
  {
    hide Advanced, MakeArtifact, KeyOf, AcceptsNewArtifacts;
    var pc := s.puts[p].pc;
    if pc.CheckingTarget? {
      AtCheckingTarget(s, p, NO_FAULT);
    } else if pc.CheckingExisting? {
      AtCheckingExisting(s, p, NO_FAULT);
    } else if pc.CheckingWindow? {
      AtCheckingWindow(s, p, NO_FAULT);
    } else {
      AtStoringBlob(s, p, NO_FAULT);
    }
  }

  /** The statements of a PUT that may record its file do, if none of them fails. */
  lemma {:induction false} OwnStatementsRecord(digest: Bytes -> string, s: State, p: PutId, r: ReleaseId) returns (after: seq<Step>)
    requires MayRecord(s, p, r)
    ensures OwnStatements(after, p) && Run(digest, s, after)
    ensures var e := Exec(digest, s, after); r in e.releases && (r, s.puts[p].upload.filename) in e.artifacts
    decreases Distance(s.puts[p].pc)
  {
    hide Advanced, MakeArtifact;
    var step := Advance(p, NO_FAULT);
    if s.puts[p].pc.Inserting? {
      after := [step];
      assert after[1..] == [];
      AtInserting(s, p, NO_FAULT);
      assert (r, s.puts[p].upload.filename) in Exec(digest, s, after).artifacts;
    } else {
      NearerRecord(s, p, r);
      var rest := OwnStatementsRecord(digest, Advanced(s, p, NO_FAULT), p, r);
      after := [step] + rest;
      assert after[1..] == rest;
    }
  }

  lemma OwnLeaveStatus(after: seq<Step>, p: PutId, r: ReleaseId)
    requires OwnStatements(after, p)
    ensures StatusLeftAlone(after, r)
  {
  }

  lemma NotFixed(digest: Bytes -> string, s: State, after: seq<Step>, r: ReleaseId)
    requires Run(digest, s, after) && StatusLeftAlone(after, r) && r in Exec(digest, s, after).releases
    requires !SameRowAndFiles(s, Exec(digest, s, after), r)
    ensures !FixedForGood(digest, s, r)
  {
    hide Run, Exec, SameRowAndFiles;
  }

  /**
   Any interleaving.  A release that takes no file of a PUT which reads it now, because its hour is over or
   for its status, keeps its row and its files for good exactly if none of the unfinished PUTs may still
   record a file of it or publish it again.
   */
  lemma FilesFixedExactlyWhen(digest: Bytes -> string, start: int, before: seq<Step>, r: ReleaseId)
    requires SlashFreeDigest(digest) && Run(digest, Init(start), before) && Closed(Exec(digest, Init(start), before), r)
    ensures var s := Exec(digest, Init(start), before);
      FixedForGood(digest, s, r) <==> forall p :: !MayRecord(s, p, r) && !MayRepublish(s, p, r)
  {
    var s := Exec(digest, Init(start), before);
    AcksAt(digest, start, before, |before|);
    LastState(digest, Init(start), before);
    hide Run, Exec, StateAt, Inv, AcksSound, MayRepublish, SameRowAndFiles;
    if p :| MayRecord(s, p, r) {
      var after := OwnStatementsRecord(digest, s, p, r);
      OwnLeaveStatus(after, p, r);
      NewFileDiffers(s, Exec(digest, s, after), p, r);
      NotFixed(digest, s, after, r);
    } else if p :| MayRepublish(s, p, r) {
      var after := OwnStatementsPublish(digest, s, p, r);
      OwnLeaveStatus(after, p, r);
      NewTimeDiffers(s, Exec(digest, s, after), r);
      NotFixed(digest, s, after, r);
    } else {
      forall after: seq<Step> | Run(digest, s, after) && StatusLeftAlone(after, r) && r in Exec(digest, s, after).releases
        ensures SameRowAndFiles(s, Exec(digest, s, after), r)
      {
        FixedLater(digest, s, after, r);
      }
    }
  }

  lemma NewFileDiffers(s: State, s': State, p: PutId, r: ReleaseId)
    requires MayRecord(s, p, r) && (r, s.puts[p].upload.filename) in s'.artifacts
    ensures !SameRowAndFiles(s, s', r)
  {
  }

  lemma NewTimeDiffers(s: State, s': State, r: ReleaseId)
    requires Closed(s, r) && r in s'.releases && s'.releases[r].status.Published? && s'.releases[r].publishedAt == s.now
    ensures !SameRowAndFiles(s, s', r)
  {
  }

  /** While the release is open it takes any acceptable new file of a PUT that comes alone. */
  lemma OpenTakesFile(digest: Bytes -> string, s: State, r: ReleaseId, p: PutId, u: Upload) returns (after: seq<Step>)
    requires Inv(digest, s) && r in s.releases && !Closed(s, r)
    requires p !in s.puts && Parsed(digest, u) && Matches(s, u, r) && (r, u.filename) !in s.artifacts
    requires u.role.TargetFilename().Some? ==> (r, u.role.TargetFilename().value) in s.artifacts
    ensures OwnStatements(after, p) && Run(digest, s, [Start(p, u)] + after)
    ensures (r, u.filename) in Exec(digest, s, [Start(p, u)] + after).artifacts
  {
    hide Parsed, Advanced, AcceptsNewArtifacts;
    var s1 := s.(puts := s.puts[p := Put(u, Resolving)]);
    OneMatch(digest, s, s1, u, r);
    hide Inv, FindRelease, Matches;
    AtResolving(s1, p, NO_FAULT);
    var s2 := Advanced(s1, p, NO_FAULT);
    var rest := OwnStatementsRecord(digest, s2, p, r);
    after := [Advance(p, NO_FAULT)] + rest;
    assert after[1..] == rest;
    assert ([Start(p, u)] + after)[1..] == after;
    assert Apply(digest, s, Start(p, u)) == s1;
  }

  lemma OneMatch(digest: Bytes -> string, s: State, s1: State, u: Upload, r: ReleaseId)
    requires Inv(digest, s) && Matches(s, u, r) && s1.releases == s.releases
    ensures FindRelease(s1, u) == Some(r)
  {
    hide ArtifactSound, PutSound, SlashFreeDigest;
    assert Matches(s1, u, r);
  }

  lemma UsedAt(digest: Bytes -> string, start: int, steps: seq<Step>, i: nat, r: ReleaseId)
    requires SlashFreeDigest(digest) && Run(digest, Init(start), steps) && i <= |steps|
    requires r in StateAt(digest, Init(start), steps, i).releases
    ensures r in StateAt(digest, Init(start), steps, i).usedIds
  {
    hide Run, StateAt;
    InvAtStart(digest, start);
    InvAt(digest, Init(start), steps, i);
  }

  // ---------------------------------------------------------------- PUTs one at a time

  /** A PUT starts when the one before has answered, and nothing else touches releases. */
  ghost predicate OneAtATime(digest: Bytes -> string, start: int, steps: seq<Step>)
    requires Run(digest, Init(start), steps)
  {
    forall i :: 0 <= i < |steps| ==>
      && !steps[i].SetStatus? && !steps[i].DeleteRelease?
      && (steps[i].Start? ==> forall p :: !Unfinished(StateAt(digest, Init(start), steps, i), p))
  }

  ghost predicate AtMostOne(s: State) {
    forall p, q :: Unfinished(s, p) && Unfinished(s, q) ==> p == q
  }

  /** What the one unfinished PUT has read is what the tables say. */
  ghost predicate ContextsCurrent(s: State) {
    forall p | Unfinished(s, p) && HasContext(s.puts[p].pc) && s.puts[p].pc.ctx.release in s.releases ::
      && s.puts[p].pc.ctx.status == s.releases[s.puts[p].pc.ctx.release].status
      && s.puts[p].pc.ctx.publishedAt == s.releases[s.puts[p].pc.ctx.release].publishedAt
  }

  lemma OneAtATimeStep(digest: Bytes -> string, s: State, step: Step)
    requires Inv(digest, s) && Enabled(digest, s, step) && AtMostOne(s) && ContextsCurrent(s)
    requires !step.SetStatus? && !step.DeleteRelease? && (step.Start? ==> forall p :: !Unfinished(s, p))
    ensures AtMostOne(Apply(digest, s, step)) && ContextsCurrent(Apply(digest, s, step))
  {
    var s' := Apply(digest, s, step);
    forall p | Unfinished(s', p) ensures Unfinished(s, p) || step.Start? {
      PcMoves(digest, s, step, p);
    }
    forall p, q | Unfinished(s', p) && Unfinished(s', q) ensures p == q {
      OnlyStarted(digest, s, step, p);
      OnlyStarted(digest, s, step, q);
    }
    forall p | Unfinished(s', p) && HasContext(s'.puts[p].pc) && s'.puts[p].pc.ctx.release in s'.releases
      ensures s'.puts[p].pc.ctx.status == s'.releases[s'.puts[p].pc.ctx.release].status
      ensures s'.puts[p].pc.ctx.publishedAt == s'.releases[s'.puts[p].pc.ctx.release].publishedAt
    {
      ContextStaysCurrent(digest, s, step, p);
    }
  }

  lemma OnlyStarted(digest: Bytes -> string, s: State, step: Step, p: PutId)
    requires Enabled(digest, s, step) && Unfinished(Apply(digest, s, step), p)
    ensures Unfinished(s, p) || (step.Start? && step.put == p)
  {
    hide Parsed, NextPc, Effect, FindRelease;
  }

  lemma ContextStaysCurrent(digest: Bytes -> string, s: State, step: Step, p: PutId)
    requires Inv(digest, s) && Enabled(digest, s, step) && AtMostOne(s) && ContextsCurrent(s)
    requires !step.SetStatus? && !step.DeleteRelease?
    requires var s' := Apply(digest, s, step);
      Unfinished(s', p) && HasContext(s'.puts[p].pc) && s'.puts[p].pc.ctx.release in s'.releases
    ensures var s' := Apply(digest, s, step); var ctx := s'.puts[p].pc.ctx;
      ctx.status == s'.releases[ctx.release].status && ctx.publishedAt == s'.releases[ctx.release].publishedAt
  {
    hide Inv, Enabled, NextPc, FindRelease, Advanced, AtMostOne;
    if step.Advance? && step.put == p {
      MovedContextCurrent(digest, s, p, step.choice);
    } else {
      hide Apply;
      WaitingContextCurrent(digest, s, step, p);
    }
  }

  lemma MovedContextCurrent(digest: Bytes -> string, s: State, p: PutId, c: Choice)
    requires Inv(digest, s) && Enabled(digest, s, Advance(p, c)) && ContextsCurrent(s)
    requires var s' := Advanced(s, p, c);
      Unfinished(s', p) && HasContext(s'.puts[p].pc) && s'.puts[p].pc.ctx.release in s'.releases
    ensures var s' := Advanced(s, p, c); var ctx := s'.puts[p].pc.ctx;
      ctx.status == s'.releases[ctx.release].status && ctx.publishedAt == s'.releases[ctx.release].publishedAt
  {
    hide Inv, NextPc, FindRelease, AcceptsNewArtifacts;
    CameFrom(s, p, c);
    if s.puts[p].pc.Creating? {
      AtCreating(s, p, c);
    } else {
      var r := Advanced(s, p, c).puts[p].pc.ctx.release;
      if HasContext(s.puts[p].pc) {
        ContextUsed(digest, s, p);
      }
      IdsUsed(digest, s);
      StepFrame(digest, s, Advance(p, c));
      OwnRowKept(digest, s, p, c, r);
    }
  }

  lemma OwnRowKept(digest: Bytes -> string, s: State, p: PutId, c: Choice, r: ReleaseId)
    requires Inv(digest, s) && Enabled(digest, s, Advance(p, c)) && r in s.releases && r in Advanced(s, p, c).releases
    requires HasContext(Advanced(s, p, c).puts[p].pc)
    ensures Advanced(s, p, c).releases[r] == s.releases[r]
  {
    hide NextPc, Effect, FindRelease;
    IdsUsed(digest, s);
    hide Inv;
    ReleaseRowChanges(digest, s, Advance(p, c), r);
    if s.puts[p].pc.Updating? {
      AtUpdating(s, p, c);
    }
  }

  lemma ContextUsed(digest: Bytes -> string, s: State, p: PutId)
    requires Inv(digest, s) && p in s.puts && HasContext(s.puts[p].pc)
    ensures s.puts[p].pc.ctx.release in s.usedIds
  {
    assert PutSound(digest, s, p);
  }

  lemma WaitingContextCurrent(digest: Bytes -> string, s: State, step: Step, p: PutId)
    requires Inv(digest, s) && Enabled(digest, s, step) && AtMostOne(s) && ContextsCurrent(s)
    requires !step.SetStatus? && !step.DeleteRelease? && !(step.Advance? && step.put == p)
    requires var s' := Apply(digest, s, step);
      Unfinished(s', p) && HasContext(s'.puts[p].pc) && s'.puts[p].pc.ctx.release in s'.releases
    ensures var s' := Apply(digest, s, step); var ctx := s'.puts[p].pc.ctx;
      ctx.status == s'.releases[ctx.release].status && ctx.publishedAt == s'.releases[ctx.release].publishedAt
  {
    hide Apply, Enabled, Inv;
    var r := Apply(digest, s, step).puts[p].pc.ctx.release;
    PcMoves(digest, s, step, p);
    ContextUsed(digest, s, p);
    IdsUsed(digest, s);
    StepFrame(digest, s, step);
    ReleaseRowChanges(digest, s, step, r);
    assert Unfinished(s, p);
    assert PublishesRow(s, step, r) ==> Unfinished(s, step.put);
  }

  lemma {:induction false} OneAtATimeAt(digest: Bytes -> string, start: int, steps: seq<Step>, n: nat)
    requires SlashFreeDigest(digest) && Run(digest, Init(start), steps) && OneAtATime(digest, start, steps) && n <= |steps|
    ensures AtMostOne(StateAt(digest, Init(start), steps, n)) && ContextsCurrent(StateAt(digest, Init(start), steps, n))
    decreases n
  {
    hide Run, Inv, Enabled, Apply;
    if n > 0 {
      OneAtATimeAt(digest, start, steps, n - 1);
      InvAtStart(digest, start);
      InvAt(digest, Init(start), steps, n - 1);
      NextState(digest, Init(start), steps, n - 1);
      OneAtATimeStep(digest, StateAt(digest, Init(start), steps, n - 1), steps[n - 1]);
    }
  }

  /** PUTs one at a time: a published release keeps its row, and in particular its publication time. */
  lemma RowKeptWhenAlone(digest: Bytes -> string, s: State, step: Step, r: ReleaseId)
    requires Inv(digest, s) && ContextsCurrent(s) && Enabled(digest, s, step) && !step.SetStatus?
    requires r in s.releases && s.releases[r].status.Published? && r in Apply(digest, s, step).releases
    ensures Apply(digest, s, step).releases[r] == s.releases[r]
  {
    hide Inv, Enabled, Apply;
    IdsUsed(digest, s);
    ReleaseRowChanges(digest, s, step, r);
    assert PublishesRow(s, step, r) ==> Unfinished(s, step.put);
  }

  lemma {:induction false} PublishedRowFinal(digest: Bytes -> string, start: int, steps: seq<Step>, i: nat, j: nat, r: ReleaseId)
    requires SlashFreeDigest(digest) && Run(digest, Init(start), steps) && OneAtATime(digest, start, steps) && i <= j <= |steps|
    requires var s := StateAt(digest, Init(start), steps, i); r in s.releases && s.releases[r].status.Published?
    requires r in StateAt(digest, Init(start), steps, j).releases
    ensures StateAt(digest, Init(start), steps, j).releases[r] == StateAt(digest, Init(start), steps, i).releases[r]
    decreases j
  {
    hide Run, StateAt, Enabled, Apply, Inv, AtMostOne, ContextsCurrent;
    if i < j {
      var before := StateAt(digest, Init(start), steps, j - 1);
      InvAtStart(digest, start);
      InvAt(digest, Init(start), steps, j - 1);
      NextState(digest, Init(start), steps, j - 1);
      LaterKeeps(digest, Init(start), steps, i, j - 1);
      UsedAt(digest, start, steps, i, r);
      OneAtATimeAt(digest, start, steps, j - 1);
      StepFrame(digest, before, steps[j - 1]);
      PublishedRowFinal(digest, start, steps, i, j - 1, r);
      RowKeptWhenAlone(digest, before, steps[j - 1], r);
    }
  }

  /**
   PUTs one at a time, each taking as long as it likes: after publication no PUT, a repeated POM
   included, moves status or time, and every file recorded from then on comes from a PUT that checked
   the window within the hour.
   */
  lemma PublishedIsFinal(digest: Bytes -> string, start: int, steps: seq<Step>, i: nat, n: nat, p: PutId, r: ReleaseId) returns (check: nat)
    requires SlashFreeDigest(digest) && Run(digest, Init(start), steps) && OneAtATime(digest, start, steps) && i <= n < |steps|
    requires var s := StateAt(digest, Init(start), steps, i); r in s.releases && s.releases[r].status.Published?
    requires Records(digest, start, steps, n, p, r)
    ensures r in StateAt(digest, Init(start), steps, n + 1).releases
    ensures StateAt(digest, Init(start), steps, n + 1).releases[r] == StateAt(digest, Init(start), steps, i).releases[r]
    ensures check < n && Took(digest, Init(start), steps, check, p, CheckingWindow(StateAt(digest, Init(start), steps, n).puts[p].pc.ctx))
    ensures StateAt(digest, Init(start), steps, check).now
         <= StateAt(digest, Init(start), steps, i).releases[r].publishedAt + GRACE_WINDOW_SECONDS
  {
    check := LateFilesWereChecked(digest, start, steps, n, p, r);
    OneAtATimeAt(digest, start, steps, n);
    NextState(digest, Init(start), steps, n);
    NewRowsAreInserted(digest, StateAt(digest, Init(start), steps, n), steps[n], (r, StateAt(digest, Init(start), steps, n).puts[p].upload.filename));
    hide Run, StateAt, Enabled, Apply;
    PublishedRowFinal(digest, start, steps, i, n, r);
    PublishedRowFinal(digest, start, steps, i, n + 1, r);
  }
}
