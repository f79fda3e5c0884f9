/**
 What one Maven PUT answers and writes when nothing runs in between and nothing fails
 (crates/adapters/maven/src/routes.rs, `repository_put`), as a table of cases.
 */
module MavenAnswers {
  import opened Common
  import opened MavenNames
  import opened MavenDeploy
  import opened MavenSteps
  import opened MavenProofs
  import opened MavenSerial
  import opened MavenAcks

  predicate NothingFails(f: Faults) {
    NoFaults(f) && !f.create && !f.reload && !f.store && !f.insert && !f.reread
  }

  /** The new file's row, and its bytes under their key. */
  function WithFile(s: State, r: ReleaseId, u: Upload): State {
    var key := "releases/" + (r + ("/artifacts/" + (u.sha256 + ("/" + u.filename))));
    var kind := match u.role
      case Primary => JarKind
      case Pom => PomKind
      case Signature(_) => SignatureKind
      case Checksum(_, _) => ChecksumKind;
    s.(artifacts := s.artifacts[(r, u.filename) := Artifact(key, u.sha256, u.size, kind)], blobs := s.blobs[key := u.bytes])
  }

  /** A POM publishes a release that was unpublished. */
  function WithPublication(s: State, r: ReleaseId, u: Upload): State
    requires r in s.releases
  {
    if u.role == Pom && (s.releases[r].status == Quarantine || s.releases[r].status == Scanning)
    then s.(releases := s.releases[r := Release(s.releases[r].package, s.releases[r].version, Published, s.now)])
    else s
  }

  /** The release still takes new files: it is unpublished, or was published at most an hour ago. */
  predicate TakesNewFiles(s: State, r: ReleaseId)
    requires r in s.releases
  {
    || s.releases[r].status == Quarantine || s.releases[r].status == Scanning
    || (s.releases[r].status == Published && s.now - s.releases[r].publishedAt <= 60 * 60)
  }

  /** The answer of a PUT to the release `r`, and the tables after it. */
  function AnswerOf(s: State, r: ReleaseId, u: Upload): (State, Response)
    requires r in s.releases
  {
    var k := (r, u.filename);
    if u.role.TargetFilename().Some? && (r, u.role.TargetFilename().value) !in s.artifacts then (s, ConflictResponse)
    else if k in s.artifacts then
      if s.artifacts[k].sha256 == u.sha256 then (WithPublication(s, r, u), OkResponse) else (s, ConflictResponse)
    else if !TakesNewFiles(s, r) then (s, ConflictResponse)
    else (WithPublication(WithFile(s, r, u), r, u), CreatedResponse)
  }

  // ---------------------------------------------------------------- statement by statement

  lemma Goes(s: State, u: Upload, pc: Pc, s': State, pc': Pc, f: Faults)
    requires Ready(Alone(s, u, pc), 0, f) && !pc.Done?
    requires Advanced(Alone(s, u, pc), 0, ChoiceFor(pc, f)) == Alone(s', u, pc')
    ensures Ready(Alone(s', u, pc'), 0, f) && Finish(Alone(s, u, pc), 0, f) == Finish(Alone(s', u, pc'), 0, f)
  {
    hide Advanced;
    assert Alone(s', u, pc') == OneStep(Alone(s, u, pc), 0, f);
    FinishOne(Alone(s, u, pc), f);
  }

  lemma FileRow(s: State, r: ReleaseId, u: Upload)
    ensures WithFile(s, r, u) == s.(artifacts := s.artifacts[(r, u.filename) := MakeArtifact(r, u)], blobs := s.blobs[KeyOf(r, u) := u.bytes])
  {
    assert "/" + ("artifacts/" + (u.sha256 + ("/" + u.filename))) == "/artifacts/" + (u.sha256 + ("/" + u.filename));
  }

  /** The last two statements. */
  lemma Finishing(s: State, u: Upload, ctx: Context, inserted: bool, f: Faults)
    requires NothingFails(f) && ctx.release in s.releases && ctx.status == s.releases[ctx.release].status
    ensures Finish(Alone(s, u, UpdatingPackage(ctx, inserted)), 0, f)
         == Alone(WithPublication(s, ctx.release, u), u, Done(if inserted then CreatedResponse else OkResponse))
  {
    hide Advanced, Finish, WithPublication;
    AtUpdatingPackage(Alone(s, u, UpdatingPackage(ctx, inserted)), 0, ChoiceFor(UpdatingPackage(ctx, inserted), f));
    assert Advanced(Alone(s, u, UpdatingPackage(ctx, inserted)), 0, ChoiceFor(UpdatingPackage(ctx, inserted), f)) == Alone(s, u, Updating(ctx, inserted));
    Goes(s, u, UpdatingPackage(ctx, inserted), s, Updating(ctx, inserted), f);
    Publishing(s, u, ctx, inserted, f);
  }

  lemma PublishedAlike(s: State, u: Upload, ctx: Context, pc: Pc)
    requires ctx.release in s.releases && ctx.status == s.releases[ctx.release].status
    ensures WithPublication(s, ctx.release, u) == s.(
      releases := if Publishes(Alone(s, u, pc), u, ctx)
                  then s.releases[ctx.release := s.releases[ctx.release].(status := Published, publishedAt := s.now)]
                  else s.releases)
  {
  }

  lemma Publishing(s: State, u: Upload, ctx: Context, inserted: bool, f: Faults)
    requires NothingFails(f) && ctx.release in s.releases && ctx.status == s.releases[ctx.release].status
    ensures Finish(Alone(s, u, Updating(ctx, inserted)), 0, f)
         == Alone(WithPublication(s, ctx.release, u), u, Done(if inserted then CreatedResponse else OkResponse))
  {
    hide Advanced, Finish, WithPublication, Publishes;
    var s1 := WithPublication(s, ctx.release, u);
    var answer := if inserted then CreatedResponse else OkResponse;
    PublishedAlike(s, u, ctx, Updating(ctx, inserted));
    AtUpdating(Alone(s, u, Updating(ctx, inserted)), 0, ChoiceFor(Updating(ctx, inserted), f));
    assert Advanced(Alone(s, u, Updating(ctx, inserted)), 0, ChoiceFor(Updating(ctx, inserted), f)) == Alone(s1, u, Done(answer));
    Goes(s, u, Updating(ctx, inserted), s1, Done(answer), f);
    FinishDone(s1, u, answer, f);
  }

  /** Blob and row of a new file. */
  lemma Recording(s: State, u: Upload, ctx: Context, f: Faults)
    requires NothingFails(f) && ctx.release in s.releases && (ctx.release, u.filename) !in s.artifacts && ctx.status == s.releases[ctx.release].status
    ensures Finish(Alone(s, u, StoringBlob(ctx)), 0, f)
         == Alone(WithPublication(WithFile(s, ctx.release, u), ctx.release, u), u, Done(CreatedResponse))
  {
    hide Advanced, Finish, KeyOf, MakeArtifact, WithFile;
    FileRow(s, ctx.release, u);
    var s1 := s.(blobs := s.blobs[KeyOf(ctx.release, u) := u.bytes]);
    AtStoringBlob(Alone(s, u, StoringBlob(ctx)), 0, ChoiceFor(StoringBlob(ctx), f));
    assert Advanced(Alone(s, u, StoringBlob(ctx)), 0, ChoiceFor(StoringBlob(ctx), f)) == Alone(s1, u, Inserting(ctx));
    Goes(s, u, StoringBlob(ctx), s1, Inserting(ctx), f);
    var s2 := WithFile(s, ctx.release, u);
    AtInserting(Alone(s1, u, Inserting(ctx)), 0, ChoiceFor(Inserting(ctx), f));
    assert Advanced(Alone(s1, u, Inserting(ctx)), 0, ChoiceFor(Inserting(ctx), f)) == Alone(s2, u, UpdatingPackage(ctx, true));
    Goes(s1, u, Inserting(ctx), s2, UpdatingPackage(ctx, true), f);
    Finishing(s2, u, ctx, true, f);
  }

  /** From the search for the file on. */
  lemma FromSearch(s: State, u: Upload, ctx: Context, f: Faults)
    requires NothingFails(f) && ctx.release in s.releases
    requires ctx.status == s.releases[ctx.release].status && ctx.publishedAt == s.releases[ctx.release].publishedAt
    requires u.role.TargetFilename().Some? ==> (ctx.release, u.role.TargetFilename().value) in s.artifacts
    ensures var (s', answer) := AnswerOf(s, ctx.release, u);
      Finish(Alone(s, u, CheckingExisting(ctx)), 0, f) == Alone(s', u, Done(answer))
  {
    hide Advanced, Finish, KeyOf, MakeArtifact, WithFile, WithPublication;
    var k := (ctx.release, u.filename);
    AtCheckingExisting(Alone(s, u, CheckingExisting(ctx)), 0, ChoiceFor(CheckingExisting(ctx), f));
    if k in s.artifacts && s.artifacts[k].sha256 == u.sha256 {
      assert Advanced(Alone(s, u, CheckingExisting(ctx)), 0, ChoiceFor(CheckingExisting(ctx), f)) == Alone(s, u, UpdatingPackage(ctx, false));
      Goes(s, u, CheckingExisting(ctx), s, UpdatingPackage(ctx, false), f);
      Finishing(s, u, ctx, false, f);
    } else if k in s.artifacts {
      assert Advanced(Alone(s, u, CheckingExisting(ctx)), 0, ChoiceFor(CheckingExisting(ctx), f)) == Alone(s, u, Done(ConflictResponse));
      Goes(s, u, CheckingExisting(ctx), s, Done(ConflictResponse), f);
      FinishDone(s, u, ConflictResponse, f);
    } else {
      assert Advanced(Alone(s, u, CheckingExisting(ctx)), 0, ChoiceFor(CheckingExisting(ctx), f)) == Alone(s, u, CheckingWindow(ctx));
      Goes(s, u, CheckingExisting(ctx), s, CheckingWindow(ctx), f);
      FromWindow(s, u, ctx, f);
    }
  }

  lemma FromWindow(s: State, u: Upload, ctx: Context, f: Faults)
    requires NothingFails(f) && ctx.release in s.releases && (ctx.release, u.filename) !in s.artifacts
    requires ctx.status == s.releases[ctx.release].status && ctx.publishedAt == s.releases[ctx.release].publishedAt
    ensures Finish(Alone(s, u, CheckingWindow(ctx)), 0, f) ==
      if TakesNewFiles(s, ctx.release)
      then Alone(WithPublication(WithFile(s, ctx.release, u), ctx.release, u), u, Done(CreatedResponse))
      else Alone(s, u, Done(ConflictResponse))
  {
    hide Advanced, Finish, KeyOf, MakeArtifact, WithFile, WithPublication;
    AtCheckingWindow(Alone(s, u, CheckingWindow(ctx)), 0, ChoiceFor(CheckingWindow(ctx), f));
    if TakesNewFiles(s, ctx.release) {
      assert Advanced(Alone(s, u, CheckingWindow(ctx)), 0, ChoiceFor(CheckingWindow(ctx), f)) == Alone(s, u, StoringBlob(ctx));
      Goes(s, u, CheckingWindow(ctx), s, StoringBlob(ctx), f);
      Recording(s, u, ctx, f);
    } else {
      assert Advanced(Alone(s, u, CheckingWindow(ctx)), 0, ChoiceFor(CheckingWindow(ctx), f)) == Alone(s, u, Done(ConflictResponse));
      Goes(s, u, CheckingWindow(ctx), s, Done(ConflictResponse), f);
      FinishDone(s, u, ConflictResponse, f);
    }
  }

  /** From the check for the target on, if there is one. */
  lemma FromRelease(s: State, u: Upload, ctx: Context, f: Faults)
    requires NothingFails(f) && ctx.release in s.releases
    requires ctx.status == s.releases[ctx.release].status && ctx.publishedAt == s.releases[ctx.release].publishedAt
    ensures var (s', answer) := AnswerOf(s, ctx.release, u);
      Finish(Alone(s, u, AfterResolving(u, ctx)), 0, f) == Alone(s', u, Done(answer))
  {
    hide Advanced, Finish, WithFile, WithPublication, TakesNewFiles;
    if u.role.TargetFilename().None? {
      FromSearch(s, u, ctx, f);
    } else {
      AtCheckingTarget(Alone(s, u, CheckingTarget(ctx)), 0, ChoiceFor(CheckingTarget(ctx), f));
      if (ctx.release, u.role.TargetFilename().value) in s.artifacts {
        assert Advanced(Alone(s, u, CheckingTarget(ctx)), 0, ChoiceFor(CheckingTarget(ctx), f)) == Alone(s, u, CheckingExisting(ctx));
        Goes(s, u, CheckingTarget(ctx), s, CheckingExisting(ctx), f);
        FromSearch(s, u, ctx, f);
      } else {
        assert Advanced(Alone(s, u, CheckingTarget(ctx)), 0, ChoiceFor(CheckingTarget(ctx), f)) == Alone(s, u, Done(ConflictResponse));
        Goes(s, u, CheckingTarget(ctx), s, Done(ConflictResponse), f);
        FinishDone(s, u, ConflictResponse, f);
      }
    }
  }

  // ---------------------------------------------------------------- the whole PUT

  /** A PUT to a release that is there. */
  lemma PutToRelease(digest: Bytes -> string, s: State, r: ReleaseId, u: Upload, f: Faults)
    requires Inv(digest, s) && s.puts == map[] && NothingFails(f) && f.freshId !in s.usedIds && '/' !in f.freshId
    requires r in s.releases && s.releases[r].package == u.package && s.releases[r].version == u.version
    ensures var (s', answer) := AnswerOf(s, r, u);
      Finish(Alone(s, u, Resolving), 0, f) == Alone(s', u, Done(answer))
  {
    FoundAgain(digest, s, r, u, Resolving);
    hide Advanced, Finish, Inv, FindRelease, AfterResolving, AnswerOf;
    var ctx := ReadContext(s, r);
    AtResolving(Alone(s, u, Resolving), 0, ChoiceFor(Resolving, f));
    assert Advanced(Alone(s, u, Resolving), 0, ChoiceFor(Resolving, f)) == Alone(s, u, AfterResolving(u, ctx));
    Goes(s, u, Resolving, s, AfterResolving(u, ctx), f);
    FromRelease(s, u, ctx, f);
  }

  function WithRelease(s: State, r: ReleaseId, u: Upload): State {
    s.(releases := s.releases[r := Release(u.package, u.version, Quarantine, s.now)], usedIds := s.usedIds + {r})
  }

  /**
   A PUT to a release that is not there: a primary file or a POM creates it and is recorded in it, and a POM
   publishes it at once; a checksum or a signature is a conflict.
   */
  lemma PutToNothing(digest: Bytes -> string, s: State, u: Upload, f: Faults)
    requires Inv(digest, s) && s.puts == map[] && NothingFails(f) && f.freshId !in s.usedIds && '/' !in f.freshId
    requires forall r | r in s.releases :: !(s.releases[r].package == u.package && s.releases[r].version == u.version)
    ensures Finish(Alone(s, u, Resolving), 0, f) ==
      if u.role == Primary || u.role == Pom
      then Alone(WithPublication(WithFile(WithRelease(s, f.freshId, u), f.freshId, u), f.freshId, u), u, Done(CreatedResponse))
      else Alone(s, u, Done(ConflictResponse))
  {
    NothingFound(s, u);
    hide Advanced, Finish, FindRelease, WithFile, WithPublication, WithRelease, Inv, AfterResolving;
    AtResolving(Alone(s, u, Resolving), 0, ChoiceFor(Resolving, f));
    if u.role == Primary || u.role == Pom {
      assert Advanced(Alone(s, u, Resolving), 0, ChoiceFor(Resolving, f)) == Alone(s, u, Creating);
      Goes(s, u, Resolving, s, Creating, f);
      PutCreates(digest, s, u, f);
    } else {
      assert Advanced(Alone(s, u, Resolving), 0, ChoiceFor(Resolving, f)) == Alone(s, u, Done(ConflictResponse));
      Goes(s, u, Resolving, s, Done(ConflictResponse), f);
      FinishDone(s, u, ConflictResponse, f);
    }
  }

  lemma NothingFound(s: State, u: Upload)
    requires forall r | r in s.releases :: !(s.releases[r].package == u.package && s.releases[r].version == u.version)
    ensures forall pc :: FindRelease(Alone(s, u, pc), u).None?
  {
  }

  lemma NothingRecorded(digest: Bytes -> string, s: State, r: ReleaseId)
    requires Inv(digest, s) && r !in s.usedIds
    ensures r !in s.releases && forall f :: (r, f) !in s.artifacts
  {
    forall f ensures (r, f) !in s.artifacts {
      assert (r, f) in s.artifacts ==> ArtifactSound(digest, s, (r, f));
    }
  }

  lemma NewTakesFile(s: State, r: ReleaseId, u: Upload)
    requires (r, u.filename) !in s.artifacts && (u.role == Primary || u.role == Pom)
    ensures AnswerOf(WithRelease(s, r, u), r, u)
         == (WithPublication(WithFile(WithRelease(s, r, u), r, u), r, u), CreatedResponse)
  {
    hide WithFile, WithPublication;
  }

  lemma PutCreates(digest: Bytes -> string, s: State, u: Upload, f: Faults)
    requires Inv(digest, s) && NothingFails(f) && f.freshId !in s.usedIds && '/' !in f.freshId && (u.role == Primary || u.role == Pom)
    requires FindRelease(Alone(s, u, Creating), u).None?
    ensures Finish(Alone(s, u, Creating), 0, f)
         == Alone(WithPublication(WithFile(WithRelease(s, f.freshId, u), f.freshId, u), f.freshId, u), u, Done(CreatedResponse))
  {
    hide Advanced, Finish, FindRelease, WithFile, WithPublication, Inv, AfterResolving, AnswerOf;
    NothingRecorded(digest, s, f.freshId);
    NewTakesFile(s, f.freshId, u);
    var created := WithRelease(s, f.freshId, u);
    var ctx := Context(f.freshId, Quarantine, s.now, true);
    AtCreating(Alone(s, u, Creating), 0, ChoiceFor(Creating, f));
    assert Advanced(Alone(s, u, Creating), 0, ChoiceFor(Creating, f)) == Alone(created, u, AfterResolving(u, ctx));
    ResolvedPc(u);
    Goes(s, u, Creating, created, AfterResolving(u, ctx), f);
    FromRelease(created, u, ctx, f);
  }
}
