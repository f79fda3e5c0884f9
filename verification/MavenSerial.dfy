/**
 Maven PUTs one at a time (crates/adapters/maven/src/routes.rs): `repository_put` from start to end,
 proved to go the way of its statements when nothing runs in between.
 */
module MavenSerial {
  import opened Common
  import opened MavenNames
  import opened MavenDeploy
  import opened MavenSteps
  import opened MavenProofs

  /** What goes wrong in one PUT, statement by statement, and the id a new release would get. */
  datatype Faults = Faults(
    resolve: bool, create: bool, reload: bool, target: bool, existing: bool, store: bool, landed: bool,
    rollback: bool, insert: bool, reread: bool, updatePackage: bool, update: bool, freshId: ReleaseId)

  function ChoiceFor(pc: Pc, f: Faults): Choice {
    var fault := match pc
      case Resolving => f.resolve
      case Creating => f.create
      case Reloading => f.reload
      case CheckingTarget(_) => f.target
      case CheckingExisting(_) => f.existing
      case StoringBlob(_) => f.store
      case RollingBack(_) => f.rollback
      case Inserting(_) => f.insert
      case Rereading(_) => f.reread
      case UpdatingPackage(_, _) => f.updatePackage
      case Updating(_, _) => f.update
      case _ => false;
    Choice(fault, f.landed, f.freshId)
  }

  function Rank(pc: Pc): nat {
    match pc
    case Resolving => 12
    case Creating => 11
    case Reloading => 10
    case CheckingTarget(_) => 9
    case CheckingExisting(_) => 8
    case CheckingWindow(_) => 7
    case StoringBlob(_) => 6
    case Inserting(_) => 5
    case Rereading(_) => 4
    case UpdatingPackage(_, _) => 3
    case Updating(_, _) => 2
    case RollingBack(_) => 1
    case Done(_) => 0
  }

  predicate Ready(s: State, p: PutId, f: Faults) {
    p in s.puts && (s.puts[p].pc.Resolving? || s.puts[p].pc.Creating? ==> f.freshId !in s.usedIds && '/' !in f.freshId)
  }

  ghost function OneStep(s: State, p: PutId, f: Faults): (s': State)
    requires Ready(s, p, f) && !s.puts[p].pc.Done?
    ensures Ready(s', p, f) && Rank(s'.puts[p].pc) < Rank(s.puts[p].pc)
    ensures s'.puts.Keys == s.puts.Keys && s'.puts[p].upload == s.puts[p].upload
  {
    Advanced(s, p, ChoiceFor(s.puts[p].pc, f))
  }

  /** PUT `p` run to its response without interruption. */
  ghost function Finish(s: State, p: PutId, f: Faults): (s': State)
    requires Ready(s, p, f)
    ensures p in s'.puts && s'.puts[p].pc.Done?
    decreases Rank(s.puts[p].pc)
  {
    if s.puts[p].pc.Done? then s else Finish(OneStep(s, p, f), p, f)
  }

  /** The tables `s` with one PUT in progress. */
  function Alone(s: State, u: Upload, pc: Pc): State {
    s.(puts := map[0 := Put(u, pc)])
  }

  lemma FinishOne(s: State, f: Faults)
    requires Ready(s, 0, f) && !s.puts[0].pc.Done?
    ensures Finish(s, 0, f) == Finish(Advanced(s, 0, ChoiceFor(s.puts[0].pc, f)), 0, f)
  {
    hide Advanced;
  }

  lemma FinishDone(s: State, u: Upload, response: Response, f: Faults)
    ensures Finish(Alone(s, u, Done(response)), 0, f) == Alone(s, u, Done(response))
  {
  }

  // ---------------------------------------------------------------- the handler as it runs

  class Repository {
    var now: int
    var releases: map<ReleaseId, Release>
    var artifacts: map<(ReleaseId, string), Artifact>
    var blobs: map<string, Bytes>
    ghost var usedIds: set<ReleaseId>

    constructor (start: int)
      ensures Tables() == Init(start)
    {
      now, releases, artifacts, blobs, usedIds := start, map[], map[], map[], {};
    }

    ghost function Tables(): State
      reads this
    {
      State(now, releases, artifacts, blobs, map[], usedIds)
    }

    /** The unique (package, version) constraint. */
    ghost predicate OneReleasePerVersion()
      reads this
    {
      forall r, r' | r in releases && r' in releases && releases[r].package == releases[r'].package
        && releases[r].version == releases[r'].version :: r == r'
    }

    method SelectRelease(u: Upload) returns (found: Option<ReleaseId>)
      requires OneReleasePerVersion()
      ensures found == FindRelease(Tables(), u)
    {
      if exists id :: id in releases && releases[id].package == u.package && releases[id].version == u.version {
        var id :| id in releases && releases[id].package == u.package && releases[id].version == u.version;
        assert Matches(Tables(), u, id);
        found := Some(id);
      } else {
        found := None;
        assert forall id :: !Matches(Tables(), u, id);
      }
    }

    /** `resolve_or_create_release`: an existing release, or a new one, or the response that ends the PUT. */
    method ResolveOrCreateRelease(u: Upload, f: Faults) returns (resolved: Result<Context, Response>)
      requires OneReleasePerVersion() && f.freshId !in usedIds && '/' !in f.freshId
      modifies this`releases, this`usedIds
      ensures Finish(old(Alone(Tables(), u, Resolving)), 0, f)
           == Finish(Alone(Tables(), u, match resolved case Ok(ctx) => AfterResolving(u, ctx) case Err(r) => Done(r)), 0, f)
    {
      hide Advanced, Finish, FindRelease, AfterResolving;
      ghost var from := Alone(Tables(), u, Resolving);
      AtResolving(from, 0, ChoiceFor(Resolving, f));
      FinishOne(from, f);
      ghost var next := Advanced(from, 0, ChoiceFor(Resolving, f));
      if f.resolve {
        assert next == Alone(Tables(), u, Done(InternalErrorResponse));
        return Err(InternalErrorResponse);
      }
      var existing := SelectRelease(u);
      SameSearch(Tables(), from, u);
      match existing {
        case Some(r) =>
          var ctx := Context(r, releases[r].status, releases[r].publishedAt, false);
          assert next == Alone(Tables(), u, AfterResolving(u, ctx));
          return Ok(ctx);
        case None =>
      }
      if !(u.role.Primary? || u.role.Pom?) {
        assert next == Alone(Tables(), u, Done(ConflictResponse));
        return Err(ConflictResponse);
      }
      assert next == Alone(Tables(), u, Creating);
      SameSearch(from, Alone(Tables(), u, Creating), u);
      resolved := InsertRelease(u, f);
    }

    method InsertRelease(u: Upload, f: Faults) returns (resolved: Result<Context, Response>)
      requires FindRelease(Alone(Tables(), u, Creating), u).None? && f.freshId !in usedIds && '/' !in f.freshId
      modifies this`releases, this`usedIds
      ensures Finish(old(Alone(Tables(), u, Creating)), 0, f)
           == Finish(Alone(Tables(), u, match resolved case Ok(ctx) => AfterResolving(u, ctx) case Err(r) => Done(r)), 0, f)
    {
      hide Advanced, Finish, FindRelease, AfterResolving;
      ghost var from := Alone(Tables(), u, Creating);
      AtCreating(from, 0, ChoiceFor(Creating, f));
      FinishOne(from, f);
      ghost var next := Advanced(from, 0, ChoiceFor(Creating, f));
      if f.create {
        assert next == Alone(Tables(), u, Done(InternalErrorResponse));
        return Err(InternalErrorResponse);
      }
      releases := releases[f.freshId := Release(u.package, u.version, Quarantine, now)];
      usedIds := usedIds + {f.freshId};
      var ctx := Context(f.freshId, Quarantine, now, true);
      assert next == Alone(Tables(), u, AfterResolving(u, ctx));
      return Ok(ctx);
    }

    /** `ensure_target_artifact_exists`, and nothing for files that have no target. */
    method EnsureTarget(u: Upload, ctx: Context, f: Faults) returns (refused: Option<Response>)
      ensures Finish(Alone(Tables(), u, AfterResolving(u, ctx)), 0, f)
           == Finish(Alone(Tables(), u, if refused.Some? then Done(refused.value) else CheckingExisting(ctx)), 0, f)
    {
      hide Advanced, Finish;
      if u.role.TargetFilename().None? {
        return None;
      }
      ghost var from := Alone(Tables(), u, CheckingTarget(ctx));
      AtCheckingTarget(from, 0, ChoiceFor(CheckingTarget(ctx), f));
      FinishOne(from, f);
      ghost var next := Advanced(from, 0, ChoiceFor(CheckingTarget(ctx), f));
      if f.target {
        refused := Some(InternalErrorResponse);
      } else if (ctx.release, u.role.TargetFilename().value) !in artifacts {
        refused := Some(ConflictResponse);
      } else {
        refused := None;
      }
      assert next == Alone(Tables(), u, if refused.Some? then Done(refused.value) else CheckingExisting(ctx));
    }

    /** `apply_post_upload_updates`: the package's statement, then the release's, as far as there are any. */
    method ApplyPostUploadUpdates(u: Upload, ctx: Context, inserted: bool, f: Faults) returns (response: Response)
      modifies this`releases
      ensures Finish(old(Alone(Tables(), u, UpdatingPackage(ctx, inserted))), 0, f) == Alone(Tables(), u, Done(response))
    {
      hide Advanced, Finish;
      ghost var from := Alone(Tables(), u, UpdatingPackage(ctx, inserted));
      AtUpdatingPackage(from, 0, ChoiceFor(UpdatingPackage(ctx, inserted), f));
      FinishOne(from, f);
      ghost var next := Advanced(from, 0, ChoiceFor(UpdatingPackage(ctx, inserted), f));
      if u.role.Pom? || inserted {
        if f.updatePackage {
          assert next == Alone(Tables(), u, Done(InternalErrorResponse));
          FinishDone(Tables(), u, InternalErrorResponse, f);
          return InternalErrorResponse;
        }
      }
      assert next == Alone(Tables(), u, Updating(ctx, inserted));
      response := UpdateRelease(u, ctx, inserted, f);
    }

    method UpdateRelease(u: Upload, ctx: Context, inserted: bool, f: Faults) returns (response: Response)
      modifies this`releases
      ensures Finish(old(Alone(Tables(), u, Updating(ctx, inserted))), 0, f) == Alone(Tables(), u, Done(response))
    {
      hide Advanced, Finish;
      ghost var from := Alone(Tables(), u, Updating(ctx, inserted));
      AtUpdating(from, 0, ChoiceFor(Updating(ctx, inserted), f));
      FinishOne(from, f);
      ghost var next := Advanced(from, 0, ChoiceFor(Updating(ctx, inserted), f));
      if u.role.Pom? || inserted {
        if f.update {
          assert next == Alone(Tables(), u, Done(InternalErrorResponse));
          FinishDone(Tables(), u, InternalErrorResponse, f);
          return InternalErrorResponse;
        }
      }
      if u.role.Pom? {
        if ctx.status.Quarantine? || ctx.status.Scanning? {
          if ctx.release in releases {
            releases := releases[ctx.release := releases[ctx.release].(status := Published, publishedAt := now)];
          }
        }
      }
      response := if inserted then CreatedResponse else OkResponse;
      assert next == Alone(Tables(), u, Done(response));
      FinishDone(Tables(), u, response, f);
    }

    /** The blob write with its rollback. */
    method StoreBlob(u: Upload, ctx: Context, f: Faults) returns (stored: bool)
      modifies this`releases, this`artifacts, this`blobs
      ensures Finish(old(Alone(Tables(), u, StoringBlob(ctx))), 0, f)
           == Finish(Alone(Tables(), u, if stored then Inserting(ctx) else Done(InternalErrorResponse)), 0, f)
      ensures stored ==> releases == old(releases) && artifacts == old(artifacts)
    {
      hide Advanced, Finish;
      ghost var from := Alone(Tables(), u, StoringBlob(ctx));
      AtStoringBlob(from, 0, ChoiceFor(StoringBlob(ctx), f));
      FinishOne(from, f);
      ghost var next := Advanced(from, 0, ChoiceFor(StoringBlob(ctx), f));
      if !f.store || f.landed {
        blobs := blobs[KeyOf(ctx.release, u) := u.bytes];
      }
      if !f.store {
        assert next == Alone(Tables(), u, Inserting(ctx));
        return true;
      }
      if ctx.created {
        assert next == Alone(Tables(), u, RollingBack(ctx));
        RollBack(u, ctx, f);
      } else {
        assert next == Alone(Tables(), u, Done(InternalErrorResponse));
      }
      return false;
    }

    method RollBack(u: Upload, ctx: Context, f: Faults)
      modifies this`releases, this`artifacts
      ensures Finish(old(Alone(Tables(), u, RollingBack(ctx))), 0, f) == Finish(Alone(Tables(), u, Done(InternalErrorResponse)), 0, f)
    {
      hide Advanced, Finish;
      ghost var from := Alone(Tables(), u, RollingBack(ctx));
      AtRollingBack(from, 0, ChoiceFor(RollingBack(ctx), f));
      FinishOne(from, f);
      ghost var next := Advanced(from, 0, ChoiceFor(RollingBack(ctx), f));
      if !f.rollback {
        releases := releases - {ctx.release};
        artifacts := map k | k in artifacts && k.0 != ctx.release :: artifacts[k];
      }
      assert next == Alone(Tables(), u, Done(InternalErrorResponse));
    }

    /** INSERT ... ON CONFLICT DO NOTHING, under the foreign key to the release. */
    method InsertArtifact(u: Upload, ctx: Context, f: Faults) returns (response: Response)
      modifies this`releases, this`artifacts
      ensures Finish(old(Alone(Tables(), u, Inserting(ctx))), 0, f) == Alone(Tables(), u, Done(response))
    {
      hide Advanced, Finish, MakeArtifact;
      ghost var from := Alone(Tables(), u, Inserting(ctx));
      AtInserting(from, 0, ChoiceFor(Inserting(ctx), f));
      FinishOne(from, f);
      ghost var next := Advanced(from, 0, ChoiceFor(Inserting(ctx), f));
      if f.insert || ctx.release !in releases {
        assert next == Alone(Tables(), u, Done(InternalErrorResponse));
        FinishDone(Tables(), u, InternalErrorResponse, f);
        return InternalErrorResponse;
      }
      if (ctx.release, u.filename) in artifacts {
        assert next == Alone(Tables(), u, Rereading(ctx));
        response := Reread(u, ctx, f);
        return;
      }
      artifacts := artifacts[(ctx.release, u.filename) := MakeArtifact(ctx.release, u)];
      assert next == Alone(Tables(), u, UpdatingPackage(ctx, true));
      response := ApplyPostUploadUpdates(u, ctx, true, f);
    }

    method Reread(u: Upload, ctx: Context, f: Faults) returns (response: Response)
      requires (ctx.release, u.filename) in artifacts
      modifies this`releases
      ensures Finish(old(Alone(Tables(), u, Rereading(ctx))), 0, f) == Alone(Tables(), u, Done(response))
    {
      hide Advanced, Finish;
      ghost var from := Alone(Tables(), u, Rereading(ctx));
      AtRereading(from, 0, ChoiceFor(Rereading(ctx), f));
      FinishOne(from, f);
      ghost var next := Advanced(from, 0, ChoiceFor(Rereading(ctx), f));
      if f.reread {
        assert next == Alone(Tables(), u, Done(InternalErrorResponse));
        FinishDone(Tables(), u, InternalErrorResponse, f);
        return InternalErrorResponse;
      }
      if artifacts[(ctx.release, u.filename)].sha256 != u.sha256 {
        assert next == Alone(Tables(), u, Done(ConflictResponse));
        FinishDone(Tables(), u, ConflictResponse, f);
        return ConflictResponse;
      }
      assert next == Alone(Tables(), u, UpdatingPackage(ctx, false));
      response := ApplyPostUploadUpdates(u, ctx, false, f);
    }

    method StoreNewArtifact(u: Upload, ctx: Context, f: Faults) returns (response: Response)
      modifies this`releases, this`artifacts, this`blobs
      ensures Finish(old(Alone(Tables(), u, CheckingWindow(ctx))), 0, f) == Alone(Tables(), u, Done(response))
    {
      hide Advanced, Finish, AcceptsNewArtifacts;
      ghost var from := Alone(Tables(), u, CheckingWindow(ctx));
      AtCheckingWindow(from, 0, ChoiceFor(CheckingWindow(ctx), f));
      FinishOne(from, f);
      ghost var next := Advanced(from, 0, ChoiceFor(CheckingWindow(ctx), f));
      if !AcceptsNewArtifacts(ctx, now) {
        assert next == Alone(Tables(), u, Done(ConflictResponse));
        FinishDone(Tables(), u, ConflictResponse, f);
        return ConflictResponse;
      }
      assert next == Alone(Tables(), u, StoringBlob(ctx));
      var stored := StoreBlob(u, ctx, f);
      if !stored {
        FinishDone(Tables(), u, InternalErrorResponse, f);
        return InternalErrorResponse;
      }
      response := InsertArtifact(u, ctx, f);
    }

    method PutArtifact(u: Upload, ctx: Context, f: Faults) returns (response: Response)
      modifies this`releases, this`artifacts, this`blobs
      ensures Finish(old(Alone(Tables(), u, CheckingExisting(ctx))), 0, f) == Alone(Tables(), u, Done(response))
    {
      hide Advanced, Finish;
      ghost var from := Alone(Tables(), u, CheckingExisting(ctx));
      AtCheckingExisting(from, 0, ChoiceFor(CheckingExisting(ctx), f));
      FinishOne(from, f);
      ghost var next := Advanced(from, 0, ChoiceFor(CheckingExisting(ctx), f));
      if f.existing {
        assert next == Alone(Tables(), u, Done(InternalErrorResponse));
        FinishDone(Tables(), u, InternalErrorResponse, f);
        return InternalErrorResponse;
      }
      if (ctx.release, u.filename) in artifacts {
        if artifacts[(ctx.release, u.filename)].sha256 != u.sha256 {
          assert next == Alone(Tables(), u, Done(ConflictResponse));
          FinishDone(Tables(), u, ConflictResponse, f);
          return ConflictResponse;
        }
        assert next == Alone(Tables(), u, UpdatingPackage(ctx, false));
        response := ApplyPostUploadUpdates(u, ctx, false, f);
        return;
      }
      assert next == Alone(Tables(), u, CheckingWindow(ctx));
      response := StoreNewArtifact(u, ctx, f);
    }

    /** The whole PUT: it ends where its statements lead when nothing else runs in between. */
    method RepositoryPut(u: Upload, f: Faults) returns (response: Response)
      requires OneReleasePerVersion() && f.freshId !in usedIds && '/' !in f.freshId
      modifies this`releases, this`artifacts, this`blobs, this`usedIds
      ensures Finish(old(Alone(Tables(), u, Resolving)), 0, f) == Alone(Tables(), u, Done(response))
    {
      hide Advanced, Finish, FindRelease, AfterResolving;
      var resolved := ResolveOrCreateRelease(u, f);
      if resolved.Err? {
        FinishDone(Tables(), u, resolved.error, f);
        return resolved.error;
      }
      var ctx := resolved.value;
      var refused := EnsureTarget(u, ctx, f);
      if refused.Some? {
        FinishDone(Tables(), u, refused.value, f);
        return refused.value;
      }
      response := PutArtifact(u, ctx, f);
    }
  }

  /** The search looks at the releases only. */
  lemma SameSearch(s: State, s': State, u: Upload)
    requires s.releases == s'.releases
    requires forall r, r' | r in s.releases && r' in s.releases && s.releases[r].package == s.releases[r'].package
      && s.releases[r].version == s.releases[r'].version :: r == r'
    ensures FindRelease(s, u) == FindRelease(s', u)
  {
    if FindRelease(s, u).Some? {
      assert Matches(s', u, FindRelease(s, u).value);
    }
    if FindRelease(s', u).Some? {
      assert Matches(s, u, FindRelease(s', u).value);
    }
  }

  // ---------------------------------------------------------------- the invariant

  lemma StartInv(digest: Bytes -> string, s: State, u: Upload)
    requires Inv(digest, s) && s.puts == map[] && Parsed(digest, u)
    ensures Inv(digest, Alone(s, u, Resolving))
  {
    hide Parsed, Inv;
    InvStep(digest, s, Start(0, u));
    assert Apply(digest, s, Start(0, u)) == Alone(s, u, Resolving);
  }

  lemma {:induction false} FinishInv(digest: Bytes -> string, s: State, p: PutId, f: Faults)
    requires Inv(digest, s) && Ready(s, p, f)
    ensures Inv(digest, Finish(s, p, f))
    decreases Rank(s.puts[p].pc)
  {
    hide Inv, Advanced;
    if !s.puts[p].pc.Done? {
      InvStep(digest, s, Advance(p, ChoiceFor(s.puts[p].pc, f)));
      FinishInv(digest, OneStep(s, p, f), p, f);
    }
  }
}
