/**
 The statements of a Maven PUT one by one (crates/adapters/maven/src/routes.rs, `repository_put`): what
 each does to the tables and where the PUT goes next.
 */
module MavenSteps {
  import opened Common
  import opened MavenNames
  import opened MavenDeploy

  /** PUT `p` at another statement, with everything else as it was. */
  function At(s: State, p: PutId, pc: Pc): State
    requires p in s.puts
  {
    s.(puts := s.puts[p := Put(s.puts[p].upload, pc)])
  }

  predicate Pending(s: State, p: PutId) {
    p in s.puts && !s.puts[p].pc.Done? && !s.puts[p].pc.Creating?
  }

  lemma AtResolving(s: State, p: PutId, c: Choice)
    requires Pending(s, p) && s.puts[p].pc.Resolving?
    ensures var u := s.puts[p].upload; var found := FindRelease(s, u);
      Advanced(s, p, c) == At(s, p,
        if c.fault then Done(InternalErrorResponse)
        else if found.Some? then AfterResolving(u, ReadContext(s, found.value))
        else if !CanStartRelease(u) then Done(ConflictResponse)
        else Creating)
  {
    hide AcceptsNewArtifacts, FindRelease, KeyOf, MakeArtifact, WithoutRelease, Publishes, AfterResolving;
  }

  lemma AtCreating(s: State, p: PutId, c: Choice)
    requires CanAdvance(s, p, c) && s.puts[p].pc.Creating?
    ensures var u := s.puts[p].upload;
      Advanced(s, p, c) ==
        if c.fault then At(s, p, Done(InternalErrorResponse))
        else if FindRelease(s, u).Some? then At(s, p, Reloading)
        else At(s, p, AfterResolving(u, Context(c.freshId, Quarantine, s.now, true))).(
               releases := s.releases[c.freshId := Release(u.package, u.version, Quarantine, s.now)],
               usedIds := s.usedIds + {c.freshId})
  {
    hide AcceptsNewArtifacts, FindRelease, KeyOf, MakeArtifact, WithoutRelease, Publishes, AfterResolving;
  }

  lemma AtReloading(s: State, p: PutId, c: Choice)
    requires Pending(s, p) && s.puts[p].pc.Reloading?
    ensures var u := s.puts[p].upload; var found := FindRelease(s, u);
      Advanced(s, p, c) == At(s, p,
        if !c.fault && found.Some? then AfterResolving(u, ReadContext(s, found.value)) else Done(InternalErrorResponse))
  {
    hide AcceptsNewArtifacts, FindRelease, KeyOf, MakeArtifact, WithoutRelease, Publishes, AfterResolving;
  }

  lemma AtCheckingTarget(s: State, p: PutId, c: Choice)
    requires Pending(s, p) && s.puts[p].pc.CheckingTarget?
    ensures var u := s.puts[p].upload; var ctx := s.puts[p].pc.ctx;
      Advanced(s, p, c) == At(s, p,
        if c.fault then Done(InternalErrorResponse)
        else if (ctx.release, u.role.TargetFilename().GetOr("")) in s.artifacts then CheckingExisting(ctx)
        else Done(ConflictResponse))
  {
    hide AcceptsNewArtifacts, FindRelease, KeyOf, MakeArtifact, WithoutRelease, Publishes, AfterResolving, ReadContext;
  }

  lemma AtCheckingExisting(s: State, p: PutId, c: Choice)
    requires Pending(s, p) && s.puts[p].pc.CheckingExisting?
    ensures var u := s.puts[p].upload; var ctx := s.puts[p].pc.ctx; var k := (ctx.release, u.filename);
      Advanced(s, p, c) == At(s, p,
        if c.fault then Done(InternalErrorResponse)
        else if k !in s.artifacts then CheckingWindow(ctx)
        else if s.artifacts[k].sha256 != u.sha256 then Done(ConflictResponse)
        else UpdatingPackage(ctx, false))
  {
    hide AcceptsNewArtifacts, FindRelease, KeyOf, MakeArtifact, WithoutRelease, Publishes, AfterResolving, ReadContext;
  }

  lemma AtCheckingWindow(s: State, p: PutId, c: Choice)
    requires Pending(s, p) && s.puts[p].pc.CheckingWindow?
    ensures var ctx := s.puts[p].pc.ctx;
      Advanced(s, p, c) == At(s, p, if AcceptsNewArtifacts(ctx, s.now) then StoringBlob(ctx) else Done(ConflictResponse))
  {
    hide AcceptsNewArtifacts, FindRelease, KeyOf, MakeArtifact, WithoutRelease, Publishes, AfterResolving, ReadContext;
  }

  lemma AtStoringBlob(s: State, p: PutId, c: Choice)
    requires Pending(s, p) && s.puts[p].pc.StoringBlob?
    ensures var u := s.puts[p].upload; var ctx := s.puts[p].pc.ctx;
      Advanced(s, p, c) ==
        At(s, p, if !c.fault then Inserting(ctx)
                 else if ctx.created then RollingBack(ctx)
                 else Done(InternalErrorResponse))
        .(blobs := if !c.fault || c.landed then s.blobs[KeyOf(ctx.release, u) := u.bytes] else s.blobs)
  {
    hide AcceptsNewArtifacts, FindRelease, KeyOf, MakeArtifact, WithoutRelease, Publishes, AfterResolving, ReadContext;
  }

  lemma AtRollingBack(s: State, p: PutId, c: Choice)
    requires Pending(s, p) && s.puts[p].pc.RollingBack?
    ensures Advanced(s, p, c) ==
      At(if c.fault then s else WithoutRelease(s, s.puts[p].pc.ctx.release), p, Done(InternalErrorResponse))
  {
    hide AcceptsNewArtifacts, FindRelease, KeyOf, MakeArtifact, Publishes, AfterResolving, ReadContext;
  }

  lemma AtInserting(s: State, p: PutId, c: Choice)
    requires Pending(s, p) && s.puts[p].pc.Inserting?
    ensures var u := s.puts[p].upload; var ctx := s.puts[p].pc.ctx; var k := (ctx.release, u.filename);
      Advanced(s, p, c) ==
        if c.fault || ctx.release !in s.releases then At(s, p, Done(InternalErrorResponse))
        else if k in s.artifacts then At(s, p, Rereading(ctx))
        else At(s, p, UpdatingPackage(ctx, true)).(artifacts := s.artifacts[k := MakeArtifact(ctx.release, u)])
  {
    hide AcceptsNewArtifacts, FindRelease, KeyOf, MakeArtifact, WithoutRelease, Publishes, AfterResolving, ReadContext;
  }

  lemma AtRereading(s: State, p: PutId, c: Choice)
    requires Pending(s, p) && s.puts[p].pc.Rereading?
    ensures var u := s.puts[p].upload; var ctx := s.puts[p].pc.ctx; var k := (ctx.release, u.filename);
      Advanced(s, p, c) == At(s, p,
        if c.fault || k !in s.artifacts then Done(InternalErrorResponse)
        else if s.artifacts[k].sha256 != u.sha256 then Done(ConflictResponse)
        else UpdatingPackage(ctx, false))
  {
    hide AcceptsNewArtifacts, FindRelease, KeyOf, MakeArtifact, WithoutRelease, Publishes, AfterResolving, ReadContext;
  }

  lemma AtUpdatingPackage(s: State, p: PutId, c: Choice)
    requires Pending(s, p) && s.puts[p].pc.UpdatingPackage?
    ensures var u := s.puts[p].upload; var pc := s.puts[p].pc;
      Advanced(s, p, c) == At(s, p,
        if c.fault && (u.role.Pom? || pc.inserted) then Done(InternalErrorResponse) else Updating(pc.ctx, pc.inserted))
  {
    hide AcceptsNewArtifacts, FindRelease, KeyOf, MakeArtifact, WithoutRelease, Publishes, AfterResolving, ReadContext;
  }

  lemma AtUpdating(s: State, p: PutId, c: Choice)
    requires Pending(s, p) && s.puts[p].pc.Updating?
    ensures var u := s.puts[p].upload; var ctx := s.puts[p].pc.ctx; var inserted := s.puts[p].pc.inserted;
      Advanced(s, p, c) ==
        if c.fault && (u.role.Pom? || inserted) then At(s, p, Done(InternalErrorResponse))
        else At(s, p, Done(if inserted then CreatedResponse else OkResponse)).(
               releases := if Publishes(s, u, ctx)
                           then s.releases[ctx.release := s.releases[ctx.release].(status := Published, publishedAt := s.now)]
                           else s.releases)
  {
    hide AcceptsNewArtifacts, FindRelease, KeyOf, MakeArtifact, WithoutRelease, AfterResolving, ReadContext;
  }
}
