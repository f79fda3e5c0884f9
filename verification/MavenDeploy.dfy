/**
 Maven deploys (crates/adapters/maven/src/routes.rs, `repository_put`): each PUT is a sequence of
 separate reads and writes, and any number of PUTs interleave.
 */
module MavenDeploy {
  import opened Common
  import opened MavenNames

  type PackageId = nat
  type ReleaseId = string
  type PutId = nat
  type Bytes = seq<nat>

  const GRACE_WINDOW_SECONDS := 3600

  datatype Status = Quarantine | Scanning | Published | Deprecated | Yanked | Deleted

  datatype Release = Release(package: PackageId, version: string, status: Status, publishedAt: int)

  datatype Kind = JarKind | PomKind | ChecksumKind | SignatureKind

  datatype Artifact = Artifact(storageKey: string, sha256: string, size: nat, kind: Kind)

  /** A PUT's body after `parse_maven_upload`. */
  datatype Upload = Upload(package: PackageId, artifactId: string, version: string, filename: string,
                           bytes: Bytes, sha256: string, size: nat, role: Role)

  /** What `resolve_or_create_release` read, or made, at the start of the PUT. */
  datatype Context = Context(release: ReleaseId, status: Status, publishedAt: int, created: bool)

  datatype Response = OkResponse | CreatedResponse | ConflictResponse | InternalErrorResponse

  datatype Pc =
    | Resolving
    | Creating
    | Reloading
    | CheckingTarget(ctx: Context)
    | CheckingExisting(ctx: Context)
    | CheckingWindow(ctx: Context)
    | StoringBlob(ctx: Context)
    | RollingBack(ctx: Context)
    | Inserting(ctx: Context)
    | Rereading(ctx: Context)
    | UpdatingPackage(ctx: Context, inserted: bool)
    | Updating(ctx: Context, inserted: bool)
    | Done(response: Response)

  datatype Put = Put(upload: Upload, pc: Pc)

  datatype State = State(
    now: int,
    releases: map<ReleaseId, Release>,
    artifacts: map<(ReleaseId, string), Artifact>,
    blobs: map<string, Bytes>,
    puts: map<PutId, Put>,
    usedIds: set<ReleaseId>)

  /** What the environment decides about one statement of a PUT. */
  datatype Choice = Choice(fault: bool, landed: bool, freshId: ReleaseId)

  datatype Step =
    | Start(put: PutId, upload: Upload)
    | Advance(put: PutId, choice: Choice)
    | SetStatus(release: ReleaseId, status: Status)
    | DeleteRelease(release: ReleaseId)
    | Tick(seconds: nat)

  // ---------------------------------------------------------------- statements

  function KindOf(role: Role): Kind {
    match role
    case Primary => JarKind
    case Pom => PomKind
    case Signature(_) => SignatureKind
    case Checksum(_, _) => ChecksumKind
  }

  predicate CanStartRelease(u: Upload) { u.role.Primary? || u.role.Pom? }

  function KeyOf(release: ReleaseId, u: Upload): string {
    StorageKey(release, u.sha256, u.filename)
  }

  function MakeArtifact(release: ReleaseId, u: Upload): Artifact {
    Artifact(KeyOf(release, u), u.sha256, u.size, KindOf(u.role))
  }

  /** SELECT ... WHERE package_id AND version: at most one row, by the unique constraint. */
  predicate Matches(s: State, u: Upload, r: ReleaseId) {
    r in s.releases && s.releases[r].package == u.package && s.releases[r].version == u.version
  }

  ghost function FindRelease(s: State, u: Upload): (r: Option<ReleaseId>)
    ensures r.Some? ==> Matches(s, u, r.value)
    ensures r.None? ==> forall id | id in s.releases :: !Matches(s, u, id)
  {
    if exists id :: Matches(s, u, id) then
      var id :| Matches(s, u, id); Some(id)
    else
      assert forall id | id in s.releases :: !Matches(s, u, id);
      None
  }

  function ReadContext(s: State, r: ReleaseId): Context
    requires r in s.releases
  {
    Context(r, s.releases[r].status, s.releases[r].publishedAt, false)
  }

  /** `release_accepts_new_artifacts`: it looks at the status read at the start of the PUT. */
  predicate AcceptsNewArtifacts(ctx: Context, now: int) {
    match ctx.status
    case Quarantine => true
    case Scanning => true
    case Published => ctx.publishedAt >= now - GRACE_WINDOW_SECONDS
    case _ => false
  }

  function AfterResolving(u: Upload, ctx: Context): Pc {
    if u.role.TargetFilename().Some? then CheckingTarget(ctx) else CheckingExisting(ctx)
  }

  function WithoutRelease(s: State, r: ReleaseId): State {
    s.(releases := s.releases - {r},
       artifacts := map k | k in s.artifacts && k.0 != r :: s.artifacts[k])
  }

  // ---------------------------------------------------------------- one statement of a PUT

  ghost predicate CanAdvance(s: State, p: PutId, c: Choice) {
    && p in s.puts && !s.puts[p].pc.Done?
    && (s.puts[p].pc.Creating? ==> c.freshId !in s.usedIds && '/' !in c.freshId)
  }

  /** Whether there is a statement to fail: the window is checked in memory, and a repeated file updates nothing. */
  predicate HasStatement(u: Upload, pc: Pc) {
    match pc
    case CheckingWindow(_) => false
    case UpdatingPackage(_, inserted) => u.role.Pom? || inserted
    case Updating(_, inserted) => u.role.Pom? || inserted
    case _ => true
  }

  /** Every database error ends the PUT with an internal error, except in the rollback, where it is ignored. */
  predicate Aborts(u: Upload, pc: Pc, c: Choice) {
    c.fault && HasStatement(u, pc) && !pc.StoringBlob? && !pc.RollingBack?
  }

  predicate Publishes(s: State, u: Upload, ctx: Context) {
    u.role.Pom? && (ctx.status.Quarantine? || ctx.status.Scanning?) && ctx.release in s.releases
  }

  /** What the next statement of PUT `p` does to tables and blobs.  A failed blob write may leave the bytes behind. */
  ghost function Effect(s: State, p: PutId, c: Choice): State
    requires CanAdvance(s, p, c)
  {
    var u := s.puts[p].upload;
    var pc := s.puts[p].pc;
    if Aborts(u, pc, c) then s
    else
      match pc
      case Creating =>
        if FindRelease(s, u).Some? then s
        else s.(releases := s.releases[c.freshId := Release(u.package, u.version, Quarantine, s.now)],
                usedIds := s.usedIds + {c.freshId})
      case StoringBlob(ctx) =>
        if !c.fault || c.landed then s.(blobs := s.blobs[KeyOf(ctx.release, u) := u.bytes]) else s
      case RollingBack(ctx) =>
        if c.fault then s else WithoutRelease(s, ctx.release)
      case Inserting(ctx) =>
        if ctx.release in s.releases && (ctx.release, u.filename) !in s.artifacts
        then s.(artifacts := s.artifacts[(ctx.release, u.filename) := MakeArtifact(ctx.release, u)])
        else s
      case Updating(ctx, _) =>
        if Publishes(s, u, ctx)
        then s.(releases := s.releases[ctx.release := s.releases[ctx.release].(status := Published, publishedAt := s.now)])
        else s
      case _ => s
  }

  /** Where PUT `p` goes after that statement. */
  ghost function NextPc(s: State, p: PutId, c: Choice): Pc
    requires CanAdvance(s, p, c)
  {
    var u := s.puts[p].upload;
    var pc := s.puts[p].pc;
    if Aborts(u, pc, c) then Done(InternalErrorResponse)
    else
      match pc
      case Resolving =>
        var found := FindRelease(s, u);
        if found.Some? then AfterResolving(u, ReadContext(s, found.value))
        else if !CanStartRelease(u) then Done(ConflictResponse)
        else Creating
      case Creating =>
        if FindRelease(s, u).Some? then Reloading
        else AfterResolving(u, Context(c.freshId, Quarantine, s.now, true))
      case Reloading =>
        var found := FindRelease(s, u);
        if found.Some? then AfterResolving(u, ReadContext(s, found.value)) else Done(InternalErrorResponse)
      case CheckingTarget(ctx) =>
        if (ctx.release, u.role.TargetFilename().GetOr("")) in s.artifacts then CheckingExisting(ctx)
        else Done(ConflictResponse)
      case CheckingExisting(ctx) =>
        if (ctx.release, u.filename) !in s.artifacts then CheckingWindow(ctx)
        else if s.artifacts[(ctx.release, u.filename)].sha256 != u.sha256 then Done(ConflictResponse)
        else UpdatingPackage(ctx, false)
      case CheckingWindow(ctx) =>
        if AcceptsNewArtifacts(ctx, s.now) then StoringBlob(ctx) else Done(ConflictResponse)
      case StoringBlob(ctx) =>
        if !c.fault then Inserting(ctx)
        else if ctx.created then RollingBack(ctx)
        else Done(InternalErrorResponse)
      case RollingBack(ctx) => Done(InternalErrorResponse)
      case Inserting(ctx) =>
        if ctx.release !in s.releases then Done(InternalErrorResponse)
        else if (ctx.release, u.filename) in s.artifacts then Rereading(ctx)
        else UpdatingPackage(ctx, true)
      case Rereading(ctx) =>
        if (ctx.release, u.filename) !in s.artifacts then Done(InternalErrorResponse)
        else if s.artifacts[(ctx.release, u.filename)].sha256 != u.sha256 then Done(ConflictResponse)
        else UpdatingPackage(ctx, false)
      case UpdatingPackage(ctx, inserted) => Updating(ctx, inserted)
      case Updating(ctx, inserted) => Done(if inserted then CreatedResponse else OkResponse)
  }

  ghost function Advanced(s: State, p: PutId, c: Choice): State
    requires CanAdvance(s, p, c)
  {
    Effect(s, p, c).(puts := s.puts[p := Put(s.puts[p].upload, NextPc(s, p, c))])
  }

  // ---------------------------------------------------------------- interleaved runs

  /** `parse_maven_upload` computes digest and size from the body and the role from the name. */
  predicate Parsed(digest: Bytes -> string, u: Upload) {
    && u.sha256 == digest(u.bytes)
    && u.size == |u.bytes|
    && Classify(u.artifactId, u.version, u.filename) == Ok(u.role)
  }

  ghost predicate Enabled(digest: Bytes -> string, s: State, step: Step) {
    match step
    case Start(p, u) => p !in s.puts && Parsed(digest, u)
    case Advance(p, c) => CanAdvance(s, p, c)
    case SetStatus(r, _) => r in s.releases
    case DeleteRelease(r) => r in s.releases
    case Tick(_) => true
  }

  ghost function Apply(digest: Bytes -> string, s: State, step: Step): State
    requires Enabled(digest, s, step)
  {
    match step
    case Start(p, u) => s.(puts := s.puts[p := Put(u, Resolving)])
    case Advance(p, c) => Advanced(s, p, c)
    case SetStatus(r, status) => s.(releases := s.releases[r := s.releases[r].(status := status)])
    case DeleteRelease(r) => WithoutRelease(s, r)
    case Tick(seconds) => s.(now := s.now + seconds)
  }

  ghost predicate Run(digest: Bytes -> string, s: State, steps: seq<Step>)
    decreases |steps|
  {
    steps == [] || (Enabled(digest, s, steps[0]) && Run(digest, Apply(digest, s, steps[0]), steps[1..]))
  }

  ghost function Exec(digest: Bytes -> string, s: State, steps: seq<Step>): State
    requires Run(digest, s, steps)
    decreases |steps|
  {
    if steps == [] then s else Exec(digest, Apply(digest, s, steps[0]), steps[1..])
  }

  function Init(now: int): State {
    State(now, map[], map[], map[], map[], {})
  }
}
