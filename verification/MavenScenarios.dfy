/**
 Runs of Maven PUTs in which something goes wrong (crates/adapters/maven/src/routes.rs, `repository_put`),
 each from the empty tables.
 */
module MavenScenarios {
  import opened Common
  import opened MavenNames
  import opened MavenDeploy
  import opened MavenSteps
  import opened MavenProofs
  import opened MavenRuns
  import opened MavenAcks
  import opened MavenWindow
  import opened MavenGrace

  // ---------------------------------------------------------------- building runs

  lemma {:induction false} Extend(digest: Bytes -> string, s: State, steps: seq<Step>, step: Step)
    requires Run(digest, s, steps) && Enabled(digest, Exec(digest, s, steps), step)
    ensures Run(digest, s, steps + [step])
    ensures Exec(digest, s, steps + [step]) == Apply(digest, Exec(digest, s, steps), step)
    decreases |steps|
  {
    hide Enabled, Apply;
    if steps == [] {
      assert ([] + [step])[1..] == [];
    } else {
      assert (steps + [step])[1..] == steps[1..] + [step];
      Extend(digest, Apply(digest, s, steps[0]), steps[1..], step);
    }
  }

  /** A longer run goes through the end of a shorter one. */
  lemma {:induction false} StatePrefix(digest: Bytes -> string, s: State, steps: seq<Step>, more: seq<Step>)
    requires Run(digest, s, steps) && Run(digest, s, more) && steps <= more
    ensures StateAt(digest, s, more, |steps|) == Exec(digest, s, steps)
    decreases |steps|
  {
    hide Enabled, Apply;
    if steps != [] {
      StatePrefix(digest, Apply(digest, s, steps[0]), steps[1..], more[1..]);
    }
  }

  /** A run from the empty tables that ends in `s`. */
  ghost predicate Leads(digest: Bytes -> string, steps: seq<Step>, s: State) {
    Run(digest, Init(0), steps) && Exec(digest, Init(0), steps) == s && PutsOnly(steps)
  }

  /** Nothing but PUTs and time. */
  predicate PutsOnly(steps: seq<Step>) {
    forall i :: 0 <= i < |steps| ==> steps[i].Start? || steps[i].Advance? || steps[i].Tick?
  }

  const OK := Choice(false, false, "r")

  lemma Go(digest: Bytes -> string, steps: seq<Step>, s: State, p: PutId, c: Choice, s': State)
    requires Leads(digest, steps, s) && CanAdvance(s, p, c) && Advanced(s, p, c) == s'
    ensures Leads(digest, steps + [Advance(p, c)], s')
  {
    hide Run, Exec, Advanced;
    Extend(digest, Init(0), steps, Advance(p, c));
  }

  /** Statement by statement through the tables when nothing fails. */
  lemma GoOn(digest: Bytes -> string, steps: seq<Step>, s: State, p: PutId, s': State)
    requires Leads(digest, steps, s) && Pending(s, p) && !s.puts[p].pc.Resolving? && !s.puts[p].pc.Reloading?
    requires var u := s.puts[p].upload; var pc := s.puts[p].pc; var k := (pc.ctx.release, u.filename);
      match pc
      case CheckingExisting(ctx) =>
        if k !in s.artifacts then s' == At(s, p, CheckingWindow(ctx))
        else s.artifacts[k].sha256 == u.sha256 && s' == At(s, p, UpdatingPackage(ctx, false))
      case CheckingWindow(ctx) => AcceptsNewArtifacts(ctx, s.now) && s' == At(s, p, StoringBlob(ctx))
      case StoringBlob(ctx) => s' == At(s, p, Inserting(ctx)).(blobs := s.blobs[KeyOf(ctx.release, u) := u.bytes])
      case Inserting(ctx) =>
        ctx.release in s.releases && k !in s.artifacts
        && s' == At(s, p, UpdatingPackage(ctx, true)).(artifacts := s.artifacts[k := MakeArtifact(ctx.release, u)])
      case UpdatingPackage(ctx, inserted) => s' == At(s, p, Updating(ctx, inserted))
      case _ => false
    ensures Leads(digest, steps + [Advance(p, OK)], s')
  {
    hide Run, Exec, Advanced, KeyOf, MakeArtifact, AcceptsNewArtifacts;
    var pc := s.puts[p].pc;
    if pc.CheckingExisting? {
      AtCheckingExisting(s, p, OK);
    } else if pc.CheckingWindow? {
      AtCheckingWindow(s, p, OK);
    } else if pc.StoringBlob? {
      AtStoringBlob(s, p, OK);
    } else if pc.Inserting? {
      AtInserting(s, p, OK);
    } else {
      AtUpdatingPackage(s, p, OK);
    }
    Go(digest, steps, s, p, OK, s');
  }

  lemma Wait(digest: Bytes -> string, steps: seq<Step>, s: State, seconds: nat)
    requires Leads(digest, steps, s)
    ensures Leads(digest, steps + [Tick(seconds)], s.(now := s.now + seconds))
  {
    hide Run, Exec;
    Extend(digest, Init(0), steps, Tick(seconds));
  }

  lemma Begin(digest: Bytes -> string, steps: seq<Step>, s: State, p: PutId, u: Upload)
    requires Leads(digest, steps, s) && p !in s.puts && Parsed(digest, u)
    ensures Leads(digest, steps + [Start(p, u)], s.(puts := s.puts[p := Put(u, Resolving)]))
  {
    hide Run, Exec, Parsed;
    Extend(digest, Init(0), steps, Start(p, u));
  }

  // ---------------------------------------------------------------- two PUTs of one new release

  function RowOf(u: Upload): Release { Release(u.package, u.version, Quarantine, 0) }

  const CREATED := Context("r", Quarantine, 0, true)
  const READ := Context("r", Quarantine, 0, false)

  /** PUT 0 has created the release that PUT 1 has found. */
  function BothResolved(u: Upload, v: Upload): State {
    State(0, map["r" := RowOf(u)], map[], map[], map[0 := Put(u, CheckingExisting(CREATED)), 1 := Put(v, CheckingExisting(READ))], {"r"})
  }

  predicate SameRelease(u: Upload, v: Upload) {
    u.package == v.package && u.version == v.version && CanStartRelease(u) && CanStartRelease(v)
  }

  lemma OnlyRelease(s: State, u: Upload, r: ReleaseId)
    requires s.releases.Keys == {r} && Matches(s, u, r)
    ensures FindRelease(s, u) == Some(r)
  {
  }

  lemma NothingRun(digest: Bytes -> string)
    ensures Leads(digest, [], Init(0))
  {
  }

  lemma NothingFound(s: State, u: Upload)
    requires s.releases == map[]
    ensures FindRelease(s, u).None?
  {
  }

  predicate NoStartFrom(steps: seq<Step>, from: nat) {
    forall i :: from <= i < |steps| ==> !steps[i].Start?
  }

  /** PUT 0 creates the release. */
  function Created(u: Upload): State {
    State(0, map["r" := RowOf(u)], map[], map[], map[0 := Put(u, CheckingExisting(CREATED))], {"r"})
  }

  lemma CreateFirst(digest: Bytes -> string, u: Upload) returns (steps: seq<Step>)
    requires Parsed(digest, u) && CanStartRelease(u)
    ensures Leads(digest, steps, Created(u)) && steps != [] && NoStartFrom(steps, 1)
  {
    hide Run, Exec, Advanced, FindRelease, Parsed;
    NothingRun(digest);
    var s := Init(0);
    steps := [];
    Begin(digest, steps, s, 0, u);
    steps := steps + [Start(0, u)];
    s := s.(puts := s.puts[0 := Put(u, Resolving)]);
    NothingFound(s, u);
    AtResolving(s, 0, OK);
    Go(digest, steps, s, 0, OK, At(s, 0, Creating));
    steps := steps + [Advance(0, OK)];
    s := At(s, 0, Creating);
    NothingFound(s, u);
    AtCreating(s, 0, OK);
    assert Advanced(s, 0, OK) == Created(u);
    Go(digest, steps, s, 0, OK, Created(u));
    steps := steps + [Advance(0, OK)];
  }

  lemma ResolveSecond(digest: Bytes -> string, u: Upload, v: Upload) returns (steps: seq<Step>)
    requires Parsed(digest, u) && Parsed(digest, v) && SameRelease(u, v)
    ensures Leads(digest, steps, BothResolved(u, v))
  {
    hide Run, Exec, Advanced, FindRelease, Parsed;
    steps := CreateFirst(digest, u);
    var s := Created(u);
    Begin(digest, steps, s, 1, v);
    steps := steps + [Start(1, v)];
    s := s.(puts := s.puts[1 := Put(v, Resolving)]);
    OnlyRelease(s, v, "r");
    AtResolving(s, 1, OK);
    assert Advanced(s, 1, OK) == BothResolved(u, v);
    Go(digest, steps, s, 1, OK, BothResolved(u, v));
    steps := steps + [Advance(1, OK)];
  }

  /** PUT `p`, at its window check with nothing recorded under its name, records its file. */
  function AfterRecording(s: State, p: PutId): State
    requires p in s.puts && HasContext(s.puts[p].pc)
  {
    var u := s.puts[p].upload;
    var ctx := s.puts[p].pc.ctx;
    At(s, p, Updating(ctx, true)).(
      blobs := s.blobs[KeyOf(ctx.release, u) := u.bytes],
      artifacts := s.artifacts[(ctx.release, u.filename) := MakeArtifact(ctx.release, u)])
  }

  lemma Record(digest: Bytes -> string, steps: seq<Step>, s: State, p: PutId) returns (steps': seq<Step>)
    requires Leads(digest, steps, s) && p in s.puts && s.puts[p].pc.CheckingExisting?
    requires var ctx := s.puts[p].pc.ctx;
      ctx.release in s.releases && (ctx.release, s.puts[p].upload.filename) !in s.artifacts && AcceptsNewArtifacts(ctx, s.now)
    ensures Leads(digest, steps', AfterRecording(s, p)) && steps <= steps' && NoStartFrom(steps', |steps|)
  {
    hide Run, Exec, KeyOf, MakeArtifact;
    var u, ctx := s.puts[p].upload, s.puts[p].pc.ctx;
    var s1 := At(s, p, CheckingWindow(ctx));
    GoOn(digest, steps, s, p, s1);
    steps' := steps + [Advance(p, OK)];
    var s2 := At(s1, p, StoringBlob(ctx));
    GoOn(digest, steps', s1, p, s2);
    steps' := steps' + [Advance(p, OK)];
    var s3 := At(s2, p, Inserting(ctx)).(blobs := s.blobs[KeyOf(ctx.release, u) := u.bytes]);
    GoOn(digest, steps', s2, p, s3);
    steps' := steps' + [Advance(p, OK)];
    var s4 := At(s3, p, UpdatingPackage(ctx, true)).(artifacts := s.artifacts[(ctx.release, u.filename) := MakeArtifact(ctx.release, u)]);
    GoOn(digest, steps', s3, p, s4);
    steps' := steps' + [Advance(p, OK)];
    var s5 := At(s4, p, Updating(ctx, true));
    GoOn(digest, steps', s4, p, s5);
    steps' := steps' + [Advance(p, OK)];
    assert s5 == AfterRecording(s, p);
  }

  // ---------------------------------------------------------------- acknowledged and lost

  const FAILS := Choice(true, false, "r")

  /** PUT 1 has recorded its file and is about to answer; PUT 0 is about to roll the release back. */
  function BeforeRollback(u: Upload, v: Upload): State {
    At(AfterRecording(BothResolved(u, v), 1), 0, RollingBack(CREATED))
  }

  lemma RunIntoRollback(digest: Bytes -> string, u: Upload, v: Upload) returns (steps: seq<Step>)
    requires Parsed(digest, u) && Parsed(digest, v) && SameRelease(u, v) && u.filename != v.filename
    ensures Leads(digest, steps, BeforeRollback(u, v))
  {
    hide Run, Exec, KeyOf, MakeArtifact, Parsed, Advanced;
    steps := ResolveSecond(digest, u, v);
    steps := Record(digest, steps, BothResolved(u, v), 1);
    var s := AfterRecording(BothResolved(u, v), 1);
    var s1 := At(s, 0, CheckingWindow(CREATED));
    GoOn(digest, steps, s, 0, s1);
    steps := steps + [Advance(0, OK)];
    var s2 := At(s1, 0, StoringBlob(CREATED));
    GoOn(digest, steps, s1, 0, s2);
    steps := steps + [Advance(0, OK)];
    AtStoringBlob(s2, 0, FAILS);
    assert Advanced(s2, 0, FAILS) == BeforeRollback(u, v);
    Go(digest, steps, s2, 0, FAILS, BeforeRollback(u, v));
    steps := steps + [Advance(0, FAILS)];
  }

  lemma PcOf(s: State, p: PutId, c: Choice)
    requires CanAdvance(s, p, c)
    ensures Advanced(s, p, c).puts[p].pc == NextPc(s, p, c)
  {
    hide NextPc, Effect;
  }

  /** PUT 1 answers. */
  lemma Answer(digest: Bytes -> string, steps: seq<Step>, s: State, v: Upload) returns (s': State)
    requires Leads(digest, steps, s) && 1 in s.puts && s.puts[1] == Put(v, Updating(READ, true))
    ensures Leads(digest, steps + [Advance(1, OK)], s')
    ensures CanAdvance(s, 1, OK) && Succeeded(NextPc(s, 1, OK))
    ensures s'.artifacts == s.artifacts && s'.releases.Keys == s.releases.Keys && s'.puts == s.puts[1 := Put(v, Done(CreatedResponse))]
  {
    hide Run, Exec, Advanced, NextPc;
    AtUpdating(s, 1, OK);
    PcOf(s, 1, OK);
    s' := Advanced(s, 1, OK);
    Go(digest, steps, s, 1, OK, s');
  }

  /** PUT 0 rolls back. */
  lemma Rollback(digest: Bytes -> string, steps: seq<Step>, s: State) returns (s': State)
    requires Leads(digest, steps, s) && 0 in s.puts && s.puts[0].pc == RollingBack(CREATED)
    ensures Leads(digest, steps + [Advance(0, OK)], s')
    ensures (forall k :: k in s'.artifacts ==> k.0 != "r") && s'.puts == s.puts[0 := s.puts[0].(pc := Done(InternalErrorResponse))]
  {
    hide Run, Exec, Advanced;
    AtRollingBack(s, 0, OK);
    s' := Advanced(s, 0, OK);
    Go(digest, steps, s, 0, OK, s');
  }

  lemma AnswersAt(digest: Bytes -> string, before: seq<Step>, s: State, steps: seq<Step>, v: Upload)
    requires Leads(digest, before, s) && Run(digest, Init(0), steps) && before + [Advance(1, OK)] <= steps
    requires 1 in s.puts && s.puts[1] == Put(v, Updating(READ, true)) && CanAdvance(s, 1, OK) && Succeeded(NextPc(s, 1, OK))
    ensures Acknowledges(digest, 0, steps, |before|, 1, v, "r")
  {
    hide Run, Exec, NextPc, StateAt;
    StatePrefix(digest, Init(0), before, steps);
    assert steps[|before|] == (before + [Advance(1, OK)])[|before|];
  }

  /**
   Two PUTs of a new release: the first creates it, the second finds it and records its file, and then the
   first fails to write its blob and rolls back.  The second answers 201 all the same, before the rollback
   or after it, and its file is not recorded.
   */
  lemma AcknowledgedFileLost(digest: Bytes -> string, u: Upload, v: Upload, answersFirst: bool) returns (steps: seq<Step>, n: nat)
    requires Parsed(digest, u) && Parsed(digest, v) && SameRelease(u, v) && u.filename != v.filename
    ensures Run(digest, Init(0), steps) && PutsOnly(steps) && Acknowledges(digest, 0, steps, n, 1, v, "r")
    ensures n == if answersFirst then |steps| - 2 else |steps| - 1
    ensures !RecordedAs(Exec(digest, Init(0), steps), "r", v)
  {
    hide Run, Exec, Parsed, Acknowledges, KeyOf, MakeArtifact;
    var before := RunIntoRollback(digest, u, v);
    var s := BeforeRollback(u, v);
    assert s.puts[0].pc == RollingBack(CREATED) && s.puts[1] == Put(v, Updating(READ, true));
    hide BeforeRollback;
    if answersFirst {
      var s1 := Answer(digest, before, s, v);
      var s2 := Rollback(digest, before + [Advance(1, OK)], s1);
      steps, n := before + [Advance(1, OK)] + [Advance(0, OK)], |before|;
      AnswersAt(digest, before, s, steps, v);
    } else {
      var s1 := Rollback(digest, before, s);
      var s2 := Answer(digest, before + [Advance(0, OK)], s1, v);
      steps, n := before + [Advance(0, OK)] + [Advance(1, OK)], |before| + 1;
      AnswersAt(digest, before + [Advance(0, OK)], s1, steps, v);
    }
  }

  // ---------------------------------------------------------------- published twice

  /** Two PUTs of the same POM, both about to publish what both have read as unpublished. */
  function BeforePublishing(u: Upload): State {
    At(AfterRecording(BothResolved(u, u), 0), 1, Updating(READ, false))
  }

  lemma RunIntoPublishing(digest: Bytes -> string, u: Upload) returns (steps: seq<Step>)
    requires Parsed(digest, u) && u.role.Pom?
    ensures Leads(digest, steps, BeforePublishing(u))
  {
    hide Run, Exec, KeyOf, Parsed;
    steps := ResolveSecond(digest, u, u);
    steps := Record(digest, steps, BothResolved(u, u), 0);
    var s := AfterRecording(BothResolved(u, u), 0);
    var s1 := At(s, 1, UpdatingPackage(READ, false));
    GoOn(digest, steps, s, 1, s1);
    steps := steps + [Advance(1, OK)];
    GoOn(digest, steps, s1, 1, At(s1, 1, Updating(READ, false)));
    steps := steps + [Advance(1, OK)];
    assert At(s1, 1, Updating(READ, false)) == BeforePublishing(u);
  }

  /**
   Two overlapping PUTs of the same POM publish the release twice, and the second moves its publication
   time, and with it the window, by however long it comes later.
   */
  lemma InterleavedPutsRepublish(digest: Bytes -> string, u: Upload, later: nat) returns (steps: seq<Step>, i: nat, j: nat)
    requires Parsed(digest, u) && u.role.Pom?
    ensures Run(digest, Init(0), steps) && PutsOnly(steps) && i < j == |steps| - 1
    ensures PublishesRow(StateAt(digest, Init(0), steps, i), steps[i], "r")
    ensures PublishesRow(StateAt(digest, Init(0), steps, j), steps[j], "r")
    ensures var e := Exec(digest, Init(0), steps); var s := StateAt(digest, Init(0), steps, j);
      && "r" in s.releases && s.releases["r"].publishedAt == 0
      && "r" in e.releases && e.releases["r"].publishedAt == later
  {
    hide Run, Exec, Parsed, KeyOf, MakeArtifact, Advanced;
    var before := RunIntoPublishing(digest, u);
    var s := BeforePublishing(u);
    AtUpdating(s, 0, OK);
    var s1 := Advanced(s, 0, OK);
    Go(digest, before, s, 0, OK, s1);
    Wait(digest, before + [Advance(0, OK)], s1, later);
    var s2 := s1.(now := s1.now + later);
    var middle := before + [Advance(0, OK)] + [Tick(later)];
    AtUpdating(s2, 1, OK);
    Go(digest, middle, s2, 1, OK, Advanced(s2, 1, OK));
    steps, i, j := middle + [Advance(1, OK)], |before|, |middle|;
    StatePrefix(digest, Init(0), before, steps);
    StatePrefix(digest, Init(0), middle, steps);
    assert steps[i] == Advance(0, OK) && steps[j] == Advance(1, OK);
  }

  // ---------------------------------------------------------------- a lone PUT after the hour

  /** Two starts, the second when everything is done, make PUTs one at a time. */
  lemma TwoInARow(digest: Bytes -> string, steps: seq<Step>, m: nat)
    requires Run(digest, Init(0), steps) && PutsOnly(steps) && m < |steps|
    requires forall i :: 0 < i < |steps| && steps[i].Start? ==> i == m
    requires forall p :: !Unfinished(StateAt(digest, Init(0), steps, m), p)
    ensures OneAtATime(digest, 0, steps)
  {
    forall i | 0 <= i < |steps| && steps[i].Start? ensures forall p :: !Unfinished(StateAt(digest, Init(0), steps, i), p) {
      if i == 0 {
        assert StateAt(digest, Init(0), steps, 0) == Init(0);
      }
    }
  }

  /** The POM is deployed, the hour is just over, and the second PUT has found the published release. */
  function HourOver(u: Upload, v: Upload): State {
    var s := AfterRecording(Created(u), 0);
    s.(now := 3600, releases := map["r" := Release(u.package, u.version, Published, 0)],
       puts := map[0 := Put(u, Done(CreatedResponse)), 1 := Put(v, CheckingExisting(Context("r", Published, 0, false)))])
  }

  lemma RunIntoHour(digest: Bytes -> string, u: Upload, v: Upload) returns (steps: seq<Step>, m: nat)
    requires Parsed(digest, u) && Parsed(digest, v) && SameRelease(u, v) && u.role.Pom? && u.filename != v.filename
    ensures Leads(digest, steps, HourOver(u, v)) && m < |steps| && steps[m] == Start(1, v)
    ensures forall i :: 0 < i < |steps| && steps[i].Start? ==> i == m
    ensures forall p :: !Unfinished(StateAt(digest, Init(0), steps, m), p)
  {
    hide Run, Exec, Parsed, KeyOf, MakeArtifact, Advanced, FindRelease, StateAt;
    steps := CreateFirst(digest, u);
    steps := Record(digest, steps, Created(u), 0);
    var s := AfterRecording(Created(u), 0);
    AtUpdating(s, 0, OK);
    var s1 := Advanced(s, 0, OK);
    Go(digest, steps, s, 0, OK, s1);
    steps := steps + [Advance(0, OK)];
    Wait(digest, steps, s1, 3600);
    steps := steps + [Tick(3600)];
    var s2 := s1.(now := 3600);
    m := |steps|;
    ghost var before := steps;
    Begin(digest, steps, s2, 1, v);
    steps := steps + [Start(1, v)];
    var s3 := s2.(puts := s2.puts[1 := Put(v, Resolving)]);
    OnlyRelease(s3, v, "r");
    AtResolving(s3, 1, OK);
    assert Advanced(s3, 1, OK) == HourOver(u, v);
    Go(digest, steps, s3, 1, OK, HourOver(u, v));
    steps := steps + [Advance(1, OK)];
    StatePrefix(digest, Init(0), before, steps);
  }

  /**
   PUTs one at a time, and still a file is recorded in a release whose hour is over: the second PUT
   passes the window check in the last second and takes `slow` seconds to store its bytes.
   */
  lemma FileRecordedAfterTheHour(digest: Bytes -> string, u: Upload, v: Upload, slow: nat) returns (steps: seq<Step>, n: nat)
    requires Parsed(digest, u) && Parsed(digest, v) && SameRelease(u, v) && u.role.Pom? && u.filename != v.filename
    ensures Run(digest, Init(0), steps) && OneAtATime(digest, 0, steps) && Records(digest, 0, steps, n, 1, "r")
    ensures var s := StateAt(digest, Init(0), steps, n);
      && "r" in s.releases && s.releases["r"].status.Published?
      && s.now == s.releases["r"].publishedAt + GRACE_WINDOW_SECONDS + slow
  {
    hide Run, Exec, Parsed, KeyOf, MakeArtifact, Advanced, FindRelease, StateAt;
    var m;
    steps, m := RunIntoHour(digest, u, v);
    ghost var hour := steps;
    var ctx := Context("r", Published, 0, false);
    var s := HourOver(u, v);
    GoOn(digest, steps, s, 1, At(s, 1, CheckingWindow(ctx)));
    steps := steps + [Advance(1, OK)];
    s := At(s, 1, CheckingWindow(ctx));
    GoOn(digest, steps, s, 1, At(s, 1, StoringBlob(ctx)));
    steps := steps + [Advance(1, OK)];
    s := At(s, 1, StoringBlob(ctx));
    Wait(digest, steps, s, slow);
    steps := steps + [Tick(slow)];
    s := s.(now := s.now + slow);
    var s1 := At(s, 1, Inserting(ctx)).(blobs := s.blobs[KeyOf("r", v) := v.bytes]);
    GoOn(digest, steps, s, 1, s1);
    steps := steps + [Advance(1, OK)];
    n := |steps|;
    ghost var before := steps;
    var s2 := At(s1, 1, UpdatingPackage(ctx, true)).(artifacts := s1.artifacts[("r", v.filename) := MakeArtifact("r", v)]);
    GoOn(digest, steps, s1, 1, s2);
    steps := steps + [Advance(1, OK)];
    StatePrefix(digest, Init(0), before, steps);
    assert steps[n] == Advance(1, OK);
    AtInserting(s1, 1, OK);
    RecordsHere(digest, steps, n, s1, s2, v);
    SharedState(digest, Init(0), hour, steps, m);
    TwoInARow(digest, steps, m);
  }

  lemma {:induction false} SharedState(digest: Bytes -> string, s: State, steps: seq<Step>, more: seq<Step>, i: nat)
    requires Run(digest, s, steps) && Run(digest, s, more) && steps <= more && i <= |steps|
    ensures StateAt(digest, s, more, i) == StateAt(digest, s, steps, i)
    decreases i
  {
    hide Enabled, Apply;
    if i > 0 {
      SharedState(digest, Apply(digest, s, steps[0]), steps[1..], more[1..], i - 1);
    }
  }

  lemma RecordsHere(digest: Bytes -> string, steps: seq<Step>, n: nat, s: State, s': State, v: Upload)
    requires Run(digest, Init(0), steps) && n < |steps| && steps[n] == Advance(1, OK)
    requires StateAt(digest, Init(0), steps, n) == s && 1 in s.puts && s.puts[1].pc.Inserting? && s.puts[1].upload == v
    requires s.puts[1].pc.ctx.release == "r" && ("r", v.filename) !in s.artifacts && ("r", v.filename) in s'.artifacts
    requires CanAdvance(s, 1, OK) && Advanced(s, 1, OK) == s'
    ensures Records(digest, 0, steps, n, 1, "r")
  {
    hide Run, StateAt, Advanced;
  }

  // ---------------------------------------------------------------- such uploads exist

  function Uploaded(digest: Bytes -> string, bytes: Bytes, artifactId: string, version: string, extension: string, role: Role): Upload {
    Upload(0, artifactId, version, artifactId + "-" + version + extension, bytes, digest(bytes), |bytes|, role)
  }

  /** For all bytes and coordinates that make acceptable names there are a POM and a JAR of one release. */
  lemma UploadsExist(digest: Bytes -> string, bytes: Bytes, artifactId: string, version: string)
    requires ValidateFilename(artifactId + "-" + version + ".pom").None? && ValidateFilename(artifactId + "-" + version + ".jar").None?
    ensures var pom := Uploaded(digest, bytes, artifactId, version, ".pom", Pom);
            var jar := Uploaded(digest, bytes, artifactId, version, ".jar", Primary);
      Parsed(digest, pom) && Parsed(digest, jar) && SameRelease(pom, jar) && pom.filename != jar.filename
  {
    hide ValidateFilename, Classify;
    PomClassified(artifactId, version);
    JarClassified(artifactId, version);
    var base := artifactId + "-" + version;
    assert (base + ".pom")[|base| + 1] == 'p' && (base + ".jar")[|base| + 1] == 'j';
  }

  lemma PomClassified(artifactId: string, version: string)
    requires ValidateFilename(artifactId + "-" + version + ".pom").None?
    ensures Classify(artifactId, version, artifactId + "-" + version + ".pom") == Ok(Pom)
  {
    hide ValidateFilename, StripSuffix, StripChecksumSuffix;
    var base := artifactId + "-" + version;
    NoSuffix(base, ".pom");
    StripsWhatWasAppended(base, ".pom");
    assert base <= base + ".pom" && (base + ".pom")[|base|..] == ".pom" && ".pom"[1..] == "pom";
  }

  lemma JarClassified(artifactId: string, version: string)
    requires ValidateFilename(artifactId + "-" + version + ".jar").None?
    ensures Classify(artifactId, version, artifactId + "-" + version + ".jar") == Ok(Primary)
  {
    hide ValidateFilename, StripSuffix, StripChecksumSuffix;
    var base := artifactId + "-" + version;
    NoSuffix(base, ".jar");
    assert base <= base + ".jar" && (base + ".jar")[|base|..] == ".jar" && ".jar"[1..] == "jar";
  }

  lemma WrongEnd(f: string, suffix: string)
    requires f != "" && suffix != "" && f[|f| - 1] != suffix[|suffix| - 1]
    ensures StripSuffix(f, suffix).None?
  {
    assert |suffix| <= |f| ==> f[|f| - |suffix|..][|suffix| - 1] == f[|f| - 1];
  }

  lemma NoSuffix(base: string, extension: string)
    requires extension == ".pom" || extension == ".jar"
    ensures StripChecksumSuffix(base + extension).None? && StripSuffix(base + extension, ".asc").None?
    ensures extension == ".jar" ==> StripSuffix(base + extension, ".pom").None?
  {
    hide StripSuffix;
    var f := base + extension;
    assert f[|f| - 1] == extension[3];
    WrongEnd(f, ".md5");
    WrongEnd(f, ".sha1");
    WrongEnd(f, ".sha256");
    WrongEnd(f, ".sha512");
    WrongEnd(f, ".asc");
    if extension == ".jar" {
      WrongEnd(f, ".pom");
    }
  }
}
