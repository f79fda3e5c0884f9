/**
 Looking into runs of interleaved Maven PUTs (crates/adapters/maven/src/routes.rs, `repository_put`): the
 states on the way, and what each PUT has behind it.
 */
module MavenRuns {
  import opened Common
  import opened MavenNames
  import opened MavenDeploy
  import opened MavenSteps
  import opened MavenProofs

  // ---------------------------------------------------------------- the states of a run

  /** The state before step `i`, or at the end of the run. */
  ghost function StateAt(digest: Bytes -> string, s: State, steps: seq<Step>, i: nat): State
    requires Run(digest, s, steps) && i <= |steps|
    decreases i
  {
    if i == 0 then s else StateAt(digest, Apply(digest, s, steps[0]), steps[1..], i - 1)
  }

  lemma {:induction false} NextState(digest: Bytes -> string, s: State, steps: seq<Step>, i: nat)
    requires Run(digest, s, steps) && i < |steps|
    ensures Enabled(digest, StateAt(digest, s, steps, i), steps[i])
    ensures StateAt(digest, s, steps, i + 1) == Apply(digest, StateAt(digest, s, steps, i), steps[i])
    decreases i
  {
    hide Enabled, Apply;
    if i > 0 {
      NextState(digest, Apply(digest, s, steps[0]), steps[1..], i - 1);
    }
  }

  lemma {:induction false} LastState(digest: Bytes -> string, s: State, steps: seq<Step>)
    requires Run(digest, s, steps)
    ensures StateAt(digest, s, steps, |steps|) == Exec(digest, s, steps)
    decreases |steps|
  {
    hide Enabled, Apply;
    if steps != [] {
      LastState(digest, Apply(digest, s, steps[0]), steps[1..]);
    }
  }

  lemma {:induction false} InvAt(digest: Bytes -> string, s: State, steps: seq<Step>, i: nat)
    requires Inv(digest, s) && Run(digest, s, steps) && i <= |steps|
    ensures Inv(digest, StateAt(digest, s, steps, i))
    decreases i
  {
    hide Enabled, Apply, Inv;
    if i > 0 {
      InvStep(digest, s, steps[0]);
      InvAt(digest, Apply(digest, s, steps[0]), steps[1..], i - 1);
    }
  }

  lemma InvAtStart(digest: Bytes -> string, start: int)
    requires SlashFreeDigest(digest)
    ensures Inv(digest, Init(start))
  {
  }

  // ---------------------------------------------------------------- what lasts

  /** PUTs, ids and time only ever come on top. */
  lemma StepKeeps(digest: Bytes -> string, s: State, step: Step)
    requires Enabled(digest, s, step)
    ensures var s' := Apply(digest, s, step);
      && s.now <= s'.now && s.usedIds <= s'.usedIds
      && (forall p | p in s.puts :: p in s'.puts && s'.puts[p].upload == s.puts[p].upload)
  {
    hide Parsed, FindRelease, NextPc;
  }

  lemma {:induction false} LaterKeeps(digest: Bytes -> string, s: State, steps: seq<Step>, i: nat, j: nat)
    requires Run(digest, s, steps) && i <= j <= |steps|
    ensures var a := StateAt(digest, s, steps, i); var b := StateAt(digest, s, steps, j);
      && a.now <= b.now && a.usedIds <= b.usedIds
      && (forall p | p in a.puts :: p in b.puts && b.puts[p].upload == a.puts[p].upload)
    decreases j
  {
    hide Enabled, Apply, StateAt;
    if i < j {
      LaterKeeps(digest, s, steps, i, j - 1);
      NextState(digest, s, steps, j - 1);
      StepKeeps(digest, StateAt(digest, s, steps, j - 1), steps[j - 1]);
    }
  }

  /** A release that is gone stays gone, and a recorded file stays as long as its release does. */
  lemma {:induction false} LaterRows(digest: Bytes -> string, s: State, steps: seq<Step>, i: nat, j: nat, k: (ReleaseId, string))
    requires Inv(digest, s) && Run(digest, s, steps) && i <= j <= |steps|
    requires k.0 in StateAt(digest, s, steps, i).usedIds
    ensures var a := StateAt(digest, s, steps, i); var b := StateAt(digest, s, steps, j);
      && (k.0 in b.releases ==> k.0 in a.releases)
      && (k.0 in b.releases && k in a.artifacts ==> k in b.artifacts && b.artifacts[k] == a.artifacts[k])
    decreases j
  {
    hide Enabled, Apply, StateAt, Inv;
    if i < j {
      var before := StateAt(digest, s, steps, j - 1);
      LaterRows(digest, s, steps, i, j - 1, k);
      LaterKeeps(digest, s, steps, i, j - 1);
      InvAt(digest, s, steps, j - 1);
      NextState(digest, s, steps, j - 1);
      StepFrame(digest, before, steps[j - 1]);
    }
  }

  // ---------------------------------------------------------------- what a PUT has behind it

  /** Step `i` is PUT `p`'s statement at `pc`. */
  ghost predicate Took(digest: Bytes -> string, s: State, steps: seq<Step>, i: nat, p: PutId, pc: Pc)
    requires Run(digest, s, steps)
  {
    && i < |steps| && steps[i].Advance? && steps[i].put == p
    && p in StateAt(digest, s, steps, i).puts && StateAt(digest, s, steps, i).puts[p].pc == pc
  }

  /** A PUT is where it was, or it has just taken a statement. */
  lemma PcMoves(digest: Bytes -> string, s: State, step: Step, p: PutId)
    requires Enabled(digest, s, step) && p in Apply(digest, s, step).puts
    ensures var pc' := Apply(digest, s, step).puts[p].pc;
      || (p !in s.puts && pc'.Resolving?)
      || (p in s.puts && pc' == s.puts[p].pc)
      || (p in s.puts && step.Advance? && step.put == p && CanAdvance(s, p, step.choice) && pc' == NextPc(s, p, step.choice))
  {
    hide Parsed, FindRelease, NextPc, Effect;
  }

  /** Which statement leads to which, with the context kept once it is there. */
  lemma CameFrom(s: State, p: PutId, c: Choice)
    requires CanAdvance(s, p, c)
    ensures var pc := s.puts[p].pc; var pc' := NextPc(s, p, c);
      && (pc'.StoringBlob? ==> pc == CheckingWindow(pc'.ctx) && AcceptsNewArtifacts(pc'.ctx, s.now))
      && (pc'.Inserting? ==> pc == StoringBlob(pc'.ctx) && !c.fault)
      && (pc'.RollingBack? ==> pc == StoringBlob(pc'.ctx) && c.fault && pc'.ctx.created)
      && (HasContext(pc') && !HasContext(pc) ==>
            (pc.Creating? && CreatesRelease(s, p, c) && pc'.ctx == Context(c.freshId, Quarantine, s.now, true))
            || (!pc'.ctx.created && pc'.ctx.release in s.releases && pc'.ctx == ReadContext(s, pc'.ctx.release)
                && Matches(s, s.puts[p].upload, pc'.ctx.release)))
      && (HasContext(pc') && HasContext(pc) ==> pc'.ctx == pc.ctx)
  {
    hide FindRelease, AcceptsNewArtifacts;
  }

  /** A PUT that writes its blob passed the window check before. */
  lemma {:induction false} BeforeStoring(digest: Bytes -> string, start: int, steps: seq<Step>, n: nat, p: PutId) returns (i: nat)
    requires Run(digest, Init(start), steps) && n <= |steps|
    requires p in StateAt(digest, Init(start), steps, n).puts && StateAt(digest, Init(start), steps, n).puts[p].pc.StoringBlob?
    ensures var ctx := StateAt(digest, Init(start), steps, n).puts[p].pc.ctx;
      i < n && Took(digest, Init(start), steps, i, p, CheckingWindow(ctx))
      && AcceptsNewArtifacts(ctx, StateAt(digest, Init(start), steps, i).now)
    decreases n
  {
    hide Enabled, Apply, AcceptsNewArtifacts;
    assert n > 0;
    var before := StateAt(digest, Init(start), steps, n - 1);
    NextState(digest, Init(start), steps, n - 1);
    hide StateAt;
    PcMoves(digest, before, steps[n - 1], p);
    if p in before.puts && before.puts[p].pc.StoringBlob? {
      if steps[n - 1].Advance? && steps[n - 1].put == p && CanAdvance(before, p, steps[n - 1].choice) {
        CameFrom(before, p, steps[n - 1].choice);
      }
      i := BeforeStoring(digest, start, steps, n - 1, p);
    } else {
      CameFrom(before, p, steps[n - 1].choice);
      i := n - 1;
    }
  }

  lemma {:induction false} BeforeInserting(digest: Bytes -> string, start: int, steps: seq<Step>, n: nat, p: PutId) returns (i: nat)
    requires Run(digest, Init(start), steps) && n <= |steps|
    requires p in StateAt(digest, Init(start), steps, n).puts && StateAt(digest, Init(start), steps, n).puts[p].pc.Inserting?
    ensures var ctx := StateAt(digest, Init(start), steps, n).puts[p].pc.ctx;
      i < n && Took(digest, Init(start), steps, i, p, CheckingWindow(ctx))
      && AcceptsNewArtifacts(ctx, StateAt(digest, Init(start), steps, i).now)
    decreases n
  {
    hide Enabled, Apply, AcceptsNewArtifacts;
    assert n > 0;
    var before := StateAt(digest, Init(start), steps, n - 1);
    NextState(digest, Init(start), steps, n - 1);
    hide StateAt;
    PcMoves(digest, before, steps[n - 1], p);
    if p in before.puts && before.puts[p].pc.Inserting? {
      if steps[n - 1].Advance? && steps[n - 1].put == p && CanAdvance(before, p, steps[n - 1].choice) {
        CameFrom(before, p, steps[n - 1].choice);
      }
      i := BeforeInserting(digest, start, steps, n - 1, p);
    } else {
      CameFrom(before, p, steps[n - 1].choice);
      i := BeforeStoring(digest, start, steps, n - 1, p);
    }
  }

  /** The PUT that rolls a release back has had its blob write fail. */
  lemma {:induction false} BeforeRollingBack(digest: Bytes -> string, start: int, steps: seq<Step>, n: nat, p: PutId) returns (i: nat)
    requires Run(digest, Init(start), steps) && n <= |steps|
    requires p in StateAt(digest, Init(start), steps, n).puts && StateAt(digest, Init(start), steps, n).puts[p].pc.RollingBack?
    ensures var ctx := StateAt(digest, Init(start), steps, n).puts[p].pc.ctx;
      i < n && ctx.created && Took(digest, Init(start), steps, i, p, StoringBlob(ctx)) && steps[i].choice.fault
    decreases n
  {
    hide Enabled, Apply, AcceptsNewArtifacts;
    assert n > 0;
    var before := StateAt(digest, Init(start), steps, n - 1);
    NextState(digest, Init(start), steps, n - 1);
    hide StateAt;
    PcMoves(digest, before, steps[n - 1], p);
    if p in before.puts && before.puts[p].pc.RollingBack? {
      if steps[n - 1].Advance? && steps[n - 1].put == p && CanAdvance(before, p, steps[n - 1].choice) {
        CameFrom(before, p, steps[n - 1].choice);
      }
      i := BeforeRollingBack(digest, start, steps, n - 1, p);
    } else {
      CameFrom(before, p, steps[n - 1].choice);
      i := n - 1;
    }
  }

  /** The PUT whose context says so has created the release. */
  lemma {:induction false} BeforeCreated(digest: Bytes -> string, start: int, steps: seq<Step>, n: nat, p: PutId) returns (i: nat)
    requires Run(digest, Init(start), steps) && n <= |steps|
    requires var s := StateAt(digest, Init(start), steps, n); p in s.puts && HasContext(s.puts[p].pc) && s.puts[p].pc.ctx.created
    ensures var r := StateAt(digest, Init(start), steps, n).puts[p].pc.ctx.release;
      i < n && Took(digest, Init(start), steps, i, p, Creating) && steps[i].choice.freshId == r
      && CreatesRelease(StateAt(digest, Init(start), steps, i), p, steps[i].choice)
    decreases n
  {
    hide Enabled, Apply, AcceptsNewArtifacts, CreatesRelease;
    assert n > 0;
    var before := StateAt(digest, Init(start), steps, n - 1);
    NextState(digest, Init(start), steps, n - 1);
    hide StateAt;
    PcMoves(digest, before, steps[n - 1], p);
    if p in before.puts && HasContext(before.puts[p].pc) {
      if steps[n - 1].Advance? && steps[n - 1].put == p && CanAdvance(before, p, steps[n - 1].choice) {
        CameFrom(before, p, steps[n - 1].choice);
      }
      i := BeforeCreated(digest, start, steps, n - 1, p);
    } else {
      CameFrom(before, p, steps[n - 1].choice);
      i := n - 1;
    }
  }
}
