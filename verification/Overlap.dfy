/**
 First installs of one coordinate that overlap: exactly when they can record two
 signers, and complete runs in which they do. The pin is read outside the
 manifest lock and not looked at again (internal/install/grcstore.go:80-160).
 */
module Overlap {
  import opened Wrappers
  import opened Coordinate
  import opened Manifest
  import opened Pull
  import opened Verify
  import opened Install

  predicate InstallOf(job: Job, c: string)
  {
    Running(job) && job.detail.Coordinate() == c
  }

  /**
   Nothing is recorded for the coordinate, and its unfinished installs have all fetched
   their index and read no pin.
   */
  predicate Untouched(s: State, c: string)
  {
    && WellFormed(s) && !HasName(s.plugins, c)
    && forall j :: 0 <= j < |s.jobs| && InstallOf(s.jobs[j], c) ==> s.jobs[j].Fetched?
  }

  predicate DistinctVersions(s: State, c: string)
    requires Untouched(s, c)
  {
    forall i, j :: 0 <= i < j < |s.jobs| && InstallOf(s.jobs[i], c) && InstallOf(s.jobs[j], c) ==>
      s.jobs[i].index.version != s.jobs[j].index.version
  }

  /** What the install would be accepted as if it found nothing recorded: under the signer the hub declared, if any. */
  ghost predicate FirstOk(env: Env, job: Job, v: VerifiedPlugin)
  {
    && job.Fetched?
    && Verified(env.w, env.sig, env.host, job.source, job.index,
      PinnedIdentityFor(None, job.detail.signerIdentity).0) == Ok(v)
    && ValidSegment(v.entrypoint) && ValidVersionDir(v.version)
  }

  ghost predicate FirstOf(env: Env, s: State, c: string, j: nat, v: VerifiedPlugin)
  {
    j < |s.jobs| && InstallOf(s.jobs[j], c) && FirstOk(env, s.jobs[j], v)
  }

  /** Whichever of the installs comes first, it shows the same signer. */
  ghost predicate FirstsAgree(env: Env, s: State, c: string)
  {
    forall i: nat, j: nat, v: VerifiedPlugin, w: VerifiedPlugin ::
      FirstOf(env, s, c, i, v) && FirstOf(env, s, c, j, w) ==> v.signerIdentity == w.signerIdentity
  }

  ghost predicate OneSigner(m: Plugins, c: string)
  {
    exists signer :: Uniform(m, c, signer)
  }

  ghost predicate Linked<T(!new)>(step: (T, T) -> bool, states: seq<T>)
  {
    forall i :: 0 <= i < |states| - 1 ==> Joined(step, states, i)
  }

  ghost predicate Joined<T(!new)>(step: (T, T) -> bool, states: seq<T>, i: int)
    requires 0 <= i < |states| - 1
  {
    step(states[i], states[i + 1])
  }

  lemma LinkFive<T(!new)>(step: (T, T) -> bool, a: T, b: T, c: T, d: T, e: T)
    requires step(a, b) && step(b, c) && step(c, d) && step(d, e)
    ensures Linked(step, [a, b, c, d, e])
  {
  }

  lemma LinkSix<T(!new)>(step: (T, T) -> bool, a: T, b: T, c: T, d: T, e: T, f: T)
    requires step(a, b) && step(b, c) && step(c, d) && step(d, e) && step(e, f)
    ensures Linked(step, [a, b, c, d, e, f])
  {
  }

  lemma LinkSeven<T(!new)>(step: (T, T) -> bool, a: T, b: T, c: T, d: T, e: T, f: T, g: T)
    requires step(a, b) && step(b, c) && step(c, d) && step(d, e) && step(e, f) && step(f, g)
    ensures Linked(step, [a, b, c, d, e, f, g])
  {
  }

  lemma LinkOn<T(!new)>(step: (T, T) -> bool, a: seq<T>, b: seq<T>)
    requires a != [] && b != [] && a[|a| - 1] == b[0] && Linked(step, a) && Linked(step, b)
    ensures Linked(step, a + b[1..])
  {
    var s := a + b[1..];
    forall i | 0 <= i < |s| - 1 ensures Joined(step, s, i) {
      if i < |a| - 1 {
        assert Joined(step, a, i) && s[i] == a[i] && s[i + 1] == a[i + 1];
      } else {
        var k := i - |a| + 1;
        assert Joined(step, b, k) && s[i] == b[k] && s[i + 1] == b[k + 1];
      }
    }
  }

  ghost function Steps(env: Env): (State, State) -> bool
  {
    (s: State, s': State) => Step(env, s, s')
  }

  ghost predicate Follows(env: Env, states: seq<State>)
  {
    Linked(Steps(env), states)
  }

  /** No install of the coordinate is running but those that were. */
  predicate NoOthers(s0: State, s: State, c: string)
  {
    |s.jobs| == |s0.jobs| && forall j :: 0 <= j < |s.jobs| && InstallOf(s.jobs[j], c) ==> InstallOf(s0.jobs[j], c)
  }

  /** Any way to go on from a state without starting another install of the coordinate. */
  ghost predicate Continues(env: Env, s: State, states: seq<State>, c: string)
  {
    && states != [] && states[0] == s && Follows(env, states)
    && forall i :: 0 <= i < |states| ==> NoOthers(s, states[i], c)
  }

  ghost predicate AlwaysOneSigner(env: Env, s: State, c: string)
  {
    forall states: seq<State>, k: nat :: Continues(env, s, states, c) && k < |states| ==>
      OneSigner(states[k].plugins, c)
  }

  // ---------------------------------------------------------------------
  // When they agree

  /** How far an install has come, bound to the signer. */
  ghost predicate JobBound(job0: Job, job: Job, signer: string)
  {
    match job
    case Fetched(_, _, _, _) => job == job0
    case Pinned(d, r, f, src, pin) =>
      job0.Fetched? && d == job0.detail && f == job0.index && src == job0.source &&
        (pin == d.signerIdentity || pin == signer)
    case Checked(_, _, _, v) => v.signerIdentity == signer
    case _ => false
  }

  ghost predicate Bound(s0: State, s: State, c: string, signer: string)
  {
    && |s.jobs| == |s0.jobs| && WellFormed(s) && Uniform(s.plugins, c, signer)
    && (forall j :: 0 <= j < |s.jobs| && InstallOf(s.jobs[j], c) ==> JobBound(s0.jobs[j], s.jobs[j], signer))
    && forall j :: 0 <= j < |s.jobs| && s.jobs[j].Idle? ==> s0.jobs[j].Idle?
  }

  ghost predicate AllFirstsShow(env: Env, s: State, c: string, signer: string)
  {
    forall j: nat, v: VerifiedPlugin :: FirstOf(env, s, c, j, v) ==> v.signerIdentity == signer
  }

  lemma CheckIsBound(env: Env, s0: State, s: State, s': State, j: nat, c: string, signer: string)
    requires Untouched(s0, c) && Bound(s0, s, c, signer) && NoOthers(s0, s, c) && signer != ""
    requires AllFirstsShow(env, s0, c, signer)
    requires j < |s.jobs| && Check(env, s, s', j) && InstallOf(s.jobs[j], c)
    ensures s'.jobs[j].Checked? && s'.jobs[j].plugin.signerIdentity == signer
  {
    var job := s.jobs[j];
    assert JobBound(s0.jobs[j], job, signer) && InstallOf(s0.jobs[j], c);
    var v := Verified(env.w, env.sig, env.host, job.source, job.index, job.pin).value;
    if job.pin == signer {
      VerifiedMeetsPolicy(env.w, env.sig, env.host, job.source, job.index, job.pin);
    } else {
      assert FirstOk(env, s0.jobs[j], v);
      assert FirstOf(env, s0, c, j, v);
    }
  }

  lemma ReadIsBound(s: State, s': State, j: nat, c: string, signer: string)
    requires j < |s.jobs| && ReadPin(s, s', j) && Uniform(s.plugins, c, signer) && signer != ""
    requires InstallOf(s.jobs[j], c)
    ensures JobBound(s.jobs[j], s'.jobs[j], signer)
  {
    var order :| PinReadIn(s, s', j, order);
    PinReadFromUniform(s.plugins, c, signer, order, s.jobs[j].detail.signerIdentity);
  }

  lemma StepKeepsBound(env: Env, s0: State, s: State, s': State, j: nat, c: string, signer: string)
    requires Untouched(s0, c) && Bound(s0, s, c, signer) && NoOthers(s0, s, c) && NoOthers(s0, s', c)
    requires signer != "" && AllFirstsShow(env, s0, c, signer) && StepOf(env, s, s', j)
    ensures Bound(s0, s', c, signer)
  {
    StepMovesOne(env, s, s', j);
    if InstallOf(s.jobs[j], c) {
      assert JobBound(s0.jobs[j], s.jobs[j], signer);
      if ReadPin(s, s', j) {
        ReadIsBound(s, s', j, c, signer);
      } else if Check(env, s, s', j) {
        CheckIsBound(env, s0, s, s', j, c, signer);
      }
    } else if InstallOf(s'.jobs[j], c) {
      NewInstallWasIdle(env, s, s', j, c);
    }
  }

  /** A job becomes an install of the coordinate only when the hub answers it. */
  lemma NewInstallWasIdle(env: Env, s: State, s': State, j: nat, c: string)
    requires StepOf(env, s, s', j) && !InstallOf(s.jobs[j], c) && InstallOf(s'.jobs[j], c)
    ensures s.jobs[j].Idle? && s'.jobs[j].Resolved?
  {
    MovedAdvances(env, s, s', j);
  }

  lemma NextBound(env: Env, s: State, states: seq<State>, k: nat, c: string, signer: string)
    requires Continues(env, s, states, c) && k + 1 < |states| && Bound(s, states[k], c, signer)
    requires Untouched(s, c) && signer != "" && AllFirstsShow(env, s, c, signer)
    ensures Bound(s, states[k + 1], c, signer)
  {
    assert Joined(Steps(env), states, k) && NoOthers(s, states[k], c) && NoOthers(s, states[k + 1], c);
    var j: nat :| StepOf(env, states[k], states[k + 1], j);
    StepKeepsBound(env, s, states[k], states[k + 1], j, c, signer);
  }

  lemma {:induction false} StaysBound(env: Env, s: State, states: seq<State>, k: nat, c: string, signer: string)
    requires Continues(env, s, states, c) && k < |states|
    requires Untouched(s, c) && signer != "" && AllFirstsShow(env, s, c, signer)
    ensures Bound(s, states[k], c, signer)
  {
    if k > 0 {
      StaysBound(env, s, states, k - 1, c, signer);
      NextBound(env, s, states, k - 1, c, signer);
    }
  }

  /** The signer the installs would show, or any when none would be accepted. */
  lemma CommonSigner(env: Env, s: State, c: string) returns (signer: string)
    requires FirstsAgree(env, s, c)
    ensures signer != "" && AllFirstsShow(env, s, c, signer)
  {
    if j: nat, v :| FirstOf(env, s, c, j, v) {
      signer := v.signerIdentity;
    } else {
      signer := "nobody";
    }
  }

  lemma AgreementKeepsOneSigner(env: Env, s: State, c: string)
    requires Untouched(s, c) && FirstsAgree(env, s, c)
    ensures AlwaysOneSigner(env, s, c)
  {
    var signer := CommonSigner(env, s, c);
    forall states: seq<State>, k: nat | Continues(env, s, states, c) && k < |states|
      ensures OneSigner(states[k].plugins, c)
    {
      StaysBound(env, s, states, k, c, signer);
      assert Uniform(states[k].plugins, c, signer);
    }
  }

  // ---------------------------------------------------------------------
  // When they do not: read, read, check, check, commit, commit

  function Declared(job: Job): string
    requires job.Fetched?
  {
    PinnedIdentityFor(None, job.detail.signerIdentity).0
  }

  function ReadBy(s: State, j: nat): State
    requires j < |s.jobs| && s.jobs[j].Fetched?
  {
    var job := s.jobs[j];
    Moved(s, j, Pinned(job.detail, job.release, job.index, job.source, Declared(job)))
  }

  function CheckedBy(s: State, j: nat, v: VerifiedPlugin): State
    requires j < |s.jobs| && s.jobs[j].Pinned?
  {
    Moved(s, j, Checked(s.jobs[j].detail, s.jobs[j].release, s.jobs[j].pin, v))
  }

  function CommittedBy(s: State, j: nat): State
    requires j < |s.jobs| && s.jobs[j].Checked?
  {
    Moved(s, j, Finished(true)).(plugins := Added(s.plugins, EntryOf(s.jobs[j].detail, s.jobs[j].plugin)))
  }

  lemma Reads(env: Env, s: State, j: nat, c: string)
    requires WellFormed(s) && j < |s.jobs| && s.jobs[j].Fetched? && InstallOf(s.jobs[j], c) && !HasName(s.plugins, c)
    ensures Step(env, s, ReadBy(s, j))
  {
    var order := Arrangement(s.plugins.Keys);
    assert Iteration(s.plugins, order);
    LatestFoundIff(s.plugins, c, order);
    assert PinReadIn(s, ReadBy(s, j), j, order);
    assert StepOf(env, s, ReadBy(s, j), j);
  }

  lemma Checks(env: Env, s: State, j: nat, v: VerifiedPlugin)
    requires WellFormed(s) && j < |s.jobs| && s.jobs[j].Pinned?
    requires Verified(env.w, env.sig, env.host, s.jobs[j].source, s.jobs[j].index, s.jobs[j].pin) == Ok(v)
    requires ValidSegment(v.entrypoint) && ValidVersionDir(v.version)
    ensures Step(env, s, CheckedBy(s, j, v))
  {
    assert StepOf(env, s, CheckedBy(s, j, v), j);
  }

  lemma Commits(env: Env, s: State, j: nat)
    requires WellFormed(s) && j < |s.jobs| && s.jobs[j].Checked?
    ensures Step(env, s, CommittedBy(s, j))
  {
    assert StepOf(env, s, CommittedBy(s, j), j);
  }

  ghost predicate TwoFirsts(env: Env, s: State, c: string, i: nat, v: VerifiedPlugin, j: nat, w: VerifiedPlugin)
  {
    && WellFormed(s) && !HasName(s.plugins, c) && i != j
    && FirstOf(env, s, c, i, v) && FirstOf(env, s, c, j, w)
  }

  function BothRead(s: State, i: nat, j: nat): State
    requires i < |s.jobs| && j < |s.jobs| && i != j && s.jobs[i].Fetched? && s.jobs[j].Fetched?
  {
    ReadBy(ReadBy(s, i), j)
  }

  function BothChecked(s: State, i: nat, v: VerifiedPlugin, j: nat, w: VerifiedPlugin): State
    requires i < |s.jobs| && j < |s.jobs| && i != j && s.jobs[i].Fetched? && s.jobs[j].Fetched?
  {
    CheckedBy(CheckedBy(BothRead(s, i, j), i, v), j, w)
  }

  function BothCommitted(s: State, i: nat, v: VerifiedPlugin, j: nat, w: VerifiedPlugin): State
    requires i < |s.jobs| && j < |s.jobs| && i != j && s.jobs[i].Fetched? && s.jobs[j].Fetched?
  {
    CommittedBy(CommittedBy(BothChecked(s, i, v, j, w), i), j)
  }

  function OverlapStates(s: State, i: nat, v: VerifiedPlugin, j: nat, w: VerifiedPlugin): seq<State>
    requires i < |s.jobs| && j < |s.jobs| && i != j && s.jobs[i].Fetched? && s.jobs[j].Fetched?
  {
    [s, ReadBy(s, i), BothRead(s, i, j), CheckedBy(BothRead(s, i, j), i, v), BothChecked(s, i, v, j, w),
     CommittedBy(BothChecked(s, i, v, j, w), i), BothCommitted(s, i, v, j, w)]
  }

  lemma OverlapReads(env: Env, s: State, c: string, i: nat, v: VerifiedPlugin, j: nat, w: VerifiedPlugin)
    requires TwoFirsts(env, s, c, i, v, j, w)
    ensures Step(env, s, ReadBy(s, i)) && Step(env, ReadBy(s, i), BothRead(s, i, j))
  {
    Reads(env, s, i, c);
    Reads(env, ReadBy(s, i), j, c);
  }

  lemma OverlapChecks(env: Env, s: State, c: string, i: nat, v: VerifiedPlugin, j: nat, w: VerifiedPlugin)
    requires TwoFirsts(env, s, c, i, v, j, w)
    ensures var r := BothRead(s, i, j);
      Step(env, r, CheckedBy(r, i, v)) && Step(env, CheckedBy(r, i, v), BothChecked(s, i, v, j, w))
  {
    Checks(env, BothRead(s, i, j), i, v);
    Checks(env, CheckedBy(BothRead(s, i, j), i, v), j, w);
  }

  lemma OverlapCommits(env: Env, s: State, c: string, i: nat, v: VerifiedPlugin, j: nat, w: VerifiedPlugin)
    requires TwoFirsts(env, s, c, i, v, j, w)
    ensures var r := BothChecked(s, i, v, j, w);
      Step(env, r, CommittedBy(r, i)) && Step(env, CommittedBy(r, i), BothCommitted(s, i, v, j, w))
  {
    Commits(env, BothChecked(s, i, v, j, w), i);
    Commits(env, CommittedBy(BothChecked(s, i, v, j, w), i), j);
  }

  lemma OverlapFollows(env: Env, s: State, c: string, i: nat, v: VerifiedPlugin, j: nat, w: VerifiedPlugin)
    requires TwoFirsts(env, s, c, i, v, j, w)
    ensures Follows(env, OverlapStates(s, i, v, j, w))
  {
    OverlapReads(env, s, c, i, v, j, w);
    OverlapChecks(env, s, c, i, v, j, w);
    OverlapCommits(env, s, c, i, v, j, w);
    LinkSeven(Steps(env), s, ReadBy(s, i), BothRead(s, i, j), CheckedBy(BothRead(s, i, j), i, v),
      BothChecked(s, i, v, j, w),
      CommittedBy(BothChecked(s, i, v, j, w), i), BothCommitted(s, i, v, j, w));
  }

  lemma OverlapStartsNone(s: State, c: string, i: nat, v: VerifiedPlugin, j: nat, w: VerifiedPlugin, k: nat)
    requires i < |s.jobs| && j < |s.jobs| && i != j && s.jobs[i].Fetched? && s.jobs[j].Fetched? && k < 7
    ensures NoOthers(s, OverlapStates(s, i, v, j, w)[k], c)
  {
  }

  /** Entries of two signers under two keys of one coordinate. */
  lemma TwoEntries(m: Plugins, c: string, p: Plugin, q: Plugin)
    requires p.name == q.name == c && p.version != q.version && p.signerIdentity != q.signerIdentity
    ensures FindVersion(Added(Added(m, p), q), c, p.version) == Some(p)
    ensures FindVersion(Added(Added(m, p), q), c, q.version) == Some(q)
    ensures !OneSigner(Added(Added(m, p), q), c)
  {
    var m' := Added(Added(m, p), q);
    if Key(c, p.version) == Key(c, q.version) {
      OneKeyTwoNames(c, p.version, c, q.version);
    }
    assert m'[Key(c, p.version)] == p && m'[Key(c, q.version)] == q;
  }

  predicate RecordsBoth(m: Plugins, c: string, v: VerifiedPlugin, w: VerifiedPlugin)
  {
    && FindVersion(m, c, v.version).Some? && FindVersion(m, c, v.version).value.signerIdentity == v.signerIdentity
    && FindVersion(m, c, w.version).Some? && FindVersion(m, c, w.version).value.signerIdentity == w.signerIdentity
  }

  /** What the overlapping run leaves behind. */
  lemma OverlapLeavesTwo(env: Env, s: State, c: string, i: nat, v: VerifiedPlugin, j: nat, w: VerifiedPlugin)
    requires TwoFirsts(env, s, c, i, v, j, w) && v.version != w.version && v.signerIdentity != w.signerIdentity
    ensures RecordsBoth(BothCommitted(s, i, v, j, w).plugins, c, v, w)
    ensures !OneSigner(BothCommitted(s, i, v, j, w).plugins, c)
    ensures BothCommitted(s, i, v, j, w).jobs == s.jobs[i := Finished(true)][j := Finished(true)]
  {
    var p, q := EntryOf(s.jobs[i].detail, v), EntryOf(s.jobs[j].detail, w);
    TwoEntries(s.plugins, c, p, q);
    assert BothCommitted(s, i, v, j, w).plugins == Added(Added(s.plugins, p), q);
  }

  lemma DisagreementRecordsTwo(env: Env, s: State, c: string, i: nat, v: VerifiedPlugin, j: nat, w: VerifiedPlugin)
    requires Untouched(s, c) && DistinctVersions(s, c)
    requires FirstOf(env, s, c, i, v) && FirstOf(env, s, c, j, w) && v.signerIdentity != w.signerIdentity
    ensures !AlwaysOneSigner(env, s, c)
  {
    VerifiedMeetsPolicy(env.w, env.sig, env.host, s.jobs[i].source, s.jobs[i].index, Declared(s.jobs[i]));
    VerifiedMeetsPolicy(env.w, env.sig, env.host, s.jobs[j].source, s.jobs[j].index, Declared(s.jobs[j]));
    assert i != j;
    OverlapFollows(env, s, c, i, v, j, w);
    OverlapLeavesTwo(env, s, c, i, v, j, w);
    var states := OverlapStates(s, i, v, j, w);
    forall k | 0 <= k < |states| ensures NoOthers(s, states[k], c) {
      OverlapStartsNone(s, c, i, v, j, w, k);
    }
    assert Continues(env, s, states, c) && !OneSigner(states[6].plugins, c);
  }

  /**
   Exactly when overlap is harmless. Nothing is recorded for the coordinate, its
   installs have fetched different versions and read no pin: however they and
   all others go on, the coordinate keeps one signer if and only if all of its
   installs that would be accepted as the first show the same signer.
   */
  lemma OneSignerIff(env: Env, s: State, c: string)
    requires Untouched(s, c) && DistinctVersions(s, c)
    ensures AlwaysOneSigner(env, s, c) <==> FirstsAgree(env, s, c)
  {
    if FirstsAgree(env, s, c) {
      AgreementKeepsOneSigner(env, s, c);
    } else {
      var i: nat, j: nat, v: VerifiedPlugin, w: VerifiedPlugin :|
        FirstOf(env, s, c, i, v) && FirstOf(env, s, c, j, w) && v.signerIdentity != w.signerIdentity;
      DisagreementRecordsTwo(env, s, c, i, v, j, w);
    }
  }

  // ---------------------------------------------------------------------
  // From the start

  /** What a hub and a registry can answer an install with, and what it is then accepted as when nothing is pinned. */
  ghost predicate Offered(env: Env, arg: string, c: string, detail: PluginDetail, registry: Registry, v: VerifiedPlugin)
  {
    && ParseCoordinate(arg).Ok? && detail.Coordinate() == c
    && ResolveRelease(detail, ParseCoordinate(arg).value.version).Ok?
    && var release := ResolveRelease(detail, ParseCoordinate(arg).value.version).value;
    && PullIndex(env.w, registry, c, release.version).Ok?
    && var f := PullIndex(env.w, registry, c, release.version).value;
    && (release.indexDigest == "" || f.indexDescriptor.digest == release.indexDigest)
    && FirstOk(env, Fetched(detail, release, f, registry.source), v)
  }

  lemma OfferedBy(
      env: Env, arg: string, c: string, detail: PluginDetail, registry: Registry, v: VerifiedPlugin,
      p: Parsed, release: Release, f: FetchedIndex)
    requires ParseCoordinate(arg) == Ok(p) && detail.Coordinate() == c
    requires ResolveRelease(detail, p.version) == Ok(release)
    requires PullIndex(env.w, registry, c, release.version) == Ok(f)
    requires release.indexDigest == "" || f.indexDescriptor.digest == release.indexDigest
    requires Verified(env.w, env.sig, env.host, registry.source, f, detail.signerIdentity) == Ok(v)
    requires ValidSegment(v.entrypoint) && ValidVersionDir(v.version)
    ensures Offered(env, arg, c, detail, registry, v)
  {
  }

  function StartedBy(env: Env, s: State, j: nat, detail: PluginDetail, release: Release): State
    requires j < |s.jobs|
  {
    Moved(s, j, Resolved(detail, release))
  }

  function FetchedBy(s: State, j: nat, detail: PluginDetail, release: Release, f: FetchedIndex, src: Source): State
    requires j < |s.jobs|
  {
    Moved(s, j, Fetched(detail, release, f, src))
  }

  lemma {:induction false} RunningAtMost(jobs: seq<Job>)
    ensures RunningCount(jobs) <= |jobs|
  {
    if jobs != [] {
      RunningAtMost(jobs[..|jobs| - 1]);
    }
  }

  /** The release that an install of the argument goes for. */
  function ReleaseFor(arg: string, detail: PluginDetail): Release
    requires ParseCoordinate(arg).Ok? && ResolveRelease(detail, ParseCoordinate(arg).value.version).Ok?
  {
    ResolveRelease(detail, ParseCoordinate(arg).value.version).value
  }

  predicate Carries(job: Job, detail: PluginDetail, release: Release)
  {
    Running(job) ==> job.detail == detail && job.release == release
  }

  /** Two steps take an idle install to its fetched index. */
  lemma StartAndFetch(
      env: Env, s: State, j: nat, c: string, detail: PluginDetail, registry: Registry, v: VerifiedPlugin)
      returns (resolved: State, fetched: State)
    requires WellFormed(s) && j < |s.jobs| < MAX_CONCURRENT_INSTALLS && s.jobs[j].Idle?
    requires Offered(env, s.args[j], c, detail, registry, v)
    ensures Step(env, s, resolved) && Step(env, resolved, fetched)
    ensures |fetched.jobs| == |s.jobs| && FirstOf(env, fetched, c, j, v)
    ensures resolved == StartedBy(env, s, j, detail, ReleaseFor(s.args[j], detail))
    ensures Carries(fetched.jobs[j], detail, ReleaseFor(s.args[j], detail))
    ensures fetched == Moved(s, j, fetched.jobs[j])
  {
    var p := ParseCoordinate(s.args[j]).value;
    var release := ReleaseFor(s.args[j], detail);
    var f := PullIndex(env.w, registry, c, release.version).value;
    resolved := StartedBy(env, s, j, detail, release);
    fetched := FetchedBy(resolved, j, detail, release, f, registry.source);
    Starts(env, s, j, p, detail, release);
    Fetches(env, resolved, j, registry, f);
    FetchedFacts(s, j, detail, release, f, registry.source);
  }

  lemma FetchedFacts(s: State, j: nat, detail: PluginDetail, release: Release, f: FetchedIndex, src: Source)
    requires j < |s.jobs|
    ensures FetchedBy(Moved(s, j, Resolved(detail, release)), j, detail, release, f, src) ==
      Moved(s, j, Fetched(detail, release, f, src))
    ensures Carries(Fetched(detail, release, f, src), detail, release)
  {
    assert s.jobs[j := Resolved(detail, release)][j := Fetched(detail, release, f, src)] ==
      s.jobs[j := Fetched(detail, release, f, src)];
  }

  lemma Starts(env: Env, s: State, j: nat, p: Parsed, detail: PluginDetail, release: Release)
    requires WellFormed(s) && j < |s.jobs| < MAX_CONCURRENT_INSTALLS && s.jobs[j].Idle?
    requires ParseCoordinate(s.args[j]) == Ok(p) && ResolveRelease(detail, p.version) == Ok(release)
    ensures Step(env, s, StartedBy(env, s, j, detail, release))
  {
    RunningAtMost(s.jobs);
    assert HubAnswered(s, StartedBy(env, s, j, detail, release), j, p, detail);
    assert StepOf(env, s, StartedBy(env, s, j, detail, release), j);
  }

  lemma Fetches(env: Env, s: State, j: nat, registry: Registry, f: FetchedIndex)
    requires WellFormed(s) && j < |s.jobs| && s.jobs[j].Resolved?
    requires PullIndex(env.w, registry, s.jobs[j].detail.Coordinate(), s.jobs[j].release.version) == Ok(f)
    requires s.jobs[j].release.indexDigest == "" || f.indexDescriptor.digest == s.jobs[j].release.indexDigest
    ensures Step(env, s, FetchedBy(s, j, s.jobs[j].detail, s.jobs[j].release, f, registry.source))
  {
    var fetched := FetchedBy(s, j, s.jobs[j].detail, s.jobs[j].release, f, registry.source);
    assert RegistryAnswered(env, s, fetched, j, registry);
    assert StepOf(env, s, fetched, j);
  }

  /**
   Two idle installs of a coordinate that is not installed, of which hub and
   registries can offer two versions under two signers: a complete run that
   leaves entries of both.
   */
  lemma OverlappingFirstInstallsRecordTwoSigners(
      env: Env, m: Plugins, c: string, arg0: string, arg1: string,
      detail0: PluginDetail, registry0: Registry, v: VerifiedPlugin,
      detail1: PluginDetail, registry1: Registry, w: VerifiedPlugin) returns (states: seq<State>)
    requires !HasName(m, c) && v.version != w.version && v.signerIdentity != w.signerIdentity
    requires Offered(env, arg0, c, detail0, registry0, v) && Offered(env, arg1, c, detail1, registry1, w)
    ensures Run(env, states) && states[0] == State(m, [arg0, arg1], [Idle, Idle])
    ensures var last := states[|states| - 1];
      last.jobs == [Finished(true), Finished(true)] && RecordsBoth(last.plugins, c, v, w) && !OneSigner(last.plugins, c)
  {
    var s0 := State(m, [arg0, arg1], [Idle, Idle]);
    var prefix := FetchBoth(env, s0, c, detail0, registry0, v, detail1, registry1, w);
    states := OverlapFromIdle(env, prefix, c, v, w);
  }

  lemma OverlapFromIdle(
      env: Env, prefix: seq<State>, c: string, v: VerifiedPlugin, w: VerifiedPlugin) returns (states: seq<State>)
    requires prefix != [] && Follows(env, prefix) && |prefix[|prefix| - 1].jobs| == 2
    requires prefix[0].jobs == [Idle, Idle] && WellFormed(prefix[0])
    requires TwoFirsts(env, prefix[|prefix| - 1], c, 0, v, 1, w) && v.version != w.version
    requires v.signerIdentity != w.signerIdentity
    ensures Run(env, states) && states[0] == prefix[0]
    ensures var last := states[|states| - 1];
      last.jobs == [Finished(true), Finished(true)] && RecordsBoth(last.plugins, c, v, w) && !OneSigner(last.plugins, c)
  {
    states := OverlapOn(env, prefix, c, v, w);
    FollowsFromIdle(env, states);
  }

  lemma OverlapOn(
      env: Env, prefix: seq<State>, c: string, v: VerifiedPlugin, w: VerifiedPlugin) returns (states: seq<State>)
    requires prefix != [] && Follows(env, prefix) && |prefix[|prefix| - 1].jobs| == 2
    requires TwoFirsts(env, prefix[|prefix| - 1], c, 0, v, 1, w) && v.version != w.version
    requires v.signerIdentity != w.signerIdentity
    ensures states != [] && states[0] == prefix[0] && Follows(env, states)
    ensures var last := states[|states| - 1];
      last.jobs == [Finished(true), Finished(true)] && RecordsBoth(last.plugins, c, v, w) && !OneSigner(last.plugins, c)
  {
    var s := prefix[|prefix| - 1];
    OverlapFollows(env, s, c, 0, v, 1, w);
    OverlapLeavesTwo(env, s, c, 0, v, 1, w);
    var rest := OverlapStates(s, 0, v, 1, w);
    LinkOn(Steps(env), prefix, rest);
    states := prefix + rest[1..];
    assert states[|states| - 1] == rest[6];
  }

  lemma FollowsFromIdle(env: Env, states: seq<State>)
    requires states != [] && Follows(env, states) && WellFormed(states[0])
    requires forall j :: 0 <= j < |states[0].jobs| ==> states[0].jobs[j].Idle?
    ensures Run(env, states)
  {
    forall i | 0 <= i < |states| - 1 ensures Stepped(env, states, i) {
      assert Joined(Steps(env), states, i);
    }
  }

  lemma FetchBoth(
      env: Env, s0: State, c: string, detail0: PluginDetail, registry0: Registry, v: VerifiedPlugin,
      detail1: PluginDetail, registry1: Registry, w: VerifiedPlugin) returns (states: seq<State>)
    requires |s0.args| == 2 && s0.jobs == [Idle, Idle] && !HasName(s0.plugins, c)
    requires Offered(env, s0.args[0], c, detail0, registry0, v) && Offered(env, s0.args[1], c, detail1, registry1, w)
    ensures |states| == 5 && states[0] == s0 && Follows(env, states)
    ensures |states[4].jobs| == 2 && TwoFirsts(env, states[4], c, 0, v, 1, w)
  {
    var s1, s2 := StartAndFetch(env, s0, 0, c, detail0, registry0, v);
    var s3, s4 := StartAndFetch(env, s2, 1, c, detail1, registry1, w);
    LinkFive(Steps(env), s0, s1, s2, s3, s4);
    states := [s0, s1, s2, s3, s4];
    assert s4.jobs[0] == s2.jobs[0];
  }

  // ---------------------------------------------------------------------
  // An install alone

  /** The states of an install that goes from idle over a fetched index to its entry. */
  function AloneStates(s0: State, s1: State, job: Job, v: VerifiedPlugin): seq<State>
    requires |s0.jobs| == 1 && job.Fetched?
  {
    var s2 := Moved(s0, 0, job);
    var s3 := ReadBy(s2, 0);
    var s4 := CheckedBy(s3, 0, v);
    [s0, s1, s2, s3, s4, CommittedBy(s4, 0)]
  }

  ghost predicate Finishes(
    m: Plugins, arg: string, detail: PluginDetail, release: Release, v: VerifiedPlugin, states: seq<State>)
  {
    && |states| == 6 && states[0] == State(m, [arg], [Idle])
    && states[5] == State(Added(m, EntryOf(detail, v)), [arg], [Finished(true)])
    && forall k :: 0 <= k < 6 ==>
      |states[k].jobs| == 1 && states[k].args == [arg] && Carries(states[k].jobs[0], detail, release)
  }

  lemma AloneFinishes(
      m: Plugins, arg: string, detail: PluginDetail, release: Release, s1: State, job: Job, v: VerifiedPlugin)
    requires job.Fetched? && job.detail == detail && job.release == release
    requires s1 == State(m, [arg], [Resolved(detail, release)])
    ensures Finishes(m, arg, detail, release, v, AloneStates(State(m, [arg], [Idle]), s1, job, v))
  {
  }

  lemma AloneWorks(env: Env, s: State, c: string, v: VerifiedPlugin)
    requires WellFormed(s) && FirstOf(env, s, c, 0, v) && !HasName(s.plugins, c)
    ensures Step(env, s, ReadBy(s, 0)) && Step(env, ReadBy(s, 0), CheckedBy(ReadBy(s, 0), 0, v))
    ensures Step(env, CheckedBy(ReadBy(s, 0), 0, v), CommittedBy(CheckedBy(ReadBy(s, 0), 0, v), 0))
  {
    Reads(env, s, 0, c);
    Checks(env, ReadBy(s, 0), 0, v);
    Commits(env, CheckedBy(ReadBy(s, 0), 0, v), 0);
  }

  lemma AloneSteps(env: Env, s0: State, s1: State, job: Job, c: string, v: VerifiedPlugin)
    requires s0.jobs == [Idle] && |s0.args| == 1 && job.Fetched? && !HasName(s0.plugins, c)
    requires Step(env, s0, s1) && Step(env, s1, Moved(s0, 0, job)) && FirstOf(env, Moved(s0, 0, job), c, 0, v)
    ensures Run(env, AloneStates(s0, s1, job, v))
  {
    var s2 := Moved(s0, 0, job);
    AloneWorks(env, s2, c, v);
    LinkSix(Steps(env), s0, s1, s2, ReadBy(s2, 0), CheckedBy(ReadBy(s2, 0), 0, v),
      CommittedBy(CheckedBy(ReadBy(s2, 0), 0, v), 0));
    FollowsFromIdle(env, AloneStates(s0, s1, job, v));
  }

  /** One step after the other, an install that is offered a version comes to its entry. */
  lemma InstallAlone(
      env: Env, m: Plugins, c: string, arg: string, detail: PluginDetail, registry: Registry, v: VerifiedPlugin)
      returns (states: seq<State>)
    requires !HasName(m, c) && Offered(env, arg, c, detail, registry, v)
    ensures Run(env, states) && Finishes(m, arg, detail, ReleaseFor(arg, detail), v, states)
  {
    var s0 := State(m, [arg], [Idle]);
    var s1, s2 := StartAndFetch(env, s0, 0, c, detail, registry, v);
    states := AloneStates(s0, s1, s2.jobs[0], v);
    AloneSteps(env, s0, s1, s2.jobs[0], c, v);
    AloneFinishes(m, arg, detail, ReleaseFor(arg, detail), s1, s2.jobs[0], v);
  }
}
