/**
 Installs from the store as a transition system: any number of installs
 interleave, an adversary answers for the hub and the registries, and each
 install reads its signer pin outside the manifest lock and commits later
 (internal/install/grcstore.go:19-215, internal/install/fromconfig.go:14-66).
 A commit is one atomic step, as `UpdateProtocol.StepsAreAtomicCommits` shows it to be on disk.
 */
module Install {
  import opened Wrappers
  import opened Codec
  import opened Coordinate
  import opened Manifest
  import opened Pull
  import opened Verify

  const MAX_CONCURRENT_INSTALLS: nat := 4

  /** What every install of a process shares. */
  datatype Env = Env(w: Wire, sig: Sigstore, host: HostPlatform)

  /** The local pin wins; else the hub's declared identity; else none. The flag is the warning about a difference. */
  function PinnedIdentityFor(existing: Option<Plugin>, hubIdentity: string): (string, bool)
  {
    if existing.Some? && existing.value.signerIdentity != "" then
      (existing.value.signerIdentity, hubIdentity != "" && hubIdentity != existing.value.signerIdentity)
    else (hubIdentity, false)
  }

  /** The version becomes a directory name. */
  predicate ValidVersionDir(v: string)
  {
    v != "" && v != "." && v != ".." && '/' !in v && '\\' !in v
  }

  datatype Job =
    | Idle
    | Resolved(detail: PluginDetail, release: Release)
    | Fetched(detail: PluginDetail, release: Release, index: FetchedIndex, source: Source)
    | Pinned(detail: PluginDetail, release: Release, index: FetchedIndex, source: Source, pin: string)
    | Checked(detail: PluginDetail, release: Release, pin: string, plugin: VerifiedPlugin)
    | Finished(ok: bool)

  /** The manifest on disk, and the installs with their arguments. */
  datatype State = State(plugins: Plugins, args: seq<string>, jobs: seq<Job>)

  predicate WellFormed(s: State)
  {
    |s.jobs| == |s.args|
  }

  function Moved(s: State, j: nat, job: Job): State
    requires j < |s.jobs|
  {
    s.(jobs := s.jobs[j := job])
  }

  predicate Running(job: Job)
  {
    !job.Idle? && !job.Finished?
  }

  function RunningCount(jobs: seq<Job>): nat
  {
    if jobs == [] then 0 else RunningCount(jobs[..|jobs| - 1]) + if Running(jobs[|jobs| - 1]) then 1 else 0
  }

  /** The entry an install writes. */
  function EntryOf(detail: PluginDetail, v: VerifiedPlugin): Plugin
  {
    Plugin(detail.Coordinate(), v.version, detail.Coordinate() + "/" + v.version + "/" + v.entrypoint,
           detail.Coordinate(), v.indexDigest, v.signerIdentity)
  }

  // ---------------------------------------------------------------------
  // The steps of one install. Every step may also fail for reasons outside the model.

  ghost predicate Start(env: Env, s: State, s': State, j: nat)
    requires j < |s.jobs| && WellFormed(s)
  {
    && s.jobs[j].Idle? && RunningCount(s.jobs) < MAX_CONCURRENT_INSTALLS
    && match ParseCoordinate(s.args[j])
       case Err(_) => s' == Moved(s, j, Finished(false))
       case Ok(p) =>
         || s' == Moved(s, j, Finished(false))
         || exists detail :: HubAnswered(s, s', j, p, detail)
  }

  /** The hub answers with any record at all. */
  ghost predicate HubAnswered(s: State, s': State, j: nat, p: Parsed, detail: PluginDetail)
    requires j < |s.jobs|
  {
    ResolveRelease(detail, p.version).Ok? &&
      s' == Moved(s, j, Resolved(detail, ResolveRelease(detail, p.version).value))
  }

  ghost predicate Fetch(env: Env, s: State, s': State, j: nat)
    requires j < |s.jobs|
  {
    s.jobs[j].Resolved? && exists registry :: RegistryAnswered(env, s, s', j, registry)
  }

  /** Any registry may answer; its index must be the one the hub recorded, when it recorded one. */
  ghost predicate RegistryAnswered(env: Env, s: State, s': State, j: nat, registry: Registry)
    requires j < |s.jobs| && s.jobs[j].Resolved?
  {
    var detail, release := s.jobs[j].detail, s.jobs[j].release;
    match PullIndex(env.w, registry, detail.Coordinate(), release.version)
    case Err(_) => false
    case Ok(f) =>
      && (release.indexDigest == "" || f.indexDescriptor.digest == release.indexDigest)
      && s' == Moved(s, j, Fetched(detail, release, f, registry.source))
  }

  ghost predicate ReadPin(s: State, s': State, j: nat)
    requires j < |s.jobs|
  {
    s.jobs[j].Fetched? && exists order :: PinReadIn(s, s', j, order)
  }

  /** The pin comes from whichever entry `Latest` picks in this iteration of the map. */
  ghost predicate PinReadIn(s: State, s': State, j: nat, order: seq<string>)
    requires j < |s.jobs| && s.jobs[j].Fetched?
  {
    var detail := s.jobs[j].detail;
    && Iteration(s.plugins, order)
    && s' == Moved(s, j, Pinned(detail, s.jobs[j].release, s.jobs[j].index, s.jobs[j].source,
               PinnedIdentityFor(LatestIn(s.plugins, detail.Coordinate(), order), detail.signerIdentity).0))
  }

  ghost predicate Check(env: Env, s: State, s': State, j: nat)
    requires j < |s.jobs|
  {
    s.jobs[j].Pinned? &&
    match Verified(env.w, env.sig, env.host, s.jobs[j].source, s.jobs[j].index, s.jobs[j].pin)
    case Err(_) => false
    case Ok(v) =>
      && ValidSegment(v.entrypoint) && ValidVersionDir(v.version)
      && s' == Moved(s, j, Checked(s.jobs[j].detail, s.jobs[j].release, s.jobs[j].pin, v))
  }

  ghost predicate Commit(s: State, s': State, j: nat)
    requires j < |s.jobs|
  {
    s.jobs[j].Checked? &&
    s' == Moved(s, j, Finished(true)).(plugins := Added(s.plugins, EntryOf(s.jobs[j].detail, s.jobs[j].plugin)))
  }

  ghost predicate Fail(s: State, s': State, j: nat)
    requires j < |s.jobs|
  {
    Running(s.jobs[j]) && s' == Moved(s, j, Finished(false))
  }

  ghost predicate StepOf(env: Env, s: State, s': State, j: nat)
  {
    WellFormed(s) && j < |s.jobs| &&
    (Start(env, s, s', j) || Fetch(env, s, s', j) || ReadPin(s, s', j) || Check(env, s, s', j) || Commit(s, s', j) ||
      Fail(s, s', j))
  }

  ghost predicate Step(env: Env, s: State, s': State)
  {
    exists j :: StepOf(env, s, s', j)
  }

  ghost predicate Run(env: Env, states: seq<State>)
  {
    && states != [] && WellFormed(states[0])
    && (forall j :: 0 <= j < |states[0].jobs| ==> states[0].jobs[j].Idle?)
    && forall i :: 0 <= i < |states| - 1 ==> Stepped(env, states, i)
  }

  ghost predicate Stepped(env: Env, states: seq<State>, i: int)
    requires 0 <= i < |states| - 1
  {
    Step(env, states[i], states[i + 1])
  }

  // ---------------------------------------------------------------------
  // What an accepted install has been checked against

  lemma VerifiedMeetsPolicy(w: Wire, sig: Sigstore, host: HostPlatform, src: Source, f: FetchedIndex, pin: string)
    requires Verified(w, sig, host, src, f, pin).Ok?
    ensures var v := Verified(w, sig, host, src, f, pin).value;
      && PolicyAccepts(pin, v.signerIdentity)
      && v.coordinate == f.coordinate && v.version == f.version && v.indexDigest == f.indexDescriptor.digest
  {
    var _ := FirstOfSelected(sig, pin, f.indexDescriptor.digest, f.bundles);
  }

  /** What each install in flight carries, over all runs. */
  ghost predicate JobFacts(job: Job)
  {
    match job
    case Fetched(d, r, f, _) => IndexFacts(d, r, f)
    case Pinned(d, r, f, _, _) => IndexFacts(d, r, f)
    case Checked(d, r, pin, v) =>
      && v.coordinate == d.Coordinate() && v.version == r.version && PolicyAccepts(pin, v.signerIdentity)
      && ValidSegment(v.entrypoint) && ValidVersionDir(v.version)
      && (r.indexDigest != "" ==> v.indexDigest == r.indexDigest)
    case _ => true
  }

  predicate IndexFacts(d: PluginDetail, r: Release, f: FetchedIndex)
  {
    f.coordinate == d.Coordinate() && f.version == r.version &&
    (r.indexDigest != "" ==> f.indexDescriptor.digest == r.indexDigest)
  }

  ghost predicate AllJobFacts(s: State)
  {
    WellFormed(s) && forall j :: 0 <= j < |s.jobs| ==> JobFacts(s.jobs[j])
  }

  /** The job that moves in a step, and how. */
  lemma StepMovesOne(env: Env, s: State, s': State, j: nat)
    requires StepOf(env, s, s', j)
    ensures j < |s.jobs| && |s'.jobs| == |s.jobs| && s'.args == s.args && WellFormed(s')
    ensures forall i :: 0 <= i < |s.jobs| && i != j ==> s'.jobs[i] == s.jobs[i]
    ensures !Commit(s, s', j) ==> s'.plugins == s.plugins
  {
  }

  /** How one install can change in a step of the system. */
  ghost predicate Advances(job: Job, job': Job)
  {
    || job' == job
    || match job
       case Idle => job'.Resolved? || job' == Finished(false)
       case Resolved(d, r) => (job'.Fetched? && job'.detail == d && job'.release == r) || job' == Finished(false)
       case Fetched(d, r, _, _) => (job'.Pinned? && job'.detail == d && job'.release == r) || job' == Finished(false)
       case Pinned(d, r, _, _, pin) => (job'.Checked? && job'.detail == d && job'.release == r && job'.pin == pin) ||
         job' == Finished(false)
       case Checked(_, _, _, _) => job'.Finished?
       case Finished(_) => false
  }

  lemma MovedAdvances(env: Env, s: State, s': State, j: nat)
    requires StepOf(env, s, s', j)
    ensures Advances(s.jobs[j], s'.jobs[j])
  {
  }

  lemma StepAdvances(env: Env, s: State, s': State, j: nat)
    requires Step(env, s, s') && j < |s.jobs|
    ensures |s'.jobs| == |s.jobs| && Advances(s.jobs[j], s'.jobs[j])
  {
    var i: nat :| StepOf(env, s, s', i);
    StepMovesOne(env, s, s', i);
    if i == j {
      MovedAdvances(env, s, s', j);
    }
  }

  lemma StepKeepsJobFacts(env: Env, s: State, s': State, j: nat)
    requires StepOf(env, s, s', j) && AllJobFacts(s)
    ensures AllJobFacts(s')
  {
    StepMovesOne(env, s, s', j);
    assert JobFacts(s.jobs[j]);
    if Check(env, s, s', j) {
      VerifiedMeetsPolicy(env.w, env.sig, env.host, s.jobs[j].source, s.jobs[j].index, s.jobs[j].pin);
    }
    assert JobFacts(s'.jobs[j]);
  }

  // ---------------------------------------------------------------------
  // The signer pin

  /** All entries of the coordinate carry this signer. */
  predicate Uniform(m: Plugins, c: string, signer: string)
  {
    forall k :: k in m && m[k].name == c ==> m[k].signerIdentity == signer
  }

  /** An install of `c` that has read its pin and not finished. */
  predicate HoldsPin(job: Job, c: string)
  {
    (job.Pinned? || job.Checked?) && job.detail.Coordinate() == c
  }

  /** The entries of `c`, and every install of `c` that has read its pin, are bound to one signer. */
  ghost predicate PinHeld(s: State, c: string, signer: string)
  {
    && Uniform(s.plugins, c, signer)
    && forall j :: 0 <= j < |s.jobs| && HoldsPin(s.jobs[j], c) ==> s.jobs[j].pin == signer
  }

  /** A pin read from a manifest whose entries of `c` agree is their signer; with no entries it is the hub's. */
  lemma PinReadFromUniform(m: Plugins, c: string, signer: string, order: seq<string>, hub: string)
    requires Iteration(m, order) && Uniform(m, c, signer) && signer != ""
    ensures PinnedIdentityFor(LatestIn(m, c, order), hub).0 == if HasName(m, c) then signer else hub
  {
    LatestFoundIff(m, c, order);
  }

  /** When a step keeps the pin: a first install that reads no entry must be given the same signer by the hub. */
  ghost predicate FirstReadAgrees(s: State, s': State, j: nat, c: string, signer: string)
    requires j < |s.jobs|
  {
    ReadPin(s, s', j) && s.jobs[j].detail.Coordinate() == c && !HasName(s.plugins, c) ==>
      s.jobs[j].detail.signerIdentity == signer
  }

  /** Whenever the hub answered for `c` it declared this signer. */
  predicate HubDeclares(s: State, c: string, signer: string)
  {
    forall j :: 0 <= j < |s.jobs| && Running(s.jobs[j]) && s.jobs[j].detail.Coordinate() == c ==>
      s.jobs[j].detail.signerIdentity == signer
  }

  lemma StepKeepsPin(env: Env, s: State, s': State, j: nat, c: string, signer: string)
    requires StepOf(env, s, s', j) && AllJobFacts(s) && PinHeld(s, c, signer) && signer != ""
    requires FirstReadAgrees(s, s', j, c, signer)
    ensures PinHeld(s', c, signer)
  {
    StepMovesOne(env, s, s', j);
    if Commit(s, s', j) {
      CommitKeepsPin(s, s', j, c, signer);
    } else if ReadPin(s, s', j) {
      var order :| PinReadIn(s, s', j, order);
      if s.jobs[j].detail.Coordinate() == c {
        PinReadFromUniform(s.plugins, c, signer, order, s.jobs[j].detail.signerIdentity);
      }
    }
  }

  lemma SomeStepKeepsPin(env: Env, s: State, s': State, c: string, signer: string)
    requires Step(env, s, s') && AllJobFacts(s) && PinHeld(s, c, signer) && signer != ""
    requires HasName(s.plugins, c) || HubDeclares(s, c, signer)
    ensures PinHeld(s', c, signer)
  {
    var j :| StepOf(env, s, s', j);
    StepKeepsPin(env, s, s', j, c, signer);
  }

  lemma CommitKeepsPin(s: State, s': State, j: nat, c: string, signer: string)
    requires j < |s.jobs| && Commit(s, s', j) && AllJobFacts(s) && PinHeld(s, c, signer) && signer != ""
    ensures PinHeld(s', c, signer)
  {
    var p := EntryOf(s.jobs[j].detail, s.jobs[j].plugin);
    assert JobFacts(s.jobs[j]) && Running(s.jobs[j]);
    assert p.name == c ==> p.signerIdentity == signer;
  }

  lemma NextFacts(env: Env, states: seq<State>, i: nat)
    requires Run(env, states) && i + 1 < |states| && AllJobFacts(states[i])
    ensures AllJobFacts(states[i + 1]) && states[i + 1].args == states[i].args
  {
    assert Stepped(env, states, i);
    var j :| StepOf(env, states[i], states[i + 1], j);
    StepKeepsJobFacts(env, states[i], states[i + 1], j);
    StepMovesOne(env, states[i], states[i + 1], j);
  }

  lemma {:induction false} RunFacts(env: Env, states: seq<State>, i: nat)
    requires Run(env, states) && i < |states|
    ensures AllJobFacts(states[i]) && states[i].args == states[0].args
  {
    if i > 0 {
      RunFacts(env, states, i - 1);
      NextFacts(env, states, i - 1);
    }
  }

  /** Some entry of the coordinate is under a key of its own. */
  ghost predicate Installed(m: Plugins, c: string)
  {
    exists v :: Key(c, v) in m && m[Key(c, v)].name == c
  }

  /**
   No other coordinate that an install is running for can have a key of this one
   (`Manifest.KeyClash` says which can).
   */
  ghost predicate OthersApart(s: State, c: string)
  {
    forall j :: 0 <= j < |s.jobs| && Running(s.jobs[j]) ==>
      s.jobs[j].detail.Coordinate() == c || Apart(s.jobs[j].detail.Coordinate(), c)
  }

  lemma StepKeepsInstalled(env: Env, s: State, s': State, c: string)
    requires Step(env, s, s') && Installed(s.plugins, c) && OthersApart(s, c)
    ensures Installed(s'.plugins, c)
  {
    var j: nat :| StepOf(env, s, s', j);
    StepMovesOne(env, s, s', j);
    var v :| Key(c, v) in s.plugins && s.plugins[Key(c, v)].name == c;
    if Commit(s, s', j) {
      var p := EntryOf(s.jobs[j].detail, s.jobs[j].plugin);
      assert Running(s.jobs[j]);
      assert p.name == c || Key(p.name, p.version) != Key(c, v);
      assert Key(c, v) in s'.plugins && s'.plugins[Key(c, v)].name == c;
    }
  }

  lemma NextStaysPinned(env: Env, states: seq<State>, k: nat, c: string, signer: string)
    requires Run(env, states) && k + 1 < |states| && signer != "" && OthersApart(states[k], c)
    requires PinHeld(states[k], c, signer) && Installed(states[k].plugins, c)
    ensures PinHeld(states[k + 1], c, signer) && Installed(states[k + 1].plugins, c)
  {
    RunFacts(env, states, k);
    assert Stepped(env, states, k);
    StepKeepsInstalled(env, states[k], states[k + 1], c);
    SomeStepKeepsPin(env, states[k], states[k + 1], c, signer);
  }

  /**
   Once a coordinate is installed and bound to one signer it stays bound to
   that signer, whatever the hub and the registries answer and however any
   number of installs, of this coordinate or others, overlap from then on. The
   one thing the hub must not do is answer with a coordinate that continues
   this one after an '@', for its entries can take the place of this one's.
   */
  lemma {:induction false} PinnedStaysPinned(env: Env, states: seq<State>, i: nat, k: nat, c: string, signer: string)
    requires Run(env, states) && i <= k < |states| && signer != ""
    requires forall x :: i <= x < k ==> OthersApart(states[x], c)
    requires PinHeld(states[i], c, signer) && Installed(states[i].plugins, c)
    ensures PinHeld(states[k], c, signer) && Installed(states[k].plugins, c)
  {
    if i < k {
      PinnedStaysPinned(env, states, i, k - 1, c, signer);
      NextStaysPinned(env, states, k - 1, c, signer);
    }
  }

  lemma NextDeclared(env: Env, states: seq<State>, k: nat, c: string, signer: string)
    requires Run(env, states) && k + 1 < |states| && signer != ""
    requires PinHeld(states[k], c, signer) && HubDeclares(states[k], c, signer)
    ensures PinHeld(states[k + 1], c, signer)
  {
    RunFacts(env, states, k);
    assert Stepped(env, states, k);
    SomeStepKeepsPin(env, states[k], states[k + 1], c, signer);
  }

  /**
   When the hub always declares the same signer for a coordinate, only that
   signer is ever recorded, even by first installs that overlap.
   */
  lemma {:induction false} DeclaredSignerIsRecorded(env: Env, states: seq<State>, k: nat, c: string, signer: string)
    requires Run(env, states) && k < |states| && signer != ""
    requires Uniform(states[0].plugins, c, signer)
    requires forall i :: 0 <= i < |states| ==> HubDeclares(states[i], c, signer)
    ensures PinHeld(states[k], c, signer)
  {
    if k > 0 {
      DeclaredSignerIsRecorded(env, states, k - 1, c, signer);
      NextDeclared(env, states, k - 1, c, signer);
    }
  }

  /** Which identity is enforced: what is recorded, then what the hub declares; and when the two differ. */
  lemma PinPrecedence(existing: Option<Plugin>, hub: string)
    ensures var (pin, warned) := PinnedIdentityFor(existing, hub);
      if existing.Some? && existing.value.signerIdentity != ""
      then pin == existing.value.signerIdentity && (warned <==> hub != "" && hub != pin)
      else pin == hub && !warned
  {
  }

  // ---------------------------------------------------------------------
  // How many run at once

  lemma {:induction false} RunningCountMoved(jobs: seq<Job>, j: nat, job: Job)
    requires j < |jobs|
    ensures RunningCount(jobs[j := job]) + (if Running(jobs[j]) then 1 else 0) ==
      RunningCount(jobs) + if Running(job) then 1 else 0
  {
    var n := |jobs| - 1;
    if j < n {
      RunningCountMoved(jobs[..n], j, job);
      assert jobs[j := job][..n] == jobs[..n][j := job];
    } else {
      assert jobs[j := job][..n] == jobs[..n];
    }
  }

  lemma {:induction false} NoneRunning(jobs: seq<Job>)
    requires forall j :: 0 <= j < |jobs| ==> jobs[j].Idle?
    ensures RunningCount(jobs) == 0
  {
    if jobs != [] {
      NoneRunning(jobs[..|jobs| - 1]);
    }
  }

  lemma StepKeepsBound(env: Env, s: State, s': State, j: nat)
    requires StepOf(env, s, s', j) && RunningCount(s.jobs) <= 4
    ensures RunningCount(s'.jobs) <= 4
  {
    StepMovesOne(env, s, s', j);
    assert s'.jobs == s.jobs[j := s'.jobs[j]];
    RunningCountMoved(s.jobs, j, s'.jobs[j]);
    MovedAdvances(env, s, s', j);
  }

  /** Over every run at most four installs are on their way at once. */
  lemma {:induction false} PoolIsBounded(env: Env, states: seq<State>, k: nat)
    requires Run(env, states) && k < |states|
    ensures RunningCount(states[k].jobs) <= 4
  {
    if k == 0 {
      NoneRunning(states[0].jobs);
    } else {
      PoolIsBounded(env, states, k - 1);
      assert Stepped(env, states, k - 1);
      var j :| StepOf(env, states[k - 1], states[k - 1 + 1], j);
      StepKeepsBound(env, states[k - 1], states[k], j);
    }
  }

  // ---------------------------------------------------------------------
  // Where the binaries are

  lemma NoSlashAfter(a: string, b: string)
    requires '/' !in b
    ensures var s := a + "/" + b; s[|a|] == '/' && forall i :: |a| < i < |s| ==> s[i] != '/'
  {
    var s := a + "/" + b;
    forall i | |a| < i < |s| ensures s[i] != '/' {
      assert s[i] == b[i - |a| - 1];
    }
  }

  lemma LastSlash(a: string, b: string, c: string, d: string)
    requires '/' !in b && '/' !in d && a + "/" + b == c + "/" + d
    ensures a == c && b == d
  {
    var s := a + "/" + b;
    NoSlashAfter(a, b);
    NoSlashAfter(c, d);
    assert s[..|a|] == a && s[..|c|] == c && s[|a| + 1..] == b && s[|c| + 1..] == d;
  }

  /** Recorded paths tell coordinates, versions and entrypoints apart: no version's binary is in another's place. */
  lemma PathsTellApart(d1: PluginDetail, v1: VerifiedPlugin, d2: PluginDetail, v2: VerifiedPlugin)
    requires ValidSegment(v1.entrypoint) && ValidVersionDir(v1.version)
    requires ValidSegment(v2.entrypoint) && ValidVersionDir(v2.version)
    requires EntryOf(d1, v1).binaryPath == EntryOf(d2, v2).binaryPath
    ensures d1.Coordinate() == d2.Coordinate() && v1.version == v2.version && v1.entrypoint == v2.entrypoint
  {
    var a, b := d1.Coordinate() + "/" + v1.version, d2.Coordinate() + "/" + v2.version;
    assert a + "/" + v1.entrypoint == d1.Coordinate() + "/" + v1.version + "/" + v1.entrypoint;
    assert b + "/" + v2.entrypoint == d2.Coordinate() + "/" + v2.version + "/" + v2.entrypoint;
    LastSlash(a, v1.entrypoint, b, v2.entrypoint);
    LastSlash(d1.Coordinate(), v1.version, d2.Coordinate(), v2.version);
  }

  /** The entry's binary is in a directory of its name and version. */
  ghost predicate InOwnDirectory(p: Plugin)
  {
    '/' !in p.version && exists file :: IsFileOf(p, file)
  }

  predicate IsFileOf(p: Plugin, file: string)
  {
    '/' !in file && p.binaryPath == p.name + "/" + p.version + "/" + file
  }

  ghost predicate OwnDirectories(m: Plugins)
  {
    forall k :: k in m ==> InOwnDirectory(m[k])
  }

  lemma StepKeepsDirectories(env: Env, s: State, s': State, j: nat)
    requires StepOf(env, s, s', j) && AllJobFacts(s) && OwnDirectories(s.plugins)
    ensures OwnDirectories(s'.plugins)
  {
    StepMovesOne(env, s, s', j);
    if Commit(s, s', j) {
      var e := EntryOf(s.jobs[j].detail, s.jobs[j].plugin);
      assert JobFacts(s.jobs[j]);
      assert IsFileOf(e, s.jobs[j].plugin.entrypoint);
    }
  }

  lemma NextKeepsDirectories(env: Env, states: seq<State>, k: nat)
    requires Run(env, states) && k + 1 < |states| && OwnDirectories(states[k].plugins)
    ensures OwnDirectories(states[k + 1].plugins)
  {
    RunFacts(env, states, k);
    assert Stepped(env, states, k);
    var j :| StepOf(env, states[k], states[k + 1], j);
    StepKeepsDirectories(env, states[k], states[k + 1], j);
  }

  lemma {:induction false} RunKeepsDirectories(env: Env, states: seq<State>, k: nat)
    requires Run(env, states) && k < |states| && OwnDirectories(states[0].plugins)
    ensures OwnDirectories(states[k].plugins)
  {
    if k > 0 {
      RunKeepsDirectories(env, states, k - 1);
      NextKeepsDirectories(env, states, k - 1);
    }
  }

  /**
   Over every run, whatever hub and registries answer: two entries share a path
   only when they are of one name and version.
   */
  lemma RecordedPathsStayApart(env: Env, states: seq<State>, k: nat, a: string, b: string)
    requires Run(env, states) && k < |states| && OwnDirectories(states[0].plugins)
    requires a in states[k].plugins && b in states[k].plugins
    requires states[k].plugins[a].binaryPath == states[k].plugins[b].binaryPath
    ensures states[k].plugins[a].name == states[k].plugins[b].name
    ensures states[k].plugins[a].version == states[k].plugins[b].version
  {
    RunKeepsDirectories(env, states, k);
    var p, q := states[k].plugins[a], states[k].plugins[b];
    var f :| IsFileOf(p, f);
    var g :| IsFileOf(q, g);
    LastSlash(p.name + "/" + p.version, f, q.name + "/" + q.version, g);
    LastSlash(p.name, p.version, q.name, q.version);
  }

  /**
   What a commit records is what was verified: the name asked of the hub, the release's
   version, digest and signer.
   */
  lemma CommitRecordsVerified(env: Env, states: seq<State>, k: nat, j: nat)
    requires Run(env, states) && k + 1 < |states| && j < |states[k].jobs| && Commit(states[k], states[k + 1], j)
    ensures var job := states[k].jobs[j]; var key := job.detail.Coordinate() + "@" + job.release.version;
      && key in states[k + 1].plugins
      && var e := states[k + 1].plugins[key];
      && e.name == e.coordinate == job.plugin.coordinate == job.detail.Coordinate()
      && e.version == job.plugin.version == job.release.version
      && e.binaryPath == e.name + "/" + e.version + "/" + job.plugin.entrypoint
      && e.indexDigest == job.plugin.indexDigest && e.signerIdentity == job.plugin.signerIdentity
      && (job.release.indexDigest != "" ==> e.indexDigest == job.release.indexDigest)
      && e.version !in {"", ".", ".."} && '/' !in e.version && '\\' !in e.version
      && job.plugin.entrypoint !in {"", ".", ".."} && '/' !in job.plugin.entrypoint && '\\' !in job.plugin.entrypoint
      && (forall other :: other != key ==>
            (other in states[k + 1].plugins <==> other in states[k].plugins) &&
            (other in states[k].plugins ==> states[k + 1].plugins[other] == states[k].plugins[other]))
  {
    RunFacts(env, states, k);
    assert JobFacts(states[k].jobs[j]);
  }

  // ---------------------------------------------------------------------
  // Installs that do not overlap on a coordinate

  /** A pin of `c` is read only while no other install of `c` holds one. */
  ghost predicate NoOverlap(s: State, s': State, c: string)
  {
    forall j :: 0 <= j < |s.jobs| && ReadPin(s, s', j) && s.jobs[j].detail.Coordinate() == c ==>
      forall i :: 0 <= i < |s.jobs| ==> !HoldsPin(s.jobs[i], c)
  }

  predicate OneHolds(s: State, c: string)
  {
    forall i, j :: 0 <= i < j < |s.jobs| ==> !(HoldsPin(s.jobs[i], c) && HoldsPin(s.jobs[j], c))
  }

  /** At most one install of `c` holds a pin, and it agrees with what is recorded. */
  ghost predicate Single(s: State, c: string)
  {
    && OneHolds(s, c)
    && (HasName(s.plugins, c) ==> exists signer :: signer != "" && PinHeld(s, c, signer))
  }

  lemma StepKeepsSingle(env: Env, s: State, s': State, j: nat, c: string)
    requires StepOf(env, s, s', j) && AllJobFacts(s) && Single(s, c) && NoOverlap(s, s', c)
    ensures Single(s', c)
  {
    StepMovesOne(env, s, s', j);
    StepKeepsApart(env, s, s', j, c);
    if HasName(s.plugins, c) {
      var signer :| signer != "" && PinHeld(s, c, signer);
      StepKeepsPin(env, s, s', j, c, signer);
    } else if Commit(s, s', j) && s.jobs[j].detail.Coordinate() == c {
      FirstCommit(s, s', j, c);
    } else if Commit(s, s', j) {
      assert !HasName(s'.plugins, c);
    }
  }

  /** Still at most one install holds a pin. */
  lemma StepKeepsApart(env: Env, s: State, s': State, j: nat, c: string)
    requires StepOf(env, s, s', j) && OneHolds(s, c) && NoOverlap(s, s', c)
    ensures OneHolds(s', c)
  {
    StepMovesOne(env, s, s', j);
  }

  lemma SomeStepKeepsSingle(env: Env, s: State, s': State, c: string)
    requires Step(env, s, s') && AllJobFacts(s) && Single(s, c) && NoOverlap(s, s', c)
    ensures Single(s', c)
  {
    var j :| StepOf(env, s, s', j);
    StepKeepsSingle(env, s, s', j, c);
  }

  /** The first entry of a coordinate binds it: no other install of it holds a pin. */
  lemma FirstCommit(s: State, s': State, j: nat, c: string)
    requires j < |s.jobs| && Commit(s, s', j) && AllJobFacts(s) && Single(s, c)
    requires s.jobs[j].detail.Coordinate() == c && !HasName(s.plugins, c)
    ensures PinHeld(s', c, s.jobs[j].plugin.signerIdentity)
  {
    var signer := s.jobs[j].plugin.signerIdentity;
    assert HoldsPin(s.jobs[j], c);
    forall i | 0 <= i < |s'.jobs| ensures !HoldsPin(s'.jobs[i], c) {
      if i != j {
        assert s'.jobs[i] == s.jobs[i];
        var lo, hi := if i < j then i else j, if i < j then j else i;
        assert !(HoldsPin(s.jobs[lo], c) && HoldsPin(s.jobs[hi], c));
      }
    }
  }

  lemma NextKeepsSingle(env: Env, states: seq<State>, k: nat, c: string)
    requires Run(env, states) && k + 1 < |states| && Single(states[k], c) && NoOverlap(states[k], states[k + 1], c)
    ensures Single(states[k + 1], c)
  {
    RunFacts(env, states, k);
    assert Stepped(env, states, k);
    SomeStepKeepsSingle(env, states[k], states[k + 1], c);
  }

  lemma {:induction false} StaysSingle(env: Env, states: seq<State>, k: nat, c: string)
    requires Run(env, states) && k < |states| && Single(states[0], c)
    requires forall i :: 0 <= i < |states| - 1 ==> NoOverlap(states[i], states[i + 1], c)
    ensures Single(states[k], c)
  {
    if k > 0 {
      StaysSingle(env, states, k - 1, c);
      assert NoOverlap(states[k - 1], states[k - 1 + 1], c);
      NextKeepsSingle(env, states, k - 1, c);
    }
  }

  lemma SingleIsUniform(s: State, c: string)
    requires Single(s, c) && HasName(s.plugins, c)
    ensures exists signer :: signer != "" && Uniform(s.plugins, c, signer)
  {
    var signer :| signer != "" && PinHeld(s, c, signer);
  }

  /**
   Installs of one coordinate that do not overlap, in any number, among any
   others, and whatever hub and registries answer: the coordinate never gets
   entries of two signers, nor one without a signer.
   */
  lemma NonOverlappingInstallsKeepOneSigner(env: Env, states: seq<State>, k: nat, c: string)
    requires Run(env, states) && k < |states| && Single(states[0], c)
    requires forall i :: 0 <= i < |states| - 1 ==> NoOverlap(states[i], states[i + 1], c)
    ensures Single(states[k], c)
    ensures HasName(states[k].plugins, c) ==> exists signer :: signer != "" && Uniform(states[k].plugins, c, signer)
  {
    StaysSingle(env, states, k, c);
    if HasName(states[k].plugins, c) {
      SingleIsUniform(states[k], c);
    }
  }

  /**
   A first install records the signer the hub declared, when it declared one:
   the pin read without an entry is that signer, and what is committed under a pin carries it.
   */
  lemma FirstInstallRecordsDeclaredSigner(env: Env, states: seq<State>, i: nat, k: nat, j: nat)
    requires Run(env, states) && i < k && k + 1 < |states| && j < |states[0].jobs|
    requires |states[0].jobs| == |states[i].jobs| == |states[k].jobs|
    requires ReadPin(states[i], states[i + 1], j) && Commit(states[k], states[k + 1], j)
    requires !HasName(states[i].plugins, states[i].jobs[j].detail.Coordinate())
    requires states[i].jobs[j].detail.signerIdentity != ""
    ensures EntryOf(states[k].jobs[j].detail, states[k].jobs[j].plugin).signerIdentity ==
      states[i].jobs[j].detail.signerIdentity
  {
    var s := states[i];
    var c := s.jobs[j].detail.Coordinate();
    var order :| PinReadIn(s, states[i + 1], j, order);
    LatestFoundIff(s.plugins, c, order);
    RunAdvances(env, states);
    PinIsKept(states, i + 1, k, j, s.jobs[j].detail.signerIdentity);
    RunFacts(env, states, k);
    assert JobFacts(states[k].jobs[j]);
  }

  /** Over a run every install only ever advances. */
  ghost predicate AllAdvance(states: seq<State>)
  {
    && (forall i :: 0 <= i < |states| ==> |states[i].jobs| == |states[0].jobs|)
    && forall i, j :: 0 <= i < |states| - 1 && 0 <= j < |states[0].jobs| ==>
      Advances(states[i].jobs[j], states[i + 1].jobs[j])
  }

  lemma RunAdvances(env: Env, states: seq<State>)
    requires Run(env, states)
    ensures AllAdvance(states)
  {
    forall i | 0 <= i < |states| ensures |states[i].jobs| == |states[0].jobs| {
      SameJobs(env, states, i);
    }
    forall i, j | 0 <= i < |states| - 1 && 0 <= j < |states[0].jobs|
      ensures Advances(states[i].jobs[j], states[i + 1].jobs[j])
    {
      assert Stepped(env, states, i);
      StepAdvances(env, states[i], states[i + 1], j);
    }
  }

  lemma {:induction false} SameJobs(env: Env, states: seq<State>, i: nat)
    requires Run(env, states) && i < |states|
    ensures |states[i].jobs| == |states[0].jobs|
  {
    if i > 0 {
      SameJobs(env, states, i - 1);
      assert Stepped(env, states, i - 1);
    }
  }

  /** An install keeps the pin it read until it finishes, and a finished install stays finished. */
  lemma {:induction false} PinIsKept(states: seq<State>, i: nat, k: nat, j: nat, pin: string)
    requires AllAdvance(states) && i <= k < |states| && j < |states[0].jobs|
    requires states[i].jobs[j].Pinned? && states[i].jobs[j].pin == pin
    ensures states[k].jobs[j].Finished? ||
      ((states[k].jobs[j].Pinned? || states[k].jobs[j].Checked?) && states[k].jobs[j].pin == pin)
  {
    if i < k {
      PinIsKept(states, i, k - 1, j, pin);
      assert Advances(states[k - 1].jobs[j], states[k - 1 + 1].jobs[j]);
    }
  }
}
