/**
 From configuration to run: which services are missing, installing them, and
 the plan the runner makes of what is installed afterwards
 (internal/install/fromconfig.go:68-122, command/list.go:142-203,
 command/types.go:28-112, command/run.go:27-67, config/getters.go:28-60).
 */
module Preflight {
  import opened Wrappers
  import opened Coordinate
  import opened Manifest
  import M = Manifest
  import Install
  import Semver

  /** A configured service: its plugin field and its version field as written. */
  datatype Service = Service(plugin: string, version: string)

  type Services = map<string, Service>

  function VersionOf(svc: Service): string
  {
    NormalizeVersion(svc.version)
  }

  /** Whether the resolver finds a binary: the exact version when one is pinned, any version otherwise. */
  predicate Resolves(m: Plugins, name: string, version: string)
  {
    if version != "" then FindVersion(m, name, version).Some? else HasName(m, name)
  }

  predicate Runnable(m: Plugins, svc: Service)
  {
    Resolves(m, svc.plugin, VersionOf(svc))
  }

  predicate NeedsInstall(m: Plugins, svc: Service)
  {
    svc.plugin != "" && !Runnable(m, svc)
  }

  function ArgOf(svc: Service): string
  {
    Arg(svc.plugin, VersionOf(svc))
  }

  // ---------------------------------------------------------------------
  // missingFromConfig

  function DedupKey(svc: Service): string
  {
    svc.plugin + "@" + VersionOf(svc)
  }

  /** Ranging over the services in whatever order, the missing plugins and versions are asked for. */
  method MissingFromConfig(services: Services, file: File) returns (r: Result<seq<string>, ()>)
    ensures r.Err? <==> services != map[] && Load(file).Err?
    ensures r.Ok? && Load(file).Ok? ==> MissingList(services, Load(file).value, r.value)
    ensures services == map[] ==> r == Ok([])
  {
    if |services| == 0 {
      return Ok([]);
    }
    if Load(file).Err? {
      return Err(());
    }
    var m := Load(file).value;
    var seen: set<string> := {};
    var args: seq<string> := [];
    ghost var askers: seq<string>, first: map<string, string> := [], map[];
    var pending := services.Keys;
    while pending != {}
      invariant pending <= services.Keys && seen == first.Keys
      invariant forall k :: k in services && k !in pending && services[k].plugin != "" ==> DedupKey(services[k]) in seen
      invariant Asking(services, m, askers, args) && FirstSeen(services, m, first, askers)
      invariant KeysSeen(services, first, askers)
      decreases pending
    {
      var k :| k in pending;
      pending := pending - {k};
      var svc := services[k];
      if svc.plugin == "" {
        continue;
      }
      if DedupKey(svc) in seen {
        continue;
      }
      seen := seen + {DedupKey(svc)};
      if Resolves(m, svc.plugin, VersionOf(svc)) {
        first := first[DedupKey(svc) := k];
        continue;
      }
      AskOne(services, m, first, askers, args, k);
      args := args + [ArgOf(svc)];
      askers, first := askers + [k], first[DedupKey(svc) := k];
    }
    NothingMissed(services, m, first, askers, args);
    r := Ok(args);
  }

  predicate Asks(services: Services, m: Plugins, k: string, arg: string)
  {
    k in services && NeedsInstall(m, services[k]) && arg == ArgOf(services[k])
  }

  predicate OnePin(x: Service, y: Service)
  {
    x.plugin != "" && y.plugin != "" && DedupKey(x) == DedupKey(y) ==> (VersionOf(x) == "" <==> VersionOf(y) == "")
  }

  predicate OneKey(x: Service, y: Service)
  {
    x.plugin != "" && y.plugin != "" && ArgOf(x) == ArgOf(y) ==> DedupKey(x) == DedupKey(y)
  }

  /** Services with one key pin a version together or not at all; without '@' in the plugin fields they do. */
  predicate KeysTell(services: Services)
  {
    forall a, b :: a in services && b in services ==> OnePin(services[a], services[b])
  }

  /** Services with one argument have one key; without '@' in the plugin fields they do. */
  predicate ArgsTell(services: Services)
  {
    forall a, b :: a in services && b in services ==> OneKey(services[a], services[b])
  }

  predicate PlainServices(services: Services)
  {
    forall k :: k in services ==> '@' !in services[k].plugin
  }

  /** For each service, one with its key has been dealt with: it resolves, or its argument is in the list. */
  predicate Answered(services: Services, m: Plugins, args: seq<string>, k: string)
    requires k in services
  {
    exists j :: j in services && services[j].plugin != "" && DedupKey(services[j]) == DedupKey(services[k]) &&
      (Runnable(m, services[j]) || ArgOf(services[j]) in args)
  }

  predicate Complete(services: Services, m: Plugins, args: seq<string>)
  {
    forall k :: k in services && NeedsInstall(m, services[k]) ==> ArgOf(services[k]) in args
  }

  predicate Distinct(args: seq<string>)
  {
    forall i, j :: 0 <= i < j < |args| ==> args[i] != args[j]
  }

  /**
   What is asked for: only what is missing, for every key; all that is missing, and once,
   when keys and arguments tell.
   */
  ghost predicate MissingList(services: Services, m: Plugins, args: seq<string>)
  {
    && (forall a :: a in args ==> exists k :: Asks(services, m, k, a))
    && (forall k :: k in services && services[k].plugin != "" ==> Answered(services, m, args, k))
    && (KeysTell(services) ==> Complete(services, m, args))
    && (ArgsTell(services) ==> Distinct(args))
  }

  /** Each argument with the service that asked for it; no two were asked for under one key. */
  ghost predicate Asking(services: Services, m: Plugins, askers: seq<string>, args: seq<string>)
  {
    && |askers| == |args|
    && (forall i :: 0 <= i < |args| ==> Asks(services, m, askers[i], args[i]))
    && forall i, j :: 0 <= i < j < |args| ==> DedupKey(services[askers[i]]) != DedupKey(services[askers[j]])
  }

  predicate KeysSeen(services: Services, first: map<string, string>, askers: seq<string>)
  {
    forall k :: k in askers ==> k in services && DedupKey(services[k]) in first
  }

  /** The first service seen under each key has asked, when it needs an install. */
  ghost predicate FirstSeen(services: Services, m: Plugins, first: map<string, string>, askers: seq<string>)
  {
    forall d :: d in first ==>
      && first[d] in services && services[first[d]].plugin != "" && DedupKey(services[first[d]]) == d
      && (NeedsInstall(m, services[first[d]]) ==> first[d] in askers)
  }

  /** Asking for a service not seen before. */
  lemma AskOne(
      services: Services, m: Plugins, first: map<string, string>, askers: seq<string>, args: seq<string>, k: string)
    requires Asking(services, m, askers, args) && FirstSeen(services, m, first, askers)
    requires KeysSeen(services, first, askers)
    requires k in services && NeedsInstall(m, services[k]) && DedupKey(services[k]) !in first
    ensures Asking(services, m, askers + [k], args + [ArgOf(services[k])])
    ensures FirstSeen(services, m, first[DedupKey(services[k]) := k], askers + [k])
    ensures KeysSeen(services, first[DedupKey(services[k]) := k], askers + [k])
  {
    assert forall x :: x in askers ==> x in askers + [k];
  }

  /** When every service has been seen. */
  lemma NothingMissed(
      services: Services, m: Plugins, first: map<string, string>, askers: seq<string>, args: seq<string>)
    requires Asking(services, m, askers, args) && FirstSeen(services, m, first, askers)
    requires forall k :: k in services && services[k].plugin != "" ==> DedupKey(services[k]) in first
    ensures MissingList(services, m, args)
  {
    forall k | k in services && services[k].plugin != "" ensures Answered(services, m, args, k) {
      var j := first[DedupKey(services[k])];
      AskerIsAnswered(services, m, askers, args, j);
      assert DedupKey(services[j]) == DedupKey(services[k]);
    }
    if KeysTell(services) {
      AnsweredIsComplete(services, m, args);
    }
    if ArgsTell(services) {
      forall i, j | 0 <= i < j < |args| ensures args[i] != args[j] {
        assert Asks(services, m, askers[i], args[i]) && Asks(services, m, askers[j], args[j]);
        assert OneKey(services[askers[i]], services[askers[j]]);
      }
    }
  }

  lemma AskerIsAnswered(services: Services, m: Plugins, askers: seq<string>, args: seq<string>, j: string)
    requires Asking(services, m, askers, args) && j in services && services[j].plugin != ""
    requires NeedsInstall(m, services[j]) ==> j in askers
    ensures Runnable(m, services[j]) || ArgOf(services[j]) in args
  {
    if j in askers {
      var i :| 0 <= i < |askers| && askers[i] == j;
      assert args[i] == ArgOf(services[j]);
    }
  }

  /** Services with one key have one argument exactly when they pin together, and then they resolve together. */
  lemma OneKeyOneNeed(m: Plugins, x: Service, y: Service)
    requires x.plugin != "" && y.plugin != "" && DedupKey(x) == DedupKey(y)
    ensures ArgOf(x) == ArgOf(y) <==> OnePin(x, y)
    ensures OnePin(x, y) ==> (Runnable(m, x) <==> Runnable(m, y))
  {
    if VersionOf(x) == "" == VersionOf(y) {
      assert DedupKey(x)[..|x.plugin|] == x.plugin && DedupKey(y)[..|y.plugin|] == y.plugin;
    }
  }

  lemma AnsweredIsComplete(services: Services, m: Plugins, args: seq<string>)
    requires KeysTell(services)
    requires forall k :: k in services && services[k].plugin != "" ==> Answered(services, m, args, k)
    ensures Complete(services, m, args)
  {
    forall k | k in services && NeedsInstall(m, services[k]) ensures ArgOf(services[k]) in args {
      assert Answered(services, m, args, k);
      var j :| j in services && services[j].plugin != "" && DedupKey(services[j]) == DedupKey(services[k]) &&
        (Runnable(m, services[j]) || ArgOf(services[j]) in args);
      assert OnePin(services[j], services[k]);
      OneKeyOneNeed(m, services[j], services[k]);
    }
  }

  lemma PlainPair(x: Service, y: Service)
    requires '@' !in x.plugin && '@' !in y.plugin
    ensures OnePin(x, y) && OneKey(x, y)
  {
    if DedupKey(x) == DedupKey(y) {
      KeyInjective(x.plugin, VersionOf(x), y.plugin, VersionOf(y));
    }
    PinnedArg(x);
    PinnedArg(y);
  }

  /** Without '@' in the plugin fields, keys and arguments tell. */
  lemma PlainServicesTell(services: Services)
    requires PlainServices(services)
    ensures KeysTell(services) && ArgsTell(services)
  {
    forall a, b | a in services && b in services
      ensures OnePin(services[a], services[b]) && OneKey(services[a], services[b])
    {
      PlainPair(services[a], services[b]);
    }
  }

  lemma PinnedArg(svc: Service)
    requires '@' !in svc.plugin
    ensures '@' in ArgOf(svc) <==> VersionOf(svc) != ""
  {
    if VersionOf(svc) != "" {
      assert ArgOf(svc)[|svc.plugin|] == '@';
    }
  }

  // ---------------------------------------------------------------------
  // After the pool: what is runnable

  /** The names in the manifest are free of '@' and its keys are right. */
  predicate PlainManifest(m: Plugins)
  {
    WellKeyed(m) && forall k :: k in m ==> '@' !in m[k].name
  }

  lemma AddedKeepsOthers(m: Plugins, p: Plugin, c: string, k: string)
    requires PlainManifest(m) && '@' !in p.name && k in m && m[k].name == c
    ensures k in Added(m, p) && Added(m, p)[k].name == c
  {
    if k == Key(p.name, p.version) {
      KeyInjective(m[k].name, m[k].version, p.name, p.version);
    }
  }

  /** The name and version an install was asked for, and what it has recorded once finished. */
  ghost predicate JobServes(s: Install.State, j: nat)
    requires j < |s.jobs| && Install.WellFormed(s)
  {
    match ParseCoordinate(s.args[j])
    case Err(_) => s.jobs[j].Idle? || s.jobs[j] == Install.Finished(false)
    case Ok(p) =>
      && (Install.Running(s.jobs[j]) && p.version != "" ==> s.jobs[j].release.version == p.version)
      && (s.jobs[j] == Install.Finished(true) ==> Recorded(s.plugins, p))
  }

  ghost predicate Recorded(m: Plugins, p: Parsed)
  {
    exists v :: (p.version != "" ==> v == p.version) && Key(p.Name(), v) in m && m[Key(p.Name(), v)].name == p.Name()
  }

  /** The hub answers about the plugin it was asked for. */
  ghost predicate HubEchoes(s: Install.State)
  {
    Install.WellFormed(s) &&
    forall j :: 0 <= j < |s.jobs| && Install.Running(s.jobs[j]) && ParseCoordinate(s.args[j]).Ok? ==>
      s.jobs[j].detail.Coordinate() == ParseCoordinate(s.args[j]).value.Name()
  }

  /** The hub's versions have no surrounding space and no '@'. */
  predicate HubTidy(s: Install.State)
  {
    forall j :: 0 <= j < |s.jobs| && Install.Running(s.jobs[j]) ==> Tidy(s.jobs[j].release.version)
  }

  predicate Unpadded(version: string)
  {
    TrimSpace(version) == version
  }

  predicate Tidy(version: string)
  {
    Unpadded(version) && '@' !in version
  }

  /** Whatever is new in the manifest was asked for by an argument. */
  ghost predicate NewEntriesAsked(m0: Plugins, s: Install.State)
  {
    && m0.Keys <= s.plugins.Keys
    && forall k :: k in s.plugins && k !in m0 ==> AskedFor(s.args, s.plugins[k])
  }

  ghost predicate AskedFor(args: seq<string>, p: Plugin)
  {
    exists j :: 0 <= j < |args| && NamedBy(args[j], p.name)
  }

  predicate NamedBy(arg: string, name: string)
  {
    ParseCoordinate(arg).Ok? && ParseCoordinate(arg).value.Name() == name
  }

  /** A name that an argument gives is a coordinate. */
  lemma NamedByIsClean(arg: string, name: string)
    requires NamedBy(arg, name)
    ensures ParseParts(name, "").Ok? && '@' !in name
  {
    var p := ParseCoordinate(arg).value;
    var (coord, ver, _) := Cut(TrimSpace(arg), '@');
    ParsedName(TrimSpace(coord), NormalizeVersion(TrimSpace(ver)));
  }

  ghost predicate PoolInv(m0: Plugins, s: Install.State)
  {
    && Install.AllJobFacts(s) && PlainManifest(s.plugins)
    && (forall j :: 0 <= j < |s.jobs| ==> JobServes(s, j))
    && NewEntriesAsked(m0, s)
  }

  /** The entry that a commit writes is of the name and version its install was asked for. */
  lemma CommitServes(m0: Plugins, s: Install.State, s': Install.State, j: nat) returns (p: Parsed, e: Plugin)
    requires PoolInv(m0, s) && HubEchoes(s) && j < |s.jobs| && Install.Commit(s, s', j)
    ensures ParseCoordinate(s.args[j]) == Ok(p) && e.name == p.Name() && '@' !in e.name &&
      (p.version != "" ==> e.version == p.version)
    ensures s' == Install.Moved(s, j, Install.Finished(true)).(plugins := Added(s.plugins, e))
    ensures NamedBy(s.args[j], e.name)
  {
    var job := s.jobs[j];
    assert Install.JobFacts(job) && JobServes(s, j) && Install.Running(job);
    e := Install.EntryOf(job.detail, job.plugin);
    p := ParseCoordinate(s.args[j]).value;
    NamedByIsClean(s.args[j], e.name);
  }

  lemma CommitRecords(m0: Plugins, s: Install.State, s': Install.State, j: nat)
    requires PoolInv(m0, s) && HubEchoes(s) && j < |s.jobs| && Install.Commit(s, s', j)
    ensures forall i :: 0 <= i < |s'.jobs| ==> JobServes(s', i) && Install.JobFacts(s'.jobs[i])
  {
    var p, e := CommitServes(m0, s, s', j);
    assert Recorded(s'.plugins, p) by {
      assert Key(p.Name(), e.version) in s'.plugins;
    }
    forall i | 0 <= i < |s'.jobs| ensures JobServes(s', i) && Install.JobFacts(s'.jobs[i]) {
      if i != j {
        assert s'.jobs[i] == s.jobs[i] && JobServes(s, i) && Install.JobFacts(s.jobs[i]);
        if ParseCoordinate(s.args[i]).Ok? && Recorded(s.plugins, ParseCoordinate(s.args[i]).value) {
          RecordedStays(s.plugins, e, ParseCoordinate(s.args[i]).value);
        }
      }
    }
  }

  lemma RecordedStays(m: Plugins, e: Plugin, p: Parsed)
    requires PlainManifest(m) && '@' !in e.name && Recorded(m, p)
    ensures Recorded(Added(m, e), p)
  {
    var v :| (p.version != "" ==> v == p.version) && Key(p.Name(), v) in m && m[Key(p.Name(), v)].name == p.Name();
    AddedKeepsOthers(m, e, p.Name(), Key(p.Name(), v));
  }

  lemma CommitKeepsEntries(m0: Plugins, s: Install.State, s': Install.State, j: nat)
    requires PoolInv(m0, s) && HubEchoes(s) && j < |s.jobs| && Install.Commit(s, s', j)
    ensures NewEntriesAsked(m0, s')
  {
    var p, e := CommitServes(m0, s, s', j);
    forall k | k in s'.plugins && k !in m0 ensures AskedFor(s'.args, s'.plugins[k]) {
      if k == Key(e.name, e.version) {
        assert NamedBy(s'.args[j], e.name);
      } else {
        assert AskedFor(s.args, s.plugins[k]);
      }
    }
  }

  lemma CommitKeepsPlain(m0: Plugins, s: Install.State, s': Install.State, j: nat)
    requires PoolInv(m0, s) && HubEchoes(s) && j < |s.jobs| && Install.Commit(s, s', j)
    ensures PlainManifest(s'.plugins)
  {
    var p, e := CommitServes(m0, s, s', j);
  }

  lemma StartServes(env: Install.Env, s: Install.State, s': Install.State, j: nat)
    requires Install.WellFormed(s) && Install.WellFormed(s') && j < |s.jobs| && Install.Start(env, s, s', j)
    ensures JobServes(s', j)
  {
  }

  /** An install on its way keeps the release it has resolved. */
  lemma AdvancedServes(s: Install.State, s': Install.State, j: nat)
    requires Install.WellFormed(s) && Install.WellFormed(s') && j < |s.jobs| == |s'.jobs| && s'.args == s.args
    requires JobServes(s, j) && !s.jobs[j].Idle? && Install.Advances(s.jobs[j], s'.jobs[j])
    requires s'.plugins == s.plugins && (s'.jobs[j] == s.jobs[j] || s'.jobs[j] != Install.Finished(true))
    ensures JobServes(s', j)
  {
  }

  lemma OtherStepServes(env: Install.Env, m0: Plugins, s: Install.State, s': Install.State, j: nat)
    requires PoolInv(m0, s) && Install.StepOf(env, s, s', j) && !Install.Commit(s, s', j)
    ensures Install.WellFormed(s') && |s'.jobs| == |s.jobs| && JobServes(s', j)
  {
    Install.StepMovesOne(env, s, s', j);
    assert JobServes(s, j);
    if Install.Start(env, s, s', j) {
      StartServes(env, s, s', j);
    } else if !s.jobs[j].Idle? {
      Install.MovedAdvances(env, s, s', j);
      AdvancedServes(s, s', j);
    }
  }

  lemma StepKeepsPoolInv(env: Install.Env, m0: Plugins, s: Install.State, s': Install.State, j: nat)
    requires PoolInv(m0, s) && HubEchoes(s) && Install.StepOf(env, s, s', j)
    ensures PoolInv(m0, s')
  {
    Install.StepMovesOne(env, s, s', j);
    Install.StepKeepsJobFacts(env, s, s', j);
    if Install.Commit(s, s', j) {
      CommitRecords(m0, s, s', j);
      CommitKeepsEntries(m0, s, s', j);
      CommitKeepsPlain(m0, s, s', j);
    } else {
      OtherStepServes(env, m0, s, s', j);
      forall i | 0 <= i < |s'.jobs| ensures JobServes(s', i) {
        assert JobServes(s, i);
      }
    }
  }

  /** A run from a manifest without '@' in its names whose hub answers about what it was asked. */
  ghost predicate EchoingRun(env: Install.Env, states: seq<Install.State>)
  {
    && Install.Run(env, states) && PlainManifest(states[0].plugins)
    && forall k :: 0 <= k < |states| ==> HubEchoes(states[k])
  }

  lemma StartPoolInv(env: Install.Env, states: seq<Install.State>)
    requires EchoingRun(env, states)
    ensures PoolInv(states[0].plugins, states[0])
  {
    Install.RunFacts(env, states, 0);
  }

  lemma NextPoolInv(env: Install.Env, m0: Plugins, states: seq<Install.State>, i: nat)
    requires EchoingRun(env, states) && i + 1 < |states| && PoolInv(m0, states[i])
    ensures PoolInv(m0, states[i + 1]) && states[i + 1].args == states[i].args
  {
    assert Install.Stepped(env, states, i);
    var j: nat :| Install.StepOf(env, states[i], states[i + 1], j);
    StepKeepsPoolInv(env, m0, states[i], states[i + 1], j);
    Install.StepMovesOne(env, states[i], states[i + 1], j);
  }

  lemma {:induction false} RunKeepsPoolInv(env: Install.Env, states: seq<Install.State>, i: nat)
    requires EchoingRun(env, states) && i < |states|
    ensures PoolInv(states[0].plugins, states[i]) && states[i].args == states[0].args
  {
    if i == 0 {
      StartPoolInv(env, states);
    } else {
      RunKeepsPoolInv(env, states, i - 1);
      NextPoolInv(env, states[0].plugins, states, i - 1);
    }
  }

  /** A plugin field that is a coordinate, and a version without surrounding space. */
  predicate CleanService(svc: Service)
  {
    ParseParts(svc.plugin, "").Ok? && Unpadded(VersionOf(svc))
  }

  /** A pool in which every install succeeded, which is when `FromConfig` returns no error. */
  ghost predicate PoolSucceeded(env: Install.Env, states: seq<Install.State>)
  {
    EchoingRun(env, states) && AllInstalled(states[|states| - 1])
  }

  predicate AllInstalled(s: Install.State)
  {
    forall j :: 0 <= j < |s.jobs| ==> s.jobs[j] == Install.Finished(true)
  }

  /** Whatever is new in the manifest has a tidy version. */
  predicate NewTidy(m0: Plugins, m: Plugins)
  {
    forall k :: k in m && k !in m0 ==> Tidy(m[k].version)
  }

  lemma StepKeepsTidy(env: Install.Env, m0: Plugins, s: Install.State, s': Install.State)
    requires Install.Step(env, s, s') && Install.AllJobFacts(s) && HubTidy(s) && NewTidy(m0, s.plugins)
    ensures NewTidy(m0, s'.plugins)
  {
    var j: nat :| Install.StepOf(env, s, s', j);
    Install.StepMovesOne(env, s, s', j);
    if Install.Commit(s, s', j) {
      assert Install.JobFacts(s.jobs[j]);
    }
  }

  lemma {:induction false} RunKeepsTidy(env: Install.Env, states: seq<Install.State>, i: nat)
    requires Install.Run(env, states) && i < |states|
    requires forall k :: 0 <= k < |states| ==> HubTidy(states[k])
    ensures NewTidy(states[0].plugins, states[i].plugins)
  {
    if i > 0 {
      RunKeepsTidy(env, states, i - 1);
      NextTidy(env, states[0].plugins, states, i - 1);
    }
  }

  lemma NextTidy(env: Install.Env, m0: Plugins, states: seq<Install.State>, i: nat)
    requires Install.Run(env, states) && i + 1 < |states| && HubTidy(states[i]) && NewTidy(m0, states[i].plugins)
    ensures NewTidy(m0, states[i + 1].plugins)
  {
    Install.RunFacts(env, states, i);
    assert Install.Stepped(env, states, i);
    StepKeepsTidy(env, m0, states[i], states[i + 1]);
  }

  lemma InstalledServiceRuns(m0: Plugins, s: Install.State, j: nat, svc: Service)
    requires PoolInv(m0, s) && j < |s.jobs| && s.jobs[j] == Install.Finished(true)
    requires s.args[j] == ArgOf(svc) && CleanService(svc)
    ensures Runnable(s.plugins, svc)
  {
    assert JobServes(s, j);
    ParsedName(svc.plugin, "");
    ParseOfArg(svc.plugin, VersionOf(svc));
    NormalizeIdempotent(svc.version);
    var p := ParseCoordinate(s.args[j]).value;
    assert p.Name() == svc.plugin && p.version == VersionOf(svc);
    var v :| (p.version != "" ==> v == p.version) && Key(p.Name(), v) in s.plugins &&
      s.plugins[Key(p.Name(), v)].name == p.Name();
  }

  lemma RunnableWasAsked(m0: Plugins, s: Install.State, svc: Service)
    requires PoolInv(m0, s) && NewTidy(m0, s.plugins) && PlainManifest(m0)
    requires Runnable(s.plugins, svc) && !Runnable(m0, svc)
    ensures CleanService(svc)
  {
    var k := NewEntryFor(m0, s, svc);
    var e := s.plugins[k];
    var j :| 0 <= j < |s.args| && NamedBy(s.args[j], e.name);
    NamedByIsClean(s.args[j], e.name);
  }

  /** A service that has become runnable resolves to an entry that was not there before, of its own name and version. */
  lemma NewEntryFor(m0: Plugins, s: Install.State, svc: Service) returns (k: string)
    requires PoolInv(m0, s) && NewTidy(m0, s.plugins) && PlainManifest(m0)
    requires Runnable(s.plugins, svc) && !Runnable(m0, svc)
    ensures k in s.plugins && k !in m0 && s.plugins[k].name == svc.plugin
    ensures VersionOf(svc) != "" ==> s.plugins[k].version == VersionOf(svc)
  {
    if VersionOf(svc) != "" {
      k := Key(svc.plugin, VersionOf(svc));
      TidyKey(s.plugins[k].name, s.plugins[k].version, svc.plugin, VersionOf(svc));
    } else {
      k :| k in s.plugins && s.plugins[k].name == svc.plugin;
      if k in m0 {
        KeyInjective(m0[k].name, m0[k].version, s.plugins[k].name, s.plugins[k].version);
      }
    }
  }

  /** A key with a single '@' is the key of one name and version. */
  lemma TidyKey(name: string, version: string, other: string, otherVersion: string)
    requires '@' !in name && '@' !in version && Key(name, version) == Key(other, otherVersion)
    ensures name == other && version == otherVersion
  {
    var k := Key(name, version);
    assert forall i :: 0 <= i < |k| && k[i] == '@' ==> i == |name|;
    assert k[|other|] == '@';
    assert k[..|name|] == name && k[..|other|] == other && k[|name| + 1..] == version &&
      k[|other| + 1..] == otherVersion;
  }

  /** What the preflight asked the pool for. */
  predicate Asked(svc: Service, s: Install.State)
  {
    NeedsInstall(s.plugins, svc) ==> ArgOf(svc) in s.args
  }

  /** After a pool that reported no error, under every interleaving, a clean service resolves. */
  lemma PoolMakesRunnable(env: Install.Env, states: seq<Install.State>, svc: Service)
    requires PoolSucceeded(env, states) && Asked(svc, states[0])
    requires Runnable(states[0].plugins, svc) || CleanService(svc)
    ensures Runnable(states[|states| - 1].plugins, svc)
  {
    RunKeepsPoolInv(env, states, |states| - 1);
    DoneMakesRunnable(states[0].plugins, states[|states| - 1], svc);
  }

  lemma DoneMakesRunnable(m0: Plugins, s: Install.State, svc: Service)
    requires PoolInv(m0, s) && PlainManifest(m0) && AllInstalled(s)
    requires NeedsInstall(m0, svc) ==> ArgOf(svc) in s.args
    requires Runnable(m0, svc) || CleanService(svc)
    ensures Runnable(s.plugins, svc)
  {
    if Runnable(m0, svc) {
      StaysRunnable(m0, s, svc);
    } else {
      CleanIsNamed(svc);
      var j :| 0 <= j < |s.args| && s.args[j] == ArgOf(svc);
      InstalledServiceRuns(m0, s, j, svc);
    }
  }

  lemma CleanIsNamed(svc: Service)
    requires CleanService(svc)
    ensures svc.plugin != ""
  {
    assert ParseParts("", "").Err?;
  }

  /**
   And when the hub's versions are tidy only such a service does: what was not
   runnable before, whatever its fields are, is runnable exactly when its plugin
   field is a coordinate and its version is unpadded. A plugin field pinned with
   "@" and a version is not a coordinate.
   */
  lemma PoolMakesRunnableIff(env: Install.Env, states: seq<Install.State>, svc: Service)
    requires PoolSucceeded(env, states) && Asked(svc, states[0])
    requires forall k :: 0 <= k < |states| ==> HubTidy(states[k])
    ensures Runnable(states[|states| - 1].plugins, svc) <==> Runnable(states[0].plugins, svc) || CleanService(svc)
  {
    if Runnable(states[0].plugins, svc) || CleanService(svc) {
      PoolMakesRunnable(env, states, svc);
    } else if Runnable(states[|states| - 1].plugins, svc) {
      OnlyCleanBecomesRunnable(env, states, svc);
    }
  }

  lemma OnlyCleanBecomesRunnable(env: Install.Env, states: seq<Install.State>, svc: Service)
    requires EchoingRun(env, states) && forall k :: 0 <= k < |states| ==> HubTidy(states[k])
    requires Runnable(states[|states| - 1].plugins, svc) && !Runnable(states[0].plugins, svc)
    ensures CleanService(svc)
  {
    RunKeepsPoolInv(env, states, |states| - 1);
    RunKeepsTidy(env, states, |states| - 1);
    RunnableWasAsked(states[0].plugins, states[|states| - 1], svc);
  }

  lemma StaysRunnable(m0: Plugins, s: Install.State, svc: Service)
    requires PoolInv(m0, s) && PlainManifest(m0) && Runnable(m0, svc)
    ensures Runnable(s.plugins, svc)
  {
    if VersionOf(svc) == "" {
      var k :| k in m0 && m0[k].name == svc.plugin;
      KeyInjective(m0[k].name, m0[k].version, s.plugins[k].name, s.plugins[k].version);
    }
  }

  // ---------------------------------------------------------------------
  // The runner's plan

  /** The path of the pinned version's entry, or of an entry that `Latest` picks in some order of the map. */
  ghost predicate ResolvesTo(m: Plugins, name: string, version: string, path: string)
  {
    if version != "" then FindVersion(m, name, version).Some? && FindVersion(m, name, version).value.binaryPath == path
    else exists order ::
      Iteration(m, order) && LatestIn(m, name, order).Some? && LatestIn(m, name, order).value.binaryPath == path
  }

  /**
   What a resolved path is: the binary of the entry of exactly that version when one
   is pinned, and else of an entry of the name that no other is above.
   */
  lemma ResolvedEntry(m: Plugins, name: string, version: string, path: string) returns (k: string)
    requires ResolvesTo(m, name, version, path)
    ensures k in m && m[k].binaryPath == path
    ensures version != "" ==> k == name + "@" + version
    ensures version == "" ==> m[k].name == name && (AllSemver(m, name) ==>
      forall j :: j in m && m[j].name == name ==> !Semver.NumbersLower(Read(m[k].version), Read(m[j].version)))
  {
    if version != "" {
      k := Key(name, version);
    } else {
      var order :| Iteration(m, order) && LatestIn(m, name, order).Some? &&
        LatestIn(m, name, order).value.binaryPath == path;
      LatestFoundIff(m, name, order);
      k :| k in m && m[k] == LatestIn(m, name, order).value;
      if AllSemver(m, name) {
        forall j | j in m && m[j].name == name
          ensures !Semver.NumbersLower(Read(m[k].version), Read(m[j].version))
        {
          LatestHasHighestNumbers(m, name, order, j);
        }
      }
    }
  }

  class PluginPkg {
    const name: string
    const version: string
    const serviceTarget: string
    var path: string
    var installed: bool
    var requested: bool
    var failed: bool

    /** Resolve the binary from the manifest (`None` when it cannot be loaded); `file` is that manifest. */
    constructor New(pluginName: string, version: string, serviceName: string, file: File)
      ensures name == pluginName && this.version == version && serviceTarget == serviceName && !requested
      ensures installed <==> Load(file).Ok? && Resolves(Load(file).value, pluginName, version)
      ensures failed <==> !installed
      ensures installed ==> ResolvesTo(Load(file).value, pluginName, version, path)
    {
      this.name := pluginName;
      this.version := version;
      this.serviceTarget := serviceName;
      this.requested := false;
      this.path := "";
      this.installed := false;
      this.failed := false;
      new;
      var found := GetBinary(file);
      if found.None? {
        this.failed := true;
      } else {
        this.path := found.value;
        this.installed := true;
      }
    }

    constructor Local(p: Plugin)
      ensures name == p.name && version == p.version && serviceTarget == "" && installed && !requested
      ensures path == p.binaryPath
    {
      name, version, serviceTarget := p.name, p.version, "";
      path, installed, requested, failed := p.binaryPath, true, false, false;
    }

    method GetBinary(file: File) returns (r: Option<string>)
      ensures r.Some? <==> Load(file).Ok? && Resolves(Load(file).value, name, version)
      ensures r.Some? ==> ResolvesTo(Load(file).value, name, version, r.value)
    {
      if Load(file).Err? {
        return None;
      }
      var m := new M.Manifest(Load(file).value);
      if version != "" {
        var entry := FindVersion(m.plugins, name, version);
        return match entry case Some(p) => Some(p.binaryPath) case None => None;
      }
      var latest := m.Latest(name);
      ghost var order :| Iteration(m.plugins, order) && latest == LatestIn(m.plugins, name, order);
      LatestFoundIff(m.plugins, name, order);
      r := match latest case Some(p) => Some(p.binaryPath) case None => None;
    }
  }

  method RequestOne(services: Services, file: File, k: string) returns (pkg: PluginPkg)
    requires k in services
    ensures fresh(pkg) && pkg.requested && pkg.serviceTarget == k && ServesOne(services, file, pkg)
  {
    pkg := new PluginPkg.New(services[k].plugin, VersionOf(services[k]), k, file);
    pkg.requested := true;
  }

  predicate AllRequested(out: seq<PluginPkg>)
    reads out
  {
    forall i :: 0 <= i < |out| ==> out[i].requested
  }

  /** One package per service, in whatever order the map is visited. */
  method GetRequestedPlugins(services: Services, file: File) returns (out: seq<PluginPkg>)
    ensures fresh(out) && Requested(services, file, out) && AllRequested(out)
  {
    out := [];
    var pending := services.Keys;
    while pending != {}
      invariant pending <= services.Keys && fresh(out) && Targets(out) == services.Keys - pending
      invariant forall i :: 0 <= i < |out| ==> ServesOne(services, file, out[i]) && out[i].requested
      invariant forall i, j :: 0 <= i < j < |out| ==> out[i].serviceTarget != out[j].serviceTarget
      decreases pending
    {
      var k :| k in pending;
      pending := pending - {k};
      var pkg := RequestOne(services, file, k);
      TargetsAppend(out, pkg);
      out := out + [pkg];
    }
  }

  function Targets(out: seq<PluginPkg>): (r: set<string>)
    ensures forall i :: 0 <= i < |out| ==> out[i].serviceTarget in r
  {
    set i | 0 <= i < |out| :: out[i].serviceTarget
  }

  lemma TargetsAppend(out: seq<PluginPkg>, pkg: PluginPkg)
    ensures Targets(out + [pkg]) == Targets(out) + {pkg.serviceTarget}
  {
    forall x | x in Targets(out) ensures x in Targets(out + [pkg]) {
      var i :| 0 <= i < |out| && out[i].serviceTarget == x;
      assert (out + [pkg])[i].serviceTarget == x;
    }
    assert (out + [pkg])[|out|].serviceTarget in Targets(out + [pkg]);
  }

  /** The package is for its service: the plugin and version asked for, and the path these resolve to. */
  ghost predicate ServesOne(services: Services, file: File, pkg: PluginPkg)
    reads pkg
  {
    && pkg.serviceTarget in services
    && pkg.name == services[pkg.serviceTarget].plugin && pkg.version == VersionOf(services[pkg.serviceTarget])
    && (pkg.installed <==> Load(file).Ok? && Runnable(Load(file).value, services[pkg.serviceTarget]))
    && (pkg.installed ==> ResolvesTo(Load(file).value, pkg.name, pkg.version, pkg.path))
  }

  /** Each service has exactly one package, resolved for it. */
  ghost predicate Requested(services: Services, file: File, out: seq<PluginPkg>)
    reads out
  {
    && (forall i :: 0 <= i < |out| ==> ServesOne(services, file, out[i]))
    && Targets(out) == services.Keys
    && forall i, j :: 0 <= i < j < |out| ==> out[i].serviceTarget != out[j].serviceTarget
  }

  method Contains(slice: seq<PluginPkg>, search: string) returns (found: bool, ghost at: nat)
    ensures found <==> exists i :: 0 <= i < |slice| && slice[i].name == search
    ensures found ==> at < |slice| && slice[at].name == search
  {
    for i := 0 to |slice|
      invariant forall j :: 0 <= j < i ==> slice[j].name != search
    {
      if slice[i].name == search {
        return true, i;
      }
    }
    found, at := false, 0;
  }

  /** A package standing for an installed plugin. */
  ghost predicate ShowsLocal(pkg: PluginPkg, m: Plugins)
    reads pkg
  {
    pkg.installed && exists k :: k in m && pkg.name == m[k].name && pkg.path == m[k].binaryPath
  }

  /** An installed plugin is shown unless a package of that name is there already. */
  method AppendUnlessNamed(output: seq<PluginPkg>, p: Plugin) returns (out: seq<PluginPkg>, ghost at: nat)
    ensures at < |out| && out[at].name == p.name && output <= out && |out| <= |output| + 1
    ensures |out| > |output| <==> forall i :: 0 <= i < |output| ==> output[i].name != p.name
    ensures |out| > |output| ==> fresh(out[|output|]) && !out[|output|].requested && out[|output|].installed
                                 && out[|output|].name == p.name && out[|output|].path == p.binaryPath
  {
    var found;
    out := output;
    found, at := Contains(out, p.name);
    if !found {
      var pkg := new PluginPkg.Local(p);
      at := |out|;
      out := out + [pkg];
    }
  }

  /** After the requested packages come installed plugins that no package before them names. */
  ghost predicate Listing(requested: seq<PluginPkg>, m: Plugins, out: seq<PluginPkg>)
    reads out
  {
    && requested <= out
    && (forall i, j :: |requested| <= j < |out| && 0 <= i < j ==> out[i].name != out[j].name)
    && forall j :: |requested| <= j < |out| ==> !out[j].requested && ShowsLocal(out[j], m)
  }

  /** What is listed beyond the requested packages is installed: its name and path are those of an entry. */
  lemma ListedIsInstalled(requested: seq<PluginPkg>, m: Plugins, out: seq<PluginPkg>, j: nat) returns (k: string)
    requires Listing(requested, m, out) && |requested| <= j < |out|
    ensures k in m && out[j].name == m[k].name && out[j].path == m[k].binaryPath
    ensures out[j].installed && !out[j].requested && out[j] !in requested
  {
    k :| k in m && out[j].name == m[k].name && out[j].path == m[k].binaryPath;
  }

  /** Every installed plugin has a package of its name. */
  ghost predicate AllShown(m: Plugins, out: seq<PluginPkg>)
  {
    forall k :: k in m ==> exists i :: 0 <= i < |out| && out[i].name == m[k].name
  }

  method AddLocals(requested: seq<PluginPkg>, m: Plugins) returns (out: seq<PluginPkg>)
    ensures Listing(requested, m, out) && fresh(out[|requested|..])
    ensures AllShown(m, out)
  {
    out := requested;
    ghost var shown: map<string, nat> := map[];
    var pending := m.Keys;
    while pending != {}
      invariant pending <= m.Keys && Listing(requested, m, out) && fresh(out[|requested|..])
      invariant forall k :: k in m && k !in pending ==>
        k in shown && shown[k] < |out| && out[shown[k]].name == m[k].name
      decreases pending
    {
      var k :| k in pending;
      pending := pending - {k};
      ghost var at;
      out, at := AppendUnlessNamed(out, m[k]);
      shown := shown[k := at];
    }
  }

  /** What a listing shows of a file: nothing when it cannot be loaded. */
  function InstalledIn(file: File): Plugins
  {
    if Load(file).Ok? then Load(file).value else map[]
  }

  /** With nothing installed the requested packages are the whole listing. */
  lemma NothingToList(requested: seq<PluginPkg>)
    ensures Listing(requested, map[], requested) && AllShown(map[], requested)
  {
  }

  /** Nothing is added when the manifest cannot be loaded. */
  method WithLocals(requested: seq<PluginPkg>, file: File) returns (out: seq<PluginPkg>)
    ensures Listing(requested, InstalledIn(file), out) && fresh(out[|requested|..])
    ensures AllShown(InstalledIn(file), out)
  {
    if Load(file).Err? {
      NothingToList(requested);
      return requested;
    }
    out := AddLocals(requested, Load(file).value);
  }

  /** The requested packages, then the installed plugins; those that `requested` counts are the first ones. */
  method GetPlugins(services: Services, file: File) returns (out: seq<PluginPkg>, ghost requested: seq<PluginPkg>)
    ensures requested <= out && fresh(requested) && fresh(out[|requested|..])
    ensures Requested(services, file, requested) && AllRequested(requested)
    ensures Listing(requested, InstalledIn(file), out) && AllShown(InstalledIn(file), out)
  {
    out := GetRequestedPlugins(services, file);
    requested := out;
    out := WithLocals(out, file);
  }

  /** Nothing is listed exactly when nothing is configured or installed. */
  lemma EmptyListing(services: Services, file: File, requested: seq<PluginPkg>, m: Plugins, out: seq<PluginPkg>)
    requires Requested(services, file, requested) && Listing(requested, m, out)
    requires AllShown(m, out)
    ensures out == [] <==> services == map[] && m == map[]
  {
    if requested == [] {
      assert services.Keys == Targets(requested) == {};
    } else {
      assert ServesOne(services, file, requested[0]);
    }
    if requested == [] && out != [] {
      assert ShowsLocal(out[0], m);
    }
  }

  predicate AllResolve(services: Services, file: File)
  {
    forall k :: k in services ==> Load(file).Ok? && Runnable(Load(file).value, services[k])
  }

  /** Some package of the requested ones is missing exactly when some service does not resolve. */
  lemma MissingIff(services: Services, file: File, requested: seq<PluginPkg>)
    requires Requested(services, file, requested)
    ensures (exists i :: 0 <= i < |requested| && !requested[i].installed) <==> !AllResolve(services, file)
  {
    forall i | 0 <= i < |requested| ensures ServesOne(services, file, requested[i]) {
    }
    forall k | k in services ensures exists i :: 0 <= i < |requested| && requested[i].serviceTarget == k {
      assert k in Targets(requested);
    }
  }

  ghost predicate FirstMissing(plugins: seq<PluginPkg>, i: int)
    reads plugins
  {
    && 0 <= i < |plugins| && plugins[i].requested && !plugins[i].installed
    && forall j :: 0 <= j < i && plugins[j].requested ==> plugins[j].installed
  }

  datatype Exit = Proceed | NoTests | BadUsage

  /** Everything requested, in order, or the first requested plugin that is not installed. */
  method PlanRun(plugins: seq<PluginPkg>) returns (toRun: seq<PluginPkg>, exit: Exit, culprit: PluginPkg?)
    ensures exit == NoTests <==> plugins == []
    ensures exit == BadUsage <==> exists i :: 0 <= i < |plugins| && plugins[i].requested && !plugins[i].installed
    ensures exit == BadUsage ==> toRun == [] && exists i :: FirstMissing(plugins, i) && plugins[i] == culprit
    ensures exit == Proceed ==> toRun == RequestedOf(plugins)
  {
    toRun, exit, culprit := [], Proceed, null;
    if |plugins| == 0 {
      return [], NoTests, null;
    }
    for i := 0 to |plugins|
      invariant toRun == RequestedOf(plugins[..i])
      invariant forall j :: 0 <= j < i && plugins[j].requested ==> plugins[j].installed
    {
      assert plugins[..i+1][..i] == plugins[..i];
      if !plugins[i].requested {
        continue;
      }
      if !plugins[i].installed {
        assert FirstMissing(plugins, i);
        return [], BadUsage, plugins[i];
      }
      toRun := toRun + [plugins[i]];
    }
    assert plugins[..|plugins|] == plugins;
  }

  ghost function RequestedOf(plugins: seq<PluginPkg>): seq<PluginPkg>
    reads plugins
  {
    if plugins == [] then []
    else
      var init, last := plugins[..|plugins| - 1], plugins[|plugins| - 1];
      if last.requested then RequestedOf(init) + [last] else RequestedOf(init)
  }

  lemma {:induction false} RequestedPrefix(plugins: seq<PluginPkg>, n: nat)
    requires n <= |plugins|
    requires forall i :: 0 <= i < |plugins| ==> (plugins[i].requested <==> i < n)
    ensures RequestedOf(plugins) == plugins[..n]
  {
    if plugins != [] {
      var init := plugins[..|plugins| - 1];
      if n == |plugins| {
        RequestedPrefix(init, n - 1);
        assert plugins == init + [plugins[n - 1]];
      } else {
        RequestedPrefix(init, n);
        assert init[..n] == plugins[..n];
      }
    }
  }

  /**
   The plan for a configuration: bad usage exactly when some service does not
   resolve, nothing to do exactly when nothing is configured or installed, and
   otherwise exactly one package per service.
   */
  method Plan(services: Services, file: File) returns (toRun: seq<PluginPkg>, exit: Exit)
    ensures exit == BadUsage <==> !AllResolve(services, file)
    ensures exit == NoTests <==> services == map[] && InstalledIn(file) == map[]
    ensures exit == Proceed ==> Requested(services, file, toRun)
  {
    var plugins;
    ghost var requested;
    plugins, requested := GetPlugins(services, file);
    toRun, exit := RunRequested(services, file, plugins, requested);
  }

  /** The plan over a listing whose requested packages come first. */
  method RunRequested(services: Services, file: File, plugins: seq<PluginPkg>, ghost requested: seq<PluginPkg>)
      returns (toRun: seq<PluginPkg>, exit: Exit)
    requires Requested(services, file, requested) && AllRequested(requested)
    requires Listing(requested, InstalledIn(file), plugins) && AllShown(InstalledIn(file), plugins)
    ensures exit == BadUsage <==> !AllResolve(services, file)
    ensures exit == NoTests <==> services == map[] && InstalledIn(file) == map[]
    ensures exit == Proceed ==> Requested(services, file, toRun)
  {
    var culprit;
    toRun, exit, culprit := PlanRun(plugins);
    ListingDecides(services, file, requested, plugins);
  }

  lemma ListingDecides(services: Services, file: File, requested: seq<PluginPkg>, plugins: seq<PluginPkg>)
    requires Requested(services, file, requested) && AllRequested(requested)
    requires Listing(requested, InstalledIn(file), plugins) && AllShown(InstalledIn(file), plugins)
    ensures RequestedOf(plugins) == requested
    ensures (exists i :: 0 <= i < |plugins| && plugins[i].requested && !plugins[i].installed) <==>
      !AllResolve(services, file)
    ensures plugins == [] <==> services == map[] && InstalledIn(file) == map[]
  {
    EmptyListing(services, file, requested, InstalledIn(file), plugins);
    MissingIff(services, file, requested);
    forall i | 0 <= i < |plugins| ensures plugins[i].requested <==> i < |requested| {
      assert i < |requested| ==> plugins[i] == requested[i];
    }
    RequestedFirst(plugins, requested);
  }

  lemma RequestedFirst(plugins: seq<PluginPkg>, requested: seq<PluginPkg>)
    requires requested <= plugins && forall i :: 0 <= i < |plugins| ==> (plugins[i].requested <==> i < |requested|)
    ensures RequestedOf(plugins) == requested
    ensures (exists i :: 0 <= i < |plugins| && plugins[i].requested && !plugins[i].installed) <==>
      exists i :: 0 <= i < |requested| && !requested[i].installed
  {
    RequestedPrefix(plugins, |requested|);
    forall i | 0 <= i < |requested| ensures plugins[i] == requested[i] {
    }
  }

  // ---------------------------------------------------------------------
  // End to end

  lemma CleanServicesArePlain(services: Services)
    requires forall k :: k in services ==> CleanService(services[k])
    ensures PlainServices(services)
  {
    forall k | k in services ensures '@' !in services[k].plugin {
      ParsedName(services[k].plugin, "");
    }
  }

  /**
   Preflight implies runnable: when every service names a coordinate with an
   unpadded version, and the pool was given what the preflight found missing and
   returned no error, every service resolves.
   */
  lemma PreflightImpliesRunnable(env: Install.Env, states: seq<Install.State>, services: Services, after: File)
    requires PoolSucceeded(env, states) && MissingList(services, states[0].plugins, states[0].args)
    requires after == Current(states[|states| - 1].plugins)
    requires forall k :: k in services ==> CleanService(services[k])
    ensures AllResolve(services, after)
  {
    CleanServicesArePlain(services);
    PlainServicesTell(services);
    forall k | k in services ensures Runnable(states[|states| - 1].plugins, services[k]) {
      PoolMakesRunnable(env, states, services[k]);
    }
  }

  /**
   From the configuration to the plan: of a manifest file the preflight makes
   `args`, the pool of installs for them ends without error under any
   interleaving, and the plan made of what it leaves is to run one installed
   package for every service.
   */
  method PlanAfterPreflight(
      services: Services, ghost before: File, ghost args: seq<string>, ghost env: Install.Env,
      ghost states: seq<Install.State>, after: File) returns (toRun: seq<PluginPkg>, exit: Exit)
    requires Load(before).Ok? && MissingList(services, Load(before).value, args)
    requires PoolSucceeded(env, states) && states[0].plugins == Load(before).value && states[0].args == args
    requires after == Current(states[|states| - 1].plugins)
    requires services != map[] && forall k :: k in services ==> CleanService(services[k])
    ensures exit == Proceed && Requested(services, after, toRun)
    ensures forall i :: 0 <= i < |toRun| ==> toRun[i].installed
  {
    PreflightImpliesRunnable(env, states, services, after);
    toRun, exit := Plan(services, after);
    forall i | 0 <= i < |toRun| ensures toRun[i].installed {
      assert ServesOne(services, after, toRun[i]);
    }
  }

  /** A field pinned as the installer documents it: read as a name and a version. */
  lemma PinnedFieldIsParsed()
    ensures ParseCoordinate("a/b@1") == Ok(Parsed("a", "b", "1"))
  {
    NameIsParsed("1");
    ParsedName("a/b", "1");
    ParsePinned("a/b", "1");
    assert "a/b" + "@" + "1" == "a/b@1";
    OneIsUnpadded();
  }

  lemma NameIsParsed(version: string)
    ensures ParseParts("a/b", version) == Ok(Parsed("a", "b", version))
  {
    CutAround("a", "b", '/');
    assert "a/b" == "a" + ['/'] + "b";
  }

  lemma OneIsUnpadded()
    ensures NormalizeVersion(TrimSpace("1")) == "1"
  {
    assert TrimSpace("1") == TrimRight("1") == "1";
  }

  /**
   Over every run of installs: services that pin different versions, or name
   different plugins, never have the same binary started.
   */
  lemma PinnedServicesRunApart(
      env: Install.Env, states: seq<Install.State>, k: nat, x: Service, y: Service, path: string)
    requires Install.Run(env, states) && k < |states| && Install.OwnDirectories(states[0].plugins)
    requires PlainManifest(states[k].plugins) && '@' !in x.plugin && '@' !in y.plugin
    requires VersionOf(x) != "" && VersionOf(y) != ""
    requires ResolvesTo(states[k].plugins, x.plugin, VersionOf(x), path)
    requires ResolvesTo(states[k].plugins, y.plugin, VersionOf(y), path)
    ensures x.plugin == y.plugin && VersionOf(x) == VersionOf(y)
  {
    var m := states[k].plugins;
    var a, b := Key(x.plugin, VersionOf(x)), Key(y.plugin, VersionOf(y));
    Install.RecordedPathsStayApart(env, states, k, a, b);
    KeyInjective(m[a].name, m[a].version, x.plugin, VersionOf(x));
    KeyInjective(m[b].name, m[b].version, y.plugin, VersionOf(y));
  }

  /** A field that is padded: read as the coordinate without the space. */
  lemma PaddedFieldIsParsed()
    ensures ParseCoordinate(" a/b") == Ok(Parsed("a", "b", ""))
  {
    ParseUnpinned(" a/b");
    NameIsTrimmed(" ", "a/b");
    assert " " + "a/b" == " a/b";
    NameIsParsed("");
  }

  lemma NameIsTrimmed(space: string, name: string)
    requires |space| == 1 && IsSpace(space[0]) && |name| > 0
    requires !IsSpace(name[0]) && !IsSpace(name[|name| - 1])
    ensures TrimSpace(space + name) == name
  {
    assert (space + name)[1..] == name;
    assert TrimLeft(space + name) == TrimLeft(name) == name;
  }

  predicate NotServed(svc: Service)
  {
    svc in {Service("", ""), Service(" a/b", ""), Service("a/b", "1 "), Service("a/b@1", "")}
  }

  lemma NotClean(svc: Service)
    requires NotServed(svc)
    ensures !CleanService(svc)
  {
    if svc.plugin == "" {
      assert ParseParts("", "").Err?;
    } else if svc.plugin == " a/b" {
      CutAround(" a", "b", '/');
      assert " a/b" == " a" + ['/'] + "b";
    } else if svc.plugin == "a/b" {
      assert VersionOf(svc) == "1 " && "1 "[..1] == "1";
      assert TrimSpace("1 ") == TrimRight("1 ") == TrimRight("1") == "1";
    } else {
      assert svc.plugin[3] == '@';
      if ParseParts(svc.plugin, "").Ok? {
        ParsedName(svc.plugin, "");
      }
    }
  }

  /** What the installer reads where a plugin field is filled in. */
  lemma NotServedIsParsed(svc: Service)
    requires NotServed(svc) && svc.plugin != ""
    ensures ParseCoordinate(ArgOf(svc)) == Ok(Parsed("a", "b", if svc.plugin == " a/b" then "" else "1"))
  {
    if svc.plugin == " a/b" {
      PaddedFieldIsParsed();
    } else if svc.plugin == "a/b" {
      PaddedVersionIsParsed();
    } else {
      PinnedFieldIsParsed();
    }
  }

  lemma PaddedVersionIsParsed()
    ensures ParseCoordinate(ArgOf(Service("a/b", "1 "))) == Ok(Parsed("a", "b", "1"))
  {
    ParseOfArg("a/b", "1 ");
    NameIsParsed("1");
    ParsedName("a/b", "1");
    TrimRightAppend("1", " ");
    OneIsUnpadded();
    assert "1" + " " == "1 " && TrimRight(" ") == "";
  }

  /**
   Four services the preflight cannot help: one without a plugin field, which it
   skips, and three for which it installs what they name without the padding of
   the field, the padding of the version, or the version pinned in the field. If
   they did not resolve before, they stop the run after a pool without error.
   */
  lemma PreflightIsNotEnough(env: Install.Env, states: seq<Install.State>, svc: Service, after: File)
    requires NotServed(svc)
    requires PoolSucceeded(env, states) && MissingList(map["s" := svc], states[0].plugins, states[0].args)
    requires forall k :: 0 <= k < |states| ==> HubTidy(states[k])
    requires after == Current(states[|states| - 1].plugins) && !Runnable(states[0].plugins, svc)
    ensures svc == Service("", "") ==> !NeedsInstall(states[0].plugins, svc)
    ensures svc.plugin != "" ==>
      ArgOf(svc) in states[0].args &&
      ParseCoordinate(ArgOf(svc)) == Ok(Parsed("a", "b", if svc.plugin == " a/b" then "" else "1"))
    ensures !AllResolve(map["s" := svc], after)
  {
    if svc.plugin != "" {
      NotServedIsParsed(svc);
    }
    NotClean(svc);
    var services := map["s" := svc];
    assert KeysTell(services);
    assert services["s"] == svc;
    PoolMakesRunnableIff(env, states, svc);
  }
}
