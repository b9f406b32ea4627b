/**
 `manifest.Update`: load, mutate and save under one lock, as the interleaved
 steps of any number of threads (internal/manifest/manifest.go:101-131).
 */
module UpdateProtocol {
  import opened Wrappers
  import opened Manifest

  /** What a caller does to the freshly loaded manifest; it may fail. */
  type Mutation = Plugins -> Result<Plugins, ()>

  datatype Phase =
    | Waiting
    | Holding
    | HasLoaded(loaded: Plugins)
    | HasMutated(mutated: Plugins)
    | Leaving(ok: bool)
    | Done(ok: bool)

  datatype State = State(
    file: File,
    lock: Option<nat>,
    mutations: seq<Mutation>,
    phases: seq<Phase>,
    committed: seq<nat>)  // the threads that saved, in the order they held the lock

  predicate WellFormed(s: State)
  {
    |s.phases| == |s.mutations|
  }

  function Moved(s: State, t: nat, phase: Phase): State
    requires t < |s.phases|
  {
    s.(phases := s.phases[t := phase])
  }

  ghost predicate Acquire(s: State, s': State, t: nat)
    requires t < |s.phases|
  {
    s.phases[t] == Waiting && s.lock == None && s' == Moved(s, t, Holding).(lock := Some(t))
  }

  /** Reading the file may fail even when it is intact. */
  ghost predicate LoadStep(s: State, s': State, t: nat)
    requires t < |s.phases|
  {
    s.phases[t] == Holding &&
    (s' == Moved(s, t, Leaving(false)) || (Load(s.file).Ok? && s' == Moved(s, t, HasLoaded(Load(s.file).value))))
  }

  ghost predicate MutateStep(s: State, s': State, t: nat)
    requires t < |s.phases| && WellFormed(s)
  {
    s.phases[t].HasLoaded? &&
    s' == match s.mutations[t](s.phases[t].loaded)
          case Ok(m) => Moved(s, t, HasMutated(m))
          case Err(_) => Moved(s, t, Leaving(false))
  }

  /** The write is atomic: it replaces the whole file or leaves it alone and fails. */
  ghost predicate SaveStep(s: State, s': State, t: nat)
    requires t < |s.phases|
  {
    s.phases[t].HasMutated? &&
    (s' == Moved(s, t, Leaving(false)) ||
     s' == Moved(s, t, Leaving(true)).(file := Current(s.phases[t].mutated), committed := s.committed + [t]))
  }

  ghost predicate Release(s: State, s': State, t: nat)
    requires t < |s.phases|
  {
    s.phases[t].Leaving? && s' == Moved(s, t, Done(s.phases[t].ok)).(lock := None)
  }

  ghost predicate StepOf(s: State, s': State, t: nat)
    requires WellFormed(s)
  {
    t < |s.phases| &&
    (Acquire(s, s', t) || LoadStep(s, s', t) || MutateStep(s, s', t) || SaveStep(s, s', t) || Release(s, s', t))
  }

  ghost predicate Step(s: State, s': State)
  {
    WellFormed(s) && exists t :: StepOf(s, s', t)
  }

  ghost predicate Init(s: State)
  {
    WellFormed(s) && s.lock == None && s.committed == [] && forall t :: 0 <= t < |s.phases| ==> s.phases[t] == Waiting
  }

  /** A run: each state follows from the one before by one thread's step. */
  ghost predicate Run(states: seq<State>)
  {
    states != [] && Init(states[0]) && forall i :: 0 <= i < |states| - 1 ==> Step(states[i], states[i + 1])
  }

  // ---------------------------------------------------------------------
  // The serial execution a run is compared with

  /** The mutations of these threads, one after the other, on what `file` holds. */
  function Replay(file: File, mutations: seq<Mutation>, order: seq<nat>): Result<Plugins, ()>
  {
    if order == [] then Load(file)
    else
      var t := order[|order| - 1];
      match Replay(file, mutations, order[..|order| - 1])
      case Err(_) => Err(())
      case Ok(m) => if t < |mutations| then mutations[t](m) else Err(())
  }

  /** The file is the serial execution of the committed threads; untouched while there are none. */
  ghost predicate Serial(file0: File, s: State)
  {
    if s.committed == [] then s.file == file0
    else s.file.Current? && Replay(file0, s.mutations, s.committed) == Ok(s.file.plugins)
  }

  ghost predicate Critical(p: Phase)
  {
    p.Holding? || p.HasLoaded? || p.HasMutated? || p.Leaving?
  }

  /** The lock, what its holder has in hand, and who has committed. */
  ghost predicate Inv(file0: File, s: State)
  {
    && WellFormed(s)
    && Serial(file0, s)
    && (forall t :: 0 <= t < |s.phases| ==> (Critical(s.phases[t]) <==> s.lock == Some(t)))
    && (forall t :: 0 <= t < |s.phases| && s.phases[t].HasLoaded? ==> Load(s.file) == Ok(s.phases[t].loaded))
    && (forall t :: 0 <= t < |s.phases| && s.phases[t].HasMutated? ==>
          Load(s.file).Ok? && s.mutations[t](Load(s.file).value) == Ok(s.phases[t].mutated))
    && (forall t :: 0 <= t < |s.phases| ==>
      (t in s.committed <==> s.phases[t] == Leaving(true) || s.phases[t] == Done(true)))
    && (forall i, j :: 0 <= i < j < |s.committed| ==> s.committed[i] != s.committed[j])
    && (forall i :: 0 <= i < |s.committed| ==> s.committed[i] < |s.phases|)
  }

  lemma SaveKeepsSerial(file0: File, s: State, s': State, t: nat)
    requires Inv(file0, s) && t < |s.phases| && SaveStep(s, s', t)
    ensures Serial(file0, s')
  {
    if s' != Moved(s, t, Leaving(false)) {
      assert s'.committed[..|s'.committed| - 1] == s.committed;
      assert Replay(file0, s.mutations, s.committed) == Load(s.file);
    }
  }

  /** Only the lock's holder is past waiting, so a step of another thread cannot happen meanwhile. */
  lemma AcquireKeepsInv(file0: File, s: State, s': State, t: nat)
    requires Inv(file0, s) && t < |s.phases| && Acquire(s, s', t)
    ensures Inv(file0, s')
  {
  }

  lemma LoadKeepsInv(file0: File, s: State, s': State, t: nat)
    requires Inv(file0, s) && t < |s.phases| && LoadStep(s, s', t)
    ensures Inv(file0, s')
  {
  }

  lemma MutateKeepsInv(file0: File, s: State, s': State, t: nat)
    requires Inv(file0, s) && t < |s.phases| && MutateStep(s, s', t)
    ensures Inv(file0, s')
  {
  }

  lemma SaveKeepsInv(file0: File, s: State, s': State, t: nat)
    requires Inv(file0, s) && t < |s.phases| && SaveStep(s, s', t)
    ensures Inv(file0, s')
  {
    SaveKeepsSerial(file0, s, s', t);
    assert Critical(s.phases[t]) && s.lock == Some(t);
    forall u | 0 <= u < |s'.phases| && u != t ensures s'.phases[u] == s.phases[u] && !Critical(s.phases[u]) {
    }
    if s' != Moved(s, t, Leaving(false)) {
      assert t !in s.committed;
    }
  }

  lemma ReleaseKeepsInv(file0: File, s: State, s': State, t: nat)
    requires Inv(file0, s) && t < |s.phases| && Release(s, s', t)
    ensures Inv(file0, s')
  {
  }

  lemma StepKeepsInv(file0: File, s: State, s': State, t: nat)
    requires Inv(file0, s) && StepOf(s, s', t)
    ensures Inv(file0, s') && s'.mutations == s.mutations
  {
    if Acquire(s, s', t) {
      AcquireKeepsInv(file0, s, s', t);
    } else if LoadStep(s, s', t) {
      LoadKeepsInv(file0, s, s', t);
    } else if MutateStep(s, s', t) {
      MutateKeepsInv(file0, s, s', t);
    } else if SaveStep(s, s', t) {
      SaveKeepsInv(file0, s, s', t);
    } else {
      ReleaseKeepsInv(file0, s, s', t);
    }
  }

  lemma {:induction false} RunKeepsInv(states: seq<State>, i: nat)
    requires Run(states) && i < |states|
    ensures Inv(states[0].file, states[i]) && states[i].mutations == states[0].mutations
  {
    if i > 0 {
      RunKeepsInv(states, i - 1);
      assert Step(states[i - 1], states[i - 1 + 1]);
      var t :| StepOf(states[i - 1], states[i], t);
      StepKeepsInv(states[0].file, states[i - 1], states[i], t);
    }
  }

  /**
   Every interleaving is serializable: at every moment the manifest on disk is
   the mutations that reported success, each exactly once, applied one after
   the other in lock order to what was on disk at first.
   */
  lemma EveryInterleavingIsSerial(states: seq<State>, i: nat)
    requires Run(states) && i < |states|
    ensures var s := states[i];
      && Serial(states[0].file, s)
      && (forall t :: 0 <= t < |s.phases| && s.phases[t].Done? ==> (s.phases[t].ok <==> t in s.committed))
      && (forall a, b :: 0 <= a < b < |s.committed| ==> s.committed[a] != s.committed[b])
  {
    RunKeepsInv(states, i);
  }

  /**
   One step, seen on disk: either nothing changes, or one thread applies its
   own mutation to what is on disk at that very moment. This is what lets the
   installer treat an update as one atomic commit.
   */
  lemma StepsAreAtomicCommits(states: seq<State>, i: nat)
    requires Run(states) && i + 1 < |states|
    ensures var s, s' := states[i], states[i + 1];
      s'.file == s.file ||
      exists t :: AtomicCommit(s, s', t)
  {
    RunKeepsInv(states, i);
    assert Step(states[i], states[i + 1]);
    var t :| StepOf(states[i], states[i + 1], t);
    if states[i + 1].file != states[i].file {
      assert AtomicCommit(states[i], states[i + 1], t);
    }
  }

  ghost predicate AtomicCommit(s: State, s': State, t: nat)
  {
    && t < |s.mutations| && Load(s.file).Ok? && s.mutations[t](Load(s.file).value).Ok?
    && s'.file == Current(s.mutations[t](Load(s.file).value).value)
    && s'.committed == s.committed + [t]
  }

  // ---------------------------------------------------------------------
  // One uncontended call

  class Disk {
    var file: File

    constructor (f: File)
      ensures file == f
    {
      file := f;
    }

    /** `readOk` and `writeOk` are what the file system will do. */
    method Update(mutate: Mutation, readOk: bool, writeOk: bool) returns (ok: bool)
      modifies this
      ensures ok <==> readOk && Load(old(file)).Ok? && mutate(Load(old(file)).value).Ok? && writeOk
      ensures ok ==> file == Current(mutate(Load(old(file)).value).value)
      ensures !ok ==> file == old(file)
    {
      var m := if readOk then Load(file) else Err(());
      if m.Err? {
        return false;
      }
      var mutated := mutate(m.value);
      if mutated.Err? {
        return false;
      }
      if writeOk {
        file := Current(mutated.value);
      }
      ok := writeOk;
    }
  }
}
