/**
 An evaluation suite: laying out the log, the evaluation loop with its
 counters and early stop, reverting at the end, and benchmark mode
 (pluginkit/evaluation_suite.go:53-335).
 What steps do, and what the evaluation library makes of their results, is given by a runner.
 */
module Suite {
  import opened Wrappers
  import opened Changes

  datatype Verdict = NotRun | Passed | Failed | NeedsReview | NotApplicable | Unknown

  datatype Outcome = Outcome(result: Verdict, message: string, confidence: int)

  /** A registered step, or the closure that times one. */
  datatype Step =
    | Plain(id: nat)
    | Timed(controlId: string, requirementId: string, index: nat, name: string, inner: Step)

  /** What a plugin registers: its own functions, not yet timed. */
  type PlainStep = step: Step | step.Plain? witness Plain(0)

  datatype StepTiming = StepTiming(controlId: string, requirementId: string, index: nat, name: string, result: Verdict)

  datatype Requirement = Requirement(id: string, recommendation: string)
  datatype Control = Control(id: string, requirements: seq<Requirement>)

  /** The log's entries; evaluating them records outcomes and results in them. */
  datatype Assessment = Assessment(requirementId: string, steps: seq<Step>, recorded: Outcome, recommendation: string)
  datatype Evaluation = Evaluation(controlId: string, assessments: seq<Assessment>, result: Verdict)

  /** The steps and their names as registered; `symbol` is the name of a step without one. */
  datatype Registered = Registered(steps: map<string, seq<PlainStep>>, names: map<string, seq<string>>,
    symbol: Step -> string) {
    /** Looking up a missing requirement gives no steps. */
    function StepsOf(requirementId: string): seq<PlainStep>
    {
      if requirementId in steps then steps[requirementId] else []
    }
  }

  // ---------------------------------------------------------------------
  // Running steps

  /** What a step does: its outcome, its effect on the world, and the calls it makes on the change manager. */
  datatype Ran = Ran(outcome: Outcome, world: nat, calls: seq<Call>)

  /** An assessment and the outcomes of its steps that were run. */
  datatype Assessed = Assessed(requirementId: string, preset: Outcome, outcomes: seq<Outcome>)

  /**
   The plugin's steps and the evaluation library. What it does with an assessment
   may depend on the assessments before it in the control: whether it applies,
   when to stop after the outcomes so far, and what is recorded of it. Then the
   verdict on a control, how verdicts add up, and the catalog's recommendations by
   requirement, which the suite looks up before it starts.
   */
  datatype Runner = Runner(
    behaviour: (Step, nat) -> Ran, applies: (seq<Assessed>, string) -> bool,
      stop: (seq<Assessed>, seq<Outcome>) -> bool,
    settle: (seq<Assessed>, Assessed) -> Outcome, verdict: seq<Assessed> -> Verdict,
      aggregate: (Verdict, Verdict) -> Verdict,
    recommendations: map<string, string>)

  datatype Exec = Exec(world: nat, calls: seq<Call>, timings: seq<StepTiming>)

  /** Calling a step; the timing closure calls the step it wraps and records it. */
  function ExecStep(r: Runner, step: Step, x: Exec): (ran: (Outcome, Exec))
    ensures x.calls <= ran.1.calls
  {
    match step
    case Plain(_) =>
      var ran := r.behaviour(step, x.world);
      (ran.outcome, x.(world := ran.world, calls := x.calls + ran.calls))
    case Timed(controlId, requirementId, index, name, inner) =>
      var (o, x') := ExecStep(r, inner, x);
      (o, x'.(timings := x'.timings + [StepTiming(controlId, requirementId, index, name, o.result)]))
  }

  /** In order, stopping when the runner says so of the assessments before and the outcomes so far. */
  function ExecSteps(
    r: Runner, earlier: seq<Assessed>, steps: seq<Step>, done: seq<Outcome>, x: Exec): (ran: (seq<Outcome>, Exec))
    ensures x.calls <= ran.1.calls
  {
    if steps == [] || r.stop(earlier, done) then ([], x)
    else
      var (o, x') := ExecStep(r, steps[0], x);
      var (rest, x'') := ExecSteps(r, earlier, steps[1..], done + [o], x');
      ([o] + rest, x'')
  }

  function ExecAssessment(r: Runner, earlier: seq<Assessed>, a: Assessment, x: Exec): (ran: (Assessed, Exec))
    ensures x.calls <= ran.1.calls
  {
    if !r.applies(earlier, a.requirementId) then (Assessed(a.requirementId, a.recorded, []), x)
    else
      var (outcomes, x') := ExecSteps(r, earlier, a.steps, [], x);
      (Assessed(a.requirementId, a.recorded, outcomes), x')
  }

  function ExecAssessments(
    r: Runner, earlier: seq<Assessed>, assessments: seq<Assessment>, x: Exec): (ran: (seq<Assessed>, Exec))
    ensures x.calls <= ran.1.calls && |ran.0| == |assessments|
    decreases assessments
  {
    if assessments == [] then ([], x)
    else
      var (first, x') := ExecAssessment(r, earlier, assessments[0], x);
      var (rest, x'') := ExecAssessments(r, earlier + [first], assessments[1..], x');
      ([first] + rest, x'')
  }

  /** What is written into the log of an evaluation whose assessments went like this. */
  function Recorded(r: Runner, e: Evaluation, assessed: seq<Assessed>): Evaluation
    requires |assessed| == |e.assessments|
  {
    Evaluation(e.controlId,
      seq(|e.assessments|, i requires 0 <= i < |e.assessments| => RecordedOne(r, e.assessments[i], assessed, i)),
      r.verdict(assessed))
  }

  function RecordedOne(r: Runner, a: Assessment, assessed: seq<Assessed>, i: nat): Assessment
    requires i < |assessed|
  {
    a.(recorded := r.settle(assessed[..i], assessed[i]),
       recommendation := if a.requirementId in r.recommendations then r.recommendations[a.requirementId]
         else a.recommendation)
  }

  function ExecEvaluation(r: Runner, e: Evaluation, x: Exec): (Evaluation, Exec)
  {
    var (assessed, x') := ExecAssessments(r, [], e.assessments, x);
    (Recorded(r, e, assessed), x')
  }

  // ---------------------------------------------------------------------
  // The log

  function StepName(reg: Registered, requirementId: string, i: nat, step: Step): string
  {
    if requirementId in reg.names && i < |reg.names[requirementId]| && reg.names[requirementId][i] != ""
    then reg.names[requirementId][i]
    else reg.symbol(step)
  }

  /** A step is called by the name registered for its place, and by its symbol without one. */
  lemma StepIsCalled(reg: Registered, requirementId: string, names: seq<string>, i: nat, step: Step)
    requires names == if requirementId in reg.names then reg.names[requirementId] else []
    ensures i < |names| && names[i] != "" ==> StepName(reg, requirementId, i, step) == names[i]
    ensures i >= |names| || names[i] == "" ==> StepName(reg, requirementId, i, step) == reg.symbol(step)
  {
  }

  function TimedSteps(reg: Registered, controlId: string, requirementId: string, steps: seq<Step>): seq<Step>
  {
    seq(|steps|,
      i requires 0 <= i < |steps| => Timed(controlId, requirementId, i, StepName(reg, requirementId, i, steps[i]),
        steps[i]))
  }

  function AssessmentOf(reg: Registered, benchmark: bool, controlId: string, req: Requirement): Assessment
  {
    var steps := reg.StepsOf(req.id);
    Assessment(req.id, if benchmark then TimedSteps(reg, controlId, req.id, steps) else steps,
               Outcome(if req.id in reg.steps then NotRun else Unknown, "", 0), "")
  }

  function EvaluationOf(reg: Registered, benchmark: bool, c: Control): Evaluation
  {
    Evaluation(c.id,
      seq(|c.requirements|,
        i requires 0 <= i < |c.requirements| => AssessmentOf(reg, benchmark, c.id, c.requirements[i])), NotRun)
  }

  /** One evaluation per control that has requirements, in order. */
  function EvalLog(reg: Registered, benchmark: bool, controls: seq<Control>): seq<Evaluation>
  {
    if controls == [] then []
    else
      var n := |controls| - 1;
      EvalLog(reg, benchmark, controls[..n]) + if controls[n].requirements ==
        [] then [] else [EvaluationOf(reg, benchmark, controls[n])]
  }

  /** The controls that have requirements. */
  function Required(controls: seq<Control>): seq<Control>
  {
    if controls == [] then []
    else
      var n := |controls| - 1;
      if controls[n].requirements == [] then Required(controls[..n]) else Required(controls[..n]) + [controls[n]]
  }

  /** An assessment before anything ran, for a requirement with these steps or with none registered. */
  predicate IsLaidOut(reg: Registered, req: Requirement, a: Assessment)
  {
    && a.requirementId == req.id && a.recommendation == ""
    && a.steps == (if req.id in reg.steps then reg.steps[req.id] else [])
    && a.recorded == Outcome(if req.id in reg.steps then NotRun else Unknown, "", 0)
  }

  /** The log as it is laid out: the controls with requirements in order, and their requirements in order. */
  lemma {:induction false} LogIsLaidOut(reg: Registered, controls: seq<Control>, k: nat)
    ensures |EvalLog(reg, false, controls)| == |Required(controls)|
    ensures k < |Required(controls)| ==>
      var c := Required(controls)[k]; var e := EvalLog(reg, false, controls)[k];
      && e.controlId == c.id && e.result == NotRun && |e.assessments| == |c.requirements|
      && forall i :: 0 <= i < |c.requirements| ==> IsLaidOut(reg, c.requirements[i], e.assessments[i])
  {
    if controls != [] {
      LogIsLaidOut(reg, controls[..|controls| - 1], k);
    }
  }

  predicate HasRequirements(controls: seq<Control>)
  {
    exists i :: 0 <= i < |controls| && controls[i].requirements != []
  }

  lemma {:induction false} EvalLogEmptyIff(reg: Registered, benchmark: bool, controls: seq<Control>)
    ensures EvalLog(reg, benchmark, controls) == [] <==> !HasRequirements(controls)
  {
    if controls != [] {
      var n := |controls| - 1;
      EvalLogEmptyIff(reg, benchmark, controls[..n]);
      if HasRequirements(controls) && controls[n].requirements == [] {
        var i :| 0 <= i < |controls| && controls[i].requirements != [];
        assert controls[..n][i].requirements != [];
      }
    }
  }

  // ---------------------------------------------------------------------
  // The loop

  /** The counters of the suite, what has been processed, and the manager when there is one. */
  datatype Tally = Tally(
    result: Verdict, successes: int, failures: int, warnings: int, processed: nat, notRun: nat, exec: Exec)

  function Counted(r: Runner, t: Tally, v: Verdict, x: Exec): Tally
  {
    Tally(r.aggregate(t.result, v),
          t.successes + (if v.Passed? then 1 else 0),
          t.failures + (if v.Failed? then 1 else 0),
          t.warnings + (if v.Passed? || v.Failed? || v.NotRun? then 0 else 1),
          t.processed + 1, t.notRun + (if v.NotRun? then 1 else 0), x)
  }

  function AfterOne(r: Runner, e: Evaluation, t: Tally): Tally
  {
    var (recorded, x) := ExecEvaluation(r, e, t.exec);
    Counted(r, t, recorded.result, x)
  }

  /** Whether the loop stops: only a corrupted manager stops it. */
  ghost predicate Stops(m: Option<Manager>, t: Tally)
  {
    m.Some? && PerformedAll(m.value, t.exec.calls).corrupted
  }

  ghost function AfterAll(r: Runner, m: Option<Manager>, evals: seq<Evaluation>, t: Tally): Tally
  {
    if evals == [] then t
    else
      var t' := AfterOne(r, evals[0], t);
      if Stops(m, t') then t' else AfterAll(r, m, evals[1..], t')
  }

  /** The log the loop leaves: what it processed is recorded, the rest is as it was laid out. */
  ghost function LogAfter(r: Runner, m: Option<Manager>, evals: seq<Evaluation>, t: Tally): seq<Evaluation>
  {
    if evals == [] then []
    else
      var t' := AfterOne(r, evals[0], t);
      [ExecEvaluation(r, evals[0], t.exec).0] + if Stops(m, t') then evals[1..] else LogAfter(r, m, evals[1..], t')
  }

  /** How far the loop has come: what is left would end as the whole does. */
  ghost predicate LoopAt(
    r: Runner, m: Option<Manager>, evals: seq<Evaluation>, start: Tally, i: nat, t: Tally, log: seq<Evaluation>)
  {
    && i <= |evals| == |log| && log[i..] == evals[i..]
    && AfterAll(r, m, evals, start) == AfterAll(r, m, evals[i..], t)
    && LogAfter(r, m, evals, start) == log[..i] + LogAfter(r, m, evals[i..], t)
  }

  lemma LoopAtStart(r: Runner, m: Option<Manager>, evals: seq<Evaluation>, start: Tally)
    ensures LoopAt(r, m, evals, start, 0, start, evals)
  {
    assert evals[..0] == [] && evals[0..] == evals;
  }

  /** The first turn of what is left. */
  lemma LoopUnfolds(r: Runner, m: Option<Manager>, evals: seq<Evaluation>, t: Tally)
    requires evals != []
    ensures var t' := AfterOne(r, evals[0], t);
      && AfterAll(r, m, evals, t) == (if Stops(m, t') then t' else AfterAll(r, m, evals[1..], t'))
      && LogAfter(r, m, evals, t) ==
           [ExecEvaluation(r, evals[0], t.exec).0] + if Stops(m, t') then evals[1..] else LogAfter(r, m, evals[1..], t')
  {
  }

  /** One turn of the loop, which writes what it recorded, takes it one further or to its end. */
  lemma LoopAtNext(
      r: Runner, m: Option<Manager>, evals: seq<Evaluation>, start: Tally, i: nat, t: Tally, log: seq<Evaluation>)
    requires i < |evals| && LoopAt(r, m, evals, start, i, t, log)
    ensures log[i] == evals[i]
    ensures var t' := AfterOne(r, evals[i], t); var log' := log[i := ExecEvaluation(r, evals[i], t.exec).0];
      if Stops(m, t') then log' == LogAfter(r, m, evals, start) && t' == AfterAll(r, m, evals, start)
      else LoopAt(r, m, evals, start, i + 1, t', log')
  {
    var t', recorded := AfterOne(r, evals[i], t), ExecEvaluation(r, evals[i], t.exec).0;
    assert log[i..][0] == evals[i..][0] && evals[i..][1..] == evals[i + 1..];
    LoopUnfolds(r, m, evals[i..], t);
    WriteAt(log, i, recorded, evals);
    if !Stops(m, t') {
      JoinAt(log[..i], recorded, LogAfter(r, m, evals[i + 1..], t'));
    }
  }

  lemma JoinAt<T>(a: seq<T>, x: T, b: seq<T>)
    ensures a + ([x] + b) == a + [x] + b
  {
  }

  lemma WriteAt<T>(log: seq<T>, i: nat, x: T, evals: seq<T>)
    requires i < |log| == |evals| && log[i..] == evals[i..]
    ensures log[i := x][..i + 1] == log[..i] + [x] && log[i := x][i + 1..] == evals[i + 1..]
    ensures log[i := x] == log[..i] + ([x] + evals[i + 1..])
  {
    forall k | i <= k < |log| ensures log[k] == evals[k] {
      assert log[i..][k - i] == evals[i..][k - i];
    }
  }

  lemma LoopAtEnd(r: Runner, m: Option<Manager>, evals: seq<Evaluation>, start: Tally, t: Tally, log: seq<Evaluation>)
    requires LoopAt(r, m, evals, start, |evals|, t, log)
    ensures log == LogAfter(r, m, evals, start) && t == AfterAll(r, m, evals, start)
  {
    assert evals[|evals|..] == [] && log[..|evals|] == log;
  }

  /** Every processed evaluation is counted once, and all are processed unless the manager became corrupted. */
  lemma {:induction false} CountersAddUp(r: Runner, m: Option<Manager>, evals: seq<Evaluation>, t: Tally)
    ensures var t' := AfterAll(r, m, evals, t);
      && (t'.successes - t.successes) + (t'.failures - t.failures) + (t'.warnings - t.warnings) + (t'.notRun - t.notRun)
         == t'.processed - t.processed
      && t'.processed <= t.processed + |evals|
      && (t'.processed < t.processed + |evals| ==> Stops(m, t'))
  {
    if evals != [] {
      var t' := AfterOne(r, evals[0], t);
      if !Stops(m, t') {
        CountersAddUp(r, m, evals[1..], t');
      }
    }
  }

  function ResultsIn(log: seq<Evaluation>, v: Verdict): nat
  {
    if log == [] then 0 else (if log[0].result == v then 1 else 0) + ResultsIn(log[1..], v)
  }

  /** The recorded results aggregated from the left. */
  function Aggregated(r: Runner, v: Verdict, log: seq<Evaluation>): Verdict
    decreases log
  {
    if log == [] then v else Aggregated(r, r.aggregate(v, log[0].result), log[1..])
  }

  /** The counters, the result and the log from tally t to t' agree: this many evaluations were processed. */
  ghost predicate LogMatches(r: Runner, evals: seq<Evaluation>, log: seq<Evaluation>, n: int, t: Tally, t': Tally)
  {
    && 0 <= n <= |evals| == |log| && t'.processed == t.processed + n && log[n..] == evals[n..]
    && t'.successes - t.successes == ResultsIn(log[..n], Passed)
    && t'.failures - t.failures == ResultsIn(log[..n], Failed)
    && t'.notRun - t.notRun == ResultsIn(log[..n], NotRun)
    && t'.result == Aggregated(r, t.result, log[..n])
  }

  lemma LogMatchesCons(
    r: Runner, evals: seq<Evaluation>, log: seq<Evaluation>, n: nat, recorded: Evaluation, t: Tally,
    x: Exec, t'': Tally)
    requires evals != [] && LogMatches(r, evals[1..], log, n, Counted(r, t, recorded.result, x), t'')
    ensures LogMatches(r, evals, [recorded] + log, n + 1, t, t'')
  {
    assert ([recorded] + log)[..n + 1][1..] == log[..n];
    assert ([recorded] + log)[n + 1..] == log[n..] && evals[n + 1..] == evals[1..][n..];
  }

  lemma MatchGoesOn(
    r: Runner, evals: seq<Evaluation>, rest: seq<Evaluation>, log: seq<Evaluation>, recorded: Evaluation, t: Tally,
    x: Exec, t': Tally, t'': Tally)
    requires evals != [] && t' == Counted(r, t, recorded.result, x) && log == [recorded] + rest
    requires LogMatches(r, evals[1..], rest, t''.processed - t'.processed, t', t'')
    ensures LogMatches(r, evals, log, t''.processed - t.processed, t, t'')
  {
    LogMatchesCons(r, evals, rest, t''.processed - t'.processed, recorded, t, x, t'');
  }

  /** The counters count the results recorded in the log; what was not processed is as it was laid out. */
  lemma {:induction false} CountersMatchLog(r: Runner, m: Option<Manager>, evals: seq<Evaluation>, t: Tally)
    ensures var t' := AfterAll(r, m, evals, t);
      LogMatches(r, evals, LogAfter(r, m, evals, t), t'.processed - t.processed, t, t')
    decreases evals
  {
    if evals == [] {
      LogMatchesItself(r, evals, t);
      return;
    }
    var recorded, x := ExecEvaluation(r, evals[0], t.exec).0, ExecEvaluation(r, evals[0], t.exec).1;
    var t' := AfterOne(r, evals[0], t);
    LoopUnfolds(r, m, evals, t);
    if Stops(m, t') {
      LogMatchesItself(r, evals[1..], t');
      MatchGoesOn(r, evals, evals[1..], LogAfter(r, m, evals, t), recorded, t, x, t', t');
    } else {
      CountersMatchLog(r, m, evals[1..], t');
      MatchGoesOn(r, evals, LogAfter(r, m, evals[1..], t'), LogAfter(r, m, evals, t), recorded, t, x, t',
        AfterAll(r, m, evals, t));
    }
  }

  /** A failure that was processed fails the suite, when failures absorb under aggregation. */
  lemma {:induction false} FailureSticks(r: Runner, v: Verdict, log: seq<Evaluation>, k: nat)
    requires forall x :: r.aggregate(Failed, x) == Failed && r.aggregate(x, Failed) == Failed
    requires v == Failed || (k < |log| && log[k].result == Failed)
    ensures Aggregated(r, v, log) == Failed
    decreases log
  {
    if log != [] {
      FailureSticks(r, r.aggregate(v, log[0].result), log[1..], if k > 0 then k - 1 else 0);
    }
  }

  lemma LogMatchesItself(r: Runner, evals: seq<Evaluation>, t: Tally)
    ensures LogMatches(r, evals, evals, 0, t, t)
  {
    assert evals[..0] == [];
  }

  /** The loop ran these evaluations one after the other, each from where the one before had left off. */
  ghost predicate RanInOrder(
    r: Runner, evals: seq<Evaluation>, log: seq<Evaluation>, execs: seq<Exec>, n: nat)
  {
    && n <= |evals| == |log| && |execs| == n + 1
    && forall k :: 0 <= k < n ==> ExecEvaluation(r, evals[k], execs[k]) == (log[k], execs[k + 1])
  }

  /** It goes on while the manager is not corrupted, and only then. */
  ghost predicate StoppedAfter(m: Option<Manager>, execs: seq<Exec>, n: nat, all: nat)
    requires |execs| == n + 1
  {
    && (forall k :: 0 < k < n && m.Some? ==> !PerformedAll(m.value, execs[k].calls).corrupted)
    && (n < all ==> n > 0 && m.Some? && PerformedAll(m.value, execs[n].calls).corrupted)
  }

  /**
   What the loop is: the evaluations in order, the world and the calls handed on,
   up to the first after which the manager is corrupted or else to the last.
   */
  lemma {:induction false} LoopRunsInOrder(r: Runner, m: Option<Manager>, evals: seq<Evaluation>, t: Tally)
      returns (execs: seq<Exec>)
    ensures var t' := AfterAll(r, m, evals, t); var n := t'.processed - t.processed;
      && n >= 0 && RanInOrder(r, evals, LogAfter(r, m, evals, t), execs, n)
      && execs[0] == t.exec && execs[n] == t'.exec && StoppedAfter(m, execs, n, |evals|)
    decreases evals
  {
    if evals == [] {
      execs := [t.exec];
      return;
    }
    var t' := AfterOne(r, evals[0], t);
    LoopUnfolds(r, m, evals, t);
    if Stops(m, t') {
      execs := [t.exec, t'.exec];
    } else {
      var rest := LoopRunsInOrder(r, m, evals[1..], t');
      execs := [t.exec] + rest;
      var n := AfterAll(r, m, evals[1..], t').processed - t'.processed;
      RanOneMore(r, evals, LogAfter(r, m, evals[1..], t'), rest, n, t.exec);
      StoppedOneLater(m, rest, n, |evals| - 1, t.exec);
    }
  }

  lemma StoppedOneLater(m: Option<Manager>, execs: seq<Exec>, n: nat, all: nat, x: Exec)
    requires |execs| == n + 1 && StoppedAfter(m, execs, n, all)
    requires m.Some? ==> !PerformedAll(m.value, execs[0].calls).corrupted
    ensures StoppedAfter(m, [x] + execs, n + 1, all + 1)
  {
    assert forall k :: 0 < k <= n + 1 ==> ([x] + execs)[k] == execs[k - 1];
  }

  lemma RanOneMore(
      r: Runner, evals: seq<Evaluation>, log: seq<Evaluation>, execs: seq<Exec>, n: nat, x: Exec)
    requires evals != [] && RanInOrder(r, evals[1..], log, execs, n) && execs[0] == ExecEvaluation(r, evals[0], x).1
    ensures RanInOrder(r, evals, [ExecEvaluation(r, evals[0], x).0] + log, [x] + execs, n + 1)
  {
    var log', execs' := [ExecEvaluation(r, evals[0], x).0] + log, [x] + execs;
    forall k | 0 <= k < n + 1 ensures ExecEvaluation(r, evals[k], execs'[k]) == (log'[k], execs'[k + 1]) {
      assert k > 0 ==> evals[k] == evals[1..][k - 1] && log'[k] == log[k - 1];
    }
  }

  /** What is recorded of an evaluation: the library's outcome for each assessment and its verdict on them all. */
  lemma EvaluationIsRecorded(r: Runner, e: Evaluation, x: Exec, i: nat)
    ensures var (assessed, x') := ExecAssessments(r, [], e.assessments, x); var (e', y) := ExecEvaluation(r, e, x);
      && y == x' && e'.controlId == e.controlId && e'.result == r.verdict(assessed)
      && |e'.assessments| == |e.assessments|
      && (i < |e.assessments| ==>
            && e'.assessments[i].requirementId == e.assessments[i].requirementId
            && e'.assessments[i].steps == e.assessments[i].steps
            && e'.assessments[i].recorded == r.settle(assessed[..i], assessed[i]))
  {
  }

  /** One assessment: none of its steps when it does not apply, and else all until the runner says stop. */
  ghost predicate AssessmentRan(r: Runner, earlier: seq<Assessed>, a: Assessment, x: Exec, done: Assessed, x': Exec)
  {
    && done.requirementId == a.requirementId && done.preset == a.recorded
    && if r.applies(earlier, a.requirementId) then (done.outcomes, x') == ExecSteps(r, earlier, a.steps, [], x)
       else done.outcomes == [] && x' == x
  }

  /** The assessments of an evaluation run in order, each knowing how those before it went. */
  lemma {:induction false} AssessmentsRunInOrder(
      r: Runner, earlier: seq<Assessed>, assessments: seq<Assessment>, x: Exec) returns (execs: seq<Exec>)
    ensures var (assessed, y) := ExecAssessments(r, earlier, assessments, x);
      && |execs| == |assessments| + 1 && execs[0] == x && execs[|assessments|] == y
      && forall i :: 0 <= i < |assessments| ==>
        AssessmentRan(r, earlier + assessed[..i], assessments[i], execs[i], assessed[i], execs[i + 1])
    decreases assessments
  {
    if assessments == [] {
      execs := [x];
    } else {
      ExecAssessmentsUnfolds(r, earlier, assessments, x);
      var (first, x') := ExecAssessment(r, earlier, assessments[0], x);
      var (rest, y) := ExecAssessments(r, earlier + [first], assessments[1..], x');
      var later := AssessmentsRunInOrder(r, earlier + [first], assessments[1..], x');
      execs := [x] + later;
      var all := [first] + rest;
      assert earlier + all[..0] == earlier;
      forall i | 0 < i < |assessments|
        ensures AssessmentRan(r, earlier + all[..i], assessments[i], execs[i], all[i], execs[i + 1])
      {
        assert all[..i] == [first] + rest[..i - 1];
        assert earlier + all[..i] == earlier + [first] + rest[..i - 1];
        assert assessments[i] == assessments[1..][i - 1] && all[i] == rest[i - 1];
        assert execs[i] == later[i - 1] && execs[i + 1] == later[i];
      }
    }
  }

  /** Steps run one after the other, each in the world the one before left, until the runner says stop. */
  ghost predicate StepsRan(
    r: Runner, earlier: seq<Assessed>, steps: seq<PlainStep>, done: seq<Outcome>, outcomes: seq<Outcome>,
    worlds: seq<nat>)
  {
    && |outcomes| <= |steps| && |worlds| == |outcomes| + 1
    && (forall k :: 0 <= k < |outcomes| ==>
          && !r.stop(earlier, done + outcomes[..k])
          && r.behaviour(steps[k], worlds[k]).outcome == outcomes[k]
          && r.behaviour(steps[k], worlds[k]).world == worlds[k + 1])
    && (|outcomes| < |steps| ==> r.stop(earlier, done + outcomes))
  }

  function CallsOf(r: Runner, steps: seq<PlainStep>, worlds: seq<nat>): seq<Call>
  {
    if steps == [] || |worlds| < 2 then []
    else r.behaviour(steps[0], worlds[0]).calls + CallsOf(r, steps[1..], worlds[1..])
  }

  lemma {:induction false} StepsRunInOrder(
      r: Runner, earlier: seq<Assessed>, steps: seq<PlainStep>, done: seq<Outcome>, x: Exec)
      returns (worlds: seq<nat>)
    ensures var (outcomes, y) := ExecSteps(r, earlier, steps, done, x);
      && StepsRan(r, earlier, steps, done, outcomes, worlds) && worlds[0] == x.world && worlds[|outcomes|] == y.world
      && y.calls == x.calls + CallsOf(r, steps, worlds) && y.timings == x.timings
    decreases steps
  {
    if steps == [] || r.stop(earlier, done) {
      worlds := [x.world];
      assert done + [] == done;
    } else {
      ExecStepsUnfolds(r, earlier, steps, done, x);
      var (o, x') := ExecStep(r, steps[0], x);
      var rest := StepsRunInOrder(r, earlier, steps[1..], done + [o], x');
      worlds := [x.world] + rest;
      var (outcomes, y) := ExecSteps(r, earlier, steps[1..], done + [o], x');
      OneMoreStepRan(r, earlier, steps, done, o, outcomes, x.world, rest);
      assert worlds[1..] == rest;
      var first := r.behaviour(steps[0], x.world).calls;
      assert x.calls + first + CallsOf(r, steps[1..], rest) == x.calls + (first + CallsOf(r, steps[1..], rest));
    }
  }

  lemma OneMoreStepRan(
      r: Runner, earlier: seq<Assessed>, steps: seq<PlainStep>, done: seq<Outcome>, o: Outcome,
      outcomes: seq<Outcome>, world: nat, worlds: seq<nat>)
    requires steps != [] && !r.stop(earlier, done) && StepsRan(r, earlier, steps[1..], done + [o], outcomes, worlds)
    requires r.behaviour(steps[0], world).outcome == o && r.behaviour(steps[0], world).world == worlds[0]
    ensures StepsRan(r, earlier, steps, done, [o] + outcomes, [world] + worlds)
  {
    var all := [o] + outcomes;
    assert done + all[..0] == done;
    forall k | 0 < k <= |all| ensures done + all[..k] == done + [o] + outcomes[..k - 1] {
    }
    assert all[..|all|] == all && outcomes[..|outcomes|] == outcomes;
    assert done + [o] + outcomes == done + all;
    forall k | 0 <= k < |all|
      ensures !r.stop(earlier, done + all[..k]) && r.behaviour(steps[k], ([world] + worlds)[k]).outcome == all[k]
      ensures r.behaviour(steps[k], ([world] + worlds)[k]).world == ([world] + worlds)[k + 1]
    {
      if k > 0 {
        assert steps[k] == steps[1..][k - 1] && ([world] + worlds)[k] == worlds[k - 1] && all[k] == outcomes[k - 1];
      }
    }
  }

  // ---------------------------------------------------------------------
  // Benchmark mode

  function Instrument(reg: Registered, e: Evaluation): Evaluation
  {
    Evaluation(e.controlId,
      seq(|e.assessments|, i requires 0 <= i < |e.assessments| => InstrumentOne(reg, e.controlId, e.assessments[i])),
        e.result)
  }

  function InstrumentOne(reg: Registered, controlId: string, a: Assessment): Assessment
  {
    a.(steps := TimedSteps(reg, controlId, a.requirementId, a.steps))
  }

  /** Every assessment has the steps registered for its requirement. */
  predicate Original(reg: Registered, e: Evaluation)
  {
    forall i :: 0 <= i < |e.assessments| ==> e.assessments[i].steps == reg.StepsOf(e.assessments[i].requirementId)
  }

  lemma {:induction false} BenchmarkLogIsInstrumented(reg: Registered, controls: seq<Control>)
    ensures |EvalLog(reg, true, controls)| == |EvalLog(reg, false, controls)|
    ensures forall i :: 0 <= i < |EvalLog(reg, false, controls)| ==>
      && Original(reg, EvalLog(reg, false, controls)[i])
      && EvalLog(reg, true, controls)[i] == Instrument(reg, EvalLog(reg, false, controls)[i])
  {
    if controls != [] {
      var n := |controls| - 1;
      BenchmarkLogIsInstrumented(reg, controls[..n]);
      assert EvaluationOf(reg, true, controls[n]) == Instrument(reg, EvaluationOf(reg, false, controls[n]));
    }
  }

  /** The same run but for what has been timed. */
  ghost predicate SameButTimings(x: Exec, y: Exec)
  {
    x.world == y.world && x.calls == y.calls
  }

  function TimingOf(
    reg: Registered, controlId: string, requirementId: string, i: nat, step: Step, o: Outcome): StepTiming
  {
    StepTiming(controlId, requirementId, i, StepName(reg, requirementId, i, step), o.result)
  }

  /** The timings due for the steps that gave these outcomes, the first of them at index `i`. */
  function Timings(
    reg: Registered, controlId: string, requirementId: string, steps: seq<Step>, outcomes: seq<Outcome>,
    i: nat): seq<StepTiming>
    requires |outcomes| <= |steps|
  {
    if outcomes == [] then []
    else
      [TimingOf(reg, controlId, requirementId, i, steps[0], outcomes[0])]
      + Timings(reg, controlId, requirementId, steps[1..], outcomes[1..], i + 1)
  }

  predicate TimedFrom(
    reg: Registered, controlId: string, requirementId: string, steps: seq<Step>, timed: seq<Step>, i: nat)
  {
    && |timed| == |steps|
    && (forall k :: 0 <= k < |steps| ==> steps[k].Plain?)
    && forall k :: 0 <= k < |steps| ==>
      timed[k] == Timed(controlId, requirementId, i + k, StepName(reg, requirementId, i + k, steps[k]), steps[k])
  }

  lemma StepRunsAlike(
      r: Runner, reg: Registered, controlId: string, requirementId: string, step: Step, i: nat, x: Exec, y: Exec)
    requires step.Plain? && SameButTimings(x, y)
    ensures var (o, x') := ExecStep(r, step, x);
      var (p, y') := ExecStep(r, Timed(controlId, requirementId, i, StepName(reg, requirementId, i, step), step), y);
      && o == p && SameButTimings(x', y') && x'.timings == x.timings
      && y'.timings == y.timings + [TimingOf(reg, controlId, requirementId, i, step, o)]
  {
    var inner := ExecStep(r, step, y);
    assert ExecStep(r, Timed(controlId, requirementId, i, StepName(reg, requirementId, i, step), step), y).0 == inner.0;
  }

  /** Two runs of steps that differ in what was timed alone, the second timing what the first ran. */
  ghost predicate StepsAlike(
    reg: Registered, controlId: string, requirementId: string, steps: seq<Step>, i: nat,
    x: Exec, ran: (seq<Outcome>, Exec), y: Exec, timedRan: (seq<Outcome>, Exec))
  {
    && ran.0 == timedRan.0 && |ran.0| <= |steps| && SameButTimings(ran.1, timedRan.1) && ran.1.timings == x.timings
    && timedRan.1.timings == y.timings + Timings(reg, controlId, requirementId, steps, ran.0, i)
  }

  lemma OneMoreStepAlike(
    reg: Registered, controlId: string, requirementId: string, steps: seq<Step>, i: nat, x: Exec, y: Exec,
    o: Outcome, x': Exec, y': Exec, ran: (seq<Outcome>, Exec), timedRan: (seq<Outcome>, Exec))
    requires steps != [] && x'.timings == x.timings
    requires y'.timings == y.timings + [TimingOf(reg, controlId, requirementId, i, steps[0], o)]
    requires StepsAlike(reg, controlId, requirementId, steps[1..], i + 1, x', ran, y', timedRan)
    ensures StepsAlike(reg, controlId, requirementId, steps, i, x, ([o] + ran.0, ran.1), y,
      ([o] + timedRan.0, timedRan.1))
  {
    assert ([o] + ran.0)[1..] == ran.0;
    var a, b := [TimingOf(reg, controlId, requirementId, i, steps[0], o)],
      Timings(reg, controlId, requirementId, steps[1..], ran.0, i + 1);
    assert (y.timings + a) + b == y.timings + (a + b);
  }

  lemma ExecStepsUnfolds(r: Runner, earlier: seq<Assessed>, steps: seq<Step>, done: seq<Outcome>, x: Exec)
    requires steps != [] && !r.stop(earlier, done)
    ensures var (o, x') := ExecStep(r, steps[0], x);
      var ran := ExecSteps(r, earlier, steps[1..], done + [o], x');
      ExecSteps(r, earlier, steps, done, x) == ([o] + ran.0, ran.1)
  {
  }

  lemma {:induction false} TimedStepsRunAlike(
    r: Runner, earlier: seq<Assessed>, reg: Registered, controlId: string, requirementId: string, steps: seq<Step>,
    timed: seq<Step>, i: nat, done: seq<Outcome>, x: Exec, y: Exec)
    requires TimedFrom(reg, controlId, requirementId, steps, timed, i) && SameButTimings(x, y)
    ensures StepsAlike(reg, controlId, requirementId, steps, i,
      x, ExecSteps(r, earlier, steps, done, x), y, ExecSteps(r, earlier, timed, done, y))
    decreases steps
  {
    if steps != [] && !r.stop(earlier, done) {
      StepRunsAlike(r, reg, controlId, requirementId, steps[0], i, x, y);
      var (o, x') := ExecStep(r, steps[0], x);
      var (_, y') := ExecStep(r, timed[0], y);
      TimedStepsRunAlike(r, earlier, reg, controlId, requirementId, steps[1..], timed[1..], i + 1, done + [o], x', y');
      OneMoreStepAlike(reg, controlId, requirementId, steps, i, x, y, o, x', y',
        ExecSteps(r, earlier, steps[1..], done + [o], x'), ExecSteps(r, earlier, timed[1..], done + [o], y'));
      ExecStepsUnfolds(r, earlier, steps, done, x);
      ExecStepsUnfolds(r, earlier, timed, done, y);
    }
  }

  /** The timings due for an assessment: one per outcome, when it ran no more steps than it has. */
  function TimingsOf(reg: Registered, controlId: string, a: Assessed): seq<StepTiming>
  {
    var steps := reg.StepsOf(a.requirementId);
    if |a.outcomes| <= |steps| then Timings(reg, controlId, a.requirementId, steps, a.outcomes, 0) else []
  }

  function TimingsOfAll(reg: Registered, controlId: string, assessed: seq<Assessed>): seq<StepTiming>
  {
    if assessed == [] then [] else TimingsOf(reg, controlId, assessed[0]) + TimingsOfAll(reg, controlId, assessed[1..])
  }

  lemma AssessmentRunsAlike(
      r: Runner, earlier: seq<Assessed>, reg: Registered, controlId: string, a: Assessment, x: Exec, y: Exec)
    requires a.steps == reg.StepsOf(a.requirementId) && SameButTimings(x, y)
    ensures var (o, x') := ExecAssessment(r, earlier, a, x);
      var (p, y') := ExecAssessment(r, earlier, InstrumentOne(reg, controlId, a), y);
      && o == p && SameButTimings(x', y') && x'.timings == x.timings
      && |o.outcomes| <= |a.steps| && o.requirementId == a.requirementId
      && y'.timings == y.timings + TimingsOf(reg, controlId, o)
  {
    var timed := TimedSteps(reg, controlId, a.requirementId, a.steps);
    TimedStepsRunAlike(r, earlier, reg, controlId, a.requirementId, a.steps, timed, 0, [], x, y);
    if !r.applies(earlier, a.requirementId) {
      assert y.timings == y.timings + [];
    }
  }

  /** Assessments with their registered steps, and the same assessments timed. */
  predicate InstrumentedAssessments(reg: Registered, controlId: string, plain: seq<Assessment>, timed: seq<Assessment>)
  {
    && |timed| == |plain|
    && forall i :: 0 <= i < |plain| ==>
      plain[i].steps == reg.StepsOf(plain[i].requirementId) && timed[i] == InstrumentOne(reg, controlId, plain[i])
  }

  /** Two runs of assessments that differ in what was timed alone, the second timing what the first ran. */
  ghost predicate RunsAlike(
    reg: Registered, controlId: string, x: Exec, ran: (seq<Assessed>, Exec), y: Exec, timedRan: (seq<Assessed>, Exec))
  {
    && ran.0 == timedRan.0 && SameButTimings(ran.1, timedRan.1) && ran.1.timings == x.timings
    && timedRan.1.timings == y.timings + TimingsOfAll(reg, controlId, ran.0)
  }

  lemma OneMoreRunsAlike(
    reg: Registered, controlId: string, x: Exec, y: Exec, first: Assessed, x': Exec, y': Exec,
    ran: (seq<Assessed>, Exec), timedRan: (seq<Assessed>, Exec))
    requires x'.timings == x.timings && y'.timings == y.timings + TimingsOf(reg, controlId, first)
    requires RunsAlike(reg, controlId, x', ran, y', timedRan)
    ensures RunsAlike(reg, controlId, x, ([first] + ran.0, ran.1), y, ([first] + timedRan.0, timedRan.1))
  {
    assert ([first] + ran.0)[1..] == ran.0;
    var a, b := TimingsOf(reg, controlId, first), TimingsOfAll(reg, controlId, ran.0);
    assert (y.timings + a) + b == y.timings + (a + b);
  }

  lemma ExecAssessmentsUnfolds(r: Runner, earlier: seq<Assessed>, assessments: seq<Assessment>, x: Exec)
    requires assessments != []
    ensures var (first, x') := ExecAssessment(r, earlier, assessments[0], x);
      var ran := ExecAssessments(r, earlier + [first], assessments[1..], x');
      ExecAssessments(r, earlier, assessments, x) == ([first] + ran.0, ran.1)
  {
  }

  lemma {:induction false} AssessmentsRunAlike(
    r: Runner, earlier: seq<Assessed>, reg: Registered, controlId: string, plain: seq<Assessment>,
    timed: seq<Assessment>, x: Exec, y: Exec)
    requires InstrumentedAssessments(reg, controlId, plain, timed) && SameButTimings(x, y)
    ensures RunsAlike(reg, controlId, x, ExecAssessments(r, earlier, plain, x), y,
      ExecAssessments(r, earlier, timed, y))
    decreases plain
  {
    if plain != [] {
      AssessmentRunsAlike(r, earlier, reg, controlId, plain[0], x, y);
      var (first, x') := ExecAssessment(r, earlier, plain[0], x);
      var (_, y') := ExecAssessment(r, earlier, timed[0], y);
      AssessmentsRunAlike(r, earlier + [first], reg, controlId, plain[1..], timed[1..], x', y');
      OneMoreRunsAlike(reg, controlId, x, y, first, x', y',
        ExecAssessments(r, earlier + [first], plain[1..], x'), ExecAssessments(r, earlier + [first], timed[1..], y'));
      ExecAssessmentsUnfolds(r, earlier, plain, x);
      ExecAssessmentsUnfolds(r, earlier, timed, y);
    }
  }

  /** The timings due for one evaluation. */
  function TimingsDue(r: Runner, reg: Registered, e: Evaluation, x: Exec): seq<StepTiming>
  {
    TimingsOfAll(reg, e.controlId, ExecAssessments(r, [], e.assessments, x).0)
  }

  /** The timings due for the evaluations the plain loop processes, in order. */
  ghost function LoopTimings(
    r: Runner, reg: Registered, m: Option<Manager>, evals: seq<Evaluation>, t: Tally): seq<StepTiming>
  {
    if evals == [] then []
    else
      var t' := AfterOne(r, evals[0], t);
      TimingsDue(r, reg, evals[0], t.exec) + if Stops(m, t') then [] else LoopTimings(r, reg, m, evals[1..], t')
  }

  /** Two tallies that differ in their timings alone. */
  ghost predicate TalliesAlike(t: Tally, u: Tally)
  {
    SameButTimings(t.exec, u.exec) && u == t.(exec := u.exec)
  }

  predicate InstrumentedLog(reg: Registered, evals: seq<Evaluation>, timed: seq<Evaluation>)
  {
    && |timed| == |evals|
    && forall i :: 0 <= i < |evals| ==> Original(reg, evals[i]) && timed[i] == Instrument(reg, evals[i])
  }

  /** What is recorded of assessments that went alike is alike. */
  lemma RecordedAlike(r: Runner, reg: Registered, e: Evaluation, assessed: seq<Assessed>)
    requires Original(reg, e) && |assessed| == |e.assessments|
    ensures Original(reg, Recorded(r, e, assessed))
    ensures Recorded(r, Instrument(reg, e), assessed) == Instrument(reg, Recorded(r, e, assessed))
  {
    var a, b := Recorded(r, Instrument(reg, e), assessed), Instrument(reg, Recorded(r, e, assessed));
    forall i | 0 <= i < |e.assessments| ensures a.assessments[i] == b.assessments[i] {
    }
    assert a.assessments == b.assessments;
  }

  lemma StopsAlike(m: Option<Manager>, t: Tally, u: Tally)
    requires TalliesAlike(t, u)
    ensures Stops(m, t) <==> Stops(m, u)
  {
  }

  /** From tallies t and u on, one run came to t' and another to u', which has timed this besides. */
  ghost predicate EndAlike(t: Tally, u: Tally, t': Tally, u': Tally, due: seq<StepTiming>)
  {
    TalliesAlike(t', u') && t'.exec.timings == t.exec.timings && u'.exec.timings == u.exec.timings + due
  }

  lemma EndAlikeInTwo(
      t: Tally, u: Tally, t1: Tally, u1: Tally, due1: seq<StepTiming>, t2: Tally, u2: Tally, due2: seq<StepTiming>)
    requires EndAlike(t, u, t1, u1, due1) && EndAlike(t1, u1, t2, u2, due2)
    ensures EndAlike(t, u, t2, u2, due1 + due2)
  {
    assert (u.exec.timings + due1) + due2 == u.exec.timings + (due1 + due2);
  }

  lemma OneRunsAlike(r: Runner, reg: Registered, e: Evaluation, t: Tally, u: Tally)
    requires Original(reg, e) && TalliesAlike(t, u)
    ensures EndAlike(t, u, AfterOne(r, e, t), AfterOne(r, Instrument(reg, e), u), TimingsDue(r, reg, e, t.exec))
    ensures var plain := ExecEvaluation(r, e, t.exec).0;
      Original(reg, plain) && ExecEvaluation(r, Instrument(reg, e), u.exec).0 == Instrument(reg, plain)
  {
    AssessmentsRunAlike(r, [], reg, e.controlId, e.assessments, Instrument(reg, e).assessments, t.exec, u.exec);
    RecordedAlike(r, reg, e, ExecAssessments(r, [], e.assessments, t.exec).0);
  }

  lemma LoopTimingsUnfold(r: Runner, reg: Registered, m: Option<Manager>, evals: seq<Evaluation>, t: Tally)
    requires evals != []
    ensures var t' := AfterOne(r, evals[0], t);
      LoopTimings(r, reg, m, evals, t) ==
        TimingsDue(r, reg, evals[0], t.exec) + if Stops(m, t') then [] else LoopTimings(r, reg, m, evals[1..], t')
  {
  }

  /** The plain loop and the timed one end alike, and the timed one has timed what the plain one ran. */
  lemma {:induction false} LoopRunsAlike(
    r: Runner, reg: Registered, m: Option<Manager>, evals: seq<Evaluation>, timed: seq<Evaluation>, t: Tally, u: Tally)
    requires InstrumentedLog(reg, evals, timed) && TalliesAlike(t, u)
    ensures EndAlike(t, u, AfterAll(r, m, evals, t), AfterAll(r, m, timed, u), LoopTimings(r, reg, m, evals, t))
    decreases evals
  {
    if evals != [] {
      var t', u' := AfterOne(r, evals[0], t), AfterOne(r, timed[0], u);
      var due := TimingsDue(r, reg, evals[0], t.exec);
      OneRunsAlike(r, reg, evals[0], t, u);
      StopsAlike(m, t', u');
      LoopUnfolds(r, m, evals, t);
      LoopUnfolds(r, m, timed, u);
      LoopTimingsUnfold(r, reg, m, evals, t);
      if Stops(m, t') {
        assert due + [] == due;
      } else {
        LoopRunsAlike(r, reg, m, evals[1..], timed[1..], t', u');
        EndAlikeInTwo(t, u, t', u', due, AfterAll(r, m, evals[1..], t'), AfterAll(r, m, timed[1..], u'),
          LoopTimings(r, reg, m, evals[1..], t'));
      }
    }
  }

  lemma InstrumentedCons(reg: Registered, e: Evaluation, evals: seq<Evaluation>, timed: seq<Evaluation>)
    requires Original(reg, e) && InstrumentedLog(reg, evals, timed)
    ensures InstrumentedLog(reg, [e] + evals, [Instrument(reg, e)] + timed)
  {
  }

  lemma InstrumentedTail(reg: Registered, evals: seq<Evaluation>, timed: seq<Evaluation>)
    requires InstrumentedLog(reg, evals, timed) && evals != []
    ensures InstrumentedLog(reg, evals[1..], timed[1..])
  {
  }

  /** And the logs they leave differ in the steps alone. */
  lemma {:induction false} LogsAlike(
    r: Runner, reg: Registered, m: Option<Manager>, evals: seq<Evaluation>, timed: seq<Evaluation>, t: Tally, u: Tally)
    requires InstrumentedLog(reg, evals, timed) && TalliesAlike(t, u)
    ensures InstrumentedLog(reg, LogAfter(r, m, evals, t), LogAfter(r, m, timed, u))
    decreases evals
  {
    if evals != [] {
      var t', u' := AfterOne(r, evals[0], t), AfterOne(r, timed[0], u);
      OneRunsAlike(r, reg, evals[0], t, u);
      StopsAlike(m, t', u');
      LoopUnfolds(r, m, evals, t);
      LoopUnfolds(r, m, timed, u);
      InstrumentedTail(reg, evals, timed);
      var plain := ExecEvaluation(r, evals[0], t.exec).0;
      if Stops(m, t') {
        InstrumentedCons(reg, plain, evals[1..], timed[1..]);
      } else {
        LogsAlike(r, reg, m, evals[1..], timed[1..], t', u');
        InstrumentedCons(reg, plain, LogAfter(r, m, evals[1..], t'), LogAfter(r, m, timed[1..], u'));
      }
    }
  }

  /** The log with every step put back. */
  function RestoredAll(reg: Registered, log: seq<Evaluation>): seq<Evaluation>
  {
    seq(|log|, i requires 0 <= i < |log| => Restored(reg, log[i]))
  }

  lemma RestoreUndoesBenchmark(reg: Registered, evals: seq<Evaluation>, timed: seq<Evaluation>)
    requires InstrumentedLog(reg, evals, timed)
    ensures RestoredAll(reg, timed) == evals
  {
    forall i | 0 <= i < |evals| ensures RestoredAll(reg, timed)[i] == evals[i] {
      RestoreUndoesInstrument(reg, evals[i]);
    }
  }

  /**
   Benchmark mode preserves meaning: over the whole loop, for every plugin and
   every runner, the same results, counters, effects and manager calls, exactly
   one timing more per step run, in the order they ran, and, with the steps put
   back, the same log with the same recorded outcomes.
   */
  lemma BenchmarkPreservesMeaning(r: Runner, reg: Registered, m: Option<Manager>, controls: seq<Control>, t: Tally)
    ensures var t', u' := AfterAll(r, m, EvalLog(reg, false, controls), t),
      AfterAll(r, m, EvalLog(reg, true, controls), t);
      && var due := LoopTimings(r, reg, m, EvalLog(reg, false, controls), t);
      && u' == t'.(exec := t'.exec.(timings := t.exec.timings + due))
      && t'.exec.timings == t.exec.timings
    ensures RestoredAll(reg, LogAfter(r, m, EvalLog(reg, true, controls), t)) ==
      LogAfter(r, m, EvalLog(reg, false, controls), t)
  {
    BenchmarkLogIsInstrumented(reg, controls);
    LoopRunsAlike(r, reg, m, EvalLog(reg, false, controls), EvalLog(reg, true, controls), t, t);
    RestoredLog(r, reg, m, controls, t);
  }

  /** After restoring, the log with all that was recorded in it is the one without benchmark mode. */
  lemma RestoredLog(r: Runner, reg: Registered, m: Option<Manager>, controls: seq<Control>, t: Tally)
    ensures RestoredAll(reg, LogAfter(r, m, EvalLog(reg, true, controls), t)) ==
      LogAfter(r, m, EvalLog(reg, false, controls), t)
  {
    BenchmarkLogIsInstrumented(reg, controls);
    LogsAlike(r, reg, m, EvalLog(reg, false, controls), EvalLog(reg, true, controls), t, t);
    RestoreUndoesBenchmark(reg, LogAfter(r, m, EvalLog(reg, false, controls), t),
      LogAfter(r, m, EvalLog(reg, true, controls), t));
  }

  lemma RestoredEither(
      r: Runner, reg: Registered, m: Option<Manager>, benchmark: bool, controls: seq<Control>, t: Tally)
    ensures var log := LogAfter(r, m, EvalLog(reg, benchmark, controls), t);
      (if benchmark then RestoredAll(reg, log) else log) == LogAfter(r, m, EvalLog(reg, false, controls), t)
  {
    if benchmark {
      RestoredLog(r, reg, m, controls, t);
    }
  }

  // ---------------------------------------------------------------------
  // The suite

  datatype Error = ConfigNotInitialized | BadRequirements | BadLog | Crashed | CorruptionFound

  datatype Config = Config(benchmark: bool, invasive: bool)

  /** The calls of a run, put one after another. */
  lemma {:induction false} PerformedInTwo(m: Manager, a: seq<Call>, b: seq<Call>)
    ensures PerformedAll(PerformedAll(m, a), b) == PerformedAll(m, a + b)
  {
    if b == [] {
      assert a + b == a;
    } else {
      var n := |b| - 1;
      PerformedInTwo(m, a, b[..n]);
      assert (a + b)[..|a + b| - 1] == a + b[..n];
    }
  }

  /** The restored steps of an evaluation. */
  function Restored(reg: Registered, e: Evaluation): Evaluation
  {
    Evaluation(e.controlId, seq(|e.assessments|, i requires 0 <= i < |e.assessments| =>
      e.assessments[i].(steps := reg.StepsOf(e.assessments[i].requirementId))), e.result)
  }

  lemma RestoreUndoesInstrument(reg: Registered, e: Evaluation)
    requires Original(reg, e)
    ensures Restored(reg, Instrument(reg, e)) == e
  {
    assert |Restored(reg, Instrument(reg, e)).assessments| == |e.assessments|;
    forall i | 0 <= i < |e.assessments| ensures Restored(reg, Instrument(reg, e)).assessments[i] == e.assessments[i] {
    }
  }

  class EvaluationSuite {
    var config: Option<Config>
    const controls: seq<Control>
    const registered: Registered
    var changeManager: ChangeManager?
    var log: seq<Evaluation>
    var result: Verdict
    var corrupted: bool
    var successes: int
    var failures: int
    var warnings: int
    var timings: seq<StepTiming>

    constructor (config: Option<Config>, controls: seq<Control>, registered: Registered)
      ensures this.config == config && this.controls == controls && this.registered == registered
      ensures changeManager == null
      ensures Counters(0, []) == Tally(NotRun, 0, 0, 0, 0, 0, Exec(0, [], [])) && !corrupted && log == []
    {
      this.config, this.controls, this.registered, changeManager, log := config, controls, registered, null, [];
      result, corrupted, successes, failures, warnings, timings := NotRun, false, 0, 0, 0, [];
    }

    /** Only an invasive configuration attaches the manager, and attaching it allows changes. */
    method AddChangeManager(cm: ChangeManager?)
      requires config.Some? && (cm != null ==> cm.Valid())
      modifies this`changeManager, cm
      ensures changeManager == if config.value.invasive && cm != null then cm else old(changeManager)
      ensures cm != null ==>
        cm.Valid() && cm.View() == if config.value.invasive then Performed(old(cm.View()), Allow) else old(cm.View())
    {
      if config.value.invasive && cm != null {
        changeManager := cm;
        changeManager.AllowChanges();
      }
    }

    /** The fields the loop updates, which a second evaluation finds as the first left them. */
    function Counters(world: nat, calls: seq<Call>): Tally
      reads this`result, this`successes, this`failures, this`warnings, this`timings
    {
      Tally(result, successes, failures, warnings, 0, 0, Exec(world, calls, timings))
    }

    method SetupEvalLog() returns (evalLog: Result<seq<Evaluation>, Error>)
      ensures evalLog.Err? <==> registered.steps == map[] || !HasRequirements(controls)
      ensures evalLog.Ok? ==> evalLog.value == EvalLog(registered, config.Some? && config.value.benchmark, controls)
    {
      if |registered.steps| == 0 {
        return Err(BadLog);
      }
      if |controls| == 0 {
        return Err(Crashed);
      }
      var reqsFound, evaluations := false, [];
      ghost var benchmark := config.Some? && config.value.benchmark;
      for i := 0 to |controls|
        invariant reqsFound <==> HasRequirements(controls[..i])
        invariant evaluations == EvalLog(registered, benchmark, controls[..i])
      {
        assert controls[..i + 1][..i] == controls[..i];
        var control := controls[i];
        FoundSoFar(controls, i);
        if |control.requirements| == 0 {
          continue;
        }
        reqsFound := true;
        var assessments := [];
        for j := 0 to |control.requirements|
          invariant |assessments| == j
          invariant forall k :: 0 <= k < j ==>
            assessments[k] == AssessmentOf(registered, benchmark, control.id, control.requirements[k])
        {
          var requirement := control.requirements[j];
          var reqSteps := registered.StepsOf(requirement.id);
          if config.Some? && config.value.benchmark {
            reqSteps := TimedSteps(registered, control.id, requirement.id, reqSteps);
          }
          var assessment := Assessment(requirement.id, reqSteps, Outcome(NotRun, "", 0), "");
          if requirement.id !in registered.steps {
            assessment := assessment.(recorded := assessment.recorded.(result := Unknown));
          }
          assessments := assessments + [assessment];
        }
        assert assessments == EvaluationOf(registered, benchmark, control).assessments;
        evaluations := evaluations + [Evaluation(control.id, assessments, NotRun)];
      }
      assert controls[..|controls|] == controls;
      if !reqsFound {
        return Err(Crashed);
      }
      evalLog := Ok(evaluations);
    }

    method RestoreSteps()
      modifies this`log
      ensures log == if config.Some? && config.value.benchmark then RestoredAll(registered, old(log)) else old(log)
    {
      if config.None? || !config.value.benchmark {
        return;
      }
      for i := 0 to |log|
        invariant |log| == |old(log)|
        invariant forall k :: 0 <= k < |log| ==>
          log[k] == if k < i then Restored(registered, old(log)[k]) else old(log)[k]
      {
        var assessments := log[i].assessments;
        for j := 0 to |assessments|
          invariant |assessments| == |log[i].assessments|
          invariant forall k :: 0 <= k < |assessments| ==>
            assessments[k] == if k < j then Restored(registered, log[i]).assessments[k] else log[i].assessments[k]
        {
          assessments := assessments[j := assessments[j].(steps := registered.StepsOf(assessments[j].requirementId))];
        }
        assert assessments == Restored(registered, log[i]).assessments;
        log := log[i := log[i].(assessments := assessments)];
      }
      assert log == RestoredAll(registered, old(log));
    }

    // -------------------------------------------------------------------
    // Evaluating

    ghost function Parts(): set<object>
      reads this`changeManager, changeManager
    {
      if changeManager == null then {} else {changeManager} + changeManager.changes.Values
    }

    /** The counters stand at this tally. */
    ghost predicate At(t: Tally)
      reads this`result, this`successes, this`failures, this`warnings, this`timings
    {
      && result == t.result && successes == t.successes && failures == t.failures && warnings == t.warnings
      && timings == t.exec.timings
    }

    /** The manager, if there is one, has come this far. */
    ghost predicate ManagerAt(m: Option<Manager>, calls: seq<Call>)
      reads this`changeManager, Parts()
    {
      if changeManager == null then m.None?
      else m.Some? && changeManager.Valid() && changeManager.View() == PerformedAll(m.value, calls)
    }

    /** The calls the steps of one evaluation made. */
    method CallManager(calls: seq<Call>, ghost before: seq<Call>, ghost m: Option<Manager>)
      requires ManagerAt(m, before)
      modifies Parts()
      ensures ManagerAt(m, before + calls) && fresh(Parts() - old(Parts()))
    {
      if changeManager != null {
        PerformedInTwo(m.value, before, calls);
        changeManager.Perform(calls);
      }
    }

    /** The verdict on one evaluation and what was timed during it. */
    method Count(r: Runner, verdict: Verdict, x: Exec, ghost t: Tally)
      requires At(t)
      modifies this`result, this`successes, this`failures, this`warnings, this`timings
      ensures At(Counted(r, t, verdict, x))
    {
      timings := x.timings;
      result := r.aggregate(result, verdict);
      if verdict == Passed {
        successes := successes + 1;
      } else if verdict == Failed {
        failures := failures + 1;
      } else if verdict != NotRun {
        warnings := warnings + 1;
      }
    }

    /** One turn of the loop, and what it writes into the log. */
    method ProcessOne(r: Runner, evaluation: Evaluation, x: Exec, ghost t: Tally, ghost m: Option<Manager>)
      returns (recorded: Evaluation, x': Exec, ghost t': Tally)
      requires At(t) && x == t.exec && ManagerAt(m, x.calls)
      modifies this`result, this`successes, this`failures, this`warnings, this`timings, Parts()
      ensures t' == AfterOne(r, evaluation, t) && x' == t'.exec && At(t') && ManagerAt(m, x'.calls)
      ensures recorded == ExecEvaluation(r, evaluation, x).0 && fresh(Parts() - old(Parts()))
    {
      var (done, after) := ExecEvaluation(r, evaluation, x);
      recorded, x' := done, after;
      t' := AfterOne(r, evaluation, t);
      Count(r, recorded.result, x', t);
      var calls := x'.calls[|x.calls|..];
      assert x.calls + calls == x'.calls;
      CallManager(calls, x.calls, m);
    }

    /** The loop before turn `i`. */
    ghost predicate Looping(
      r: Runner, m: Option<Manager>, evals: seq<Evaluation>, start: Tally, i: nat, x: Exec, t: Tally)
      reads this, Parts()
    {
      LoopAt(r, m, evals, start, i, t, log) && At(t) && x == t.exec && ManagerAt(m, x.calls)
    }

    /** The loop at its end. */
    ghost predicate Looped(r: Runner, m: Option<Manager>, evals: seq<Evaluation>, start: Tally, t: Tally)
      reads this, Parts()
    {
      t == AfterAll(r, m, evals, start) && log == LogAfter(r, m, evals, start) && At(t) && ManagerAt(m, t.exec.calls)
    }

    /** One turn of the loop; it is the last when the manager is corrupted. */
    method Turn(
        r: Runner, i: nat, x: Exec, ghost t: Tally, ghost m: Option<Manager>, ghost evals: seq<Evaluation>,
        ghost start: Tally)
      returns (stop: bool, x': Exec, ghost t': Tally)
      requires i < |log| && Looping(r, m, evals, start, i, x, t)
      modifies this`result, this`successes, this`failures, this`warnings, this`timings, this`log, Parts()
      ensures |log| == old(|log|) && fresh(Parts() - old(Parts()))
      ensures if stop then Looped(r, m, evals, start, t') else Looping(r, m, evals, start, i + 1, x', t')
    {
      LoopAtNext(r, m, evals, start, i, t, log);
      var recorded;
      recorded, x', t' := ProcessOne(r, log[i], x, t, m);
      log := log[i := recorded];
      stop := changeManager != null && changeManager.corrupted;
      StopsIff(m, t');
    }

    lemma StopsIff(m: Option<Manager>, t: Tally)
      requires ManagerAt(m, t.exec.calls)
      ensures Stops(m, t) <==> changeManager != null && changeManager.corrupted
    {
    }

    /** The loop over the log, left as soon as the manager is corrupted. */
    method RunLoop(r: Runner, world: nat, ghost m: Option<Manager>) returns (ghost t: Tally)
      requires ManagerAt(m, [])
      modifies this`result, this`successes, this`failures, this`warnings, this`timings, this`log, Parts()
      ensures Looped(r, m, old(log), old(Counters(world, [])), t) && fresh(Parts() - old(Parts()))
    {
      LoopBegins(r, m, world);
      t := TakeTurns(r, Exec(world, [], timings), m, log, Counters(world, []));
    }

    /** The turns themselves. */
    method TakeTurns(
        r: Runner, first: Exec, ghost m: Option<Manager>, ghost evals: seq<Evaluation>, ghost start: Tally)
      returns (ghost t: Tally)
      requires Looping(r, m, evals, start, 0, first, start)
      modifies this`result, this`successes, this`failures, this`warnings, this`timings, this`log, Parts()
      ensures Looped(r, m, evals, start, t) && fresh(Parts() - old(Parts()))
    {
      var x, i := first, 0;
      t := start;
      while i < |log|
        invariant i <= |log| == |evals| && Looping(r, m, evals, start, i, x, t)
        invariant fresh(Parts() - old(Parts()))
      {
        var stop;
        stop, x, t := Turn(r, i, x, t, m, evals, start);
        if stop {
          return;
        }
        i := i + 1;
      }
      LoopEnds(r, m, evals, start, x, t);
    }

    lemma LoopBegins(r: Runner, m: Option<Manager>, world: nat)
      requires ManagerAt(m, [])
      ensures Looping(r, m, log, Counters(world, []), 0, Exec(world, [], timings), Counters(world, []))
    {
      LoopAtStart(r, m, log, Counters(world, []));
    }

    lemma LoopEnds(r: Runner, m: Option<Manager>, evals: seq<Evaluation>, start: Tally, x: Exec, t: Tally)
      requires Looping(r, m, evals, start, |evals|, x, t)
      ensures Looped(r, m, evals, start, t)
    {
      LoopAtEnd(r, m, evals, start, t, log);
    }

    /** The requirements of the catalog by id, with what is recommended for them. */
    method GetAssessmentRequirements() returns (recs: Result<map<string, string>, Error>)
      ensures recs.Err? <==> !HasRequirements(controls)
      ensures recs.Ok? ==> recs.value == RecommendationsIn(AllRequirements(controls))
    {
      var requirements: map<string, string> := map[];
      for i := 0 to |controls|
        invariant requirements == RecommendationsIn(AllRequirements(controls[..i]))
      {
        requirements := AddRequirements(requirements, controls[i].requirements, AllRequirements(controls[..i]));
        assert controls[..i + 1][..i] == controls[..i];
      }
      assert controls[..|controls|] == controls;
      NoRequirementsIff(controls);
      recs := if |requirements| == 0 then Err(BadRequirements) else Ok(requirements);
    }

    /** The inner loop, over the requirements of one control. */
    method AddRequirements(before: map<string, string>, reqs: seq<Requirement>, ghost done: seq<Requirement>)
      returns (requirements: map<string, string>)
      requires before == RecommendationsIn(done)
      ensures requirements == RecommendationsIn(done + reqs)
    {
      requirements := before;
      assert done + reqs[..0] == done;
      for j := 0 to |reqs|
        invariant requirements == RecommendationsIn(done + reqs[..j])
      {
        assert (done + reqs[..j + 1])[..|done| + j] == done + reqs[..j];
        requirements := requirements[reqs[j].id := reqs[j].recommendation];
      }
      assert done + reqs[..|reqs|] == done + reqs;
    }

    ghost function ManagerView(): Option<Manager>
      reads this`changeManager, Parts()
    {
      if changeManager == null then None else Some(changeManager.View())
    }

    /** The manager after reverting everything, and what is reported of it. */
    ghost predicate Finished(m: Option<Manager>, calls: seq<Call>, oks: string -> bool, res: Result<(), Error>)
      reads this`changeManager, this`corrupted, Parts()
    {
      if changeManager == null then m.None? && res == Ok(())
      else
        && m.Some? && changeManager.View() == AllReverted(PerformedAll(m.value, calls), oks)
        && corrupted == changeManager.corrupted
        && res == if corrupted then Err(CorruptionFound) else Ok(())
    }

    method RevertChanges(
        oks: string -> bool, ghost m: Option<Manager>, ghost calls: seq<Call>) returns (res: Result<(), Error>)
      requires ManagerAt(m, calls)
      modifies this`corrupted, Parts()
      ensures Finished(m, calls, oks, res)
    {
      if changeManager != null {
        changeManager.RevertEveryChange(oks);
        assert changeManager.View() == AllReverted(PerformedAll(m.value, calls), oks);
        corrupted := changeManager.corrupted;
        if corrupted {
          return Err(CorruptionFound);
        }
      }
      res := Ok(());
    }

    /** The results of an evaluation that ran: as the loop leaves them, with the steps put back. */
    ghost predicate Results(r: Runner, m: Option<Manager>, start: Tally, t: Tally)
      requires config.Some?
      reads this
    {
      && t == AfterAll(r, m, EvalLog(registered, config.value.benchmark, controls), start) && At(t)
      && log == LogAfter(r, m, EvalLog(registered, false, controls), start)
    }

    /** From the assignment of the log to the restored steps. */
    method RunAndRestore(
        r: Runner, world: nat, evalLog: seq<Evaluation>, ghost m: Option<Manager>) returns (ghost t: Tally)
      requires config.Some? && evalLog == EvalLog(registered, config.value.benchmark, controls) && ManagerAt(m, [])
      modifies this`result, this`successes, this`failures, this`warnings, this`timings, this`log, Parts()
      ensures Results(r, m, old(Counters(world, [])), t) && ManagerAt(m, t.exec.calls) && fresh(Parts() - old(Parts()))
    {
      ghost var start := Counters(world, []);
      log := evalLog;
      t := RunLoop(r, world, m);
      RestoreLog(r, m, start);
    }

    /** Restoring leaves the log that there would be without benchmark mode. */
    method RestoreLog(ghost r: Runner, ghost m: Option<Manager>, ghost start: Tally)
      requires config.Some? && log == LogAfter(r, m, EvalLog(registered, config.value.benchmark, controls), start)
      modifies this`log
      ensures log == LogAfter(r, m, EvalLog(registered, false, controls), start)
    {
      RestoredEither(r, registered, m, config.value.benchmark, controls, start);
      RestoreSteps();
    }

    /** From the assignment of the log to the end. */
    method Execute(r: Runner, world: nat, oks: string -> bool, evalLog: seq<Evaluation>, ghost m: Option<Manager>)
      returns (res: Result<(), Error>, ghost t: Tally)
      requires config.Some? && evalLog == EvalLog(registered, config.value.benchmark, controls) && ManagerAt(m, [])
      modifies this`result, this`successes, this`failures, this`warnings, this`timings, this`log, this`corrupted,
        Parts()
      ensures Results(r, m, old(Counters(world, [])), t) && Finished(m, t.exec.calls, oks, res)
    {
      t := RunAndRestore(r, world, evalLog, m);
      res := RevertChanges(oks, m, t.exec.calls);
    }

    /** The runner with the recommendations of the suite's catalog. */
    function Advised(r: Runner): Runner
    {
      r.(recommendations := RecommendationsIn(AllRequirements(controls)))
    }

    /** Why the suite cannot run, if it cannot. */
    function WhyNot(): Option<Error>
      reads this`config
    {
      if config.None? then Some(ConfigNotInitialized)
      else if !HasRequirements(controls) then Some(BadRequirements)
      else if registered.steps == map[] then Some(BadLog)
      else None
    }

    /** The checks before anything is changed: the recommendations and the log, or why there are none. */
    method Prepare() returns (prepared: Result<(map<string, string>, seq<Evaluation>), Error>)
      ensures prepared.Err? <==> WhyNot().Some?
      ensures prepared.Err? ==> prepared.error == WhyNot().value
      ensures prepared.Ok? ==> prepared.value.0 == RecommendationsIn(AllRequirements(controls))
      ensures prepared.Ok? ==> prepared.value.1 == EvalLog(registered, config.value.benchmark, controls)
    {
      if config.None? {
        return Err(ConfigNotInitialized);
      }
      var requirements := GetAssessmentRequirements();
      if requirements.Err? {
        return Err(BadRequirements);
      }
      var evalLog := SetupEvalLog();
      prepared := if evalLog.Err? then Err(BadLog) else Ok((requirements.value, evalLog.value));
    }

    /** The run itself, once nothing stands in its way. */
    method ExecutePrepared(
        r: Runner, world: nat, oks: string -> bool, recommendations: map<string, string>, evalLog: seq<Evaluation>)
      returns (res: Result<(), Error>, ghost t: Tally)
      requires config.Some? && recommendations == RecommendationsIn(AllRequirements(controls))
      requires evalLog == EvalLog(registered, config.value.benchmark, controls)
      requires changeManager != null ==> changeManager.Valid()
      modifies this`result, this`successes, this`failures, this`warnings, this`timings, this`log, this`corrupted,
        Parts()
      ensures Results(Advised(r), old(ManagerView()), old(Counters(world, [])), t)
      ensures Finished(old(ManagerView()), t.exec.calls, oks, res)
    {
      res, t := Execute(r.(recommendations := recommendations), world, oks, evalLog, ManagerView());
    }

    /**
     Evaluate the suite and revert what it changed. Nothing but the counters,
     the log and the manager changes, and nothing at all when the suite cannot run.
     */
    method Evaluate(r: Runner, world: nat, oks: string -> bool) returns (res: Result<(), Error>, ghost t: Tally)
      requires changeManager != null ==> changeManager.Valid()
      modifies this, Parts()
      ensures config == old(config) && changeManager == old(changeManager)
      ensures WhyNot().Some? ==> res == Err(WhyNot().value) && unchanged(this) && unchanged(old(Parts()))
      ensures WhyNot().None? ==>
        Results(Advised(r), old(ManagerView()), old(Counters(world, [])), t) &&
          Finished(old(ManagerView()), t.exec.calls, oks, res)
    {
      t := Counters(world, []);
      var prepared := Prepare();
      if prepared.Err? {
        return Err(prepared.error), t;
      }
      var (recommendations, evalLog) := prepared.value;
      res, t := ExecutePrepared(r, world, oks, recommendations, evalLog);
    }
  }

  // ---------------------------------------------------------------------
  // Recommendations

  function AllRequirements(controls: seq<Control>): seq<Requirement>
  {
    if controls == [] then []
    else AllRequirements(controls[..|controls| - 1]) + controls[|controls| - 1].requirements
  }

  function RecommendationsIn(reqs: seq<Requirement>): map<string, string>
  {
    if reqs == [] then map[]
    else
      var last := reqs[|reqs| - 1];
      RecommendationsIn(reqs[..|reqs| - 1])[last.id := last.recommendation]
  }

  /** Of several requirements with one id the last is looked up. */
  lemma {:induction false} LastRecommendationWins(reqs: seq<Requirement>, i: nat)
    requires i < |reqs| && forall j :: i < j < |reqs| ==> reqs[j].id != reqs[i].id
    ensures reqs[i].id in RecommendationsIn(reqs) && RecommendationsIn(reqs)[reqs[i].id] == reqs[i].recommendation
  {
    if i < |reqs| - 1 {
      LastRecommendationWins(reqs[..|reqs| - 1], i);
    }
  }

  lemma NoRecommendationsIff(reqs: seq<Requirement>)
    ensures RecommendationsIn(reqs) == map[] <==> reqs == []
  {
    if reqs != [] {
      assert reqs[|reqs| - 1].id in RecommendationsIn(reqs);
    }
  }

  lemma {:induction false} AllRequirementsEmptyIff(controls: seq<Control>)
    ensures AllRequirements(controls) == [] <==> !HasRequirements(controls)
  {
    if controls != [] {
      var n := |controls| - 1;
      AllRequirementsEmptyIff(controls[..n]);
      FoundSoFar(controls, n);
      assert controls[..n + 1] == controls;
    }
  }

  lemma NoRequirementsIff(controls: seq<Control>)
    ensures RecommendationsIn(AllRequirements(controls)) == map[] <==> !HasRequirements(controls)
  {
    NoRecommendationsIff(AllRequirements(controls));
    AllRequirementsEmptyIff(controls);
  }

  lemma {:induction false} RequirementIsLookedUp(reqs: seq<Requirement>, req: Requirement)
    requires req in reqs
    ensures req.id in RecommendationsIn(reqs)
  {
    var init, last := reqs[..|reqs| - 1], reqs[|reqs| - 1];
    assert reqs == init + [last];
    if req != last {
      RequirementIsLookedUp(init, req);
    }
  }

  /** Every requirement of the log is one of the catalog's. */
  lemma {:induction false} LoggedIsLookedUp(reg: Registered, benchmark: bool, controls: seq<Control>, k: nat, i: nat)
    requires k < |EvalLog(reg, benchmark, controls)| && i < |EvalLog(reg, benchmark, controls)[k].assessments|
    ensures var a := EvalLog(reg, benchmark, controls)[k].assessments[i];
      a.requirementId in RecommendationsIn(AllRequirements(controls))
  {
    var n := |controls| - 1;
    var init := EvalLog(reg, benchmark, controls[..n]);
    var all := AllRequirements(controls);
    if k < |init| {
      LoggedIsLookedUp(reg, benchmark, controls[..n], k, i);
      LookedUpStays(AllRequirements(controls[..n]), controls[n].requirements, init[k].assessments[i].requirementId);
    } else {
      RequirementIsLookedUp(all, controls[n].requirements[i]);
    }
  }

  lemma {:induction false} LookedUpStays(before: seq<Requirement>, more: seq<Requirement>, id: string)
    requires id in RecommendationsIn(before)
    ensures id in RecommendationsIn(before + more)
  {
    if more == [] {
      assert before + more == before;
    } else {
      var n := |more| - 1;
      LookedUpStays(before, more[..n], id);
      assert (before + more)[..|before + more| - 1] == before + more[..n];
    }
  }

  /** So every assessment that was processed carries the recommendation for its requirement. */
  lemma RecordedIsRecommended(r: Runner, reg: Registered, controls: seq<Control>, x: Exec, k: nat, i: nat)
    requires r.recommendations == RecommendationsIn(AllRequirements(controls))
    requires k < |EvalLog(reg, false, controls)| && i < |EvalLog(reg, false, controls)[k].assessments|
    ensures var a := ExecEvaluation(r, EvalLog(reg, false, controls)[k], x).0.assessments;
      i < |a| && a[i].requirementId in r.recommendations && a[i].recommendation == r.recommendations[a[i].requirementId]
  {
    LoggedIsLookedUp(reg, false, controls, k, i);
  }

  /** Why a suite does not run: no configuration, then no requirements, then no steps. */
  lemma WhyNotMeans(suite: EvaluationSuite)
    ensures suite.WhyNot() ==
      if suite.config.None? then Some(ConfigNotInitialized)
      else if forall i :: 0 <= i < |suite.controls| ==> suite.controls[i].requirements == [] then Some(BadRequirements)
      else if |suite.registered.steps| == 0 then Some(BadLog)
      else None
  {
  }

  /** What is reported at the end is the corruption of the manager after everything was reverted. */
  lemma FinishedMeans(
      suite: EvaluationSuite, m: Option<Manager>, calls: seq<Call>, oks: string -> bool, res: Result<(), Error>)
    requires suite.Finished(m, calls, oks, res)
    ensures suite.changeManager == null ==> res.Ok?
    ensures suite.changeManager != null ==>
      && suite.changeManager.View() == PerformedAll(m.value, calls + [RevertAll(oks)])
      && (res == Err(CorruptionFound) <==> suite.changeManager.corrupted) && (res.Ok? <==> !suite.corrupted)
  {
    assert (calls + [RevertAll(oks)])[..|calls|] == calls;
  }

  /** A run of calls as the revert-or-report property asks for it. */
  ghost predicate GoodRun(m: Manager, calls: seq<Call>)
  {
    ManagerInv(m) && CleanCalls(m, calls) && NamedTargets(calls) && forall name :: !NamelessIn(m, name)
  }

  /** When `Evaluate` returns no error, no change applied through its manager is left applied. */
  lemma NoErrorMeansReverted(
      suite: EvaluationSuite, m: Option<Manager>, calls: seq<Call>, oks: string -> bool, res: Result<(), Error>)
    requires suite.Finished(m, calls, oks, res) && res.Ok? && suite.changeManager != null && GoodRun(m.value, calls)
    ensures forall name :: name in suite.changeManager.changes ==>
      !LeftApplied(suite.changeManager.changes[name].history)
  {
    RevertOrReport(m.value, calls, oks);
    var after := suite.changeManager.View();
    assert after == Performed(PerformedAll(m.value, calls), RevertAll(oks));
    forall name | name in suite.changeManager.changes ensures !LeftApplied(suite.changeManager.changes[name].history) {
      assert after.changes[name].history == suite.changeManager.changes[name].history;
    }
  }

  lemma FoundSoFar(controls: seq<Control>, i: nat)
    requires i < |controls|
    ensures HasRequirements(controls[..i + 1]) <==> HasRequirements(controls[..i]) || controls[i].requirements != []
  {
    var init, next := controls[..i], controls[..i + 1];
    if HasRequirements(next) {
      var k :| 0 <= k <= i && next[k].requirements != [];
      assert k < i ==> init[k].requirements != [];
    }
    if HasRequirements(init) {
      var k :| 0 <= k < i && init[k].requirements != [];
      assert next[k].requirements != [];
    }
    assert next[i] == controls[i];
  }
}
