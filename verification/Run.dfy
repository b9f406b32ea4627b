/**
 The exit code of a run: one plugin after another, the most severe outcome wins
 (command/run.go:27-40, command/run.go:76-119, shared/exitcodes.go:5-12).
 */
module Run {
  const TEST_PASS := 0
  const TEST_FAIL := 1
  const ABORTED := 2
  const INTERNAL_ERROR := 3
  const BAD_USAGE := 4
  const NO_TESTS := 5

  const EXIT_SEVERITY: map<int, int> := map[TEST_PASS := 0, TEST_FAIL := 1, BAD_USAGE := 2, INTERNAL_ERROR := 3]

  /** Looking up a code without a severity gives zero. */
  function Severity(code: int): int
  {
    if code in EXIT_SEVERITY then EXIT_SEVERITY[code] else 0
  }

  function MergeExitCode(prev: int, next: int): int
  {
    if Severity(next) > Severity(prev) then next else prev
  }

  /** A plugin that could not be started over RPC, or the code it returned, which may be any integer. */
  datatype Outcome = NoClient | Exited(code: int)

  /** What an outcome stands for in the exit code of the run. */
  function Weight(o: Outcome): int
  {
    match o
    case NoClient => Severity(INTERNAL_ERROR)
    case Exited(code) => Severity(code)
  }

  /** A code as severe as the worst outcome. */
  ghost predicate IsExitOf(outcomes: seq<Outcome>, exitCode: int)
  {
    && exitCode in {TEST_PASS, TEST_FAIL, BAD_USAGE, INTERNAL_ERROR}
    && (forall o :: o in outcomes ==> Weight(o) <= Severity(exitCode))
    && (exitCode != TEST_PASS ==> exists o :: o in outcomes && Weight(o) == Severity(exitCode))
  }

  /** The code of the run and how many plugins it started. */
  method RunAll(outcomes: seq<Outcome>) returns (exitCode: int, started: nat)
    ensures IsExitOf(outcomes, exitCode)
    ensures started <= |outcomes| && (started < |outcomes| ==> 0 < started && outcomes[started - 1] == NoClient)
    ensures forall i :: 0 <= i < started - 1 ==> outcomes[i].Exited?
  {
    exitCode, started := TEST_PASS, 0;
    for i := 0 to |outcomes|
      invariant started == i && exitCode in {TEST_PASS, TEST_FAIL, BAD_USAGE, INTERNAL_ERROR}
      invariant forall j :: 0 <= j < i ==> outcomes[j].Exited? && Weight(outcomes[j]) <= Severity(exitCode)
      invariant exitCode != TEST_PASS ==> exists j :: 0 <= j < i && Weight(outcomes[j]) == Severity(exitCode)
    {
      started := started + 1;
      match outcomes[i]
      case NoClient =>
        assert Weight(outcomes[i]) == 3;
        return INTERNAL_ERROR, started;
      case Exited(code) =>
        if code != TEST_PASS {
          exitCode := MergeExitCode(exitCode, code);
        }
        assert Weight(outcomes[i]) == Severity(code);
    }
  }

  /**
   Services are started in map order, so the order is arbitrary; the code is
   not, even though a plugin that cannot be started ends the run early.
   */
  lemma ExitIgnoresOrder(outcomes: seq<Outcome>, permuted: seq<Outcome>, exitCode: int, other: int)
    requires multiset(outcomes) == multiset(permuted)
    requires IsExitOf(outcomes, exitCode) && IsExitOf(permuted, other)
    ensures exitCode == other
  {
    assert forall o :: o in outcomes <==> o in multiset(outcomes);
    assert forall o :: o in permuted <==> o in multiset(permuted);
    if exitCode != TEST_PASS {
      var o :| o in outcomes && Weight(o) == Severity(exitCode);
      assert o in permuted;
    }
    if other != TEST_PASS {
      var o :| o in permuted && Weight(o) == Severity(other);
      assert o in outcomes;
    }
  }

  /**
   A run passes exactly when every plugin was started and none returned one of
   the three failing codes; in particular a run whose plugins all abort, or find no tests, passes.
   */
  lemma PassesIff(outcomes: seq<Outcome>, exitCode: int)
    requires IsExitOf(outcomes, exitCode)
    ensures exitCode == TEST_PASS <==>
      forall o :: o in outcomes ==> o.Exited? && o.code !in {TEST_FAIL, BAD_USAGE, INTERNAL_ERROR}
    ensures (forall o :: o in outcomes ==> o == Exited(ABORTED) || o == Exited(NO_TESTS)) ==> exitCode == TEST_PASS
  {
    if exitCode != TEST_PASS {
      var o :| o in outcomes && Weight(o) == Severity(exitCode);
      assert o.NoClient? || o.code in {TEST_FAIL, BAD_USAGE, INTERNAL_ERROR};
    } else {
      forall o | o in outcomes ensures o.Exited? && o.code !in {TEST_FAIL, BAD_USAGE, INTERNAL_ERROR} {
        assert Weight(o) <= 0;
      }
    }
  }

  /**
   The code of the run: 3 when some plugin could not be started or failed
   internally, else 4 for bad usage, else 1 for a failed test, and 0 otherwise.
   */
  lemma ExitIs(outcomes: seq<Outcome>, exitCode: int)
    requires IsExitOf(outcomes, exitCode)
    ensures exitCode ==
      if NoClient in outcomes || Exited(3) in outcomes then 3
      else if Exited(4) in outcomes then 4
      else if Exited(1) in outcomes then 1
      else 0
  {
    if exitCode != TEST_PASS {
      var o :| o in outcomes && Weight(o) == Severity(exitCode);
      assert o == NoClient || o == Exited(3) || o == Exited(4) || o == Exited(1);
    }
    assert NoClient in outcomes ==> Weight(NoClient) <= Severity(exitCode);
    assert Exited(3) in outcomes ==> Weight(Exited(3)) <= Severity(exitCode);
    assert Exited(4) in outcomes ==> Weight(Exited(4)) <= Severity(exitCode);
    assert Exited(1) in outcomes ==> Weight(Exited(1)) <= Severity(exitCode);
  }
}
