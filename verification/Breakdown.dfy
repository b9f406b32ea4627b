/**
 The benchmark breakdown: one row per segment, the rows in order of cost, and
 how durations are rounded for display (command/harness/benchmark.go:227-311).
 */
module Breakdown {
  import opened Ordering

  datatype LoaderTiming = LoaderTiming(scope: string, func: string, durationNs: int)
  datatype StepTiming = StepTiming(requirementId: string, stepIndex: int, step: string, durationNs: int)
  datatype SuiteTiming = SuiteTiming(catalogId: string, durationNs: int, steps: seq<StepTiming>)
  datatype Report = Report(loaders: seq<LoaderTiming>, suites: seq<SuiteTiming>, totalDurationNs: int)

  /** What a row is about; the catalog of a step is shown only when there are several suites. */
  datatype Segment =
    | Retrieval(scope: string, func: string)
    | Overhead(catalogId: string)
    | StepOf(catalogId: string, requirementId: string, stepIndex: int, step: string)
    | Unattributed

  datatype Row = Row(segment: Segment, durationNs: int)

  function Max(a: int, b: int): int
  {
    if a >= b then a else b
  }

  function Total(rows: seq<Row>): int
  {
    if rows == [] then 0 else Total(rows[..|rows| - 1]) + rows[|rows| - 1].durationNs
  }

  function LoaderTime(loaders: seq<LoaderTiming>): int
  {
    if loaders == [] then 0 else LoaderTime(loaders[..|loaders| - 1]) + loaders[|loaders| - 1].durationNs
  }

  function StepTime(steps: seq<StepTiming>): int
  {
    if steps == [] then 0 else StepTime(steps[..|steps| - 1]) + steps[|steps| - 1].durationNs
  }

  /** The time of a suite: what it took, or what its steps took if that is more. */
  function SuiteTime(s: SuiteTiming): int
  {
    Max(s.durationNs, StepTime(s.steps))
  }

  function SuiteTimes(suites: seq<SuiteTiming>): int
  {
    if suites == [] then 0 else SuiteTimes(suites[..|suites| - 1]) + SuiteTime(suites[|suites| - 1])
  }

  /** All that the report accounts for. */
  function AccountedFor(report: Report): int
  {
    LoaderTime(report.loaders) + SuiteTimes(report.suites)
  }

  function LoaderRow(l: LoaderTiming): Row
  {
    Row(Retrieval(l.scope, l.func), l.durationNs)
  }

  function StepRow(catalogId: string, multiSuite: bool, st: StepTiming): Row
  {
    var catalog, index := if multiSuite then catalogId else "", if st.stepIndex > 0 then st.stepIndex else 0;
    Row(StepOf(catalog, st.requirementId, index, st.step), st.durationNs)
  }

  function LoaderRows(loaders: seq<LoaderTiming>): seq<Row>
  {
    if loaders == [] then [] else LoaderRows(loaders[..|loaders| - 1]) + [LoaderRow(loaders[|loaders| - 1])]
  }

  function StepRows(catalogId: string, multiSuite: bool, steps: seq<StepTiming>): seq<Row>
  {
    if steps == [] then []
    else StepRows(catalogId, multiSuite, steps[..|steps| - 1]) + [StepRow(catalogId, multiSuite, steps[|steps| - 1])]
  }

  function OverheadRows(s: SuiteTiming): seq<Row>
  {
    var overhead := s.durationNs - StepTime(s.steps);
    if overhead > 0 then [Row(Overhead(s.catalogId), overhead)] else []
  }

  /** The rows of a suite: its overhead, when there is any, and its steps. */
  function SuiteRows(s: SuiteTiming, multiSuite: bool): seq<Row>
  {
    OverheadRows(s) + StepRows(s.catalogId, multiSuite, s.steps)
  }

  function AllSuiteRows(suites: seq<SuiteTiming>, multiSuite: bool): seq<Row>
  {
    if suites == [] then []
    else AllSuiteRows(suites[..|suites| - 1], multiSuite) + SuiteRows(suites[|suites| - 1], multiSuite)
  }

  function Collected(report: Report): seq<Row>
  {
    LoaderRows(report.loaders) + AllSuiteRows(report.suites, |report.suites| > 1)
  }

  /** More expensive rows first. */
  predicate CostsMore(a: Row, b: Row)
  {
    a.durationNs >= b.durationNs
  }

  lemma {:induction false} TotalOfConcat(a: seq<Row>, b: seq<Row>)
    ensures Total(a + b) == Total(a) + Total(b)
  {
    if b == [] {
      assert a + b == a;
    } else {
      var n := |b| - 1;
      TotalOfConcat(a, b[..n]);
      assert (a + b)[..|a + b| - 1] == a + b[..n];
    }
  }

  /**
   The rows in the order they are printed: the collected ones by cost, equal
   costs in the order they were collected, and what nothing accounts for at the end.
   */
  function Rendered(report: Report): seq<Row>
  {
    var missing := report.totalDurationNs - Total(Collected(report));
    Sort(CostsMore, Collected(report)) + if missing > 0 then [Row(Unattributed, missing)] else []
  }

  method RenderRows(report: Report) returns (rows: seq<Row>)
    ensures rows == Rendered(report)
  {
    var attributedNs;
    rows, attributedNs := CollectRows(report);
    assert attributedNs == Total(Collected(report));
    rows := Sort(CostsMore, rows);
    var unattributed := report.totalDurationNs - attributedNs;
    if unattributed > 0 {
      rows := rows + [Row(Unattributed, unattributed)];
    }
  }

  lemma TotalOfAppend(rows: seq<Row>, row: Row)
    ensures Total(rows + [row]) == Total(rows) + row.durationNs
  {
    assert (rows + [row])[..|rows|] == rows;
  }

  method CollectRows(report: Report) returns (rows: seq<Row>, attributedNs: int)
    ensures rows == Collected(report) && attributedNs == Total(rows)
  {
    rows, attributedNs := AddLoaders(report.loaders);
    var ns;
    rows, ns := AddSuites(report.suites, |report.suites| > 1, rows);
    attributedNs := attributedNs + ns;
  }

  method AddSuites(
      suites: seq<SuiteTiming>, multiSuite: bool, before: seq<Row>) returns (rows: seq<Row>, attributedNs: int)
    ensures rows == before + AllSuiteRows(suites, multiSuite) && Total(rows) == Total(before) + attributedNs
  {
    rows, attributedNs := before, 0;
    for i := 0 to |suites|
      invariant rows == before + AllSuiteRows(suites[..i], multiSuite)
      invariant Total(rows) == Total(before) + attributedNs
    {
      AllSuiteRowsStep(before, suites, i, multiSuite);
      var ns;
      rows, ns := AddSuite(suites[i], multiSuite, rows);
      attributedNs := attributedNs + ns;
    }
    assert suites[..|suites|] == suites;
  }

  lemma AllSuiteRowsStep(before: seq<Row>, suites: seq<SuiteTiming>, i: nat, multiSuite: bool)
    requires i < |suites|
    ensures before + AllSuiteRows(suites[..i + 1], multiSuite) ==
      before + AllSuiteRows(suites[..i], multiSuite) + SuiteRows(suites[i], multiSuite)
  {
    assert suites[..i + 1][..i] == suites[..i];
    var x, y := AllSuiteRows(suites[..i], multiSuite), SuiteRows(suites[i], multiSuite);
    assert before + (x + y) == before + x + y;
  }

  method AddLoaders(loaders: seq<LoaderTiming>) returns (rows: seq<Row>, attributedNs: int)
    ensures rows == LoaderRows(loaders) && attributedNs == Total(rows)
  {
    rows, attributedNs := [], 0;
    for i := 0 to |loaders|
      invariant rows == LoaderRows(loaders[..i]) && attributedNs == Total(rows)
    {
      assert loaders[..i + 1][..i] == loaders[..i];
      TotalOfAppend(rows, LoaderRow(loaders[i]));
      rows := rows + [LoaderRow(loaders[i])];
      attributedNs := attributedNs + loaders[i].durationNs;
    }
    assert loaders[..|loaders|] == loaders;
  }

  /** The rows of one suite, and the time they add. */
  method AddSuite(s: SuiteTiming, multiSuite: bool, before: seq<Row>) returns (rows: seq<Row>, attributedNs: int)
    ensures rows == before + SuiteRows(s, multiSuite) && Total(rows) == Total(before) + attributedNs
  {
    rows, attributedNs := before, 0;
    var suiteStepsNs := 0;
    for i := 0 to |s.steps|
      invariant suiteStepsNs == StepTime(s.steps[..i])
    {
      assert s.steps[..i + 1][..i] == s.steps[..i];
      suiteStepsNs := suiteStepsNs + s.steps[i].durationNs;
    }
    assert s.steps[..|s.steps|] == s.steps;
    var overhead := s.durationNs - suiteStepsNs;
    if overhead > 0 {
      TotalOfAppend(rows, Row(Overhead(s.catalogId), overhead));
      rows := rows + [Row(Overhead(s.catalogId), overhead)];
      attributedNs := attributedNs + overhead;
    }
    var ns;
    rows, ns := AddSteps(s.catalogId, multiSuite, s.steps, rows);
    attributedNs := attributedNs + ns;
  }

  method AddSteps(catalogId: string, multiSuite: bool, steps: seq<StepTiming>, before: seq<Row>)
      returns (rows: seq<Row>, attributedNs: int)
    ensures rows == before + StepRows(catalogId, multiSuite, steps) && Total(rows) == Total(before) + attributedNs
  {
    rows, attributedNs := before, 0;
    for i := 0 to |steps|
      invariant rows == before + StepRows(catalogId, multiSuite, steps[..i])
      invariant Total(rows) == Total(before) + attributedNs
    {
      assert steps[..i + 1][..i] == steps[..i];
      var row := StepRow(catalogId, multiSuite, steps[i]);
      TotalOfAppend(rows, row);
      rows := rows + [row];
      attributedNs := attributedNs + steps[i].durationNs;
    }
    assert steps[..|steps|] == steps;
  }

  // ---------------------------------------------------------------------
  // Conservation

  lemma {:induction false} StepRowsTotal(catalogId: string, multiSuite: bool, steps: seq<StepTiming>)
    ensures Total(StepRows(catalogId, multiSuite, steps)) == StepTime(steps)
  {
    if steps != [] {
      StepRowsTotal(catalogId, multiSuite, steps[..|steps| - 1]);
    }
  }

  lemma SuiteRowsTotal(s: SuiteTiming, multiSuite: bool)
    ensures Total(SuiteRows(s, multiSuite)) == SuiteTime(s)
  {
    StepRowsTotal(s.catalogId, multiSuite, s.steps);
    assert Total(OverheadRows(s)) == Max(s.durationNs - StepTime(s.steps), 0);
    TotalOfConcat(OverheadRows(s), StepRows(s.catalogId, multiSuite, s.steps));
  }

  lemma {:induction false} AllSuiteRowsTotal(suites: seq<SuiteTiming>, multiSuite: bool)
    ensures Total(AllSuiteRows(suites, multiSuite)) == SuiteTimes(suites)
  {
    if suites != [] {
      var n := |suites| - 1;
      AllSuiteRowsTotal(suites[..n], multiSuite);
      SuiteRowsTotal(suites[n], multiSuite);
      TotalOfConcat(AllSuiteRows(suites[..n], multiSuite), SuiteRows(suites[n], multiSuite));
    }
  }

  lemma {:induction false} LoaderRowsTotal(loaders: seq<LoaderTiming>)
    ensures Total(LoaderRows(loaders)) == LoaderTime(loaders)
  {
    if loaders != [] {
      LoaderRowsTotal(loaders[..|loaders| - 1]);
    }
  }

  lemma CollectedTotal(report: Report)
    ensures Total(Collected(report)) == AccountedFor(report)
  {
    LoaderRowsTotal(report.loaders);
    AllSuiteRowsTotal(report.suites, |report.suites| > 1);
    TotalOfConcat(LoaderRows(report.loaders), AllSuiteRows(report.suites, |report.suites| > 1));
  }

  lemma {:induction false} TotalOfInsert(x: Row, s: seq<Row>)
    ensures Total(Insert(CostsMore, x, s)) == x.durationNs + Total(s)
  {
    if s == [] || CostsMore(x, s[0]) {
      TotalOfConcat([x], s);
    } else {
      TotalOfInsert(x, s[1..]);
      TotalOfConcat([s[0]], s[1..]);
      TotalOfConcat([s[0]], Insert(CostsMore, x, s[1..]));
      assert s == [s[0]] + s[1..];
    }
  }

  lemma {:induction false} TotalOfSort(s: seq<Row>)
    ensures Total(Sort(CostsMore, s)) == Total(s)
  {
    if s != [] {
      TotalOfSort(s[1..]);
      TotalOfInsert(s[0], Sort(CostsMore, s[1..]));
      TotalOfConcat([s[0]], s[1..]);
      assert s == [s[0]] + s[1..];
    }
  }

  /** No time is lost or made up: the rows come to the total, or to all that is accounted for if that is more. */
  lemma RowsConserveTime(report: Report)
    ensures Total(Rendered(report)) == Max(report.totalDurationNs, AccountedFor(report))
  {
    CollectedTotal(report);
    TotalOfSort(Collected(report));
    var missing := report.totalDurationNs - Total(Collected(report));
    TotalOfConcat(Sort(CostsMore, Collected(report)), if missing > 0 then [Row(Unattributed, missing)] else []);
  }

  lemma CostsMoreIsTotalPreorder()
    ensures TotalPreorder(CostsMore)
  {
  }

  /** The rows of the segments, without what nothing accounts for. */
  function Segments(report: Report): (r: seq<Row>)
  {
    Sort(CostsMore, Collected(report))
  }

  /** Only what nothing accounts for comes after the segments. */
  lemma UnattributedComesLast(report: Report)
    ensures var n := |Collected(report)|; var rows := Rendered(report);
      && n <= |rows| <= n + 1 && rows[..n] == Segments(report)
      && forall i :: n <= i < |rows| ==> rows[i].segment == Unattributed && rows[i].durationNs > 0
  {
  }

  /** The segments are the collected rows by falling cost, ties in order. */
  lemma RowsAreStablySorted(report: Report, row: Row)
    ensures Sorted(CostsMore, Segments(report)) && multiset(Segments(report)) == multiset(Collected(report))
    ensures forall i, j :: 0 <= i < j < |Segments(report)| ==>
      Segments(report)[i].durationNs >= Segments(report)[j].durationNs
    ensures Ties(CostsMore, row, Segments(report)) == Ties(CostsMore, row, Collected(report))
  {
    CostsMoreIsTotalPreorder();
    SortSorted(CostsMore, Collected(report));
    SortStable(CostsMore, Collected(report), row);
    forall i, j | 0 <= i < j < |Segments(report)|
      ensures Segments(report)[i].durationNs >= Segments(report)[j].durationNs
    {
      assert CostsMore(Segments(report)[i], Segments(report)[j]);
    }
  }

  /** A loader, with the time it took. */
  ghost predicate OfLoader(loaders: seq<LoaderTiming>, row: Row)
  {
    exists i :: 0 <= i < |loaders| && row == Row(Retrieval(loaders[i].scope, loaders[i].func), loaders[i].durationNs)
  }

  /** A step, with the catalog when there are several suites and its index when it is positive. */
  predicate IsStepRow(catalogId: string, multiSuite: bool, st: StepTiming, row: Row)
  {
    && row.durationNs == st.durationNs && row.segment.StepOf?
    && row.segment.catalogId == (if multiSuite then catalogId else "")
    && row.segment.requirementId == st.requirementId && row.segment.step == st.step
    && row.segment.stepIndex == Max(st.stepIndex, 0)
  }

  ghost predicate OfStep(catalogId: string, multiSuite: bool, steps: seq<StepTiming>, row: Row)
  {
    exists i :: 0 <= i < |steps| && IsStepRow(catalogId, multiSuite, steps[i], row)
  }

  /** A suite's steps, and what it took beyond them when that is positive. */
  ghost predicate OfSuite(s: SuiteTiming, multiSuite: bool, row: Row)
  {
    || (s.durationNs > StepTime(s.steps) && row == Row(Overhead(s.catalogId), s.durationNs - StepTime(s.steps)))
    || OfStep(s.catalogId, multiSuite, s.steps, row)
  }

  ghost predicate OfSuites(suites: seq<SuiteTiming>, multiSuite: bool, row: Row)
  {
    exists i :: 0 <= i < |suites| && OfSuite(suites[i], multiSuite, row)
  }

  lemma {:induction false} LoaderRowsAre(loaders: seq<LoaderTiming>, row: Row)
    ensures row in LoaderRows(loaders) <==> OfLoader(loaders, row)
  {
    if loaders != [] {
      var n := |loaders| - 1;
      LoaderRowsAre(loaders[..n], row);
      if OfLoader(loaders[..n], row) {
        var i :| 0 <= i < n &&
          row == Row(Retrieval(loaders[..n][i].scope, loaders[..n][i].func), loaders[..n][i].durationNs);
        assert loaders[i] == loaders[..n][i];
      }
      if OfLoader(loaders, row) {
        var i :| 0 <= i <= n && row == Row(Retrieval(loaders[i].scope, loaders[i].func), loaders[i].durationNs);
        assert i < n ==> loaders[..n][i] == loaders[i];
      }
    }
  }

  lemma {:induction false} StepRowsAre(catalogId: string, multiSuite: bool, steps: seq<StepTiming>, row: Row)
    ensures row in StepRows(catalogId, multiSuite, steps) <==> OfStep(catalogId, multiSuite, steps, row)
  {
    if steps != [] {
      var n := |steps| - 1;
      StepRowsAre(catalogId, multiSuite, steps[..n], row);
      if OfStep(catalogId, multiSuite, steps[..n], row) {
        var i :| 0 <= i < n && IsStepRow(catalogId, multiSuite, steps[..n][i], row);
        assert IsStepRow(catalogId, multiSuite, steps[i], row);
      }
      if OfStep(catalogId, multiSuite, steps, row) {
        var i :| 0 <= i <= n && IsStepRow(catalogId, multiSuite, steps[i], row);
        assert i < n ==> IsStepRow(catalogId, multiSuite, steps[..n][i], row);
      }
    }
  }

  lemma {:induction false} AllSuiteRowsAre(suites: seq<SuiteTiming>, multiSuite: bool, row: Row)
    ensures row in AllSuiteRows(suites, multiSuite) <==> OfSuites(suites, multiSuite, row)
  {
    if suites != [] {
      var n := |suites| - 1;
      AllSuiteRowsAre(suites[..n], multiSuite, row);
      StepRowsAre(suites[n].catalogId, multiSuite, suites[n].steps, row);
      if OfSuites(suites[..n], multiSuite, row) {
        var i :| 0 <= i < n && OfSuite(suites[..n][i], multiSuite, row);
        assert OfSuite(suites[i], multiSuite, row);
      }
      if OfSuites(suites, multiSuite, row) {
        var i :| 0 <= i <= n && OfSuite(suites[i], multiSuite, row);
        assert i < n ==> OfSuite(suites[..n][i], multiSuite, row);
      }
    }
  }

  /** The rows before the unattributed one are exactly those of the loaders, the suites and their steps. */
  lemma SegmentsAreMeasured(report: Report, row: Row)
    ensures row in Segments(report) <==>
      OfLoader(report.loaders, row) || OfSuites(report.suites, |report.suites| > 1, row)
  {
    LoaderRowsAre(report.loaders, row);
    AllSuiteRowsAre(report.suites, |report.suites| > 1, row);
    InPermutation(Segments(report), Collected(report), row);
  }

  // ---------------------------------------------------------------------
  // Durations as printed

  const MICROSECOND: int := 1_000
  const MILLISECOND: int := 1_000_000
  const SECOND: int := 1_000_000_000
  const MAX_DURATION: int := 0x7fff_ffff_ffff_ffff

  /**
   `Duration.Round` for a positive duration: to the nearest multiple, halves up, and the
   largest duration on overflow.
   */
  function Round(d: int, m: int): int
    requires m > 0
  {
    var r := d % m;
    if r + r < m then d - r
    else if d + m - r <= MAX_DURATION then d + m - r
    else MAX_DURATION
  }

  function UnitOf(ns: int): int
  {
    if ns >= SECOND then 10 * MILLISECOND
    else if ns >= MILLISECOND then 100 * MICROSECOND
    else if ns >= MICROSECOND then MICROSECOND
    else 1
  }

  function FormatNs(ns: int): int
  {
    if ns >= SECOND then Round(ns, 10 * MILLISECOND)
    else if ns >= MILLISECOND then Round(ns, 100 * MICROSECOND)
    else if ns >= MICROSECOND then Round(ns, MICROSECOND)
    else ns
  }

  lemma {:induction false} MultiplyKeepsOrder(a: int, b: int, m: int)
    requires m > 0
    ensures a < b <==> a * m < b * m
    ensures (a + 1) * m == a * m + m
  {
    if a < b {
      assert (b - a) * m >= m;
    } else {
      assert (a - b) * m >= 0;
    }
  }

  lemma RoundAtMultiples(d: int, m: int, t: int)
    requires m > 0 && t * m <= d <= MAX_DURATION
    ensures t * m <= Round(d, m)
  {
    var q := d / m;
    assert d == q * m + d % m;
    MultiplyKeepsOrder(t, q + 1, m);
    MultiplyKeepsOrder(q, t, m);
  }

  lemma RoundBelow(d: int, m: int, t: int)
    requires m > 0 && d < t * m
    ensures Round(d, m) <= t * m
  {
    var q := d / m;
    assert d == q * m + d % m;
    MultiplyKeepsOrder(q, t, m);
    MultiplyKeepsOrder(t, q + 1, m);
  }

  lemma RoundMonotone(a: int, b: int, m: int)
    requires m > 0 && a <= b <= MAX_DURATION
    ensures Round(a, m) <= Round(b, m)
  {
    var p, q := a / m, b / m;
    assert a == p * m + a % m && b == q * m + b % m;
    if p < q {
      MultiplyKeepsOrder(p, q, m);
      MultiplyKeepsOrder(q, p + 1, m);
      RoundBelow(a, m, q);
      RoundAtMultiples(b, m, q);
    } else {
      MultiplyKeepsOrder(q, p, m);
      MultiplyKeepsOrder(p, q + 1, m);
    }
  }

  lemma MultipleDivides(k: int, m: int)
    requires m > 0
    ensures k * m % m == 0
  {
    var q := k * m / m;
    assert k * m == q * m + k * m % m;
    MultiplyKeepsOrder(k, q, m);
    MultiplyKeepsOrder(k, q + 1, m);
    MultiplyKeepsOrder(q, k, m);
  }

  lemma RoundIsClose(d: int, m: int)
    requires m > 0 && (2 * (d % m) < m || d + m - d % m <= MAX_DURATION)
    ensures -m < 2 * (Round(d, m) - d) <= m && Round(d, m) % m == 0
  {
    var q := d / m;
    assert d == q * m + d % m;
    MultipleDivides(q, m);
    MultipleDivides(q + 1, m);
    MultiplyKeepsOrder(q, q + 1, m);
  }

  /**
   No 64-bit duration is so large that rounding it overflows, and none is off by more
   than half its unit; halves go up.
   */
  lemma RoundingIsClose(ns: int)
    requires -MAX_DURATION - 1 <= ns <= MAX_DURATION
    ensures -UnitOf(ns) < 2 * (FormatNs(ns) - ns) <= UnitOf(ns)
    ensures FormatNs(ns) <= MAX_DURATION && (UnitOf(ns) > 1 ==> FormatNs(ns) % UnitOf(ns) == 0)
    ensures ns > 0 ==> FormatNs(ns) > 0
    ensures UnitOf(ns) == if ns >= 1_000_000_000 then 10_000_000 else if ns >= 1_000_000 then 100_000
      else if ns >= 1_000 then 1_000 else 1
  {
    if ns >= SECOND {
      RoundIsClose(ns, 10 * MILLISECOND);
    } else if ns >= MILLISECOND {
      RoundIsClose(ns, 100 * MICROSECOND);
    } else if ns >= MICROSECOND {
      RoundIsClose(ns, MICROSECOND);
    }
  }

  /** Printing keeps the order of durations, across the changes of unit too. */
  lemma FormatKeepsOrder(a: int, b: int)
    requires a <= b <= MAX_DURATION
    ensures FormatNs(a) <= FormatNs(b)
  {
    if UnitOf(a) == UnitOf(b) {
      RoundMonotone(a, b, UnitOf(a));
    } else {
      if a >= MICROSECOND {
        RoundBelow(a, UnitOf(a), if a < MILLISECOND then 1000 else 10000);
      }
      RoundAtMultiples(b, UnitOf(b), if b >= SECOND then 100 else if b >= MILLISECOND then 10 else 1);
    }
  }

  /** So the printed column falls just as the rows do. */
  lemma PrintedRowsFall(report: Report, i: nat, j: nat)
    requires i < j < |Collected(report)| && forall row :: row in Collected(report) ==> row.durationNs <= MAX_DURATION
    ensures |Rendered(report)| >= |Collected(report)|
    ensures FormatNs(Rendered(report)[i].durationNs) >= FormatNs(Rendered(report)[j].durationNs)
  {
    UnattributedComesLast(report);
    var sorted := Segments(report);
    var n := |Collected(report)|;
    assert Rendered(report)[..n][i] == sorted[i] && Rendered(report)[..n][j] == sorted[j];
    RowsAreStablySorted(report, sorted[i]);
    SegmentsFall(sorted, Collected(report), i, j);
  }

  lemma SegmentsFall(sorted: seq<Row>, rows: seq<Row>, i: nat, j: nat)
    requires i < j < |sorted| && Sorted(CostsMore, sorted) && multiset(sorted) == multiset(rows)
    requires forall row :: row in rows ==> row.durationNs <= MAX_DURATION
    ensures FormatNs(sorted[i].durationNs) >= FormatNs(sorted[j].durationNs)
  {
    assert CostsMore(sorted[i], sorted[j]);
    InPermutation(sorted, rows, sorted[i]);
    FormatKeepsOrder(sorted[j].durationNs, sorted[i].durationNs);
  }
}
