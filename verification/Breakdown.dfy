/** Per-instructor history of a course, as shown beside a section. */
module Breakdown {
  import opened Text
  import opened Ordering
  import opened Grades
  import opened Scoring
  import opened Instructors

  const COLLAPSE_MIN_EFFECTIVE_N := 15.0

  datatype BreakdownStatus = Ready | LabSection | NoInstructorHistory

  datatype InstructorHistory = InstructorHistory(
    name: string, effectiveN: real, easiness: Option<real>, scored: bool, isCurrent: bool,
    termCount: nat, firstTerm: nat, lastTerm: nat,
    aShare: real, bShare: real, cShare: real, dShare: real, fShare: real)

  datatype BreakdownResult = BreakdownResult(
    status: BreakdownStatus, instructors: seq<InstructorHistory>,
    currentInstructor: Option<string>, currentHasHistory: bool, otherCount: nat,
    scoringMin: real, collapseMin: real)

  type ByInstructor = map<string, seq<GradeObservation>>

  function TermCodes(obs: seq<GradeObservation>): set<nat> {
    set o | o in obs :: o.termCode
  }

  predicate IsBound(codes: set<nat>, c: nat, upper: bool) {
    c in codes && forall x | x in codes :: if upper then x <= c else c <= x
  }

  /** `min(codes)` or `max(codes)`; 0 when there is none. */
  function Extreme(codes: set<nat>, upper: bool): (c: nat)
    ensures codes != {} ==> IsBound(codes, c, upper)
  {
    if codes == {} then 0 else
      ExtremeExists(codes, upper);
      var c :| c in codes && IsBound(codes, c, upper);
      c
  }

  lemma ExtremeExists(codes: set<nat>, upper: bool)
    requires codes != {}
    ensures exists c :: c in codes && IsBound(codes, c, upper)
    decreases |codes|
  {
    var c :| c in codes;
    var rest := codes - {c};
    if rest == {} {
      assert codes == {c} && IsBound({c}, c, upper);
    } else {
      ExtremeExists(rest, upper);
      var d :| d in rest && IsBound(rest, d, upper);
      var e := if (d <= c) == upper then c else d;
      forall x | x in codes ensures if upper then x <= e else e <= x {
        assert x == c || x in rest;
      }
      assert IsBound(codes, e, upper);
    }
  }

  function Share(count: real, counts: GradeCounts): real {
    if Completed(counts) > 0.0 then count / Completed(counts) else 0.0
  }

  /** The row of one instructor, given the statistics that would score a section. */
  function HistoryFrom(
    name: string, counts: GradeCounts, terms: set<nat>, stats: OutcomeStats, isCurrent: bool,
    config: ScoreConfig): InstructorHistory
  {
    var scored := HasSufficientInstructorEvidence(stats, config);
    InstructorHistory(
      name, stats.effectiveN, if scored then Some(stats.easiness) else None, scored, isCurrent,
      |terms|, Extreme(terms, false), Extreme(terms, true),
      Share(counts.a, counts), Share(counts.b, counts), Share(counts.c, counts),
      Share(counts.d, counts), Share(counts.f, counts))
  }

  /** None for an instructor that cannot be scored or whose rows carry no letter grade. */
  function RowOf(
    name: string, obs: seq<GradeObservation>, courseStats: OutcomeStats, current: Option<string>, config: ScoreConfig)
    : Option<InstructorHistory>
  {
    RowFrom(name, SumCounts(obs), TermCodes(obs), InstructorCourseStats(obs, courseStats, config), current, config)
  }

  function RowFrom(
    name: string, counts: GradeCounts, terms: set<nat>, stats: Option<OutcomeStats>, current: Option<string>,
    config: ScoreConfig)
    : Option<InstructorHistory>
  {
    if !IsUsableInstructor(name) || stats.None? || stats.value.effectiveN <= 0.0 then None
    else Some(HistoryFrom(name, counts, terms, stats.value, Some(name) == current, config))
  }

  /** Current instructor first, then the most evidence, then by name. */
  predicate HistoryLess(x: InstructorHistory, y: InstructorHistory) {
    if x.isCurrent != y.isCurrent then x.isCurrent
    else if x.effectiveN != y.effectiveN then x.effectiveN > y.effectiveN
    else StrLess(x.name, y.name)
  }

  function CurrentUsable(current: Option<string>): Option<string> {
    if current.Some? && IsUsableInstructor(current.value) then current else None
  }

  type Histories = map<string, InstructorHistory>

  /** Every instructor with history in the course. */
  function HistoriesOf(
    obsBy: ByInstructor, courseStats: OutcomeStats, current: Option<string>, config: ScoreConfig): Histories
  {
    map name | name in obsBy && RowOf(name, obsBy[name], courseStats, current, config).Some? ::
      RowOf(name, obsBy[name], courseStats, current, config).value
  }

  /** Rows with few grades are counted, not listed, unless the instructor teaches the section. */
  predicate Listed(row: InstructorHistory, collapseMin: real) {
    row.effectiveN >= collapseMin || row.isCurrent
  }

  function ListedRows(histories: Histories, collapseMin: real): set<InstructorHistory> {
    set name | name in histories && Listed(histories[name], collapseMin) :: histories[name]
  }

  function CollapsedNames(histories: Histories, collapseMin: real): set<string> {
    set name | name in histories && !Listed(histories[name], collapseMin)
  }

  predicate NamedByKey(histories: Histories) {
    forall name | name in histories :: histories[name].name == name
  }

  predicate SupportsBreakdown(courseStats: OutcomeStats) {
    courseStats.source == FromCourse && courseStats.effectiveN > 0.0 && courseStats.mappedCount > 0
  }

  predicate NamesDetermine(rows: set<InstructorHistory>) {
    forall x, y | x in rows && y in rows && x.name == y.name :: x == y
  }

  lemma HistoriesNamed(obsBy: ByInstructor, courseStats: OutcomeStats, current: Option<string>, config: ScoreConfig)
    ensures NamedByKey(HistoriesOf(obsBy, courseStats, current, config))
  {
    hide InstructorCourseStats, SumCounts;
  }

  lemma HistoryOrderTotal(rows: set<InstructorHistory>)
    requires NamesDetermine(rows)
    ensures StrictTotalOn(HistoryLess, rows)
  {
    forall x | x in rows ensures !HistoryLess(x, x) {
      StrLessIrreflexive(x.name);
    }
    forall x, y | x in rows && y in rows ensures x == y || HistoryLess(x, y) || HistoryLess(y, x) {
      StrLessTotal(x.name, y.name);
    }
    forall x, y, z | x in rows && y in rows && z in rows && HistoryLess(x, y) && HistoryLess(y, z)
      ensures HistoryLess(x, z)
    {
      if StrLess(x.name, y.name) && StrLess(y.name, z.name) {
        StrLessTransitive(x.name, y.name, z.name);
      }
    }
  }

  /** The listed rows in display order and the count of the others. */
  function ReportOf(histories: Histories, current: Option<string>, scoringMin: real, collapseMin: real): BreakdownResult
    requires NamedByKey(histories)
  {
    var rows := ListedRows(histories, collapseMin);
    HistoryOrderTotal(rows);
    BreakdownResult(
      if histories == map[] then NoInstructorHistory else Ready,
      Sorted(HistoryLess, rows), current, exists r :: r in rows && r.isCurrent,
      |CollapsedNames(histories, collapseMin)|, scoringMin, collapseMin)
  }

  /** The breakdown of a section, or None where the course supports no claim. */
  function BreakdownOf(
    courseStats: OutcomeStats, obsBy: ByInstructor, current: Option<string>, lab: bool, config: ScoreConfig,
    collapseMin: real)
    : Option<BreakdownResult>
  {
    var usable := CurrentUsable(current);
    HistoriesNamed(obsBy, courseStats, usable, config);
    BreakdownFrom(courseStats, HistoriesOf(obsBy, courseStats, usable, config), usable, lab, config.minEffectiveN,
      collapseMin)
  }

  function BreakdownFrom(
    courseStats: OutcomeStats, histories: Histories, usable: Option<string>, lab: bool, scoringMin: real,
    collapseMin: real)
    : Option<BreakdownResult>
    requires NamedByKey(histories)
  {
    if !SupportsBreakdown(courseStats) then None
    else if lab then Some(BreakdownResult(LabSection, [], usable, false, 0, scoringMin, collapseMin))
    else Some(ReportOf(histories, usable, scoringMin, collapseMin))
  }

  /** `rows.sort(key=...)` */
  method SortHistories(rows: seq<InstructorHistory>) returns (sorted: seq<InstructorHistory>)
    requires NamesDetermine(Elements(rows))
    requires forall i, j | 0 <= i < j < |rows| :: rows[i] != rows[j]
    ensures Elements(sorted) == Elements(rows)
    ensures Increasing(HistoryLess, sorted)
  {
    sorted := [];
    HistoryOrderTotal(Elements(rows));
    for k := 0 to |rows|
      invariant Elements(sorted) == Elements(rows[..k])
      invariant Increasing(HistoryLess, sorted)
    {
      ghost var before := sorted;
      assert rows[k] !in Elements(rows[..k]);
      sorted := InsertSorted(sorted, rows[k], Elements(rows));
      assert Elements(rows[..k + 1]) == Elements(rows[..k]) + {rows[k]};
    }
    assert rows[..|rows|] == rows;
  }

  method InsertSorted(xs: seq<InstructorHistory>, x: InstructorHistory, ghost all: set<InstructorHistory>)
    returns (ys: seq<InstructorHistory>)
    requires StrictTotalOn(HistoryLess, all) && x in all && Elements(xs) <= all
    requires Increasing(HistoryLess, xs) && x !in Elements(xs)
    ensures Elements(ys) == Elements(xs) + {x}
    ensures Increasing(HistoryLess, ys)
  {
    hide HistoryLess;
    var k := 0;
    while k < |xs| && HistoryLess(xs[k], x)
      invariant 0 <= k <= |xs|
      invariant forall i | 0 <= i < k :: HistoryLess(xs[i], x)
    {
      k := k + 1;
    }
    assert forall i | 0 <= i < |xs| :: xs[i] in Elements(xs);
    forall i | k <= i < |xs| ensures HistoryLess(x, xs[i]) {
      assert HistoryLess(x, xs[k]);
      if i > k { assert HistoryLess(xs[k], xs[i]); }
    }
    ys := xs[..k] + [x] + xs[k..];
    assert forall y :: y in ys <==> y == x || y in xs;
  }

  /** Walks the instructors in any order, lists or counts each one and sorts the list. */
  method BuildInstructorBreakdown(
    courseStats: OutcomeStats, obsBy: ByInstructor, current: Option<string>, lab: bool, config: ScoreConfig,
    collapseMin: real)
    returns (r: Option<BreakdownResult>)
    ensures r == BreakdownOf(courseStats, obsBy, current, lab, config, collapseMin)
  {
    if courseStats.source != FromCourse || courseStats.effectiveN <= 0.0 || courseStats.mappedCount <= 0 {
      return None;
    }
    var usable := CurrentUsable(current);
    if lab {
      return Some(BreakdownResult(LabSection, [], usable, false, 0, config.minEffectiveN, collapseMin));
    }
    var histories := CollectHistories(courseStats, obsBy, usable, config);
    var report := ReportHistories(histories, usable, config.minEffectiveN, collapseMin);
    r := Some(report);
  }

  method CollectHistories(
    courseStats: OutcomeStats, obsBy: ByInstructor, current: Option<string>, config: ScoreConfig)
    returns (histories: Histories)
    ensures histories == HistoriesOf(obsBy, courseStats, current, config)
  {
    hide RowFrom, InstructorStatsFrom, AggregateOf, SumCounts;
    histories := map[];
    var left := obsBy.Keys;
    while left != {}
      invariant left <= obsBy.Keys
      invariant forall name | name in obsBy.Keys - left ::
        RowOf(name, obsBy[name], courseStats, current, config) == if name in histories then Some(histories[name])
          else None
      invariant histories.Keys <= obsBy.Keys - left
    {
      var name :| name in left;
      left := left - {name};
      var row := RowOf(name, obsBy[name], courseStats, current, config);
      if row.Some? {
        histories := histories[name := row.value];
      }
    }
  }

  method ReportHistories(histories: Histories, current: Option<string>, scoringMin: real, collapseMin: real)
    returns (report: BreakdownResult)
    requires NamedByKey(histories)
    ensures report == ReportOf(histories, current, scoringMin, collapseMin)
  {
    var rows, otherCount := ListHistories(histories, collapseMin);
    var sorted := SortHistories(rows);
    HistoryOrderTotal(Elements(rows));
    SortedUnique(HistoryLess, sorted, Sorted(HistoryLess, ListedRows(histories, collapseMin)));
    var currentListed := AnyCurrent(rows);
    report := BreakdownResult(
      if histories == map[] then NoInstructorHistory else Ready, sorted, current, currentListed,
      otherCount, scoringMin, collapseMin);
  }

  method AnyCurrent(rows: seq<InstructorHistory>) returns (found: bool)
    ensures found <==> exists r :: r in Elements(rows) && r.isCurrent
  {
    for k := 0 to |rows|
      invariant forall i | 0 <= i < k :: !rows[i].isCurrent
    {
      if rows[k].isCurrent {
        assert rows[k] in Elements(rows);
        return true;
      }
    }
    found := false;
  }

  method ListHistories(histories: Histories, collapseMin: real)
    returns (rows: seq<InstructorHistory>, otherCount: nat)
    requires NamedByKey(histories)
    ensures Elements(rows) == ListedRows(histories, collapseMin)
    ensures forall i, j | 0 <= i < j < |rows| :: rows[i] != rows[j]
    ensures otherCount == |CollapsedNames(histories, collapseMin)|
  {
    rows, otherCount := [], 0;
    var left := histories.Keys;
    ghost var names: seq<string>, collapsed: set<string> := [], {};
    while left != {}
      invariant left <= histories.Keys
      invariant IsListing(histories, names, rows)
      invariant otherCount == |collapsed|
      invariant forall name | name in names :: name in histories.Keys - left && Listed(histories[name], collapseMin)
      invariant forall name | name in collapsed ::
        name in histories.Keys - left && !Listed(histories[name], collapseMin)
      invariant forall name | name in histories.Keys - left :: name in names || name in collapsed
    {
      var name :| name in left;
      left := left - {name};
      if Listed(histories[name], collapseMin) {
        rows := rows + [histories[name]];
        names := names + [name];
      } else {
        otherCount := otherCount + 1;
        collapsed := collapsed + {name};
      }
    }
    assert collapsed == CollapsedNames(histories, collapseMin);
    ListingComplete(histories, names, rows, collapseMin);
  }

  ghost predicate IsListing(histories: Histories, names: seq<string>, rows: seq<InstructorHistory>) {
    && |names| == |rows|
    && (forall i | 0 <= i < |names| :: names[i] in histories && rows[i] == histories[names[i]])
    && (forall i, j | 0 <= i < j < |names| :: names[i] != names[j])
  }

  lemma ListingComplete(histories: Histories, names: seq<string>, rows: seq<InstructorHistory>, collapseMin: real)
    requires NamedByKey(histories) && IsListing(histories, names, rows)
    requires forall name :: name in names <==> name in histories && Listed(histories[name], collapseMin)
    ensures Elements(rows) == ListedRows(histories, collapseMin)
    ensures forall i, j | 0 <= i < j < |rows| :: rows[i] != rows[j]
  {
    forall i | 0 <= i < |rows| ensures rows[i] in ListedRows(histories, collapseMin) {
      assert names[i] in names;
    }
    forall r | r in ListedRows(histories, collapseMin) ensures r in rows {
      var name :| name in histories && Listed(histories[name], collapseMin) && r == histories[name];
      var i :| 0 <= i < |names| && names[i] == name;
      assert rows[i] == r;
    }
    forall i, j | 0 <= i < j < |rows| ensures rows[i] != rows[j] {
      assert rows[i].name == names[i] && rows[j].name == names[j];
    }
  }
}
