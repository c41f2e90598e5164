/** Which rows of a historical term back a stored grade row. */
module BackfillSelect {
  import opened Text
  import opened Instructors
  import opened Schema
  import opened SweepPlan
  import opened Fetch

  const CAMPUS_LABELS: set<string> := {"tampa", "off-campus - tampa"}
  const KNOWN_NON_TAMPA: set<string> :=
    {"st. petersburg", "off-campus - st. petersburg", "sarasota-manatee", "off-campus - sarasota-manatee"}
  const BLANK_CAMPUS_LABEL := "(blank)"
  const LABEL_LIMIT := 60

  function NormalizeCampusLabel(campus: string): string {
    Fold(Clean(campus))
  }

  predicate CampusAllowed(campus: string) {
    NormalizeCampusLabel(campus) in CAMPUS_LABELS
  }

  function CampusReportLabel(campus: string): string {
    var collapsed := Clean(campus);
    if collapsed == "" then BLANK_CAMPUS_LABEL
    else if |collapsed| > LABEL_LIMIT then collapsed[..LABEL_LIMIT]
    else collapsed
  }

  /** A label is the cleaned campus, cut to sixty characters, and never empty. */
  lemma ReportLabelMeaning(campus: string)
    ensures 1 <= |CampusReportLabel(campus)| <= 60
    ensures Words(campus) == [] ==> CampusReportLabel(campus) == "(blank)"
    ensures Words(campus) != [] ==> CampusReportLabel(campus) <= Clean(campus)
    ensures Words(campus) != [] && |CampusReportLabel(campus)| < 60 ==> CampusReportLabel(campus) == Clean(campus)
  {
    CleanIdempotent(campus);
  }

  /** CRN to the course keys of its grade rows; None stands for an unattributed one. */
  type GradeKeys = map<string, set<Option<CourseKey>>>

  datatype SelectedRow = SelectedRow(row: Row, courseId: nat)

  datatype RowFate = NotGraded | NonTampa | Unattributed | KeyMismatch | Uncataloged | Kept(courseId: nat)

  function CampusOf(row: Row): string {
    TextOf(Get(row.values, Campus))
  }

  function RowKey(row: Row): CourseKey {
    (NormalizeKey(row.subject), NormalizeKey(row.courseNumber))
  }

  /** Why a row is written or not. */
  function FateOf(row: Row, grades: GradeKeys, courseIds: map<CourseKey, nat>): RowFate {
    if row.crn !in grades then NotGraded
    else if !CampusAllowed(CampusOf(row)) then NonTampa
    else if None in grades[row.crn] then Unattributed
    else if exists k | k in grades[row.crn] :: k != Some(RowKey(row)) then KeyMismatch
    else if RowKey(row) !in courseIds then Uncataloged
    else Kept(courseIds[RowKey(row)])
  }

  /** A row is written exactly when every grade row of its CRN names its course, the campus is
      allowed and the course is known. */
  lemma KeptExactly(row: Row, grades: GradeKeys, courseIds: map<CourseKey, nat>)
    ensures FateOf(row, grades, courseIds).Kept? <==>
      && row.crn in grades && CampusAllowed(CampusOf(row))
      && (forall k | k in grades[row.crn] :: k == Some(RowKey(row)))
      && RowKey(row) in courseIds
  {
  }

  datatype Tally = Tally(
    selected: seq<SelectedRow>, notGraded: nat, nonTampa: nat, unattributed: nat, mismatch: nat, uncataloged: nat,
    byCampus: multiset<string>, nonTampaByLabel: multiset<string>, unknownLabels: multiset<string>, allowed: nat)

  const NO_ROWS := Tally([], 0, 0, 0, 0, 0, multiset{}, multiset{}, multiset{}, 0)

  function Plus(a: Tally, b: Tally): Tally {
    Tally(a.selected + b.selected, a.notGraded + b.notGraded, a.nonTampa + b.nonTampa, a.unattributed + b.unattributed,
          a.mismatch + b.mismatch, a.uncataloged + b.uncataloged, a.byCampus + b.byCampus,
          a.nonTampaByLabel + b.nonTampaByLabel, a.unknownLabels + b.unknownLabels, a.allowed + b.allowed)
  }

  /** Every row, whatever its fate, is counted by campus. */
  function Seen(campus: string): Tally {
    NO_ROWS.(byCampus := multiset{CampusReportLabel(campus)}, allowed := if CampusAllowed(campus) then 1 else 0)
  }

  /** A graded row on a campus the grade source does not file under Tampa. */
  function Excluded(campus: string): Tally {
    Seen(campus).(
      nonTampa := 1, nonTampaByLabel := multiset{CampusReportLabel(campus)},
      unknownLabels := if NormalizeCampusLabel(campus) in KNOWN_NON_TAMPA then multiset{}
        else multiset{CampusReportLabel(campus)})
  }

  /** What one row adds to the counts. */
  function RowTally(row: Row, grades: GradeKeys, courseIds: map<CourseKey, nat>): Tally {
    var s := Seen(CampusOf(row));
    match FateOf(row, grades, courseIds)
    case NotGraded => s.(notGraded := 1)
    case NonTampa => Excluded(CampusOf(row))
    case Unattributed => s.(unattributed := 1)
    case KeyMismatch => s.(mismatch := 1)
    case Uncataloged => s.(uncataloged := 1)
    case Kept(id) => s.(selected := [SelectedRow(row, id)])
  }

  /** A row set aside before normalisation counts as a normalised row of its campus would. */
  function SkippedTally(item: SkippedRow, grades: GradeKeys): Tally {
    if item.crn !in grades then Seen(item.campus).(notGraded := 1)
    else if !CampusAllowed(item.campus) then Excluded(item.campus)
    else Seen(item.campus)
  }

  function TallyRows(rows: seq<Row>, grades: GradeKeys, courseIds: map<CourseKey, nat>): Tally {
    if rows == [] then NO_ROWS
    else Plus(TallyRows(rows[..|rows| - 1], grades, courseIds), RowTally(rows[|rows| - 1], grades, courseIds))
  }

  function TallySkipped(t: Tally, items: seq<SkippedRow>, grades: GradeKeys): Tally {
    if items == [] then t
    else Plus(TallySkipped(t, items[..|items| - 1], grades), SkippedTally(items[|items| - 1], grades))
  }

  function TallyFailures(t: Tally, failures: seq<RowFailure>): Tally {
    if failures == [] then t
    else Plus(TallyFailures(t, failures[..|failures| - 1]), Seen(failures[|failures| - 1].campus))
  }

  function FetchedCrns(rows: seq<Row>, skipped: seq<SkippedRow>, failures: seq<RowFailure>): set<string> {
    (set r | r in rows :: r.crn) + (set s | s in skipped :: s.crn) + (set f | f in failures :: f.crn)
  }

  function CountUnusable(selected: seq<SelectedRow>): nat {
    if selected == [] then 0
    else
      CountUnusable(selected[..|selected| - 1])
      + if IsUsableInstructor(selected[|selected| - 1].row.instructorRaw) then 0 else 1
  }

  /** How often each section type occurs among the rows to write. */
  function SectionTypes(selected: seq<SelectedRow>): multiset<Value> {
    if selected == [] then multiset{}
    else SectionTypes(selected[..|selected| - 1]) + multiset{Get(selected[|selected| - 1].row.values, SectionType)}
  }

  /** `str(row.delivery_method)` */
  function DeliveryLabel(row: Row): string {
    if Get(row.values, DeliveryMethod) == Null then "None" else TextOf(Get(row.values, DeliveryMethod))
  }

  function DeliveryMethods(selected: seq<SelectedRow>): multiset<string> {
    if selected == [] then multiset{}
    else DeliveryMethods(selected[..|selected| - 1]) + multiset{DeliveryLabel(selected[|selected| - 1].row)}
  }

  datatype TermSelection = TermSelection(
    fetched: nat, gradeCrns: nat, tally: Tally, unmatchedGradeCrns: nat, staffOrBlank: nat,
    sectionTypes: multiset<Value>, deliveryMethods: multiset<string>, failures: seq<RowFailure>)
  {
    function ToWrite(): nat { |tally.selected| }
    function Failures(): nat { |failures| }
    function MatchedGradeRows(): int { fetched - tally.notGraded - |failures| }
    function SkippedGradedRows(): nat { tally.nonTampa + tally.unattributed + tally.mismatch + tally.uncataloged }
  }

  function SelectionOf(
    rows: seq<Row>, grades: GradeKeys, courseIds: map<CourseKey, nat>, skipped: seq<SkippedRow>,
    failures: seq<RowFailure>): TermSelection
  {
    var t := TallyFailures(TallySkipped(TallyRows(rows, grades, courseIds), skipped, grades), failures);
    TermSelection(|rows| + |skipped| + |failures|, |grades|, t,
                  |set c | c in grades && c !in FetchedCrns(rows, skipped, failures)|, CountUnusable(t.selected),
                  SectionTypes(t.selected), DeliveryMethods(t.selected), failures)
  }

  /** None is `BackfillGuardError`: an allowed row was set aside without being read. */
  method SelectBackfillRows(
    rows: seq<Row>, grades: GradeKeys, courseIds: map<CourseKey, nat>, skipped: seq<SkippedRow>,
    failures: seq<RowFailure>)
    returns (r: Option<TermSelection>)
    ensures r.None? <==> exists s | s in skipped :: CampusAllowed(s.campus)
    ensures r.Some? ==> r.value == SelectionOf(rows, grades, courseIds, skipped, failures)
  {
    hide RowTally, SkippedTally, Seen, Plus, CampusAllowed, IsUsableInstructor, DeliveryLabel;
    var t := NO_ROWS;
    for k := 0 to |rows|
      invariant t == TallyRows(rows[..k], grades, courseIds)
    {
      assert rows[..k + 1][..k] == rows[..k];
      t := Plus(t, RowTally(rows[k], grades, courseIds));
    }
    assert rows[..|rows|] == rows;
    ghost var read := t;
    for k := 0 to |skipped|
      invariant t == TallySkipped(read, skipped[..k], grades)
      invariant forall s | s in skipped[..k] :: !CampusAllowed(s.campus)
    {
      assert skipped[..k + 1][..k] == skipped[..k] && skipped[k] in skipped;
      if CampusAllowed(skipped[k].campus) {
        return None;
      }
      t := Plus(t, SkippedTally(skipped[k], grades));
    }
    assert skipped[..|skipped|] == skipped;
    ghost var gated := t;
    for k := 0 to |failures|
      invariant t == TallyFailures(gated, failures[..k])
    {
      assert failures[..k + 1][..k] == failures[..k];
      t := Plus(t, Seen(failures[k].campus));
    }
    assert failures[..|failures|] == failures;
    var fetched := FetchedCrns(rows, skipped, failures);
    r := Some(TermSelection(|rows| + |skipped| + |failures|, |grades|, t, |set c | c in grades && c !in fetched|,
                            CountUnusable(t.selected), SectionTypes(t.selected), DeliveryMethods(t.selected),
                              failures));
  }

  // ---- Conservation ----

  function Counted(t: Tally): nat {
    |t.selected| + t.notGraded + t.nonTampa + t.unattributed + t.mismatch + t.uncataloged
  }

  ghost predicate LabelsAgree(t: Tally) {
    |t.nonTampaByLabel| == t.nonTampa && t.unknownLabels <= t.nonTampaByLabel
  }

  lemma {:induction false} RowsCounted(rows: seq<Row>, grades: GradeKeys, courseIds: map<CourseKey, nat>)
    ensures var t := TallyRows(rows, grades, courseIds);
      Counted(t) == |rows| && |t.byCampus| == |rows| && LabelsAgree(t)
  {
    hide RowTally;
    if rows != [] {
      var n := |rows| - 1;
      RowsCounted(rows[..n], grades, courseIds);
      RowCounted(rows[n], grades, courseIds);
    }
  }

  lemma RowCounted(row: Row, grades: GradeKeys, courseIds: map<CourseKey, nat>)
    ensures var t := RowTally(row, grades, courseIds); Counted(t) == 1 && |t.byCampus| == 1 && LabelsAgree(t)
  {
    hide CampusReportLabel, CampusAllowed, NormalizeCampusLabel, FateOf;
  }

  lemma {:induction false} SkippedCounted(t: Tally, items: seq<SkippedRow>, grades: GradeKeys)
    requires LabelsAgree(t) && forall s | s in items :: !CampusAllowed(s.campus)
    ensures var u := TallySkipped(t, items, grades);
      Counted(u) == Counted(t) + |items| && |u.byCampus| == |t.byCampus| + |items| && LabelsAgree(u) &&
        u.selected == t.selected
  {
    hide CampusAllowed, SkippedTally;
    if items != [] {
      var n := |items| - 1;
      SkippedCounted(t, items[..n], grades);
      assert items[n] in items;
      ItemCounted(items[n], grades);
    }
  }

  lemma ItemCounted(item: SkippedRow, grades: GradeKeys)
    requires !CampusAllowed(item.campus)
    ensures var t := SkippedTally(item, grades);
      Counted(t) == 1 && |t.byCampus| == 1 && LabelsAgree(t) && t.selected == []
  {
    hide CampusReportLabel, NormalizeCampusLabel;
  }

  lemma {:induction false} FailuresCounted(t: Tally, failures: seq<RowFailure>)
    requires LabelsAgree(t)
    ensures var u := TallyFailures(t, failures);
      Counted(u) == Counted(t) && |u.byCampus| == |t.byCampus| + |failures| && LabelsAgree(u) &&
        u.selected == t.selected
      && u.notGraded == t.notGraded
  {
    hide CampusReportLabel, CampusAllowed, NormalizeCampusLabel;
    if failures != [] {
      FailuresCounted(t, failures[..|failures| - 1]);
    }
  }

  lemma {:induction false} HistogramsCount(selected: seq<SelectedRow>)
    ensures |SectionTypes(selected)| == |DeliveryMethods(selected)| == |selected|
  {
    hide DeliveryLabel;
    if selected != [] {
      HistogramsCount(selected[..|selected| - 1]);
    }
  }

  /** Every fetched row is accounted for exactly once, and every campus label is counted. */
  lemma SelectionConserves(
    rows: seq<Row>, grades: GradeKeys, courseIds: map<CourseKey, nat>, skipped: seq<SkippedRow>,
    failures: seq<RowFailure>)
    requires forall s | s in skipped :: !CampusAllowed(s.campus)
    ensures var s := SelectionOf(rows, grades, courseIds, skipped, failures);
      && s.fetched == s.ToWrite() + s.tally.notGraded + s.SkippedGradedRows() + s.Failures()
      && s.MatchedGradeRows() == s.ToWrite() + s.SkippedGradedRows()
      && |s.tally.byCampus| == s.fetched
      && |s.tally.nonTampaByLabel| == s.tally.nonTampa && s.tally.unknownLabels <= s.tally.nonTampaByLabel
      && |s.sectionTypes| == |s.deliveryMethods| == s.ToWrite()
  {
    HistogramsCount(SelectionOf(rows, grades, courseIds, skipped, failures).tally.selected);
    hide SectionTypes, DeliveryMethods, TallyRows, TallySkipped, TallyFailures, FetchedCrns, CampusAllowed,
      CountUnusable;
    RowsCounted(rows, grades, courseIds);
    SkippedCounted(TallyRows(rows, grades, courseIds), skipped, grades);
    FailuresCounted(TallySkipped(TallyRows(rows, grades, courseIds), skipped, grades), failures);
  }

  // ---- Each count, by what it counts ----

  /** How many rows satisfy a condition. */
  function RowsWhere(rows: seq<Row>, holds: Row -> bool): nat {
    if rows == [] then 0 else RowsWhere(rows[..|rows| - 1], holds) + if holds(rows[|rows| - 1]) then 1 else 0
  }

  function ItemsWhere(items: seq<SkippedRow>, holds: SkippedRow -> bool): nat {
    if items == [] then 0 else ItemsWhere(items[..|items| - 1], holds) + if holds(items[|items| - 1]) then 1 else 0
  }

  function SelectedWhere(selected: seq<SelectedRow>, holds: SelectedRow -> bool): nat {
    if selected == [] then 0
    else SelectedWhere(selected[..|selected| - 1], holds) + if holds(selected[|selected| - 1]) then 1 else 0
  }

  /** Each histogram entry of the rows to write, and the names that say nothing. */
  lemma {:induction false} HistogramsMeaning(selected: seq<SelectedRow>)
    ensures forall v ::
      SectionTypes(selected)[v] == SelectedWhere(selected, (it: SelectedRow) => Get(it.row.values, SectionType) == v)
    ensures forall l ::
      DeliveryMethods(selected)[l] == SelectedWhere(selected, (it: SelectedRow) => DeliveryLabel(it.row) == l)
    ensures CountUnusable(selected) == SelectedWhere(selected, (it: SelectedRow) =>
      Strip(it.row.instructorRaw) == "" || Fold(Strip(it.row.instructorRaw)) == "staff")
  {
    hide DeliveryLabel;
    if selected != [] {
      HistogramsMeaning(selected[..|selected| - 1]);
    }
  }

  predicate OnCampus(row: Row) {
    Fold(Clean(TextOf(Get(row.values, Campus)))) in {"tampa", "off-campus - tampa"}
  }

  predicate GradedHere(row: Row, grades: GradeKeys) {
    row.crn in grades && OnCampus(row)
  }

  /** All grade rows of the CRN are attributed. */
  predicate Attributed(row: Row, grades: GradeKeys) {
    GradedHere(row, grades) && None !in grades[row.crn]
  }

  /** And all to the row's own course. */
  predicate OwnCourse(row: Row, grades: GradeKeys) {
    Attributed(row, grades) && forall k | k in grades[row.crn] ::
      k == Some((NormalizeKey(row.subject), NormalizeKey(row.courseNumber)))
  }

  predicate Cataloged(row: Row, courseIds: map<CourseKey, nat>) {
    (NormalizeKey(row.subject), NormalizeKey(row.courseNumber)) in courseIds
  }

  /** The rows to write, in order, each with the id of its course. */
  function ToWriteOf(rows: seq<Row>, grades: GradeKeys, courseIds: map<CourseKey, nat>): seq<SelectedRow> {
    if rows == [] then []
    else
      var last := rows[|rows| - 1];
      ToWriteOf(rows[..|rows| - 1], grades, courseIds)
      + if OwnCourse(last, grades) && Cataloged(last, courseIds)
        then [SelectedRow(last, courseIds[(NormalizeKey(last.subject), NormalizeKey(last.courseNumber))])] else []
  }

  /** A tally that counts just these rows, and no set-aside ones. */
  ghost predicate CountsRows(t: Tally, rows: seq<Row>, grades: GradeKeys, courseIds: map<CourseKey, nat>) {
    && t.selected == ToWriteOf(rows, grades, courseIds)
    && t.notGraded == RowsWhere(rows, (r: Row) => r.crn !in grades)
    && t.nonTampa == RowsWhere(rows, (r: Row) => r.crn in grades && !OnCampus(r))
    && t.unattributed == RowsWhere(rows, (r: Row) => GradedHere(r, grades) && !Attributed(r, grades))
    && t.mismatch == RowsWhere(rows, (r: Row) => Attributed(r, grades) && !OwnCourse(r, grades))
    && t.uncataloged == RowsWhere(rows, (r: Row) => OwnCourse(r, grades) && !Cataloged(r, courseIds))
    && t.allowed == RowsWhere(rows, (r: Row) => OnCampus(r))
  }

  lemma FateWrittenOut(row: Row, grades: GradeKeys, courseIds: map<CourseKey, nat>)
    ensures var fate := FateOf(row, grades, courseIds);
      && (fate == NotGraded <==> row.crn !in grades)
      && (fate == NonTampa <==> row.crn in grades && !OnCampus(row))
      && (fate == Unattributed <==> GradedHere(row, grades) && !Attributed(row, grades))
      && (fate == KeyMismatch <==> Attributed(row, grades) && !OwnCourse(row, grades))
      && (fate == Uncataloged <==> OwnCourse(row, grades) && !Cataloged(row, courseIds))
      && (fate.Kept? <==> OwnCourse(row, grades) && Cataloged(row, courseIds))
      && (fate.Kept? ==> fate.courseId == courseIds[(NormalizeKey(row.subject), NormalizeKey(row.courseNumber))])
      && (CampusAllowed(CampusOf(row)) <==> OnCampus(row))
  {
    hide NormalizeKey, Fold, Clean, Get;
  }

  lemma {:induction false} RowsCountedByFate(rows: seq<Row>, grades: GradeKeys, courseIds: map<CourseKey, nat>)
    ensures CountsRows(TallyRows(rows, grades, courseIds), rows, grades, courseIds)
  {
    hide OwnCourse, Attributed, GradedHere, OnCampus, Cataloged, NormalizeKey, RowTally;
    if rows != [] {
      var n := |rows| - 1;
      RowsCountedByFate(rows[..n], grades, courseIds);
      RowAdds(rows[n], grades, courseIds);
    }
  }

  lemma RowAdds(row: Row, grades: GradeKeys, courseIds: map<CourseKey, nat>)
    ensures var t := RowTally(row, grades, courseIds);
      && t.selected == (
           if OwnCourse(row, grades) && Cataloged(row, courseIds)
           then [SelectedRow(row, courseIds[(NormalizeKey(row.subject), NormalizeKey(row.courseNumber))])] else [])
      && t.notGraded == (if row.crn !in grades then 1 else 0)
      && t.nonTampa == (if row.crn in grades && !OnCampus(row) then 1 else 0)
      && t.unattributed == (if GradedHere(row, grades) && !Attributed(row, grades) then 1 else 0)
      && t.mismatch == (if Attributed(row, grades) && !OwnCourse(row, grades) then 1 else 0)
      && t.uncataloged == (if OwnCourse(row, grades) && !Cataloged(row, courseIds) then 1 else 0)
      && t.allowed == (if OnCampus(row) then 1 else 0)
  {
    FateWrittenOut(row, grades, courseIds);
    hide FateOf, CampusAllowed, CampusOf, CampusReportLabel, NormalizeCampusLabel, OwnCourse, Attributed, GradedHere,
      OnCampus, NormalizeKey;
  }

  /** What the set-aside rows and the failures add. */
  lemma {:induction false} SkippedCountedByFate(t: Tally, items: seq<SkippedRow>, grades: GradeKeys)
    requires forall s | s in items :: !CampusAllowed(s.campus)
    ensures var u := TallySkipped(t, items, grades);
      && u.selected == t.selected && u.unattributed == t.unattributed && u.mismatch == t.mismatch
      && u.uncataloged == t.uncataloged && u.allowed == t.allowed
      && u.notGraded == t.notGraded + ItemsWhere(items, (s: SkippedRow) => s.crn !in grades)
      && u.nonTampa == t.nonTampa + ItemsWhere(items, (s: SkippedRow) => s.crn in grades)
  {
    hide CampusAllowed, CampusReportLabel, NormalizeCampusLabel;
    if items != [] {
      var n := |items| - 1;
      SkippedCountedByFate(t, items[..n], grades);
      assert items[n] in items;
    }
  }

  lemma {:induction false} FailuresAddNothing(t: Tally, failures: seq<RowFailure>)
    ensures var u := TallyFailures(t, failures);
      && u.selected == t.selected && u.unattributed == t.unattributed && u.mismatch == t.mismatch
      && u.uncataloged == t.uncataloged && u.notGraded == t.notGraded && u.nonTampa == t.nonTampa
  {
    hide CampusAllowed, CampusReportLabel, NormalizeCampusLabel;
    if failures != [] {
      FailuresAddNothing(t, failures[..|failures| - 1]);
    }
  }

  /** Every count of a selection, by what it counts, and the rows to write in order. */
  lemma SelectionCountsExactly(
    rows: seq<Row>, grades: GradeKeys, courseIds: map<CourseKey, nat>, skipped: seq<SkippedRow>,
    failures: seq<RowFailure>)
    requires forall s | s in skipped :: !CampusAllowed(s.campus)
    ensures var t := SelectionOf(rows, grades, courseIds, skipped, failures).tally;
      && t.selected == ToWriteOf(rows, grades, courseIds)
      && t.notGraded == RowsWhere(rows, (r: Row) => r.crn !in grades) +
        ItemsWhere(skipped, (s: SkippedRow) => s.crn !in grades)
      && t.nonTampa ==
           RowsWhere(rows, (r: Row) => r.crn in grades && !OnCampus(r)) +
             ItemsWhere(skipped, (s: SkippedRow) => s.crn in grades)
      && t.unattributed == RowsWhere(rows, (r: Row) => GradedHere(r, grades) && !Attributed(r, grades))
      && t.mismatch == RowsWhere(rows, (r: Row) => Attributed(r, grades) && !OwnCourse(r, grades))
      && t.uncataloged == RowsWhere(rows, (r: Row) => OwnCourse(r, grades) && !Cataloged(r, courseIds))
  {
    RowsCountedByFate(rows, grades, courseIds);
    SkippedCountedByFate(TallyRows(rows, grades, courseIds), skipped, grades);
    FailuresAddNothing(TallySkipped(TallyRows(rows, grades, courseIds), skipped, grades), failures);
    hide TallyRows, TallySkipped, TallyFailures, FetchedCrns, CampusAllowed, CountUnusable, SectionTypes,
      DeliveryMethods,
      RowsWhere, ItemsWhere, ToWriteOf;
  }

  // ---- The campus gate does not show ----

  function GateItem(row: Row): SkippedRow {
    SkippedRow(row.crn, CampusOf(row))
  }

  /** Setting an excluded row aside counts it as reading it would. */
  lemma SkippingIsReading(row: Row, grades: GradeKeys, courseIds: map<CourseKey, nat>)
    requires !CampusAllowed(CampusOf(row))
    ensures SkippedTally(GateItem(row), grades) == RowTally(row, grades, courseIds)
  {
    hide CampusReportLabel, NormalizeCampusLabel, Seen, Excluded;
  }

  /** The order in which rows and set-aside items are counted does not matter. */
  lemma CountingCommutes(t: Tally, a: Tally, b: Tally)
    requires b.selected == []
    ensures Plus(Plus(t, a), b) == Plus(Plus(t, b), a)
  {
    assert (t.selected + a.selected) + [] == (t.selected + []) + a.selected;
    assert t.byCampus + a.byCampus + b.byCampus == t.byCampus + b.byCampus + a.byCampus;
    assert t.nonTampaByLabel + a.nonTampaByLabel + b.nonTampaByLabel ==
      t.nonTampaByLabel + b.nonTampaByLabel + a.nonTampaByLabel;
    assert t.unknownLabels + a.unknownLabels + b.unknownLabels == t.unknownLabels + b.unknownLabels + a.unknownLabels;
  }

  function Allowed(rows: seq<Row>): seq<Row> {
    if rows == [] then []
    else
      var last := rows[|rows| - 1];
      Allowed(rows[..|rows| - 1]) + if CampusAllowed(CampusOf(last)) then [last] else []
  }

  function SetAside(rows: seq<Row>): seq<SkippedRow> {
    if rows == [] then []
    else
      var last := rows[|rows| - 1];
      SetAside(rows[..|rows| - 1]) + if CampusAllowed(CampusOf(last)) then [] else [GateItem(last)]
  }

  lemma {:induction false} SkippedAfter(t: Tally, a: Tally, items: seq<SkippedRow>, grades: GradeKeys)
    ensures TallySkipped(Plus(t, a), items, grades) == Plus(TallySkipped(t, items, grades), a)
  {
    hide Plus;
    if items != [] {
      var n := |items| - 1;
      SkippedAfter(t, a, items[..n], grades);
      NothingSelected(items[n], grades);
      CountingCommutes(TallySkipped(t, items[..n], grades), a, SkippedTally(items[n], grades));
    }
  }

  lemma NothingSelected(item: SkippedRow, grades: GradeKeys)
    ensures SkippedTally(item, grades).selected == []
  {
    hide CampusReportLabel, CampusAllowed, NormalizeCampusLabel;
  }

  lemma {:induction false} GatedTally(rows: seq<Row>, grades: GradeKeys, courseIds: map<CourseKey, nat>)
    ensures TallySkipped(TallyRows(Allowed(rows), grades, courseIds), SetAside(rows), grades) ==
      TallyRows(rows, grades, courseIds)
    ensures |Allowed(rows)| + |SetAside(rows)| == |rows|
    ensures FetchedCrns(Allowed(rows), SetAside(rows), []) == FetchedCrns(rows, [], [])
    ensures forall s | s in SetAside(rows) :: !CampusAllowed(s.campus)
  {
    hide Plus, RowTally, SkippedTally, CampusAllowed, FetchedCrns;
    if rows == [] {
      NothingFetched();
    } else {
      var n := |rows| - 1;
      GatedTally(rows[..n], grades, courseIds);
      FetchedMore(rows);
      Lasts(rows);
      var kept, aside := Allowed(rows[..n]), SetAside(rows[..n]);
      if CampusAllowed(CampusOf(rows[n])) {
        TallyAppend(kept, rows[n], grades, courseIds);
        SkippedAfter(TallyRows(kept, grades, courseIds), RowTally(rows[n], grades, courseIds), aside, grades);
      } else {
        assert (aside + [GateItem(rows[n])])[..|aside|] == aside;
        SkippingIsReading(rows[n], grades, courseIds);
      }
    }
  }

  lemma TallyAppend(rows: seq<Row>, row: Row, grades: GradeKeys, courseIds: map<CourseKey, nat>)
    ensures TallyRows(rows + [row], grades, courseIds) ==
      Plus(TallyRows(rows, grades, courseIds), RowTally(row, grades, courseIds))
  {
    hide Plus, RowTally;
    assert (rows + [row])[..|rows|] == rows;
  }

  lemma NothingFetched()
    ensures FetchedCrns(Allowed([]), SetAside([]), []) == FetchedCrns([], [], [])
  {
  }

  lemma FetchedMore(rows: seq<Row>)
    requires rows != []
    ensures var n := |rows| - 1;
      FetchedCrns(Allowed(rows[..n]), SetAside(rows[..n]), []) == FetchedCrns(rows[..n], [], []) ==>
      FetchedCrns(Allowed(rows), SetAside(rows), []) == FetchedCrns(rows, [], [])
  {
    hide Allowed, SetAside, CampusAllowed, CampusOf;
    var n := |rows| - 1;
    FetchedLast(rows[..n], rows[n], [], GateItem(rows[n]));
    FetchedLast(Allowed(rows[..n]), rows[n], SetAside(rows[..n]), GateItem(rows[n]));
    assert rows[..n] + [rows[n]] == rows;
    Lasts(rows);
  }

  lemma Lasts(rows: seq<Row>)
    requires rows != []
    ensures var n := |rows| - 1;
      if CampusAllowed(CampusOf(rows[n]))
      then Allowed(rows) == Allowed(rows[..n]) + [rows[n]] && SetAside(rows) == SetAside(rows[..n])
      else Allowed(rows) == Allowed(rows[..n]) && SetAside(rows) == SetAside(rows[..n]) + [GateItem(rows[n])]
  {
  }

  lemma FetchedLast(rows: seq<Row>, row: Row, items: seq<SkippedRow>, item: SkippedRow)
    ensures FetchedCrns(rows + [row], items, []) == FetchedCrns(rows, items, []) + {row.crn}
    ensures FetchedCrns(rows, items + [item], []) == FetchedCrns(rows, items, []) + {item.crn}
  {
    assert forall r :: r in rows + [row] <==> r in rows || r == row;
    assert forall i :: i in items + [item] <==> i in items || i == item;
  }

  /** Gating by campus before normalisation gives the selection that reading every row gives. */
  lemma GateIsInvisible(rows: seq<Row>, grades: GradeKeys, courseIds: map<CourseKey, nat>)
    ensures SelectionOf(Allowed(rows), grades, courseIds, SetAside(rows), []) ==
      SelectionOf(rows, grades, courseIds, [], [])
  {
    hide TallyRows, FetchedCrns, CampusAllowed, CountUnusable, SectionTypes, DeliveryMethods, RowTally,
      SkippedTally, Plus;
    GatedTally(rows, grades, courseIds);
  }

  // ---- End to end with the parser ----

  /** `normalize_schedule_row` strips the CRN and the campus of a row. */
  ghost predicate KeepsIdentity(normalise: Normaliser) {
    forall p: ParsedRow | normalise(p).Some? ::
      normalise(p).value.crn == Strip(p.crn) && CampusOf(normalise(p).value) == Strip(p.campus)
  }

  /** `backfill_row_gate` */
  function CampusGate(): RowGate {
    (row: ParsedRow) => CampusAllowed(row.campus)
  }

  lemma StrippedCampus(campus: string)
    ensures CampusAllowed(Strip(campus)) == CampusAllowed(campus)
  {
    StripKeepsWords(campus);
  }

  lemma {:induction false} GatedRows(parsed: seq<ParsedRow>, normalise: Normaliser)
    requires KeepsIdentity(normalise) && forall p | p in parsed :: normalise(p).Some?
    ensures NormalRows(parsed, Some(CampusGate()), normalise) == Allowed(NormalRows(parsed, None, normalise))
    ensures SkippedRows(parsed, Some(CampusGate())) == SetAside(NormalRows(parsed, None, normalise))
  {
    hide CampusAllowed, Strip, CampusOf;
    if parsed != [] {
      var n := |parsed| - 1;
      GatedRows(parsed[..n], normalise);
      assert parsed[n] in parsed;
      StrippedCampus(parsed[n].campus);
      var before, last := NormalRows(parsed[..n], None, normalise), normalise(parsed[n]).value;
      Lasts(before + [last]);
      assert (before + [last])[..|before|] == before;
    }
  }

  /** When every row normalises, the campus gate before normalisation cannot be told from no gate. */
  lemma GateBeforeNormalisingIsInvisible(
    parsed: seq<ParsedRow>, normalise: Normaliser, grades: GradeKeys, courseIds: map<CourseKey, nat>)
    requires KeepsIdentity(normalise) && forall p | p in parsed :: normalise(p).Some?
    ensures SelectionOf(NormalRows(parsed, Some(CampusGate()), normalise), grades, courseIds,
      SkippedRows(parsed, Some(CampusGate())),
                        FailedRows(parsed, Some(CampusGate()), normalise))
         == SelectionOf(NormalRows(parsed, None, normalise), grades, courseIds, SkippedRows(parsed, None),
           FailedRows(parsed, None, normalise))
  {
    hide SelectionOf, CampusAllowed;
    RowsPartition(parsed, Some(CampusGate()), normalise);
    RowsPartition(parsed, None, normalise);
    NoneSkipped(parsed);
    GatedRows(parsed, normalise);
    GateIsInvisible(NormalRows(parsed, None, normalise), grades, courseIds);
  }

  lemma {:induction false} NoneSkipped(parsed: seq<ParsedRow>)
    ensures SkippedRows(parsed, None) == []
  {
    if parsed != [] {
      NoneSkipped(parsed[..|parsed| - 1]);
    }
  }
}
