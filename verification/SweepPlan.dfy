/** The change-only diff: what a scoped response changes relative to the database. */
module SweepPlan {
  import opened Text
  import opened Instructors
  import opened Schema

  /** A normalised schedule row. */
  datatype Row = Row(crn: string, subject: string, courseNumber: string, instructorRaw: string, values: Values)
  {
    function Key(): CourseKey { (subject, courseNumber) }
  }

  datatype ExistingSection = ExistingSection(
    id: nat, crn: string, courseId: nat, removedAt: Option<int>, inScope: bool, values: Values)

  /** The per-section part of the state the diff reads. */
  datatype TermView = TermView(
    sections: map<string, ExistingSection>, subjects: map<string, string>,
    states: map<nat, InstructorState>, seats: map<nat, SeatValues>)

  datatype DbState = DbState(
    view: TermView, courseIds: map<CourseKey, nat>,
    activeInScope: nat, activeSubjects: set<string>, lastSuccess: Option<nat>)

  datatype SectionInsert = SectionInsert(row: Row, courseId: nat)

  datatype Plan = Plan(
    recordsSeen: nat,
    inserts: seq<SectionInsert>,
    fieldUpdates: map<nat, Values>,
    instructorAppends: seq<(nat, string)>,
    snapshotAppends: seq<(nat, SeatValues)>,
    removals: set<nat>,
    restores: seq<nat>,
    seenCrns: set<string>,
    unknown: map<CourseKey, seq<Row>>)
  {
    /** A cached ranking field can change: anything but a seat-only sweep. */
    predicate StructuralChange() {
      || inserts != [] || removals != {} || restores != [] || instructorAppends != []
      || exists id | id in fieldUpdates :: StructuralUpdate(fieldUpdates[id])
    }
  }

  predicate StructuralUpdate(changed: Values) {
    exists f | f in changed :: f !in SEAT_FIELDS
  }

  ghost predicate RowsOk(rows: seq<Row>) {
    forall r | r in rows :: Full(r.values)
  }

  ghost predicate DistinctCrns(rows: seq<Row>) {
    forall i, j | 0 <= i < j < |rows| :: rows[i].crn != rows[j].crn
  }

  /** One entry per CRN, and one CRN per section. */
  ghost predicate ViewOk(view: TermView) {
    && (forall c | c in view.sections :: view.sections[c].crn == c)
    && (forall c, d | c in view.sections && d in view.sections && view.sections[c].id == view.sections[d].id :: c == d)
  }

  predicate InstructorChanged(state: Option<InstructorState>, newName: string) {
    if state.None? || state.value.status == NoObservations then true
    else if state.value.status == BlankLatest then NameKey(newName) != ""
    else Keys(state.value.latestNames) != [NameKey(newName)]
  }

  function Keys(names: seq<string>): seq<string> {
    seq(|names|, i requires 0 <= i < |names| => NameKey(names[i]))
  }

  function StateIn(view: TermView, id: nat): Option<InstructorState> {
    if id in view.states then Some(view.states[id]) else None
  }

  function SeatsIn(view: TermView, id: nat): Option<SeatValues> {
    if id in view.seats then Some(view.seats[id]) else None
  }

  function ChangedFields(stored: Values, fetched: Values): Values {
    map f | f in fetched && Get(stored, f) != fetched[f] :: fetched[f]
  }

  // ---- The parts of the plan, row by row ----

  predicate Known(row: Row, st: DbState) {
    row.crn in st.view.sections
  }

  function ExistingId(row: Row, st: DbState): nat
    requires Known(row, st)
  {
    st.view.sections[row.crn].id
  }

  function Inserts(rows: seq<Row>, st: DbState): seq<SectionInsert> {
    if rows == [] then []
    else
      var row := rows[|rows| - 1];
      Inserts(rows[..|rows| - 1], st)
      + if !Known(row, st) && row.Key() in st.courseIds then [SectionInsert(row, st.courseIds[row.Key()])] else []
  }

  predicate Updates(row: Row, st: DbState) {
    Known(row, st) && ChangedFields(st.view.sections[row.crn].values, row.values) != map[]
  }

  function FieldUpdates(rows: seq<Row>, st: DbState): map<nat, Values> {
    if rows == [] then map[]
    else
      var row := rows[|rows| - 1];
      var rest := FieldUpdates(rows[..|rows| - 1], st);
      if Updates(row, st)
      then rest[ExistingId(row, st) := ChangedFields(st.view.sections[row.crn].values, row.values)] else rest
  }

  predicate Restores(row: Row, st: DbState) {
    Known(row, st) && st.view.sections[row.crn].removedAt.Some?
  }

  function RestoreIds(rows: seq<Row>, st: DbState): seq<nat> {
    if rows == [] then []
    else
      var row := rows[|rows| - 1];
      RestoreIds(rows[..|rows| - 1], st) + if Restores(row, st) then [ExistingId(row, st)] else []
  }

  predicate Appends(row: Row, st: DbState) {
    Known(row, st) && InstructorChanged(StateIn(st.view, ExistingId(row, st)), row.instructorRaw)
  }

  function InstructorAppends(rows: seq<Row>, st: DbState): seq<(nat, string)> {
    if rows == [] then []
    else
      var row := rows[|rows| - 1];
      InstructorAppends(rows[..|rows| - 1], st)
      + if Appends(row, st) then [(ExistingId(row, st), row.instructorRaw)] else []
  }

  predicate Snapshots(row: Row, st: DbState) {
    Known(row, st) && SeatsIn(st.view, ExistingId(row, st)) != Some(SeatsOf(row.values))
  }

  function SnapshotAppends(rows: seq<Row>, st: DbState): seq<(nat, SeatValues)> {
    if rows == [] then []
    else
      var row := rows[|rows| - 1];
      SnapshotAppends(rows[..|rows| - 1], st)
      + if Snapshots(row, st) then [(ExistingId(row, st), SeatsOf(row.values))] else []
  }

  predicate Unapplied(row: Row, st: DbState) {
    !Known(row, st) && row.Key() !in st.courseIds
  }

  function RowsUnder(unknown: map<CourseKey, seq<Row>>, key: CourseKey): seq<Row> {
    if key in unknown then unknown[key] else []
  }

  function Unknown(rows: seq<Row>, st: DbState): map<CourseKey, seq<Row>> {
    if rows == [] then map[]
    else
      var row := rows[|rows| - 1];
      var rest := Unknown(rows[..|rows| - 1], st);
      if Unapplied(row, st) then rest[row.Key() := RowsUnder(rest, row.Key()) + [row]] else rest
  }

  function Crns(rows: seq<Row>): set<string> {
    set r | r in rows :: r.crn
  }

  /** Active in-scope CRNs that the response does not list. */
  function MissingCrns(rows: seq<Row>, view: TermView): set<string> {
    set c | c in view.sections && view.sections[c].inScope && view.sections[c].removedAt.None? && c !in Crns(rows)
  }

  function Removals(rows: seq<Row>, view: TermView): set<nat> {
    set c | c in MissingCrns(rows, view) :: view.sections[c].id
  }

  function PlanOf(rows: seq<Row>, st: DbState): Plan {
    Plan(|rows|, Inserts(rows, st), FieldUpdates(rows, st), InstructorAppends(rows, st), SnapshotAppends(rows, st),
         Removals(rows, st.view), RestoreIds(rows, st), Crns(rows), Unknown(rows, st))
  }

  lemma NothingYet(st: DbState)
    ensures Inserts([], st) == [] && FieldUpdates([], st) == map[] && InstructorAppends([], st) == []
    ensures SnapshotAppends([], st) == [] && RestoreIds([], st) == [] && Unknown([], st) == map[] && Crns([]) == {}
  {
  }

  /** What one more row adds to each part of the plan. */
  lemma RowStep(rows: seq<Row>, k: nat, st: DbState)
    requires k < |rows|
    ensures var before, upTo, row := rows[..k], rows[..k + 1], rows[k];
      && Inserts(upTo, st) ==
        Inserts(before, st) +
          (if !Known(row, st) && row.Key() in st.courseIds then [SectionInsert(row, st.courseIds[row.Key()])] else [])
      && FieldUpdates(upTo, st) == (
           if Updates(row, st)
           then FieldUpdates(before, st)[
             ExistingId(row, st) := ChangedFields(st.view.sections[row.crn].values, row.values)]
           else FieldUpdates(before, st))
      && InstructorAppends(upTo, st) ==
        InstructorAppends(before, st) + (if Appends(row, st) then [(ExistingId(row, st), row.instructorRaw)] else [])
      && SnapshotAppends(upTo, st) ==
        SnapshotAppends(before, st) + (if Snapshots(row, st) then [(ExistingId(row, st), SeatsOf(row.values))] else [])
      && RestoreIds(upTo, st) == RestoreIds(before, st) + (if Restores(row, st) then [ExistingId(row, st)] else [])
      && Unknown(upTo, st) == (
           if Unapplied(row, st)
           then Unknown(before, st)[row.Key() := RowsUnder(Unknown(before, st), row.Key()) + [row]]
           else Unknown(before, st))
      && Crns(upTo) == Crns(before) + {row.crn}
  {
    hide InstructorChanged, ChangedFields, SeatsOf;
    assert rows[..k + 1][..k] == rows[..k];
    assert forall r :: r in rows[..k + 1] <==> r in rows[..k] || r == rows[k];
  }

  /** The active in-scope sections that were not seen. */
  method CollectRemovals(view: TermView, seen: set<string>, ghost rows: seq<Row>) returns (removals: set<nat>)
    requires seen == Crns(rows)
    ensures removals == Removals(rows, view)
  {
    hide Crns;
    removals := {};
    var left := view.sections.Keys;
    while left != {}
      invariant left <= view.sections.Keys
      invariant removals == set c | c in MissingCrns(rows, view) && c !in left :: view.sections[c].id
    {
      var c :| c in left;
      left := left - {c};
      var section := view.sections[c];
      if section.inScope && section.removedAt.None? && c !in seen {
        removals := removals + {section.id};
      }
    }
  }

  /** One pass over the rows, then one over the stored sections. */
  method BuildSweepPlan(rows: seq<Row>, st: DbState) returns (plan: Plan)
    requires ViewOk(st.view)
    ensures plan == PlanOf(rows, st)
  {
    hide InstructorChanged, ChangedFields, SeatsOf, ViewOk, MissingCrns, Inserts, FieldUpdates,
      InstructorAppends, SnapshotAppends, RestoreIds, Unknown, Crns, Removals;
    NothingYet(st);
    var inserts: seq<SectionInsert>, updates: map<nat, Values> := [], map[];
    var appends: seq<(nat, string)>, snapshots: seq<(nat, SeatValues)>, restores: seq<nat> := [], [], [];
    var unknown: map<CourseKey, seq<Row>>, seen: set<string> := map[], {};
    for k := 0 to |rows|
      invariant inserts == Inserts(rows[..k], st) && updates == FieldUpdates(rows[..k], st)
      invariant appends == InstructorAppends(rows[..k], st) && snapshots == SnapshotAppends(rows[..k], st)
      invariant restores == RestoreIds(rows[..k], st) && unknown == Unknown(rows[..k], st)
      invariant seen == Crns(rows[..k])
    {
      var row := rows[k];
      RowStep(rows, k, st);
      seen := seen + {row.crn};
      if row.crn !in st.view.sections {
        if row.Key() !in st.courseIds {
          unknown := unknown[row.Key() := RowsUnder(unknown, row.Key()) + [row]];
        } else {
          inserts := inserts + [SectionInsert(row, st.courseIds[row.Key()])];
        }
      } else {
        var existing := st.view.sections[row.crn];
        var changed := ChangedFields(existing.values, row.values);
        if changed != map[] {
          updates := updates[existing.id := changed];
        }
        if existing.removedAt.Some? {
          restores := restores + [existing.id];
        }
        if InstructorChanged(StateIn(st.view, existing.id), row.instructorRaw) {
          appends := appends + [(existing.id, row.instructorRaw)];
        }
        if SeatsIn(st.view, existing.id) != Some(SeatsOf(row.values)) {
          snapshots := snapshots + [(existing.id, SeatsOf(row.values))];
        }
      }
    }
    assert rows[..|rows|] == rows;
    var removals := CollectRemovals(st.view, seen, rows);
    plan := Plan(|rows|, inserts, updates, appends, snapshots, removals, restores, seen, unknown);
  }

  /** The count the gate judges is the count the plan removes. */
  lemma RemovalsAreTheMissing(rows: seq<Row>, view: TermView)
    requires ViewOk(view)
    ensures |Removals(rows, view)| == |MissingCrns(rows, view)|
  {
    ImageSize(view, MissingCrns(rows, view));
  }

  lemma {:induction false} ImageSize(view: TermView, crns: set<string>)
    requires ViewOk(view) && crns <= view.sections.Keys
    ensures |set c | c in crns :: view.sections[c].id| == |crns|
    decreases |crns|
  {
    if crns != {} {
      var c :| c in crns;
      var rest := crns - {c};
      ImageSize(view, rest);
      assert (set d | d in crns :: view.sections[d].id) ==
        (set d | d in rest :: view.sections[d].id) + {view.sections[c].id};
    }
  }
}
