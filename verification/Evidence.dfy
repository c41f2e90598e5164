/** Pre-term grade evidence: what the grade rows joined with their sections say about a set of
    courses, and the index the whole-term build keeps over them. */
module Evidence {
  import opened Text
  import opened Grades
  import opened Instructors
  import opened Breakdown
  import opened Schema

  /** One grade row with the columns of its section, if a section has its term and CRN. */
  datatype JoinedRow = JoinedRow(
    grade: GradeRow, termCode: nat,
    sectionId: Option<nat>, sectionCourseId: Option<nat>, sectionIsLab: bool)

  /** The section of a term and CRN. */
  ghost function SectionFor(sections: map<nat, Section>, termId: nat, crn: string): (r: Option<nat>)
    ensures r.Some? ==> r.value in sections && sections[r.value].termId == termId && sections[r.value].crn == crn
    ensures r.None? ==> forall i | i in sections :: sections[i].termId != termId || sections[i].crn != crn
  {
    if i :| i in sections && sections[i].termId == termId && sections[i].crn == crn then Some(i) else None
  }

  ghost function JoinRow(sections: map<nat, Section>, grade: GradeRow, termCode: nat): JoinedRow {
    var s := SectionFor(sections, grade.termId, grade.crn);
    if s.None? then JoinedRow(grade, termCode, None, None, false)
    else JoinedRow(grade, termCode, s, Some(sections[s.value].courseId), IsLaboratory(sections[s.value].values))
  }

  /** Every grade row of the terms before `before`, in table order, left-joined with its section. */
  ghost function JoinGrades(
    terms: map<nat, nat>, sections: map<nat, Section>, grades: seq<GradeRow>, before: nat): seq<JoinedRow> {
    if grades == [] then []
    else
      var g := grades[|grades| - 1];
      var rest := JoinGrades(terms, sections, grades[..|grades| - 1], before);
      if g.termId in terms && terms[g.termId] < before then rest + [JoinRow(sections, g, terms[g.termId])] else rest
  }

  ghost function JoinedRows(db: Db, before: nat): seq<JoinedRow> {
    JoinGrades(db.terms, db.sections, db.grades, before)
  }

  /** Every instructor name ever recorded for a section. */
  function NamesOf(table: seq<InstructorRow>, sectionId: nat): set<string> {
    set r | r in table && r.sectionId == sectionId :: r.name
  }

  predicate IsMapped(row: JoinedRow, table: seq<InstructorRow>) {
    row.sectionId.Some? && exists n | n in NamesOf(table, row.sectionId.value) :: IsUsableInstructor(n)
  }

  function ObservationOf(row: JoinedRow, mapped: bool): GradeObservation {
    GradeObservation(row.grade.termId, row.termCode, row.grade.crn, row.grade.counts, mapped)
  }

  /** The row belongs to one of the courses, by its own attribution or by its section. */
  predicate Attributed(row: JoinedRow, ids: set<nat>) {
    || (row.grade.courseId.Some? && row.grade.courseId.value in ids)
    || (row.sectionCourseId.Some? && row.sectionCourseId.value in ids)
  }

  /** The row counts toward the instructor: it joins a non-laboratory section of the courses that
      the instructor taught. */
  predicate Taught(row: JoinedRow, table: seq<InstructorRow>, ids: set<nat>, name: string) {
    && row.sectionId.Some? && !row.sectionIsLab
    && row.sectionCourseId.Some? && row.sectionCourseId.value in ids
    && IsUsableInstructor(name) && name in NamesOf(table, row.sectionId.value)
  }

  /** Which grade rows are asked for. */
  datatype Selector = Everything | OfCourses(ids: set<nat>) | TaughtBy(ids: set<nat>, name: string)

  function Contribution(row: JoinedRow, table: seq<InstructorRow>, sel: Selector): seq<GradeObservation> {
    match sel
    case Everything => [ObservationOf(row, IsMapped(row, table))]
    case OfCourses(ids) => if Attributed(row, ids) then [ObservationOf(row, IsMapped(row, table))] else []
    case TaughtBy(ids, name) => if Taught(row, table, ids, name) then [ObservationOf(row, true)] else []
  }

  /** The selected observations, in row order. */
  function Obs(rows: seq<JoinedRow>, table: seq<InstructorRow>, sel: Selector): seq<GradeObservation> {
    if rows == [] then []
    else Obs(rows[..|rows| - 1], table, sel) + Contribution(rows[|rows| - 1], table, sel)
  }

  function AllNames(table: seq<InstructorRow>): set<string> {
    set r | r in table :: r.name
  }

  function ObservationsByInstructor(rows: seq<JoinedRow>, table: seq<InstructorRow>, ids: set<nat>): ByInstructor {
    map name | name in AllNames(table) && Obs(rows, table, TaughtBy(ids, name)) != [] ::
      Obs(rows, table, TaughtBy(ids, name))
  }

  // ---- The index of the whole-term build ----

  datatype EvidenceRow = EvidenceRow(
    observation: GradeObservation, courseIds: set<nat>,
    sectionId: Option<nat>, sectionCourseId: Option<nat>, sectionIsLab: bool)

  datatype TermEvidence = TermEvidence(
    rows: seq<EvidenceRow>, indexes: map<nat, seq<nat>>, names: map<nat, set<string>>)

  function RowCourseIds(row: JoinedRow): set<nat> {
    (if row.grade.courseId.Some? then {row.grade.courseId.value} else {})
    + (if row.sectionCourseId.Some? then {row.sectionCourseId.value} else {})
  }

  function EvidenceRowOf(row: JoinedRow, table: seq<InstructorRow>): EvidenceRow {
    EvidenceRow(ObservationOf(row, IsMapped(row, table)), RowCourseIds(row),
                row.sectionId, row.sectionCourseId, row.sectionIsLab)
  }

  ghost predicate RowsOk(rows: seq<EvidenceRow>, fetched: seq<JoinedRow>, table: seq<InstructorRow>) {
    && |rows| == |fetched|
    && forall k | 0 <= k < |rows| :: rows[k] == EvidenceRowOf(fetched[k], table)
  }

  predicate PointsTo(indexes: map<nat, seq<nat>>, c: nat, k: nat) {
    c in indexes && k in indexes[c]
  }

  function CoursesAt(rows: seq<EvidenceRow>, k: nat): set<nat> {
    if k < |rows| then rows[k].courseIds else {}
  }

  /** The index lists exactly the positions of the rows of each course. */
  ghost predicate IndexOk(indexes: map<nat, seq<nat>>, rows: seq<EvidenceRow>) {
    forall c: nat, k: nat :: PointsTo(indexes, c, k) <==> c in CoursesAt(rows, k)
  }

  ghost predicate NamesOk(names: map<nat, set<string>>, rows: seq<EvidenceRow>, table: seq<InstructorRow>) {
    forall k | 0 <= k < |rows| && rows[k].sectionId.Some? ::
      NamesIn(names, rows[k].sectionId.value) == NamesOf(table, rows[k].sectionId.value)
  }

  function NamesIn(names: map<nat, set<string>>, sectionId: nat): set<string> {
    if sectionId in names then names[sectionId] else {}
  }

  ghost predicate EvidenceOk(e: TermEvidence, fetched: seq<JoinedRow>, table: seq<InstructorRow>) {
    RowsOk(e.rows, fetched, table) && IndexOk(e.indexes, e.rows) && NamesOk(e.names, e.rows, table)
  }

  method LoadNames(sectionIds: set<nat>, table: seq<InstructorRow>) returns (names: map<nat, set<string>>)
    ensures forall s | s in sectionIds :: NamesIn(names, s) == NamesOf(table, s)
  {
    names := map[];
    for k := 0 to |table|
      invariant forall s | s in sectionIds :: NamesIn(names, s) == NamesOf(table[..k], s)
    {
      var r := table[k];
      assert forall x :: x in table[..k + 1] <==> x in table[..k] || x == r;
      if r.sectionId in sectionIds {
        names := names[r.sectionId := NamesIn(names, r.sectionId) + {r.name}];
      }
    }
    assert table[..|table|] == table;
  }

  method LoadEvidence(fetched: seq<JoinedRow>, table: seq<InstructorRow>) returns (e: TermEvidence)
    ensures EvidenceOk(e, fetched, table)
  {
    var sectionIds := set r | r in fetched && r.sectionId.Some? :: r.sectionId.value;
    var names := LoadNames(sectionIds, table);
    var rows: seq<EvidenceRow> := [];
    var indexes: map<nat, seq<nat>> := map[];
    for k := 0 to |fetched|
      invariant RowsOk(rows, fetched[..k], table)
      invariant IndexOk(indexes, rows)
    {
      var row := fetched[k];
      assert row in fetched;
      var mapped := row.sectionId.Some? && exists n | n in NamesIn(names, row.sectionId.value) :: IsUsableInstructor(n);
      var ids := RowCourseIds(row);
      var added := EvidenceRow(ObservationOf(row, mapped), ids, row.sectionId, row.sectionCourseId, row.sectionIsLab);
      indexes := AddToIndex(indexes, rows, added);
      rows := rows + [added];
    }
    assert fetched[..|fetched|] == fetched;
    forall k | 0 <= k < |rows| && rows[k].sectionId.Some?
      ensures NamesIn(names, rows[k].sectionId.value) == NamesOf(table, rows[k].sectionId.value)
    {
      assert fetched[k] in fetched;
    }
    e := TermEvidence(rows, indexes, names);
  }

  method AddToIndex(indexes: map<nat, seq<nat>>, rows: seq<EvidenceRow>, added: EvidenceRow)
    returns (extended: map<nat, seq<nat>>)
    requires IndexOk(indexes, rows)
    ensures IndexOk(extended, rows + [added])
  {
    extended := indexes;
    var left, done: set<nat> := added.courseIds, {};
    while left != {}
      invariant left + done == added.courseIds
      invariant forall c: nat, k: nat ::
        PointsTo(extended, c, k) <==> PointsTo(indexes, c, k) || (k == |rows| && c in done)
    {
      var c :| c in left;
      var sofar := if c in extended then extended[c] else [];
      ghost var before, doneBefore := extended, done;
      AppendPoints(extended, c, sofar, |rows|);
      extended := extended[c := sofar + [|rows|]];
      left, done := left - {c}, done + {c};
      forall d: nat, k: nat
        ensures PointsTo(extended, d, k) <==> PointsTo(indexes, d, k) || (k == |rows| && d in done)
      {
        assert PointsTo(extended, d, k) <==> PointsTo(before, d, k) || (d == c && k == |rows|);
        assert PointsTo(before, d, k) <==> PointsTo(indexes, d, k) || (k == |rows| && d in doneBefore);
      }
    }
    assert forall k: nat :: CoursesAt(rows + [added], k) == if k == |rows| then added.courseIds else CoursesAt(rows, k);
  }

  lemma AppendPoints(indexes: map<nat, seq<nat>>, c: nat, sofar: seq<nat>, n: nat)
    requires sofar == if c in indexes then indexes[c] else []
    ensures forall d: nat, k: nat ::
      PointsTo(indexes[c := sofar + [n]], d, k) <==> PointsTo(indexes, d, k) || (d == c && k == n)
  {
    var more := indexes[c := sofar + [n]];
    forall d: nat, k: nat
      ensures PointsTo(more, d, k) <==> PointsTo(indexes, d, k) || (d == c && k == n)
    {
      if d == c {
        assert more[d] == sofar + [n];
        assert k in sofar + [n] <==> k in sofar || k == n;
      } else {
        assert d in more <==> d in indexes;
      }
    }
  }
}
