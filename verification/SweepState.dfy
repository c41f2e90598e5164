/** The term state the diff reads: a full read, and a re-read of the sections a sweep wrote. */
module SweepState {
  import opened Text
  import opened Instructors
  import opened Schema
  import opened SweepPlan
  import opened Scope

  /** Newest observation first, then highest id. */
  predicate Newer(x: SnapshotRow, y: SnapshotRow) {
    x.observedAt > y.observedAt || (x.observedAt == y.observedAt && x.id > y.id)
  }

  /** The latest snapshot of a section. */
  function LatestSnapshot(table: seq<SnapshotRow>, sectionId: nat): Option<SnapshotRow> {
    if table == [] then None
    else
      var best := LatestSnapshot(table[..|table| - 1], sectionId);
      var last := table[|table| - 1];
      if last.sectionId == sectionId && (best.None? || Newer(last, best.value)) then Some(last) else best
  }

  function SectionIdsOf(sections: map<nat, Section>, termId: nat): set<nat> {
    set id | id in sections && sections[id].termId == termId
  }

  function CourseNumber(courses: map<nat, Course>, courseId: nat): string {
    if courseId in courses then courses[courseId].number else ""
  }

  function CourseSubject(courses: map<nat, Course>, courseId: nat): string {
    if courseId in courses then courses[courseId].subject else ""
  }

  function ExistingOf(courses: map<nat, Course>, id: nat, s: Section): ExistingSection {
    ExistingSection(
      id, s.crn, s.courseId, s.removedAt,
      SameCampus(TextOf(Get(s.values, Campus)), SUPPORTED_CAMPUS) &&
        IsUndergraduateNumber(CourseNumber(courses, s.courseId)),
      s.values)
  }

  ghost predicate UniqueIn(sections: map<nat, Section>, ids: set<nat>) {
    && ids <= sections.Keys
    && forall i, j | i in ids && j in ids && sections[i].crn == sections[j].crn :: i == j
  }

  function SectionsByCrnMap(
    courses: map<nat, Course>, sections: map<nat, Section>, ids: set<nat>): map<string, ExistingSection>
    requires UniqueIn(sections, ids)
  {
    map id | id in ids :: sections[id].crn := ExistingOf(courses, id, sections[id])
  }

  function SubjectsByCrnMap(courses: map<nat, Course>, sections: map<nat, Section>, ids: set<nat>): map<string, string>
    requires UniqueIn(sections, ids)
  {
    map id | id in ids :: sections[id].crn := CourseSubject(courses, sections[id].courseId)
  }

  function StatesOf(table: seq<InstructorRow>, ids: set<nat>): map<nat, InstructorState> {
    map id | id in ids :: CurrentState(table, id)
  }

  function SeatsMap(table: seq<SnapshotRow>, ids: set<nat>): map<nat, SeatValues> {
    map id | id in ids && LatestSnapshot(table, id).Some? :: LatestSnapshot(table, id).value.seats
  }

  /** The view of the given sections. */
  function ViewOfIds(db: Db, ids: set<nat>): TermView
    requires UniqueIn(db.sections, ids)
  {
    TermView(SectionsByCrnMap(db.courses, db.sections, ids), SubjectsByCrnMap(db.courses, db.sections, ids),
             StatesOf(db.instructors, ids), SeatsMap(db.snapshots, ids))
  }

  /** A full read of a term. */
  function ViewOf(db: Db, termId: nat): TermView
    requires db.UniqueCrns()
  {
    ViewOfIds(db, SectionIdsOf(db.sections, termId))
  }

  /** The view with the given sections read again. */
  function Reloaded(db: Db, view: TermView, ids: set<nat>): TermView
    requires UniqueIn(db.sections, ids)
  {
    var again := ViewOfIds(db, ids);
    TermView(view.sections + again.sections, view.subjects + again.subjects,
             (view.states - ids) + again.states, (view.seats - ids) + again.seats)
  }

  method ReadSections(db: Db, ids: set<nat>)
    returns (sections: map<string, ExistingSection>, subjects: map<string, string>)
    requires UniqueIn(db.sections, ids)
    ensures sections == SectionsByCrnMap(db.courses, db.sections, ids)
    ensures subjects == SubjectsByCrnMap(db.courses, db.sections, ids)
  {
    hide ExistingOf, CourseSubject, SectionsByCrnMap, SubjectsByCrnMap, CrnsOf;
    NoCrns(db.sections);
    MapFacts(db.courses, db.sections, ids);
    sections, subjects := map[], map[];
    var left, done: set<nat> := ids, {};
    while left != {}
      invariant left !! done && left + done == ids
      invariant sections.Keys == subjects.Keys == CrnsOf(db.sections, done)
      invariant forall id | id in done ::
        && db.sections[id].crn in sections && db.sections[id].crn in subjects
        && sections[db.sections[id].crn] == ExistingOf(db.courses, id, db.sections[id])
        && subjects[db.sections[id].crn] == CourseSubject(db.courses, db.sections[id].courseId)
    {
      var id :| id in left;
      CrnsAdd(db.sections, done, id);
      left, done := left - {id}, done + {id};
      var s := db.sections[id];
      sections := sections[s.crn := ExistingOf(db.courses, id, s)];
      subjects := subjects[s.crn := CourseSubject(db.courses, s.courseId)];
    }
    assert done == ids;
    SameByCrn(sections, SectionsByCrnMap(db.courses, db.sections, ids), db.sections, ids);
    SameByCrn(subjects, SubjectsByCrnMap(db.courses, db.sections, ids), db.sections, ids);
  }

  function CrnsOf(sections: map<nat, Section>, ids: set<nat>): set<string>
    requires ids <= sections.Keys
  {
    set id | id in ids :: sections[id].crn
  }

  lemma CrnListed(sections: map<nat, Section>, ids: set<nat>, id: nat)
    requires ids <= sections.Keys && id in ids
    ensures sections[id].crn in CrnsOf(sections, ids)
  {
  }

  lemma NoCrns(sections: map<nat, Section>)
    ensures CrnsOf(sections, {}) == {}
  {
  }

  lemma CrnsAdd(sections: map<nat, Section>, ids: set<nat>, id: nat)
    requires ids <= sections.Keys && id in sections
    ensures CrnsOf(sections, ids + {id}) == CrnsOf(sections, ids) + {sections[id].crn}
  {
  }

  lemma MapFacts(courses: map<nat, Course>, sections: map<nat, Section>, ids: set<nat>)
    requires UniqueIn(sections, ids)
    ensures SectionsByCrnMap(courses, sections, ids).Keys == CrnsOf(sections, ids)
    ensures SubjectsByCrnMap(courses, sections, ids).Keys == CrnsOf(sections, ids)
    ensures forall id | id in ids ::
      && SectionsByCrnMap(courses, sections, ids)[sections[id].crn] == ExistingOf(courses, id, sections[id])
      && SubjectsByCrnMap(courses, sections, ids)[sections[id].crn] == CourseSubject(courses, sections[id].courseId)
  {
    hide ExistingOf;
  }

  lemma SameByCrn<T>(a: map<string, T>, b: map<string, T>, sections: map<nat, Section>, ids: set<nat>)
    requires ids <= sections.Keys
    requires a.Keys == CrnsOf(sections, ids) == b.Keys
    requires forall id | id in ids :: a[sections[id].crn] == b[sections[id].crn]
    ensures a == b
  {
  }

  method ReadSeats(table: seq<SnapshotRow>, ids: set<nat>) returns (seats: map<nat, SeatValues>)
    ensures seats == SeatsMap(table, ids)
  {
    var best: map<nat, SnapshotRow> := map[];
    for k := 0 to |table|
      invariant best.Keys <= ids
      invariant forall id | id in ids :: LatestSnapshot(table[..k], id) == if id in best then Some(best[id]) else None
    {
      var row := table[k];
      assert table[..k + 1][..k] == table[..k];
      if row.sectionId in ids && (row.sectionId !in best || Newer(row, best[row.sectionId])) {
        best := best[row.sectionId := row];
      }
    }
    assert table[..|table|] == table;
    seats := map id | id in best :: best[id].seats;
  }

  method ReadStates(table: seq<InstructorRow>, ids: set<nat>) returns (states: map<nat, InstructorState>)
    ensures states == StatesOf(table, ids)
  {
    var listed: seq<nat> := [];
    var left := ids;
    while left != {}
      invariant left <= ids && forall id :: id in listed <==> id in ids && id !in left
    {
      var id :| id in left;
      left := left - {id};
      listed := listed + [id];
    }
    states := GetCurrentInstructorStates(table, listed);
  }

  method LoadTermSections(db: Db, termId: nat) returns (view: TermView)
    requires db.UniqueCrns()
    ensures view == ViewOf(db, termId)
  {
    hide SectionsByCrnMap, SubjectsByCrnMap, StatesOf, SeatsMap;
    var ids := SectionIdsOf(db.sections, termId);
    var sections, subjects := ReadSections(db, ids);
    var states := ReadStates(db.instructors, ids);
    var seats := ReadSeats(db.snapshots, ids);
    view := TermView(sections, subjects, states, seats);
  }

  /** Only the sections a sweep touched are read again; the rest of the view is kept. */
  method ReloadSections(db: Db, view: TermView, ids: set<nat>) returns (again: TermView)
    requires UniqueIn(db.sections, ids)
    ensures again == Reloaded(db, view, ids)
  {
    hide SectionsByCrnMap, SubjectsByCrnMap, StatesOf, SeatsMap;
    var sections, subjects := ReadSections(db, ids);
    var states := ReadStates(db.instructors, ids);
    var seats := ReadSeats(db.snapshots, ids);
    again := TermView(view.sections + sections, view.subjects + subjects, (view.states - ids) + states,
      (view.seats - ids) + seats);
  }

  lemma ViewIsOk(db: Db, termId: nat)
    requires db.UniqueCrns()
    ensures ViewOk(ViewOf(db, termId))
  {
    hide ExistingOf, CurrentState, LatestSnapshot;
    forall c | c in ViewOf(db, termId).sections ensures ViewOf(db, termId).sections[c].crn == c {
      ViewEntry(db, termId, c);
      CrnKept(db.courses, ViewOf(db, termId).sections[c].id, db.sections[ViewOf(db, termId).sections[c].id]);
    }
    forall c, d | c in ViewOf(db, termId).sections && d in ViewOf(db, termId).sections
      && ViewOf(db, termId).sections[c].id == ViewOf(db, termId).sections[d].id
      ensures c == d
    {
      ViewEntry(db, termId, c);
      ViewEntry(db, termId, d);
    }
  }

  lemma CrnKept(courses: map<nat, Course>, id: nat, s: Section)
    ensures ExistingOf(courses, id, s).crn == s.crn && ExistingOf(courses, id, s).id == id
  {
  }

  /** An entry of the view is a stored section of the term. */
  lemma ViewEntry(db: Db, termId: nat, crn: string)
    requires db.UniqueCrns() && crn in ViewOf(db, termId).sections
    ensures var e := ViewOf(db, termId).sections[crn];
      && e.id in SectionIdsOf(db.sections, termId) && db.sections[e.id].crn == crn
      && e == ExistingOf(db.courses, e.id, db.sections[e.id])
  {
    var id :| id in SectionIdsOf(db.sections, termId) && db.sections[id].crn == crn;
    assert ViewOf(db, termId).sections[crn] == ExistingOf(db.courses, id, db.sections[id]);
  }

  lemma ViewHas(db: Db, termId: nat, id: nat)
    requires db.UniqueCrns() && id in SectionIdsOf(db.sections, termId)
    ensures var view := ViewOf(db, termId);
      && db.sections[id].crn in view.sections
      && view.sections[db.sections[id].crn] == ExistingOf(db.courses, id, db.sections[id])
      && StateIn(view, id) == Some(CurrentState(db.instructors, id))
      && SeatsIn(view, id) == match LatestSnapshot(db.snapshots, id) case Some(s) => Some(s.seats) case None => None
  {
    hide ExistingOf, CurrentState, LatestSnapshot, CourseSubject, SectionsByCrnMap, SubjectsByCrnMap, CrnsOf;
    MapFacts(db.courses, db.sections, SectionIdsOf(db.sections, termId));
    CrnListed(db.sections, SectionIdsOf(db.sections, termId), id);
  }
}
