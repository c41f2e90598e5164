/** What a sweep of one term leaves alone: above all the grade evidence of earlier terms. */
module SweepFrame {
  import opened Text
  import opened Grades
  import opened Scoring
  import opened Instructors
  import opened Schema
  import opened Evidence
  import opened EvidenceQueries
  import opened Analytics
  import opened SweepPlan
  import opened SweepApply
  import opened SweepState

  /** A plan that writes only sections of its term. Every plan built by the diff is one. */
  ghost predicate GoodPlan(db: Db, termId: nat, plan: Plan) {
    var ids := SectionIdsOf(db.sections, termId);
    && plan.fieldUpdates.Keys <= ids
    && AppendIds(plan.instructorAppends) <= ids && AppendIds(plan.snapshotAppends) <= ids
    && plan.removals <= ids && RestoreSet(plan) <= ids
    && (forall i | i in plan.inserts :: i.courseId in db.courses && Full(i.row.values))
    && (forall i | i in plan.inserts :: forall id | id in ids :: db.sections[id].crn != i.row.crn)
    && (forall i, j | 0 <= i < j < |plan.inserts| :: plan.inserts[i].row.crn != plan.inserts[j].row.crn)
  }

  /** The change from `db` to `w` stays inside one term and leaves identities alone. */
  ghost predicate WithinTerm(db: Db, w: Db, termId: nat) {
    && w.terms == db.terms && w.courses == db.courses && w.grades == db.grades
    && db.sections.Keys <= w.sections.Keys
    && (forall id | id in w.sections && id !in db.sections :: w.sections[id].termId == termId)
    && (forall id | id in db.sections :: Kept(db.sections[id], w.sections[id], termId))
    && db.instructors <= w.instructors
    && (forall i | |db.instructors| <= i < |w.instructors| ::
          w.instructors[i].sectionId in w.sections && w.sections[w.instructors[i].sectionId].termId == termId)
  }

  predicate Kept(s: Section, after: Section, termId: nat) {
    && after.termId == s.termId && after.crn == s.crn && after.courseId == s.courseId
    && (s.termId != termId ==> after == s)
  }

  // ---- The joined evidence ----

  lemma SectionForSame(a: map<nat, Section>, b: map<nat, Section>, termId: nat, crn: string)
    requires UniqueCrnsIn(a) && UniqueCrnsIn(b)
    requires forall id | id in a && a[id].termId == termId :: id in b && b[id] == a[id]
    requires forall id | id in b && b[id].termId == termId :: id in a && a[id] == b[id]
    ensures SectionFor(a, termId, crn) == SectionFor(b, termId, crn)
  {
  }

  lemma {:induction false} JoinSame(
    terms: map<nat, nat>, a: map<nat, Section>, b: map<nat, Section>, grades: seq<GradeRow>, termId: nat, before: nat)
    requires UniqueCrnsIn(a) && UniqueCrnsIn(b) && termId in terms && terms[termId] == before
    requires a.Keys <= b.Keys
    requires forall id | id in b && id !in a :: b[id].termId == termId
    requires forall id | id in a :: Kept(a[id], b[id], termId)
    ensures JoinGrades(terms, a, grades, before) == JoinGrades(terms, b, grades, before)
  {
    hide IsLaboratory;
    if grades != [] {
      var g := grades[|grades| - 1];
      JoinSame(terms, a, b, grades[..|grades| - 1], termId, before);
      if g.termId != termId {
        SectionForSame(a, b, g.termId, g.crn);
        JoinRowSame(a, b, g, termId, if g.termId in terms then terms[g.termId] else 0);
      }
    }
  }

  lemma JoinRowSame(a: map<nat, Section>, b: map<nat, Section>, g: GradeRow, termId: nat, code: nat)
    requires SectionFor(a, g.termId, g.crn) == SectionFor(b, g.termId, g.crn) && g.termId != termId
    requires a.Keys <= b.Keys && forall id | id in a :: Kept(a[id], b[id], termId)
    ensures JoinRow(a, g, code) == JoinRow(b, g, code)
  {
    hide IsLaboratory;
  }

  /** Names recorded for the sections of the joined rows are the same in both tables. */
  ghost predicate SameNames(rows: seq<JoinedRow>, t: seq<InstructorRow>, u: seq<InstructorRow>) {
    forall r | r in rows && r.sectionId.Some? :: NamesOf(t, r.sectionId.value) == NamesOf(u, r.sectionId.value)
  }

  lemma {:induction false} ObsSame(rows: seq<JoinedRow>, t: seq<InstructorRow>, u: seq<InstructorRow>, sel: Selector)
    requires SameNames(rows, t, u)
    ensures Obs(rows, t, sel) == Obs(rows, u, sel)
  {
    if rows != [] {
      var last := rows[|rows| - 1];
      assert last in rows;
      ObsSame(rows[..|rows| - 1], t, u, sel);
      ContributionSame(last, t, u, sel);
      hide Contribution;
    }
  }

  lemma ContributionSame(row: JoinedRow, t: seq<InstructorRow>, u: seq<InstructorRow>, sel: Selector)
    requires row.sectionId.Some? ==> NamesOf(t, row.sectionId.value) == NamesOf(u, row.sectionId.value)
    ensures Contribution(row, t, sel) == Contribution(row, u, sel)
  {
    hide NamesOf, IsUsableInstructor;
  }

  lemma ByInstructorSame(rows: seq<JoinedRow>, t: seq<InstructorRow>, u: seq<InstructorRow>, ids: set<nat>)
    requires SameNames(rows, t, u)
    ensures ObservationsByInstructor(rows, t, ids) == ObservationsByInstructor(rows, u, ids)
  {
    hide SameNames, AllNames, Obs;
    forall name
      ensures Obs(rows, t, TaughtBy(ids, name)) == Obs(rows, u, TaughtBy(ids, name))
      ensures Obs(rows, t, TaughtBy(ids, name)) != [] ==> name in AllNames(t) && name in AllNames(u)
    {
      ObsSame(rows, t, u, TaughtBy(ids, name));
      TaughtNamesRecorded(rows, t, ids, name);
      TaughtNamesRecorded(rows, u, ids, name);
    }
  }

  lemma CourseStatsSame(
    rows: seq<JoinedRow>, t: seq<InstructorRow>, u: seq<InstructorRow>, courses: map<nat, Course>, key: CourseKey,
    config: ScoreConfig)
    requires SameNames(rows, t, u)
    ensures CourseStatsOf(rows, t, courses, key, config) == CourseStatsOf(rows, u, courses, key, config)
  {
    hide SameNames, Obs, AggregateOf, StatsWithFallback;
    var ids := CourseIds(courses, key);
    ObsSame(rows, t, u, OfCourses(ids));
    ObsSame(rows, t, u, OfCourses(SubjectIds(courses, key.0) - ids));
    ObsSame(rows, t, u, Everything);
  }

  /** A joined section belongs to an earlier term. */
  lemma {:induction false} JoinedFromEarlier(
    terms: map<nat, nat>, sections: map<nat, Section>, grades: seq<GradeRow>, termId: nat, before: nat)
    requires termId in terms && terms[termId] == before
    ensures forall r | r in JoinGrades(terms, sections, grades, before) && r.sectionId.Some? ::
      r.sectionId.value in sections && sections[r.sectionId.value].termId != termId
  {
    hide IsLaboratory;
    if grades != [] {
      JoinedFromEarlier(terms, sections, grades[..|grades| - 1], termId, before);
    }
  }

  /** Instructor rows appended inside the term do not reach the sections of earlier terms. */
  lemma NamesKept(db: Db, w: Db, termId: nat, sectionId: nat)
    requires WithinTerm(db, w, termId) && sectionId in db.sections && db.sections[sectionId].termId != termId
    ensures NamesOf(db.instructors, sectionId) == NamesOf(w.instructors, sectionId)
  {
    assert Kept(db.sections[sectionId], w.sections[sectionId], termId);
    forall r | r in w.instructors && r.sectionId == sectionId ensures r in db.instructors {
      var i :| 0 <= i < |w.instructors| && w.instructors[i] == r;
      assert i < |db.instructors| ==> db.instructors[i] == r;
    }
    forall r | r in db.instructors ensures r in w.instructors {
      var i :| 0 <= i < |db.instructors| && db.instructors[i] == r;
      assert w.instructors[i] == r;
    }
  }

  /** Grade evidence never changes through a sweep. */
  lemma EvidenceKept(db: Db, w: Db, termId: nat, code: nat)
    requires UniqueCrnsIn(db.sections) && UniqueCrnsIn(w.sections)
    requires termId in db.terms && db.terms[termId] == code && WithinTerm(db, w, termId)
    ensures JoinedRows(w, code) == JoinedRows(db, code)
    ensures SameNames(JoinedRows(db, code), db.instructors, w.instructors)
  {
    hide NamesOf, JoinGrades;
    JoinSame(db.terms, db.sections, w.sections, db.grades, termId, code);
    JoinedFromEarlier(db.terms, db.sections, db.grades, termId, code);
    forall r | r in JoinedRows(db, code) && r.sectionId.Some?
      ensures NamesOf(db.instructors, r.sectionId.value) == NamesOf(w.instructors, r.sectionId.value)
    {
      NamesKept(db, w, termId, r.sectionId.value);
    }
  }

  /** Hence a course's statistics and instructor histories are the same before and after. */
  lemma CourseEvidenceKept(db: Db, w: Db, termId: nat, code: nat, key: CourseKey, config: ScoreConfig)
    requires UniqueCrnsIn(db.sections) && UniqueCrnsIn(w.sections)
    requires termId in db.terms && db.terms[termId] == code && WithinTerm(db, w, termId)
    ensures CourseStatsOf(JoinedRows(w, code), w.instructors, w.courses, key, config)
         == CourseStatsOf(JoinedRows(db, code), db.instructors, db.courses, key, config)
    ensures ObservationsByInstructor(JoinedRows(w, code), w.instructors, CourseIds(w.courses, key))
         == ObservationsByInstructor(JoinedRows(db, code), db.instructors, CourseIds(db.courses, key))
  {
    EvidenceKept(db, w, termId, code);
    hide JoinedRows, SameNames, CourseStatsOf, ObservationsByInstructor;
    CourseStatsSame(JoinedRows(db, code), db.instructors, w.instructors, db.courses, key, config);
    ByInstructorSame(JoinedRows(db, code), db.instructors, w.instructors, CourseIds(db.courses, key));
  }

  // ---- The writes of a good plan stay within the term ----

  lemma ObservationsKept(table: seq<InstructorRow>, extra: seq<InstructorRow>, sectionId: nat)
    requires forall r | r in extra :: r.sectionId != sectionId
    ensures ObservationsOf(table + extra, sectionId) == ObservationsOf(table, sectionId)
    decreases |extra|
  {
    if extra == [] {
      assert table + extra == table;
    } else {
      var n := |extra| - 1;
      assert table + extra == (table + extra[..n]) + [extra[n]];
      ObservationsOfAppend(table + extra[..n], extra[n], sectionId);
      assert extra[n] in extra;
      ObservationsKept(table, extra[..n], sectionId);
    }
  }

  lemma NewRowSections(db: Db, plan: Plan, at: int)
    ensures forall r | r in NewObservations(db, plan.inserts, at) :: r.sectionId in NewIds(db, plan.inserts)
    ensures forall r | r in AppendedObservations(db.nextInstructor + |plan.inserts|, plan.instructorAppends, at) ::
      r.sectionId in AppendIds(plan.instructorAppends)
  {
    forall r | r in NewObservations(db, plan.inserts, at) ensures r.sectionId in NewIds(db, plan.inserts) {
      var i :| 0 <= i < |plan.inserts| && NewObservations(db, plan.inserts, at)[i] == r;
      assert InRange(db.nextSection + i, db.nextSection, |plan.inserts|);
    }
    var rows := AppendedObservations(db.nextInstructor + |plan.inserts|, plan.instructorAppends, at);
    forall r | r in rows ensures r.sectionId in AppendIds(plan.instructorAppends) {
      var i :| 0 <= i < |rows| && rows[i] == r;
      assert plan.instructorAppends[i] in plan.instructorAppends;
    }
  }

  lemma WrittenWithinTerm(db: Db, termId: nat, plan: Plan, at: int)
    requires db.SectionsOk() && GoodPlan(db, termId, plan)
    ensures WithinTerm(db, Written(db, termId, plan, at), termId)
  {
    hide NewObservations, AppendedObservations, GoodPlan, AfterSection, WrittenSections, Kept;
    var w := Written(db, termId, plan, at);
    forall id | id in db.sections ensures id in w.sections && Kept(db.sections[id], w.sections[id], termId) {
      OldSection(db, termId, plan, at, id);
      OtherTermUntouched(db, termId, plan, at, id);
    }
    forall id | id in w.sections && id !in db.sections ensures w.sections[id].termId == termId {
      NewCrn(db, termId, plan, at, id);
    }
    NewRowsInTerm(db, termId, plan, at);
  }

  lemma NewRowsInTerm(db: Db, termId: nat, plan: Plan, at: int)
    requires db.SectionsOk() && GoodPlan(db, termId, plan)
    ensures var w := Written(db, termId, plan, at);
      forall i | |db.instructors| <= i < |w.instructors| ::
        w.instructors[i].sectionId in w.sections && w.sections[w.instructors[i].sectionId].termId == termId
  {
    NewRowSections(db, plan, at);
    hide NewObservations, AppendedObservations, WrittenSections, GoodPlan, AppendIds, NewIds;
    var w := Written(db, termId, plan, at);
    var first, rest := NewObservations(db, plan.inserts, at),
      AppendedObservations(db.nextInstructor + |plan.inserts|, plan.instructorAppends, at);
    forall i | |db.instructors| <= i < |w.instructors|
      ensures w.instructors[i].sectionId in w.sections && w.sections[w.instructors[i].sectionId].termId == termId
    {
      assert w.instructors[i] in first || w.instructors[i] in rest;
      WrittenTerm(db, termId, plan, at, w.instructors[i].sectionId);
    }
  }

  lemma WrittenTerm(db: Db, termId: nat, plan: Plan, at: int, id: nat)
    requires db.SectionsOk() && GoodPlan(db, termId, plan)
    requires id in NewIds(db, plan.inserts) || id in AppendIds(plan.instructorAppends)
    ensures id in WrittenSections(db, termId, plan, at) && WrittenSections(db, termId, plan, at)[id].termId == termId
  {
    hide UpdatedValues, Full, WrittenSections, NewIds;
    if id in AppendIds(plan.instructorAppends) {
      OldSection(db, termId, plan, at, id);
    } else {
      NewIdWritten(db, termId, plan, at, id);
      NewCrn(db, termId, plan, at, id);
    }
  }

  lemma NewIdWritten(db: Db, termId: nat, plan: Plan, at: int, id: nat)
    requires db.SectionsOk() && id in NewIds(db, plan.inserts)
    ensures id !in db.sections && id in WrittenSections(db, termId, plan, at)
  {
    hide AfterSection, Full;
  }

  lemma OldSection(db: Db, termId: nat, plan: Plan, at: int, id: nat)
    requires db.SectionsOk() && id in db.sections
    ensures id in WrittenSections(db, termId, plan, at)
    ensures WrittenSections(db, termId, plan, at)[id] == AfterSection(db.sections[id], id, termId, plan, at)
  {
    hide AfterSection, Full;
  }

  lemma OtherTermUntouched(db: Db, termId: nat, plan: Plan, at: int, id: nat)
    requires GoodPlan(db, termId, plan) && id in db.sections
    ensures Kept(db.sections[id], AfterSection(db.sections[id], id, termId, plan, at), termId)
  {
    hide Full;
    assert id in RestoreSet(plan) <==> id in plan.restores;
  }

  /** The writes keep every table invariant. */
  lemma WrittenUnique(db: Db, termId: nat, plan: Plan, at: int)
    requires db.SectionsOk() && GoodPlan(db, termId, plan)
    ensures UniqueCrnsIn(Written(db, termId, plan, at).sections)
  {
    hide UpdatedValues, Full;
    var w := WrittenSections(db, termId, plan, at);
    forall i, j | i in w && j in w && w[i].termId == w[j].termId && w[i].crn == w[j].crn ensures i == j {
      if i in db.sections && j in db.sections {
      } else if i !in db.sections && j !in db.sections {
        NewCrn(db, termId, plan, at, i);
        NewCrn(db, termId, plan, at, j);
      } else {
        var old_, new_ := if i in db.sections then i else j, if i in db.sections then j else i;
        OldAndNewDiffer(db, termId, plan, at, old_, new_);
      }
    }
  }

  lemma OldAndNewDiffer(db: Db, termId: nat, plan: Plan, at: int, old_: nat, new_: nat)
    requires db.SectionsOk() && GoodPlan(db, termId, plan)
    requires old_ in db.sections && new_ in WrittenSections(db, termId, plan, at) && new_ !in db.sections
    ensures var w := WrittenSections(db, termId, plan, at);
      w[old_].termId != w[new_].termId || w[old_].crn != w[new_].crn
  {
    hide UpdatedValues, Full;
    NewCrn(db, termId, plan, at, new_);
    OldSection(db, termId, plan, at, old_);
    assert db.sections[old_].termId == termId ==> old_ in SectionIdsOf(db.sections, termId);
  }

  lemma NewCrn(db: Db, termId: nat, plan: Plan, at: int, id: nat)
    requires id in WrittenSections(db, termId, plan, at) && id !in db.sections
    ensures id in NewIds(db, plan.inserts) && db.nextSection <= id < db.nextSection + |plan.inserts|
    ensures WrittenSections(db, termId, plan, at)[id].termId == termId
    ensures WrittenSections(db, termId, plan, at)[id].crn == plan.inserts[id - db.nextSection].row.crn
    ensures plan.inserts[id - db.nextSection] in plan.inserts
    ensures WrittenSections(db, termId, plan, at)[id] ==
            AfterSection(NewSection(termId, plan.inserts[id - db.nextSection], at), id, termId, plan, at)
  {
    hide UpdatedValues;
  }
}
