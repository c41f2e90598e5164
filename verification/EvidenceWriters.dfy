/** Other writers and the kept grade evidence: its fingerprint sees every row they insert or delete. */
module EvidenceWriters {
  import opened Text
  import opened Ordering
  import opened Instructors
  import opened Schema
  import opened Evidence
  import opened Fingerprint
  import opened EvidenceCache
  import opened EvidenceTrust

  /** Any history that leaves the kept rows of the earlier terms unedited: sections of those terms may
      be re-marked, and new ids exceed every id ever issued. The term itself may change at will. */
  ghost predicate EvidenceHistory(a: Db, b: Db, code: nat) {
    && b.terms == a.terms
    && a.nextSection <= b.nextSection && a.nextInstructor <= b.nextInstructor && a.nextGrade <= b.nextGrade
    && (forall id | id in b.sections && id in a.sections :: b.sections[id].termId == a.sections[id].termId)
    && (forall id | id in b.sections && id in a.sections && Earlier(a.terms, a.sections[id].termId, code) ::
          Remarked(a.sections[id], b.sections[id]))
    && (forall id | id in b.sections && id !in a.sections :: a.nextSection <= id)
    && (forall r | r in b.instructors && r.sectionId in EarlierSections(b, code) ::
          r in a.instructors || a.nextInstructor <= r.id)
    && (forall g | g in b.grades :: g in a.grades || a.nextGrade <= g.id)
  }

  lemma HistoryIsEvidenceHistory(a: Db, b: Db, code: nat)
    requires History(a, b)
    ensures EvidenceHistory(a, b, code)
  {
  }

  lemma EvidenceHistoriesCompose(a: Db, b: Db, c: Db, code: nat)
    requires EvidenceHistory(a, b, code) && EvidenceHistory(b, c, code)
    requires (forall id | id in a.sections :: id < a.nextSection) && b.HistoryOk()
    ensures EvidenceHistory(a, c, code)
  {
    forall r | r in c.instructors && r.sectionId in EarlierSections(c, code)
      ensures r in a.instructors || a.nextInstructor <= r.id
    {
      if r in b.instructors {
        assert r.sectionId in b.sections;
        assert r.sectionId in EarlierSections(b, code);
      }
    }
  }

  /** The tables of one moment, as the laws of this module need them. */
  ghost predicate Keyed(db: Db) {
    && UniqueCrnsIn(db.sections) && KeysOrdered(db)
    && (forall id | id in db.sections :: id < db.nextSection)
    && (forall r | r in db.instructors :: r.id < db.nextInstructor)
    && (forall g | g in db.grades :: g.id < db.nextGrade)
  }

  // ---- Counting rows is counting ids ----

  lemma {:induction false} GradesMembers(terms: map<nat, nat>, grades: seq<GradeRow>, before: nat)
    ensures forall g :: g in EarlierGrades(terms, grades, before) <==> g in grades && Earlier(terms, g.termId, before)
    ensures Increasing(EarlierGrade, grades) ==> Increasing(EarlierGrade, EarlierGrades(terms, grades, before))
  {
    if grades != [] {
      var n := |grades| - 1;
      GradesMembers(terms, grades[..n], before);
      assert forall g :: g in grades <==> g in grades[..n] || g == grades[n];
      if Increasing(EarlierGrade, grades) {
        forall g | g in grades[..n] ensures EarlierGrade(g, grades[n]) {
          var i :| 0 <= i < n && grades[i] == g;
        }
      }
    }
  }

  lemma BelowLast(rows: seq<InstructorRow>, n: nat)
    requires Increasing(EarlierRow, rows) && |rows| == n + 1
    ensures forall r | r in rows[..n] :: EarlierRow(r, rows[n])
    ensures forall r :: r in rows <==> r in rows[..n] || r == rows[n]
  {
    assert rows == rows[..n] + [rows[n]];
    forall r | r in rows[..n] ensures EarlierRow(r, rows[n]) {
      var i :| 0 <= i < n && rows[i] == r;
    }
  }

  lemma {:induction false} RowsMembers(table: seq<InstructorRow>, sections: set<nat>)
    ensures forall r :: r in EarlierRows(table, sections) <==> r in table && r.sectionId in sections
    ensures Increasing(EarlierRow, table) ==> Increasing(EarlierRow, EarlierRows(table, sections))
  {
    if table != [] {
      var n := |table| - 1;
      RowsMembers(table[..n], sections);
      assert table == table[..n] + [table[n]];
      if Increasing(EarlierRow, table) {
        BelowLast(table, n);
      }
    }
  }

  function GradeIds(grades: seq<GradeRow>): set<nat> {
    set g | g in grades :: g.id
  }

  function RowIds(rows: seq<InstructorRow>): set<nat> {
    set r | r in rows :: r.id
  }

  lemma {:induction false} GradesCounted(grades: seq<GradeRow>)
    requires Increasing(EarlierGrade, grades)
    ensures |GradeIds(grades)| == |grades|
  {
    if grades != [] {
      var n := |grades| - 1;
      GradesCounted(grades[..n]);
      assert forall g :: g in grades <==> g in grades[..n] || g == grades[n];
      assert GradeIds(grades) == GradeIds(grades[..n]) + {grades[n].id};
      forall g | g in grades[..n] ensures g.id < grades[n].id {
        var i :| 0 <= i < n && grades[i] == g;
        assert EarlierGrade(grades[i], grades[n]);
      }
    }
  }

  lemma {:induction false} RowsCounted(rows: seq<InstructorRow>)
    requires Increasing(EarlierRow, rows)
    ensures |RowIds(rows)| == |rows|
  {
    if rows != [] {
      var n := |rows| - 1;
      RowsCounted(rows[..n]);
      BelowLast(rows, n);
      assert RowIds(rows) == RowIds(rows[..n]) + {rows[n].id};
    }
  }

  // ---- What the fingerprint sees ----

  /** Completeness: a history that inserts or deletes a grade row, a section or an observation of the
      earlier terms changes the evidence fingerprint. */
  lemma EvidenceKeySeesRows(a: Db, b: Db, code: nat)
    requires Keyed(a) && Keyed(b) && EvidenceHistory(a, b, code) && KeyFor(a, code) == KeyFor(b, code)
    ensures EarlierSections(a, code).Keys == EarlierSections(b, code).Keys
    ensures GradeIds(EarlierGrades(a.terms, a.grades, code)) == GradeIds(EarlierGrades(b.terms, b.grades, code))
    ensures RowIds(EarlierRows(a.instructors, EarlierSections(a, code).Keys))
         == RowIds(EarlierRows(b.instructors, EarlierSections(b, code).Keys))
  {
    hide MaxId, Totals, GradeCourses, SectionCourses, EarlierGrades, EarlierRows, KeysOrdered;
    KeyCounts(a, code);
    KeyCounts(b, code);
    var x, y := EarlierSections(a, code).Keys, EarlierSections(b, code).Keys;
    assert |EarlierSections(a, code)| == |x| && |EarlierSections(b, code)| == |y|;
    SameCountAndMax(x, y, a.nextSection);
    GradesMembers(a.terms, a.grades, code);
    GradesMembers(b.terms, b.grades, code);
    SameCountAndMax(GradeIds(EarlierGrades(a.terms, a.grades, code)), GradeIds(EarlierGrades(b.terms, b.grades, code)),
      a.nextGrade);
    RowsMembers(a.instructors, x);
    RowsMembers(b.instructors, y);
    SameCountAndMax(RowIds(EarlierRows(a.instructors, x)), RowIds(EarlierRows(b.instructors, y)), a.nextInstructor);
  }

  /** The counts of the fingerprint are counts of ids. */
  lemma KeyCounts(db: Db, code: nat)
    requires Keyed(db)
    ensures var grades := EarlierGrades(db.terms, db.grades, code);
      KeyFor(db, code).grades == |GradeIds(grades)| && KeyFor(db, code).maxGrade == MaxId(GradeIds(grades))
    ensures var rows := EarlierRows(db.instructors, EarlierSections(db, code).Keys);
      KeyFor(db, code).instructors == |RowIds(rows)| && KeyFor(db, code).maxInstructor == MaxId(RowIds(rows))
  {
    hide MaxId, Totals, GradeCourses, SectionCourses, EarlierGrades, EarlierRows, Increasing;
    GradesMembers(db.terms, db.grades, code);
    GradesCounted(EarlierGrades(db.terms, db.grades, code));
    RowsMembers(db.instructors, EarlierSections(db, code).Keys);
    RowsCounted(EarlierRows(db.instructors, EarlierSections(db, code).Keys));
  }

  // ---- So an unchanged fingerprint means unchanged evidence ----

  lemma GradeOrder(rows: set<GradeRow>)
    requires forall x, y | x in rows && y in rows && x.id == y.id :: x == y
    ensures StrictTotalOn(EarlierGrade, rows)
  {
  }

  lemma UniqueGradeIds(table: seq<GradeRow>)
    requires Increasing(EarlierGrade, table)
    ensures forall x, y | x in table && y in table && x.id == y.id :: x == y
  {
    forall x, y | x in table && y in table && x.id == y.id ensures x == y {
      var i :| 0 <= i < |table| && table[i] == x;
      var j :| 0 <= j < |table| && table[j] == y;
      GradeIdsDiffer(table, i, j);
    }
  }

  lemma GradeIdsDiffer(table: seq<GradeRow>, i: int, j: int)
    requires Increasing(EarlierGrade, table) && 0 <= i < |table| && 0 <= j < |table|
    ensures i != j ==> table[i].id != table[j].id
  {
    if i < j {
      assert EarlierGrade(table[i], table[j]);
    } else if j < i {
      assert EarlierGrade(table[j], table[i]);
    }
  }

  lemma SameGrades(a: Db, b: Db, code: nat)
    requires Keyed(a) && Keyed(b) && EvidenceHistory(a, b, code)
    requires GradeIds(EarlierGrades(a.terms, a.grades, code)) == GradeIds(EarlierGrades(b.terms, b.grades, code))
    ensures EarlierGrades(a.terms, a.grades, code) == EarlierGrades(b.terms, b.grades, code)
  {
    hide EarlierGrades, EarlierSections;
    GradesMembers(a.terms, a.grades, code);
    GradesMembers(b.terms, b.grades, code);
    UniqueGradeIds(a.grades);
    hide Increasing;
    var x, y := EarlierGrades(a.terms, a.grades, code), EarlierGrades(b.terms, b.grades, code);
    forall g ensures g in x <==> g in y {
      if g in x {
        assert g.id in GradeIds(y);
      }
      if g in y {
        assert g.id in GradeIds(x);
      }
    }
    GradeOrder(Elements(x));
    assert Elements(x) == Elements(y);
    SortedUnique(EarlierGrade, x, y);
  }

  lemma SameRowsOfEarlier(a: Db, b: Db, code: nat, id: nat)
    requires Keyed(a) && Keyed(b) && EvidenceHistory(a, b, code)
    requires EarlierSections(a, code).Keys == EarlierSections(b, code).Keys && id in EarlierSections(a, code)
    requires RowIds(EarlierRows(a.instructors, EarlierSections(a, code).Keys))
          == RowIds(EarlierRows(b.instructors, EarlierSections(b, code).Keys))
    ensures NamesOf(a.instructors, id) == NamesOf(b.instructors, id)
  {
    hide EarlierRows, EarlierSections;
    var keys := EarlierSections(a, code).Keys;
    RowsMembers(a.instructors, keys);
    RowsMembers(b.instructors, keys);
    UniqueIds(a.instructors);
    hide Increasing;
    forall r: InstructorRow | r.sectionId == id ensures r in a.instructors <==> r in b.instructors {
      if r in a.instructors {
        assert r.id in RowIds(EarlierRows(b.instructors, keys));
      }
      if r in b.instructors {
        assert r.id in RowIds(EarlierRows(a.instructors, keys));
      }
    }
  }

  /** The sections of earlier terms are the same ones, up to their marks. */
  ghost predicate SameEarlier(terms: map<nat, nat>, a: map<nat, Section>, b: map<nat, Section>, before: nat) {
    && (forall id | id in a && Earlier(terms, a[id].termId, before) :: id in b && Remarked(a[id], b[id]))
    && (forall id | id in b && Earlier(terms, b[id].termId, before) :: id in a && Remarked(a[id], b[id]))
  }

  lemma {:induction false} JoinRemarked(
    terms: map<nat, nat>, a: map<nat, Section>, b: map<nat, Section>, grades: seq<GradeRow>, before: nat)
    requires UniqueCrnsIn(a) && UniqueCrnsIn(b) && SameEarlier(terms, a, b, before)
    ensures JoinGrades(terms, a, grades, before) == JoinGrades(terms, b, grades, before)
  {
    hide IsLaboratory;
    if grades != [] {
      var g := grades[|grades| - 1];
      JoinRemarked(terms, a, b, grades[..|grades| - 1], before);
      if Earlier(terms, g.termId, before) {
        SectionForRemarked(terms, a, b, g.termId, g.crn, before);
      }
    }
  }

  lemma SectionForRemarked(
    terms: map<nat, nat>, a: map<nat, Section>, b: map<nat, Section>, termId: nat, crn: string, before: nat)
    requires UniqueCrnsIn(a) && UniqueCrnsIn(b) && SameEarlier(terms, a, b, before) && Earlier(terms, termId, before)
    ensures SectionFor(a, termId, crn) == SectionFor(b, termId, crn)
  {
  }

  /** Only the grade rows of earlier terms are joined. */
  lemma {:induction false} JoinByEarlier(
    terms: map<nat, nat>, sections: map<nat, Section>, grades: seq<GradeRow>, before: nat)
    ensures JoinGrades(terms, sections, EarlierGrades(terms, grades, before), before) ==
      JoinGrades(terms, sections, grades, before)
  {
    hide JoinRow;
    if grades != [] {
      var n := |grades| - 1;
      JoinByEarlier(terms, sections, grades[..n], before);
      var rest := EarlierGrades(terms, grades[..n], before);
      assert (rest + [grades[n]])[..|rest|] == rest;
      assert rest + [] == rest;
    }
  }

  /** A joined row names a section of an earlier term. */
  lemma {:induction false} JoinedEarlier(
    terms: map<nat, nat>, sections: map<nat, Section>, grades: seq<GradeRow>, before: nat)
    ensures forall r | r in JoinGrades(terms, sections, grades, before) && r.sectionId.Some? ::
      r.sectionId.value in sections && Earlier(terms, sections[r.sectionId.value].termId, before)
  {
    hide IsLaboratory;
    if grades != [] {
      JoinedEarlier(terms, sections, grades[..|grades| - 1], before);
    }
  }

  /** Main result: whatever others inserted or deleted, an unchanged evidence fingerprint means that
      the evidence is unchanged. */
  lemma SameKeySameEvidence(a: Db, b: Db, code: nat)
    requires Keyed(a) && Keyed(b) && EvidenceHistory(a, b, code) && KeyFor(a, code) == KeyFor(b, code)
    ensures SameEvidence(a, b, code)
  {
    hide KeyFor, EarlierGrades, EarlierRows, JoinGrades, NamesOf, KeysOrdered, GradeIds, RowIds, UniqueCrnsIn;
    EvidenceKeySeesRows(a, b, code);
    SameGrades(a, b, code);
    assert SameEarlier(a.terms, a.sections, b.sections, code) by {
      forall id
        ensures (id in a.sections && Earlier(a.terms, a.sections[id].termId, code)) <==> id in EarlierSections(a, code)
      {
      }
      forall id
        ensures (id in b.sections && Earlier(b.terms, b.sections[id].termId, code)) <==> id in EarlierSections(b, code)
      {
      }
    }
    JoinByEarlier(a.terms, a.sections, a.grades, code);
    JoinByEarlier(b.terms, b.sections, b.grades, code);
    JoinRemarked(a.terms, a.sections, b.sections, EarlierGrades(a.terms, a.grades, code), code);
    JoinedEarlier(a.terms, a.sections, a.grades, code);
    forall r | r in JoinedRows(a, code) && r.sectionId.Some?
      ensures NamesOf(a.instructors, r.sectionId.value) == NamesOf(b.instructors, r.sectionId.value)
    {
      assert r.sectionId.value in EarlierSections(a, code);
      SameRowsOfEarlier(a, b, code, r.sectionId.value);
    }
  }

  // ---- Edits in place that it sees ----

  lemma {:induction false} EditedGrade(
    terms: map<nat, nat>, grades: seq<GradeRow>, before: nat, k: nat, edited: GradeRow)
    requires k < |grades| && edited.termId == grades[k].termId && Earlier(terms, edited.termId, before)
    ensures Totals(EarlierGrades(terms, grades[k := edited], before)) ==
      Totals(EarlierGrades(terms, grades, before)) + edited.counts.total - grades[k].counts.total
    ensures GradeCourses(EarlierGrades(terms, grades[k := edited], before)) ==
      GradeCourses(EarlierGrades(terms, grades, before)) + CourseOf(edited) - CourseOf(grades[k])
  {
    var n := |grades| - 1;
    var more := grades[k := edited];
    if k == n {
      assert more[..n] == grades[..n];
      OneMoreGrade(EarlierGrades(terms, grades[..n], before), edited);
      OneMoreGrade(EarlierGrades(terms, grades[..n], before), grades[n]);
    } else {
      EditedGrade(terms, grades[..n], before, k, edited);
      assert more[..n] == grades[..n][k := edited];
      if Earlier(terms, grades[n].termId, before) {
        OneMoreGrade(EarlierGrades(terms, grades[..n], before), grades[n]);
        OneMoreGrade(EarlierGrades(terms, more[..n], before), grades[n]);
      } else {
        assert EarlierGrades(terms, grades[..n], before) + [] == EarlierGrades(terms, grades[..n], before);
        assert EarlierGrades(terms, more[..n], before) + [] == EarlierGrades(terms, more[..n], before);
      }
    }
  }

  function CourseOf(g: GradeRow): int {
    if g.courseId.Some? then g.courseId.value else 0
  }

  lemma OneMoreGrade(grades: seq<GradeRow>, g: GradeRow)
    ensures Totals(grades + [g]) == Totals(grades) + g.counts.total
    ensures GradeCourses(grades + [g]) == GradeCourses(grades) + CourseOf(g)
  {
    assert (grades + [g])[..|grades|] == grades;
  }

  /** An edit of the total or the course of one pre-term grade row changes the fingerprint. */
  lemma GradeEditsAreSeen(db: Db, code: nat, k: nat, edited: GradeRow)
    requires k < |db.grades| && edited.termId == db.grades[k].termId && Earlier(db.terms, edited.termId, code)
    requires edited.counts.total != db.grades[k].counts.total || CourseOf(edited) != CourseOf(db.grades[k])
    ensures KeyFor(db.(grades := db.grades[k := edited]), code) != KeyFor(db, code)
  {
    hide Totals, GradeCourses, EarlierGrades, SectionCourses, EarlierRows, MaxId;
    EditedGrade(db.terms, db.grades, code, k, edited);
  }
  /** An edit of the course of one section adds the difference to the sum over the sections. */
  lemma {:induction false} EditedSection(sections: map<nat, Section>, id: nat, edited: Section)
    requires id in sections
    ensures SectionCourses(sections[id := edited]) ==
      SectionCourses(sections) + edited.courseId - sections[id].courseId
    decreases |sections|
  {
    var more := sections[id := edited];
    assert more.Keys == sections.Keys;
    var last := MaxId(sections.Keys).value;
    assert |sections - {last}| < |sections| by {
      assert (sections - {last}).Keys == sections.Keys - {last};
    }
    if last == id {
      assert more - {last} == sections - {last};
    } else {
      EditedSection(sections - {last}, id, edited);
      assert more - {last} == (sections - {last})[id := edited];
    }
  }

  /** An edit of the course of one pre-term section changes the fingerprint too. */
  lemma CourseEditsAreSeen(db: Db, code: nat, id: nat, courseId: nat)
    requires id in db.sections && Earlier(db.terms, db.sections[id].termId, code)
    requires courseId != db.sections[id].courseId
    ensures KeyFor(db.(sections := db.sections[id := db.sections[id].(courseId := courseId)]), code) != KeyFor(db, code)
  {
    hide Totals, GradeCourses, EarlierGrades, SectionCourses, EarlierRows, MaxId;
    var edited := db.sections[id].(courseId := courseId);
    var w := db.(sections := db.sections[id := edited]);
    assert EarlierSections(w, code) == EarlierSections(db, code)[id := edited];
    EditedSection(EarlierSections(db, code), id, edited);
  }

  // ---- The cache among other writers ----

  /** What is kept was read from `base`, and since then the earlier terms only had a history. */
  ghost predicate ReadFrom(cache: GradeEvidenceCache, base: Db, db: Db, code: nat)
    reads cache
  {
    cache.key.Some? ==>
      && cache.key == Some(KeyFor(base, code)) && AnswersFor(cache.evidence, cache.fetched, base, code)
      && Keyed(base) && EvidenceHistory(base, db, code)
  }

  /** So a reading is trusted against whatever others left. */
  lemma ReadingIsTrusted(cache: GradeEvidenceCache, base: Db, db: Db, code: nat)
    requires ReadFrom(cache, base, db, code) && Keyed(db)
    ensures cache.Trusted(db, code)
  {
    hide KeyFor, AnswersFor, Keyed, EvidenceHistory, SameEvidence;
    if cache.key == Some(KeyFor(db, code)) {
      SameKeySameEvidence(base, db, code);
      SameEvidenceSameTrust(cache, base, db, code);
    }
  }

  lemma ReadingSurvives(cache: GradeEvidenceCache, base: Db, db: Db, later: Db, code: nat)
    requires ReadFrom(cache, base, db, code) && EvidenceHistory(db, later, code) && db.HistoryOk()
    ensures ReadFrom(cache, base, later, code)
  {
    hide KeyFor, AnswersFor, EvidenceHistory, KeysOrdered, UniqueCrnsIn;
    if cache.key.Some? {
      EvidenceHistoriesCompose(base, db, later, code);
    }
  }
}
