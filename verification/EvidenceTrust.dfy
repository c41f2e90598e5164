/** What a sweep writes, commits or rolls back never spoils the kept grade evidence. */
module EvidenceTrust {
  import opened Text
  import opened Ordering
  import opened Grades
  import opened Instructors
  import opened Schema
  import opened Evidence
  import opened SweepFrame
  import opened EvidenceCache

  lemma {:induction false} RowsOfConcat(a: seq<InstructorRow>, b: seq<InstructorRow>, sections: set<nat>)
    requires forall r | r in b :: r.sectionId !in sections
    ensures EarlierRows(a + b, sections) == EarlierRows(a, sections)
  {
    if b == [] {
      assert a + b == a;
    } else {
      var n := |b| - 1;
      assert (a + b)[..|a + b| - 1] == a + b[..n] && b[n] in b;
      RowsOfConcat(a, b[..n], sections);
    }
  }

  /** Whatever a sweep of the term writes, the fingerprint of the evidence before it is the same. */
  lemma SweepKeepsKey(db: Db, w: Db, termId: nat, code: nat)
    requires termId in db.terms && db.terms[termId] == code && WithinTerm(db, w, termId)
    ensures KeyFor(w, code) == KeyFor(db, code)
  {
    hide Totals, GradeCourses, SectionCourses, MaxId, EarlierRows, EarlierGrades;
    var sections := EarlierSections(db, code);
    forall id | id in w.sections && Earlier(w.terms, w.sections[id].termId, code)
      ensures id in db.sections && w.sections[id] == db.sections[id]
    {
      assert w.sections[id].termId != termId;
      assert id in db.sections ==> Kept(db.sections[id], w.sections[id], termId);
    }
    forall id | id in sections ensures id in w.sections && w.sections[id] == db.sections[id] {
      assert Kept(db.sections[id], w.sections[id], termId);
    }
    assert EarlierSections(w, code) == sections;
    var extra := w.instructors[|db.instructors|..];
    assert w.instructors == db.instructors + extra;
    forall r | r in extra ensures r.sectionId !in sections {
      var i :| 0 <= i < |extra| && extra[i] == r;
      assert w.instructors[|db.instructors| + i] == r;
    }
    RowsOfConcat(db.instructors, extra, sections.Keys);
  }

  /** Two states of the tables that no reading of the evidence, and no fingerprint of it, tells apart. */
  ghost predicate SameEvidence(db: Db, w: Db, code: nat) {
    && JoinedRows(w, code) == JoinedRows(db, code)
    && SameNames(JoinedRows(db, code), db.instructors, w.instructors)
    && KeyFor(w, code) == KeyFor(db, code)
  }

  lemma WithinTermSameEvidence(db: Db, w: Db, termId: nat, code: nat)
    requires UniqueCrnsIn(db.sections) && UniqueCrnsIn(w.sections)
    requires termId in db.terms && db.terms[termId] == code && WithinTerm(db, w, termId)
    ensures SameEvidence(db, w, code)
  {
    hide KeyFor, JoinedRows, WithinTerm, UniqueCrnsIn, SameNames;
    EvidenceKept(db, w, termId, code);
    SweepKeepsKey(db, w, termId, code);
  }

  lemma SameNamesSameEvidence(e: TermEvidence, fetched: seq<JoinedRow>, a: seq<InstructorRow>, b: seq<InstructorRow>)
    requires SameNames(fetched, a, b)
    ensures EvidenceOk(e, fetched, a) ==> EvidenceOk(e, fetched, b)
  {
    hide NamesOf, IsUsableInstructor, IndexOk;
    if EvidenceOk(e, fetched, a) {
      forall k | 0 <= k < |fetched| ensures EvidenceRowOf(fetched[k], a) == EvidenceRowOf(fetched[k], b) {
        assert fetched[k] in fetched;
      }
      forall k | 0 <= k < |e.rows| && e.rows[k].sectionId.Some?
        ensures NamesIn(e.names, e.rows[k].sectionId.value) == NamesOf(b, e.rows[k].sectionId.value)
      {
        assert fetched[k] in fetched && e.rows[k] == EvidenceRowOf(fetched[k], a);
      }
    }
  }

  /** What is kept serves for the one exactly when it serves for the other. */
  lemma SameEvidenceSameTrust(cache: GradeEvidenceCache, db: Db, w: Db, code: nat)
    requires SameEvidence(db, w, code)
    ensures cache.Trusted(w, code) <==> cache.Trusted(db, code)
  {
    hide EvidenceOk, JoinedRows, KeyFor, SameNames;
    if multiset(cache.fetched) == multiset(JoinedRows(db, code)) {
      NamesOfFetched(cache.fetched, JoinedRows(db, code), db.instructors, w.instructors);
      SameNamesSameEvidence(cache.evidence, cache.fetched, db.instructors, w.instructors);
      SameNamesSameEvidence(cache.evidence, cache.fetched, w.instructors, db.instructors);
    }
  }

  lemma NamesOfFetched(fetched: seq<JoinedRow>, rows: seq<JoinedRow>, a: seq<InstructorRow>, b: seq<InstructorRow>)
    requires multiset(fetched) == multiset(rows) && SameNames(rows, a, b)
    ensures SameNames(fetched, a, b) && SameNames(fetched, b, a)
  {
    SameMembers(fetched, rows);
  }

  /** A reading kept before the writes serves after them, and one made after the writes serves when
      they are rolled back. */
  lemma SweepKeepsTrust(cache: GradeEvidenceCache, db: Db, w: Db, termId: nat, code: nat)
    requires UniqueCrnsIn(db.sections) && UniqueCrnsIn(w.sections)
    requires termId in db.terms && db.terms[termId] == code && WithinTerm(db, w, termId)
    ensures cache.Trusted(w, code) <==> cache.Trusted(db, code)
    ensures KeyFor(w, code) == KeyFor(db, code)
  {
    hide KeyFor, AnswersFor, WithinTerm, UniqueCrnsIn, SameNames, JoinedRows;
    WithinTermSameEvidence(db, w, termId, code);
    SameEvidenceSameTrust(cache, db, w, code);
  }

  /** Rankings and courses are not part of the evidence. */
  lemma OtherTablesUnseen(a: Db, b: Db, code: nat)
    requires a.terms == b.terms && a.sections == b.sections && a.grades == b.grades && a.instructors == b.instructors
    ensures SameEvidence(a, b, code)
  {
    hide JoinGrades, EarlierGrades, EarlierRows, Totals, GradeCourses, SectionCourses, MaxId, NamesOf;
    assert EarlierSections(a, code) == EarlierSections(b, code);
  }

  lemma SameEvidenceComposes(a: Db, b: Db, c: Db, code: nat)
    requires SameEvidence(a, b, code) && SameEvidence(b, c, code)
    ensures SameEvidence(a, c, code)
  {
    hide JoinedRows, KeyFor, NamesOf;
  }
}
