/** What a succeeded sweep leaves in the tables, written out over the stored sections and the rows. */
module SweepMeaning {
  import opened Text
  import opened Schema
  import opened SweepPlan
  import opened Scope
  import opened SweepState
  import opened SweepApply
  import opened SweepFrame
  import opened PlanFacts
  import opened StateReload

  // ---- What the diff records ----

  /** Two column values differ. */
  predicate Differ(stored: Values, fetched: Values, f: Field) {
    Get(stored, f) != Get(fetched, f)
  }

  /** The update recorded for a section has exactly the columns in which it and the row differ, with
      the row's values. */
  ghost predicate RecordsDifferences(updates: map<nat, Values>, id: nat, stored: Values, fetched: Values) {
    && (id in updates <==> exists f: Field :: Differ(stored, fetched, f))
    && (id in updates ==>
          (forall f: Field :: f in updates[id] <==> Differ(stored, fetched, f))
          && (forall f | f in updates[id] :: updates[id][f] == Get(fetched, f)))
  }

  lemma UpdatesAreTheDifferences(rows: seq<Row>, st: DbState)
    requires DistinctCrns(rows) && RowsOk(rows) && ViewOk(st.view)
    ensures forall r | r in rows && r.crn in st.view.sections ::
      RecordsDifferences(PlanOf(rows, st).fieldUpdates, st.view.sections[r.crn].id, st.view.sections[r.crn].values,
        r.values)
    ensures forall id | id in PlanOf(rows, st).fieldUpdates ::
      exists r :: r in rows && r.crn in st.view.sections && st.view.sections[r.crn].id == id
  {
    UpdatesSpec(rows, st);
    hide FieldUpdates, Inserts, InstructorAppends, SnapshotAppends, RestoreIds, Removals, Unknown, Crns, ViewOk,
      DistinctCrns, RecordsDifferences, UpdateRecorded, Full;
    forall r | r in rows && r.crn in st.view.sections
      ensures RecordsDifferences(
        PlanOf(rows, st).fieldUpdates, st.view.sections[r.crn].id, st.view.sections[r.crn].values, r.values)
    {
      assert Known(r, st);
      RecordedDifferences(FieldUpdates(rows, st), r, st);
    }
    hide Updates;
    assert forall r | Known(r, st) :: ExistingId(r, st) == st.view.sections[r.crn].id;
    KnownUpdates(FieldUpdates(rows, st), rows, st);
  }

  lemma KnownUpdates(updates: map<nat, Values>, rows: seq<Row>, st: DbState)
    requires UpdatesComeFrom(updates, rows, st)
    ensures forall id | id in updates ::
      exists r :: r in rows && r.crn in st.view.sections && st.view.sections[r.crn].id == id
  {
    hide ChangedFields;
  }

  lemma RecordedDifferences(updates: map<nat, Values>, r: Row, st: DbState)
    requires Full(r.values) && Known(r, st) && UpdateRecorded(updates, r, st)
    ensures RecordsDifferences(updates, st.view.sections[r.crn].id, st.view.sections[r.crn].values, r.values)
  {
    DifferencesListed(st.view.sections[r.crn].values, r.values);
    hide ChangedFields, Differ;
  }

  lemma DifferencesListed(stored: Values, fetched: Values)
    requires Full(fetched)
    ensures forall f: Field :: f in ChangedFields(stored, fetched) <==> Differ(stored, fetched, f)
    ensures forall f | f in ChangedFields(stored, fetched) :: ChangedFields(stored, fetched)[f] == Get(fetched, f)
    ensures ChangedFields(stored, fetched) != map[] <==> exists f: Field :: Differ(stored, fetched, f)
  {
    if f: Field :| Differ(stored, fetched, f) {
      assert f in ChangedFields(stored, fetched);
    }
    if ChangedFields(stored, fetched) != map[] {
      var f :| f in ChangedFields(stored, fetched);
      assert Differ(stored, fetched, f);
    }
  }

  /** Writing the differences makes a section hold the row. */
  lemma DifferencesFillIn(stored: Values, fetched: Values, updates: map<nat, Values>, id: nat)
    requires Full(stored) && Full(fetched) && RecordsDifferences(updates, id, stored, fetched)
    ensures UpdatedValues(stored, updates, id) == fetched
  {
    if id in updates {
      forall f: Field ensures (stored + updates[id])[f] == fetched[f] {
        assert f in updates[id] <==> Differ(stored, fetched, f);
      }
    } else {
      forall f: Field ensures stored[f] == fetched[f] {
        assert !Differ(stored, fetched, f);
      }
    }
  }

  // ---- The sections after the writes ----

  /** A section that a sweep follows: on the campus and undergraduate. */
  predicate Followed(courses: map<nat, Course>, s: Section) {
    && SameCampus(TextOf(Get(s.values, Campus)), "Tampa")
    && s.courseId in courses && IsUndergraduateNumber(courses[s.courseId].number)
  }

  ghost predicate Lists(rows: seq<Row>, termId: nat, s: Section) {
    s.termId == termId && exists r :: r in rows && r.crn == s.crn
  }

  /** A listed section holds its row, is not removed and was seen now. */
  ghost predicate ShownAs(s: Section, r: Row, at: int) {
    s.values == r.values && s.removedAt == None && s.lastSeenAt == at
  }

  /** What becomes of a stored section. */
  ghost predicate KeptAsShown(
    courses: map<nat, Course>, s: Section, after: Section, rows: seq<Row>, termId: nat, at: int) {
    && after.termId == s.termId && after.crn == s.crn && after.courseId == s.courseId
    && after.firstSeenAt == s.firstSeenAt
    && (forall r | r in rows && s.termId == termId && r.crn == s.crn :: ShownAs(after, r, at))
    && (!Lists(rows, termId, s) ==>
          && after.values == s.values && after.lastSeenAt == s.lastSeenAt
          && after.removedAt ==
               if s.termId == termId && s.removedAt.None? && Followed(courses, s) then Some(at) else s.removedAt)
  }

  /** What a new section is. */
  predicate NewAsShown(courses: map<nat, Course>, s: Section, r: Row, termId: nat, at: int) {
    s == Section(termId, r.crn, s.courseId, r.values, at, at, None)
    && s.courseId in courses && courses[s.courseId].Key() == r.Key()
  }

  /** The section table before and after a sweep of the term at a time. */
  ghost predicate ShowsResponse(
    courses: map<nat, Course>, before: map<nat, Section>, after: map<nat, Section>, rows: seq<Row>, termId: nat,
    at: int) {
    && before.Keys <= after.Keys
    && (forall id | id in before :: KeptAsShown(courses, before[id], after[id], rows, termId, at))
    && (forall id | id in after && id !in before ::
         exists r :: r in rows && NewAsShown(courses, after[id], r, termId, at))
    && (forall r | r in rows && !StoredIn(before, termId, r.crn) && (exists c ::
         c in courses && courses[c].Key() == r.Key()) ::
          StoredIn(after, termId, r.crn))
  }

  ghost predicate StoredIn(sections: map<nat, Section>, termId: nat, crn: string) {
    exists id :: id in sections && sections[id].termId == termId && sections[id].crn == crn
  }

  lemma ListedSectionShown(rows: seq<Row>, st: DbState, db: Db, termId: nat, at: int, id: nat, r: Row)
    requires db.SectionsOk() && LoadedFrom(st, db, termId) && DistinctCrns(rows) && RowsOk(rows)
    requires id in db.sections && db.sections[id].termId == termId && r in rows && r.crn == db.sections[id].crn
    ensures ShownAs(AfterSection(db.sections[id], id, termId, PlanOf(rows, st), at), r, at)
  {
    hide ViewOf, FieldUpdates, RestoreIds, Removals, Full, Inserts, InstructorAppends, SnapshotAppends, Unknown,
      DistinctCrns, UpdatedValues, RecordsDifferences, ExistingOf;
    TermMember(db.sections, termId, id);
    ViewHas(db, termId, id);
    ViewIsOk(db, termId);
    ViewFields(db.courses, id, db.sections[id]);
    UpdatesAreTheDifferences(rows, st);
    DifferencesFillIn(db.sections[id].values, r.values, FieldUpdates(rows, st), id);
    RestoresSpec(rows, st);
    RemovalsInTerm(rows, db, termId);
    assert r.crn in Crns(rows);
    assert db.sections[id].removedAt.Some? ==> Restores(r, st) && ExistingId(r, st) == id;
  }

  lemma ViewFields(courses: map<nat, Course>, id: nat, s: Section)
    ensures var e := ExistingOf(courses, id, s);
      e.id == id && e.crn == s.crn && e.values == s.values && e.removedAt == s.removedAt
      && (s.courseId in courses ==> (e.inScope <==> Followed(courses, s)))
  {
    hide SameCampus, IsUndergraduateNumber;
  }

  lemma UnlistedSectionKept(rows: seq<Row>, st: DbState, db: Db, termId: nat, at: int, id: nat)
    requires db.SectionsOk() && LoadedFrom(st, db, termId) && DistinctCrns(rows) && RowsOk(rows)
    requires id in db.sections && !Lists(rows, termId, db.sections[id])
    ensures var s := db.sections[id];
      AfterSection(s, id, termId, PlanOf(rows, st), at) ==
        s.(removedAt :=
          if s.termId == termId && s.removedAt.None? && Followed(db.courses, s) then Some(at) else s.removedAt)
  {
    hide ViewOf, FieldUpdates, RestoreIds, Removals, Full, Inserts, InstructorAppends, SnapshotAppends, Unknown,
      DistinctCrns, ExistingOf, Followed, SectionIdsOf;
    ViewFields(db.courses, id, db.sections[id]);
    RemovalsInTerm(rows, db, termId);
    TermMember(db.sections, termId, id);
    ViewIsOk(db, termId);
    UpdatesAreTheDifferences(rows, st);
    RestoresSpec(rows, st);
    forall r | r in rows && Known(r, st) ensures ExistingId(r, st) != id {
      KnownRow(r, st, db, termId);
      TermMember(db.sections, termId, ExistingId(r, st));
    }
  }

  /** Each known key stands for a course of that key, and every key that has a course is known. */
  ghost predicate KeysStand(ids: map<CourseKey, nat>, courses: map<nat, Course>, rows: seq<Row>) {
    && (forall k | k in ids :: ids[k] in courses && courses[ids[k]].Key() == k)
    && (forall r | r in rows && (exists c :: c in courses && courses[c].Key() == r.Key()) :: r.Key() in ids)
  }

  lemma NewSectionShown(rows: seq<Row>, st: DbState, db: Db, termId: nat, at: int, id: nat)
    requires db.SectionsOk() && LoadedFrom(st, db, termId) && DistinctCrns(rows) && RowsOk(rows)
    requires KeysStand(st.courseIds, db.courses, rows)
    requires id in WrittenSections(db, termId, PlanOf(rows, st), at) && id !in db.sections
    ensures exists r ::
      r in rows && NewAsShown(db.courses, WrittenSections(db, termId, PlanOf(rows, st), at)[id], r, termId, at)
  {
    hide ViewOf, FieldUpdates, RestoreIds, Removals, Full, Inserts, InstructorAppends, SnapshotAppends, Unknown, Crns,
      DistinctCrns, WrittenSections, GoodPlan;
    var plan := PlanOf(rows, st);
    PlanIsGood(rows, st, db, termId);
    NewCrn(db, termId, plan, at, id);
    InsertsSpec(rows, st);
    var insert := plan.inserts[id - db.nextSection];
    assert insert.row in rows && insert.row.crn in Crns(rows) by { RowListed(rows, insert.row); }
    NewIsUntouched(db, termId, plan, id);
    assert NewAsShown(db.courses, WrittenSections(db, termId, plan, at)[id], insert.row, termId, at);
  }

  lemma RowListed(rows: seq<Row>, r: Row)
    requires r in rows
    ensures r.crn in Crns(rows)
  {
  }

  lemma NewIsUntouched(db: Db, termId: nat, plan: Plan, id: nat)
    requires GoodPlan(db, termId, plan) && id !in db.sections
    ensures id !in plan.fieldUpdates && id !in plan.restores && id !in plan.removals
  {
    hide Full;
    TermMember(db.sections, termId, id);
    assert id in plan.restores ==> id in RestoreSet(plan);
  }

  lemma NewRowStored(rows: seq<Row>, st: DbState, db: Db, termId: nat, at: int, r: Row)
    requires db.SectionsOk() && LoadedFrom(st, db, termId) && DistinctCrns(rows) && RowsOk(rows)
    requires r in rows && !StoredIn(db.sections, termId, r.crn) && r.Key() in st.courseIds
    ensures StoredIn(WrittenSections(db, termId, PlanOf(rows, st), at), termId, r.crn)
  {
    hide ViewOf, FieldUpdates, RestoreIds, Removals, Full, Inserts, InstructorAppends, SnapshotAppends, Unknown, Crns,
      DistinctCrns, WrittenSections, StoredIn, SectionIdsOf, NewIds;
    KnownRow(r, st, db, termId);
    if Known(r, st) {
      TermMember(db.sections, termId, ExistingId(r, st));
      ThereStored(db.sections, termId, ExistingId(r, st));
    }
    InsertsSpec(rows, st);
    var plan := PlanOf(rows, st);
    var k :| 0 <= k < |plan.inserts| && plan.inserts[k] == SectionInsert(r, st.courseIds[r.Key()]);
    var id := db.nextSection + k;
    IdIsNew(db, plan, k);
    NewIdWritten(db, termId, plan, at, id);
    NewCrn(db, termId, plan, at, id);
    ThereStored(WrittenSections(db, termId, plan, at), termId, id);
  }

  lemma ThereStored(sections: map<nat, Section>, termId: nat, id: nat)
    requires id in sections && sections[id].termId == termId
    ensures StoredIn(sections, termId, sections[id].crn)
  {
  }

  lemma IdIsNew(db: Db, plan: Plan, k: nat)
    requires k < |plan.inserts|
    ensures db.nextSection + k in NewIds(db, plan.inserts)
  {
    assert InRange(db.nextSection + k, db.nextSection, |plan.inserts|);
  }

  lemma WrittenShowsResponse(rows: seq<Row>, st: DbState, db: Db, termId: nat, at: int)
    requires db.SectionsOk() && LoadedFrom(st, db, termId) && DistinctCrns(rows) && RowsOk(rows)
    requires KeysStand(st.courseIds, db.courses, rows)
    ensures ShowsResponse(db.courses, db.sections, WrittenSections(db, termId, PlanOf(rows, st), at), rows, termId, at)
  {
    hide ViewOf, Full, PlanOf, DistinctCrns, WrittenSections, ShownAs, Lists, Followed, NewAsShown, StoredIn,
      AfterSection;
    var plan := PlanOf(rows, st);
    var w := WrittenSections(db, termId, plan, at);
    PlanIsGood(rows, st, db, termId);
    hide GoodPlan;
    forall id | id in db.sections ensures id in w && KeptAsShown(db.courses, db.sections[id], w[id], rows, termId, at) {
      OldSection(db, termId, plan, at, id);
      IdentityKept(db.sections[id], id, termId, plan, at);
      if !Lists(rows, termId, db.sections[id]) {
        UnlistedSectionKept(rows, st, db, termId, at, id);
      }
      forall r | r in rows && db.sections[id].termId == termId && r.crn == db.sections[id].crn
        ensures ShownAs(w[id], r, at)
      {
        ListedSectionShown(rows, st, db, termId, at, id, r);
      }
    }
    forall id | id in w && id !in db.sections
      ensures exists r :: r in rows && NewAsShown(db.courses, w[id], r, termId, at)
    {
      NewSectionShown(rows, st, db, termId, at, id);
    }
    forall r | r in rows && !StoredIn(db.sections, termId, r.crn) &&
      (exists c :: c in db.courses && db.courses[c].Key() == r.Key())
      ensures StoredIn(w, termId, r.crn)
    {
      NewRowStored(rows, st, db, termId, at, r);
    }
  }

  lemma IdentityKept(s: Section, id: nat, termId: nat, plan: Plan, at: int)
    ensures var after := AfterSection(s, id, termId, plan, at);
      after.termId == s.termId && after.crn == s.crn && after.courseId == s.courseId &&
        after.firstSeenAt == s.firstSeenAt
  {
  }
}
