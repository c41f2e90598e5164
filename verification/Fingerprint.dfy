/** The one-row aggregates that tell the worker whether anyone else wrote to a term. */
module Fingerprint {
  import opened Text
  import opened Ordering
  import opened Instructors
  import opened Schema
  import opened SweepPlan
  import opened SweepState
  import opened StateReload

  datatype Aggregates = Aggregates(
    sections: nat, maxSection: Option<nat>, removed: nat,
    instructors: nat, maxInstructor: Option<nat>,
    snapshots: nat, maxSnapshot: Option<nat>)

  function RemovedIn(db: Db, termId: nat): set<nat> {
    set id | id in SectionIdsOf(db.sections, termId) && db.sections[id].removedAt.Some?
  }

  function InstructorIdsIn(db: Db, termId: nat): set<nat> {
    set r | r in db.instructors && r.sectionId in SectionIdsOf(db.sections, termId) :: r.id
  }

  function SnapshotIdsIn(db: Db, termId: nat): set<nat> {
    set r | r in db.snapshots && r.sectionId in SectionIdsOf(db.sections, termId) :: r.id
  }

  /** `term_fingerprint`. Ids are primary keys, so counting rows is counting ids. */
  function FingerprintOf(db: Db, termId: nat): Aggregates {
    var sections, instructors, snapshots :=
      SectionIdsOf(db.sections, termId), InstructorIdsIn(db, termId), SnapshotIdsIn(db, termId);
    Aggregates(|sections|, MaxId(sections), |RemovedIn(db, termId)|,
               |instructors|, MaxId(instructors), |snapshots|, MaxId(snapshots))
  }

  // ---- What other writers may have done ----

  /** Any history whatever of inserted, deleted and edited rows: kept sections stay in their term,
      kept history rows stay with their section, and new ids exceed every id ever issued. */
  ghost predicate KeyHistory(a: Db, b: Db) {
    && (forall id | id in b.sections && id in a.sections :: b.sections[id].termId == a.sections[id].termId)
    && (forall id | id in b.sections && id !in a.sections :: a.nextSection <= id)
    && (forall r | r in b.instructors ::
         a.nextInstructor <= r.id || exists o :: o in a.instructors && o.id == r.id && o.sectionId == r.sectionId)
    && (forall r | r in b.snapshots ::
         a.nextSnapshot <= r.id || exists o :: o in a.snapshots && o.id == r.id && o.sectionId == r.sectionId)
  }

  /** A section other writers kept: unedited, but possibly marked removed, restored or seen since. */
  predicate Remarked(s: Section, t: Section) {
    t == s.(removedAt := t.removedAt, lastSeenAt := t.lastSeenAt)
  }

  /** Any history of inserted, deleted and re-marked rows: new ids exceed every id ever issued. */
  ghost predicate History(a: Db, b: Db) {
    && a.nextSection <= b.nextSection && a.nextInstructor <= b.nextInstructor
    && a.nextSnapshot <= b.nextSnapshot && a.nextGrade <= b.nextGrade && b.terms == a.terms
    && (forall id | id in b.sections && id in a.sections :: Remarked(a.sections[id], b.sections[id]))
    && (forall id | id in b.sections && id !in a.sections :: a.nextSection <= id)
    && (forall c | c in a.courses :: c in b.courses && b.courses[c] == a.courses[c])
    && (forall r | r in b.instructors :: r in a.instructors || a.nextInstructor <= r.id)
    && (forall r | r in b.snapshots :: r in a.snapshots || a.nextSnapshot <= r.id)
    && (forall g | g in b.grades :: g in a.grades || a.nextGrade <= g.id)
  }

  lemma NoWriters(db: Db)
    ensures History(db, db)
  {
  }

  /** Histories compose: any number of other writers is one history. */
  lemma HistoriesCompose(a: Db, b: Db, c: Db)
    requires History(a, b) && History(b, c)
    requires (forall id | id in a.sections :: id < a.nextSection)
    ensures History(a, c)
  {
  }

  lemma SameCountAndMax(old_: set<nat>, now: set<nat>, issued: nat)
    requires forall x | x in old_ :: x < issued
    requires forall x | x in now :: x in old_ || issued <= x
    requires |old_| == |now| && MaxId(old_) == MaxId(now)
    ensures now == old_
  {
    assert now <= old_;
    SubsetOfSameSize(now, old_);
  }

  lemma SubsetOfSameSize(a: set<nat>, b: set<nat>)
    requires a <= b && |a| == |b|
    ensures a == b
  {
    assert b == a + (b - a);
  }

  /** Completeness: a history that changes which sections, observations or snapshots the term has
      changes the fingerprint, whatever columns it edits besides. */
  lemma FingerprintSeesWriters(a: Db, b: Db, termId: nat)
    requires (forall id | id in a.sections :: id < a.nextSection) && a.HistoryOk() && KeyHistory(a, b)
    requires FingerprintOf(a, termId) == FingerprintOf(b, termId)
    ensures SectionIdsOf(a.sections, termId) == SectionIdsOf(b.sections, termId)
    ensures InstructorIdsIn(a, termId) == InstructorIdsIn(b, termId)
    ensures SnapshotIdsIn(a, termId) == SnapshotIdsIn(b, termId)
  {
    hide MaxId;
    SameCountAndMax(SectionIdsOf(a.sections, termId), SectionIdsOf(b.sections, termId), a.nextSection);
    SameCountAndMax(InstructorIdsIn(a, termId), InstructorIdsIn(b, termId), a.nextInstructor);
    SameCountAndMax(SnapshotIdsIn(a, termId), SnapshotIdsIn(b, termId), a.nextSnapshot);
  }

  /** The same rows under the same ids. */
  predicate SameIds(a: Db, b: Db, termId: nat) {
    && SectionIdsOf(a.sections, termId) == SectionIdsOf(b.sections, termId)
    && InstructorIdsIn(a, termId) == InstructorIdsIn(b, termId)
    && SnapshotIdsIn(a, termId) == SnapshotIdsIn(b, termId)
  }

  /** The kept sections of the term that were marked removed since. */
  function NewlyMarked(a: Db, b: Db, termId: nat): set<nat> {
    set id | id in RemovedIn(b, termId) && id in SectionIdsOf(a.sections, termId) && a.sections[id].removedAt.None?
  }

  predicate Balanced(a: Db, b: Db, termId: nat) {
    |NewlyMarked(a, b, termId)| == |NewlyMarked(b, a, termId)|
  }

  /** Exactly what the fingerprint sees, whatever was inserted, deleted or edited: the ids, and
      whether as many kept sections were newly marked as were restored. */
  lemma FingerprintExactly(a: Db, b: Db, termId: nat)
    requires (forall id | id in a.sections :: id < a.nextSection) && a.HistoryOk() && KeyHistory(a, b)
    ensures FingerprintOf(a, termId) == FingerprintOf(b, termId) <==> SameIds(a, b, termId) && Balanced(a, b, termId)
  {
    hide MaxId, KeyHistory, SectionIdsOf, InstructorIdsIn, SnapshotIdsIn, NewlyMarked, RemovedIn;
    if FingerprintOf(a, termId) == FingerprintOf(b, termId) {
      FingerprintSeesWriters(a, b, termId);
    }
    if SameIds(a, b, termId) {
      MarksCancel(a, b, termId);
    }
  }

  lemma MarksCancel(a: Db, b: Db, termId: nat)
    requires SectionIdsOf(a.sections, termId) == SectionIdsOf(b.sections, termId)
    ensures |RemovedIn(a, termId)| == |RemovedIn(b, termId)| <==> Balanced(a, b, termId)
  {
    var x, y := RemovedIn(a, termId), RemovedIn(b, termId);
    assert NewlyMarked(a, b, termId) == y - x && NewlyMarked(b, a, termId) == x - y;
    assert x == (x - y) + x * y && y == (y - x) + x * y;
  }

  lemma HistoryKeepsKeys(a: Db, b: Db)
    requires History(a, b)
    ensures KeyHistory(a, b)
  {
  }

  // ---- So an unchanged fingerprint means an unchanged view ----

  predicate EarlierRow(x: InstructorRow, y: InstructorRow) {
    x.id < y.id
  }

  predicate EarlierGrade(x: GradeRow, y: GradeRow) {
    x.id < y.id
  }

  predicate EarlierSnapshot(x: SnapshotRow, y: SnapshotRow) {
    x.id < y.id
  }

  lemma {:induction false} ObservationsMembers(table: seq<InstructorRow>, id: nat)
    ensures forall r :: r in ObservationsOf(table, id) <==> r in table && r.sectionId == id
    ensures Increasing(EarlierRow, table) ==> Increasing(EarlierRow, ObservationsOf(table, id))
  {
    if table != [] {
      var n := |table| - 1;
      ObservationsMembers(table[..n], id);
      assert forall r :: r in table <==> r in table[..n] || r == table[n];
      if Increasing(EarlierRow, table) {
        forall r | r in table[..n] ensures EarlierRow(r, table[n]) {
          var i :| 0 <= i < n && table[i] == r;
        }
      }
    }
  }

  lemma IdOrder(rows: set<InstructorRow>)
    requires forall x, y | x in rows && y in rows && x.id == y.id :: x == y
    ensures StrictTotalOn(EarlierRow, rows)
  {
  }

  lemma RowIdsDiffer(table: seq<InstructorRow>, i: int, j: int)
    requires Increasing(EarlierRow, table) && 0 <= i < |table| && 0 <= j < |table|
    ensures i != j ==> table[i].id != table[j].id
  {
    if i < j {
      assert EarlierRow(table[i], table[j]);
    } else if j < i {
      assert EarlierRow(table[j], table[i]);
    }
  }

  lemma SnapshotIdsDiffer(table: seq<SnapshotRow>, i: int, j: int)
    requires Increasing(EarlierSnapshot, table) && 0 <= i < |table| && 0 <= j < |table|
    ensures i != j ==> table[i].id != table[j].id
  {
    if i < j {
      assert EarlierSnapshot(table[i], table[j]);
    } else if j < i {
      assert EarlierSnapshot(table[j], table[i]);
    }
  }

  lemma UniqueIds(table: seq<InstructorRow>)
    requires Increasing(EarlierRow, table)
    ensures forall x, y | x in table && y in table && x.id == y.id :: x == y
  {
    forall x, y | x in table && y in table && x.id == y.id ensures x == y {
      var i :| 0 <= i < |table| && table[i] == x;
      var j :| 0 <= j < |table| && table[j] == y;
      RowIdsDiffer(table, i, j);
    }
  }

  lemma SameObservations(t: seq<InstructorRow>, u: seq<InstructorRow>, id: nat)
    requires Increasing(EarlierRow, t) && Increasing(EarlierRow, u)
    requires forall r: InstructorRow | r.sectionId == id :: r in t <==> r in u
    ensures ObservationsOf(t, id) == ObservationsOf(u, id)
  {
    hide ObservationsOf;
    ObservationsMembers(t, id);
    ObservationsMembers(u, id);
    UniqueIds(t);
    IdOrder(Elements(ObservationsOf(t, id)));
    assert Elements(ObservationsOf(t, id)) == Elements(ObservationsOf(u, id));
    SortedUnique(EarlierRow, ObservationsOf(t, id), ObservationsOf(u, id));
  }

  /** The latest snapshot is the greatest by time, then id: the table's order does not matter. */
  lemma {:induction false} LatestIsGreatest(table: seq<SnapshotRow>, id: nat)
    requires Increasing(EarlierSnapshot, table)
    ensures var s := LatestSnapshot(table, id);
      && (s.None? ==> forall r | r in table :: r.sectionId != id)
      && (s.Some? ==> s.value in table && s.value.sectionId == id)
      && (s.Some? ==> forall r | r in table && r.sectionId == id && r != s.value :: Newer(s.value, r))
  {
    if table != [] {
      var n := |table| - 1;
      LatestIsGreatest(table[..n], id);
      assert forall r :: r in table <==> r in table[..n] || r == table[n];
      forall r | r in table[..n] ensures r.id < table[n].id {
        var i :| 0 <= i < n && table[i] == r;
        assert EarlierSnapshot(table[i], table[n]);
      }
    }
  }

  lemma SameLatest(t: seq<SnapshotRow>, u: seq<SnapshotRow>, id: nat)
    requires Increasing(EarlierSnapshot, t) && Increasing(EarlierSnapshot, u)
    requires forall r: SnapshotRow | r.sectionId == id :: r in t <==> r in u
    ensures LatestSnapshot(t, id) == LatestSnapshot(u, id)
  {
    hide LatestSnapshot;
    LatestIsGreatest(t, id);
    LatestIsGreatest(u, id);
  }

  /** The history and grade tables are kept in primary-key order. */
  ghost predicate KeysOrdered(db: Db) {
    && Increasing(EarlierRow, db.instructors) && Increasing(EarlierSnapshot, db.snapshots)
    && Increasing(EarlierGrade, db.grades)
  }

  lemma SameTermRows(a: Db, b: Db, termId: nat, id: nat)
    requires a.HistoryOk() && History(a, b) && KeysOrdered(a)
    requires SectionIdsOf(a.sections, termId) == SectionIdsOf(b.sections, termId)
    requires id in SectionIdsOf(a.sections, termId)
    requires InstructorIdsIn(a, termId) == InstructorIdsIn(b, termId)
    ensures forall r: InstructorRow | r.sectionId == id :: r in a.instructors <==> r in b.instructors
  {
    UniqueIds(a.instructors);
    hide Increasing, SectionIdsOf;
    forall r: InstructorRow | r.sectionId == id ensures r in a.instructors <==> r in b.instructors {
      if r in a.instructors {
        assert r.id in InstructorIdsIn(b, termId);
      }
      if r in b.instructors {
        assert r.id in InstructorIdsIn(a, termId);
      }
    }
  }

  lemma SameTermSnapshots(a: Db, b: Db, termId: nat, id: nat)
    requires a.HistoryOk() && History(a, b) && KeysOrdered(a)
    requires SectionIdsOf(a.sections, termId) == SectionIdsOf(b.sections, termId)
    requires id in SectionIdsOf(a.sections, termId)
    requires SnapshotIdsIn(a, termId) == SnapshotIdsIn(b, termId)
    ensures forall r: SnapshotRow | r.sectionId == id :: r in a.snapshots <==> r in b.snapshots
  {
    UniqueSnapshotIds(a.snapshots);
    hide Increasing, SectionIdsOf;
    forall r: SnapshotRow | r.sectionId == id ensures r in a.snapshots <==> r in b.snapshots {
      if r in a.snapshots {
        assert r.id in SnapshotIdsIn(b, termId);
      }
      if r in b.snapshots {
        assert r.id in SnapshotIdsIn(a, termId);
      }
    }
  }

  lemma UniqueSnapshotIds(table: seq<SnapshotRow>)
    requires Increasing(EarlierSnapshot, table)
    ensures forall x, y | x in table && y in table && x.id == y.id :: x == y
  {
    forall x, y | x in table && y in table && x.id == y.id ensures x == y {
      var i :| 0 <= i < |table| && table[i] == x;
      var j :| 0 <= j < |table| && table[j] == y;
      SnapshotIdsDiffer(table, i, j);
    }
  }

  /** The sections both have carry the same removal marks. */
  predicate SameMarks(a: Db, b: Db, termId: nat) {
    forall id | id in SectionIdsOf(a.sections, termId) && id in SectionIdsOf(b.sections, termId) ::
      a.sections[id].removedAt == b.sections[id].removedAt
  }

  lemma SameSection(a: Db, b: Db, termId: nat, id: nat)
    requires a.SectionsOk() && b.SectionsOk() && History(a, b)
    requires SectionIdsOf(a.sections, termId) == SectionIdsOf(b.sections, termId)
    requires id in SectionIdsOf(a.sections, termId)
    requires SameMarks(a, b, termId)
    ensures id in a.sections && id in b.sections && b.sections[id].crn == a.sections[id].crn
    ensures ExistingOf(b.courses, id, b.sections[id]) == ExistingOf(a.courses, id, a.sections[id])
    ensures CourseSubject(b.courses, b.sections[id].courseId) == CourseSubject(a.courses, a.sections[id].courseId)
  {
    hide Full;
  }

  lemma NothingPatched(db: Db, view: TermView)
    ensures UniqueIn(db.sections, {}) && Reloaded(db, view, {}) == view
  {
    hide SectionsByCrnMap, SubjectsByCrnMap, StatesOf, SeatsMap;
    assert UniqueIn(db.sections, {});
    NoMaps(db);
  }

  lemma NoMaps(db: Db)
    requires UniqueIn(db.sections, {})
    ensures SectionsByCrnMap(db.courses, db.sections, {}) == map[]
    ensures SubjectsByCrnMap(db.courses, db.sections, {}) == map[]
    ensures StatesOf(db.instructors, {}) == map[] && SeatsMap(db.snapshots, {}) == map[]
  {
    hide ExistingOf, CourseSubject, CurrentState, LatestSnapshot;
  }

  /** With the same rows and marks the whole view is the same. */
  lemma SameRowsSameView(a: Db, b: Db, termId: nat)
    requires a.SectionsOk() && a.HistoryOk() && b.SectionsOk() && KeysOrdered(a) && KeysOrdered(b) && History(a, b)
    requires SameIds(a, b, termId) && SameMarks(a, b, termId)
    ensures ViewOf(a, termId) == ViewOf(b, termId)
  {
    hide ViewOfIds, SectionIdsOf, ExistingOf, LatestSnapshot, Full, History, Increasing, ObservationsOf, StateFrom,
      CourseSubject, InstructorIdsIn, SnapshotIdsIn, SameMarks, Reloaded;
    var ids := SectionIdsOf(a.sections, termId);
    TermUnique(a.sections, termId);
    TermUnique(b.sections, termId);
    forall id | id in ids ensures SameInView(a, b, id) && id in b.sections && b.sections[id].crn == a.sections[id].crn {
      SameSection(a, b, termId, id);
      SameTermRows(a, b, termId, id);
      SameTermSnapshots(a, b, termId, id);
      SameObservations(a.instructors, b.instructors, id);
      SameLatest(a.snapshots, b.snapshots, id);
    }
    PatchedView(a, b, ids, {});
    NothingPatched(b, ViewOfIds(a, ids));
    assert ids + {} == ids;
  }

  lemma SameViewSameMarks(a: Db, b: Db, termId: nat)
    requires a.UniqueCrns() && b.UniqueCrns() && History(a, b) && ViewOf(a, termId) == ViewOf(b, termId)
    ensures SameMarks(a, b, termId)
  {
    hide ViewOf;
    forall id | id in SectionIdsOf(a.sections, termId) && id in SectionIdsOf(b.sections, termId)
      ensures a.sections[id].removedAt == b.sections[id].removedAt
    {
      ViewHas(a, termId, id);
      ViewHas(b, termId, id);
    }
  }

  /** Main result, the exact blind spot: whatever others inserted, deleted, marked and restored, an
      unchanged fingerprint hides a changed view exactly when the rows are the same, as many sections
      were newly marked as restored, and some mark is different. */
  lemma BlindSpot(a: Db, b: Db, termId: nat)
    requires a.SectionsOk() && a.HistoryOk() && b.SectionsOk() && KeysOrdered(a) && KeysOrdered(b) && History(a, b)
    ensures FingerprintOf(a, termId) == FingerprintOf(b, termId) && ViewOf(a, termId) != ViewOf(b, termId)
      <==> SameIds(a, b, termId) && Balanced(a, b, termId) && !SameMarks(a, b, termId)
  {
    hide ViewOf, Full, History, SameIds, Balanced, SameMarks, FingerprintOf, KeysOrdered;
    HistoryKeepsKeys(a, b);
    FingerprintExactly(a, b, termId);
    if SameIds(a, b, termId) && SameMarks(a, b, termId) {
      SameRowsSameView(a, b, termId);
    }
    if ViewOf(a, termId) == ViewOf(b, termId) {
      SameViewSameMarks(a, b, termId);
    }
  }

  /** No change of marks since cancels out. */
  predicate MarksShow(a: Db, b: Db, termId: nat) {
    SameIds(a, b, termId) && Balanced(a, b, termId) ==> SameMarks(a, b, termId)
  }

  /** Outside the blind spot an unchanged fingerprint means that the whole view is unchanged. */
  lemma SameFingerprintSameView(a: Db, b: Db, termId: nat)
    requires a.SectionsOk() && a.HistoryOk() && b.SectionsOk() && KeysOrdered(a) && KeysOrdered(b) && History(a, b)
    requires FingerprintOf(a, termId) == FingerprintOf(b, termId) && MarksShow(a, b, termId)
    ensures ViewOf(a, termId) == ViewOf(b, termId)
  {
    hide ViewOf, Full, History, SameIds, Balanced, SameMarks, FingerprintOf, KeysOrdered;
    BlindSpot(a, b, termId);
  }

  predicate OnlyMarked(a: Db, b: Db, termId: nat) {
    forall id | id in SectionIdsOf(a.sections, termId) && id in SectionIdsOf(b.sections, termId) ::
      a.sections[id].removedAt.Some? ==> b.sections[id].removedAt == a.sections[id].removedAt
  }

  /** Writers that only mark sections, or only restore them, always show. */
  lemma OneWayMarksShow(a: Db, b: Db, termId: nat)
    requires OnlyMarked(a, b, termId) || OnlyMarked(b, a, termId)
    ensures MarksShow(a, b, termId)
  {
    if SameIds(a, b, termId) && Balanced(a, b, termId) {
      var x, y := NewlyMarked(a, b, termId), NewlyMarked(b, a, termId);
      assert x == {} || y == {};
      assert x == {} && y == {};
      forall id | id in SectionIdsOf(a.sections, termId) && id in SectionIdsOf(b.sections, termId)
        ensures a.sections[id].removedAt == b.sections[id].removedAt
      {
        assert id !in x && id !in y;
      }
    }
  }

  // ---- What it cannot see ----

  /** One section marked removed while another is restored. */
  function SwapMarks(db: Db, i: nat, j: nat, at: int): Db
    requires i in db.sections && j in db.sections
  {
    db.(sections := db.sections[i := db.sections[i].(removedAt := Some(at))][j := db.sections[j].(removedAt := None)])
  }

  /** In-place edits that balance leave the fingerprint as it was, although the view differs. */
  lemma SwappedMarksAreNotSeen(db: Db, termId: nat, i: nat, j: nat, at: int)
    requires db.SectionsOk() && i in SectionIdsOf(db.sections, termId) && j in SectionIdsOf(db.sections, termId)
    requires db.sections[i].removedAt.None? && db.sections[j].removedAt.Some?
    ensures SwapMarks(db, i, j, at).UniqueCrns()
    ensures FingerprintOf(SwapMarks(db, i, j, at), termId) == FingerprintOf(db, termId)
    ensures ViewOf(SwapMarks(db, i, j, at), termId) != ViewOf(db, termId)
  {
    hide Full, MaxId, ViewOf, ExistingOf;
    SameSets(db, termId, i, j, at);
    ViewHas(db, termId, i);
    ViewHas(SwapMarks(db, i, j, at), termId, i);
    MarkShown(db.courses, i, db.sections[i], SwapMarks(db, i, j, at).sections[i]);
  }

  lemma SameSets(db: Db, termId: nat, i: nat, j: nat, at: int)
    requires i in SectionIdsOf(db.sections, termId) && j in SectionIdsOf(db.sections, termId)
    requires db.sections[i].removedAt.None? && db.sections[j].removedAt.Some?
    ensures var w := SwapMarks(db, i, j, at);
      && SectionIdsOf(w.sections, termId) == SectionIdsOf(db.sections, termId)
      && RemovedIn(w, termId) == RemovedIn(db, termId) - {j} + {i}
      && InstructorIdsIn(w, termId) == InstructorIdsIn(db, termId)
      && SnapshotIdsIn(w, termId) == SnapshotIdsIn(db, termId)
  {
    assert SectionIdsOf(SwapMarks(db, i, j, at).sections, termId) == SectionIdsOf(db.sections, termId);
  }

  lemma MarkShown(courses: map<nat, Course>, id: nat, s: Section, t: Section)
    requires s.removedAt != t.removedAt
    ensures ExistingOf(courses, id, s) != ExistingOf(courses, id, t)
  {
  }
}
