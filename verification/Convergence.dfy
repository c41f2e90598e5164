/** Sweeping the same response twice: the second plan asks for nothing, exactly when the histories
    it appended became the latest ones. */
module Convergence {
  import opened Text
  import opened Instructors
  import opened Schema
  import opened SweepPlan
  import opened SweepState
  import opened SweepApply
  import opened SweepFrame
  import opened StateReload

  // ---- One instructor history ----

  /** An observation taken at this time becomes the latest one on its own, or replaces a blank. */
  predicate Settles(obs: seq<InstructorRow>, at: int) {
    obs == [] || at > LatestTime(obs) || (at == LatestTime(obs) && StateFrom(obs).status == BlankLatest)
  }

  lemma SingleNameState(at: int, name: string)
    ensures !InstructorChanged(Some(StateFromLatest(at, [name])), name)
  {
    UniqueAppend([], name);
    assert [] + [name] == [name];
    CleanIdempotent(name);
    FoldEmpty(Clean(name));
    if Clean(name) != "" {
      assert UniqueCleanNames([name]) == [Clean(name)];
      assert Keys([Clean(name)]) == [NameKey(name)];
    }
  }

  lemma TieNames(at: int, names: seq<string>, name: string)
    requires InstructorChanged(Some(StateFromLatest(at, names)), name)
    ensures InstructorChanged(Some(StateFromLatest(at, names + [name])), name) <==> UniqueCleanNames(names) != []
  {
    var unique := UniqueCleanNames(names);
    UniqueAppend(names, name);
    CleanIdempotent(name);
    FoldEmpty(Clean(name));
    hide UniqueCleanNames, Clean, Fold;
    if unique == [] {
      assert Keys([Clean(name)]) == [NameKey(name)];
    }
  }

  lemma TieState(obs: seq<InstructorRow>, row: InstructorRow)
    requires obs != [] && row.observedAt == LatestTime(obs)
    requires InstructorChanged(Some(StateFrom(obs)), row.name)
    ensures InstructorChanged(Some(StateFrom(obs + [row])), row.name) <==> StateFrom(obs).status != BlankLatest
  {
    hide UniqueCleanNames, NamesAt, LatestTime, InstructorChanged;
    StateAfterTie(obs, row);
    TieNames(row.observedAt, NamesAt(obs, row.observedAt), row.name);
  }

  /** Exactly when the appended name is what the next diff reads back. */
  lemma AppendSettles(obs: seq<InstructorRow>, row: InstructorRow)
    requires InstructorChanged(Some(StateFrom(obs)), row.name)
    ensures InstructorChanged(Some(StateFrom(obs + [row])), row.name) <==> !Settles(obs, row.observedAt)
  {
    if obs == [] || row.observedAt > LatestTime(obs) {
      StateAfterLater(obs, row);
      SingleNameState(row.observedAt, row.name);
    } else if row.observedAt == LatestTime(obs) {
      TieState(obs, row);
    } else {
      StateAfterEarlier(obs, row);
    }
  }

  // ---- Histories after the writes ----

  lemma {:induction false} ObservationsOfConcat(a: seq<InstructorRow>, b: seq<InstructorRow>, id: nat)
    ensures ObservationsOf(a + b, id) == ObservationsOf(a, id) + ObservationsOf(b, id)
  {
    if b == [] {
      assert a + b == a;
    } else {
      var n := |b| - 1;
      assert a + b == (a + b[..n]) + [b[n]];
      ObservationsOfConcat(a, b[..n], id);
      ObservationsOfAppend(a + b[..n], b[n], id);
    }
  }

  lemma {:induction false} OnlyObservation(rows: seq<InstructorRow>, k: nat, id: nat)
    requires k < |rows| && rows[k].sectionId == id
    requires forall i | 0 <= i < |rows| && i != k :: rows[i].sectionId != id
    ensures ObservationsOf(rows, id) == [rows[k]]
  {
    ObservationsKept([], rows[..k], id);
    assert [] + rows[..k] == rows[..k];
    ObservationsOfAppend(rows[..k], rows[k], id);
    ObservationsKept(rows[..k] + [rows[k]], rows[k + 1..], id);
    assert rows[..k] + [rows[k]] + rows[k + 1..] == rows;
  }

  lemma LatestAppend(table: seq<SnapshotRow>, row: SnapshotRow, id: nat)
    ensures var best := LatestSnapshot(table, id);
      LatestSnapshot(table + [row], id) == if row.sectionId == id &&
        (best.None? || Newer(row, best.value)) then Some(row) else best
  {
    assert (table + [row])[..|table|] == table;
  }

  lemma OnlySnapshot(table: seq<SnapshotRow>, extra: seq<SnapshotRow>, k: nat, id: nat)
    requires k < |extra| && extra[k].sectionId == id
    requires forall i | 0 <= i < |extra| && i != k :: extra[i].sectionId != id
    ensures var best := LatestSnapshot(table, id);
      LatestSnapshot(table + extra, id) == if best.None? || Newer(extra[k], best.value) then Some(extra[k]) else best
  {
    hide LatestSnapshot, Newer;
    SnapshotsKept(table, extra[..k], id);
    LatestAppend(table + extra[..k], extra[k], id);
    SnapshotsKept(table + extra[..k] + [extra[k]], extra[k + 1..], id);
    assert table + extra[..k] + [extra[k]] + extra[k + 1..] == table + extra;
  }

  lemma AppendedOnce(first: nat, appends: seq<(nat, string)>, at: int, k: nat)
    requires k < |appends| && forall i, j | 0 <= i < j < |appends| :: appends[i].0 != appends[j].0
    ensures var rows := AppendedObservations(first, appends, at);
      |rows| == |appends| && ObservationsOf(rows, appends[k].0) == [rows[k]] && rows[k].name == appends[k].1 &&
        rows[k].observedAt == at
  {
    OnlyObservation(AppendedObservations(first, appends, at), k, appends[k].0);
  }

  lemma InsertedOnce(db: Db, inserts: seq<SectionInsert>, at: int, k: nat)
    requires k < |inserts|
    ensures var rows := NewObservations(db, inserts, at);
      |rows| == |inserts| && ObservationsOf(rows, db.nextSection + k) == [rows[k]] &&
        rows[k].name == inserts[k].row.instructorRaw && rows[k].observedAt == at
  {
    OnlyObservation(NewObservations(db, inserts, at), k, db.nextSection + k);
  }

  lemma ObservationsAfterAppend(db: Db, plan: Plan, at: int, k: nat) returns (row: InstructorRow)
    requires k < |plan.instructorAppends| && plan.instructorAppends[k].0 !in NewIds(db, plan.inserts)
    requires forall i, j | 0 <= i < j < |plan.instructorAppends| ::
      plan.instructorAppends[i].0 != plan.instructorAppends[j].0
    ensures row.name == plan.instructorAppends[k].1 && row.observedAt == at
    ensures ObservationsOf(WrittenInstructors(db, plan, at), plan.instructorAppends[k].0)
         == ObservationsOf(db.instructors, plan.instructorAppends[k].0) + [row]
  {
    hide ObservationsOf, NewObservations, AppendedObservations, NewIds;
    var id := plan.instructorAppends[k].0;
    var first, rest := NewObservations(db, plan.inserts, at),
      AppendedObservations(db.nextInstructor + |plan.inserts|, plan.instructorAppends, at);
    NewRowSections(db, plan, at);
    AppendedOnce(db.nextInstructor + |plan.inserts|, plan.instructorAppends, at, k);
    row := rest[k];
    ObservationsKept(db.instructors, first, id);
    ObservationsOfConcat(db.instructors + first, rest, id);
  }

  lemma NewIdUnused(db: Db, termId: nat, plan: Plan, k: nat)
    requires db.SectionsOk() && db.HistoryOk() && GoodPlan(db, termId, plan) && k < |plan.inserts|
    ensures var id := db.nextSection + k;
      && id !in AppendIds(plan.instructorAppends) && id !in AppendIds(plan.snapshotAppends)
      && (forall r | r in db.instructors :: r.sectionId != id) && (forall r | r in db.snapshots :: r.sectionId != id)
  {
    hide Full, AppendIds;
    assert forall id | id in SectionIdsOf(db.sections, termId) :: id < db.nextSection;
  }

  lemma ObservationsAfterInsert(db: Db, termId: nat, plan: Plan, at: int, k: nat) returns (row: InstructorRow)
    requires db.SectionsOk() && db.HistoryOk() && GoodPlan(db, termId, plan) && k < |plan.inserts|
    ensures row.name == plan.inserts[k].row.instructorRaw && row.observedAt == at
    ensures ObservationsOf(WrittenInstructors(db, plan, at), db.nextSection + k) == [row]
  {
    hide ObservationsOf, NewObservations, AppendedObservations, AppendIds, GoodPlan, Full, NewIds;
    NewIdUnused(db, termId, plan, k);
    NewRowSections(db, plan, at);
    InsertedOnce(db, plan.inserts, at, k);
    row := NewObservations(db, plan.inserts, at)[k];
    AmongOthers(db.instructors, NewObservations(db, plan.inserts, at),
                AppendedObservations(db.nextInstructor + |plan.inserts|, plan.instructorAppends, at),
                db.nextSection + k);
  }

  lemma AmongOthers(a: seq<InstructorRow>, b: seq<InstructorRow>, c: seq<InstructorRow>, id: nat)
    requires forall r | r in a :: r.sectionId != id
    requires forall r | r in c :: r.sectionId != id
    ensures ObservationsOf(a + b + c, id) == ObservationsOf(b, id)
  {
    NoObservationsOf(a, id);
    ObservationsOfConcat(a, b, id);
    ObservationsKept(a + b, c, id);
  }

  lemma {:induction false} NoObservationsOf(table: seq<InstructorRow>, id: nat)
    requires forall r | r in table :: r.sectionId != id
    ensures ObservationsOf(table, id) == []
  {
    if table != [] {
      assert table[|table| - 1] in table;
      NoObservationsOf(table[..|table| - 1], id);
    }
  }

  lemma AppendedSnapshotOnce(table: seq<SnapshotRow>, first: nat, appends: seq<(nat, SeatValues)>, at: int, k: nat)
    requires k < |appends| && forall i, j | 0 <= i < j < |appends| :: appends[i].0 != appends[j].0
    ensures var rows := AppendedSnapshots(first, appends, at);
      var best := LatestSnapshot(table, appends[k].0);
      && LatestSnapshot(table + rows, appends[k].0) ==
        (if best.None? || Newer(rows[k], best.value) then Some(rows[k]) else best)
      && rows[k].seats == appends[k].1 && rows[k].observedAt == at && rows[k].id == first + k
  {
    hide LatestSnapshot, Newer;
    OnlySnapshot(table, AppendedSnapshots(first, appends, at), k, appends[k].0);
  }

  lemma InsertedSnapshotOnce(db: Db, inserts: seq<SectionInsert>, at: int, k: nat)
    requires k < |inserts| && LatestSnapshot(db.snapshots, db.nextSection + k).None?
    ensures var rows := NewSnapshots(db, inserts, at);
      LatestSnapshot(db.snapshots + rows, db.nextSection + k) == Some(rows[k]) &&
        rows[k].seats == SeatsOf(inserts[k].row.values)
  {
    hide LatestSnapshot, Newer, SeatsOf;
    OnlySnapshot(db.snapshots, NewSnapshots(db, inserts, at), k, db.nextSection + k);
  }

  lemma SnapshotAfterAppend(db: Db, plan: Plan, at: int, k: nat)
    requires db.HistoryOk() && k < |plan.snapshotAppends| && plan.snapshotAppends[k].0 !in NewIds(db, plan.inserts)
    requires forall i, j | 0 <= i < j < |plan.snapshotAppends| :: plan.snapshotAppends[i].0 != plan.snapshotAppends[j].0
    ensures var (id, seats) := plan.snapshotAppends[k];
      var best := LatestSnapshot(db.snapshots, id);
      var after := LatestSnapshot(WrittenSnapshots(db, plan, at), id);
      if best.None? || best.value.observedAt <= at then after.Some? && after.value.seats == seats else after == best
  {
    hide LatestSnapshot, NewSnapshots, AppendedSnapshots, NewIds, AppendIds;
    var id := plan.snapshotAppends[k].0;
    var first := NewSnapshots(db, plan.inserts, at);
    NewSnapshotSections(db, plan, at);
    LatestIsStored(db.snapshots, id);
    SnapshotsKept(db.snapshots, first, id);
    AppendedSnapshotOnce(db.snapshots + first, db.nextSnapshot + |plan.inserts|, plan.snapshotAppends, at, k);
  }

  lemma LatestIsStored(table: seq<SnapshotRow>, id: nat)
    ensures LatestSnapshot(table, id).Some? ==>
      LatestSnapshot(table, id).value in table && LatestSnapshot(table, id).value.sectionId == id
  {
  }

  lemma SnapshotAfterInsert(db: Db, termId: nat, plan: Plan, at: int, k: nat)
    requires db.SectionsOk() && db.HistoryOk() && GoodPlan(db, termId, plan) && k < |plan.inserts|
    ensures var after := LatestSnapshot(WrittenSnapshots(db, plan, at), db.nextSection + k);
      after.Some? && after.value.seats == SeatsOf(plan.inserts[k].row.values)
  {
    hide LatestSnapshot, NewSnapshots, AppendedSnapshots, NewIds, AppendIds, GoodPlan, Full, SeatsOf;
    NewIdUnused(db, termId, plan, k);
    var id := db.nextSection + k;
    var first, rest := NewSnapshots(db, plan.inserts, at),
      AppendedSnapshots(db.nextSnapshot + |plan.inserts|, plan.snapshotAppends, at);
    NewSnapshotSections(db, plan, at);
    LatestIsStored(db.snapshots, id);
    InsertedSnapshotOnce(db, plan.inserts, at, k);
    assert forall r | r in rest :: r.sectionId != id;
    SnapshotsKept(db.snapshots + first, rest, id);
  }
}
