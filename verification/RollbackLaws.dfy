/** Deleting what a backfill wrote: what goes, what stays, and that a write is taken back exactly. */
module RollbackLaws {
  import opened Text
  import opened Instructors
  import opened Schema
  import opened Evidence
  import opened BackfillSelect
  import opened Backfill
  import opened BackfillLaws
  import opened SecondBackfill
  import opened Rollback
  import Rankings

  function Rest(table: seq<InstructorRow>, ids: set<nat>): (rest: seq<InstructorRow>)
    ensures forall r :: r in rest <==> r in table && r.sectionId !in ids
  {
    if table == [] then []
    else
      var n := |table| - 1;
      assert table == table[..n] + [table[n]];
      Rest(table[..n], ids) + if table[n].sectionId in ids then [] else [table[n]]
  }

  function Doomed(db: Db, ids: set<nat>): set<nat> {
    set id | id in ids && id in db.sections && IsHistorical(db, db.sections[id].termId)
  }

  /** Children first; a section only when its term is historical. */
  function Deleted(db: Db, ids: set<nat>): Db {
    db.(instructors := Rest(db.instructors, ids), rankings := db.rankings - ids,
        sections := db.sections - Doomed(db, ids))
  }

  method DeleteRows(table: seq<InstructorRow>, ids: set<nat>) returns (rest: seq<InstructorRow>)
    ensures rest == Rest(table, ids)
  {
    rest := [];
    for k := 0 to |table|
      invariant rest == Rest(table[..k], ids)
    {
      assert table[..k + 1][..k] == table[..k];
      if table[k].sectionId !in ids {
        rest := rest + [table[k]];
      }
    }
    assert table[..|table|] == table;
  }

  method DeleteBackfilledSections(session: Rankings.Session, ids: set<nat>) returns (deleted: nat)
    modifies session
    ensures session.db == Deleted(old(session.db), ids) && deleted == |Doomed(old(session.db), ids)|
  {
    hide Rest;
    ghost var before := session.db;
    var rest := DeleteRows(session.db.instructors, ids);
    session.db := session.db.(instructors := rest);
    session.db := session.db.(rankings := session.db.rankings - ids);
    var doomed := Doomed(session.db, ids);
    assert doomed == Doomed(before, ids);
    session.db := session.db.(sections := session.db.sections - doomed);
    deleted := |doomed|;
  }

  // ---- A rollback touches nothing else ----

  /** Only asked, historical, never otherwise used sections go; every other section keeps its rows, its
      instructor observations and its ranking, and no history is orphaned. */
  lemma RollbackTouchesNothingElse(db: Db, codes: set<nat>)
    requires db.HistoryOk()
    ensures var ids := Rollbackable(db, codes);
      var after := Deleted(db, ids);
      && after.sections == db.sections - ids
      && (forall id | id in ids ::
           IsHistorical(db, db.sections[id].termId) && db.terms[db.sections[id].termId] in codes && Eligible(db, id))
      && (forall id | id !in ids ::
           forall r: InstructorRow | r.sectionId == id :: r in after.instructors <==> r in db.instructors)
      && (forall id | id !in ids ::
           (id in after.rankings <==> id in db.rankings) &&
             (id in db.rankings ==> after.rankings[id] == db.rankings[id]))
      && after.snapshots == db.snapshots && after.grades == db.grades && after.syllabi == db.syllabi
      && after.HistoryOk()
  {
    hide Rest, HasInstructor, HasOtherSource;
    var ids := Rollbackable(db, codes);
    assert Doomed(db, ids) == ids;
    forall r | r in db.snapshots ensures r.sectionId !in ids {
      assert HasSnapshot(db.snapshots, r.sectionId);
    }
  }

  /** Which sections a rollback takes, written out: those of an asked historical term that carry
      observations, all of them the backfill's, and no snapshot and no syllabus. */
  lemma RollbackTakesExactly(db: Db, codes: set<nat>, id: nat)
    ensures id in Rollbackable(db, codes) <==>
      && id in db.sections && db.sections[id].termId in db.terms
      && db.terms[db.sections[id].termId] in codes
      && db.terms[db.sections[id].termId] in {202408, 202501, 202505, 202508, 202601}
      && (exists r :: r in db.instructors && r.sectionId == id)
      && (forall r | r in db.instructors && r.sectionId == id :: r.source == "usf_schedule_backfill")
      && (forall s | s in db.snapshots :: s.sectionId != id) && id !in db.syllabi
  {
  }

  /** Every section outside the historical terms keeps its observations and its ranking. */
  ghost predicate LiveTermsKept(db: Db, after: Db) {
    forall id | id in db.sections && !IsHistorical(db, db.sections[id].termId) ::
      && id in after.sections && after.sections[id] == db.sections[id]
      && (forall r: InstructorRow | r.sectionId == id :: r in after.instructors <==> r in db.instructors)
      && (id in after.rankings <==> id in db.rankings) && (id in db.rankings ==> after.rankings[id] == db.rankings[id])
  }

  /** The delete spares the section row of any live term, but not the rows under it: handed any ids,
      it leaves the live terms alone exactly when no live section among them has such rows. */
  lemma DeleteAndLiveTerms(db: Db, ids: set<nat>)
    ensures LiveTermsKept(db, Deleted(db, ids)) <==>
      forall id | id in ids && id in db.sections && !IsHistorical(db, db.sections[id].termId) ::
        !HasInstructor(db.instructors, id) && id !in db.rankings
  {
    hide Rest, IsHistorical;
    var after := Deleted(db, ids);
    if LiveTermsKept(db, after) {
      forall id | id in ids && id in db.sections && !IsHistorical(db, db.sections[id].termId)
        ensures !HasInstructor(db.instructors, id) && id !in db.rankings
      {
        assert id !in after.rankings;
        assert forall r | r in db.instructors && r.sectionId == id :: r in after.instructors;
      }
    }
  }

  // ---- Write, then roll back ----

  lemma {:induction false} RestOfConcat(a: seq<InstructorRow>, b: seq<InstructorRow>, ids: set<nat>)
    requires (forall r | r in a :: r.sectionId !in ids) && (forall r | r in b :: r.sectionId in ids)
    ensures Rest(a + b, ids) == a
  {
    hide Rest;
    if b == [] {
      assert a + b == a;
      RestOfKept(a, ids);
    } else {
      var n := |b| - 1;
      assert a + b == (a + b[..n]) + [b[n]] && b[n] in b;
      RestOfConcat(a, b[..n], ids);
      RestAppend(a + b[..n], b[n], ids);
    }
  }

  lemma RestAppend(rows: seq<InstructorRow>, row: InstructorRow, ids: set<nat>)
    ensures Rest(rows + [row], ids) == Rest(rows, ids) + if row.sectionId in ids then [] else [row]
  {
    assert (rows + [row])[..|rows|] == rows;
  }

  lemma {:induction false} RestOfKept(rows: seq<InstructorRow>, ids: set<nat>)
    requires forall r | r in rows :: r.sectionId !in ids
    ensures Rest(rows, ids) == rows
  {
    if rows != [] {
      var n := |rows| - 1;
      assert rows == rows[..n] + [rows[n]] && rows[n] in rows;
      RestOfKept(rows[..n], ids);
    }
  }

  /** Nothing of the selection is stored, and nothing yet looks like a backfilled section. */
  ghost predicate CleanSlate(db: Db, termId: nat, sel: seq<SelectedRow>, codes: set<nat>) {
    && NewItems(db.sections, termId, sel) == sel
    && Rollbackable(db, codes) == {}
    && (forall id | id in db.rankings :: id < db.nextSection) && (forall id | id in db.syllabi :: id < db.nextSection)
  }

  lemma {:induction false} NoChanges(
    sections: map<nat, Section>, table: seq<InstructorRow>, termId: nat, sel: seq<SelectedRow>)
    requires NewItems(sections, termId, sel) == sel
    ensures Changes(sections, table, termId, sel) == []
  {
    hide InstructorDiffers, CurrentState;
    if sel != [] {
      var n := |sel| - 1;
      NewAtMost(sections, termId, sel[..n]);
      assert NewItems(sections, termId, sel[..n]) == sel[..n];
      NoChanges(sections, table, termId, sel[..n]);
    }
  }

  lemma {:induction false} NewAtMost(sections: map<nat, Section>, termId: nat, sel: seq<SelectedRow>)
    ensures |NewItems(sections, termId, sel)| <= |sel|
  {
    if sel != [] {
      NewAtMost(sections, termId, sel[..|sel| - 1]);
    }
  }

  /** The ids a clean write hands out. */
  function NewIdsOf(db: Db, sel: seq<SelectedRow>): set<nat> {
    set id | db.nextSection <= id < db.nextSection + |sel| && IsNew(id, db.nextSection, |sel|)
  }

  /** A clean write only adds: new sections under new ids, one observation each. */
  lemma CleanWrite(db: Db, termId: nat, sel: seq<SelectedRow>, at: int, codes: set<nat>)
    requires Writable(db, sel) && CleanSlate(db, termId, sel, codes)
    ensures AfterWrite(db, termId, sel, at) == db.(
      sections := db.sections + Inserted(db.nextSection, termId, sel, at),
      instructors := db.instructors + Observations(db.nextInstructor, FirstNames(db.nextSection, sel), at),
      nextSection := db.nextSection + |sel|, nextInstructor := db.nextInstructor + |sel|)
  {
    hide NewItems, Full, Changes, Rollbackable, Backfilled, CrnsDistinct, NewBackfilled;
    NoChanges(db.sections, db.instructors, termId, sel);
    assert FirstNames(db.nextSection, sel) + [] == FirstNames(db.nextSection, sel);
    forall id | id in db.sections ensures Backfilled(db.sections[id], termId, sel, at) == db.sections[id] {
      NotWanted(db, termId, sel, at, id);
    }
    assert (map id | id in db.sections :: Backfilled(db.sections[id], termId, sel, at)) == db.sections;
  }

  lemma NotWanted(db: Db, termId: nat, sel: seq<SelectedRow>, at: int, id: nat)
    requires NewItems(db.sections, termId, sel) == sel && CrnsDistinct(sel) && id in db.sections
    ensures Backfilled(db.sections[id], termId, sel, at) == db.sections[id]
  {
    NewItemsSpec(db.sections, termId, sel);
    hide NewItems, CrnsDistinct, Updated;
    forall item | item in sel ensures SectionFor(db.sections, termId, item.row.crn).None? {
      assert item in NewItems(db.sections, termId, sel);
    }
  }

  /** The observations of a new section, and only those. */
  lemma NewObserved(db: Db, sel: seq<SelectedRow>, at: int, id: nat)
    requires db.HistoryOk() && db.SectionsOk()
    ensures var table := db.instructors + Observations(db.nextInstructor, FirstNames(db.nextSection, sel), at);
      if id in NewIdsOf(db, sel) then HasInstructor(table, id) && !HasOtherSource(table, id)
      else
        && HasInstructor(table, id) == HasInstructor(db.instructors, id)
        && HasOtherSource(table, id) == HasOtherSource(db.instructors, id)
  {
    hide Full;
    var extra := Observations(db.nextInstructor, FirstNames(db.nextSection, sel), at);
    var table := db.instructors + extra;
    assert forall r :: r in table <==> r in db.instructors || r in extra;
    forall r | r in extra ensures r.sectionId in NewIdsOf(db, sel) && r.source == BACKFILL_SOURCE {
      var i :| 0 <= i < |extra| && extra[i] == r;
      assert IsNew(db.nextSection + i, db.nextSection, |sel|);
    }
    if id in NewIdsOf(db, sel) {
      assert extra[id - db.nextSection] in extra && extra[id - db.nextSection].sectionId == id;
    } else {
      SameRowsOf(db.instructors, table, id);
    }
  }

  lemma SameRowsOf(a: seq<InstructorRow>, b: seq<InstructorRow>, id: nat)
    requires forall r: InstructorRow | r.sectionId == id :: r in a <==> r in b
    ensures HasInstructor(a, id) == HasInstructor(b, id) && HasOtherSource(a, id) == HasOtherSource(b, id)
  {
  }

  /** After a clean write the rollback would take exactly the new sections. */
  lemma NewAreRollbackable(db: Db, termId: nat, sel: seq<SelectedRow>, at: int, codes: set<nat>)
    requires Writable(db, sel) && CleanSlate(db, termId, sel, codes)
    requires IsHistorical(db, termId) && db.terms[termId] in codes
    ensures Rollbackable(AfterWrite(db, termId, sel, at), codes) == NewIdsOf(db, sel)
  {
    hide NewItems, Full, AfterWrite, Observations, FirstNames, Inserted, NewIdsOf, Asked, Eligible, Db.SectionsOk,
      Db.HistoryOk;
    CleanWrite(db, termId, sel, at, codes);
    var w := AfterWrite(db, termId, sel, at);
    NewIdsInserted(db, termId, sel, at);
    forall id | id in w.sections ensures Asked(w, id, codes) && Eligible(w, id) <==> id in NewIdsOf(db, sel) {
      NewObserved(db, sel, at, id);
      AskedAfter(db, w, termId, sel, at, codes, id);
    }
  }

  lemma NewIdsInserted(db: Db, termId: nat, sel: seq<SelectedRow>, at: int)
    ensures NewIdsOf(db, sel) == Inserted(db.nextSection, termId, sel, at).Keys
  {
    hide Full;
  }

  lemma AskedAfter(db: Db, w: Db, termId: nat, sel: seq<SelectedRow>, at: int, codes: set<nat>, id: nat)
    requires Writable(db, sel) && CleanSlate(db, termId, sel, codes) && id in w.sections
    requires IsHistorical(db, termId) && db.terms[termId] in codes
    requires w.terms == db.terms && w.snapshots == db.snapshots && w.syllabi == db.syllabi
    requires w.sections == db.sections + Inserted(db.nextSection, termId, sel, at)
    requires HasInstructor(w.instructors, id) == (id in NewIdsOf(db, sel) || HasInstructor(db.instructors, id))
    requires HasOtherSource(w.instructors, id) == (id !in NewIdsOf(db, sel) && HasOtherSource(db.instructors, id))
    ensures Asked(w, id, codes) && Eligible(w, id) <==> id in NewIdsOf(db, sel)
  {
    hide NewItems, Full, HasInstructor, HasOtherSource, CrnsDistinct, RowsFull;
    if id in db.sections {
      assert id !in Rollbackable(db, codes);
    }
  }

  /** Main result: writing a term into a clean slate and rolling it back restores every section, every
      instructor row and every ranking, whatever the other terms hold. */
  lemma WriteThenRollbackRestores(db: Db, termId: nat, sel: seq<SelectedRow>, at: int, codes: set<nat>)
    requires Writable(db, sel) && CleanSlate(db, termId, sel, codes)
    requires IsHistorical(db, termId) && db.terms[termId] in codes
    ensures var w := AfterWrite(db, termId, sel, at);
      Deleted(w, Rollbackable(w, codes)) == db.(nextSection := w.nextSection, nextInstructor := w.nextInstructor)
  {
    hide NewItems, Full, AfterWrite, Eligible, Rollbackable, Inserted, Observations, Doomed, Rest;
    CleanWrite(db, termId, sel, at, codes);
    NewAreRollbackable(db, termId, sel, at, codes);
    SectionsRestored(db, AfterWrite(db, termId, sel, at), termId, sel, at);
    InstructorsRestored(db, sel, at);
    RankingsRestored(db, sel);
  }

  lemma SectionsRestored(db: Db, w: Db, termId: nat, sel: seq<SelectedRow>, at: int)
    requires db.SectionsOk() && IsHistorical(db, termId)
    requires w.terms == db.terms && w.sections == db.sections + Inserted(db.nextSection, termId, sel, at)
    ensures w.sections - Doomed(w, NewIdsOf(db, sel)) == db.sections
  {
    hide Full;
    assert Doomed(w, NewIdsOf(db, sel)) == NewIdsOf(db, sel);
  }

  lemma InstructorsRestored(db: Db, sel: seq<SelectedRow>, at: int)
    requires db.SectionsOk() && db.HistoryOk()
    ensures var extra := Observations(db.nextInstructor, FirstNames(db.nextSection, sel), at);
      Rest(db.instructors + extra, NewIdsOf(db, sel)) == db.instructors
  {
    hide Full, Rest;
    var extra := Observations(db.nextInstructor, FirstNames(db.nextSection, sel), at);
    forall r | r in extra ensures r.sectionId in NewIdsOf(db, sel) {
      var i :| 0 <= i < |extra| && extra[i] == r;
      assert IsNew(db.nextSection + i, db.nextSection, |sel|);
    }
    RestOfConcat(db.instructors, extra, NewIdsOf(db, sel));
  }

  lemma RankingsRestored(db: Db, sel: seq<SelectedRow>)
    requires forall id | id in db.rankings :: id < db.nextSection
    ensures db.rankings - NewIdsOf(db, sel) == db.rankings
  {
  }
}
