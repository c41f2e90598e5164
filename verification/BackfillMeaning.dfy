/** What a historical write leaves in the tables, written out over the stored sections and the rows. */
module BackfillMeaning {
  import opened Text
  import opened Instructors
  import opened Schema
  import opened Evidence
  import opened SweepPlan
  import opened BackfillSelect
  import opened Backfill
  import opened BackfillLaws
  import opened SecondBackfill
  import opened SweepMeaning
  import opened SweepResult

  ghost predicate Wanted(sel: seq<SelectedRow>, termId: nat, s: Section) {
    s.termId == termId && exists item :: item in sel && item.row.crn == s.crn
  }

  /** A stored section after the write: a wanted one holds its row and course and was seen now. */
  ghost predicate KeptAsSelected(s: Section, after: Section, sel: seq<SelectedRow>, termId: nat, at: int) {
    && (forall item | item in sel && s.termId == termId && item.row.crn == s.crn ::
          after == Section(termId, s.crn, item.courseId, item.row.values, s.firstSeenAt, at, s.removedAt))
    && (!Wanted(sel, termId, s) ==> after == s)
  }

  ghost predicate StoresSelection(
    before: map<nat, Section>, after: map<nat, Section>, sel: seq<SelectedRow>, termId: nat, at: int) {
    && before.Keys <= after.Keys
    && (forall id | id in before :: KeptAsSelected(before[id], after[id], sel, termId, at))
    && (forall id | id in after && id !in before :: exists item ::
          item in sel && after[id] == Section(termId, item.row.crn, item.courseId, item.row.values, at, at, None))
    && (forall item | item in sel :: exists id ::
          id in after && after[id].termId == termId && after[id].crn == item.row.crn)
  }

  lemma WantedKept(s: Section, termId: nat, sel: seq<SelectedRow>, at: int, item: SelectedRow)
    requires CrnsDistinct(sel) && item in sel && s.termId == termId && s.crn == item.row.crn
    requires Full(s.values) && Full(item.row.values)
    ensures Backfilled(s, termId, sel, at) ==
      Section(termId, s.crn, item.courseId, item.row.values, s.firstSeenAt, at, s.removedAt)
  {
    OnlyItem(sel, item);
    FillIn(s.values, item.row.values);
    hide ChangedFields, CrnsDistinct, WantedItem, Full;
  }

  lemma FillIn(stored: Values, fetched: Values)
    requires Full(stored) && Full(fetched)
    ensures stored + ChangedFields(stored, fetched) == fetched
  {
    DifferencesListed(stored, fetched);
    forall f: Field ensures (stored + ChangedFields(stored, fetched))[f] == fetched[f] {
      assert f in ChangedFields(stored, fetched) <==> Differ(stored, fetched, f);
    }
  }

  lemma UnwantedKept(s: Section, termId: nat, sel: seq<SelectedRow>, at: int)
    requires !Wanted(sel, termId, s)
    ensures Backfilled(s, termId, sel, at) == s
  {
    hide ChangedFields;
    var item := WantedItem(sel, s.crn);
  }

  /** Main result: after the write every selected row is stored in full under its course, seen now;
      new sections are just the selected rows without one; nothing else changes. */
  lemma WriteStoresSelection(db: Db, termId: nat, sel: seq<SelectedRow>, at: int)
    requires Writable(db, sel)
    ensures var w := AfterWrite(db, termId, sel, at);
      && StoresSelection(db.sections, w.sections, sel, termId, at)
      && w.snapshots == db.snapshots && w.rankings == db.rankings && w.grades == db.grades && w.courses == db.courses
  {
    hide AfterWrite, Full, NewItems, Backfilled, CrnsDistinct, KeptAsSelected, Wanted, IsNew;
    var w := AfterWrite(db, termId, sel, at);
    NewItemsSpec(db.sections, termId, sel);
    var items := NewItems(db.sections, termId, sel);
    forall id | id in db.sections
      ensures id in w.sections && KeptAsSelected(db.sections[id], w.sections[id], sel, termId, at)
    {
      WrittenOld(db, termId, sel, at, id);
      OldKept(db, termId, sel, at, id);
    }
    forall id | id in w.sections && id !in db.sections
      ensures exists item ::
        item in sel && w.sections[id] == Section(termId, item.row.crn, item.courseId, item.row.values, at, at, None)
    {
      WrittenNew(db, termId, sel, at, id);
      IsNewBounds(id, db.nextSection, |items|);
      assert items[id - db.nextSection] in items;
    }
    forall item | item in sel
      ensures exists id :: id in w.sections && w.sections[id].termId == termId && w.sections[id].crn == item.row.crn
    {
      ItemStored(db, termId, sel, at, item);
    }
    OtherTables(db, termId, sel, at);
  }

  lemma IsNewBounds(id: nat, next: nat, count: nat)
    ensures IsNew(id, next, count) <==> next <= id < next + count
  {
  }

  lemma OtherTables(db: Db, termId: nat, sel: seq<SelectedRow>, at: int)
    ensures var w := AfterWrite(db, termId, sel, at);
      w.snapshots == db.snapshots && w.rankings == db.rankings && w.grades == db.grades && w.courses == db.courses
  {
    hide NewItems, Backfilled, WrittenNames, Inserted;
  }

  lemma OldKept(db: Db, termId: nat, sel: seq<SelectedRow>, at: int, id: nat)
    requires Writable(db, sel) && id in db.sections
    ensures KeptAsSelected(db.sections[id], Backfilled(db.sections[id], termId, sel, at), sel, termId, at)
  {
    hide Backfilled, Wanted, CrnsDistinct, Full;
    var s := db.sections[id];
    forall item | item in sel && s.termId == termId && item.row.crn == s.crn
      ensures Backfilled(s, termId, sel, at) ==
        Section(termId, s.crn, item.courseId, item.row.values, s.firstSeenAt, at, s.removedAt)
    {
      WantedKept(s, termId, sel, at, item);
    }
    if !Wanted(sel, termId, s) {
      UnwantedKept(s, termId, sel, at);
    }
  }

  lemma ItemStored(db: Db, termId: nat, sel: seq<SelectedRow>, at: int, item: SelectedRow)
    requires Writable(db, sel) && item in sel
    ensures var w := AfterWrite(db, termId, sel, at).sections;
      exists id :: id in w && w[id].termId == termId && w[id].crn == item.row.crn
  {
    hide AfterWrite, Full, NewItems, Backfilled, CrnsDistinct;
    var known := SectionFor(db.sections, termId, item.row.crn);
    if known.Some? {
      WrittenOld(db, termId, sel, at, known.value);
      BackfilledKeeps(db.sections[known.value], termId, sel, at);
    } else {
      NewItemsSpec(db.sections, termId, sel);
      var items := NewItems(db.sections, termId, sel);
      var k :| 0 <= k < |items| && items[k] == item;
      WrittenNew(db, termId, sel, at, db.nextSection + k);
    }
  }

  /** A stored section gets an observation exactly when its state does not show the row's name. */
  lemma BackfillObservesOnChange(db: Db, termId: nat, sel: seq<SelectedRow>, item: SelectedRow, id: nat)
    requires Writable(db, sel) && item in sel && SectionFor(db.sections, termId, item.row.crn) == Some(id)
    ensures (id, item.row.instructorRaw) in Changes(db.sections, db.instructors, termId, sel)
      <==> !NameShown(CurrentState(db.instructors, id), item.row.instructorRaw)
  {
    hide Changes, NameShown, StateFrom, InstructorDiffers, InstructorChanged, Full, CrnsDistinct;
    DiffersIsChanged(ObservationsOf(db.instructors, id), item.row.instructorRaw);
    ChangedIsNotShown(ObservationsOf(db.instructors, id), item.row.instructorRaw);
    ChangesSpec(db.sections, db.instructors, termId, sel);
  }
}
