/** Writing the same selection twice. */
module SecondBackfill {
  import opened Text
  import opened Instructors
  import opened Schema
  import opened Evidence
  import opened SweepPlan
  import opened Convergence
  import opened SecondSweep
  import opened BackfillSelect
  import opened Backfill
  import opened BackfillLaws

  /** A write of distinct, complete rows into sound tables. */
  ghost predicate Writable(db: Db, sel: seq<SelectedRow>) {
    db.SectionsOk() && db.HistoryOk() && CrnsDistinct(sel) && RowsFull(sel, db.courses)
  }

  lemma NamesAreDistinct(db: Db, termId: nat, sel: seq<SelectedRow>)
    requires db.SectionsOk() && CrnsDistinct(sel)
    ensures NamesDistinct(WrittenNames(db, termId, sel))
  {
    hide Changes, NewItems, Full, CrnsDistinct;
    ChangesSpec(db.sections, db.instructors, termId, sel);
    var first, rest := FirstNames(db.nextSection, NewItems(db.sections, termId, sel)),
      Changes(db.sections, db.instructors, termId, sel);
    forall i | 0 <= i < |rest| ensures rest[i].0 < db.nextSection {
      assert rest[i] in rest;
    }
  }

  /** The stored section of a wanted row after the write. */
  lemma FoundKnown(db: Db, termId: nat, sel: seq<SelectedRow>, at: int, item: SelectedRow)
    requires Writable(db, sel) && item in sel && SectionFor(db.sections, termId, item.row.crn).Some?
    ensures var w, id := AfterWrite(db, termId, sel, at), SectionFor(db.sections, termId, item.row.crn);
      && id.value in w.sections && SectionFor(w.sections, termId, item.row.crn) == id
      && !NeedsUpdate(w.sections[id.value], item)
  {
    hide AfterWrite, Full, NewItems, Backfilled;
    var id := SectionFor(db.sections, termId, item.row.crn).value;
    WriteKeepsUnique(db, termId, sel, at);
    WrittenOld(db, termId, sel, at, id);
    BackfilledKeeps(db.sections[id], termId, sel, at);
    BackfilledMatches(db.sections[id], termId, sel, at, item);
  }

  lemma BackfilledMatches(s: Section, termId: nat, sel: seq<SelectedRow>, at: int, item: SelectedRow)
    requires CrnsDistinct(sel) && item in sel && s.termId == termId && s.crn == item.row.crn
    requires Full(s.values) && Full(item.row.values)
    ensures !NeedsUpdate(Backfilled(s, termId, sel, at), item)
  {
    OnlyItem(sel, item);
    FieldsMatch(s.values, item.row.values);
    hide ChangedFields, CrnsDistinct, WantedItem, Full;
  }

  lemma FieldsMatch(stored: Values, fetched: Values)
    requires Full(stored) && Full(fetched)
    ensures ChangedFields(stored + ChangedFields(stored, fetched), fetched) == map[]
  {
  }

  lemma OnlyItem(sel: seq<SelectedRow>, item: SelectedRow)
    requires CrnsDistinct(sel) && item in sel
    ensures WantedItem(sel, item.row.crn) == Some(item)
  {
    hide WantedItem;
    var found := WantedItem(sel, item.row.crn).value;
    var i :| 0 <= i < |sel| && sel[i] == item;
    var j :| 0 <= j < |sel| && sel[j] == found;
    assert i < j ==> sel[i].row.crn != sel[j].row.crn;
    assert j < i ==> sel[j].row.crn != sel[i].row.crn;
  }

  lemma NewIndex(db: Db, termId: nat, sel: seq<SelectedRow>, item: SelectedRow) returns (k: nat)
    requires CrnsDistinct(sel) && item in sel && SectionFor(db.sections, termId, item.row.crn).None?
    ensures k < |NewItems(db.sections, termId, sel)| && NewItems(db.sections, termId, sel)[k] == item
  {
    NewItemsSpec(db.sections, termId, sel);
    hide NewItems, CrnsDistinct;
    assert item in NewItems(db.sections, termId, sel);
    k :| 0 <= k < |NewItems(db.sections, termId, sel)| && NewItems(db.sections, termId, sel)[k] == item;
  }

  lemma FoundNew(db: Db, termId: nat, sel: seq<SelectedRow>, at: int, item: SelectedRow, k: nat)
    requires Writable(db, sel) && k < |NewItems(db.sections, termId, sel)|
    requires NewItems(db.sections, termId, sel)[k] == item
    requires Full(item.row.values)
    ensures var w, id := AfterWrite(db, termId, sel, at), db.nextSection + k;
      && id in w.sections && SectionFor(w.sections, termId, item.row.crn) == Some(id)
      && !NeedsUpdate(w.sections[id], item)
  {
    hide AfterWrite, Full, NewItems;
    WriteKeepsUnique(db, termId, sel, at);
    WrittenNew(db, termId, sel, at, db.nextSection + k);
    SameFields(item.row.values);
  }

  lemma SameFields(values: Values)
    ensures ChangedFields(values, values) == map[]
  {
  }

  /** What the second write reads of a section's instructor. */
  lemma KnownDiffersAgain(db: Db, termId: nat, sel: seq<SelectedRow>, at: int, item: SelectedRow, id: nat)
    requires Writable(db, sel) && item in sel && SectionFor(db.sections, termId, item.row.crn) == Some(id)
    ensures Differs(AfterWrite(db, termId, sel, at).instructors, id, item) <==>
      Differs(db.instructors, id, item) && !Settles(ObservationsOf(db.instructors, id), at)
  {
    hide StateFrom, ObservationsOf, InstructorDiffers, Settles, Changes, NewItems, Full, CrnsDistinct,
      Backfilled;
    NamesAreDistinct(db, termId, sel);
    ChangesSpec(db.sections, db.instructors, termId, sel);
    var names, changes := WrittenNames(db, termId, sel), Changes(db.sections, db.instructors, termId, sel);
    if Differs(db.instructors, id, item) {
      var k :| 0 <= k < |changes| && changes[k] == (id, item.row.instructorRaw);
      var n := |names| - |changes| + k;
      assert names[n] == changes[k];
      var row := ObservedOnce(db.instructors, db.nextInstructor, names, at, n);
      AppendedSettles(ObservationsOf(db.instructors, id), row);
    } else {
      forall n | n in names ensures n.0 != id {
        NotNamed(db, termId, sel, item, id, n);
      }
      Unobserved(db.instructors, db.nextInstructor, names, at, id);
    }
  }

  lemma NotNamed(db: Db, termId: nat, sel: seq<SelectedRow>, item: SelectedRow, id: nat, n: (nat, string))
    requires Writable(db, sel) && item in sel && SectionFor(db.sections, termId, item.row.crn) == Some(id)
    requires !Differs(db.instructors, id, item) && n in WrittenNames(db, termId, sel)
    ensures n.0 != id
  {
    hide StateFrom, ObservationsOf, InstructorDiffers, Changes, NewItems, Full, CrnsDistinct;
    ChangesSpec(db.sections, db.instructors, termId, sel);
    var first := FirstNames(db.nextSection, NewItems(db.sections, termId, sel));
    if n in first {
      var i :| 0 <= i < |first| && first[i] == n;
    } else if n.0 == id {
      var other :| other in sel && IsChange(db.sections, db.instructors, termId, n, other);
      OnlyItem(sel, item);
      OnlyItem(sel, other);
    }
  }

  lemma NewDoesNotDiffer(db: Db, termId: nat, sel: seq<SelectedRow>, at: int, item: SelectedRow, k: nat)
    requires Writable(db, sel) && k < |NewItems(db.sections, termId, sel)|
    requires NewItems(db.sections, termId, sel)[k] == item
    ensures !Differs(AfterWrite(db, termId, sel, at).instructors, db.nextSection + k, item)
  {
    hide StateFrom, ObservationsOf, InstructorDiffers, Changes, NewItems, Full, CrnsDistinct, Backfilled;
    NamesAreDistinct(db, termId, sel);
    var names := WrittenNames(db, termId, sel);
    assert names[k] == (db.nextSection + k, item.row.instructorRaw);
    var row := ObservedOnce(db.instructors, db.nextInstructor, names, at, k);
    NoObservationsOf(db.instructors, db.nextSection + k);
    assert [] + [row] == [row];
    FirstSettles(row);
  }

  // ---- The second write ----

  lemma {:induction false} PartsEmpty(
    sections: map<nat, Section>, table: seq<InstructorRow>, termId: nat, sel: seq<SelectedRow>)
    requires forall item | item in sel ::
      SectionFor(sections, termId, item.row.crn).Some? &&
        !NeedsUpdate(sections[SectionFor(sections, termId, item.row.crn).value], item)
    ensures NewItems(sections, termId, sel) == [] && CountUpdated(sections, termId, sel) == 0
    ensures Changes(sections, table, termId, sel) == [] <==>
      forall item | item in sel :: !Differs(table, SectionFor(sections, termId, item.row.crn).value, item)
  {
    hide NeedsUpdate, InstructorDiffers, CurrentState;
    if sel != [] {
      var n := |sel| - 1;
      assert sel == sel[..n] + [sel[n]] && sel[n] in sel;
      PartsEmpty(sections, table, termId, sel[..n]);
    }
  }

  /** An item whose appended observation did not become the latest one. */
  ghost predicate Unsettled(db: Db, termId: nat, item: SelectedRow, at: int) {
    var id := SectionFor(db.sections, termId, item.row.crn);
    id.Some? && Differs(db.instructors, id.value, item) && !Settles(ObservationsOf(db.instructors, id.value), at)
  }

  lemma ItemAgain(db: Db, termId: nat, sel: seq<SelectedRow>, at: int, item: SelectedRow)
    requires Writable(db, sel) && item in sel
    ensures var w := AfterWrite(db, termId, sel, at);
      var id := SectionFor(w.sections, termId, item.row.crn);
      id.Some? && id.value in w.sections && !NeedsUpdate(w.sections[id.value], item)
      && (Differs(w.instructors, id.value, item) <==> Unsettled(db, termId, item, at))
  {
    hide AfterWrite, Differs, Settles, ObservationsOf, NeedsUpdate, Full;
    if SectionFor(db.sections, termId, item.row.crn).Some? {
      FoundKnown(db, termId, sel, at, item);
      KnownDiffersAgain(db, termId, sel, at, item, SectionFor(db.sections, termId, item.row.crn).value);
    } else {
      var k := NewIndex(db, termId, sel, item);
      FoundNew(db, termId, sel, at, item, k);
      NewDoesNotDiffer(db, termId, sel, at, item, k);
    }
  }

  /** Main result: a second write inserts and updates nothing, and appends nothing exactly when every
      name the first one appended became the latest; always so at a new time. */
  lemma SecondWriteIsQuiet(db: Db, termId: nat, sel: seq<SelectedRow>, at: int)
    requires Writable(db, sel)
    ensures var counts := CountsOf(AfterWrite(db, termId, sel, at), termId, sel);
      && counts.inserted == 0 && counts.updated == 0 && counts.same == counts.refreshed == |sel|
      && counts.instructorRows == counts.instructorChanges
      && (counts.instructorChanges == 0 <==> forall item | item in sel :: !Unsettled(db, termId, item, at))
    ensures LaterThanStored(db, at) ==>
      CountsOf(AfterWrite(db, termId, sel, at), termId, sel) == WriteCounts(0, 0, |sel|, |sel|, 0, 0)
  {
    hide AfterWrite, Differs, NeedsUpdate, Unsettled, Writable, Changes, NewItems, CountUpdated;
    var w := AfterWrite(db, termId, sel, at);
    forall item | item in sel
      ensures var id := SectionFor(w.sections, termId, item.row.crn);
        id.Some? && !NeedsUpdate(w.sections[id.value], item) &&
          (Differs(w.instructors, id.value, item) <==> Unsettled(db, termId, item, at))
    {
      ItemAgain(db, termId, sel, at, item);
    }
    PartsEmpty(w.sections, w.instructors, termId, sel);
    if LaterThanStored(db, at) {
      forall item | item in sel ensures !Unsettled(db, termId, item, at) {
        SettledWhenLater(db, termId, item, at);
      }
    }
  }

  lemma SettledWhenLater(db: Db, termId: nat, item: SelectedRow, at: int)
    requires LaterThanStored(db, at)
    ensures !Unsettled(db, termId, item, at)
  {
    hide Differs, StateFrom, ObservationsOf;
    var id := SectionFor(db.sections, termId, item.row.crn);
    if id.Some? {
      ObservationsAmong(db.instructors, id.value);
    }
  }
}
