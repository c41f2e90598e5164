/** What a backfill write keeps, and what a second write of the same selection still does. */
module BackfillLaws {
  import opened Text
  import opened Instructors
  import opened Schema
  import opened Evidence
  import opened SweepPlan
  import opened SweepFrame
  import opened Convergence
  import opened BackfillSelect
  import opened Backfill

  // ---- One instructor history ----

  /** On stored histories the backfill asks for an observation exactly when the live diff would. */
  lemma DiffersIsChanged(obs: seq<InstructorRow>, raw: string)
    ensures InstructorDiffers(StateFrom(obs), raw) == InstructorChanged(Some(StateFrom(obs)), raw)
  {
    StripKeepsWords(raw);
    FoldEmpty(Clean(raw));
    if obs != [] {
      var names := NamesAt(obs, LatestTime(obs));
      UniqueNamesClean(names);
      hide UniqueCleanNames, NamesAt, Clean, Strip, Fold;
      var unique := UniqueCleanNames(names);
      if |unique| == 1 {
        assert Keys(unique) == [NameKey(unique[0])];
      }
    }
  }

  lemma AppendedSettles(obs: seq<InstructorRow>, row: InstructorRow)
    requires InstructorDiffers(StateFrom(obs), row.name)
    ensures InstructorDiffers(StateFrom(obs + [row]), row.name) <==> !Settles(obs, row.observedAt)
  {
    hide StateFrom, InstructorDiffers, InstructorChanged, Settles;
    DiffersIsChanged(obs, row.name);
    DiffersIsChanged(obs + [row], row.name);
    AppendSettles(obs, row);
  }

  lemma FirstSettles(row: InstructorRow)
    ensures !InstructorDiffers(StateFrom([row]), row.name)
  {
    hide StateFrom, InstructorDiffers, InstructorChanged;
    DiffersIsChanged([row], row.name);
    assert [] + [row] == [row];
    StateAfterLater([], row);
    SingleNameState(row.observedAt, row.name);
  }

  // ---- Histories after the write ----

  /** Every section is named at most once. */
  ghost predicate NamesDistinct(names: seq<(nat, string)>) {
    forall i, j | 0 <= i < j < |names| :: names[i].0 != names[j].0
  }

  lemma ObservedOnce(
    table: seq<InstructorRow>, first: nat, names: seq<(nat, string)>, at: int, k: nat) returns (row: InstructorRow)
    requires NamesDistinct(names) && k < |names|
    ensures row.name == names[k].1 && row.observedAt == at && row.source == BACKFILL_SOURCE
    ensures ObservationsOf(table + Observations(first, names, at), names[k].0) ==
      ObservationsOf(table, names[k].0) + [row]
  {
    hide ObservationsOf;
    var rows := Observations(first, names, at);
    row := rows[k];
    OnlyObservation(rows, k, names[k].0);
    ObservationsOfConcat(table, rows, names[k].0);
  }

  lemma Unobserved(table: seq<InstructorRow>, first: nat, names: seq<(nat, string)>, at: int, id: nat)
    requires forall n | n in names :: n.0 != id
    ensures ObservationsOf(table + Observations(first, names, at), id) == ObservationsOf(table, id)
  {
    hide ObservationsOf;
    var rows := Observations(first, names, at);
    forall r | r in rows ensures r.sectionId != id {
      var i :| 0 <= i < |rows| && rows[i] == r;
      assert names[i] in names;
    }
    ObservationsKept(table, rows, id);
  }

  // ---- What the parts of a write hold ----

  lemma {:induction false} NewItemsSpec(sections: map<nat, Section>, termId: nat, sel: seq<SelectedRow>)
    requires CrnsDistinct(sel)
    ensures forall item ::
      item in NewItems(sections, termId, sel) <==> item in sel && SectionFor(sections, termId, item.row.crn).None?
    ensures CrnsDistinct(NewItems(sections, termId, sel))
  {
    if sel != [] {
      var n := |sel| - 1;
      NewItemsSpec(sections, termId, sel[..n]);
      assert sel == sel[..n] + [sel[n]];
      var before := NewItems(sections, termId, sel[..n]);
      forall item | item in before ensures item.row.crn != sel[n].row.crn {
        var i :| 0 <= i < n && sel[i] == item;
      }
    }
  }

  predicate Differs(table: seq<InstructorRow>, id: nat, item: SelectedRow) {
    InstructorDiffers(CurrentState(table, id), item.row.instructorRaw)
  }

  ghost predicate IsChange(
    sections: map<nat, Section>, table: seq<InstructorRow>, termId: nat, n: (nat, string), item: SelectedRow) {
    SectionFor(sections, termId, item.row.crn) == Some(n.0) && n.1 == item.row.instructorRaw &&
      Differs(table, n.0, item)
  }

  lemma {:induction false} ChangesSpec(
    sections: map<nat, Section>, table: seq<InstructorRow>, termId: nat, sel: seq<SelectedRow>)
    requires CrnsDistinct(sel)
    ensures forall n | n in Changes(sections, table, termId, sel) ::
      n.0 in sections && exists item :: item in sel && IsChange(sections, table, termId, n, item)
    ensures forall item | item in sel && SectionFor(sections, termId, item.row.crn).Some? ::
      var id := SectionFor(sections, termId, item.row.crn).value;
      Differs(table, id, item) ==> (id, item.row.instructorRaw) in Changes(sections, table, termId, sel)
    ensures NamesDistinct(Changes(sections, table, termId, sel))
  {
    hide InstructorDiffers, CurrentState;
    if sel != [] {
      var n := |sel| - 1;
      ChangesSpec(sections, table, termId, sel[..n]);
      assert sel == sel[..n] + [sel[n]];
      forall x | x in Changes(sections, table, termId, sel)
        ensures x.0 in sections && exists item :: item in sel && IsChange(sections, table, termId, x, item)
      {
        if x in Changes(sections, table, termId, sel[..n]) {
          var item :| item in sel[..n] && IsChange(sections, table, termId, x, item);
          assert item in sel;
        } else {
          assert IsChange(sections, table, termId, x, sel[n]);
        }
      }
      forall x | x in Changes(sections, table, termId, sel[..n])
        ensures SectionFor(sections, termId, sel[n].row.crn) != Some(x.0)
      {
        var item :| item in sel[..n] && IsChange(sections, table, termId, x, item);
        var i :| 0 <= i < n && sel[i] == item;
      }
    }
  }

  // ---- The tables after the write ----

  lemma WrittenOld(db: Db, termId: nat, sel: seq<SelectedRow>, at: int, id: nat)
    requires db.SectionsOk() && id in db.sections
    ensures id in AfterWrite(db, termId, sel, at).sections
    ensures AfterWrite(db, termId, sel, at).sections[id] == Backfilled(db.sections[id], termId, sel, at)
  {
    hide Backfilled, Full, NewItems, WrittenNames, NewBackfilled;
  }

  lemma WrittenNew(db: Db, termId: nat, sel: seq<SelectedRow>, at: int, id: nat)
    requires db.SectionsOk()
    ensures id in AfterWrite(db, termId, sel, at).sections && id !in db.sections <==>
      IsNew(id, db.nextSection, |NewItems(db.sections, termId, sel)|)
    ensures IsNew(id, db.nextSection, |NewItems(db.sections, termId, sel)|) ==>
      AfterWrite(db, termId, sel, at).sections[id] ==
        NewBackfilled(termId, NewItems(db.sections, termId, sel)[id - db.nextSection], at)
  {
    hide Backfilled, Full, NewItems, WrittenNames, NewBackfilled;
  }

  /** Identities stay, and other terms are untouched. */
  lemma BackfilledKeeps(s: Section, termId: nat, sel: seq<SelectedRow>, at: int)
    ensures var t := Backfilled(s, termId, sel, at);
      && t.termId == s.termId && t.crn == s.crn && t.removedAt == s.removedAt && t.firstSeenAt == s.firstSeenAt
      && (s.termId != termId ==> t == s)
  {
    hide ChangedFields, WantedItem;
  }

  lemma OldVersusNew(db: Db, termId: nat, sel: seq<SelectedRow>, at: int, i: nat, j: nat)
    requires db.SectionsOk() && CrnsDistinct(sel)
    requires i in db.sections && IsNew(j, db.nextSection, |NewItems(db.sections, termId, sel)|)
    ensures db.sections[i].termId != termId ||
      db.sections[i].crn != NewItems(db.sections, termId, sel)[j - db.nextSection].row.crn
  {
    hide Full, NewItems;
    NewItemsSpec(db.sections, termId, sel);
    assert NewItems(db.sections, termId, sel)[j - db.nextSection] in NewItems(db.sections, termId, sel);
  }

  lemma WriteKeepsUnique(db: Db, termId: nat, sel: seq<SelectedRow>, at: int)
    requires db.SectionsOk() && CrnsDistinct(sel)
    ensures UniqueCrnsIn(AfterWrite(db, termId, sel, at).sections)
  {
    hide AfterWrite, Backfilled, Full, NewItems, CrnsDistinct, IsNew;
    NewItemsSpec(db.sections, termId, sel);
    var w := AfterWrite(db, termId, sel, at).sections;
    forall i, j | i in w && j in w && w[i].termId == w[j].termId && w[i].crn == w[j].crn ensures i == j {
      SectionOrigin(db, termId, sel, at, i);
      SectionOrigin(db, termId, sel, at, j);
      if i in db.sections && j !in db.sections {
        OldVersusNew(db, termId, sel, at, i, j);
      } else if i !in db.sections && j in db.sections {
        OldVersusNew(db, termId, sel, at, j, i);
      } else if i !in db.sections && j !in db.sections {
        SameNew(db, NewItems(db.sections, termId, sel), i, j);
      }
    }
  }

  lemma SameNew(db: Db, items: seq<SelectedRow>, i: nat, j: nat)
    requires CrnsDistinct(items) && IsNew(i, db.nextSection, |items|) && IsNew(j, db.nextSection, |items|)
    requires items[i - db.nextSection].row.crn == items[j - db.nextSection].row.crn
    ensures i == j
  {
  }

  /** Where a section of the written tables comes from. */
  lemma SectionOrigin(db: Db, termId: nat, sel: seq<SelectedRow>, at: int, id: nat)
    requires db.SectionsOk() && id in AfterWrite(db, termId, sel, at).sections
    ensures var s := AfterWrite(db, termId, sel, at).sections[id];
      if id in db.sections then s.termId == db.sections[id].termId && s.crn == db.sections[id].crn
      else
        && IsNew(id, db.nextSection, |NewItems(db.sections, termId, sel)|)
        && s.termId == termId && s.crn == NewItems(db.sections, termId, sel)[id - db.nextSection].row.crn
  {
    hide AfterWrite, Backfilled, Full, NewItems;
    WrittenNew(db, termId, sel, at, id);
    if id in db.sections {
      WrittenOld(db, termId, sel, at, id);
      BackfilledKeeps(db.sections[id], termId, sel, at);
    }
  }
}
