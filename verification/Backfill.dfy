/** The change-only write of a historical term, and what it leaves behind. */
module Backfill {
  import opened Text
  import opened Instructors
  import opened Schema
  import opened Evidence
  import opened SweepPlan
  import opened SweepFrame
  import opened BackfillSelect
  import Rankings

  const BACKFILL_SOURCE := "usf_schedule_backfill"

  datatype WriteCounts = WriteCounts(inserted: nat, updated: nat, same: nat, refreshed: nat, instructorRows: nat,
    instructorChanges: nat)

  /** A CRN on more than one row to write. */
  ghost predicate CrnsDistinct(sel: seq<SelectedRow>) {
    forall i, j | 0 <= i < j < |sel| :: sel[i].row.crn != sel[j].row.crn
  }

  ghost predicate RowsFull(sel: seq<SelectedRow>, courses: map<nat, Course>) {
    forall item | item in sel :: Full(item.row.values) && item.courseId in courses
  }

  /** Whether the stored instructor differs from the fetched name. */
  predicate InstructorDiffers(state: InstructorState, raw: string) {
    var cleaned := Clean(Strip(raw));
    match state.status
    case Resolved => state.name.None? || Fold(state.name.value) != Fold(cleaned)
    case BlankLatest => cleaned != ""
    case _ => true
  }

  function WantedItem(sel: seq<SelectedRow>, crn: string): (r: Option<SelectedRow>)
    ensures r.Some? ==> r.value in sel && r.value.row.crn == crn
    ensures r.None? ==> forall item | item in sel :: item.row.crn != crn
  {
    if sel == [] then None
    else if sel[|sel| - 1].row.crn == crn then Some(sel[|sel| - 1])
    else WantedItem(sel[..|sel| - 1], crn)
  }

  function Updated(s: Section, item: SelectedRow): Section {
    s.(values := s.values + ChangedFields(s.values, item.row.values), courseId := item.courseId)
  }

  predicate NeedsUpdate(s: Section, item: SelectedRow) {
    ChangedFields(s.values, item.row.values) != map[] || s.courseId != item.courseId
  }

  /** A stored section after the write. */
  function Backfilled(s: Section, termId: nat, sel: seq<SelectedRow>, at: int): Section {
    var item := if s.termId == termId then WantedItem(sel, s.crn) else None;
    if item.Some? then Updated(s, item.value).(lastSeenAt := at) else s
  }

  ghost function NewItems(sections: map<nat, Section>, termId: nat, sel: seq<SelectedRow>): seq<SelectedRow> {
    if sel == [] then []
    else
      var last := sel[|sel| - 1];
      NewItems(sections, termId, sel[..|sel| - 1])
      + if SectionFor(sections, termId, last.row.crn).None? then [last] else []
  }

  /** Known sections whose instructor differs, with the fetched name. */
  ghost function Changes(
    sections: map<nat, Section>, table: seq<InstructorRow>, termId: nat, sel: seq<SelectedRow>): seq<(nat, string)> {
    if sel == [] then []
    else
      var last := sel[|sel| - 1];
      var id := SectionFor(sections, termId, last.row.crn);
      Changes(sections, table, termId, sel[..|sel| - 1])
      + if id.Some? && InstructorDiffers(CurrentState(table, id.value), last.row.instructorRaw)
        then [(id.value, last.row.instructorRaw)] else []
  }

  ghost function CountUpdated(sections: map<nat, Section>, termId: nat, sel: seq<SelectedRow>): nat {
    if sel == [] then 0
    else
      var last := sel[|sel| - 1];
      var id := SectionFor(sections, termId, last.row.crn);
      CountUpdated(sections, termId, sel[..|sel| - 1])
      + if id.Some? && NeedsUpdate(sections[id.value], last) then 1 else 0
  }

  function FirstNames(next: nat, items: seq<SelectedRow>): seq<(nat, string)> {
    seq(|items|, i requires 0 <= i < |items| => (next + i, items[i].row.instructorRaw))
  }

  function Observations(first: nat, names: seq<(nat, string)>, at: int): seq<InstructorRow> {
    seq(|names|, i requires 0 <= i < |names| => InstructorRow(first + i, names[i].0, names[i].1, BACKFILL_SOURCE, at))
  }

  function NewBackfilled(termId: nat, item: SelectedRow, at: int): Section {
    Section(termId, item.row.crn, item.courseId, item.row.values, at, at, None)
  }

  predicate IsNew(id: nat, next: nat, count: nat) {
    next <= id < next + count
  }

  function Inserted(next: nat, termId: nat, items: seq<SelectedRow>, at: int): map<nat, Section> {
    map id | next <= id < next + |items| && IsNew(id, next, |items|) :: NewBackfilled(termId, items[id - next], at)
  }

  ghost function WrittenNames(db: Db, termId: nat, sel: seq<SelectedRow>): seq<(nat, string)> {
    FirstNames(db.nextSection, NewItems(db.sections, termId, sel)) + Changes(db.sections, db.instructors, termId, sel)
  }

  /** The tables after the write: no snapshot, no removal, no other term. */
  ghost function AfterWrite(db: Db, termId: nat, sel: seq<SelectedRow>, at: int): Db {
    var added := NewItems(db.sections, termId, sel);
    db.(sections := (map id | id in db.sections :: Backfilled(db.sections[id], termId, sel, at))
                    + Inserted(db.nextSection, termId, added, at),
        instructors := db.instructors + Observations(db.nextInstructor, WrittenNames(db, termId, sel), at),
        nextSection := db.nextSection + |added|,
        nextInstructor := db.nextInstructor + |WrittenNames(db, termId, sel)|)
  }

  ghost function CountsOf(db: Db, termId: nat, sel: seq<SelectedRow>): WriteCounts {
    var inserted, changes, updated :=
      |NewItems(db.sections, termId, sel)|, |Changes(db.sections, db.instructors, termId, sel)|,
        CountUpdated(db.sections, termId, sel);
    Sizes(db.sections, termId, sel);
    WriteCounts(inserted, updated, |sel| - inserted - updated, |sel| - inserted, inserted + changes, changes)
  }

  lemma {:induction false} Sizes(sections: map<nat, Section>, termId: nat, sel: seq<SelectedRow>)
    ensures |NewItems(sections, termId, sel)| + CountUpdated(sections, termId, sel) <= |sel|
  {
    hide NeedsUpdate;
    if sel != [] {
      Sizes(sections, termId, sel[..|sel| - 1]);
    }
  }

  // ---- The steps of the write ----

  method ValidateSelection(sel: seq<SelectedRow>) returns (ok: bool)
    ensures ok <==> CrnsDistinct(sel)
  {
    var seen: set<string> := {};
    for k := 0 to |sel|
      invariant forall c :: c in seen <==> exists i :: 0 <= i < k && sel[i].row.crn == c
      invariant forall i, j | 0 <= i < j < k :: sel[i].row.crn != sel[j].row.crn
    {
      if sel[k].row.crn in seen {
        return false;
      }
      seen := seen + {sel[k].row.crn};
    }
    return true;
  }

  ghost predicate IsExisting(
    existing: map<string, nat>, sections: map<nat, Section>, termId: nat, sel: seq<SelectedRow>) {
    forall item | item in sel ::
      SectionFor(sections, termId, item.row.crn) == if item.row.crn in existing then Some(existing[item.row.crn])
        else None
  }

  method FindExisting(
    sections: map<nat, Section>, termId: nat, sel: seq<SelectedRow>) returns (existing: map<string, nat>)
    requires UniqueCrnsIn(sections)
    ensures IsExisting(existing, sections, termId, sel)
    ensures forall c | c in existing :: WantedItem(sel, c).Some?
  {
    existing := map[];
    var left: set<nat>, done: set<nat> := sections.Keys, {};
    while left != {}
      invariant left !! done && left + done == sections.Keys
      invariant forall c | c in existing ::
        existing[c] in done && sections[existing[c]].termId == termId && sections[existing[c]].crn == c &&
          WantedItem(sel, c).Some?
      invariant forall id | id in done && sections[id].termId == termId && WantedItem(sel, sections[id].crn).Some? ::
        sections[id].crn in existing
    {
      var id :| id in left;
      left, done := left - {id}, done + {id};
      if sections[id].termId == termId && WantedItem(sel, sections[id].crn).Some? {
        existing := existing[sections[id].crn := id];
      }
    }
    forall item | item in sel
      ensures SectionFor(sections, termId, item.row.crn) ==
        if item.row.crn in existing then Some(existing[item.row.crn]) else None
    {
      var found := SectionFor(sections, termId, item.row.crn);
      assert WantedItem(sel, item.row.crn).Some?;
    }
  }

  /** A section after the items so far were compared with it. */
  function Compared(s: Section, termId: nat, items: seq<SelectedRow>): Section {
    var item := if s.termId == termId then WantedItem(items, s.crn) else None;
    if item.Some? then Updated(s, item.value) else s
  }

  lemma ComparedNext(s: Section, termId: nat, sel: seq<SelectedRow>, k: nat)
    requires CrnsDistinct(sel) && k < |sel|
    ensures s.termId == termId && s.crn == sel[k].row.crn ==>
      Compared(s, termId, sel[..k]) == s && Compared(s, termId, sel[..k + 1]) == Updated(s, sel[k])
    ensures !(s.termId == termId && s.crn == sel[k].row.crn) ==>
      Compared(s, termId, sel[..k + 1]) == Compared(s, termId, sel[..k])
  {
    hide Updated;
    assert sel[..k + 1][..k] == sel[..k];
    if s.crn == sel[k].row.crn {
      forall item | item in sel[..k] ensures item.row.crn != s.crn {
        var i :| 0 <= i < k && sel[i] == item;
      }
    }
  }

  lemma NoUpdateNeeded(s: Section, item: SelectedRow)
    requires !NeedsUpdate(s, item)
    ensures Updated(s, item) == s
  {
    hide ChangedFields;
    assert s.values + map[] == s.values;
  }

  /** Compares each wanted row with its section; collects the rows without one. */
  method UpdateExisting(session: Rankings.Session, termId: nat, sel: seq<SelectedRow>, existing: map<string, nat>)
    returns (items: seq<SelectedRow>, updated: nat)
    requires CrnsDistinct(sel) && IsExisting(existing, session.db.sections, termId, sel)
    requires UniqueCrnsIn(session.db.sections)
    modifies session
    ensures items == NewItems(old(session.db).sections, termId, sel)
    ensures updated == CountUpdated(old(session.db).sections, termId, sel)
    ensures session.db == old(session.db).(sections := ComparedSections(old(session.db).sections, termId, sel))
  {
    hide NeedsUpdate, Updated, UniqueCrnsIn, ComparedSections, CrnsDistinct;
    ghost var db := session.db;
    items, updated := [], 0;
    NothingCompared(db.sections, termId);
    for k := 0 to |sel|
      invariant items == NewItems(db.sections, termId, sel[..k])
      invariant updated == CountUpdated(db.sections, termId, sel[..k])
      invariant session.db == db.(sections := ComparedSections(db.sections, termId, sel[..k]))
    {
      var item := sel[k];
      assert sel[..k + 1][..k] == sel[..k] && item in sel;
      NextCompared(db.sections, termId, sel, k);
      if item.row.crn !in existing {
        items := items + [item];
      } else {
        var id := existing[item.row.crn];
        var current := session.db.sections[id];
        if NeedsUpdate(current, item) {
          session.db := session.db.(sections := session.db.sections[id := Updated(current, item)]);
          updated := updated + 1;
        } else {
          NoUpdateNeeded(current, item);
        }
      }
    }
    assert sel[..|sel|] == sel;
  }

  lemma NothingCompared(sections: map<nat, Section>, termId: nat)
    ensures ComparedSections(sections, termId, []) == sections
  {
  }

  function ComparedSections(sections: map<nat, Section>, termId: nat, items: seq<SelectedRow>): (r: map<nat, Section>)
    ensures r.Keys == sections.Keys
  {
    map id | id in sections :: Compared(sections[id], termId, items)
  }

  lemma NextCompared(sections: map<nat, Section>, termId: nat, sel: seq<SelectedRow>, k: nat)
    requires CrnsDistinct(sel) && k < |sel| && UniqueCrnsIn(sections)
    ensures var own := SectionFor(sections, termId, sel[k].row.crn);
      var before, after := ComparedSections(sections, termId, sel[..k]),
        ComparedSections(sections, termId, sel[..k + 1]);
      match own
      case None => after == before
      case Some(id) =>
        id in before && before[id] == sections[id] && after == before[id := Updated(sections[id], sel[k])]
  {
    hide Compared, Updated, CrnsDistinct, UniqueCrnsIn;
    ComparedAll(sections, termId, sel, k);
  }

  /** One more item changes only its own section. */
  lemma ComparedAll(sections: map<nat, Section>, termId: nat, sel: seq<SelectedRow>, k: nat)
    requires CrnsDistinct(sel) && k < |sel| && UniqueCrnsIn(sections)
    ensures var own := SectionFor(sections, termId, sel[k].row.crn);
      forall id | id in sections ::
        if own == Some(id)
        then Compared(sections[id], termId, sel[..k]) == sections[id] &&
          Compared(sections[id], termId, sel[..k + 1]) == Updated(sections[id], sel[k])
        else Compared(sections[id], termId, sel[..k + 1]) == Compared(sections[id], termId, sel[..k])
  {
    hide Compared, Updated, CrnsDistinct;
    forall id | id in sections
      ensures var own := SectionFor(sections, termId, sel[k].row.crn);
        if own == Some(id)
        then Compared(sections[id], termId, sel[..k]) == sections[id] &&
          Compared(sections[id], termId, sel[..k + 1]) == Updated(sections[id], sel[k])
        else Compared(sections[id], termId, sel[..k + 1]) == Compared(sections[id], termId, sel[..k])
    {
      ComparedNext(sections[id], termId, sel, k);
    }
  }

  lemma NothingInserted(next: nat, termId: nat, at: int)
    ensures Inserted(next, termId, [], at) == map[]
  {
  }

  lemma InsertedNext(next: nat, termId: nat, items: seq<SelectedRow>, k: nat, at: int)
    requires k < |items|
    ensures Inserted(next, termId, items[..k + 1], at) ==
      Inserted(next, termId, items[..k], at)[next + k := NewBackfilled(termId, items[k], at)]
  {
    hide NewBackfilled;
    assert forall id :: IsNew(id, next, k + 1) <==> IsNew(id, next, k) || id == next + k;
  }

  method InsertNew(session: Rankings.Session, termId: nat, items: seq<SelectedRow>, at: int)
    requires forall id | id in session.db.sections :: id < session.db.nextSection
    modifies session
    ensures var db := old(session.db);
      session.db == db.(
        sections := db.sections + Inserted(db.nextSection, termId, items, at),
        instructors := db.instructors + Observations(db.nextInstructor, FirstNames(db.nextSection, items), at),
        nextSection := db.nextSection + |items|, nextInstructor := db.nextInstructor + |items|)
  {
    hide NewBackfilled, Inserted, Observations;
    ghost var db := session.db;
    NothingInserted(session.db.nextSection, termId, at);
    var first := session.db.nextSection;
    for k := 0 to |items|
      invariant session.db == db.(sections := session.db.sections, nextSection := db.nextSection + k)
      invariant session.db.sections == db.sections + Inserted(db.nextSection, termId, items[..k], at)
    {
      var id := session.db.nextSection;
      InsertedNext(db.nextSection, termId, items, k, at);
      session.db := session.db.(sections := session.db.sections[id := NewBackfilled(termId, items[k], at)],
        nextSection := id + 1);
    }
    assert items[..|items|] == items;
    AppendNames(session, FirstNames(first, items), at);
  }

  method AppendNames(session: Rankings.Session, names: seq<(nat, string)>, at: int)
    modifies session
    ensures var db := old(session.db);
      session.db == db.(
        instructors := db.instructors + Observations(db.nextInstructor, names, at),
        nextInstructor := db.nextInstructor + |names|)
  {
    ghost var db := session.db;
    for k := 0 to |names|
      invariant session.db == db.(
        instructors := db.instructors + Observations(db.nextInstructor, names[..k], at),
        nextInstructor := db.nextInstructor + k)
    {
      var row := InstructorRow(session.db.nextInstructor, names[k].0, names[k].1, BACKFILL_SOURCE, at);
      assert Observations(db.nextInstructor, names[..k + 1], at) ==
        Observations(db.nextInstructor, names[..k], at) + [row];
      session.db := session.db.(instructors := session.db.instructors + [row],
        nextInstructor := session.db.nextInstructor + 1);
    }
    assert names[..|names|] == names;
  }

  /** The known sections whose instructor differs now. */
  method FindChanges(
    ghost sections: map<nat, Section>, table: seq<InstructorRow>, termId: nat, sel: seq<SelectedRow>,
    existing: map<string, nat>)
    returns (names: seq<(nat, string)>)
    requires IsExisting(existing, sections, termId, sel)
    ensures names == Changes(sections, table, termId, sel)
  {
    hide InstructorDiffers, CurrentState;
    names := [];
    var ids := seq(|sel|,
      i requires 0 <= i < |sel| => if sel[i].row.crn in existing then existing[sel[i].row.crn] else 0);
    var states := GetCurrentInstructorStates(table, ids);
    for k := 0 to |sel|
      invariant names == Changes(sections, table, termId, sel[..k])
    {
      var item := sel[k];
      assert sel[..k + 1][..k] == sel[..k] && item in sel && ids[k] in ids;
      if item.row.crn in existing && InstructorDiffers(states[existing[item.row.crn]], item.row.instructorRaw) {
        names := names + [(existing[item.row.crn], item.row.instructorRaw)];
      }
    }
    assert sel[..|sel|] == sel;
  }

  method BumpLastSeen(session: Rankings.Session, termId: nat, crns: set<string>, at: int)
    modifies session
    ensures session.db ==
      old(session.db).(sections := map id | id in old(session.db).sections ::
        Bumped(old(session.db).sections[id], termId, crns, at))
  {
    session.db := session.db.(
      sections := map id | id in session.db.sections :: Bumped(session.db.sections[id], termId, crns, at));
  }

  function Bumped(s: Section, termId: nat, crns: set<string>, at: int): Section {
    if s.termId == termId && s.crn in crns then s.(lastSeenAt := at) else s
  }

  lemma {:induction false} ChangesKept(
    sections: map<nat, Section>, table: seq<InstructorRow>, extra: seq<InstructorRow>, termId: nat,
    sel: seq<SelectedRow>)
    requires forall r | r in extra :: r.sectionId !in sections
    ensures Changes(sections, table + extra, termId, sel) == Changes(sections, table, termId, sel)
  {
    hide InstructorDiffers, StateFrom, ObservationsOf;
    if sel != [] {
      var last := sel[|sel| - 1];
      ChangesKept(sections, table, extra, termId, sel[..|sel| - 1]);
      var id := SectionFor(sections, termId, last.row.crn);
      if id.Some? {
        ObservationsKept(table, extra, id.value);
      }
    }
  }

  lemma FirstNamesAreNew(sections: map<nat, Section>, next: nat, first: nat, items: seq<SelectedRow>, at: int)
    requires forall id | id in sections :: id < next
    ensures forall r | r in Observations(first, FirstNames(next, items), at) :: r.sectionId !in sections
  {
    var rows := Observations(first, FirstNames(next, items), at);
    forall r | r in rows ensures r.sectionId !in sections {
      var i :| 0 <= i < |rows| && rows[i] == r;
    }
  }

  lemma ObservationsSplit(first: nat, a: seq<(nat, string)>, b: seq<(nat, string)>, at: int)
    ensures Observations(first, a, at) + Observations(first + |a|, b, at) == Observations(first, a + b, at)
  {
  }

  lemma OldAfterWrite(db: Db, termId: nat, sel: seq<SelectedRow>, existing: map<string, nat>, at: int, id: nat)
    requires UniqueCrnsIn(db.sections) && IsExisting(existing, db.sections, termId, sel) && id in db.sections
    requires forall c | c in existing :: WantedItem(sel, c).Some?
    ensures Bumped(Compared(db.sections[id], termId, sel), termId, existing.Keys, at) ==
      Backfilled(db.sections[id], termId, sel, at)
  {
    hide ChangedFields;
    var s := db.sections[id];
    if s.termId == termId && WantedItem(sel, s.crn).Some? {
      assert WantedItem(sel, s.crn).value in sel;
      assert s.crn in existing;
    }
  }

  lemma NewAfterWrite(next: nat, termId: nat, items: seq<SelectedRow>, at: int, crns: set<string>, id: nat)
    requires id in Inserted(next, termId, items, at)
    ensures Bumped(Inserted(next, termId, items, at)[id], termId, crns, at) == Inserted(next, termId, items, at)[id]
  {
  }

  lemma SectionsAfterWrite(
    db: Db, termId: nat, sel: seq<SelectedRow>, existing: map<string, nat>, at: int, items: seq<SelectedRow>)
    requires UniqueCrnsIn(db.sections) && IsExisting(existing, db.sections, termId, sel)
    requires forall id | id in db.sections :: id < db.nextSection
    requires forall c | c in existing :: WantedItem(sel, c).Some?
    ensures var base := ComparedSections(db.sections, termId, sel) + Inserted(db.nextSection, termId, items, at);
      (map id | id in base :: Bumped(base[id], termId, existing.Keys, at)) ==
      (map id | id in db.sections :: Backfilled(db.sections[id], termId, sel, at)) +
        Inserted(db.nextSection, termId, items, at)
  {
    hide Compared, Bumped, Backfilled, NewBackfilled;
    forall id | id in db.sections
      ensures Bumped(Compared(db.sections[id], termId, sel), termId, existing.Keys, at) ==
        Backfilled(db.sections[id], termId, sel, at)
    {
      OldAfterWrite(db, termId, sel, existing, at, id);
    }
    forall id | id in Inserted(db.nextSection, termId, items, at)
      ensures Bumped(Inserted(db.nextSection, termId, items, at)[id], termId, existing.Keys, at) ==
        Inserted(db.nextSection, termId, items, at)[id]
    {
      NewAfterWrite(db.nextSection, termId, items, at, existing.Keys, id);
    }
  }

  lemma NothingToWrite(db: Db, termId: nat, at: int)
    ensures AfterWrite(db, termId, [], at) == db && CountsOf(db, termId, []) == WriteCounts(0, 0, 0, 0, 0, 0)
  {
    assert (map id | id in db.sections :: Backfilled(db.sections[id], termId, [], at)) == db.sections;
  }

  /** `write_term_backfill`; None is the guard's refusal of a CRN on two rows. */
  method WriteTermBackfill(
    session: Rankings.Session, termId: nat, sel: seq<SelectedRow>, at: int) returns (counts: Option<WriteCounts>)
    requires session.db.SectionsOk()
    modifies session
    ensures counts.None? <==> !CrnsDistinct(sel)
    ensures counts.None? ==> session.db == old(session.db)
    ensures counts.Some? ==>
      session.db == AfterWrite(old(session.db), termId, sel, at) &&
        counts.value == CountsOf(old(session.db), termId, sel)
  {
    hide ComparedSections, Backfilled, Bumped, CrnsDistinct, Full, IsExisting, Inserted, Observations,
      NewItems, Changes, CountUpdated;
    ghost var db := session.db;
    var ok := ValidateSelection(sel);
    if !ok {
      return None;
    }
    if sel == [] {
      NothingToWrite(db, termId, at);
      return Some(WriteCounts(0, 0, 0, 0, 0, 0));
    }
    var existing := FindExisting(session.db.sections, termId, sel);
    var items, updated := UpdateExisting(session, termId, sel, existing);
    InsertNew(session, termId, items, at);
    FirstNamesAreNew(db.sections, db.nextSection, db.nextInstructor, items, at);
    ChangesKept(db.sections, db.instructors, Observations(db.nextInstructor, FirstNames(db.nextSection, items), at),
      termId, sel);
    var changes := FindChanges(db.sections, session.db.instructors, termId, sel, existing);
    AppendNames(session, changes, at);
    ObservationsSplit(db.nextInstructor, FirstNames(db.nextSection, items), changes, at);
    BumpLastSeen(session, termId, existing.Keys, at);
    SectionsAfterWrite(db, termId, sel, existing, at, items);
    Sizes(db.sections, termId, sel);
    counts := Some(
      WriteCounts(|items|, updated, |sel| - |items| - updated, |sel| - |items|, |items| + |changes|, |changes|));
  }
}
