/** The tables after a succeeded sweep hold what the response shows. */
module SweepResult {
  import opened Text
  import opened Instructors
  import opened Schema
  import opened Windows
  import opened Freshness
  import opened Rankings
  import opened SweepPlan
  import opened Scope
  import opened SweepState
  import opened SweepApply
  import opened SweepFrame
  import opened PlanFacts
  import opened StateReload
  import opened DbLoad
  import opened Gate
  import opened Replan
  import opened SecondSweep
  import opened SweepRun
  import opened RepeatedSweep
  import opened SweepMeaning

  // ---- Sections ----

  /** Main result: after a succeeded sweep every listed section holds its row, is not removed and was
      seen at the fetch; every followed section of the term that is not listed was removed at the
      fetch; all others are as they were; and new sections are rows of the response, in full. */
  lemma SweepShowsResponse(env: RankingEnv, termId: nat, code: nat, world: World, input: SweepInput)
    requires Sound(world.db, termId, code) && InputOk(input) && Decide(world, termId, input).Succeeded?
    ensures var next := After(env, termId, code, world, input).db;
      ShowsResponse(next.courses, world.db.sections, next.sections, InScopeRows(input.response.value), termId,
        input.fetchedAt)
  {
    hide After, Decide, Swept, ShowsResponse, DiffState, AddedTables, WrittenTables, KeysStand, InScopeRows, Sound;
    SoundIsReadable(world.db, termId, code);
    FirstPlan(world, termId, input);
    FirstOfPair(env, termId, code, world, input);
    NextReads(env, termId, code, world, input);
    var rows := InScopeRows(input.response.value);
    SweptShown(rows, DiffState(world, termId, input), AddedTables(world, termId, input), termId, input.fetchedAt,
               WrittenTables(world, termId, input),
               DiffState(world, termId, input).(view := ViewOf(WrittenTables(world, termId, input), termId)));
    KeysOfDiff(world, termId, code, input);
    TablesOfDiff(world, termId, input);
  }

  lemma SweptShown(rows: seq<Row>, st: DbState, db: Db, termId: nat, at: int, w: Db, st2: DbState)
    requires Swept(rows, st, db, termId, at, w, st2)
    ensures KeysStand(st.courseIds, db.courses, rows) ==>
      ShowsResponse(db.courses, db.sections, w.sections, rows, termId, at)
  {
    hide ShowsResponse, KeysStand, PlanOf, ViewOf, Full, DistinctCrns, WrittenSections;
    if KeysStand(st.courseIds, db.courses, rows) {
      WrittenShowsResponse(rows, st, db, termId, at);
    }
  }

  lemma TablesOfDiff(world: World, termId: nat, input: SweepInput)
    requires world.db.UniqueCrns() && input.response.Some?
    ensures var db, w := AddedTables(world, termId, input), WrittenTables(world, termId, input);
      db.sections == world.db.sections && db.instructors == world.db.instructors && db.snapshots == world.db.snapshots
      && w.courses == db.courses
  {
    hide AddedBy, PlanOf, DiffState, InScopeRows, WrittenSections, WrittenInstructors, WrittenSnapshots;
  }

  lemma KeysOfDiff(world: World, termId: nat, code: nat, input: SweepInput)
    requires Sound(world.db, termId, code) && InputOk(input) && Decide(world, termId, input).Succeeded?
    ensures input.response.Some?
    ensures KeysStand(DiffState(world, termId, input).courseIds, AddedTables(world, termId, input).courses,
                      InScopeRows(input.response.value))
  {
    hide ViewOf, Full, ChosenMap, ActiveInScope, ActiveSubjects, NormalizeKey, DistinctCrns, PlanOf, NewCourseKeys,
      InScopeRows, Passes, FullState, IsChosen;
    var rows := InScopeRows(input.response.value);
    InScopeAmong(input.response.value);
    AddedState(world, termId, code, rows, input.catalog);
    AddedIdsAreRead(world, termId, rows, AddedBy(world, termId, rows, input.catalog));
    hide AddedBy;
    ChosenStand(AddedTables(world, termId, input).courses, rows);
  }

  lemma ChosenStand(courses: map<nat, Course>, rows: seq<Row>)
    ensures KeysStand(ChosenMap(courses, SubjectsOf(rows)), courses, rows)
  {
    hide ChosenMap, Preferred;
    var ids := ChosenMap(courses, SubjectsOf(rows));
    forall k | k in ids ensures ids[k] in courses && courses[ids[k]].Key() == k {
      assert IsChosen(courses, k, ids[k]);
    }
    forall r | r in rows && (exists c :: c in courses && courses[c].Key() == r.Key()) ensures r.Key() in ids {
      assert r.subject in SubjectsOf(rows);
    }
  }

  // ---- Histories ----

  /** An instructor state that stands for this name: the same up to case and spacing, or both blank. */
  predicate NameShown(s: InstructorState, name: string) {
    if Clean(name) == "" then s.status == BlankLatest && s.name == None
    else s.name.Some? && Fold(Clean(s.name.value)) == Fold(Clean(name))
  }

  lemma StateShape(obs: seq<InstructorRow>)
    ensures var s := StateFrom(obs);
      && (s.status == BlankLatest ==> s.name == None)
      && (s.status == Resolved ==> s.name.Some? && s.latestNames == [s.name.value] && Clean(s.name.value) != "")
      && (s.status == AmbiguousLatest ==> s.name == None && |s.latestNames| > 1)
      && (s.status == NoObservations ==> s.name == None)
  {
    if obs != [] {
      UniqueNamesClean(NamesAt(obs, LatestTime(obs)));
      hide NamesAt, LatestTime, UniqueCleanNames, Clean;
      var unique := UniqueCleanNames(NamesAt(obs, LatestTime(obs)));
      assert unique != [] ==> unique[0] in unique;
    }
  }

  /** The diff asks for an observation exactly when the state does not show the name. */
  lemma ChangedIsNotShown(obs: seq<InstructorRow>, name: string)
    ensures InstructorChanged(Some(StateFrom(obs)), name) <==> !NameShown(StateFrom(obs), name)
  {
    StateShape(obs);
    FoldEmpty(Clean(name));
    hide StateFrom;
    var s := StateFrom(obs);
    if s.name.Some? {
      FoldEmpty(Clean(s.name.value));
      hide Clean, Fold;
      assert Keys([s.name.value]) == [NameKey(s.name.value)];
      assert Keys([s.name.value])[0] == NameKey(s.name.value);
    }
    assert |Keys(s.latestNames)| == |s.latestNames|;
  }

  /** Seats of the four columns of a row. */
  predicate SeatsShown(s: Option<SnapshotRow>, values: Values) {
    && s.Some? && s.value.seats.capacity == Get(values, Capacity) && s.value.seats.enrollment == Get(values, Enrollment)
    && s.value.seats.remaining == Get(values, SeatsRemaining) && s.value.seats.wait == Get(values, WaitSeatsAvailable)
  }

  /** Which histories a sweep asks to grow: exactly those of the listed sections that do not show the
      row's name or seats. */
  lemma HistoriesGrowOnChange(rows: seq<Row>, st: DbState, db: Db, termId: nat, r: Row, id: nat)
    requires db.SectionsOk() && LoadedFrom(st, db, termId) && DistinctCrns(rows)
    requires r in rows && id in db.sections && db.sections[id].termId == termId && db.sections[id].crn == r.crn
    ensures id in AppendIds(PlanOf(rows, st).instructorAppends) <==>
      !NameShown(CurrentState(db.instructors, id), r.instructorRaw)
    ensures id in AppendIds(PlanOf(rows, st).snapshotAppends) <==>
      !SeatsShown(LatestSnapshot(db.snapshots, id), r.values)
  {
    hide ViewOf, Full, FieldUpdates, RestoreIds, Removals, Inserts, InstructorAppends, SnapshotAppends, Unknown, Crns,
      DistinctCrns, InstructorChanged, NameShown, StateFrom, ObservationsOf, LatestSnapshot, ExistingOf, ViewOk;
    TermMember(db.sections, termId, id);
    ViewHas(db, termId, id);
    ViewIsOk(db, termId);
    ViewFields(db.courses, id, db.sections[id]);
    ChangedIsNotShown(ObservationsOf(db.instructors, id), r.instructorRaw);
    assert Known(r, st) && ExistingId(r, st) == id;
    if Appends(r, st) {
      var k := AppendIndex(rows, st, r);
    } else {
      NotAppended(rows, st, r);
    }
    if Snapshots(r, st) {
      var k := SnapshotIndex(rows, st, r);
    } else {
      NotSnapshotted(rows, st, r);
    }
  }

  /** Main result: after a succeeded sweep at a new time, every section that a row lists shows the row's
      instructor and seats. */
  lemma SweepShowsHistories(env: RankingEnv, termId: nat, code: nat, world: World, input: SweepInput, id: nat, r: Row)
    requires Sound(world.db, termId, code) && InputOk(input) && Decide(world, termId, input).Succeeded?
    requires LaterThanStored(world.db, input.fetchedAt)
    requires r in InScopeRows(input.response.value)
    requires var next := After(env, termId, code, world, input).db;
      id in next.sections && next.sections[id].termId == termId && next.sections[id].crn == r.crn
    ensures var next := After(env, termId, code, world, input).db;
      NameShown(CurrentState(next.instructors, id), r.instructorRaw) &&
        SeatsShown(LatestSnapshot(next.snapshots, id), r.values)
  {
    hide After, Decide, Swept, DiffState, AddedTables, WrittenTables, InScopeRows, Sound, NameShown, CurrentState,
      LatestSnapshot, ViewOf, PlanOf, Crns;
    SoundIsReadable(world.db, termId, code);
    FirstPlan(world, termId, input);
    FirstOfPair(env, termId, code, world, input);
    NextReads(env, termId, code, world, input);
    LaterThanStoredStays(world, termId, input);
    SweptShowsHistories(
      InScopeRows(input.response.value), DiffState(world, termId, input), AddedTables(world, termId, input), termId,
      input.fetchedAt, WrittenTables(world, termId, input),
      DiffState(world, termId, input).(view := ViewOf(WrittenTables(world, termId, input), termId)), id, r);
  }

  lemma SweptShowsHistories(
    rows: seq<Row>, st: DbState, db: Db, termId: nat, at: int, w: Db, st2: DbState, id: nat, r: Row)
    requires Swept(rows, st, db, termId, at, w, st2) && LaterThanStored(db, at)
    requires r in rows && id in w.sections && w.sections[id].termId == termId && w.sections[id].crn == r.crn
    ensures NameShown(CurrentState(w.instructors, id), r.instructorRaw)
    ensures SeatsShown(LatestSnapshot(w.snapshots, id), r.values)
  {
    hide ViewOf, Full, FieldUpdates, RestoreIds, Removals, Inserts, InstructorAppends, SnapshotAppends, Unknown, Crns,
      DistinctCrns, InstructorChanged, NameShown, StateFrom, ObservationsOf, LatestSnapshot, ExistingOf, Written;
    LaterSweepConverges(rows, st, db, termId, at, w, st2);
    NothingAppended(rows, st2);
    NothingSnapshotted(rows, st2);
    TermMember(w.sections, termId, id);
    ViewHas(w, termId, id);
    ViewFields(w.courses, id, w.sections[id]);
    assert Known(r, st2) && ExistingId(r, st2) == id;
    assert !Appends(r, st2) && !Snapshots(r, st2);
    ChangedIsNotShown(ObservationsOf(w.instructors, id), r.instructorRaw);
  }

  /** A row of a history table that records what a listed row shows now. */
  ghost predicate Observes(sections: map<nat, Section>, sectionId: nat, observedAt: int, termId: nat, r: Row, at: int) {
    observedAt == at && sectionId in sections && sections[sectionId].termId == termId &&
      sections[sectionId].crn == r.crn
  }

  ghost predicate NewObservationsShow(db: Db, w: Db, rows: seq<Row>, termId: nat, at: int) {
    && db.instructors <= w.instructors
    && (forall o | o in w.instructors[|db.instructors|..] ::
          exists r :: r in rows && Observes(w.sections, o.sectionId, o.observedAt, termId, r, at)
            && o.name == r.instructorRaw && o.source == "usf_staff_schedule")
  }

  ghost predicate NewSnapshotsShow(db: Db, w: Db, rows: seq<Row>, termId: nat, at: int) {
    && db.snapshots <= w.snapshots
    && (forall s | s in w.snapshots[|db.snapshots|..] ::
          exists r :: r in rows && Observes(w.sections, s.sectionId, s.observedAt, termId, r, at)
            && SeatsShown(Some(s), r.values))
  }

  lemma KnownKeepsCrn(rows: seq<Row>, st: DbState, db: Db, termId: nat, at: int, r: Row)
    requires db.SectionsOk() && LoadedFrom(st, db, termId) && Known(r, st)
    ensures var w := WrittenSections(db, termId, PlanOf(rows, st), at);
      Observes(w, ExistingId(r, st), at, termId, r, at)
  {
    hide ViewOf, Full, PlanOf, WrittenSections;
    KnownRow(r, st, db, termId);
    TermMember(db.sections, termId, ExistingId(r, st));
    OldSection(db, termId, PlanOf(rows, st), at, ExistingId(r, st));
    IdentityKept(db.sections[ExistingId(r, st)], ExistingId(r, st), termId, PlanOf(rows, st), at);
  }

  lemma InsertKeepsCrn(db: Db, termId: nat, plan: Plan, at: int, k: nat)
    requires db.SectionsOk() && k < |plan.inserts|
    ensures Observes(WrittenSections(db, termId, plan, at), db.nextSection + k, at, termId, plan.inserts[k].row, at)
  {
    hide Full, WrittenSections, NewIds;
    IdIsNew(db, plan, k);
    NewIdWritten(db, termId, plan, at, db.nextSection + k);
    NewCrn(db, termId, plan, at, db.nextSection + k);
  }

  /** What was appended for the k-th insert or append of a plan. */
  lemma ObservationShows(rows: seq<Row>, st: DbState, db: Db, termId: nat, at: int, k: nat)
    requires db.SectionsOk() && LoadedFrom(st, db, termId) && DistinctCrns(rows)
    requires k < |PlanOf(rows, st).inserts| + |PlanOf(rows, st).instructorAppends|
    ensures var plan := PlanOf(rows, st);
      var o := (NewObservations(db, plan.inserts, at)
        + AppendedObservations(db.nextInstructor + |plan.inserts|, plan.instructorAppends, at))[k];
      exists r ::
        r in rows && Observes(WrittenSections(db, termId, plan, at), o.sectionId, o.observedAt, termId, r, at)
        && o.name == r.instructorRaw && o.source == "usf_staff_schedule"
  {
    hide ViewOf, Full, FieldUpdates, RestoreIds, Removals, Inserts, InstructorAppends, SnapshotAppends, Unknown, Crns,
      DistinctCrns, InstructorChanged, Observes, WrittenSections, ViewOk;
    var plan := PlanOf(rows, st);
    if k < |plan.inserts| {
      InsertsSpec(rows, st);
      InsertKeepsCrn(db, termId, plan, at, k);
      assert plan.inserts[k] in plan.inserts;
    } else {
      ViewIsOk(db, termId);
      AppendsSpec(rows, st);
      var a := plan.instructorAppends[k - |plan.inserts|];
      assert a in plan.instructorAppends;
      var r :| r in rows && Appends(r, st) && a == (ExistingId(r, st), r.instructorRaw);
      KnownKeepsCrn(rows, st, db, termId, at, r);
    }
  }

  lemma SnapshotShows(rows: seq<Row>, st: DbState, db: Db, termId: nat, at: int, k: nat)
    requires db.SectionsOk() && LoadedFrom(st, db, termId) && DistinctCrns(rows)
    requires k < |PlanOf(rows, st).inserts| + |PlanOf(rows, st).snapshotAppends|
    ensures var plan := PlanOf(rows, st);
      var s := (NewSnapshots(db, plan.inserts, at)
        + AppendedSnapshots(db.nextSnapshot + |plan.inserts|, plan.snapshotAppends, at))[k];
      exists r ::
        r in rows && Observes(WrittenSections(db, termId, plan, at), s.sectionId, s.observedAt, termId, r, at)
        && SeatsShown(Some(s), r.values)
  {
    hide ViewOf, Full, FieldUpdates, RestoreIds, Removals, Inserts, InstructorAppends, SnapshotAppends, Unknown, Crns,
      DistinctCrns, Observes, WrittenSections, ViewOk;
    var plan := PlanOf(rows, st);
    if k < |plan.inserts| {
      InsertsSpec(rows, st);
      InsertKeepsCrn(db, termId, plan, at, k);
      assert plan.inserts[k] in plan.inserts;
    } else {
      ViewIsOk(db, termId);
      SnapshotsSpec(rows, st);
      var a := plan.snapshotAppends[k - |plan.inserts|];
      assert a in plan.snapshotAppends;
      var r :| r in rows && Snapshots(r, st) && a == (ExistingId(r, st), SeatsOf(r.values));
      KnownKeepsCrn(rows, st, db, termId, at, r);
    }
  }

  lemma WrittenHistoriesShow(rows: seq<Row>, st: DbState, db: Db, termId: nat, at: int)
    requires db.SectionsOk() && LoadedFrom(st, db, termId) && DistinctCrns(rows)
    ensures NewObservationsShow(db, Written(db, termId, PlanOf(rows, st), at), rows, termId, at)
    ensures NewSnapshotsShow(db, Written(db, termId, PlanOf(rows, st), at), rows, termId, at)
  {
    hide ViewOf, Full, PlanOf, DistinctCrns, Observes, SeatsShown, WrittenSections, NewObservations,
      AppendedObservations,
      NewSnapshots, AppendedSnapshots, LoadedFrom;
    var plan := PlanOf(rows, st);
    var w := Written(db, termId, plan, at);
    Lengths(db, plan, at);
    var observations := NewObservations(db, plan.inserts, at)
      + AppendedObservations(db.nextInstructor + |plan.inserts|, plan.instructorAppends, at);
    var snapshots := NewSnapshots(db, plan.inserts, at)
      + AppendedSnapshots(db.nextSnapshot + |plan.inserts|, plan.snapshotAppends, at);
    assert w.instructors[|db.instructors|..] == observations && w.snapshots[|db.snapshots|..] == snapshots;
    forall o | o in observations
      ensures exists r ::
        r in rows && Observes(w.sections, o.sectionId, o.observedAt, termId, r, at)
        && o.name == r.instructorRaw && o.source == "usf_staff_schedule"
    {
      var k :| 0 <= k < |observations| && observations[k] == o;
      ObservationShows(rows, st, db, termId, at, k);
    }
    forall s | s in snapshots
      ensures exists r ::
        r in rows && Observes(w.sections, s.sectionId, s.observedAt, termId, r, at) && SeatsShown(Some(s), r.values)
    {
      var k :| 0 <= k < |snapshots| && snapshots[k] == s;
      SnapshotShows(rows, st, db, termId, at, k);
    }
  }

  lemma Lengths(db: Db, plan: Plan, at: int)
    ensures |NewObservations(db, plan.inserts, at)| == |plan.inserts| == |NewSnapshots(db, plan.inserts, at)|
    ensures |AppendedObservations(db.nextInstructor + |plan.inserts|, plan.instructorAppends, at)| ==
      |plan.instructorAppends|
    ensures |AppendedSnapshots(db.nextSnapshot + |plan.inserts|, plan.snapshotAppends, at)| == |plan.snapshotAppends|
  {
  }

  /** A succeeded sweep only appends to the histories, and what it appends records a listed row's name
      as read, or its four seat columns, at the fetch. */
  lemma SweepAppendsWhatItSaw(env: RankingEnv, termId: nat, code: nat, world: World, input: SweepInput)
    requires Sound(world.db, termId, code) && InputOk(input) && Decide(world, termId, input).Succeeded?
    ensures var next, rows := After(env, termId, code, world, input).db, InScopeRows(input.response.value);
      NewObservationsShow(world.db, next, rows, termId, input.fetchedAt)
      && NewSnapshotsShow(world.db, next, rows, termId, input.fetchedAt)
  {
    hide After, Decide, Swept, DiffState, AddedTables, WrittenTables, InScopeRows, Sound, SeatsShown;
    SoundIsReadable(world.db, termId, code);
    FirstPlan(world, termId, input);
    FirstOfPair(env, termId, code, world, input);
    NextReads(env, termId, code, world, input);
    TablesOfDiff(world, termId, input);
    SweptAppends(
      InScopeRows(input.response.value), DiffState(world, termId, input), AddedTables(world, termId, input), termId,
      input.fetchedAt, WrittenTables(world, termId, input),
      DiffState(world, termId, input).(view := ViewOf(WrittenTables(world, termId, input), termId)));
  }

  lemma SweptAppends(rows: seq<Row>, st: DbState, db: Db, termId: nat, at: int, w: Db, st2: DbState)
    requires Swept(rows, st, db, termId, at, w, st2)
    ensures NewObservationsShow(db, w, rows, termId, at) && NewSnapshotsShow(db, w, rows, termId, at)
  {
    hide NewObservationsShow, NewSnapshotsShow, PlanOf, ViewOf, Full, DistinctCrns, Written;
    WrittenHistoriesShow(rows, st, db, termId, at);
  }

  // ---- Verified means seen ----

  lemma ListedIsSeenNow(env: RankingEnv, termId: nat, code: nat, world: World, input: SweepInput, id: nat, r: Row)
    requires Sound(world.db, termId, code) && InputOk(input) && Decide(world, termId, input).Succeeded?
    requires r in InScopeRows(input.response.value)
    requires var next := After(env, termId, code, world, input).db;
      id in next.sections && next.sections[id].termId == termId && next.sections[id].crn == r.crn
    ensures After(env, termId, code, world, input).db.sections[id].lastSeenAt == input.fetchedAt
  {
    hide After, Decide, InScopeRows, Sound;
    SoundIsReadable(world.db, termId, code);
    FirstPlan(world, termId, input);
    SweepShowsResponse(env, termId, code, world, input);
    var next := After(env, termId, code, world, input).db;
    SeenNow(next.courses, world.db.sections, next.sections, InScopeRows(input.response.value), termId, input.fetchedAt,
      id, r);
  }

  /** A fetch during a sweep, then a glance at the seats before the next planned one. */
  ghost predicate GlanceBeforeNext(c: Cadence, fetchedAt: real, prev: real, ended: real, jitter: real, t: real) {
    && c.Valid() && JitterOk(jitter) && prev <= fetchedAt <= ended <= prev + IN_WINDOW_INTERVAL
    && fetchedAt <= t <= c.NextStart(prev, ended, jitter, 0)
  }

  lemma SeatsStayFresh(
    c: Cadence, snapshot: Snapshot, seen: real, prev: real, ended: real, jitter: real, t: real, settings: Settings)
    requires GlanceBeforeNext(c, seen, prev, ended, jitter, t) && snapshot.observedAt <= seen
    requires !NoSeats(snapshot.seats)
    requires settings.cadence == Some(c) && (settings.freshSeconds.None? || settings.staleSeconds.None?)
    ensures SnapshotFreshness(Some(snapshot), t, Some(seen), settings) ==
      Ok(SeatObservation(Some(seen), Fresh, Some(t - seen)))
  {
    hide Cadence.NextStart, Cadence.Valid, SnapshotFreshness;
    VerifiedSeatsStayFresh(c, snapshot, prev, seen, ended, jitter, t, settings);
  }

  /** The seats of every section that a sweep listed are fresh up to the next planned sweep, judged
      from the instant the sweep wrote into the section. */
  lemma ListedSeatsStayFresh(
    env: RankingEnv, termId: nat, code: nat, world: World, input: SweepInput, id: nat, r: Row,
    c: Cadence, snapshot: Snapshot, prev: real, ended: real, jitter: real, t: real, settings: Settings)
    requires Sound(world.db, termId, code) && InputOk(input) && Decide(world, termId, input).Succeeded?
    requires r in InScopeRows(input.response.value)
    requires var next := After(env, termId, code, world, input).db;
      id in next.sections && next.sections[id].termId == termId && next.sections[id].crn == r.crn
    requires GlanceBeforeNext(c, input.fetchedAt as real, prev, ended, jitter, t)
    requires snapshot.observedAt <= input.fetchedAt as real && !NoSeats(snapshot.seats)
    requires settings.cadence == Some(c) && (settings.freshSeconds.None? || settings.staleSeconds.None?)
    ensures var seen := After(env, termId, code, world, input).db.sections[id].lastSeenAt as real;
      SnapshotFreshness(Some(snapshot), t, Some(seen), settings) ==
        Ok(SeatObservation(Some(seen), Fresh, Some(t - seen)))
  {
    hide *;
    ListedIsSeenNow(env, termId, code, world, input, id, r);
    SeatsStayFresh(c, snapshot, input.fetchedAt as real, prev, ended, jitter, t, settings);
  }

  lemma SeenNow(
    courses: map<nat, Course>, before: map<nat, Section>, after: map<nat, Section>, rows: seq<Row>, termId: nat,
    at: int,
    id: nat, r: Row)
    requires ShowsResponse(courses, before, after, rows, termId, at)
    requires r in rows && id in after && after[id].termId == termId && after[id].crn == r.crn
    ensures after[id].lastSeenAt == at
  {
    hide Followed, Lists;
    if id in before {
      assert KeptAsShown(courses, before[id], after[id], rows, termId, at);
    }
  }
}
