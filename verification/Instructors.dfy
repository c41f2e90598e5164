/** The current instructor of a section, read from its append-only observations. */
module Instructors {
  import opened Text

  datatype InstructorStatus = NoObservations | BlankLatest | Resolved | AmbiguousLatest

  datatype InstructorState = InstructorState(
    name: Option<string>, status: InstructorStatus,
    latestObservedAt: Option<int>, latestNames: seq<string>)

  /** A row of `section_instructors`; the table is kept in id order. */
  datatype InstructorRow = InstructorRow(id: nat, sectionId: nat, name: string, source: string, observedAt: int)

  const NO_OBSERVATIONS := InstructorState(None, NoObservations, None, [])

  /** Instructors that can be scored: a name that is neither blank nor "Staff". */
  predicate IsUsableInstructor(name: string) {
    Strip(name) != "" && Fold(Strip(name)) != "staff"
  }

  predicate IsUsableState(state: InstructorState) {
    state.name.Some? && IsUsableInstructor(state.name.value)
  }

  /** The comparison key of a name. Never stored. */
  function NameKey(name: string): string {
    Fold(Clean(name))
  }

  function FoldKeys(names: seq<string>): set<string> {
    set n | n in names :: Fold(n)
  }

  /** Distinct non-blank names up to case, the first spelling kept, in order of appearance. */
  function UniqueCleanNames(names: seq<string>): seq<string> {
    if names == [] then []
    else
      var unique := UniqueCleanNames(names[..|names| - 1]);
      var cleaned := Clean(Strip(names[|names| - 1]));
      if cleaned == "" || Fold(cleaned) in FoldKeys(unique) then unique else unique + [cleaned]
  }

  method CollectUniqueCleanNames(names: seq<string>) returns (unique: seq<string>)
    ensures unique == UniqueCleanNames(names)
  {
    unique := [];
    var keys: set<string> := {};
    for k := 0 to |names|
      invariant unique == UniqueCleanNames(names[..k])
      invariant keys == FoldKeys(unique)
    {
      assert names[..k + 1][..k] == names[..k];
      var cleaned := Clean(Strip(names[k]));
      if cleaned != "" && Fold(cleaned) !in keys {
        FoldKeysAppend(unique, cleaned);
        keys := keys + {Fold(cleaned)};
        unique := unique + [cleaned];
      }
    }
    assert names[..|names|] == names;
  }

  lemma FoldKeysAppend(names: seq<string>, name: string)
    ensures FoldKeys(names + [name]) == FoldKeys(names) + {Fold(name)}
  {
    assert forall n :: n in names + [name] <==> n in names || n == name;
  }

  function StateFromLatest(at: int, names: seq<string>): InstructorState {
    StateOfNames(at, UniqueCleanNames(names))
  }

  function StateOfNames(at: int, unique: seq<string>): InstructorState {
    if unique == [] then InstructorState(None, BlankLatest, Some(at), [])
    else if |unique| > 1 then InstructorState(None, AmbiguousLatest, Some(at), unique)
    else InstructorState(Some(unique[0]), Resolved, Some(at), unique)
  }

  /** The observations of one section, oldest id first. */
  function ObservationsOf(table: seq<InstructorRow>, sectionId: nat): seq<InstructorRow> {
    if table == [] then []
    else
      var before := ObservationsOf(table[..|table| - 1], sectionId);
      var last := table[|table| - 1];
      if last.sectionId == sectionId then before + [last] else before
  }

  function LatestTime(obs: seq<InstructorRow>): (at: int)
    requires obs != []
    ensures forall o | o in obs :: o.observedAt <= at
    ensures exists o | o in obs :: o.observedAt == at
  {
    var last := obs[|obs| - 1];
    if |obs| == 1 then last.observedAt
    else
      var before := LatestTime(obs[..|obs| - 1]);
      assert obs == obs[..|obs| - 1] + [last];
      if last.observedAt > before then last.observedAt else before
  }

  function NamesAt(obs: seq<InstructorRow>, at: int): seq<string> {
    if obs == [] then []
    else
      var before := NamesAt(obs[..|obs| - 1], at);
      var last := obs[|obs| - 1];
      if last.observedAt == at then before + [last.name] else before
  }

  function StateFrom(obs: seq<InstructorRow>): InstructorState {
    if obs == [] then NO_OBSERVATIONS
    else StateFromLatest(LatestTime(obs), NamesAt(obs, LatestTime(obs)))
  }

  /** What `get_current_instructor_state` resolves for one section. */
  function CurrentState(table: seq<InstructorRow>, sectionId: nat): InstructorState {
    StateFrom(ObservationsOf(table, sectionId))
  }

  function Grouped(grouped: map<nat, seq<InstructorRow>>, id: nat): seq<InstructorRow> {
    if id in grouped then grouped[id] else []
  }

  /** Rows grouped by section in one pass. */
  method GroupRows(table: seq<InstructorRow>, sectionIds: seq<nat>) returns (grouped: map<nat, seq<InstructorRow>>)
    ensures forall id | id in sectionIds :: Grouped(grouped, id) == ObservationsOf(table, id)
  {
    grouped := map[];
    for k := 0 to |table|
      invariant forall id | id in sectionIds :: Grouped(grouped, id) == ObservationsOf(table[..k], id)
    {
      var row := table[k];
      assert table[..k + 1][..k] == table[..k];
      if row.sectionId in sectionIds {
        grouped := grouped[row.sectionId := Grouped(grouped, row.sectionId) + [row]];
      }
    }
    assert table[..|table|] == table;
  }

  /** `_state_from_latest` */
  method ResolveState(obs: seq<InstructorRow>) returns (state: InstructorState)
    ensures state == StateFrom(obs)
  {
    if obs == [] {
      return NO_OBSERVATIONS;
    }
    var at := LatestTime(obs);
    var unique := CollectUniqueCleanNames(NamesAt(obs, at));
    state := StateOfNames(at, unique);
  }

  /** The one-read version for many sections. */
  method GetCurrentInstructorStates(table: seq<InstructorRow>, sectionIds: seq<nat>)
    returns (states: map<nat, InstructorState>)
    ensures states == map id | id in sectionIds :: CurrentState(table, id)
  {
    var grouped := GroupRows(table, sectionIds);
    hide ObservationsOf, StateFrom;
    states := map[];
    for k := 0 to |sectionIds|
      invariant forall id :: id in states <==> id in sectionIds[..k]
      invariant forall id | id in states :: states[id] == CurrentState(table, id)
    {
      var id := sectionIds[k];
      var state := ResolveState(Grouped(grouped, id));
      states := states[id := state];
      assert forall x :: x in sectionIds[..k + 1] <==> x in sectionIds[..k] || x == id;
    }
  }

  // ---- What appending an observation does ----

  lemma ObservationsOfAppend(table: seq<InstructorRow>, row: InstructorRow, sectionId: nat)
    ensures ObservationsOf(table + [row], sectionId) ==
            ObservationsOf(table, sectionId) + (if row.sectionId == sectionId then [row] else [])
  {
    assert (table + [row])[..|table|] == table;
  }

  /** A later observation alone decides the state. */
  lemma StateAfterLater(obs: seq<InstructorRow>, row: InstructorRow)
    requires obs == [] || row.observedAt > LatestTime(obs)
    ensures StateFrom(obs + [row]) == StateFromLatest(row.observedAt, [row.name])
  {
    assert (obs + [row])[..|obs|] == obs;
    NamesAtAfterAll(obs, row.observedAt);
  }

  lemma {:induction false} NamesAtAfterAll(obs: seq<InstructorRow>, at: int)
    requires forall o | o in obs :: o.observedAt < at
    ensures NamesAt(obs, at) == []
  {
    if obs != [] {
      assert obs[|obs| - 1] in obs;
      NamesAtAfterAll(obs[..|obs| - 1], at);
    }
  }

  lemma StateAfterTie(obs: seq<InstructorRow>, row: InstructorRow)
    requires obs != [] && row.observedAt == LatestTime(obs)
    ensures StateFrom(obs + [row]) ==
            StateFromLatest(row.observedAt, NamesAt(obs, row.observedAt) + [row.name])
  {
    assert (obs + [row])[..|obs|] == obs;
  }

  lemma StateAfterEarlier(obs: seq<InstructorRow>, row: InstructorRow)
    requires obs != [] && row.observedAt < LatestTime(obs)
    ensures StateFrom(obs + [row]) == StateFrom(obs)
  {
    assert (obs + [row])[..|obs|] == obs;
  }

  lemma UniqueAppend(names: seq<string>, name: string)
    ensures UniqueCleanNames(names + [name]) ==
            if Clean(name) == "" || NameKey(name) in FoldKeys(UniqueCleanNames(names))
            then UniqueCleanNames(names) else UniqueCleanNames(names) + [Clean(name)]
  {
    StripKeepsWords(name);
    assert (names + [name])[..|names|] == names;
  }

  /** Every kept name is clean and not blank. */
  lemma {:induction false} UniqueNamesClean(names: seq<string>)
    ensures forall n | n in UniqueCleanNames(names) :: Clean(n) == n && n != ""
  {
    if names != [] {
      var last := Strip(names[|names| - 1]);
      UniqueNamesClean(names[..|names| - 1]);
      CleanIdempotent(last);
    }
  }

  lemma FoldEmpty(s: string)
    ensures Fold(s) == "" <==> s == ""
  {
    assert |Fold(s)| == |s|;
  }

  // ---- What a state means ----

  /** Names kept apart: clean, not blank, each from the list, every name of the list among them, all
      different up to case. */
  ghost predicate KeptApart(unique: seq<string>, names: seq<string>) {
    && (forall u | u in unique :: u != "" && exists n :: n in names && Clean(n) == u)
    && (forall n | n in names && Clean(n) != "" :: Fold(Clean(n)) in FoldKeys(unique))
    && (forall i, j | 0 <= i < j < |unique| :: Fold(unique[i]) != Fold(unique[j]))
  }

  lemma {:induction false} UniqueNamesExactly(names: seq<string>)
    ensures KeptApart(UniqueCleanNames(names), names)
  {
    hide KeptApart;
    if names == [] {
      NothingKept();
    } else {
      var n := |names| - 1;
      UniqueNamesExactly(names[..n]);
      UniqueAppend(names[..n], names[n]);
      assert names == names[..n] + [names[n]];
      hide UniqueCleanNames;
      OneMoreName(UniqueCleanNames(names[..n]), names[..n], names[n]);
    }
  }

  lemma NothingKept()
    ensures KeptApart(UniqueCleanNames([]), [])
  {
  }

  lemma OneMoreName(unique: seq<string>, names: seq<string>, name: string)
    requires KeptApart(unique, names)
    ensures KeptApart(
      if Clean(name) == "" || NameKey(name) in FoldKeys(unique) then unique else unique + [Clean(name)], names + [name])
  {
    hide Clean, Fold;
    assert forall n :: n in names + [name] <==> n in names || n == name;
    if Clean(name) != "" && NameKey(name) !in FoldKeys(unique) {
      var more := unique + [Clean(name)];
      FoldKeysAppend(unique, Clean(name));
      forall i | 0 <= i < |unique| ensures Fold(unique[i]) in FoldKeys(unique) {
        assert unique[i] in unique;
      }
      forall u | u in more ensures u != "" && exists n :: n in names + [name] && Clean(n) == u {
        assert u in unique || u == Clean(name);
      }
    }
  }

  /** What the latest names of a section add up to. */
  ghost predicate StandsFor(s: InstructorState, obs: seq<InstructorRow>, at: int) {
    && s.latestObservedAt == Some(at) && s.status != NoObservations
    && (exists o :: o in obs && o.observedAt == at) && (forall o | o in obs :: o.observedAt <= at)
    && (s.status == BlankLatest <==> forall o | o in obs && o.observedAt == at :: Clean(o.name) == "")
    && (s.status == Resolved <==> OneName(obs, at))
    && (s.name.Some? <==> s.status == Resolved)
    && (s.name.Some? ==> exists o ::
      o in obs && o.observedAt == at && Clean(o.name) == s.name.value && s.name.value != "")
  }

  /** Some name is given then, and all that are agree up to case and spacing. */
  ghost predicate OneName(obs: seq<InstructorRow>, at: int) {
    && (exists o :: o in obs && o.observedAt == at && Clean(o.name) != "")
    && (forall o, p | o in obs && p in obs && o.observedAt == at && p.observedAt == at && Clean(o.name) != "" &&
      Clean(p.name) != "" ::
          Fold(Clean(o.name)) == Fold(Clean(p.name)))
  }

  lemma {:induction false} NamesAtExactly(obs: seq<InstructorRow>, at: int)
    ensures forall n :: n in NamesAt(obs, at) <==> exists o :: o in obs && o.observedAt == at && o.name == n
  {
    if obs != [] {
      var n := |obs| - 1;
      NamesAtExactly(obs[..n], at);
      assert obs == obs[..n] + [obs[n]];
    }
  }

  /** Nothing is kept of blanks, and one name exactly when all agree. */
  lemma KeptCounts(unique: seq<string>, names: seq<string>)
    requires KeptApart(unique, names)
    ensures unique == [] <==> forall n | n in names :: Clean(n) == ""
    ensures |unique| == 1 <==>
      && (exists n :: n in names && Clean(n) != "")
      && (forall m, n | m in names && n in names && Clean(m) != "" && Clean(n) != "" ::
           Fold(Clean(m)) == Fold(Clean(n)))
  {
    hide Clean, Fold;
    assert forall i | 0 <= i < |unique| :: unique[i] in unique;
    if |unique| > 1 {
      var m :| m in names && Clean(m) == unique[0];
      var n :| n in names && Clean(n) == unique[1];
      assert Fold(Clean(m)) != Fold(Clean(n));
    }
    if unique != [] {
      var n :| n in names && Clean(n) == unique[0];
    }
  }

  lemma NamesOfObservations(obs: seq<InstructorRow>, at: int)
    ensures (forall n | n in NamesAt(obs, at) :: Clean(n) == "") <==>
      forall o | o in obs && o.observedAt == at :: Clean(o.name) == ""
    ensures OneName(obs, at) <==>
      && (exists n :: n in NamesAt(obs, at) && Clean(n) != "")
      && (forall m, n | m in NamesAt(obs, at) && n in NamesAt(obs, at) && Clean(m) != "" && Clean(n) != "" ::
            Fold(Clean(m)) == Fold(Clean(n)))
  {
    hide NamesAt, Clean, Fold;
    NamesAtExactly(obs, at);
    forall o | o in obs && o.observedAt == at ensures o.name in NamesAt(obs, at) {
    }
  }

  lemma StateOfNamesMeaning(obs: seq<InstructorRow>, at: int, unique: seq<string>)
    requires (exists o :: o in obs && o.observedAt == at) && (forall o | o in obs :: o.observedAt <= at)
    requires unique == [] <==> forall o | o in obs && o.observedAt == at :: Clean(o.name) == ""
    requires |unique| == 1 <==> OneName(obs, at)
    requires unique != [] ==>
      unique[0] != "" && exists o :: o in obs && o.observedAt == at && Clean(o.name) == unique[0]
    ensures StandsFor(StateOfNames(at, unique), obs, at)
  {
    hide OneName, Clean;
  }

  /** Case and surrounding blanks never decide whether a name is usable. */
  lemma UsableUpToCase(name: string, other: string)
    requires Fold(Strip(name)) == Fold(Strip(other))
    ensures IsUsableInstructor(name) == IsUsableInstructor(other)
    ensures Strip(name) == "STAFF" || Strip(name) == "" ==> !IsUsableInstructor(name)
  {
    assert |Fold(Strip(name))| == |Strip(name)| && |Fold(Strip(other))| == |Strip(other)|;
    assert Fold("STAFF") == "staff";
  }

  /** The current state of a section, by its latest observations alone: blank, one name up to case and
      spacing, or several. */
  lemma CurrentStateMeaning(obs: seq<InstructorRow>)
    ensures StateFrom(obs).status == NoObservations <==> obs == []
    ensures obs != [] ==> exists at :: StandsFor(StateFrom(obs), obs, at)
  {
    if obs != [] {
      hide Clean, Fold, FoldKeys, StandsFor, OneName, NamesAt;
      var at := LatestTime(obs);
      var names := NamesAt(obs, at);
      var unique := UniqueCleanNames(names);
      NamesAtExactly(obs, at);
      NamesOfObservations(obs, at);
      UniqueNamesExactly(names);
      KeptCounts(unique, names);
      hide LatestTime, UniqueCleanNames;
      FirstKept(unique, names);
      StateOfNamesMeaning(obs, at, unique);
    }
  }

  lemma FirstKept(unique: seq<string>, names: seq<string>)
    requires KeptApart(unique, names)
    ensures unique != [] ==> unique[0] != "" && exists n :: n in names && Clean(n) == unique[0]
  {
    hide Clean, Fold;
    assert unique != [] ==> unique[0] in unique;
  }
}
