/** Reading the evidence index: both answers are the ones a direct pass over the joined rows gives. */
module EvidenceQueries {
  import opened Text
  import opened Ordering
  import opened Grades
  import opened Instructors
  import opened Breakdown
  import opened Evidence

  function AttributedRows(rows: seq<JoinedRow>, ids: set<nat>): seq<JoinedRow> {
    if rows == [] then []
    else
      var rest := AttributedRows(rows[..|rows| - 1], ids);
      if Attributed(rows[|rows| - 1], ids) then rest + [rows[|rows| - 1]] else rest
  }

  /** Positions of the attributed rows, in order. */
  function Positions(rows: seq<JoinedRow>, ids: set<nat>): seq<nat> {
    if rows == [] then []
    else
      var rest := Positions(rows[..|rows| - 1], ids);
      if Attributed(rows[|rows| - 1], ids) then rest + [|rows| - 1] else rest
  }

  function NatLess(): (nat, nat) -> bool {
    (x: nat, y: nat) => x < y
  }

  method SortPositions(s: set<nat>) returns (xs: seq<nat>)
    ensures Elements(xs) == s
    ensures Increasing(NatLess(), xs)
  {
    xs := [];
    var left := s;
    while left != {}
      invariant left <= s && Elements(xs) == s - left
      invariant forall x, y | x in xs && y in left :: x < y
      invariant forall i, j | 0 <= i < j < |xs| :: xs[i] < xs[j]
    {
      var least := Extreme(left, false);
      assert IsBound(left, least, false);
      left := left - {least};
      assert Elements(xs + [least]) == Elements(xs) + {least};
      assert forall i | 0 <= i < |xs| :: xs[i] in xs;
      xs := xs + [least];
    }
  }

  lemma {:induction false} PositionsSpec(rows: seq<JoinedRow>, ids: set<nat>)
    ensures forall k | k in Positions(rows, ids) :: k < |rows|
    ensures forall k: nat :: k in Positions(rows, ids) <==> k < |rows| && Attributed(rows[k], ids)
    ensures Increasing(NatLess(), Positions(rows, ids))
    ensures |AttributedRows(rows, ids)| == |Positions(rows, ids)|
    ensures forall i | 0 <= i < |Positions(rows, ids)| ::
      Positions(rows, ids)[i] < |rows| && AttributedRows(rows, ids)[i] == rows[Positions(rows, ids)[i]]
  {
    hide Attributed;
    if rows != [] {
      var n := |rows| - 1;
      PositionsSpec(rows[..n], ids);
      var before := Positions(rows[..n], ids);
      assert forall k :: k in before + [n] <==> k in before || k == n;
      assert forall i | 0 <= i < |before| :: before[i] in before;
    }
  }

  /** The rows an index lookup selects are the attributed rows, each once and in order. */
  method RowsFor(e: TermEvidence, ids: set<nat>, ghost fetched: seq<JoinedRow>, ghost table: seq<InstructorRow>)
    returns (picked: seq<EvidenceRow>)
    requires EvidenceOk(e, fetched, table)
    ensures RowsOk(picked, AttributedRows(fetched, ids), table)
    ensures forall k | 0 <= k < |picked| && picked[k].sectionId.Some? ::
      NamesIn(e.names, picked[k].sectionId.value) == NamesOf(table, picked[k].sectionId.value)
  {
    var found := LookUp(e, ids, fetched, table);
    var positions := SortPositions(found);
    PositionsSpec(fetched, ids);
    assert forall k :: k in Elements(Positions(fetched, ids)) <==> k in found;
    SortedUnique(NatLess(), positions, Positions(fetched, ids));
    assert forall i | 0 <= i < |positions| :: positions[i] in Elements(positions);
    picked := seq(|positions|, i requires 0 <= i < |positions| => e.rows[positions[i]]);
  }

  method LookUp(e: TermEvidence, ids: set<nat>, ghost fetched: seq<JoinedRow>, ghost table: seq<InstructorRow>)
    returns (found: set<nat>)
    requires EvidenceOk(e, fetched, table)
    ensures forall k: nat :: k in found <==> k < |fetched| && Attributed(fetched[k], ids)
  {
    found := set c, k | c in ids && c in e.indexes && k in e.indexes[c] :: k;
    forall k: nat ensures k in found <==> k < |fetched| && Attributed(fetched[k], ids) {
      assert k in found <==> exists c :: c in ids && PointsTo(e.indexes, c, k);
      if k < |fetched| {
        assert CoursesAt(e.rows, k) == RowCourseIds(fetched[k]);
        assert Attributed(fetched[k], ids) <==> exists c :: c in ids && c in RowCourseIds(fetched[k]) by {
          AttributedByCourse(fetched[k], ids);
        }
      }
    }
  }

  lemma AttributedByCourse(row: JoinedRow, ids: set<nat>)
    ensures Attributed(row, ids) <==> exists c :: c in ids && c in RowCourseIds(row)
  {
    if row.grade.courseId.Some? { assert row.grade.courseId.value in RowCourseIds(row); }
    if row.sectionCourseId.Some? { assert row.sectionCourseId.value in RowCourseIds(row); }
  }

  method ForCourseIds(e: TermEvidence, ids: set<nat>, ghost fetched: seq<JoinedRow>, ghost table: seq<InstructorRow>)
    returns (obs: seq<GradeObservation>)
    requires EvidenceOk(e, fetched, table)
    ensures obs == Obs(fetched, table, OfCourses(ids))
  {
    var picked := RowsFor(e, ids, fetched, table);
    obs := seq(|picked|, i requires 0 <= i < |picked| => picked[i].observation);
    AttributedCourseObs(fetched, table, ids);
    ObservationsOfRows(AttributedRows(fetched, ids), table);
  }

  method AllObservations(e: TermEvidence, ghost fetched: seq<JoinedRow>, ghost table: seq<InstructorRow>)
    returns (obs: seq<GradeObservation>)
    requires EvidenceOk(e, fetched, table)
    ensures obs == Obs(fetched, table, Everything)
  {
    obs := seq(|e.rows|, i requires 0 <= i < |e.rows| => e.rows[i].observation);
    ObservationsOfRows(fetched, table);
  }

  lemma {:induction false} AttributedCourseObs(rows: seq<JoinedRow>, table: seq<InstructorRow>, ids: set<nat>)
    ensures Obs(rows, table, OfCourses(ids)) == Obs(AttributedRows(rows, ids), table, Everything)
  {
    if rows != [] {
      var n := |rows| - 1;
      AttributedCourseObs(rows[..n], table, ids);
      var rest := AttributedRows(rows[..n], ids);
      assert (rest + [rows[n]])[..|rest|] == rest;
    }
  }

  lemma {:induction false} ObservationsOfRows(rows: seq<JoinedRow>, table: seq<InstructorRow>)
    ensures |Obs(rows, table, Everything)| == |rows|
    ensures forall i | 0 <= i < |rows| ::
      Obs(rows, table, Everything)[i] == ObservationOf(rows[i], IsMapped(rows[i], table))
  {
    if rows != [] {
      ObservationsOfRows(rows[..|rows| - 1], table);
    }
  }

  method InstructorObservations(
    e: TermEvidence, ids: set<nat>, ghost fetched: seq<JoinedRow>, ghost table: seq<InstructorRow>)
    returns (grouped: ByInstructor)
    requires EvidenceOk(e, fetched, table)
    ensures grouped == ObservationsByInstructor(fetched, table, ids)
  {
    ghost var rows := AttributedRows(fetched, ids);
    var picked := RowsFor(e, ids, fetched, table);
    grouped := map[];
    for k := 0 to |picked|
      invariant GroupedOk(grouped, rows[..k], table, ids)
    {
      var row := picked[k];
      ghost var before := grouped;
      if row.sectionId.Some? && !row.sectionIsLab && row.sectionCourseId.Some? && row.sectionCourseId.value in ids {
        grouped := AddToInstructors(grouped, NamesIn(e.names, row.sectionId.value),
                                    row.observation.(mapped := true));
      }
      GroupedNext(before, grouped, rows, k, table, ids);
    }
    assert rows[..|rows|] == rows;
    GroupedAttributed(grouped, fetched, table, ids);
    GroupedByInstructor(grouped, fetched, table, ids);
  }

  lemma GroupedNext(
    before: ByInstructor, after: ByInstructor, rows: seq<JoinedRow>, k: nat, table: seq<InstructorRow>, ids: set<nat>)
    requires k < |rows| && GroupedOk(before, rows[..k], table, ids)
    requires forall name | name in after :: after[name] != []
    requires forall name ::
      ObsIn(after, name) == ObsIn(before, name) + Contribution(rows[k], table, TaughtBy(ids, name))
    ensures GroupedOk(after, rows[..k + 1], table, ids)
  {
    assert rows[..k + 1][..k] == rows[..k];
  }

  lemma GroupedAttributed(grouped: ByInstructor, fetched: seq<JoinedRow>, table: seq<InstructorRow>, ids: set<nat>)
    requires GroupedOk(grouped, AttributedRows(fetched, ids), table, ids)
    ensures GroupedOk(grouped, fetched, table, ids)
  {
    forall name ensures ObsIn(grouped, name) == Obs(fetched, table, TaughtBy(ids, name)) {
      AttributedInstructorObs(fetched, table, ids, name);
    }
  }

  function ObsIn(grouped: ByInstructor, name: string): seq<GradeObservation> {
    if name in grouped then grouped[name] else []
  }

  ghost predicate GroupedOk(grouped: ByInstructor, rows: seq<JoinedRow>, table: seq<InstructorRow>, ids: set<nat>) {
    && (forall name | name in grouped :: grouped[name] != [])
    && (forall name :: ObsIn(grouped, name) == Obs(rows, table, TaughtBy(ids, name)))
  }

  function Extended(
    grouped: ByInstructor, name: string, names: set<string>, o: GradeObservation): seq<GradeObservation> {
    ObsIn(grouped, name) + if name in names && IsUsableInstructor(name) then [o] else []
  }

  method AddToInstructors(grouped: ByInstructor, names: set<string>, o: GradeObservation) returns (more: ByInstructor)
    requires forall name | name in grouped :: grouped[name] != []
    ensures forall name | name in more :: more[name] != []
    ensures forall name :: ObsIn(more, name) == Extended(grouped, name, names, o)
  {
    more := grouped;
    var left, done: set<string> := names, {};
    while left != {}
      invariant left !! done && left + done == names
      invariant forall name | name in more :: more[name] != []
      invariant forall name :: ObsIn(more, name) == Extended(grouped, name, done, o)
    {
      var name :| name in left;
      left, done := left - {name}, done + {name};
      ghost var before := more;
      if IsUsableInstructor(name) {
        more := more[name := ObsIn(more, name) + [o]];
      }
      forall other ensures ObsIn(more, other) == Extended(grouped, other, done, o) {
        assert ObsIn(before, other) == Extended(grouped, other, done - {name}, o);
      }
    }
    assert done == names;
  }

  lemma {:induction false} AttributedInstructorObs(
    rows: seq<JoinedRow>, table: seq<InstructorRow>, ids: set<nat>, name: string)
    ensures Obs(AttributedRows(rows, ids), table, TaughtBy(ids, name)) == Obs(rows, table, TaughtBy(ids, name))
  {
    if rows != [] {
      var n := |rows| - 1;
      AttributedInstructorObs(rows[..n], table, ids, name);
      var rest := AttributedRows(rows[..n], ids);
      assert (rest + [rows[n]])[..|rest|] == rest;
    }
  }

  lemma {:induction false} TaughtNamesRecorded(
    rows: seq<JoinedRow>, table: seq<InstructorRow>, ids: set<nat>, name: string)
    ensures Obs(rows, table, TaughtBy(ids, name)) != [] ==> name in AllNames(table)
  {
    if rows != [] {
      TaughtNamesRecorded(rows[..|rows| - 1], table, ids, name);
    }
  }

  lemma GroupedByInstructor(grouped: ByInstructor, rows: seq<JoinedRow>, table: seq<InstructorRow>, ids: set<nat>)
    requires GroupedOk(grouped, rows, table, ids)
    ensures grouped == ObservationsByInstructor(rows, table, ids)
  {
    forall name ensures name in grouped <==> name in AllNames(table) && Obs(rows, table, TaughtBy(ids, name)) != [] {
      TaughtNamesRecorded(rows, table, ids, name);
      assert ObsIn(grouped, name) == Obs(rows, table, TaughtBy(ids, name));
    }
  }
}
