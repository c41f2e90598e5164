/** What a sweep covers: undergraduate sections on the Tampa campus. */
module Scope {
  import opened Text
  import opened Schema
  import opened SweepPlan

  const SUPPORTED_CAMPUS := "Tampa"
  const UNDERGRADUATE_CEILING := 5000

  /** Whether a non-blank stored campus label denotes the campus. */
  predicate SameCampus(stored: string, expected: string) {
    Strip(stored) != "" && Fold(Strip(stored)) == Fold(Strip(expected))
  }

  /** Case and surrounding blanks never decide the campus. */
  lemma CampusUpToCase(stored: string, other: string)
    requires Fold(Strip(stored)) == Fold(Strip(other))
    ensures SameCampus(stored, SUPPORTED_CAMPUS) == SameCampus(other, SUPPORTED_CAMPUS)
    ensures Strip(stored) == "TAMPA" ==> SameCampus(stored, SUPPORTED_CAMPUS)
  {
    assert |Fold(Strip(stored))| == |Strip(stored)| && |Fold(Strip(other))| == |Strip(other)|;
    assert Fold("TAMPA") == "tampa" == Fold(Strip(SUPPORTED_CAMPUS));
  }

  predicate IsDigit(c: char) { '0' <= c <= '9' }

  predicate HasNumericPrefix(number: string) {
    |number| >= 4 && IsDigit(number[0]) && IsDigit(number[1]) && IsDigit(number[2]) && IsDigit(number[3])
  }

  function DigitValue(c: char): int { c as int - '0' as int }

  function PrefixValue(number: string): int
    requires |number| >= 4
  {
    1000 * DigitValue(number[0]) + 100 * DigitValue(number[1]) + 10 * DigitValue(number[2]) + DigitValue(number[3])
  }

  predicate IsUndergraduateNumber(number: string) {
    HasNumericPrefix(number) && PrefixValue(number) < UNDERGRADUATE_CEILING
  }

  /** Undergraduate numbers start with four digits, the first of them below five. */
  lemma UndergraduateByFirstDigit(number: string)
    ensures IsUndergraduateNumber(number) <==>
      && |number| >= 4 && '0' <= number[0] <= '4'
      && forall i | 1 <= i < 4 :: '0' <= number[i] <= '9'
  {
  }

  predicate InScopeRow(row: Row) {
    SameCampus(TextOf(Get(row.values, Campus)), SUPPORTED_CAMPUS) && IsUndergraduateNumber(row.courseNumber)
  }

  /** Why a row is dropped: the first rule it fails. */
  datatype ScopeFate = OtherCampus | Unparseable | Graduate | InScope

  function ScopeFateOf(row: Row): ScopeFate {
    if !SameCampus(TextOf(Get(row.values, Campus)), SUPPORTED_CAMPUS) then OtherCampus
    else if !HasNumericPrefix(row.courseNumber) then Unparseable
    else if !IsUndergraduateNumber(row.courseNumber) then Graduate
    else InScope
  }

  /** How many rows meet a fate. */
  function CountOf(rows: seq<Row>, fate: ScopeFate): nat {
    if rows == [] then 0
    else CountOf(rows[..|rows| - 1], fate) + if ScopeFateOf(rows[|rows| - 1]) == fate then 1 else 0
  }

  /** Every row meets one fate, and the kept ones are those in scope. */
  lemma {:induction false} FatesPartition(rows: seq<Row>)
    ensures CountOf(rows, OtherCampus) + CountOf(rows, Unparseable) + CountOf(rows, Graduate) +
      CountOf(rows, InScope) == |rows|
    ensures CountOf(rows, InScope) == |InScopeRows(rows)|
  {
    hide SameCampus, PrefixValue;
    if rows != [] {
      FatesPartition(rows[..|rows| - 1]);
    }
  }

  datatype ScopeReport = ScopeReport(
    total: nat, distinctCrns: nat, nonTampa: nat, graduate: nat, unparseable: nat, inScope: nat,
    subjects: set<string>, courseKeys: set<CourseKey>)

  datatype ScopeResult = Scoped(rows: seq<Row>, report: ScopeReport) | DuplicateCrns(crns: set<string>)

  function InScopeRows(rows: seq<Row>): seq<Row> {
    if rows == [] then []
    else
      var rest := InScopeRows(rows[..|rows| - 1]);
      if InScopeRow(rows[|rows| - 1]) then rest + [rows[|rows| - 1]] else rest
  }

  ghost predicate Repeated(rows: seq<Row>, crn: string) {
    exists i, j :: 0 <= i < j < |rows| && rows[i].crn == crn && rows[j].crn == crn
  }

  /** Keeps the rows in scope and counts why the others were dropped; a CRN on two kept rows is refused. */
  method ApplyScope(rows: seq<Row>) returns (r: ScopeResult)
    ensures r.Scoped? <==> DistinctCrns(InScopeRows(rows))
    ensures r.Scoped? ==>
      && r.rows == InScopeRows(rows)
      && r.report.total == |rows| && r.report.inScope == |r.rows|
      && r.report.nonTampa == CountOf(rows, OtherCampus) && r.report.unparseable == CountOf(rows, Unparseable)
      && r.report.graduate == CountOf(rows, Graduate)
      && r.report.nonTampa + r.report.unparseable + r.report.graduate + r.report.inScope == |rows|
      && r.report.distinctCrns == |Crns(rows)|
      && r.report.subjects == (set x | x in r.rows :: x.subject)
      && r.report.courseKeys == (set x | x in r.rows :: x.Key())
    ensures r.DuplicateCrns? ==> forall c :: c in r.crns <==> Repeated(InScopeRows(rows), c)
  {
    hide SameCampus, HasNumericPrefix, PrefixValue;
    var nonTampa, graduate, unparseable := 0, 0, 0;
    var crns: set<string>, kept: seq<Row> := {}, [];
    for k := 0 to |rows|
      invariant kept == InScopeRows(rows[..k]) && crns == Crns(rows[..k])
      invariant nonTampa == CountOf(rows[..k], OtherCampus) && unparseable == CountOf(rows[..k], Unparseable)
      invariant graduate == CountOf(rows[..k], Graduate)
    {
      var row := rows[k];
      assert rows[..k + 1][..k] == rows[..k];
      assert forall x :: x in rows[..k + 1] <==> x in rows[..k] || x == row;
      crns := crns + {row.crn};
      if !SameCampus(TextOf(Get(row.values, Campus)), SUPPORTED_CAMPUS) {
        nonTampa := nonTampa + 1;
      } else if !HasNumericPrefix(row.courseNumber) {
        unparseable := unparseable + 1;
      } else if !IsUndergraduateNumber(row.courseNumber) {
        graduate := graduate + 1;
      } else {
        kept := kept + [row];
      }
    }
    assert rows[..|rows|] == rows;
    FatesPartition(rows);
    var duplicates := FindDuplicates(kept);
    if duplicates != {} {
      var c :| c in duplicates;
      assert Repeated(kept, c);
      return DuplicateCrns(duplicates);
    }
    forall i, j | 0 <= i < j < |kept| ensures kept[i].crn != kept[j].crn {
      assert !Repeated(kept, kept[i].crn);
    }
    r := Scoped(kept, ScopeReport(|rows|, |crns|, nonTampa, graduate, unparseable, |kept|,
                                  set x | x in kept :: x.subject, set x | x in kept :: x.Key()));
  }

  /** `Counter` entries above one. */
  method FindDuplicates(rows: seq<Row>) returns (duplicates: set<string>)
    ensures forall c :: c in duplicates <==> Repeated(rows, c)
  {
    duplicates := {};
    var seen: set<string> := {};
    for k := 0 to |rows|
      invariant forall c :: c in seen <==> exists i :: 0 <= i < k && rows[i].crn == c
      invariant forall c | c in duplicates :: Repeated(rows, c)
      invariant forall i, j | 0 <= i < j < k && rows[i].crn == rows[j].crn :: rows[i].crn in duplicates
    {
      var crn := rows[k].crn;
      if crn in seen {
        duplicates := duplicates + {crn};
      }
      seen := seen + {crn};
    }
  }
}
