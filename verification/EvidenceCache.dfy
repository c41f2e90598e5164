/** The worker's copy of the pre-term grade evidence, kept while its source rows look unchanged. */
module EvidenceCache {
  import opened Text
  import opened Ordering
  import opened Instructors
  import opened Schema
  import opened Evidence

  /** The one-row fingerprint of everything the evidence is read from. */
  datatype EvidenceKey = EvidenceKey(
    before: nat,
    grades: nat, maxGrade: Option<nat>, gradeCourses: int, totals: real,
    sections: nat, maxSection: Option<nat>, sectionCourses: int,
    instructors: nat, maxInstructor: Option<nat>)

  predicate Earlier(terms: map<nat, nat>, termId: nat, before: nat) {
    termId in terms && terms[termId] < before
  }

  function EarlierGrades(terms: map<nat, nat>, grades: seq<GradeRow>, before: nat): seq<GradeRow> {
    if grades == [] then []
    else
      var last := grades[|grades| - 1];
      EarlierGrades(terms, grades[..|grades| - 1], before) + if Earlier(terms, last.termId, before) then [last] else []
  }

  function EarlierSections(db: Db, before: nat): map<nat, Section> {
    map id | id in db.sections && Earlier(db.terms, db.sections[id].termId, before) :: db.sections[id]
  }

  function EarlierRows(table: seq<InstructorRow>, sections: set<nat>): seq<InstructorRow> {
    if table == [] then []
    else
      var last := table[|table| - 1];
      EarlierRows(table[..|table| - 1], sections) + if last.sectionId in sections then [last] else []
  }

  function GradeCourses(grades: seq<GradeRow>): int {
    if grades == [] then 0
    else
      var c := grades[|grades| - 1].courseId;
      GradeCourses(grades[..|grades| - 1]) + if c.Some? then c.value else 0
  }

  function Totals(grades: seq<GradeRow>): real {
    if grades == [] then 0.0 else Totals(grades[..|grades| - 1]) + grades[|grades| - 1].counts.total
  }

  function SectionCourses(sections: map<nat, Section>): int
    decreases |sections|
  {
    if sections == map[] then 0
    else
      var id := MaxId(sections.Keys).value;
      SectionCourses(sections - {id}) + sections[id].courseId
  }

  function KeyFor(db: Db, before: nat): EvidenceKey {
    var grades, sections := EarlierGrades(db.terms, db.grades, before), EarlierSections(db, before);
    var rows := EarlierRows(db.instructors, sections.Keys);
    EvidenceKey(before, |grades|, MaxId(set g | g in grades :: g.id), GradeCourses(grades), Totals(grades),
                |sections|, MaxId(sections.Keys), SectionCourses(sections), |rows|, MaxId(set r | r in rows :: r.id))
  }

  /** Evidence that answers for these tables, whatever order its rows were fetched in. */
  ghost predicate AnswersFor(e: TermEvidence, fetched: seq<JoinedRow>, db: Db, before: nat) {
    EvidenceOk(e, fetched, db.instructors) && multiset(fetched) == multiset(JoinedRows(db, before))
  }

  class GradeEvidenceCache {
    var key: Option<EvidenceKey>
    var evidence: TermEvidence
    var loads: nat
    /** The joined rows the kept evidence was read from. */
    ghost var fetched: seq<JoinedRow>

    constructor ()
      ensures key == None && loads == 0
    {
      key := None;
      evidence := TermEvidence([], map[], map[]);
      loads := 0;
      fetched := [];
    }

    /** As long as the fingerprint is unchanged, the kept evidence answers for these tables. */
    ghost predicate Trusted(db: Db, before: nat)
      reads this
    {
      key == Some(KeyFor(db, before)) ==> AnswersFor(evidence, fetched, db, before)
    }

    /** Reuses the kept evidence, or reads it again when the fingerprint differs. */
    method Get(db: Db, before: nat, joined: seq<JoinedRow>) returns (e: TermEvidence)
      requires Trusted(db, before) && multiset(joined) == multiset(JoinedRows(db, before))
      modifies this
      ensures e == evidence && AnswersFor(e, fetched, db, before)
      ensures key == Some(KeyFor(db, before)) && Trusted(db, before)
      ensures old(key) == Some(KeyFor(db, before)) ==> unchanged(this)
      ensures loads == old(loads) + if old(key) == Some(KeyFor(db, before)) then 0 else 1
    {
      hide EvidenceOk, JoinedRows, KeyFor;
      var current := KeyFor(db, before);
      if key != Some(current) {
        evidence := LoadEvidence(joined, db.instructors);
        fetched := joined;
        key := Some(current);
        loads := loads + 1;
      }
      e := evidence;
    }
  }

  /** The kept evidence of a long-lived caller, else a reading of its own. */
  method ReadEvidence(cache: GradeEvidenceCache?, db: Db, before: nat, joined: seq<JoinedRow>)
    returns (e: TermEvidence, ghost fetched: seq<JoinedRow>)
    requires cache != null ==> cache.Trusted(db, before)
    requires multiset(joined) == multiset(JoinedRows(db, before))
    modifies cache
    ensures AnswersFor(e, fetched, db, before)
    ensures cache != null ==> cache.Trusted(db, before) && cache.key == Some(KeyFor(db, before))
  {
    hide EvidenceOk, JoinedRows, KeyFor;
    if cache == null {
      e := LoadEvidence(joined, db.instructors);
      fetched := joined;
    } else {
      e := cache.Get(db, before, joined);
      fetched := cache.fetched;
    }
  }
}
