/** The tables the service reads and writes, as one value per database state. */
module Schema {
  import opened Text
  import opened Grades
  import opened Scoring
  import opened Instructors
  import opened Breakdown

  /** The section columns the schedule ingest maps from a row. The CRN is the identity key and is
      kept apart. */
  datatype Field =
    | SectionNumber | Campus | Session | SectionType | Credits | PrimaryStatus | SecondaryStatus
    | DeliveryMethod | Days | StartTime | EndTime | MeetingTimes | Building | Room
    | Capacity | Enrollment | SeatsRemaining | WaitSeatsAvailable | SectionNote | FeesRaw

  datatype Value = Null | Str(text: string) | Num(n: int) | TimeOfDay(minutes: int)

  type Values = map<Field, Value>

  /** Columns that mirror the latest seat snapshot. */
  const SEAT_FIELDS: set<Field> := {Capacity, Enrollment, SeatsRemaining, WaitSeatsAvailable}

  /** A row carries every column. */
  ghost predicate Full(values: Values) {
    forall f: Field :: f in values
  }

  function TextOf(v: Value): string {
    if v.Str? then v.text else ""
  }

  function Get(values: Values, f: Field): Value {
    if f in values then values[f] else Null
  }

  /** Everything but the seat columns: all that a ranking can show of a section. */
  function NonSeat(values: Values): Values {
    map f | f in values && f !in SEAT_FIELDS :: values[f]
  }

  datatype SeatValues = SeatValues(capacity: Value, enrollment: Value, remaining: Value, wait: Value)

  function SeatsOf(values: Values): SeatValues {
    SeatValues(Get(values, Capacity), Get(values, Enrollment),
               Get(values, SeatsRemaining), Get(values, WaitSeatsAvailable))
  }

  /** Laboratory sections never feed instructor-level history. */
  predicate IsLaboratory(values: Values) {
    Fold(Clean(TextOf(Get(values, SectionType)))) == "laboratory"
  }

  /** Case and spacing never decide it. */
  lemma LaboratoryUpToCase(values: Values, other: Values)
    requires Fold(Clean(TextOf(Get(values, SectionType)))) == Fold(Clean(TextOf(Get(other, SectionType))))
    ensures IsLaboratory(values) == IsLaboratory(other)
    ensures Clean(TextOf(Get(values, SectionType))) == "Laboratory" ==> IsLaboratory(values)
  {
    assert Fold("Laboratory") == "laboratory";
  }

  type CourseKey = (string, string)

  datatype Course = Course(subject: string, number: string, edition: string)
  {
    function Key(): CourseKey { (subject, number) }
  }

  datatype Section = Section(
    termId: nat, crn: string, courseId: nat, values: Values,
    firstSeenAt: int, lastSeenAt: int, removedAt: Option<int>)
  {
    predicate Active() { removedAt.None? }
  }

  datatype GradeRow = GradeRow(id: nat, termId: nat, crn: string, courseId: Option<nat>, counts: GradeCounts)

  datatype SnapshotRow = SnapshotRow(id: nat, sectionId: nat, observedAt: int, seats: SeatValues)

  datatype SectionAnalytics = SectionAnalytics(
    crn: string, instructor: Option<string>, stats: OutcomeStats, breakdown: Option<BreakdownResult>)

  /** A cached ranking: the grade analytics and everything else that is shown. */
  datatype Ranking = Ranking(analytics: SectionAnalytics, display: string)

  /** One section per term and CRN. */
  ghost predicate UniqueCrnsIn(sections: map<nat, Section>) {
    forall i, j | i in sections && j in sections
      && sections[i].termId == sections[j].termId && sections[i].crn == sections[j].crn :: i == j
  }

  /** One term per code. */
  ghost predicate UniqueCodes(terms: map<nat, nat>) {
    forall i, j | i in terms && j in terms && terms[i] == terms[j] :: i == j
  }

  datatype Db = Db(
    terms: map<nat, nat>,
    courses: map<nat, Course>,
    sections: map<nat, Section>,
    instructors: seq<InstructorRow>,
    snapshots: seq<SnapshotRow>,
    grades: seq<GradeRow>,
    syllabi: set<nat>,
    rankings: map<nat, Ranking>,
    nextSection: nat, nextInstructor: nat, nextSnapshot: nat, nextGrade: nat)
  {
    ghost predicate UniqueCrns() {
      UniqueCrnsIn(sections)
    }

    ghost predicate SectionsOk() {
      && UniqueCrns()
      && (forall i | i in sections :: i < nextSection && Full(sections[i].values) && sections[i].courseId in courses)
    }

    /** Subjects and numbers are stored stripped and in upper case. */
    ghost predicate CoursesOk() {
      forall i | i in courses ::
        NormalizeKey(courses[i].subject) == courses[i].subject && NormalizeKey(courses[i].number) == courses[i].number
    }

    ghost predicate HistoryOk() {
      && (forall r | r in instructors :: r.sectionId in sections && r.id < nextInstructor)
      && (forall r | r in snapshots :: r.sectionId in sections && r.id < nextSnapshot)
    }

    ghost predicate GradesOk() {
      && (forall g | g in grades :: g.termId in terms && g.id < nextGrade && g.counts.NonNegative())
      && (forall g | g in grades && g.courseId.Some? :: g.courseId.value in courses)
    }

    ghost predicate TermsOk() {
      UniqueCodes(terms)
    }

    ghost predicate Valid() {
      SectionsOk() && CoursesOk() && HistoryOk() && GradesOk() && TermsOk()
    }
  }
}
