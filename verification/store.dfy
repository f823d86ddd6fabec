/** The persistent store of the focus-mode server: the `students`,
    `interventions` and `daily_logs` tables, with the SQL replaced by maps and
    an append-only sequence. */
module Store {
  import opened Wrappers

  type StudentId = nat
  type InterventionId = nat

  /** `students.status`. */
  datatype StudentStatus = Normal | Locked | Remedial

  /** A row of `students`; its id is the key it is stored under. */
  datatype Student = Student(
    name: string,
    status: StudentStatus,
    currentInterventionId: Option<InterventionId>)

  /** `interventions.status`. */
  datatype InterventionStatus = Assigned | Completed

  /** A row of `interventions`; its id is the key it is stored under. */
  datatype Intervention = Intervention(
    studentId: StudentId,
    title: string,
    description: string,
    status: InterventionStatus)

  /** `daily_logs.status`: the outcome of the pass/fail rule. */
  datatype LogStatus = Success | Failed

  /** A row of `daily_logs` (the creation timestamp is not modelled). */
  datatype DailyLog = DailyLog(
    studentId: StudentId,
    quizScore: int,
    focusMinutes: int,
    status: LogStatus)

  /** The three tables, plus the `interventions.id` sequence: the next id the
      database hands out on insert. */
  datatype Db = Db(
    students: map<StudentId, Student>,
    interventions: map<InterventionId, Intervention>,
    dailyLogs: seq<DailyLog>,
    nextInterventionId: InterventionId)

  /** The model takes intervention ids from a sequence that starts at 1 and
      only ever hands out ids above every id already in the table. */
  predicate Sequenced(db: Db) {
    && 1 <= db.nextInterventionId
    && forall k :: k in db.interventions ==> 1 <= k < db.nextInterventionId
  }

  type Store = db: Db | Sequenced(db) witness Db(map[], map[], [], 1)

  /** JavaScript truthiness of `current_intervention_id`: `null` and `0` are
      both falsy. */
  predicate Truthy(id: Option<InterventionId>) {
    id.Some? && id.value != 0
  }

  /** The student/intervention invariant for one student: an intervention is
      referenced exactly when the student is remedial, and a referenced
      intervention exists, belongs to that student and is still assigned. */
  predicate StudentConsistent(s: Store, id: StudentId)
    requires id in s.students
  {
    var st := s.students[id];
    && (st.currentInterventionId.Some? <==> st.status == Remedial)
    && (st.currentInterventionId.Some? ==>
          var k := st.currentInterventionId.value;
          && k in s.interventions
          && s.interventions[k].studentId == id
          && s.interventions[k].status == Assigned)
  }

  predicate Consistent(s: Store) {
    forall id :: id in s.students ==> StudentConsistent(s, id)
  }

  /** `UPDATE students SET status=... WHERE id=...`: touches no row when the
      id is unknown. */
  function SetStatus(s: Store, id: StudentId, status: StudentStatus): (r: Store)
    ensures r.students.Keys == s.students.Keys
    ensures id in s.students ==>
      r.students[id] == s.students[id].(status := status)
    ensures forall j :: j in s.students && j != id ==> r.students[j] == s.students[j]
    ensures r.interventions == s.interventions
    ensures r.dailyLogs == s.dailyLogs
    ensures r.nextInterventionId == s.nextInterventionId
  {
    if id in s.students then
      s.(students := s.students[id := s.students[id].(status := status)])
    else
      s
  }
}
