/** The `/assign-intervention` handler, called by the external dispatcher:
    pick the locked student with the highest id, create an `assigned`
    intervention for it and make it `remedial`. */
module Assignment {
  import opened Wrappers
  import opened Store
  import opened StateService
  import opened Errors

  /** Stored when the dispatcher sends no description or an empty one. */
  const DefaultDescription: string := "Check email for details"

  /** `id` is what `ORDER BY id DESC LIMIT 1` returns among locked students. */
  predicate IsLatestLocked(students: map<StudentId, Student>, id: StudentId) {
    && id in students
    && students[id].status == Locked
    && forall j :: j in students && students[j].status == Locked ==> j <= id
  }

  /** Every non-empty finite set of ids has a largest element. */
  lemma {:induction false} LargestExists(ids: set<StudentId>)
    requires ids != {}
    ensures exists m :: m in ids && forall j :: j in ids ==> j <= m
  {
    var x :| x in ids;
    var rest := ids - {x};
    if rest == {} {
      forall j | j in ids
        ensures j <= x
      {
        assert j !in rest;
      }
    } else {
      LargestExists(rest);
      var m :| m in rest && forall j :: j in rest ==> j <= m;
      var top := if x <= m then m else x;
      forall j | j in ids
        ensures j <= top
      {
        if j != x {
          assert j in rest;
        }
      }
    }
  }

  function LockedIds(students: map<StudentId, Student>): set<StudentId> {
    set id | id in students && students[id].status == Locked
  }

  /** The selection query: none exactly when nobody is locked, otherwise the
      locked student with the highest id. */
  function SelectLocked(students: map<StudentId, Student>): (r: Option<StudentId>)
    ensures r.None? <==> forall id :: id in students ==> students[id].status != Locked
    ensures r.Some? ==> IsLatestLocked(students, r.value)
  {
    var ids := LockedIds(students);
    if ids == {} then
      assert forall id :: id in students ==> students[id].status != Locked by {
        forall id | id in students
          ensures students[id].status != Locked
        {
          assert id !in ids;
        }
      }
      None
    else
      LargestExists(ids);
      var m :| m in ids && forall j :: j in ids ==> j <= m;
      assert forall j :: j in students && students[j].status == Locked ==> j <= m by {
        forall j | j in students && students[j].status == Locked
          ensures j <= m
        {
          assert j in ids;
        }
      }
      Some(m)
  }

  /** `task_description || 'Check email for details'`: a missing or empty
      description falls back to the placeholder. */
  function DescriptionOrDefault(description: Option<string>): (r: string)
    ensures description.Some? && description.value != "" ==> r == description.value
    ensures description.None? || description.value == "" ==> r == DefaultDescription
    ensures r != ""
  {
    match description
    case Some(d) => if d != "" then d else DefaultDescription
    case None => DefaultDescription
  }

  /** A successful assignment: the new store, the id of the selected student
      and the state returned for it. */
  datatype AssignOk = AssignOk(store: Store, studentId: StudentId, state: Option<StudentState>)

  function AssignIntervention(s: Store, title: string, description: Option<string>)
    : (r: Result<AssignOk, Error>)
    // nobody locked: the request is refused and nothing is written
    ensures r.Err? <==> forall id :: id in s.students ==> s.students[id].status != Locked
    ensures r.Err? ==> r.error == NoLockedStudent
    // the latest locked student is selected
    ensures r.Ok? ==> IsLatestLocked(s.students, r.value.studentId)
    // a fresh, assigned intervention for that student is created
    ensures r.Ok? ==>
      var t := r.value.store;
      var k := s.nextInterventionId;
      && k !in s.interventions
      && t.interventions.Keys == s.interventions.Keys + {k}
      && t.interventions[k] == Intervention(r.value.studentId, title,
                                            DescriptionOrDefault(description), Assigned)
      && forall j :: j in s.interventions ==> t.interventions[j] == s.interventions[j]
    // the student becomes remedial and references it
    ensures r.Ok? ==>
      var t := r.value.store;
      var id := r.value.studentId;
      && t.students.Keys == s.students.Keys
      && t.students[id] == s.students[id].(status := Remedial,
                                           currentInterventionId := Some(s.nextInterventionId))
      && (forall j :: j in s.students && j != id ==> t.students[j] == s.students[j])
      && t.dailyLogs == s.dailyLogs
    // the caller sees the student with its new intervention
    ensures r.Ok? ==> r.value.state == GetStudentState(r.value.store, r.value.studentId)
    ensures r.Ok? ==>
      && r.value.state.Some?
      && r.value.state.value.status == Remedial
      && r.value.state.value.intervention
           == Some(InterventionView(s.nextInterventionId, title,
                                    DescriptionOrDefault(description), Assigned))
  {
    match SelectLocked(s.students)
    case None => Err(NoLockedStudent)
    case Some(id) =>
      var k := s.nextInterventionId;
      var created := Intervention(id, title, DescriptionOrDefault(description), Assigned);
      var withRow: Store := s.(interventions := s.interventions[k := created],
                               nextInterventionId := k + 1);
      var t: Store := withRow.(students := withRow.students[id :=
                        withRow.students[id].(status := Remedial, currentInterventionId := Some(k))]);
      Ok(AssignOk(t, id, GetStudentState(t, id)))
  }
}
