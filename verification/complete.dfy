/** The `/complete-intervention` handler: mark the student's active
    intervention completed and return the student to `normal`. */
module Completion {
  import opened Wrappers
  import opened Store
  import opened StateService
  import opened Errors

  /** A successful completion: the new store and the state returned. */
  datatype CompleteOk = CompleteOk(store: Store, state: Option<StudentState>)

  /** The guard reads the reference with JavaScript truthiness, so an unknown
      student, a null reference and a reference to id 0 are all refused. */
  function CompleteIntervention(s: Store, id: StudentId): (r: Result<CompleteOk, Error>)
    ensures r.Err? <==> id !in s.students || s.students[id].currentInterventionId in {None, Some(0)}
    ensures r.Err? ==> r.error == NoActiveIntervention
    // the student is reset to normal with no reference, keeping its name
    ensures r.Ok? ==>
      var t := r.value.store;
      && t.students.Keys == s.students.Keys
      && t.students[id] == Student(s.students[id].name, Normal, None)
      && (forall j :: j in s.students && j != id ==> t.students[j] == s.students[j])
    // the referenced intervention, if its row exists, becomes completed
    ensures r.Ok? ==>
      var t := r.value.store;
      var k := s.students[id].currentInterventionId.value;
      && t.interventions.Keys == s.interventions.Keys
      && (k in s.interventions ==> t.interventions[k] == s.interventions[k].(status := Completed))
      && (forall j :: j in s.interventions && j != k ==> t.interventions[j] == s.interventions[j])
      && t.dailyLogs == s.dailyLogs
      && t.nextInterventionId == s.nextInterventionId
    // the caller sees a normal student with no intervention
    ensures r.Ok? ==>
      r.value.state == Some(StudentState(id, s.students[id].name, Normal, None, None))
  {
    if id !in s.students || !Truthy(s.students[id].currentInterventionId) then
      Err(NoActiveIntervention)
    else
      var k := s.students[id].currentInterventionId.value;
      var marked: Store :=
        if k in s.interventions
        then s.(interventions := s.interventions[k := s.interventions[k].(status := Completed)])
        else s;
      var t: Store := marked.(students := marked.students[id :=
                        marked.students[id].(status := Normal, currentInterventionId := None)]);
      Ok(CompleteOk(t, GetStudentState(t, id)))
  }
}
