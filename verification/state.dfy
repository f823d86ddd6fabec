/** The composite-state read `getStudentState`: a student row merged with the
    intervention its `current_intervention_id` points at, if any. */
module StateService {
  import opened Wrappers
  import opened Store

  /** The intervention columns the read selects (its owner is not selected). */
  datatype InterventionView = InterventionView(
    id: InterventionId,
    title: string,
    description: string,
    status: InterventionStatus)

  /** `{ ...student, intervention }`: the student's columns plus the
      (possibly null) intervention. */
  datatype StudentState = StudentState(
    id: StudentId,
    name: string,
    status: StudentStatus,
    currentInterventionId: Option<InterventionId>,
    intervention: Option<InterventionView>)

  function View(id: InterventionId, iv: Intervention): InterventionView {
    InterventionView(id, iv.title, iv.description, iv.status)
  }

  /** The read returns null exactly for an unknown id; otherwise it carries
      the student's row unchanged, and an intervention exactly when the
      reference is truthy and names an existing row, which it then shows. */
  function GetStudentState(s: Store, id: StudentId): (r: Option<StudentState>)
    ensures r.None? <==> id !in s.students
    ensures r.Some? ==>
      && r.value.id == id
      && r.value.name == s.students[id].name
      && r.value.status == s.students[id].status
      && r.value.currentInterventionId == s.students[id].currentInterventionId
    ensures r.Some? ==>
      var cid := s.students[id].currentInterventionId;
      (r.value.intervention.Some? <==> cid.Some? && cid.value in s.interventions)
    ensures r.Some? && r.value.intervention.Some? ==>
      var k := s.students[id].currentInterventionId.value;
      r.value.intervention.value == View(k, s.interventions[k])
  {
    if id !in s.students then None
    else
      var st := s.students[id];
      var intervention :=
        if Truthy(st.currentInterventionId) && st.currentInterventionId.value in s.interventions
        then Some(View(st.currentInterventionId.value, s.interventions[st.currentInterventionId.value]))
        else None;
      Some(StudentState(id, st.name, st.status, st.currentInterventionId, intervention))
  }

  /** The read depends only on the student's own row and on the intervention
      that row references: changing anything else leaves its answer alone. */
  lemma GetStudentStateLocal(s: Store, t: Store, id: StudentId)
    requires id in s.students <==> id in t.students
    requires id in s.students ==> s.students[id] == t.students[id]
    requires id in s.students && s.students[id].currentInterventionId.Some? ==>
      var k := s.students[id].currentInterventionId.value;
      && (k in s.interventions <==> k in t.interventions)
      && (k in s.interventions ==> s.interventions[k] == t.interventions[k])
    ensures GetStudentState(s, id) == GetStudentState(t, id)
  {
  }
}
