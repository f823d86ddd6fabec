/** The student/intervention invariant ("a student references an intervention
    exactly when it is remedial") across the handlers. Assignment and
    completion keep it; a check-in keeps it exactly when the student is not
    remedial, because the check-in never clears the reference. */
module Invariant {
  import opened Wrappers
  import opened Store
  import opened StateService
  import opened Checkin
  import opened Assignment
  import opened Completion
  import opened Server

  lemma AssignPreservesConsistency(s: Store, title: string, description: Option<string>)
    requires Consistent(s)
    ensures var r := AssignIntervention(s, title, description);
      r.Ok? ==> Consistent(r.value.store)
  {
  }

  lemma CompletePreservesConsistency(s: Store, id: StudentId)
    requires Consistent(s)
    ensures var r := CompleteIntervention(s, id);
      r.Ok? ==> Consistent(r.value.store)
  {
  }

  /** Starting from a consistent store, a check-in leaves the store consistent
      if and only if the student is unknown or not remedial. */
  lemma CheckinConsistentIffNotRemedial(s: Store, id: StudentId, quizScore: int,
                                        focusMinutes: int, webhookConfigured: bool)
    requires Consistent(s)
    ensures Consistent(SubmitCheckin(s, id, quizScore, focusMinutes, webhookConfigured).store)
        <==> (id !in s.students || s.students[id].status != Remedial)
  {
  }

  /** Under the invariant the completion guard accepts exactly the remedial
      students: the JavaScript truthiness test never meets an id 0. */
  lemma CompleteAcceptsExactlyRemedial(s: Store, id: StudentId)
    requires Consistent(s)
    ensures CompleteIntervention(s, id).Ok?
        <==> (id in s.students && s.students[id].status == Remedial)
  {
  }

  /** Under the invariant the state read never meets a dangling reference: it
      shows an intervention exactly for a remedial student, and that
      intervention is still assigned. */
  lemma StateShowsInterventionIffRemedial(s: Store, id: StudentId)
    requires Consistent(s)
    requires id in s.students
    ensures GetStudentState(s, id).value.intervention.Some? <==> s.students[id].status == Remedial
    ensures GetStudentState(s, id).value.intervention.Some? ==>
      GetStudentState(s, id).value.intervention.value.status == Assigned
  {
  }

  /** A request that keeps the invariant: anything but a check-in of a
      remedial student. The client only offers the check-in form to a
      `normal` student. */
  predicate Allowed(s: Store, req: Request) {
    req.DailyCheckin? ==> req.id !in s.students || s.students[req.id].status != Remedial
  }

  lemma StepPreservesConsistency(sys: System, req: Request, webhookConfigured: bool)
    requires Consistent(sys.store)
    requires Allowed(sys.store, req)
    ensures Consistent(Step(sys, req, webhookConfigured).system.store)
  {
  }

  /** Every request of `reqs` is allowed in the store it meets. */
  predicate AllAllowed(sys: System, reqs: seq<Request>, webhookConfigured: bool)
    decreases |reqs|
  {
    reqs != [] ==>
      && Allowed(sys.store, reqs[0])
      && AllAllowed(Step(sys, reqs[0], webhookConfigured).system, reqs[1..], webhookConfigured)
  }

  /** The invariant holds after any run of allowed requests. */
  lemma {:induction false} RunPreservesConsistency(sys: System, reqs: seq<Request>,
                                                   webhookConfigured: bool)
    requires Consistent(sys.store)
    requires AllAllowed(sys, reqs, webhookConfigured)
    ensures Consistent(Run(sys, reqs, webhookConfigured).store)
    decreases |reqs|
  {
    if reqs != [] {
      StepPreservesConsistency(sys, reqs[0], webhookConfigured);
      RunPreservesConsistency(Step(sys, reqs[0], webhookConfigured).system, reqs[1..],
                              webhookConfigured);
    }
  }
}
