/** Concrete runs of the handlers: the full lifecycle of one student and the
    tie-break between two locked students. */
module Scenarios {
  import opened Wrappers
  import opened Store
  import opened StateService
  import opened Checkin
  import opened Assignment
  import opened Completion

  /** One normal student, id 1, nothing logged, no interventions yet. */
  function FreshStore(): Store {
    Db(map[1 := Student("Ada", Normal, None)], map[], [], 1)
  }

  /** normal -> fail (5, 30) -> locked with one failed log -> assignment of
      "Read Ch.1" -> remedial with that task -> completion -> normal, the task
      completed and the reference cleared. */
  lemma Lifecycle()
    ensures var s0 := FreshStore();
      var c := SubmitCheckin(s0, 1, 5, 30, true);
      && c.store.students[1].status == Locked
      && c.store.dailyLogs == [DailyLog(1, 5, 30, Failed)]
      && c.notification == Some(Notification(1, 5, 30))
      && var a := AssignIntervention(c.store, "Read Ch.1", None);
      && a.Ok?
      && a.value.studentId == 1
      && a.value.state.Some?
      && a.value.state.value.status == Remedial
      && a.value.state.value.intervention
           == Some(InterventionView(1, "Read Ch.1", "Check email for details", Assigned))
      && var d := CompleteIntervention(a.value.store, 1);
      && d.Ok?
      && d.value.store.students[1] == Student("Ada", Normal, None)
      && d.value.store.interventions[1].status == Completed
      && d.value.store.dailyLogs == [DailyLog(1, 5, 30, Failed)]
  {
  }

  /** With students 3 and 7 both locked, assignment picks 7. */
  lemma HighestLockedWins()
    ensures var s: Store := Db(map[3 := Student("Bo", Locked, None),
                                   7 := Student("Cy", Locked, None)], map[], [], 1);
      var a := AssignIntervention(s, "Task", Some(""));
      && a.Ok?
      && a.value.studentId == 7
      && a.value.store.students[3] == Student("Bo", Locked, None)
      && a.value.store.interventions[1].description == "Check email for details"
  {
    var s: Store := Db(map[3 := Student("Bo", Locked, None),
                           7 := Student("Cy", Locked, None)], map[], [], 1);
    var a := AssignIntervention(s, "Task", Some(""));
    assert s.students[7].status == Locked;
    var id := a.value.studentId;
    assert id in s.students.Keys && 7 <= id;
    assert s.students.Keys == {3, 7};
  }

  /** Completing for a student with no active intervention is refused. */
  lemma CompleteWithoutInterventionRefused()
    ensures CompleteIntervention(FreshStore(), 1) == Err(Errors.NoActiveIntervention)
    ensures CompleteIntervention(FreshStore(), 2) == Err(Errors.NoActiveIntervention)
  {
  }
}
