/** The `/daily-checkin` handler: classify the submission, append a log row,
    move the student to `normal` or `locked`, and on failure hand a
    notification to the outbound webhook. */
module Checkin {
  import opened Wrappers
  import opened Store
  import opened StateService

  /** The webhook payload `{ student_id, quiz_score, focus_minutes }`. */
  datatype Notification = Notification(
    studentId: StudentId,
    quizScore: int,
    focusMinutes: int)

  /** What one check-in produces: the new store, the notification handed to
      the webhook (if any) and the state returned to the caller. */
  datatype CheckinOutcome = CheckinOutcome(
    store: Store,
    notification: Option<Notification>,
    state: Option<StudentState>)

  /** The pass/fail rule: both thresholds are strict, so a score of exactly 7
      or exactly 60 minutes fails. */
  function Classify(quizScore: int, focusMinutes: int): (r: LogStatus)
    ensures r == Success <==> quizScore >= 8 && focusMinutes >= 61
  {
    if quizScore > 7 && focusMinutes > 60 then Success else Failed
  }

  /** The student status a classification leads to. */
  function StatusAfter(outcome: LogStatus): StudentStatus {
    if outcome == Success then Normal else Locked
  }

  /** One check-in. The log row is appended whether or not the student
      exists; the status update touches no row for an unknown student. */
  function SubmitCheckin(s: Store, id: StudentId, quizScore: int, focusMinutes: int,
                         webhookConfigured: bool): (r: CheckinOutcome)
    // exactly one log row is appended, carrying the raw inputs and the verdict
    ensures |r.store.dailyLogs| == |s.dailyLogs| + 1
    ensures r.store.dailyLogs[..|s.dailyLogs|] == s.dailyLogs
    ensures var last := r.store.dailyLogs[|s.dailyLogs|];
      && last.studentId == id && last.quizScore == quizScore
      && last.focusMinutes == focusMinutes
      && (last.status == Success <==> quizScore > 7 && focusMinutes > 60)
    // the student moves to normal on a pass and to locked on a failure,
    // keeping its name and its intervention reference
    ensures r.store.students.Keys == s.students.Keys
    ensures id in s.students ==>
      && r.store.students[id].name == s.students[id].name
      && r.store.students[id].currentInterventionId == s.students[id].currentInterventionId
      && (r.store.students[id].status == Normal <==> quizScore > 7 && focusMinutes > 60)
      && (r.store.students[id].status == Locked <==> !(quizScore > 7 && focusMinutes > 60))
    // nothing else changes
    ensures forall j :: j in s.students && j != id ==> r.store.students[j] == s.students[j]
    ensures r.store.interventions == s.interventions
    ensures r.store.nextInterventionId == s.nextInterventionId
    // a notification goes out exactly on failure with a configured webhook
    ensures r.notification.Some? <==> webhookConfigured && !(quizScore > 7 && focusMinutes > 60)
    ensures r.notification.Some? ==> r.notification.value == Notification(id, quizScore, focusMinutes)
    // the caller sees the refreshed state, null for an unknown student
    ensures r.state == GetStudentState(r.store, id)
  {
    var outcome := Classify(quizScore, focusMinutes);
    var logged := s.(dailyLogs := s.dailyLogs + [DailyLog(id, quizScore, focusMinutes, outcome)]);
    var updated := SetStatus(logged, id, StatusAfter(outcome));
    var notification :=
      if outcome == Failed && webhookConfigured
      then Some(Notification(id, quizScore, focusMinutes))
      else None;
    CheckinOutcome(updated, notification, GetStudentState(updated, id))
  }

  /** The rule at its boundary: (7,61), (8,60) and (7,60) fail, (8,61) passes. */
  lemma ClassifyBoundary()
    ensures Classify(7, 61) == Failed
    ensures Classify(8, 60) == Failed
    ensures Classify(7, 60) == Failed
    ensures Classify(8, 61) == Success
  {
  }

  /** Raising the score or the minutes never turns a pass into a failure. */
  lemma ClassifyMonotone(q: int, m: int, q': int, m': int)
    requires q <= q' && m <= m'
    ensures Classify(q, m) == Success ==> Classify(q', m') == Success
  {
  }

  /** Whether the webhook is configured only decides whether the notification
      is handed out: the store and the returned state are the same either way. */
  lemma NotificationDoesNotAffectStore(s: Store, id: StudentId, quizScore: int, focusMinutes: int)
    ensures SubmitCheckin(s, id, quizScore, focusMinutes, true).store
         == SubmitCheckin(s, id, quizScore, focusMinutes, false).store
    ensures SubmitCheckin(s, id, quizScore, focusMinutes, true).state
         == SubmitCheckin(s, id, quizScore, focusMinutes, false).state
    ensures SubmitCheckin(s, id, quizScore, focusMinutes, false).notification.None?
  {
  }
}
