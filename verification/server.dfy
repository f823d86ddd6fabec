/** The four routes of the server as one transition system: a request moves
    the store and may hand a notification to the webhook outbox. Each handler
    is one atomic step. */
module Server {
  import opened Wrappers
  import opened Store
  import opened StateService
  import opened Errors
  import opened Checkin
  import opened Assignment
  import opened Completion

  datatype Request =
    | GetState(id: StudentId)                                          // GET /student-state/:id
    | DailyCheckin(id: StudentId, quizScore: int, focusMinutes: int)   // POST /daily-checkin
    | AssignRequest(title: string, description: Option<string>)       // POST /assign-intervention
    | CompleteRequest(id: StudentId)                                   // POST /complete-intervention

  datatype Response =
    | StateBody(state: Option<StudentState>)  // 200 with the composite state (JSON null allowed)
    | NotFound                                // 404 from the state route
    | BadRequest(error: Error)                // 400 from assignment or completion

  /** The store together with the notifications handed to the webhook so far. */
  datatype System = System(store: Store, outbox: seq<Notification>)

  datatype StepResult = StepResult(system: System, response: Response)

  /** Whether `req` is a check-in that fails the rule. */
  predicate FailingCheckin(req: Request) {
    req.DailyCheckin? && Classify(req.quizScore, req.focusMinutes) == Failed
  }

  function Step(sys: System, req: Request, webhookConfigured: bool): (r: StepResult)
    // an error response leaves everything as it was
    ensures !r.response.StateBody? ==> r.system == sys
    // reads do not write
    ensures req.GetState? ==> r.system == sys
    // the only writer of the outbox is a failing check-in with a configured webhook
    ensures webhookConfigured && FailingCheckin(req) ==>
      r.system.outbox == sys.outbox + [Notification(req.id, req.quizScore, req.focusMinutes)]
    ensures !(webhookConfigured && FailingCheckin(req)) ==> r.system.outbox == sys.outbox
    // the log only grows, and only on a check-in
    ensures req.DailyCheckin? ==> |r.system.store.dailyLogs| == |sys.store.dailyLogs| + 1
    ensures !req.DailyCheckin? ==> r.system.store.dailyLogs == sys.store.dailyLogs
    ensures r.system.store.dailyLogs[..|sys.store.dailyLogs|] == sys.store.dailyLogs
    // the state route answers 404 exactly for an unknown student, else its state
    ensures req.GetState? ==> (r.response == NotFound <==> req.id !in sys.store.students)
    ensures req.GetState? ==>
      r.response == (if req.id in sys.store.students
                     then StateBody(GetStudentState(sys.store, req.id))
                     else NotFound)
    // a check-in writes what the check-in handler computes and answers with its state
    ensures req.DailyCheckin? ==>
      var out := SubmitCheckin(sys.store, req.id, req.quizScore, req.focusMinutes, webhookConfigured);
      r.system.store == out.store && r.response == StateBody(out.state)
    // assignment and completion answer 400 exactly when their handler refuses,
    // and otherwise install the handler's store and answer with its state
    ensures req.AssignRequest? ==>
      var out := AssignIntervention(sys.store, req.title, req.description);
      && (r.response.BadRequest? <==> out.Err?)
      && (out.Err? ==> r.response == BadRequest(out.error))
      && (out.Ok? ==> r.system.store == out.value.store && r.response == StateBody(out.value.state))
    ensures req.CompleteRequest? ==>
      var out := CompleteIntervention(sys.store, req.id);
      && (r.response.BadRequest? <==> out.Err?)
      && (out.Err? ==> r.response == BadRequest(out.error))
      && (out.Ok? ==> r.system.store == out.value.store && r.response == StateBody(out.value.state))
    // a successful completion leaves the student normal with no reference
    ensures req.CompleteRequest? && r.response.StateBody? ==>
      && req.id in r.system.store.students
      && r.system.store.students[req.id].status == Normal
      && r.system.store.students[req.id].currentInterventionId.None?
  {
    match req
    case GetState(id) =>
      var state := GetStudentState(sys.store, id);
      StepResult(sys, if state.None? then NotFound else StateBody(state))
    case DailyCheckin(id, q, m) =>
      var out := SubmitCheckin(sys.store, id, q, m, webhookConfigured);
      var outbox := match out.notification
        case Some(n) => sys.outbox + [n]
        case None => sys.outbox;
      StepResult(System(out.store, outbox), StateBody(out.state))
    case AssignRequest(title, description) =>
      (match AssignIntervention(sys.store, title, description)
       case Err(e) => StepResult(sys, BadRequest(e))
       case Ok(ok) => StepResult(sys.(store := ok.store), StateBody(ok.state)))
    case CompleteRequest(id) =>
      (match CompleteIntervention(sys.store, id)
       case Err(e) => StepResult(sys, BadRequest(e))
       case Ok(ok) => StepResult(sys.(store := ok.store), StateBody(ok.state)))
  }

  /** Requests served one after another. */
  function Run(sys: System, reqs: seq<Request>, webhookConfigured: bool): System
    decreases |reqs|
  {
    if reqs == [] then sys
    else Run(Step(sys, reqs[0], webhookConfigured).system, reqs[1..], webhookConfigured)
  }

  /** The webhook payloads that a run of log rows calls for: one per failed
      row, in log order. */
  function FailureNotifications(logs: seq<DailyLog>): seq<Notification>
    decreases |logs|
  {
    if logs == [] then []
    else
      var rest := FailureNotifications(logs[1..]);
      if logs[0].status == Failed
      then [Notification(logs[0].studentId, logs[0].quizScore, logs[0].focusMinutes)] + rest
      else rest
  }

  lemma {:induction false} FailureNotificationsAppend(a: seq<DailyLog>, b: seq<DailyLog>)
    ensures FailureNotifications(a + b) == FailureNotifications(a) + FailureNotifications(b)
    decreases |a|
  {
    if a == [] {
      assert a + b == b;
    } else {
      assert (a + b)[1..] == a[1..] + b;
      FailureNotificationsAppend(a[1..], b);
    }
  }

  /** One step's new log rows call for exactly the notifications the step
      hands out when the webhook is configured, and for none otherwise. */
  lemma StepNotifiesFailures(sys: System, req: Request, webhookConfigured: bool)
    ensures var t := Step(sys, req, webhookConfigured).system;
      t.outbox == sys.outbox + (if webhookConfigured
                                then FailureNotifications(t.store.dailyLogs[|sys.store.dailyLogs|..])
                                else [])
  {
  }

  /** Over any run the earlier log is kept as a prefix; with the webhook
      configured the outbox grows by exactly one notification per failed
      check-in logged, in the same order, and without it not at all. */
  lemma {:induction false} RunNotifiesFailures(sys: System, reqs: seq<Request>,
                                               webhookConfigured: bool)
    ensures var t := Run(sys, reqs, webhookConfigured);
      && |sys.store.dailyLogs| <= |t.store.dailyLogs|
      && t.store.dailyLogs[..|sys.store.dailyLogs|] == sys.store.dailyLogs
      && t.outbox == sys.outbox + (if webhookConfigured
                                   then FailureNotifications(t.store.dailyLogs[|sys.store.dailyLogs|..])
                                   else [])
    decreases |reqs|
  {
    var t := Run(sys, reqs, webhookConfigured);
    if reqs == [] {
      assert t.store.dailyLogs[|sys.store.dailyLogs|..] == [];
    } else {
      var mid := Step(sys, reqs[0], webhookConfigured).system;
      StepNotifiesFailures(sys, reqs[0], webhookConfigured);
      RunNotifiesFailures(mid, reqs[1..], webhookConfigured);
      var a := mid.store.dailyLogs[|sys.store.dailyLogs|..];
      var b := t.store.dailyLogs[|mid.store.dailyLogs|..];
      assert t.store.dailyLogs[..|mid.store.dailyLogs|] == mid.store.dailyLogs;
      assert t.store.dailyLogs[|sys.store.dailyLogs|..] == a + b;
      FailureNotificationsAppend(a, b);
    }
  }

  /** With no webhook configured nothing is ever handed out. */
  lemma RunWithoutWebhookSendsNothing(sys: System, reqs: seq<Request>)
    ensures Run(sys, reqs, false).outbox == sys.outbox
  {
    RunNotifiesFailures(sys, reqs, false);
  }
}
