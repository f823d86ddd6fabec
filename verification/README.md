# Focus mode: verified model of the student-status state machine

The focus-mode server tracks a student's daily check-ins. A check-in passes
when the quiz score is above 7 and the focus time is above 60 minutes. A
failure locks the student and notifies an external dispatcher through a
webhook. The dispatcher later assigns a remediation task ("intervention") to
the most recently locked student, which makes that student `remedial`.
Completing the task returns the student to `normal`.

This project models the four handlers of `server/index.js` as pure
transitions over an immutable store:

- `Store` (store.dfy): the `students` and `interventions` tables as maps keyed
  by id, `daily_logs` as an append-only sequence, and the intervention id
  sequence as a counter. The subset type `Store` keeps every intervention id
  at 1 or above and below the counter. `Consistent` is the invariant: a
  student references an intervention exactly when it is `remedial`, and that
  intervention exists, belongs to it and is still `assigned`.
- `StateService` (state.dfy): `getStudentState`, the composite read.
- `Checkin` (checkin.dfy): the pass/fail rule and the `/daily-checkin` transition.
- `Assignment` (assign.dfy): selection of the latest locked student and the
  `/assign-intervention` transition.
- `Completion` (complete.dfy): the `/complete-intervention` transition.
- `Server` (server.dfy): the four routes as one `Step` over the store plus an
  outbox of webhook notifications, and `Run` over a sequence of requests.
- `Invariant` (invariant.dfy): which handlers keep `Consistent`.
- `Scenarios` (scenarios.dfy): the full lifecycle and the tie-break, on
  concrete stores.

A handler that refuses a request returns `Err`. It carries no store, so the
caller's store is untouched; `Server.Step` states this for every route.

Behaviour of the code that the model keeps as written:

- A check-in does not clear `current_intervention_id`. So a check-in by a
  remedial student breaks the invariant. `CheckinConsistentIffNotRemedial`
  proves that the invariant survives a check-in exactly when the student is
  not remedial. The client only shows the check-in form to `normal` students.
- A check-in for an unknown student still writes its log row. The status
  update then matches no row, and the response body is `null`.
  No foreign key is visible in the code, so the model appends the row.
- A reference to an intervention row that does not exist makes the read
  return the student with a `null` intervention.
- The completion guard and the read test the reference with JavaScript
  truthiness, so an id of 0 counts as absent (`Store.Truthy`). Intervention
  ids are at least 1, so under the invariant this never shows
  (`CompleteAcceptsExactlyRemedial`).

## Model

| member | source | states |
|---|---|---|
| StateService.GetStudentState | server/index.js:20-39 | null exactly for an unknown student; otherwise the student's row unchanged, with an intervention exactly when the reference names an existing row, which it then shows |
| StateService.GetStudentStateLocal | server/index.js:22-37 | the read depends only on the student's own row and the intervention it references |
| Store.SetStatus | server/index.js:74-77 | the status UPDATE changes only that student's status and touches no row for an unknown id |
| Checkin.Classify | server/index.js:63-65 | a check-in passes exactly when the score is above 7 and the minutes above 60 (on the integer inputs modelled: at least 8 and at least 61) |
| Checkin.ClassifyBoundary | server/index.js:63-65 | (7,61), (8,60) and (7,60) fail; (8,61) passes |
| Checkin.ClassifyMonotone | server/index.js:64 | raising score or minutes never turns a pass into a failure |
| Checkin.SubmitCheckin | server/index.js:59-99 | one log row with the raw inputs and the verdict is appended after the unchanged old log; the student becomes normal on pass and locked on failure, keeping name and reference; other students and all interventions are unchanged; a notification with the inputs is emitted exactly on failure with a configured webhook |
| Checkin.NotificationDoesNotAffectStore | server/index.js:79-95 | the webhook configuration changes neither the store nor the returned state |
| Assignment.SelectLocked | server/index.js:115-123 | none exactly when no student is locked; otherwise a locked student whose id is at least every locked student's id |
| Assignment.DescriptionOrDefault | server/index.js:128 | a missing or empty description becomes 'Check email for details'; any other is kept |
| Assignment.AssignIntervention | server/index.js:109-138 | refused with NoLockedStudent exactly when nobody is locked; otherwise the latest locked student gets a fresh assigned intervention with the given title and defaulted description, becomes remedial pointing at it, and nothing else changes |
| Completion.CompleteIntervention | server/index.js:147-168 | refused with NoActiveIntervention exactly for an unknown student or a null/0 reference; otherwise the referenced intervention becomes completed, the student becomes normal with no reference, and nothing else changes |
| Server.Step | server/index.js:46-173 | the state route answers 404 exactly for an unknown student and otherwise the composite state; check-in, assignment and completion install their handler's store and answer with its state, and assignment and completion answer 400 exactly when their handler refuses, carrying that handler's error (no locked student, no active intervention); error responses and reads change nothing; only a failing check-in with a configured webhook adds to the outbox, and exactly its payload; the log only grows, by one row per check-in |
| Server.StepNotifiesFailures | server/index.js:67-95 | with a configured webhook, the notifications one step emits are those its new failed log rows call for; without one, none |
| Server.RunNotifiesFailures | server/index.js:67-95 | over any run the log keeps its prefix; with a configured webhook the outbox grows by one notification per failed check-in logged, in order, and without one it does not grow |
| Server.RunWithoutWebhookSendsNothing | server/index.js:80 | with no webhook configured no notification is ever emitted (a corollary of RunNotifiesFailures) |
| Invariant.AssignPreservesConsistency | server/index.js:126-135 | a successful assignment keeps the reference/remedial invariant |
| Invariant.CompletePreservesConsistency | server/index.js:157-166 | a successful completion keeps the invariant |
| Invariant.CheckinConsistentIffNotRemedial | server/index.js:74-77 | from a consistent store, a check-in keeps the invariant if and only if the student is unknown or not remedial |
| Invariant.CompleteAcceptsExactlyRemedial | server/index.js:150-154 | under the invariant, completion succeeds exactly for remedial students |
| Invariant.StateShowsInterventionIffRemedial | server/index.js:30-37 | under the invariant, the read shows an intervention exactly for a remedial student, and it is assigned |
| Invariant.StepPreservesConsistency | server/index.js:46-173 | every request except a check-in of a remedial student keeps the invariant |
| Invariant.RunPreservesConsistency | server/index.js:46-173 | the invariant holds after any run of such requests |
| Scenarios.Lifecycle | server/index.js:59-168 | normal, fail (5,30), locked with one failed log, assign "Read Ch.1", remedial with that task, complete, normal with the task completed and the reference cleared |
| Scenarios.HighestLockedWins | server/index.js:115-128 | with students 3 and 7 locked, 7 is selected and an empty description is defaulted |
| Scenarios.CompleteWithoutInterventionRefused | server/index.js:150-154 | completion for a normal or an unknown student is refused |

## Left out

- HTTP plumbing: the Express app, CORS, body parsing, the route wiring and `app.listen` (server/index.js:1-17, 175-176).
- SQL and the database driver: the tables are maps and a sequence. Each handler is one atomic transition. The non-atomic interleaving of concurrent requests is not modelled.
- Store failures: the 500 responses, and `getStudentState` turning a query error into `null` (server/index.js:40-43), are I/O error handling.
- The webhook HTTP call, its promise chain and its logging (server/index.js:81-94): only the emitted notification is modelled, as an entry in the outbox. The URL is reduced to whether one is configured.
- JavaScript number semantics: scores and minutes are integers. Floats, NaN and string coercion in `>` are not modelled. Student ids are naturals, not the URL strings the route receives.
- The `created_at` timestamp of a log row.
- Intervention ids are assumed to come from a sequence that starts at 1 and only hands out ids above every existing one (`Store.Sequenced`). The table schema is not part of this model. A row inserted with an explicit id, in particular id 0 (which the read's truthiness test would hide), is not modelled.
- Assignment.AssignIntervention: the title is a string. A missing `task_title` stored as NULL is not modelled. The description fallback covers only a missing or empty string, not other falsy JSON values.
- The client page `client/src/App.jsx`: rendering and fetch calls only.
- Idempotence of the read needs no lemma, because `GetStudentState` is a function of the store.
