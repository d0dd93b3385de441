# local_credentium in Dafny

A model of the logic at the centre of the Moodle plugin local_credentium. The plugin issues
a digital credential to a learner who completes a course, by calling the Credentium API.
The model covers four parts of the plugin.

- **The issuance task** (`issue_credential`, an adhoc task). One run takes a row of the
  issuances table and moves it along pending → retrying* → issued | failed. On the way it
  checks the configuration, the operational holds (a paused category, the per-category
  hourly rate limit) and, when the course sends grades, whether the learner's grade is fresh
  enough to trust. A grade that is not fresh waits on a fixed five-step ladder. An API error
  is retried on an exponential ladder. Both ladders use the one `attempts` counter.
- **Configuration resolution** (`lib.php`). The walk goes up the category tree for at most
  ten categories and stops at the first enabled category config. The result is then merged
  with the course-level settings. The course and category configs are saved as upserts.
- **Issuance creation** (`observer::course_completed`). A completion event passes a chain of
  guards. The observer then inserts a pending row and queues exactly one task for it.
- **Retention cleanup** (`cleanup_old_issuances`). Rows created before now minus the
  retention period are deleted, whatever their status.

Files, in dependency order:

| file | contents |
|---|---|
| `common.dfy` | `Option`, and PHP's `empty()` on strings (`Blank`) and on integers (`SetInt`) |
| `records.dfy` | the issuance row, statuses, error codes, adhoc tasks, task-manager requests, side effects |
| `store.dfy` | `Site`: the issuances table with its auto-increment id, the task-manager calls made, the side effects emitted |
| `policy.dfy` | the two delay ladders, the total-wait sum, the freshness oracle, the regrade decision, the rate limit |
| `config.dfy` | category and course config resolution, and `ConfigStore` with the two save upserts |
| `issue_credential.dfy` | `Step`, one run as a function of the row and its inputs; `Execute`, the run done imperatively on a `Site`, proved equal to `Step` |
| `issue_credential_props.dfy` | the route a run takes, per-route and invariant lemmas about `Step`, and multi-run replays of both ladders |
| `observer.dfy` | `CourseCompleted` and the lemmas about what it creates |
| `cleanup.dfy` | `CleanupOldIssuances` and the lemmas about what it deletes |

Everything outside the plugin is passed in as a value:

- whether the user and course rows exist;
- the resolved configuration;
- the course-wide needs-regrade flag as `maybe_regrade_course` reads it, before the regrade;
- the gradebook as `check_grade_freshness` reads it, after the optional regrade: the grade
  item, its own needs-update flag, the learner's grade row, and the course-wide flag read again;
- how the API part ends: a credential id, an exception from the client or the call, or an
  exception from the issued event or the success message after the row was written issued;
- the clock (`now`);
- the category tree, as a map from category id to parent id.

Host side effects are recorded in order as values on the `Site`. They are: a forced regrade,
the issued and failed events, and the message to the learner. Calls to the task manager are
recorded the same way.

### Where the code and its documentation differ (the model follows the code)

- **A failed row is not final.** Only `issued` stops a run. A run on a `failed` row goes
  through every check again and can end `issued` (`IssueCredentialProperties.StatusAfterRun`).
- **The 1200-second API delay is never used.** An API retry happens only while the
  incremented counter is below 3. So the only delays used are 300s and 600s, although the
  formula also yields 1200s, 2400s and 3600s (`IssueCredentialProperties.ApiRetryWaits`).
- **GRADE_TIMEOUT comes on the sixth run.** The grade wait retries while `attempts < 5`.
  A grade that never arrives is therefore re-checked five times, and the sixth run fails
  with attempts 5 and a total wait of 2655s (`GradeTimeoutAfterSixRuns`).
- **The two ladders share one counter.** After two grade waits, a fresh grade whose API call
  fails is failed at once, with no API retry (`GradeWaitsUseUpApiRetries`).
- **The observer takes no lock.** Its only duplicate check is for an existing *issued* row
  for the same user and course. A second completion event while the first row is still
  pending, retrying or failed creates a second row (`Observer.UnissuedRowDoesNotBlock`).
- **The observer never sets `timecompleted`.** The freshness check therefore compares against
  `timecreated`, through the task's `timecompleted ?? timecreated` fallback.
- **Retry tasks are built differently from the observer's task.** The comment on
  `schedule_retry` says its task must match the observer's task exactly. In the code, the
  retry task sets user 0 and component `local_credentium`, and the observer's task sets
  neither. The paused, rate-limit and API-retry tasks set neither as well. Whether the task
  manager fills these in, and so treats the tasks as one, is host behaviour that is not part
  of this model (`Observer.InitialAndRetryTasksShareCustomData`).
- **An exception after the issued write undoes the issue in the table only.** The `try`
  block writes the row issued, then triggers the issued event and sends the success message.
  If either throws, the handler marks the row retrying (or failed at three attempts) with
  API_ERROR. The row keeps the credential id and issue time, and a retry calls the API again,
  so one completion can yield two credentials
  (`IssueCredentialProperties.FaultAfterIssueIssuesTwice`).
- **The regrade happens between two readings of the gradebook.** `maybe_regrade_course`
  reads the course-wide flag before regrading, and `check_grade_freshness` reads it again
  afterwards. A later run on a course that was dirty before the regrade and is clean after it
  accepts even an old grade (GRADEBOOK_SETTLED) and calls the API
  (`IssueCredentialProperties.RegradeThenSettled`). For a missing grade (NO_GRADE) the check
  reports the grade item's own flag, not the course-wide one.

## Model

| member | source | states |
|---|---|---|
| Policy.GradeRetryDelay | classes/task/issue_credential.php:172-174 | the grade-wait delay is a ladder entry: entry `attempts` below five, the last entry (1800s) from then on |
| Policy.CalculateTotalWait | classes/task/issue_credential.php:589-597 | the accumulating loop returns the ladder sum over the first `attempts` steps (`TotalWait`) |
| Policy.TotalWaitValues | classes/task/issue_credential.php:34-38 | the total wait is 0 after no step, 2655s after the five-step ladder, and 1800s more per further step |
| Policy.TotalWaitMonotone | classes/task/issue_credential.php:589-597 | the total wait never shrinks, and grows by at least 15s per step |
| Policy.ApiRetryDelay | classes/task/issue_credential.php:335 | an API retry waits between 300s and 3600s |
| Policy.ApiRetryDelayValues | classes/task/issue_credential.php:335 | the API ladder is 300, 600, 1200, 2400 and then 3600 from the fifth attempt on |
| Policy.ApiRetryDelayMonotone | classes/task/issue_credential.php:335 | a later API retry never waits less than an earlier one |
| Policy.CheckGradeFreshness | classes/task/issue_credential.php:499-581 | NO_GRADE_ITEM exactly when there is no grade item; NO_GRADE exactly when the final grade is missing, and then it reports the grade item's own needs-update flag; with a final grade it reports the course-wide flag read after the regrade; a fresh verdict carries the final grade; fresh exactly for the reasons TIMEMODIFIED_FRESH and GRADEBOOK_SETTLED |
| Policy.FreshnessCharacterised | classes/task/issue_credential.php:538-580 | a grade is accepted exactly when it exists and was written no earlier than 60s before completion, or the gradebook is clean on a later run; a rejected existing grade is GRADEBOOK_NEEDS_UPDATE when the gradebook is dirty, TIMEMODIFIED_STALE_FIRST_RUN otherwise |
| Policy.FreshnessBoundary | classes/task/issue_credential.php:539-540 | the tolerance is inclusive: 60s before completion is fresh; 61s before is fresh only on a later run over a clean gradebook |
| Policy.ShouldRegrade | classes/task/issue_credential.php:458-475 | a regrade needs a grade item; it always happens on the first execution when there is one; later it happens exactly when the course-wide flag, read before the regrade, says the gradebook needs it |
| Policy.RecentIssued | classes/task/issue_credential.php:421-442 | the rate-limit query counts exactly the issued rows in the same category bucket (none only with none) issued in the last hour |
| Policy.RateLimitBoundary | classes/task/issue_credential.php:425-447 | with one credential short of the limit issued in the window the run goes on; adding one issued row in the bucket and window makes the check fail; adding a row that does not count leaves it passing |
| Policy.IssuedRowCounts | classes/task/issue_credential.php:425-442 | a new issued row in the same bucket and window raises the count by one |
| Policy.OtherRowsDoNotCount | classes/task/issue_credential.php:425-442 | a row of another bucket, not issued, or issued before the window leaves the count unchanged |
| Config.GlobalResolution | lib.php:251-268 | the global record has no category, the global credentials, no pause and no rate limit |
| Config.WinnerResolution | lib.php:307-336 | an enabled category with both credentials yields its own row; otherwise the global credentials with its pause flag, rate limit and id |
| Config.Chain | lib.php:295-346 | the categories examined: at most ten, starting at the course's category, each the positive parent of the last, each with a category record |
| Config.ChainEnds | lib.php:295-346 | the chain is empty exactly when no category can be examined; a chain shorter than ten ends at a category whose parent is not positive or has no record |
| Config.FirstEnabled | lib.php:304-307 | the index of the first category on the chain with an enabled config, and none before it is enabled |
| Config.WalkIsFirstEnabledOnChain | lib.php:304-363 | the interleaved walk equals "list the examined categories, take the first enabled one, else the global record" |
| Config.ResolvedCategoryIsFirstEnabled | lib.php:247-364 | a resolved category id is the first enabled category among at most ten ancestors (category mode on, course not at site level); otherwise the result is the global record |
| Config.StoreKeyedByCategory | lib.php:216-239 | the category table of a valid store holds each row under its own category id, which the first-enabled result needs |
| Config.ResolveCourse | lib.php:376-408 | none exactly for a missing or disabled course row; otherwise the course row with credentials, pause, rate limit and category id all from category resolution |
| Config.ConfigStore.IsEnabledForCourse | lib.php:131-138 | false whenever the plugin is off; otherwise true exactly when the course row exists and is enabled |
| Config.EnabledIffResolves | lib.php:121-138 | a course is enabled exactly when the plugin is on and resolution yields a configuration |
| Config.ConfigStore.SaveCourseConfig | lib.php:85-114 | upsert on the course id: an existing row keeps its id and creation time and gets the new settings and modification time; otherwise one row with a fresh id and creation = modification time; at most one row per course |
| Config.ConfigStore.SaveCategoryConfig | lib.php:216-239 | the same upsert on the category id |
| Config.ConfigStore.ResolveCategoryConfig | lib.php:247-364 | the while loop over the category tree returns `ResolveCategory`; on a valid store, a resolved category id is the first enabled category on the chain of at most ten, and a result without one is the global record |
| Config.ConfigStore.ResolveCourseConfig | lib.php:376-408 | the merge returns `ResolveCourse` |
| IssueCredential.MarkFailed | classes/task/issue_credential.php:361-379 | the row becomes failed with the code, message and time; the failure event is emitted, then the learner's message when user and course are known |
| IssueCredential.ScheduleRetry | classes/task/issue_credential.php:612-636 | the counter goes up by one, the row becomes retrying, and one reschedule-or-queue request is made with user 0, the component and the delay |
| IssueCredential.MaybeRegradeCourse | classes/task/issue_credential.php:458-475 | a regrade is forced exactly when `ShouldRegrade` says so on the pre-regrade flag, and nothing else is emitted |
| IssueCredential.RunGradeVerdict | classes/task/issue_credential.php:157-196 | the grade gate's three outcomes (fail, wait, go on to the API) leave the table, requests and effects that `GradeVerdict` describes |
| IssueCredential.RunGradeStage | classes/task/issue_credential.php:133-215 | the regrade followed by the verdict leaves what `GradeStage` describes |
| IssueCredential.RunApiStage | classes/task/issue_credential.php:217-349 | the counter goes up once; the outcome of the `try` block (success, an exception from the client or call, or an exception after the issued write) is recorded as `ApiStage` describes |
| IssueCredential.HandleApiError | classes/task/issue_credential.php:282-348 | the exception handler, after the counter has gone up: below three attempts the row becomes retrying with API_ERROR and the message and one task is queued after the API delay; otherwise the row is failed with API_ERROR as `mark_failed` does |
| IssueCredential.Execute | classes/task/issue_credential.php:46-350 | a missing issuance id or row changes nothing; otherwise the row, the requests and the effects end as `Step` describes, and no other row changes |
| IssueCredentialProperties.StatusAfterRun | classes/task/issue_credential.php:69-349 | the status after a run, per route: unchanged when already issued or on hold; failed on a configuration error or a grade rejection; retrying on a grade wait; issued, retrying or failed after the API by its outcome and the counter; a successful call stores the API's credential id and the issue time and clears the error fields; a failed row is not final |
| IssueCredentialProperties.ErrorCodeNamesCause | classes/task/issue_credential.php:78-91 | a failed run's error code names its cause (USER_OR_COURSE_NOT_FOUND, COURSE_CONFIG_NOT_FOUND, NO_GRADE_ITEM, GRADE_TIMEOUT, API_ERROR) and the modification time is set; fatal checks before the API leave the counter unchanged |
| IssueCredentialProperties.AttemptsCountExecutions | classes/task/issue_credential.php:217-220 | the counter grows by exactly one on a grade wait or an API call and stays the same on every other route |
| IssueCredentialProperties.FollowUpRequest | classes/task/issue_credential.php:102-127 | a follow-up is requested exactly on a hold, a grade wait or an API failure with retries left; it is for the same issuance and category and runs later; only the grade wait uses reschedule-or-queue |
| IssueCredentialProperties.HoldLeavesRecord | classes/task/issue_credential.php:102-127 | a hold leaves the row untouched, emits nothing and queues one task at now+3600 (paused) or now+600 (rate limited) |
| IssueCredentialProperties.GradeWaitLadder | classes/task/issue_credential.php:170-176 | a grade wait happens only below five attempts; it makes the row retrying with one more attempt and reschedules at the ladder's delay, emitting at most the regrade |
| IssueCredentialProperties.GradeTimeoutReport | classes/task/issue_credential.php:177-187 | the grade timeout comes at five attempts or more and reports the attempts, the total wait over them, the reason, the grade time, the completion time and the needs-update flag; nothing is queued |
| IssueCredentialProperties.RegradeExactlyWhenDecided | classes/task/issue_credential.php:133-141 | a run forces a regrade exactly when it reaches the grade gate and `maybe_regrade_course` decides to, and the regrade is then its first effect |
| IssueCredentialProperties.RegradeThenSettled | classes/task/issue_credential.php:463-570 | a later run on a course dirty before the regrade and clean after it regrades first, accepts the grade (GRADEBOOK_SETTLED when it is older than the tolerance) and calls the API |
| IssueCredentialProperties.FaultAfterIssueKeepsCredential | classes/task/issue_credential.php:264-348 | an exception after the issued write leaves the row retrying or failed with API_ERROR and the message, but holding the credential id and issue time; the issued event is emitted exactly when it did not throw, the success message never |
| IssueCredentialProperties.ApiRetryWaits | classes/task/issue_credential.php:326-344 | an API retry happens only at one or two attempts so far, records API_ERROR with the exception's message, and queues at now+300 or now+600 |
| IssueCredentialProperties.EventsMatchOutcome | classes/task/issue_credential.php:272-378 | the issued event comes when the row was written issued and the event did not throw, the success message only when the whole block completed; a failure event comes exactly with a failure; the learner is told of a failure only on a missing grade item, a grade timeout or a final API error, never when the user, course or course configuration is missing |
| IssueCredentialProperties.MarkedFailedAnnounces | classes/task/issue_credential.php:370-378 | `mark_failed` emits a failure event, no issue, and the learner's message exactly when asked to |
| IssueCredentialProperties.ApiStageAnnounces | classes/task/issue_credential.php:270-348 | the API part emits the issued event unless the call threw or the event itself threw, the success message only on full success, and the failure announcements exactly when the block threw with no retry left |
| IssueCredentialProperties.ApiCaughtAnnounces | classes/task/issue_credential.php:326-348 | the exception handler announces nothing on a retry, and the failure event and the learner's message when no retry is left |
| IssueCredentialProperties.IdentityPreserved | classes/task/issue_credential.php:46-350 | a run never changes the row's id, user, course, template, category, creation time or completion time |
| IssueCredentialProperties.GradeKept | classes/task/issue_credential.php:194-196 | a stored grade is never cleared; an issue through the grade gate carries the final grade the gate read |
| IssueCredentialProperties.StepKeepsWellFormed | classes/task/issue_credential.php:264-270 | every run keeps the row invariants: issued rows have a credential id and issue time and no error; failed rows have an error; pending rows have no attempts; retrying rows have some; a row still pending after a run is unchanged |
| IssueCredentialProperties.GradeNeverReady | classes/task/issue_credential.php:170-176 | k runs without a grade move k rungs up the grade ladder; the delays requested add up to the ladder sum `calculate_total_wait` reports |
| IssueCredentialProperties.GradeTimeoutAfterSixRuns | classes/task/issue_credential.php:170-188 | a new row whose grade never arrives waits 2655s over five runs and fails on the sixth with GRADE_TIMEOUT, five attempts and a reported total of 2655s |
| IssueCredentialProperties.ThreeApiFailures | classes/task/issue_credential.php:326-348 | three failing API calls retry after 300s and 600s and then fail the row with API_ERROR at three attempts |
| IssueCredentialProperties.GradeWaitsUseUpApiRetries | classes/task/issue_credential.php:327 | at two or more attempts, an API failure fails the row at once with API_ERROR and queues nothing |
| IssueCredentialProperties.ReplaySplit | classes/task/issue_credential.php:46-350 | a replay extended by one run is that run on the replay's result |
| IssueCredentialProperties.FaultAfterIssueIssuesTwice | classes/task/issue_credential.php:264-348 | on a first execution, an exception after the issued write leaves the row retrying with the first credential id; the retry calls the API again and issues the row under the second credential id |
| Observer.NewIssuance | classes/observer.php:93-109 | the new row is pending with no attempts, with template and category from the configuration, creation = modification time, the event-time course grade or none, and no completion time, credential or error |
| Observer.InitialTask | classes/observer.php:113-123 | the task's custom data is the row's id and category; no user or component is set; a delay exists exactly when grades are sent and none is known, and it is 30s |
| Observer.CourseCompleted | classes/observer.php:31-126 | when every guard passes, one row is inserted under the next id and one task queued for it; otherwise nothing changes |
| Observer.IssuedBlocksCreation | classes/observer.php:70-79 | an issued row for the learner and course stops the creation |
| Observer.UnissuedRowDoesNotBlock | classes/observer.php:70-79 | adding a row that is not issued does not change whether the observer creates one |
| Observer.NewIssuanceWellFormed | classes/observer.php:93-101 | the new row meets the row invariants every run keeps |
| Observer.InitialAndRetryTasksShareCustomData | classes/observer.php:113-118 | the observer's and the retry's tasks carry the same custom data but differ in user and component |
| Observer.FirstRunOfNewRowWaits | classes/observer.php:93-125 | the first run of a new row that sends grades and has none yet waits 15s through reschedule-or-queue and leaves the row retrying with one attempt |
| Cleanup.RetentionPeriod | credentium/classes/task/cleanup_old_issuances.php:57-63 | the configured period, or 365 days (31536000s) when the setting is empty |
| Cleanup.CleanupOldIssuances | credentium/classes/task/cleanup_old_issuances.php:53-98 | the table keeps exactly the rows created at or after now minus the retention period; nothing else changes |
| Cleanup.DeletesExactlyTheOld | credentium/classes/task/cleanup_old_issuances.php:73-89 | the rows removed are exactly those created before the cutoff, whatever their status; the others stay as they were |
| Cleanup.CutoffIsExclusive | credentium/classes/task/cleanup_old_issuances.php:66-76 | a row created exactly at the cutoff is kept; one a second earlier is deleted |
| Cleanup.NothingOldNothingDeleted | credentium/classes/task/cleanup_old_issuances.php:78-81 | when the count of old rows is zero the table is already what the delete would leave |
| Cleanup.CleanupIdempotent | credentium/classes/task/cleanup_old_issuances.php:86-89 | a second run at the same time deletes nothing more |
| Cleanup.LaterCutoffKeepsLess | credentium/classes/task/cleanup_old_issuances.php:66 | a later cutoff keeps only rows an earlier one kept |

## Left out

- Logging (`mtrace`, `local_credentium_log`) and all message texts. The grade-timeout message
  is kept as the values it is formatted from (`GradeNotReady`). The minutes shown in it
  (`round($totalwait / 60)`) are not modelled.
- Grade percentage formatting and the gradepass warning. These are floating-point display
  and logging; the grade is an opaque number.
- The API client. Its answer is a parameter: a credential id, or a failure with a message.
  A failure while the client is being constructed is caught by the same handler, so it is
  the same failure. The completion date and grade sent with the request are not modelled.
- IssueCredential.RunApiStage: the API outcome is not tied to the credentials. The client
  always throws on an invalid URL (classes/api/client.php:51-52) or a blank URL or key (classes/api/client.php:118-119),
  but the model also admits a success with such a configuration. This over-approximates the
  source: every property proved holds for each outcome.
- An exception thrown inside the exception handler itself (by `mark_failed`'s event or
  message) or by the grade-gate code leaves `execute` and goes to the task manager. The model
  does not model that path.
- The two gradebook readings of a run are independent inputs. The model does not tie the
  reading after the regrade to the one before it, which over-approximates what the gradebook
  can do between them. Whether the course has a grade item is one input, read by both functions.
- The regrade itself, the event classes and `message_send`. They are recorded as effects in
  order; what the host then does with them is not modelled.
- How the host task manager treats the requests. This covers task consumption, de-duplication
  by reschedule-or-queue, and whether it fills in a missing user or component. Requests are
  recorded as calls.
- `process_pending_credentials`, which queues plain tasks in bulk.
- IssueCredential.Execute: the existence checks on the user and course rows are one boolean
  input. The course's category is an input too, where lib.php reads it with MUST_EXIST.
- IssueCredential.Execute: `update_record` writes the whole PHP object, and the model writes
  the whole row. Fields the PHP object does not carry are not modelled.
- Config.ConfigStore.ResolveCategoryConfig: the static per-request cache is not modelled. It
  only saves queries within one request.
- Config.ConfigStore.SaveCategoryConfig: the API key is encrypted before storage and
  decrypted on reading (`\core\encryption`). This is a foreign call, and the model stores
  the key as given.
- The manual reset of a row to pending on the admin page (index.php). It is a page action,
  not part of the task, the observer or the cleanup.
- Concurrency between task runs and completion events. Each run is atomic in the model.
- `time()` is the `now` parameter. A run reads it once, where PHP may read it several times
  within one run.
- The pages and forms, the privacy provider, the upgrade steps, capabilities and language
  strings.
