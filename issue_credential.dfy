/**
 * One execution of the issue_credential adhoc task: the state machine that moves an issuance
 * record from pending through retrying to issued or failed.
 *
 * `Step` states what one run does to the record, which call it makes to the task manager and
 * which side effects it emits; `Execute` is the run itself, changing the record step by step
 * in the issuances table of a `Site`, and is proved to do what `Step` says.
 */
module IssueCredential {
  import opened Common
  import opened Records
  import opened Policy
  import opened Config
  import opened Store

  /**
   * How the `try` block around the API call ends: the call returns a credential id and the
   * rest of the block completes; the client or the call throws, with the exception's message;
   * or the call returns a credential id, the row is written issued, and then the issued
   * event (`eventTriggered` false) or the success message (`eventTriggered` true) throws.
   */
  datatype ApiOutcome =
    | ApiSuccess(credentialId: string)
    | ApiFailure(message: string)
    | FaultAfterIssue(credentialId: string, eventTriggered: bool, message: string)

  /**
   * What a run reads from outside the issuance record: whether the user and course rows exist,
   * the resolved course configuration, the course-wide needs-regrade flag as
   * `maybe_regrade_course` reads it before regrading, the gradebook as `check_grade_freshness`
   * reads it after the optional regrade, how the API part ends, and the clock.
   */
  datatype RunEnv = RunEnv(userAndCourseFound: bool, config: Option<EffectiveConfig>,
                           needsRegrade: bool, grade: GradeSnapshot, api: ApiOutcome, now: int)

  /** The effect of one run: the record as last written, the task-manager call if any, the side effects in order. */
  datatype Outcome = Outcome(record: Issuance, request: Option<TaskRequest>, effects: seq<Effect>)

  // ---------------------------------------------------------------- the follow-up tasks

  /** The task queued by the paused, rate-limited and API-error paths: custom data only, like the observer's. */
  function PlainTask(iss: Issuance, runAt: int): AdhocTask {
    AdhocTask(iss.id, iss.categoryid, None, None, Some(runAt))
  }

  /** The task `schedule_retry` hands to reschedule-or-queue: the same custom data, user 0 and the plugin's component. */
  function RetryTask(iss: Issuance, runAt: int): AdhocTask {
    AdhocTask(iss.id, iss.categoryid, Some(0), Some(Component), Some(runAt))
  }

  // ---------------------------------------------------------------- one run, as a function

  /** `mark_failed`: the record as it is written, then the failure event and, when the learner is known, the failure message. */
  function MarkedFailed(iss: Issuance, code: ErrorCode, message: ErrorMessage, notify: bool, now: int): Outcome
  {
    Outcome(iss.(status := Failed, errorcode := Some(code), errormessage := Some(message), timemodified := now),
            None,
            [CredentialFailedEvent(iss.id, message)] +
            (if notify then [Notified(iss.userid, iss.courseid, false)] else []))
  }

  /** The same outcome, after the side effects `pre`. */
  function After(pre: seq<Effect>, o: Outcome): Outcome {
    o.(effects := pre + o.effects)
  }

  /** The grade gate, run when the configuration sends grades: the optional regrade, then the verdict on the grade. */
  function GradeStage(iss: Issuance, cfg: EffectiveConfig, env: RunEnv): Outcome
  {
    var executionnum := iss.attempts + 1;
    var regrade := if ShouldRegrade(executionnum, env.grade.hasItem, env.needsRegrade) then [Regraded(iss.courseid, iss.userid)] else [];
    var timecompleted := iss.timecompleted.GetOr(iss.timecreated);
    After(regrade, GradeVerdict(iss, CheckGradeFreshness(env.grade, timecompleted, executionnum), timecompleted, env))
  }

  /** What the grade gate does with the freshness verdict `check`: fail, wait for the gradebook, or go on to the API. */
  function GradeVerdict(iss: Issuance, check: GradeCheck, timecompleted: int, env: RunEnv): Outcome
  {
    if check.reason == NoGradeItem then
      MarkedFailed(iss, MissingGradeItem,
                   Text("No course grade item exists for this course. Cannot send grade with credential."),
                   true, env.now)
    else if !check.isFresh then
      if iss.attempts < MaxGradeAttempts then
        Outcome(iss.(attempts := iss.attempts + 1, status := Retrying, timemodified := env.now),
                Some(RescheduleOrQueue(RetryTask(iss, env.now + GradeRetryDelay(iss.attempts)))),
                [])
      else
        MarkedFailed(iss, GradeTimeout,
                     GradeNotReady(iss.attempts, TotalWait(iss.attempts), check.reason,
                                   check.timemodified, timecompleted, check.needsUpdate),
                     true, env.now)
    else
      ApiStage(iss.(grade := check.grade, timemodified := env.now), env)
  }

  /** The row as the success path writes it: issued under `credentialId` at `now`, its error fields cleared. */
  function IssuedRecord(iss: Issuance, credentialId: string, now: int): Issuance {
    iss.(credentialid := Some(credentialId), status := Issued, timeissued := Some(now),
         errorcode := None, errormessage := None)
  }

  /** The exception handler of the API part: retry while the counter is below three, else fail the row. */
  function ApiCaught(issuance: Issuance, msg: string, now: int): Outcome
    requires issuance.attempts >= 1
  {
    if issuance.attempts < MaxApiAttempts then
      Outcome(issuance.(status := Retrying, errorcode := Some(ApiError), errormessage := Some(Text(msg))),
              Some(Queue(PlainTask(issuance, now + ApiRetryDelay(issuance.attempts)))),
              [])
    else
      MarkedFailed(issuance, ApiError, Text(msg), true, now)
  }

  /** The attempt count goes up once, then the API is called inside the `try` block. */
  function ApiStage(iss: Issuance, env: RunEnv): Outcome
  {
    var issuance := iss.(attempts := iss.attempts + 1, timemodified := env.now);
    match env.api
    case ApiSuccess(cid) =>
      Outcome(IssuedRecord(issuance, cid, env.now),
              None,
              [CredentialIssuedEvent(issuance.id), Notified(issuance.userid, issuance.courseid, true)])
    case ApiFailure(msg) =>
      ApiCaught(issuance, msg, env.now)
    case FaultAfterIssue(cid, eventTriggered, msg) =>
      After(if eventTriggered then [CredentialIssuedEvent(issuance.id)] else [],
            ApiCaught(IssuedRecord(issuance, cid, env.now), msg, env.now))
  }

  /** One run of the task on `iss`, the row stored in `rows` under its id. */
  function Step(rows: map<int, Issuance>, iss: Issuance, env: RunEnv): Outcome
  {
    if iss.status == Issued then Outcome(iss, None, [])
    else if !env.userAndCourseFound then
      MarkedFailed(iss, UserOrCourseNotFound, Text("User or course not found"), false, env.now)
    else if env.config.None? then
      MarkedFailed(iss, CourseConfigNotFound, Text("Course configuration not found"), false, env.now)
    else
      var cfg := env.config.value;
      if cfg.paused then
        Outcome(iss, Some(Queue(PlainTask(iss, env.now + PausedDelay))), [])
      else if SetInt(cfg.ratelimit) && !CheckRateLimit(rows, cfg.categoryid, cfg.ratelimit.value, env.now) then
        Outcome(iss, Some(Queue(PlainTask(iss, env.now + RateLimitedDelay))), [])
      else if cfg.Settings().sendgrade then GradeStage(iss, cfg, env)
      else ApiStage(iss, env)
  }

  function RequestList(r: Option<TaskRequest>): seq<TaskRequest> {
    match r
    case None => []
    case Some(t) => [t]
  }

  // ---------------------------------------------------------------- one run, imperatively

  /** `mark_failed`: set the failure fields, write the row, trigger the event, notify the learner if known. */
  method MarkFailed(site: Site, issuance: Issuance, code: ErrorCode, message: ErrorMessage, notify: bool, now: int)
    requires site.Valid() && issuance.id in site.issuances
    modifies site
    ensures site.Valid()
    ensures var o := MarkedFailed(issuance, code, message, notify, now);
            && site.issuances == old(site.issuances)[issuance.id := o.record]
            && site.effects == old(site.effects) + o.effects
            && site.requests == old(site.requests) && site.nextId == old(site.nextId)
  {
    var failed := issuance.(status := Failed, errorcode := Some(code), errormessage := Some(message),
                            timemodified := now);
    site.UpdateRecord(failed);
    site.Emit(CredentialFailedEvent(issuance.id, message));
    if notify {
      site.Emit(Notified(issuance.userid, issuance.courseid, false));
    }
  }

  /** `schedule_retry`: count the execution, mark the row retrying, and reschedule-or-queue the task after `delay`. */
  method ScheduleRetry(site: Site, issuance: Issuance, reason: Reason, delay: int, now: int)
    requires site.Valid() && issuance.id in site.issuances
    modifies site
    ensures site.Valid()
    ensures var retried := issuance.(attempts := issuance.attempts + 1, status := Retrying, timemodified := now);
            && site.issuances == old(site.issuances)[issuance.id := retried]
            && site.requests == old(site.requests) + [RescheduleOrQueue(RetryTask(retried, now + delay))]
            && site.effects == old(site.effects) && site.nextId == old(site.nextId)
  {
    var retried := issuance.(attempts := issuance.attempts + 1, status := Retrying, timemodified := now);
    site.UpdateRecord(retried);
    site.RescheduleOrQueueAdhocTask(RetryTask(retried, now + delay));
  }

  /** `maybe_regrade_course`. */
  method MaybeRegradeCourse(site: Site, courseid: int, userid: int, executionnum: int, hasItem: bool, dirty: bool)
    returns (regraded: bool)
    modifies site`effects
    ensures regraded == ShouldRegrade(executionnum, hasItem, dirty)
    ensures site.effects == old(site.effects) + (if regraded then [Regraded(courseid, userid)] else [])
  {
    if executionnum > 1 && !dirty {
      return false;
    }
    if hasItem {
      site.Emit(Regraded(courseid, userid));
      return true;
    }
    return false;
  }

  /** The grade gate of `execute`, run when the configuration sends grades. */
  method RunGradeStage(site: Site, issuance: Issuance, courseconfig: EffectiveConfig, env: RunEnv)
    requires site.Valid() && issuance.id in site.issuances
    modifies site
    ensures site.Valid()
    ensures var o := GradeStage(issuance, courseconfig, env);
            && site.issuances == old(site.issuances)[issuance.id := o.record]
            && site.requests == old(site.requests) + RequestList(o.request)
            && site.effects == old(site.effects) + o.effects
            && site.nextId == old(site.nextId)
  {
    var executionnum := issuance.attempts + 1;
    var regraded := MaybeRegradeCourse(site, issuance.courseid, issuance.userid, executionnum, env.grade.hasItem,
                                       env.needsRegrade);
    var timecompleted := issuance.timecompleted.GetOr(issuance.timecreated);
    var gradecheck := CheckGradeFreshness(env.grade, timecompleted, executionnum);
    ghost var regrade := if regraded then [Regraded(issuance.courseid, issuance.userid)] else [];
    ghost var v := GradeVerdict(issuance, gradecheck, timecompleted, env);
    assert GradeStage(issuance, courseconfig, env) == After(regrade, v);
    assert site.effects == old(site.effects) + regrade;
    RunGradeVerdict(site, issuance, gradecheck, timecompleted, env);
    assert site.effects == old(site.effects) + (regrade + v.effects);
  }

  /** The verdict part of the grade gate: fail on a missing grade item, wait while the grade is not fresh, else issue. */
  method RunGradeVerdict(site: Site, issuance: Issuance, gradecheck: GradeCheck, timecompleted: int, env: RunEnv)
    requires site.Valid() && issuance.id in site.issuances
    modifies site
    ensures site.Valid()
    ensures var o := GradeVerdict(issuance, gradecheck, timecompleted, env);
            && site.issuances == old(site.issuances)[issuance.id := o.record]
            && site.requests == old(site.requests) + RequestList(o.request)
            && site.effects == old(site.effects) + o.effects
            && site.nextId == old(site.nextId)
  {
    if gradecheck.reason == NoGradeItem {
      MarkFailed(site, issuance, MissingGradeItem,
                 Text("No course grade item exists for this course. Cannot send grade with credential."),
                 true, env.now);
      return;
    }
    if !gradecheck.isFresh {
      if issuance.attempts < MaxGradeAttempts {
        var delay := GradeRetryDelay(issuance.attempts);
        ScheduleRetry(site, issuance, gradecheck.reason, delay, env.now);
      } else {
        var totalwait := CalculateTotalWait(issuance.attempts);
        MarkFailed(site, issuance, GradeTimeout,
                   GradeNotReady(issuance.attempts, totalwait, gradecheck.reason, gradecheck.timemodified,
                                 timecompleted, gradecheck.needsUpdate),
                   true, env.now);
      }
      return;
    }
    var graded := issuance.(grade := gradecheck.grade, timemodified := env.now);
    site.UpdateRecord(graded);
    RunApiStage(site, graded, env);
  }

  /** The `catch` block of the API part, reached once the counter has been incremented: mark the row retrying and queue a retry, or fail it. */
  method HandleApiError(site: Site, issuance: Issuance, msg: string, now: int)
    requires site.Valid() && issuance.id in site.issuances && issuance.attempts >= 1
    modifies site
    ensures site.Valid()
    ensures var o := ApiCaught(issuance, msg, now);
            && site.issuances == old(site.issuances)[issuance.id := o.record]
            && site.requests == old(site.requests) + RequestList(o.request)
            && site.effects == old(site.effects) + o.effects
            && site.nextId == old(site.nextId)
  {
    if issuance.attempts < MaxApiAttempts {
      var retrying := issuance.(status := Retrying, errorcode := Some(ApiError), errormessage := Some(Text(msg)));
      site.UpdateRecord(retrying);
      var delay := ApiRetryDelay(issuance.attempts);
      site.QueueAdhocTask(PlainTask(retrying, now + delay));
    } else {
      MarkFailed(site, issuance, ApiError, Text(msg), true, now);
    }
  }

  /** The attempt count and the API call of `execute`, with the API-error ladder. */
  method RunApiStage(site: Site, graded: Issuance, env: RunEnv)
    requires site.Valid() && graded.id in site.issuances
    modifies site
    ensures site.Valid()
    ensures var o := ApiStage(graded, env);
            && site.issuances == old(site.issuances)[graded.id := o.record]
            && site.requests == old(site.requests) + RequestList(o.request)
            && site.effects == old(site.effects) + o.effects
            && site.nextId == old(site.nextId)
  {
    var issuance := graded.(attempts := graded.attempts + 1, timemodified := env.now);
    site.UpdateRecord(issuance);
    match env.api {
      case ApiSuccess(cid) =>
        issuance := IssuedRecord(issuance, cid, env.now);
        site.UpdateRecord(issuance);
        site.Emit(CredentialIssuedEvent(issuance.id));
        site.Emit(Notified(issuance.userid, issuance.courseid, true));
      case ApiFailure(msg) =>
        HandleApiError(site, issuance, msg, env.now);
      case FaultAfterIssue(cid, eventTriggered, msg) =>
        issuance := IssuedRecord(issuance, cid, env.now);
        site.UpdateRecord(issuance);
        if eventTriggered {
          site.Emit(CredentialIssuedEvent(issuance.id));
        }
        ghost var mid := site.effects;
        HandleApiError(site, issuance, msg, env.now);
        ghost var c := ApiCaught(issuance, msg, env.now);
        assert site.effects == old(site.effects) + ((if eventTriggered then [CredentialIssuedEvent(issuance.id)] else []) + c.effects);
    }
  }

  /**
   * `issue_credential::execute` for the task whose custom data names `issuanceid` (0: none);
   * a missing id or row ends the run with no change.
   */
  method Execute(site: Site, issuanceid: int, env: RunEnv)
    requires site.Valid()
    modifies site
    ensures site.Valid()
    ensures issuanceid == 0 || issuanceid !in old(site.issuances) ==>
              && site.issuances == old(site.issuances) && site.requests == old(site.requests)
              && site.effects == old(site.effects) && site.nextId == old(site.nextId)
    ensures issuanceid != 0 && issuanceid in old(site.issuances) ==>
              var o := Step(old(site.issuances), old(site.issuances)[issuanceid], env);
              && site.issuances == old(site.issuances)[issuanceid := o.record]
              && site.requests == old(site.requests) + RequestList(o.request)
              && site.effects == old(site.effects) + o.effects
              && site.nextId == old(site.nextId)
  {
    if issuanceid == 0 || issuanceid !in site.issuances {
      return;
    }
    var issuance := site.issuances[issuanceid];
    assert site.issuances[issuanceid := issuance] == site.issuances;
    if issuance.status == Issued {
      return;
    }
    if !env.userAndCourseFound {
      MarkFailed(site, issuance, UserOrCourseNotFound, Text("User or course not found"), false, env.now);
      return;
    }
    if env.config.None? {
      MarkFailed(site, issuance, CourseConfigNotFound, Text("Course configuration not found"), false, env.now);
      return;
    }
    var courseconfig := env.config.value;
    if courseconfig.paused {
      site.QueueAdhocTask(PlainTask(issuance, env.now + PausedDelay));
      return;
    }
    if SetInt(courseconfig.ratelimit) {
      if !CheckRateLimit(site.issuances, courseconfig.categoryid, courseconfig.ratelimit.value, env.now) {
        site.QueueAdhocTask(PlainTask(issuance, env.now + RateLimitedDelay));
        return;
      }
    }
    if courseconfig.Settings().sendgrade {
      RunGradeStage(site, issuance, courseconfig, env);
    } else {
      RunApiStage(site, issuance, env);
    }
  }
}
