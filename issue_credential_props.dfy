/**
 * What one run of the issue_credential task guarantees, and what a sequence of runs does.
 *
 * `RouteOf` names the branch of `execute` a run takes, stated from its guards alone; the
 * lemmas then say, route by route, what `Step` does to the record, which follow-up task it
 * asks for and which side effects it emits, and which record invariants every run keeps.
 * `Replay` chains runs the way the task manager does when each run's follow-up task is
 * picked up, and the scenario lemmas follow the two retry ladders to their end.
 */
module IssueCredentialProperties {
  import opened Common
  import opened Records
  import opened Policy
  import opened Config
  import opened IssueCredential

  /** The branch of `execute` a run takes. */
  datatype Route =
    | AlreadyIssued   // the row is issued: nothing to do
    | Unresolved      // user, course or course configuration missing: fatal
    | OnHold          // category paused or rate limit reached: try again later
    | GradeRejected   // no course grade item, or the grade-wait ladder is used up: fatal
    | GradeWait       // grade not fresh yet: wait and re-check
    | ApiCall         // the API is called

  /** The freshness verdict the grade gate computes for this run. */
  function GateCheck(iss: Issuance, env: RunEnv): GradeCheck {
    CheckGradeFreshness(env.grade, iss.timecompleted.GetOr(iss.timecreated), iss.attempts + 1)
  }

  /** The operational holds: the category is paused, or its rate limit is set and reached. */
  predicate HoldApplies(rows: map<int, Issuance>, cfg: EffectiveConfig, now: int) {
    cfg.paused || (SetInt(cfg.ratelimit) && !CheckRateLimit(rows, cfg.categoryid, cfg.ratelimit.value, now))
  }

  function RouteOf(rows: map<int, Issuance>, iss: Issuance, env: RunEnv): Route {
    if iss.status == Issued then AlreadyIssued
    else if !env.userAndCourseFound || env.config.None? then Unresolved
    else if HoldApplies(rows, env.config.value, env.now) then OnHold
    else if !env.config.value.Settings().sendgrade then ApiCall
    else
      var c := GateCheck(iss, env);
      if c.reason == NoGradeItem || (!c.isFresh && iss.attempts >= MaxGradeAttempts) then GradeRejected
      else if !c.isFresh then GradeWait
      else ApiCall
  }

  /** The run calls the API and the `try` block throws, before or after the issued row is written. */
  predicate ApiFails(rows: map<int, Issuance>, iss: Issuance, env: RunEnv) {
    RouteOf(rows, iss, env) == ApiCall && !env.api.ApiSuccess?
  }

  /** The run calls the API and the call fails with retries left: the counter, once incremented, is still below three. */
  predicate ApiRetries(rows: map<int, Issuance>, iss: Issuance, env: RunEnv) {
    ApiFails(rows, iss, env) && iss.attempts + 1 < MaxApiAttempts
  }

  predicate HasFailureEvent(effects: seq<Effect>) {
    exists k :: 0 <= k < |effects| && effects[k].CredentialFailedEvent?
  }

  // ---------------------------------------------------------------- one run, route by route

  /**
   * The status a run leaves, for every route; a failed record is not final, it can still be
   * issued. A run that calls the API records the credential id it returned and the issue
   * time, even when the rest of the `try` block then throws.
   */
  lemma StatusAfterRun(rows: map<int, Issuance>, iss: Issuance, env: RunEnv)
    ensures var o := Step(rows, iss, env);
            match RouteOf(rows, iss, env)
            case AlreadyIssued => o.record == iss
            case OnHold => o.record == iss
            case Unresolved => o.record.status == Failed
            case GradeRejected => o.record.status == Failed
            case GradeWait => o.record.status == Retrying
            case ApiCall =>
              && o.record.status == (if env.api.ApiSuccess? then Issued
                                     else if iss.attempts + 1 < MaxApiAttempts then Retrying
                                     else Failed)
              && o.record.credentialid == (if env.api.ApiFailure? then iss.credentialid else Some(env.api.credentialId))
              && o.record.timeissued == (if env.api.ApiFailure? then iss.timeissued else Some(env.now))
              && o.record.errorcode == (if env.api.ApiSuccess? then None else Some(ApiError))
              && (env.api.ApiSuccess? ==> o.record.errormessage.None?)
  {
    var route := RouteOf(rows, iss, env);
    if route == GradeRejected || route == GradeWait || (route == ApiCall && env.config.value.Settings().sendgrade) {
      var cfg := env.config.value;
      assert Step(rows, iss, env) == GradeStage(iss, cfg, env);
    }
  }

  /** The error code of a failed run names its cause, and a fatal configuration error does not count an execution. */
  lemma ErrorCodeNamesCause(rows: map<int, Issuance>, iss: Issuance, env: RunEnv)
    requires RouteOf(rows, iss, env) in {Unresolved, GradeRejected} || (ApiFails(rows, iss, env) && !ApiRetries(rows, iss, env))
    ensures var o := Step(rows, iss, env);
            && o.record.status == Failed
            && o.record.timemodified == env.now
            && o.record.errorcode == Some(
                 if !env.userAndCourseFound then UserOrCourseNotFound
                 else if env.config.None? then CourseConfigNotFound
                 else if RouteOf(rows, iss, env) == ApiCall then ApiError
                 else if GateCheck(iss, env).reason == NoGradeItem then MissingGradeItem
                 else GradeTimeout)
            && (RouteOf(rows, iss, env) != ApiCall ==> o.record.attempts == iss.attempts)
  {
    var route := RouteOf(rows, iss, env);
    if route == GradeRejected || (route == ApiCall && env.config.value.Settings().sendgrade) {
      assert Step(rows, iss, env) == GradeStage(iss, env.config.value, env);
    }
  }

  /**
   * The attempt counter counts the executions that reached the grade-wait retry or the API
   * call, and no others; the grade-wait ladder and the API-error ladder share it.
   */
  lemma AttemptsCountExecutions(rows: map<int, Issuance>, iss: Issuance, env: RunEnv)
    ensures Step(rows, iss, env).record.attempts ==
              iss.attempts + (if RouteOf(rows, iss, env) in {GradeWait, ApiCall} then 1 else 0)
  {
    var route := RouteOf(rows, iss, env);
    if route == GradeRejected || route == GradeWait || (route == ApiCall && env.config.value.Settings().sendgrade) {
      assert Step(rows, iss, env) == GradeStage(iss, env.config.value, env);
    }
  }

  /**
   * A run asks the task manager for a follow-up exactly on a hold, a grade wait, or an API
   * failure with retries left; the follow-up is for the same issuance and category and runs
   * strictly later. Only the grade wait uses the de-duplicating reschedule-or-queue.
   */
  lemma FollowUpRequest(rows: map<int, Issuance>, iss: Issuance, env: RunEnv)
    ensures var o := Step(rows, iss, env);
            var route := RouteOf(rows, iss, env);
            && (o.request.Some? <==> route == OnHold || route == GradeWait || ApiRetries(rows, iss, env))
            && (o.request.Some? ==>
                  && o.request.value.task.issuanceid == iss.id
                  && o.request.value.task.categoryid == iss.categoryid
                  && o.request.value.task.nextRunTime.Some?
                  && o.request.value.task.nextRunTime.value > env.now
                  && (o.request.value.RescheduleOrQueue? <==> route == GradeWait))
  {
    var route := RouteOf(rows, iss, env);
    if route == GradeRejected || route == GradeWait || (route == ApiCall && env.config.value.Settings().sendgrade) {
      assert Step(rows, iss, env) == GradeStage(iss, env.config.value, env);
    }
  }

  /** A hold changes nothing in the record, emits nothing, and re-queues the task in an hour (paused) or ten minutes (rate limited). */
  lemma HoldLeavesRecord(rows: map<int, Issuance>, iss: Issuance, env: RunEnv)
    requires RouteOf(rows, iss, env) == OnHold
    ensures var o := Step(rows, iss, env);
            && o.record == iss
            && o.effects == []
            && o.request == Some(Queue(PlainTask(iss, env.now + (if env.config.value.paused then 3600 else 600))))
  {
  }

  /** A grade wait schedules the re-check after the ladder's delay for the executions so far, and keeps the error fields. */
  lemma GradeWaitLadder(rows: map<int, Issuance>, iss: Issuance, env: RunEnv)
    requires RouteOf(rows, iss, env) == GradeWait
    ensures iss.attempts < MaxGradeAttempts
    ensures var o := Step(rows, iss, env);
            && o.record == iss.(attempts := iss.attempts + 1, status := Retrying, timemodified := env.now)
            && o.request == Some(RescheduleOrQueue(RetryTask(iss, env.now + GradeRetryDelays[iss.attempts])))
            && (forall k :: 0 <= k < |o.effects| ==> o.effects[k].Regraded?)
  {
    assert Step(rows, iss, env) == GradeStage(iss, env.config.value, env);
  }

  /** The grade-wait ladder ends with a timeout that reports the attempts so far and the total of the delays they waited. */
  lemma GradeTimeoutReport(rows: map<int, Issuance>, iss: Issuance, env: RunEnv)
    requires RouteOf(rows, iss, env) == GradeRejected && GateCheck(iss, env).reason != NoGradeItem
    ensures iss.attempts >= MaxGradeAttempts
    ensures var o := Step(rows, iss, env);
            var c := GateCheck(iss, env);
            && o.record.errorcode == Some(GradeTimeout)
            && o.record.errormessage == Some(GradeNotReady(iss.attempts, TotalWait(iss.attempts), c.reason,
                                                           c.timemodified, iss.timecompleted.GetOr(iss.timecreated),
                                                           c.needsUpdate))
            && o.request.None?
  {
    assert Step(rows, iss, env) == GradeStage(iss, env.config.value, env);
  }

  /** An API failure with retries left waits 300s after the first execution and 600s after the second; the 1200s rung is never reached. */
  lemma ApiRetryWaits(rows: map<int, Issuance>, iss: Issuance, env: RunEnv)
    requires ApiRetries(rows, iss, env)
    ensures iss.attempts <= 1
    ensures var o := Step(rows, iss, env);
            && o.record.errorcode == Some(ApiError)
            && o.record.errormessage == Some(Text(env.api.message))
            && o.request == Some(Queue(PlainTask(iss, env.now + (if iss.attempts == 0 then 300 else 600))))
  {
    ApiRetryDelayValues(1);
    if env.config.value.Settings().sendgrade {
      assert Step(rows, iss, env) == GradeStage(iss, env.config.value, env);
    }
  }

  /**
   * The announcements in `effects` about `iss`: the issued event exactly when `issuedEvent`,
   * the success message exactly when `issuedMessage`, a failure event exactly when `failed`,
   * the failure message to the learner exactly when `told`.
   */
  predicate Announces(effects: seq<Effect>, iss: Issuance, issuedEvent: bool, issuedMessage: bool,
                      failed: bool, told: bool) {
    && (CredentialIssuedEvent(iss.id) in effects <==> issuedEvent)
    && (Notified(iss.userid, iss.courseid, true) in effects <==> issuedMessage)
    && (HasFailureEvent(effects) <==> failed)
    && (Notified(iss.userid, iss.courseid, false) in effects <==> told)
  }

  /** The API part's issued event fires: the block completes, or only the success message throws. */
  predicate IssueAnnounced(api: ApiOutcome) {
    api.ApiSuccess? || (api.FaultAfterIssue? && api.eventTriggered)
  }

  /** A regrade before them does not change what the effects announce. */
  lemma RegradeAnnouncesNothing(pre: seq<Effect>, effects: seq<Effect>, iss: Issuance, issuedEvent: bool,
                                issuedMessage: bool, failed: bool, told: bool)
    requires forall k :: 0 <= k < |pre| ==> pre[k].Regraded?
    requires Announces(effects, iss, issuedEvent, issuedMessage, failed, told)
    ensures Announces(pre + effects, iss, issuedEvent, issuedMessage, failed, told)
  {
    var all := pre + effects;
    if HasFailureEvent(all) {
      var k :| 0 <= k < |all| && all[k].CredentialFailedEvent?;
      assert effects[k - |pre|].CredentialFailedEvent?;
    }
    if HasFailureEvent(effects) {
      var k :| 0 <= k < |effects| && effects[k].CredentialFailedEvent?;
      assert all[k + |pre|].CredentialFailedEvent?;
    }
  }

  lemma MarkedFailedAnnounces(iss: Issuance, code: ErrorCode, message: ErrorMessage, notify: bool, now: int)
    ensures Announces(MarkedFailed(iss, code, message, notify, now).effects, iss, false, false, true, notify)
  {
    assert MarkedFailed(iss, code, message, notify, now).effects[0].CredentialFailedEvent?;
  }

  /** The exception handler announces nothing on a retry, and the failure with a message to the learner otherwise. */
  lemma ApiCaughtAnnounces(issuance: Issuance, msg: string, now: int)
    requires issuance.attempts >= 1
    ensures Announces(ApiCaught(issuance, msg, now).effects, issuance, false, false,
                      issuance.attempts >= MaxApiAttempts, issuance.attempts >= MaxApiAttempts)
  {
    if issuance.attempts >= MaxApiAttempts {
      MarkedFailedAnnounces(issuance, ApiError, Text(msg), true, now);
    }
  }

  /** An issued event put before effects that announce no issue makes them announce the issued event, and nothing else changes. */
  lemma IssuedEventBefore(effects: seq<Effect>, iss: Issuance, failed: bool, told: bool)
    requires Announces(effects, iss, false, false, failed, told)
    ensures Announces([CredentialIssuedEvent(iss.id)] + effects, iss, true, false, failed, told)
  {
    var all := [CredentialIssuedEvent(iss.id)] + effects;
    if HasFailureEvent(all) {
      var k :| 0 <= k < |all| && all[k].CredentialFailedEvent?;
      assert effects[k - 1].CredentialFailedEvent?;
    }
    if HasFailureEvent(effects) {
      var k :| 0 <= k < |effects| && effects[k].CredentialFailedEvent?;
      assert all[k + 1].CredentialFailedEvent?;
    }
  }

  /**
   * The API part emits the issued event when the row was written issued and the event did not
   * throw, the success message only when the whole block completed, and the failure
   * announcements exactly when the block threw with no retry left.
   */
  lemma ApiStageAnnounces(iss: Issuance, env: RunEnv)
    ensures Announces(ApiStage(iss, env).effects, iss, IssueAnnounced(env.api), env.api.ApiSuccess?,
                      !env.api.ApiSuccess? && iss.attempts + 1 >= MaxApiAttempts,
                      !env.api.ApiSuccess? && iss.attempts + 1 >= MaxApiAttempts)
  {
    var issuance := iss.(attempts := iss.attempts + 1, timemodified := env.now);
    match env.api
    case ApiSuccess(_) =>
      assert !HasFailureEvent(ApiStage(iss, env).effects);
    case ApiFailure(msg) =>
      ApiCaughtAnnounces(issuance, msg, env.now);
    case FaultAfterIssue(cid, eventTriggered, msg) =>
      var written := IssuedRecord(issuance, cid, env.now);
      ApiCaughtAnnounces(written, msg, env.now);
      if eventTriggered {
        assert ApiStage(iss, env).effects == [CredentialIssuedEvent(iss.id)] + ApiCaught(written, msg, env.now).effects;
        IssuedEventBefore(ApiCaught(written, msg, env.now).effects, iss,
                          written.attempts >= MaxApiAttempts, written.attempts >= MaxApiAttempts);
      } else {
        assert ApiStage(iss, env).effects == ApiCaught(written, msg, env.now).effects;
      }
  }

  /**
   * A run that issues the credential emits the issued event and the success message; a run
   * that fails emits a failure event. The learner is told of a failure only on the paths that
   * pass the user and course to `mark_failed`: a missing grade item, a grade timeout and a
   * final API error; a missing user, course or course configuration is not reported to the
   * learner. Holds, grade waits and API retries announce nothing; an exception after the row
   * was written issued leaves the issued event emitted unless the event itself threw.
   */
  lemma EventsMatchOutcome(rows: map<int, Issuance>, iss: Issuance, env: RunEnv)
    ensures Announces(Step(rows, iss, env).effects, iss,
                      RouteOf(rows, iss, env) == ApiCall && IssueAnnounced(env.api),
                      RouteOf(rows, iss, env) == ApiCall && env.api.ApiSuccess?,
                      RouteOf(rows, iss, env) in {Unresolved, GradeRejected} || (ApiFails(rows, iss, env) && !ApiRetries(rows, iss, env)),
                      RouteOf(rows, iss, env) == GradeRejected || (ApiFails(rows, iss, env) && !ApiRetries(rows, iss, env)))
  {
    var route := RouteOf(rows, iss, env);
    if route == AlreadyIssued || route == OnHold {
      assert Step(rows, iss, env).effects == [];
    } else if route == Unresolved {
      if !env.userAndCourseFound {
        MarkedFailedAnnounces(iss, UserOrCourseNotFound, Text("User or course not found"), false, env.now);
      } else {
        MarkedFailedAnnounces(iss, CourseConfigNotFound, Text("Course configuration not found"), false, env.now);
      }
    } else if !env.config.value.Settings().sendgrade {
      ApiStageAnnounces(iss, env);
    } else {
      assert Step(rows, iss, env) == GradeStage(iss, env.config.value, env);
      GradeStageAnnounces(iss, env.config.value, env);
    }
  }

  /** What the grade gate announces, in terms of the freshness verdict. */
  lemma GradeStageAnnounces(iss: Issuance, cfg: EffectiveConfig, env: RunEnv)
    ensures var c := GateCheck(iss, env);
            var api := c.reason != NoGradeItem && c.isFresh;
            var rejected := c.reason == NoGradeItem || (!c.isFresh && iss.attempts >= MaxGradeAttempts);
            var givesUp := api && !env.api.ApiSuccess? && iss.attempts + 1 >= MaxApiAttempts;
            Announces(GradeStage(iss, cfg, env).effects, iss, api && IssueAnnounced(env.api), api && env.api.ApiSuccess?,
                      rejected || givesUp, rejected || givesUp)
  {
    var executionnum := iss.attempts + 1;
    var regrade := if ShouldRegrade(executionnum, env.grade.hasItem, env.needsRegrade) then [Regraded(iss.courseid, iss.userid)] else [];
    var tc := iss.timecompleted.GetOr(iss.timecreated);
    var c := CheckGradeFreshness(env.grade, tc, executionnum);
    var v := GradeVerdict(iss, c, tc, env);
    assert GradeStage(iss, cfg, env) == After(regrade, v);
    var api := c.reason != NoGradeItem && c.isFresh;
    var rejected := c.reason == NoGradeItem || (!c.isFresh && iss.attempts >= MaxGradeAttempts);
    var givesUp := api && !env.api.ApiSuccess? && iss.attempts + 1 >= MaxApiAttempts;
    if c.reason == NoGradeItem {
      MarkedFailedAnnounces(iss, MissingGradeItem,
                            Text("No course grade item exists for this course. Cannot send grade with credential."),
                            true, env.now);
    } else if !c.isFresh && iss.attempts < MaxGradeAttempts {
      assert v.effects == [];
    } else if !c.isFresh {
      MarkedFailedAnnounces(iss, GradeTimeout,
                            GradeNotReady(iss.attempts, TotalWait(iss.attempts), c.reason,
                                          c.timemodified, tc, c.needsUpdate),
                            true, env.now);
    } else {
      ApiStageAnnounces(iss.(grade := c.grade, timemodified := env.now), env);
    }
    RegradeAnnouncesNothing(regrade, v.effects, iss, api && IssueAnnounced(env.api), api && env.api.ApiSuccess?,
                            rejected || givesUp, rejected || givesUp);
  }

  /** Some effect is a forced regrade. */
  predicate HasRegrade(effects: seq<Effect>) {
    exists k :: 0 <= k < |effects| && effects[k].Regraded?
  }

  /**
   * A run forces a regrade exactly when it reaches the grade gate and `maybe_regrade_course`
   * decides to (first execution, or a course dirty before the regrade, with a grade item);
   * the regrade is then the first effect of the run.
   */
  lemma RegradeExactlyWhenDecided(rows: map<int, Issuance>, iss: Issuance, env: RunEnv)
    ensures var o := Step(rows, iss, env);
            var gated := && iss.status != Issued && env.userAndCourseFound && env.config.Some?
                         && !HoldApplies(rows, env.config.value, env.now) && env.config.value.Settings().sendgrade;
            && (HasRegrade(o.effects) <==> gated && ShouldRegrade(iss.attempts + 1, env.grade.hasItem, env.needsRegrade))
            && (HasRegrade(o.effects) ==> o.effects[0] == Regraded(iss.courseid, iss.userid))
  {
    if iss.status == Issued || (env.userAndCourseFound && env.config.Some? && HoldApplies(rows, env.config.value, env.now)) {
      assert Step(rows, iss, env).effects == [];
    } else if !env.userAndCourseFound {
      NoRegradeInMarkedFailed(iss, UserOrCourseNotFound, Text("User or course not found"), false, env.now);
    } else if env.config.None? {
      NoRegradeInMarkedFailed(iss, CourseConfigNotFound, Text("Course configuration not found"), false, env.now);
    } else if !env.config.value.Settings().sendgrade {
      assert Step(rows, iss, env) == ApiStage(iss, env);
      NoRegradeInApiStage(iss, env);
    } else {
      var regrade := if ShouldRegrade(iss.attempts + 1, env.grade.hasItem, env.needsRegrade) then [Regraded(iss.courseid, iss.userid)] else [];
      var tc := iss.timecompleted.GetOr(iss.timecreated);
      var c := CheckGradeFreshness(env.grade, tc, iss.attempts + 1);
      var v := GradeVerdict(iss, c, tc, env);
      assert Step(rows, iss, env) == GradeStage(iss, env.config.value, env) == After(regrade, v);
      NoRegradeInVerdict(iss, c, tc, env);
      RegradeOnlyBefore(regrade, v.effects);
      if regrade != [] {
        assert regrade[0].Regraded?;
      }
    }
  }

  /** Effects without a regrade, after `pre`: a regrade occurs exactly when `pre` has one. */
  lemma RegradeOnlyBefore(pre: seq<Effect>, post: seq<Effect>)
    requires !HasRegrade(post)
    ensures HasRegrade(pre + post) <==> HasRegrade(pre)
  {
    if HasRegrade(pre + post) {
      var k :| 0 <= k < |pre + post| && (pre + post)[k].Regraded?;
      assert k < |pre|;
    }
    if HasRegrade(pre) {
      var k :| 0 <= k < |pre| && pre[k].Regraded?;
      assert (pre + post)[k].Regraded?;
    }
  }

  lemma NoRegradeInMarkedFailed(iss: Issuance, code: ErrorCode, message: ErrorMessage, notify: bool, now: int)
    ensures !HasRegrade(MarkedFailed(iss, code, message, notify, now).effects)
  {
  }

  lemma NoRegradeInApiStage(iss: Issuance, env: RunEnv)
    ensures !HasRegrade(ApiStage(iss, env).effects)
  {
  }

  lemma NoRegradeInVerdict(iss: Issuance, check: GradeCheck, timecompleted: int, env: RunEnv)
    ensures !HasRegrade(GradeVerdict(iss, check, timecompleted, env).effects)
  {
    if check.isFresh && check.reason != NoGradeItem {
      NoRegradeInApiStage(iss.(grade := check.grade, timemodified := env.now), env);
    }
  }

  /**
   * A later execution whose course was dirty before the forced regrade and is clean after it
   * regrades first and then accepts the grade, however old, and calls the API: the case of
   * `check_grade_freshness` where the gradebook has settled.
   */
  lemma RegradeThenSettled(rows: map<int, Issuance>, iss: Issuance, env: RunEnv)
    requires iss.status != Issued && iss.attempts >= 1
    requires env.userAndCourseFound && env.config.Some? && !HoldApplies(rows, env.config.value, env.now)
    requires env.config.value.Settings().sendgrade
    requires env.needsRegrade && HasFinalGrade(env.grade) && !env.grade.needsUpdate
    ensures RouteOf(rows, iss, env) == ApiCall
    ensures env.grade.record.value.timemodified < iss.timecompleted.GetOr(iss.timecreated) - FreshnessTolerance ==>
              GateCheck(iss, env).reason == GradebookSettled
    ensures var o := Step(rows, iss, env);
            |o.effects| > 0 && o.effects[0] == Regraded(iss.courseid, iss.userid)
  {
    assert Step(rows, iss, env) == GradeStage(iss, env.config.value, env);
  }

  /**
   * An exception after the row was written issued (the issued event or the success message
   * throws) is handled like an API error, but the row keeps the credential id and issue time:
   * it is left retrying or failed with API_ERROR while the API has issued the credential.
   */
  lemma FaultAfterIssueKeepsCredential(rows: map<int, Issuance>, iss: Issuance, env: RunEnv)
    requires RouteOf(rows, iss, env) == ApiCall && env.api.FaultAfterIssue?
    ensures var o := Step(rows, iss, env);
            && o.record.status == (if iss.attempts + 1 < MaxApiAttempts then Retrying else Failed)
            && o.record.credentialid == Some(env.api.credentialId)
            && o.record.timeissued == Some(env.now)
            && o.record.errorcode == Some(ApiError)
            && o.record.errormessage == Some(Text(env.api.message))
            && (CredentialIssuedEvent(iss.id) in o.effects <==> env.api.eventTriggered)
            && Notified(iss.userid, iss.courseid, true) !in o.effects
  {
    StatusAfterRun(rows, iss, env);
    EventsMatchOutcome(rows, iss, env);
    if env.config.value.Settings().sendgrade {
      assert Step(rows, iss, env) == GradeStage(iss, env.config.value, env);
    }
  }

  // ---------------------------------------------------------------- record invariants

  /** Who and what the record is about, when it was created and when the course was completed. */
  predicate SameIdentity(r: Issuance, iss: Issuance) {
    && r.id == iss.id && r.userid == iss.userid && r.courseid == iss.courseid
    && r.templateid == iss.templateid && r.categoryid == iss.categoryid
    && r.timecreated == iss.timecreated && r.timecompleted == iss.timecompleted
  }

  /** A run never changes the identity of the record. */
  lemma IdentityPreserved(rows: map<int, Issuance>, iss: Issuance, env: RunEnv)
    ensures SameIdentity(Step(rows, iss, env).record, iss)
  {
    if iss.status == Issued || (env.userAndCourseFound && env.config.Some? && HoldApplies(rows, env.config.value, env.now)) {
      assert Step(rows, iss, env).record == iss;
    } else if !env.userAndCourseFound || env.config.None? {
      assert Step(rows, iss, env).record.status == Failed;
    } else {
      if env.config.value.Settings().sendgrade {
        var tc := iss.timecompleted.GetOr(iss.timecreated);
        var c := CheckGradeFreshness(env.grade, tc, iss.attempts + 1);
        assert Step(rows, iss, env).record == GradeVerdict(iss, c, tc, env).record;
        VerdictKeepsIdentity(iss, c, tc, env);
      } else {
        assert Step(rows, iss, env) == ApiStage(iss, env);
        ApiStageKeepsIdentity(iss, env);
      }
    }
  }

  lemma ApiStageKeepsIdentity(iss: Issuance, env: RunEnv)
    ensures SameIdentity(ApiStage(iss, env).record, iss)
  {
  }

  lemma VerdictKeepsIdentity(iss: Issuance, check: GradeCheck, timecompleted: int, env: RunEnv)
    ensures SameIdentity(GradeVerdict(iss, check, timecompleted, env).record, iss)
  {
    if check.isFresh && check.reason != NoGradeItem {
      ApiStageKeepsIdentity(iss.(grade := check.grade, timemodified := env.now), env);
    }
  }

  /**
   * A stored grade is never cleared, and an issue that went through the grade gate carries
   * the learner's final grade as the gate read it.
   */
  lemma GradeKept(rows: map<int, Issuance>, iss: Issuance, env: RunEnv)
    ensures iss.grade.Some? ==> Step(rows, iss, env).record.grade.Some?
    ensures RouteOf(rows, iss, env) == ApiCall && env.config.value.Settings().sendgrade ==>
              && HasFinalGrade(env.grade)
              && Step(rows, iss, env).record.grade == env.grade.record.value.finalgrade
  {
    if RouteOf(rows, iss, env) in {GradeRejected, GradeWait, ApiCall} && env.config.value.Settings().sendgrade {
      assert Step(rows, iss, env) == GradeStage(iss, env.config.value, env);
    }
  }

  /**
   * The record invariants: an issued row has its credential id and issue time and no error;
   * a failed row has an error code and message; a row still pending has never been counted;
   * a retrying row has been counted at least once.
   */
  predicate WellFormed(r: Issuance) {
    && (r.status == Issued ==> r.credentialid.Some? && r.timeissued.Some? && r.errorcode.None? && r.errormessage.None?)
    && (r.status == Failed ==> r.errorcode.Some? && r.errormessage.Some?)
    && (r.status == Pending ==> r.attempts == 0)
    && (r.status == Retrying ==> r.attempts >= 1)
  }

  lemma StepKeepsWellFormed(rows: map<int, Issuance>, iss: Issuance, env: RunEnv)
    requires WellFormed(iss)
    ensures WellFormed(Step(rows, iss, env).record)
    ensures Step(rows, iss, env).record.status == Pending ==> Step(rows, iss, env).record == iss
  {
    if iss.status == Issued || (env.userAndCourseFound && env.config.Some? && HoldApplies(rows, env.config.value, env.now)) {
      assert Step(rows, iss, env).record == iss;
    } else if !env.userAndCourseFound || env.config.None? {
      assert Step(rows, iss, env).record.status == Failed;
    } else {
      if env.config.value.Settings().sendgrade {
        assert Step(rows, iss, env) == GradeStage(iss, env.config.value, env);
        GradeStageWellFormed(iss, env.config.value, env);
      } else {
        assert Step(rows, iss, env) == ApiStage(iss, env);
        ApiStageWellFormed(iss, env);
      }
    }
  }

  /** The API part leaves a well-formed record that is no longer pending. */
  lemma ApiStageWellFormed(iss: Issuance, env: RunEnv)
    ensures WellFormed(ApiStage(iss, env).record) && ApiStage(iss, env).record.status != Pending
  {
  }

  /** So does the grade gate. */
  lemma GradeStageWellFormed(iss: Issuance, cfg: EffectiveConfig, env: RunEnv)
    ensures WellFormed(GradeStage(iss, cfg, env).record) && GradeStage(iss, cfg, env).record.status != Pending
  {
    var tc := iss.timecompleted.GetOr(iss.timecreated);
    var c := CheckGradeFreshness(env.grade, tc, iss.attempts + 1);
    if c.reason != NoGradeItem && c.isFresh {
      ApiStageWellFormed(iss.(grade := c.grade, timemodified := env.now), env);
    }
  }

  // ---------------------------------------------------------------- several runs

  /** Runs on one row one after another, each seeing the table as the previous one left it. */
  function Replay(rows: map<int, Issuance>, iss: Issuance, envs: seq<RunEnv>): Issuance
    decreases |envs|
  {
    if envs == [] then iss
    else
      var o := Step(rows, iss, envs[0]);
      Replay(rows[iss.id := o.record], o.record, envs[1..])
  }

  /** The delay a run's follow-up task asks for, 0 when it asks for none. */
  function RequestedDelay(o: Outcome, now: int): int {
    if o.request.Some? && o.request.value.task.nextRunTime.Some? then o.request.value.task.nextRunTime.value - now
    else 0
  }

  /** The delays asked for over a replay, added up. */
  function Waited(rows: map<int, Issuance>, iss: Issuance, envs: seq<RunEnv>): int
    decreases |envs|
  {
    if envs == [] then 0
    else
      var o := Step(rows, iss, envs[0]);
      RequestedDelay(o, envs[0].now) + Waited(rows[iss.id := o.record], o.record, envs[1..])
  }

  /** A run that sends grades finds the grade item but no final grade, with no hold in its way. */
  predicate GradeMissing(env: RunEnv) {
    && env.userAndCourseFound && env.config.Some?
    && !env.config.value.paused && !SetInt(env.config.value.ratelimit)
    && env.config.value.Settings().sendgrade
    && env.grade.hasItem && env.grade.record.None?
  }

  /** A run that does not send grades and has no hold in its way, so it goes straight to the API. */
  predicate ApiReached(env: RunEnv) {
    && env.userAndCourseFound && env.config.Some?
    && !env.config.value.paused && !SetInt(env.config.value.ratelimit)
    && !env.config.value.Settings().sendgrade
  }

  /** Such a run whose API call fails. */
  predicate ApiDown(env: RunEnv) {
    ApiReached(env) && env.api.ApiFailure?
  }

  /**
   * While the grade stays missing, each run moves one rung up the grade-wait ladder: after k
   * runs the counter has grown by k and the re-checks asked for add up to the ladder's
   * delays for those rungs, the same sum `calculate_total_wait` reports.
   */
  lemma {:induction false} GradeNeverReady(rows: map<int, Issuance>, iss: Issuance, envs: seq<RunEnv>)
    requires iss.status != Issued
    requires iss.attempts + |envs| <= MaxGradeAttempts
    requires forall k :: 0 <= k < |envs| ==> GradeMissing(envs[k])
    ensures var r := Replay(rows, iss, envs);
            && r.attempts == iss.attempts + |envs|
            && (|envs| > 0 ==> r.status == Retrying)
            && (|envs| == 0 ==> r == iss)
            && r.grade == iss.grade
            && r.status != Issued
    ensures Waited(rows, iss, envs) == TotalWait(iss.attempts + |envs|) - TotalWait(iss.attempts)
    decreases |envs|
  {
    if envs != [] {
      var e := envs[0];
      assert RouteOf(rows, iss, e) == GradeWait;
      GradeWaitLadder(rows, iss, e);
      var o := Step(rows, iss, e);
      assert RequestedDelay(o, e.now) == GradeRetryDelay(iss.attempts);
      assert forall k :: 0 <= k < |envs[1..]| ==> GradeMissing(envs[1..][k]) by {
        forall k | 0 <= k < |envs[1..]| ensures GradeMissing(envs[1..][k]) {
          assert envs[1..][k] == envs[k + 1];
        }
      }
      GradeNeverReady(rows[iss.id := o.record], o.record, envs[1..]);
    }
  }

  /**
   * A freshly created row whose grade never arrives is re-checked five times, 2655 seconds in
   * all, and the sixth run fails it with GRADE_TIMEOUT reporting five attempts and that same
   * 2655 seconds.
   */
  lemma GradeTimeoutAfterSixRuns(rows: map<int, Issuance>, iss: Issuance, envs: seq<RunEnv>)
    requires iss.status == Pending && iss.attempts == 0
    requires |envs| == MaxGradeAttempts + 1
    requires forall k :: 0 <= k < |envs| ==> GradeMissing(envs[k])
    ensures var r := Replay(rows, iss, envs);
            && r.status == Failed
            && r.attempts == MaxGradeAttempts
            && r.errorcode == Some(GradeTimeout)
            && r.errormessage.Some? && r.errormessage.value.GradeNotReady?
            && r.errormessage.value.attempts == MaxGradeAttempts
            && r.errormessage.value.totalWait == 2655
    ensures Waited(rows, iss, envs) == 2655
  {
    var first := envs[..MaxGradeAttempts];
    GradeNeverReady(rows, iss, first);
    TotalWaitValues(0);
    ReplaySplit(rows, iss, first, envs[MaxGradeAttempts]);
    assert envs == first + [envs[MaxGradeAttempts]];
    var mid := Replay(rows, iss, first);
    var rowsMid := ReplayRows(rows, iss, first);
    var last := envs[MaxGradeAttempts];
    assert RouteOf(rowsMid, mid, last) == GradeRejected;
    GradeTimeoutReport(rowsMid, mid, last);
    ErrorCodeNamesCause(rowsMid, mid, last);
    AttemptsCountExecutions(rowsMid, mid, last);
  }

  /** Three failing API calls on a row that does not send grades: retries after 300s and 600s, then API_ERROR with three attempts. */
  lemma ThreeApiFailures(rows: map<int, Issuance>, iss: Issuance, envs: seq<RunEnv>)
    requires iss.status != Issued && iss.attempts == 0
    requires |envs| == 3
    requires ApiDown(envs[0]) && ApiDown(envs[1]) && ApiDown(envs[2])
    ensures var r := Replay(rows, iss, envs);
            && r.status == Failed
            && r.attempts == 3
            && r.errorcode == Some(ApiError)
            && r.errormessage == Some(Text(envs[2].api.message))
    ensures Waited(rows, iss, envs) == 300 + 600
  {
    var e0, e1, e2 := envs[0], envs[1], envs[2];
    assert ApiRetries(rows, iss, e0);
    ApiRetryWaits(rows, iss, e0);
    AttemptsCountExecutions(rows, iss, e0);
    StatusAfterRun(rows, iss, e0);
    var o0 := Step(rows, iss, e0);
    var rows1 := rows[iss.id := o0.record];
    assert ApiRetries(rows1, o0.record, e1);
    ApiRetryWaits(rows1, o0.record, e1);
    AttemptsCountExecutions(rows1, o0.record, e1);
    StatusAfterRun(rows1, o0.record, e1);
    var o1 := Step(rows1, o0.record, e1);
    var rows2 := rows1[iss.id := o1.record];
    assert ApiFails(rows2, o1.record, e2) && !ApiRetries(rows2, o1.record, e2);
    ErrorCodeNamesCause(rows2, o1.record, e2);
    AttemptsCountExecutions(rows2, o1.record, e2);
    var o2 := Step(rows2, o1.record, e2);
    assert envs[1..][1..] == [e2];
    assert Replay(rows2, o1.record, [e2]) == o2.record;
    assert Waited(rows2, o1.record, [e2]) == 0;
  }

  /**
   * The two ladders share one counter: after two grade waits, a fresh grade whose API call
   * fails ends the row at once with API_ERROR, with no API retry.
   */
  lemma GradeWaitsUseUpApiRetries(rows: map<int, Issuance>, iss: Issuance, env: RunEnv)
    requires iss.attempts >= 2
    requires ApiFails(rows, iss, env)
    ensures var o := Step(rows, iss, env);
            o.record.status == Failed && o.record.errorcode == Some(ApiError) && o.request.None?
  {
    ErrorCodeNamesCause(rows, iss, env);
    FollowUpRequest(rows, iss, env);
  }

  /** The table after a replay. */
  function ReplayRows(rows: map<int, Issuance>, iss: Issuance, envs: seq<RunEnv>): map<int, Issuance>
    decreases |envs|
  {
    if envs == [] then rows
    else
      var o := Step(rows, iss, envs[0]);
      ReplayRows(rows[iss.id := o.record], o.record, envs[1..])
  }

  /** A replay extended by one run is that run on the replay's result. */
  lemma {:induction false} ReplaySplit(rows: map<int, Issuance>, iss: Issuance, envs: seq<RunEnv>, e: RunEnv)
    ensures var mid := Replay(rows, iss, envs);
            var rowsMid := ReplayRows(rows, iss, envs);
            var o := Step(rowsMid, mid, e);
            && Replay(rows, iss, envs + [e]) == o.record
            && Waited(rows, iss, envs + [e]) == Waited(rows, iss, envs) + RequestedDelay(o, e.now)
    decreases |envs|
  {
    if envs == [] {
      assert [e][1..] == [];
    } else {
      var o := Step(rows, iss, envs[0]);
      assert (envs + [e])[0] == envs[0];
      assert (envs + [e])[1..] == envs[1..] + [e];
      ReplaySplit(rows[iss.id := o.record], o.record, envs[1..], e);
    }
  }

  /**
   * On a row's first execution, an exception after the row was written issued leaves it
   * retrying; the retry calls the API again and issues it under the second credential id, so
   * the learner is issued two credentials for one completion.
   */
  lemma FaultAfterIssueIssuesTwice(rows: map<int, Issuance>, iss: Issuance, e1: RunEnv, e2: RunEnv)
    requires iss.status != Issued && iss.attempts == 0
    requires ApiReached(e1) && e1.api.FaultAfterIssue?
    requires ApiReached(e2) && e2.api.ApiSuccess?
    ensures var o1 := Step(rows, iss, e1);
            var o2 := Step(rows[iss.id := o1.record], o1.record, e2);
            && o1.record.status == Retrying && o1.record.credentialid == Some(e1.api.credentialId)
            && o1.request.Some?
            && o2.record.status == Issued && o2.record.credentialid == Some(e2.api.credentialId)
            && o2.record.attempts == 2
            && CredentialIssuedEvent(iss.id) in o2.effects
  {
    assert RouteOf(rows, iss, e1) == ApiCall;
    FaultAfterIssueKeepsCredential(rows, iss, e1);
    FollowUpRequest(rows, iss, e1);
    AttemptsCountExecutions(rows, iss, e1);
    IdentityPreserved(rows, iss, e1);
    var o1 := Step(rows, iss, e1);
    var rows1 := rows[iss.id := o1.record];
    assert RouteOf(rows1, o1.record, e2) == ApiCall;
    StatusAfterRun(rows1, o1.record, e2);
    AttemptsCountExecutions(rows1, o1.record, e2);
    EventsMatchOutcome(rows1, o1.record, e2);
  }
}
