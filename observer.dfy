/**
 * The course_completed observer: on a course completion it creates a pending issuance row
 * and queues the issue_credential task for it, unless the plugin is off, the event is
 * incomplete, the course is not configured for completion-triggered issuance, its category
 * is paused, or the learner already holds an issued credential for the course.
 */
module Observer {
  import opened Common
  import opened Records
  import opened Config
  import opened Store
  import opened IssueCredential
  import opened IssueCredentialProperties

  /** The two fields of the completion event the observer reads; `None` stands for a missing value. */
  datatype CompletionEvent = CompletionEvent(courseid: Option<int>, relateduserid: Option<int>)

  /** The only trigger the observer acts on. */
  const CompletionTrigger: string := "completion"

  /** How long the first run waits when the grade is needed but not yet available, in seconds. */
  const GradeAggregationDelay: int := 30

  /** Some row records an issued credential for this learner in this course (the observer's lookup by user, course and status). */
  predicate HasIssued(rows: map<int, Issuance>, userid: int, courseid: int) {
    exists id :: id in rows && rows[id].userid == userid && rows[id].courseid == courseid && rows[id].status == Issued
  }

  /** Every gate of `course_completed` lets the event through. */
  ghost predicate Creates(rows: map<int, Issuance>, pluginEnabled: bool, ev: CompletionEvent,
                          config: Option<EffectiveConfig>)
  {
    && pluginEnabled
    && SetInt(ev.courseid) && SetInt(ev.relateduserid)
    && config.Some? && config.value.Settings().enabled
    && !config.value.paused
    && config.value.Settings().issuancetrigger == CompletionTrigger
    && !HasIssued(rows, ev.relateduserid.value, ev.courseid.value)
  }

  /** The row the observer inserts (its id is the one the insert hands out). */
  function NewIssuance(userid: int, courseid: int, cfg: EffectiveConfig, courseGrade: Option<real>, now: int): (r: Issuance)
    ensures r.status == Pending && r.attempts == 0
    ensures r.userid == userid && r.courseid == courseid
    ensures r.templateid == cfg.Settings().templateid && r.categoryid == cfg.categoryid
    ensures r.grade == courseGrade && r.timecompleted.None?
    ensures r.timecreated == now && r.timemodified == now
    ensures r.credentialid.None? && r.timeissued.None? && r.errorcode.None? && r.errormessage.None?
  {
    Issuance(0, userid, courseid, cfg.Settings().templateid, cfg.categoryid, Pending, 0, courseGrade,
             None, now, now, None, None, None, None)
  }

  /** The task queued for the new row: its custom data, and a 30-second delay only while a needed grade is missing. */
  function InitialTask(iss: Issuance, cfg: EffectiveConfig, now: int): (t: AdhocTask)
    ensures t.issuanceid == iss.id && t.categoryid == iss.categoryid
    ensures t.userid.None? && t.component.None?
    ensures t.nextRunTime.Some? <==> cfg.Settings().sendgrade && iss.grade.None?
    ensures t.nextRunTime.Some? ==> t.nextRunTime.value == now + GradeAggregationDelay
  {
    AdhocTask(iss.id, iss.categoryid, None, None,
              if cfg.Settings().sendgrade && iss.grade.None? then Some(now + GradeAggregationDelay) else None)
  }

  /**
   * `observer::course_completed`, for a course in category `courseCategory`; `courseGrade` is
   * the course grade the gradebook reports at event time (`None` when it has none or the
   * lookup throws).
   */
  method CourseCompleted(site: Site, store: ConfigStore, parents: map<int, int>, courseCategory: int,
                         ev: CompletionEvent, courseGrade: Option<real>, now: int)
    requires site.Valid() && store.Valid()
    modifies site
    ensures site.Valid()
    ensures site.effects == old(site.effects)
    ensures var config := ResolveCourse(store.Global(), store.courseConfigs, store.categoryConfigs, parents,
                                        ev.courseid.GetOr(0), courseCategory);
            if Creates(old(site.issuances), store.enabled, ev, config) then
              var id := old(site.nextId);
              var row := NewIssuance(ev.relateduserid.value, ev.courseid.value, config.value, courseGrade, now).(id := id);
              && site.issuances == old(site.issuances)[id := row]
              && site.nextId == old(site.nextId) + 1
              && site.requests == old(site.requests) + [Queue(InitialTask(row, config.value, now))]
            else
              && site.issuances == old(site.issuances)
              && site.nextId == old(site.nextId)
              && site.requests == old(site.requests)
  {
    if !store.enabled {
      return;
    }
    if !SetInt(ev.courseid) || !SetInt(ev.relateduserid) {
      return;
    }
    var courseid, userid := ev.courseid.value, ev.relateduserid.value;
    var config := store.ResolveCourseConfig(parents, courseid, courseCategory);
    if config.None? || !config.value.Settings().enabled {
      return;
    }
    var cfg := config.value;
    if cfg.paused {
      return;
    }
    if cfg.Settings().issuancetrigger != CompletionTrigger {
      return;
    }
    if HasIssued(site.issuances, userid, courseid) {
      return;
    }
    var issuance := NewIssuance(userid, courseid, cfg, courseGrade, now);
    var id := site.InsertRecord(issuance);
    issuance := issuance.(id := id);
    site.QueueAdhocTask(InitialTask(issuance, cfg, now));
  }

  // ---------------------------------------------------------------- properties

  /** An issued credential for the learner and course stops the observer from creating another row. */
  lemma IssuedBlocksCreation(rows: map<int, Issuance>, pluginEnabled: bool, ev: CompletionEvent,
                             config: Option<EffectiveConfig>, id: int)
    requires id in rows && rows[id].status == Issued
    requires ev.relateduserid == Some(rows[id].userid) && ev.courseid == Some(rows[id].courseid)
    ensures !Creates(rows, pluginEnabled, ev, config)
  {
    assert HasIssued(rows, rows[id].userid, rows[id].courseid);
  }

  /**
   * Rows that are not issued do not block: a second completion event arriving while the first
   * row is still pending, retrying or failed creates a second row (there is no lock).
   */
  lemma UnissuedRowDoesNotBlock(rows: map<int, Issuance>, pluginEnabled: bool, ev: CompletionEvent,
                                config: Option<EffectiveConfig>, id: int, r: Issuance)
    requires id !in rows && r.status != Issued
    ensures Creates(rows[id := r], pluginEnabled, ev, config) == Creates(rows, pluginEnabled, ev, config)
  {
    if SetInt(ev.courseid) && SetInt(ev.relateduserid) {
      var u, c := ev.relateduserid.value, ev.courseid.value;
      if HasIssued(rows[id := r], u, c) {
        var k :| k in rows[id := r] && rows[id := r][k].userid == u && rows[id := r][k].courseid == c &&
                 rows[id := r][k].status == Issued;
        assert k != id;
        assert k in rows && rows[k] == rows[id := r][k];
      }
      if HasIssued(rows, u, c) {
        var k :| k in rows && rows[k].userid == u && rows[k].courseid == c && rows[k].status == Issued;
        assert k in rows[id := r] && rows[id := r][k] == rows[k];
      }
    }
  }

  /** The row the observer creates satisfies the issuance record invariants. */
  lemma NewIssuanceWellFormed(userid: int, courseid: int, cfg: EffectiveConfig, courseGrade: Option<real>, now: int)
    ensures WellFormed(NewIssuance(userid, courseid, cfg, courseGrade, now))
  {
  }

  /**
   * The observer's task and the grade-wait retry's task carry the same custom data, but the
   * retry also sets user 0 and the component while the observer's task sets neither; whether
   * the task manager treats them as one task is up to the host.
   */
  lemma InitialAndRetryTasksShareCustomData(iss: Issuance, cfg: EffectiveConfig, now: int, runAt: int)
    ensures var t0, t1 := InitialTask(iss, cfg, now), RetryTask(iss, runAt);
            && t0.issuanceid == t1.issuanceid && t0.categoryid == t1.categoryid
            && t0.userid != t1.userid && t0.component != t1.component
  {
  }

  /**
   * The first run of a freshly created row that sends grades and finds no grade yet waits 15
   * seconds and asks again through reschedule-or-queue; the row is then retrying with one attempt.
   */
  lemma FirstRunOfNewRowWaits(rows: map<int, Issuance>, userid: int, courseid: int, cfg: EffectiveConfig,
                              courseGrade: Option<real>, now: int, id: int, env: RunEnv)
    requires GradeMissing(env)
    ensures var iss := NewIssuance(userid, courseid, cfg, courseGrade, now).(id := id);
            var o := Step(rows, iss, env);
            && o.record.status == Retrying && o.record.attempts == 1
            && o.request == Some(RescheduleOrQueue(RetryTask(iss, env.now + 15)))
  {
    var iss := NewIssuance(userid, courseid, cfg, courseGrade, now).(id := id);
    assert RouteOf(rows, iss, env) == GradeWait;
    GradeWaitLadder(rows, iss, env);
  }
}
