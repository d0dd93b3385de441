/**
 * The persisted issuance record (one row of the issuances table), the adhoc task the plugin
 * hands to the host task manager, and the host side effects a run can cause.
 */
module Records {
  import opened Common

  /** The `status` column; the source stores these as the strings 'pending', 'retrying', 'issued', 'failed'. */
  datatype Status = Pending | Retrying | Issued | Failed

  /** The `errorcode` column. */
  datatype ErrorCode = UserOrCourseNotFound | CourseConfigNotFound | MissingGradeItem | GradeTimeout | ApiError {
    /** The string stored in the table. */
    function Code(): string {
      match this
      case UserOrCourseNotFound => "USER_OR_COURSE_NOT_FOUND"
      case CourseConfigNotFound => "COURSE_CONFIG_NOT_FOUND"
      case MissingGradeItem => "NO_GRADE_ITEM"
      case GradeTimeout => "GRADE_TIMEOUT"
      case ApiError => "API_ERROR"
    }
  }

  /** The reason the grade freshness oracle gives for its verdict. */
  datatype Reason =
    | NoGradeItem
    | NoGrade
    | TimemodifiedFresh
    | GradebookSettled
    | GradebookNeedsUpdate
    | TimemodifiedStaleFirstRun

  /**
   * The `errormessage` column. Fixed texts and exception messages are kept as strings; the
   * grade-timeout diagnostic is kept as the values it is formatted from.
   */
  datatype ErrorMessage =
    | Text(text: string)
    | GradeNotReady(attempts: nat, totalWait: int, reason: Reason, gradeModified: Option<int>,
                    timecompleted: int, needsUpdate: bool)

  /** One row of the issuances table. The grade is carried as an opaque number of points. */
  datatype Issuance = Issuance(
    id: int,
    userid: int,
    courseid: int,
    templateid: Option<string>,
    categoryid: Option<int>,
    status: Status,
    attempts: nat,
    grade: Option<real>,
    timecompleted: Option<int>,
    timecreated: int,
    timemodified: int,
    timeissued: Option<int>,
    credentialid: Option<string>,
    errorcode: Option<ErrorCode>,
    errormessage: Option<ErrorMessage>)

  /**
   * An issue_credential adhoc task as the plugin builds it: the custom data
   * {issuanceid, categoryid}, the user and component when the caller sets them, and the
   * next run time (`None`: run as soon as possible).
   */
  datatype AdhocTask = AdhocTask(
    issuanceid: int,
    categoryid: Option<int>,
    userid: Option<int>,
    component: Option<string>,
    nextRunTime: Option<int>)

  /** A call into the host task manager: a plain queue, or the de-duplicating reschedule-or-queue. */
  datatype TaskRequest = Queue(task: AdhocTask) | RescheduleOrQueue(task: AdhocTask)

  /** Host side effects: a forced regrade, the two events, and a message to the learner. */
  datatype Effect =
    | Regraded(courseid: int, userid: int)
    | CredentialIssuedEvent(issuanceid: int)
    | CredentialFailedEvent(issuanceid: int, message: ErrorMessage)
    | Notified(userid: int, courseid: int, success: bool)

  /** The component name the retry path sets on its task. */
  const Component: string := "local_credentium"
}
