/**
 * The small decision functions of the issue_credential task: the two retry ladders, the
 * total grade wait, the grade freshness oracle and the per-category rate limit.
 */
module Policy {
  import opened Common
  import opened Records

  /** GRADE_RETRY_DELAYS: seconds to wait before re-checking a grade that is not fresh. */
  const GradeRetryDelays: seq<int> := [15, 60, 180, 600, 1800]
  /** MAX_GRADE_ATTEMPTS. */
  const MaxGradeAttempts: nat := 5
  /** FRESHNESS_TOLERANCE, in seconds. */
  const FreshnessTolerance: int := 60
  /** An API failure is retried while the attempt counter is below this. */
  const MaxApiAttempts: nat := 3
  /** Base and cap of the exponential API-error ladder, in seconds. */
  const ApiBaseDelay: int := 300
  const ApiMaxDelay: int := 3600
  /** Re-queue delays for the two operational holds, in seconds. */
  const PausedDelay: int := 3600
  const RateLimitedDelay: int := 600
  /** The rate-limit window, in seconds. */
  const RateWindow: int := 3600

  function Min(a: int, b: int): int { if a <= b then a else b }

  // ---------------------------------------------------------------- grade-wait ladder

  /** The grade-wait delay after `attempts` earlier executions: the ladder entry, the last one once past its end. */
  function GradeRetryDelay(attempts: nat): (d: int)
    ensures d in GradeRetryDelays
    ensures attempts < |GradeRetryDelays| ==> d == GradeRetryDelays[attempts]
    ensures attempts >= |GradeRetryDelays| ==> d == GradeRetryDelays[|GradeRetryDelays| - 1]
  {
    GradeRetryDelays[Min(attempts, |GradeRetryDelays| - 1)]
  }

  /** The total grade wait after `n` executions: the ladder summed over its first `n` steps. */
  function TotalWait(n: nat): int
  {
    if n == 0 then 0 else TotalWait(n - 1) + GradeRetryDelay(n - 1)
  }

  /** `calculate_total_wait`: the accumulating loop, proved equal to the ladder sum. */
  method CalculateTotalWait(attempts: nat) returns (total: int)
    ensures total == TotalWait(attempts)
  {
    total := 0;
    var lastindex := |GradeRetryDelays| - 1;
    var i := 0;
    while i < attempts
      invariant 0 <= i <= attempts
      invariant total == TotalWait(i)
    {
      var delayindex := Min(i, lastindex);
      total := total + GradeRetryDelays[delayindex];
      i := i + 1;
    }
  }

  /** No wait before the first execution; the whole ladder (15+60+180+600+1800) after five; 1800 more for each further step. */
  lemma {:induction false} TotalWaitValues(n: nat)
    ensures TotalWait(0) == 0
    ensures TotalWait(5) == 2655
    ensures n >= 5 ==> TotalWait(n) == 2655 + 1800 * (n - 5)
  {
    assert TotalWait(1) == 15;
    assert TotalWait(2) == 75;
    assert TotalWait(3) == 255;
    assert TotalWait(4) == 855;
    assert TotalWait(5) == 2655;
    if n > 5 {
      TotalWaitValues(n - 1);
    }
  }

  /** The total wait only grows, by at least the shortest delay (15s) per step. */
  lemma {:induction false} TotalWaitMonotone(m: nat, n: nat)
    requires m <= n
    ensures TotalWait(m) <= TotalWait(n)
    ensures TotalWait(n) - TotalWait(m) >= 15 * (n - m)
  {
    if m < n {
      TotalWaitMonotone(m, n - 1);
    }
  }

  // ---------------------------------------------------------------- API-error ladder

  function Pow2(k: nat): (p: int)
    ensures p >= 1
  {
    if k == 0 then 1 else 2 * Pow2(k - 1)
  }

  /** The API-error delay once the counter reads `attempts` (at least 1, as it was just incremented). */
  function ApiRetryDelay(attempts: nat): (d: int)
    requires attempts >= 1
    ensures ApiBaseDelay <= d <= ApiMaxDelay
  {
    Min(ApiBaseDelay * Pow2(attempts - 1), ApiMaxDelay)
  }

  /** The ladder doubles from 300s and is capped at 3600s from the fifth attempt on. */
  lemma {:induction false} ApiRetryDelayValues(attempts: nat)
    requires attempts >= 1
    ensures ApiRetryDelay(1) == 300 && ApiRetryDelay(2) == 600 && ApiRetryDelay(3) == 1200
    ensures ApiRetryDelay(4) == 2400
    ensures attempts >= 5 ==> ApiRetryDelay(attempts) == 3600
  {
    assert Pow2(1) == 2 && Pow2(2) == 4 && Pow2(3) == 8 && Pow2(4) == 16;
    if attempts >= 5 {
      Pow2AtLeast(attempts - 1, 4);
    }
  }

  lemma {:induction false} Pow2AtLeast(k: nat, j: nat)
    requires j <= k
    ensures Pow2(j) <= Pow2(k)
  {
    if j < k {
      Pow2AtLeast(k - 1, j);
    }
  }

  /** A later API retry never waits less than an earlier one. */
  lemma ApiRetryDelayMonotone(a: nat, b: nat)
    requires 1 <= a <= b
    ensures ApiRetryDelay(a) <= ApiRetryDelay(b)
  {
    Pow2AtLeast(b - 1, a - 1);
  }

  // ---------------------------------------------------------------- grade freshness oracle

  /** The learner's row in the gradebook for the course grade item. */
  datatype GradeRecord = GradeRecord(finalgrade: Option<real>, timemodified: int)

  /**
   * What the gradebook says when `check_grade_freshness` reads it, after the optional regrade:
   * whether the course has a grade item, that item's own needs-update flag, the learner's
   * grade row if any, and the course-wide needs-regrade flag as read at that time.
   */
  datatype GradeSnapshot = GradeSnapshot(hasItem: bool, itemNeedsUpdate: bool, record: Option<GradeRecord>,
                                         needsUpdate: bool)

  /** The oracle's answer (the parts the task uses; grademax and gradepass feed only logging). */
  datatype GradeCheck = GradeCheck(isFresh: bool, grade: Option<real>, timemodified: Option<int>,
                                   needsUpdate: bool, reason: Reason)

  /** A final grade is present. */
  predicate HasFinalGrade(snap: GradeSnapshot) {
    snap.hasItem && snap.record.Some? && snap.record.value.finalgrade.Some?
  }

  /** `check_grade_freshness`. */
  function CheckGradeFreshness(snap: GradeSnapshot, timecompleted: int, executionnum: int): (r: GradeCheck)
    ensures r.reason == NoGradeItem <==> !snap.hasItem
    ensures r.reason == NoGrade <==> snap.hasItem && !HasFinalGrade(snap)
    ensures r.isFresh ==> HasFinalGrade(snap) && r.grade == snap.record.value.finalgrade
    ensures r.isFresh <==> r.reason in {TimemodifiedFresh, GradebookSettled}
    ensures r.reason == NoGrade ==> r.needsUpdate == snap.itemNeedsUpdate
    ensures HasFinalGrade(snap) ==> r.needsUpdate == snap.needsUpdate
  {
    if !snap.hasItem then
      GradeCheck(false, None, None, false, NoGradeItem)
    else if snap.record.None? || snap.record.value.finalgrade.None? then
      GradeCheck(false, None, None, snap.itemNeedsUpdate, NoGrade)
    else
      var g := snap.record.value;
      if g.timemodified >= timecompleted - FreshnessTolerance then
        GradeCheck(true, g.finalgrade, Some(g.timemodified), snap.needsUpdate, TimemodifiedFresh)
      else if !snap.needsUpdate && executionnum > 1 then
        GradeCheck(true, g.finalgrade, Some(g.timemodified), snap.needsUpdate, GradebookSettled)
      else
        GradeCheck(false, g.finalgrade, Some(g.timemodified), snap.needsUpdate,
                   if snap.needsUpdate then GradebookNeedsUpdate else TimemodifiedStaleFirstRun)
  }

  /**
   * When a grade is trustworthy, stated outright: a final grade exists and was written no more
   * than the tolerance before completion, or the gradebook is clean and this is not the first run.
   */
  ghost predicate Trustworthy(snap: GradeSnapshot, timecompleted: int, executionnum: int) {
    && HasFinalGrade(snap)
    && (|| snap.record.value.timemodified >= timecompleted - FreshnessTolerance
        || (!snap.needsUpdate && executionnum > 1))
  }

  /** The oracle accepts exactly the trustworthy grades, and names the rule that rejected the others. */
  lemma FreshnessCharacterised(snap: GradeSnapshot, timecompleted: int, executionnum: int)
    ensures CheckGradeFreshness(snap, timecompleted, executionnum).isFresh <==> Trustworthy(snap, timecompleted, executionnum)
    ensures var r := CheckGradeFreshness(snap, timecompleted, executionnum);
            HasFinalGrade(snap) && !r.isFresh ==>
              r.reason == (if snap.needsUpdate then GradebookNeedsUpdate else TimemodifiedStaleFirstRun)
  {
  }

  /** The tolerance is inclusive: 60s before completion is fresh; 61s before is fresh only on a later run over a clean gradebook. */
  lemma FreshnessBoundary(finalgrade: real, timecompleted: int, itemFlag: bool, needsUpdate: bool, executionnum: int)
    ensures var s := GradeSnapshot(true, itemFlag, Some(GradeRecord(Some(finalgrade), timecompleted - 60)), needsUpdate);
            CheckGradeFreshness(s, timecompleted, executionnum) ==
              GradeCheck(true, Some(finalgrade), Some(timecompleted - 60), needsUpdate, TimemodifiedFresh)
    ensures var s := GradeSnapshot(true, itemFlag, Some(GradeRecord(Some(finalgrade), timecompleted - 61)), needsUpdate);
            CheckGradeFreshness(s, timecompleted, executionnum).isFresh <==> (!needsUpdate && executionnum > 1)
  {
  }

  /**
   * `maybe_regrade_course`'s decision, from the course-wide needs-regrade flag as read before
   * the regrade (`dirty`): regrade on the first execution, or later while the gradebook is
   * dirty, if the course has a grade item.
   */
  function ShouldRegrade(executionnum: int, hasItem: bool, dirty: bool): (b: bool)
    ensures b ==> hasItem
    ensures hasItem && executionnum <= 1 ==> b
    ensures executionnum > 1 ==> (b <==> hasItem && dirty)
  {
    if executionnum > 1 && !dirty then false
    else hasItem
  }

  // ---------------------------------------------------------------- rate limit

  /** A row counts toward a category's rate limit: issued, in the same bucket (null only with null), within the last hour. */
  predicate CountsTowardLimit(r: Issuance, categoryid: Option<int>, now: int) {
    && r.status == Issued
    && r.categoryid == categoryid
    && r.timeissued.Some?
    && r.timeissued.value >= now - RateWindow
  }

  /** The ids the rate-limit query counts. */
  function RecentIssued(rows: map<int, Issuance>, categoryid: Option<int>, now: int): (ids: set<int>)
    ensures forall id :: id in ids <==> id in rows && CountsTowardLimit(rows[id], categoryid, now)
  {
    set id | id in rows && CountsTowardLimit(rows[id], categoryid, now)
  }

  /** `check_rate_limit`: true while strictly fewer than `limit` credentials were issued in the window. */
  function CheckRateLimit(rows: map<int, Issuance>, categoryid: Option<int>, limit: int, now: int): bool
  {
    |RecentIssued(rows, categoryid, now)| < limit
  }

  /** A newly stored issued row in the same bucket and window raises the count by exactly one. */
  lemma IssuedRowCounts(rows: map<int, Issuance>, id: int, r: Issuance, categoryid: Option<int>, now: int)
    requires id !in rows && CountsTowardLimit(r, categoryid, now)
    ensures |RecentIssued(rows[id := r], categoryid, now)| == |RecentIssued(rows, categoryid, now)| + 1
  {
    assert RecentIssued(rows[id := r], categoryid, now) == RecentIssued(rows, categoryid, now) + {id};
  }

  /** A row that does not count (another bucket, not issued, outside the window) leaves every count unchanged. */
  lemma OtherRowsDoNotCount(rows: map<int, Issuance>, id: int, r: Issuance, categoryid: Option<int>, now: int)
    requires id !in rows && !CountsTowardLimit(r, categoryid, now)
    ensures RecentIssued(rows[id := r], categoryid, now) == RecentIssued(rows, categoryid, now)
  {
  }

  /**
   * The limit is a strict bound on the table: with one credential short of the limit issued in
   * the window the run may go on; one more issued row in the bucket and window stops it, while
   * a row that does not count (another bucket, not issued, outside the window) changes nothing.
   */
  lemma RateLimitBoundary(rows: map<int, Issuance>, id: int, issued: Issuance, other: Issuance,
                          categoryid: Option<int>, limit: int, now: int)
    requires id !in rows
    requires |RecentIssued(rows, categoryid, now)| == limit - 1
    ensures CheckRateLimit(rows, categoryid, limit, now)
    ensures CountsTowardLimit(issued, categoryid, now) ==> !CheckRateLimit(rows[id := issued], categoryid, limit, now)
    ensures !CountsTowardLimit(other, categoryid, now) ==> CheckRateLimit(rows[id := other], categoryid, limit, now)
  {
    if CountsTowardLimit(issued, categoryid, now) {
      IssuedRowCounts(rows, id, issued, categoryid, now);
    }
    if !CountsTowardLimit(other, categoryid, now) {
      OtherRowsDoNotCount(rows, id, other, categoryid, now);
    }
  }
}
