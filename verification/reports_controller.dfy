/**
 * Reading back a report request: BRANCH users see the reports of their own
 * branch and those without a branch; every other caller sees all of them.
 */
module ReportsController {
  import opened Base
  import opened Entities
  import opened Errors
  import opened Security
  import opened ReportListener
  import opened SalesController

  const ViewScopeMessage := "branch users can only view their own reports"

  /** The visibility rule: a BRANCH caller may not see another branch's report. */
  predicate Hidden(rr: ReportRequest, role: Option<string>, userBranch: Option<string>) {
    HasRole(role, BRANCH) && rr.branch.Some? && rr.branch != userBranch
  }

  /** The report as the endpoint shows it: status name, error note as message, no estimate. */
  function ReportView(rr: ReportRequest): (d: SummaryResponse)
    ensures d.requestId == rr.id && d.requestedAt == rr.requestedAt && d.summaryText == rr.summaryText
    ensures d.message == rr.errorMessage && d.estimatedTime.None? && d.features.None?
    ensures d.status.None? <==> rr.status.None?
    ensures rr.status.Some? ==> d.status == Some(StatusName(rr.status.value))
  {
    SummaryResponse(rr.id, if rr.status.Some? then Some(StatusName(rr.status.value)) else None,
                    rr.errorMessage, None, rr.requestedAt, None, rr.summaryText)
  }

  /** `getReport`: not found, forbidden by the visibility rule, or the report's view. */
  function GetReport(rows: map<string, ReportRequest>, id: string, auth: Option<Authentication>): (r: Result<SummaryResponse>)
    ensures id !in rows <==> r == Throw(NotFound, "report request not found")
    ensures id in rows ==>
      (Hidden(rows[id], CurrentRole(auth), CurrentBranch(auth)) <==> r == Throw(Forbidden, ViewScopeMessage))
    ensures r.Ok? ==> id in rows && r.value == ReportView(rows[id])
    ensures r.Ok? && HasRole(CurrentRole(auth), BRANCH) ==>
      rows[id].branch.None? || rows[id].branch == CurrentBranch(auth)
    ensures id in rows && !Hidden(rows[id], CurrentRole(auth), CurrentBranch(auth)) ==> r == Ok(ReportView(rows[id]))
  {
    if id !in rows then Throw(NotFound, "report request not found")
    else
      var rr := rows[id];
      if Hidden(rr, CurrentRole(auth), CurrentBranch(auth)) then Throw(Forbidden, ViewScopeMessage)
      else Ok(ReportView(rr))
  }

  /** Callers other than BRANCH users see every stored report. */
  lemma NonBranchSeesAll(rows: map<string, ReportRequest>, id: string, auth: Option<Authentication>)
    requires id in rows && !HasRole(CurrentRole(auth), BRANCH)
    ensures GetReport(rows, id, auth) == Ok(ReportView(rows[id]))
  {
  }

  /** A report without a branch is visible to everyone. */
  lemma UnscopedReportVisible(rows: map<string, ReportRequest>, id: string, auth: Option<Authentication>)
    requires id in rows && rows[id].branch.None?
    ensures GetReport(rows, id, auth).Ok?
  {
  }

  /**
   * Whoever requests a summary can read it back with the same credentials,
   * and sees it PROCESSING until the job has run.
   */
  lemma RequesterSeesOwnReport(rows: map<string, ReportRequest>, req: SummaryRequest, auth: Option<Authentication>,
                               today: LocalDate, uuid: string, now: Instant)
    requires RequestWeeklySummary(rows, req, auth, today, uuid, now).Ok?
    ensures var a := RequestWeeklySummary(rows, req, auth, today, uuid, now).value;
      var r := GetReport(a.rows, a.event.requestId, auth);
      && r.Ok?
      && r.value.requestId == a.response.requestId
      && r.value.status == Some("PROCESSING") && r.value.summaryText.None?
  {
    var a := RequestWeeklySummary(rows, req, auth, today, uuid, now).value;
    BranchScopedRow(rows, req, auth, today, uuid, now);
  }

  /** The row stored for a BRANCH requester names their branch, so they are never hidden from it. */
  lemma BranchScopedRow(rows: map<string, ReportRequest>, req: SummaryRequest, auth: Option<Authentication>,
                        today: LocalDate, uuid: string, now: Instant)
    requires RequestWeeklySummary(rows, req, auth, today, uuid, now).Ok?
    ensures var a := RequestWeeklySummary(rows, req, auth, today, uuid, now).value;
      !Hidden(a.rows[a.event.requestId], CurrentRole(auth), CurrentBranch(auth))
  {
  }

  /**
   * Once the job has stored its result, the report shows the final status,
   * the summary it chose and the error note it left.
   */
  lemma JobResultVisible(rows: map<string, ReportRequest>, e: Event, env: Env, auth: Option<Authentication>)
    requires HandleReportRequested(rows, e, env).Finished?
    requires !HasRole(CurrentRole(auth), BRANCH)
    ensures var o := HandleReportRequested(rows, e, env);
      var r := GetReport(rows[e.requestId := o.row], e.requestId, auth);
      && r.Ok?
      && (r.value.status == Some("DONE") || r.value.status == Some("FAILED"))
      && r.value.summaryText == o.row.summaryText
      && r.value.message == o.row.errorMessage
  {
  }
}
