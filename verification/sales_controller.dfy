/**
 * The sales controller's own logic: the caller is read from the security
 * context, the listing's query defaults and page request, and the weekly
 * summary request, which stores a PROCESSING report request and hands an
 * event to the report job. The clock, the UUID source and `Instant.parse`
 * are parameters.
 */
module SalesController {
  import opened Base
  import opened JavaString
  import opened Entities
  import opened Errors
  import opened Security
  import opened SalesService
  import opened ReportListener
  import Aggregation
  import opened Validation

  // ---------------------------------------------------------------------------
  // Listing

  /** `Instant.EPOCH`. */
  const Epoch: Instant := 0

  const DefaultPage := 0
  const DefaultSize := 20

  /** `PageRequest.of(page, size)`: a negative page or a size below one is refused. */
  function PageRequestOf(page: int, size: int): (r: Result<Pageable>)
    ensures r.Ok? <==> page >= 0 && size >= 1
    ensures r.Ok? ==> r.value.page == page && r.value.size == size
    ensures r.Err? ==> r.error.kind == Internal
    requires -TwoTo31 <= page < TwoTo31 && -TwoTo31 <= size < TwoTo31
  {
    if page < 0 then Throw(Internal, "Page index must not be less than zero")
    else if size < 1 then Throw(Internal, "Page size must not be less than one")
    else Ok(PageRequest(page, size))
  }

  /** A query parameter read with `Instant.parse`, or the default when absent. */
  function InstantParam(text: Option<string>, parse: string -> Option<Instant>, default: Instant): (r: Result<Instant>)
    ensures text.None? ==> r == Ok(default)
    ensures text.Some? && parse(text.value).Some? ==> r == Ok(parse(text.value).value)
    ensures text.Some? && parse(text.value).None? ==> r.Err? && r.error.kind == Internal
  {
    match text
    case None => Ok(default)
    case Some(t) => if parse(t).Some? then Ok(parse(t).value) else Err(Error(Internal, None))
  }

  /**
   * `listSales`: `from` defaults to the epoch, `to` to now, page to 0 and size
   * to 20; then the service lists for the caller's role and branch.
   */
  function ListSalesEndpoint(table: seq<Sale>, fromText: Option<string>, toText: Option<string>, branch: Option<string>,
                             page: Option<int>, size: Option<int>, auth: Option<Authentication>,
                             parse: string -> Option<Instant>, now: Instant): (r: Result<SalesPage>)
    requires page.Some? ==> -TwoTo31 <= page.value < TwoTo31
    requires size.Some? ==> -TwoTo31 <= size.value < TwoTo31
    ensures fromText.None? && toText.None? && page.None? && size.None? ==>
      r == Ok(ListSales(table, Epoch, now, branch, PageRequest(DefaultPage, DefaultSize), CurrentRole(auth), CurrentBranch(auth)))
    ensures r.Ok? ==> |r.value.content| <= r.value.pageable.size
    ensures r.Ok? && HasRole(CurrentRole(auth), BRANCH) && !NullOrBlank(CurrentBranch(auth)) ==>
      forall i :: 0 <= i < |r.value.content| ==> r.value.content[i].branch == CurrentBranch(auth).value
    ensures (page.Some? && page.value < 0) || (size.Some? && size.value < 1) ==> r.Err?
    ensures InstantParam(fromText, parse, Epoch).Err? || InstantParam(toText, parse, now).Err? ==> r.Err?
    ensures InstantParam(fromText, parse, Epoch).Ok? && InstantParam(toText, parse, now).Ok?
            && page.GetOr(DefaultPage) >= 0 && size.GetOr(DefaultSize) >= 1 ==>
      r == Ok(ListSales(table, InstantParam(fromText, parse, Epoch).value, InstantParam(toText, parse, now).value, branch,
                        PageRequest(page.GetOr(DefaultPage), size.GetOr(DefaultSize)), CurrentRole(auth), CurrentBranch(auth)))
  {
    match InstantParam(fromText, parse, Epoch)
    case Err(e) => Err(e)
    case Ok(from) =>
      match InstantParam(toText, parse, now)
      case Err(e) => Err(e)
      case Ok(to) =>
        match PageRequestOf(page.GetOr(DefaultPage), size.GetOr(DefaultSize))
        case Err(e) => Err(e)
        case Ok(p) => Ok(ListSales(table, from, to, branch, p, CurrentRole(auth), CurrentBranch(auth)))
  }

  /**
   * `listSales` as written: the same parameters, handed to the service's own
   * listing, whose unfiltered path pages through a 32-bit cast.
   */
  function ListSalesEndpointAsWritten(table: seq<Sale>, fromText: Option<string>, toText: Option<string>, branch: Option<string>,
                                      page: Option<int>, size: Option<int>, auth: Option<Authentication>,
                                      parse: string -> Option<Instant>, now: Instant): (r: Result<SalesPage>)
    requires page.Some? ==> -TwoTo31 <= page.value < TwoTo31
    requires size.Some? ==> -TwoTo31 <= size.value < TwoTo31
    ensures (page.Some? && page.value < 0) || (size.Some? && size.value < 1) ==> r.Err?
    ensures InstantParam(fromText, parse, Epoch).Err? || InstantParam(toText, parse, now).Err? ==> r.Err?
    ensures InstantParam(fromText, parse, Epoch).Ok? && InstantParam(toText, parse, now).Ok?
            && page.GetOr(DefaultPage) >= 0 && size.GetOr(DefaultSize) >= 1 ==>
      r == ListSalesAsWritten(table, InstantParam(fromText, parse, Epoch).value, InstantParam(toText, parse, now).value, branch,
                              PageRequest(page.GetOr(DefaultPage), size.GetOr(DefaultSize)), CurrentRole(auth), CurrentBranch(auth))
    ensures page.GetOr(DefaultPage) * size.GetOr(DefaultSize) + size.GetOr(DefaultSize) < TwoTo31 ==>
      r == ListSalesEndpoint(table, fromText, toText, branch, page, size, auth, parse, now)
  {
    match InstantParam(fromText, parse, Epoch)
    case Err(e) => Err(e)
    case Ok(from) =>
      match InstantParam(toText, parse, now)
      case Err(e) => Err(e)
      case Ok(to) =>
        match PageRequestOf(page.GetOr(DefaultPage), size.GetOr(DefaultSize))
        case Err(e) => Err(e)
        case Ok(p) => ListSalesAsWritten(table, from, to, branch, p, CurrentRole(auth), CurrentBranch(auth))
  }

  /**
   * The discrepancy at the endpoint: an unfiltered caller asking for page 65536
   * of size 65536 over one sale gets that sale back with total 2^32 + 1, where
   * the intended listing answers an empty page with total 1.
   */
  lemma EndpointWrapsOffset(s: Sale, auth: Option<Authentication>, parse: string -> Option<Instant>, now: Instant)
    requires !HasRole(CurrentRole(auth), BRANCH) && 0 <= s.soldAt <= now
    ensures ListSalesEndpointAsWritten([s], None, None, None, Some(65536), Some(65536), auth, parse, now)
            == Ok(SalesPage(Dtos([s]), PageRequest(65536, 65536), TwoTo32 + 1))
    ensures ListSalesEndpoint([s], None, None, None, Some(65536), Some(65536), auth, parse, now)
            == Ok(SalesPage([], PageRequest(65536, 65536), 1))
  {
    var p: Pageable := PageRequest(65536, 65536);
    Aggregation.SelectSingle(s, Epoch, now, None);
    WrappedOffsetRepeatsFirstPage(s);
    var intended := ListSales([s], Epoch, now, None, p, CurrentRole(auth), CurrentBranch(auth));
    assert |intended.content| == 0;
  }

  // ---------------------------------------------------------------------------
  // Weekly summary request

  /** The body of a weekly summary request. */
  datatype SummaryRequest = SummaryRequest(
    from: Option<LocalDate>,
    to: Option<LocalDate>,
    branch: Option<string>,
    emailTo: Option<string>,
    format: Option<string>)

  /** The response body shared by the summary endpoints. */
  datatype SummaryResponse = SummaryResponse(
    requestId: Option<string>,
    status: Option<string>,
    message: Option<string>,
    estimatedTime: Option<string>,
    requestedAt: Option<Instant>,
    features: Option<seq<string>>,
    summaryText: Option<string>)

  /**
   * The requested dates with the missing ones filled in: the last full seven
   * days ending yesterday. Only the missing end is replaced.
   */
  function DefaultDates(from: Option<LocalDate>, to: Option<LocalDate>, today: LocalDate): (r: (LocalDate, LocalDate))
    ensures from.Some? ==> r.0 == from.value
    ensures to.Some? ==> r.1 == to.value
    ensures from.None? ==> r.0 == today - 7
    ensures to.None? ==> r.1 == today - 1
    ensures from.None? && to.None? ==> r.1 - r.0 + 1 == 7 && r.1 < today
  {
    var end := today - 1;
    var start := end - 6;
    (if from.Some? then from.value else start, if to.Some? then to.value else end)
  }

  const BranchScopeMessage := "Branch users can only request summaries for their assigned branch"

  /** A BRANCH user may only name their own branch (or none), and always gets it. */
  function ScopeBranch(branch: Option<string>, role: Option<string>, userBranch: Option<string>): (r: Result<Option<string>>)
    ensures HasRole(role, BRANCH) && !NullOrBlank(branch) && branch != userBranch <==> r == Throw(Forbidden, BranchScopeMessage)
    ensures r.Ok? && HasRole(role, BRANCH) ==> r.value == userBranch
    ensures !HasRole(role, BRANCH) ==> r == Ok(branch)
  {
    if HasRole(role, BRANCH) then
      if !NullOrBlank(branch) && branch != userBranch then Throw(Forbidden, BranchScopeMessage)
      else Ok(userBranch)
    else Ok(branch)
  }

  const MessageHead := "Su solicitud de reporte está siendo procesada. Recibirá el resumen en "
  const MessageTail := " en unos momentos."

  /** The acknowledgement, naming the address (`null` when absent). */
  function AcceptedMessage(emailTo: Option<string>): (m: string)
    ensures Contains(m, NullText(emailTo))
  {
    ContainsInfix(MessageHead, NullText(emailTo), MessageTail);
    MessageHead + NullText(emailTo) + MessageTail
  }

  /** What the endpoint returns: the stored rows, the event published, and the 202 body. */
  datatype Acceptance = Acceptance(rows: map<string, ReportRequest>, event: Event, response: SummaryResponse)

  /**
   * `requestWeeklySummary`: fills in missing dates, scopes the branch, stores a
   * new report request (PROCESSING, requested now, by the caller) and
   * publishes an event describing the same request; answers 202 with its id.
   */
  function RequestWeeklySummary(rows: map<string, ReportRequest>, req: SummaryRequest, auth: Option<Authentication>,
                                today: LocalDate, uuid: string, now: Instant): (r: Result<Acceptance>)
    ensures ScopeBranch(req.branch, CurrentRole(auth), CurrentBranch(auth)).Err? ==>
      r == Throw(Forbidden, BranchScopeMessage)
    ensures r.Ok? ==>
      var id := r.value.event.requestId;
      var (from, to) := DefaultDates(req.from, req.to, today);
      && r.value.rows.Keys == rows.Keys + {id} && id !in rows
      && (forall k :: k in rows ==> r.value.rows[k] == rows[k])
      && var row := r.value.rows[id];
      && row.id == Some(id) && id == GeneratedId("req_", uuid)
      && row.fromDate == Some(from) && row.toDate == Some(to)
      && row.branch == r.value.event.branch && row.emailTo == req.emailTo == r.value.event.emailTo
      && row.requestedBy == CurrentUsername(auth) == r.value.event.requestedBy
      && r.value.event.from == Some(from) && r.value.event.to == Some(to)
      && row.status == Some(PROCESSING) && row.requestedAt == Some(now)
      && row.completedAt.None? && row.summaryText.None? && row.errorMessage.None?
      && r.value.response.requestId == Some(id)
      && r.value.response.status == Some("PROCESSING")
      && r.value.response.requestedAt == Some(now)
    ensures r.Ok? && HasRole(CurrentRole(auth), BRANCH) ==> r.value.event.branch == CurrentBranch(auth)
    ensures r.Ok? && !HasRole(CurrentRole(auth), BRANCH) ==> r.value.event.branch == req.branch
    ensures r.Ok? ==> r.value.response.message.Some? && Contains(r.value.response.message.value, NullText(req.emailTo))
    ensures (ScopeBranch(req.branch, CurrentRole(auth), CurrentBranch(auth)).Ok? && req.emailTo.Some?
             && GeneratedId("req_", uuid) !in rows) ==> r.Ok?
  {
    var (from, to) := DefaultDates(req.from, req.to, today);
    match ScopeBranch(req.branch, CurrentRole(auth), CurrentBranch(auth))
    case Err(e) => Err(e)
    case Ok(branch) =>
      var row := ReportPrePersist(
        ReportRequest(None, Some(from), Some(to), branch, req.emailTo, CurrentUsername(auth), None, None, None, None, None),
        uuid, now);
      var id := row.id.value;
      if req.emailTo.None? || id in rows then Err(Error(Internal, None))
      else
        var e := Event(id, Some(from), Some(to), branch, req.emailTo, CurrentUsername(auth));
        var status := if row.status.Some? then StatusName(row.status.value) else StatusName(PROCESSING);
        var resp := SummaryResponse(Some(id), Some(status), Some(AcceptedMessage(req.emailTo)),
                                    Some("30-60 segundos"), row.requestedAt, None, None);
        Ok(Acceptance(rows[id := row], e, resp))
  }

  /**
   * The constraints on the summary body: `@NotBlank @Email` on `emailTo`, with
   * `@Email` reduced to the non-blank test. The other fields are unconstrained.
   */
  function SummaryRequestViolations(req: SummaryRequest): (v: set<string>)
    ensures v <= {"emailTo"}
    ensures "emailTo" in v <==> !NotBlankField(req.emailTo)
  {
    if NotBlankField(req.emailTo) then {} else {"emailTo"}
  }

  /**
   * The endpoint behind its `@Valid` step: a violation is refused before the
   * body runs; the generic handler answers it with 500.
   */
  function RequestWeeklySummaryValidated(rows: map<string, ReportRequest>, req: SummaryRequest, auth: Option<Authentication>,
                                         today: LocalDate, uuid: string, now: Instant): (r: Result<Acceptance>)
    ensures SummaryRequestViolations(req) != {} ==> r.Err? && r.error.kind == Internal
    ensures SummaryRequestViolations(req) == {} ==> r == RequestWeeklySummary(rows, req, auth, today, uuid, now)
    ensures r.Ok? ==> NotBlankField(r.value.event.emailTo) && r.value.rows[r.value.event.requestId].emailTo == r.value.event.emailTo
  {
    if SummaryRequestViolations(req) != {} then Err(Error(Internal, None))
    else RequestWeeklySummary(rows, req, auth, today, uuid, now)
  }

  /** A blank address never gets a request stored: the validator refuses it first. */
  lemma BlankAddressRefused(rows: map<string, ReportRequest>, req: SummaryRequest, auth: Option<Authentication>,
                            today: LocalDate, uuid: string, now: Instant)
    requires req.emailTo.None? || AllTrimmable(req.emailTo.value)
    ensures RequestWeeklySummaryValidated(rows, req, auth, today, uuid, now).Err?
  {
    if req.emailTo.Some? {
      TrimEmptyIff(req.emailTo.value);
    }
  }

  /**
   * The job started by an accepted request always finds its row and always
   * has dates, so it never aborts and never fails for missing dates: it
   * aggregates exactly the requested days, ends DONE unless the aggregation
   * fails, and leaves a summary exactly when it ends DONE.
   */
  lemma RequestThenJob(rows: map<string, ReportRequest>, req: SummaryRequest, auth: Option<Authentication>,
                       today: LocalDate, uuid: string, now: Instant, env: Env)
    requires RequestWeeklySummary(rows, req, auth, today, uuid, now).Ok?
    ensures var a := RequestWeeklySummary(rows, req, auth, today, uuid, now).value;
      var o := HandleReportRequested(a.rows, a.event, env);
      var (from, to) := DefaultDates(req.from, req.to, today);
      && o.Finished?
      && o.window == Some(DayWindow(from, to))
      && (env.aggregationFailure.None? ==> o.row.status == Some(DONE))
      && (o.row.summaryText.Some? <==> o.row.status == Some(DONE))
  {
    var a := RequestWeeklySummary(rows, req, auth, today, uuid, now).value;
    assert a.event.requestId in a.rows;
    HandleLifecycle(a.rows, a.event, env);
    if env.aggregationFailure.None? {
      HandleSummaryChoice(a.rows, a.event, env);
    }
  }

  /** A BRANCH user's summary always covers their own branch, whatever branch they asked for. */
  lemma BranchSummaryScoped(rows: map<string, ReportRequest>, req: SummaryRequest, auth: Option<Authentication>,
                            today: LocalDate, uuid: string, now: Instant)
    requires HasRole(CurrentRole(auth), BRANCH)
    requires RequestWeeklySummary(rows, req, auth, today, uuid, now).Ok?
    ensures NullOrBlank(req.branch) || req.branch == CurrentBranch(auth)
    ensures var a := RequestWeeklySummary(rows, req, auth, today, uuid, now).value;
      a.rows[a.event.requestId].branch == CurrentBranch(auth)
  {
  }
}
