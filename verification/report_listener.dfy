/**
 * The asynchronous report job (ReportEventlisteners.handleReportRequested) as
 * one step: it reads the stored request, aggregates the sales of the requested
 * days, chooses the LLM summary or the template, marks the request DONE or
 * FAILED, and sends the summary by email. The aggregation's failure, the LLM's
 * answer, the mail server's answer, the clock and `LocalDate.toString` are
 * inputs; every repository save is taken to succeed.
 */
module ReportListener {
  import opened Base
  import opened JavaString
  import opened Entities
  import opened Errors
  import opened Aggregation
  import opened Summary

  /** ReportRequestedEvent. */
  datatype Event = Event(
    requestId: string,
    from: Option<LocalDate>,
    to: Option<LocalDate>,
    branch: Option<string>,
    emailTo: Option<string>,
    requestedBy: Option<string>)

  /** What `generateSummary` did: returned a text (possibly null), or threw. */
  datatype LlmOutcome = LlmReturned(text: Option<string>) | LlmThrew

  /** What `sendSimpleEmail` did: sent the message, or threw with a message. */
  datatype MailOutcome = MailSent | MailFailed(message: Option<string>)

  /** The outside world during one run of the job. */
  datatype Env = Env(
    table: seq<Sale>,
    aggregationFailure: Option<Error>,
    llm: LlmOutcome,
    mail: MailOutcome,
    now: Instant,
    dateText: LocalDate -> string)

  /** An email the job hands to the mail service. */
  datatype Mail = Mail(to: string, subject: string, body: string)

  /**
   * The job's end: it stopped before touching anything, or it finished with
   * the final row, the rows it saved in order, the instants it queried, and
   * the email it tried to send.
   */
  datatype Outcome =
    | Aborted(error: Error)
    | Finished(row: ReportRequest, saves: seq<ReportRequest>, window: Option<(Instant, Instant)>, mail: Option<Mail>)

  const SecondsPerDay := 86400

  /** From the first second of `from` to the last second of `to`, in UTC. */
  function DayWindow(from: LocalDate, to: LocalDate): (w: (Instant, Instant))
    ensures forall t: Instant :: w.0 <= t <= w.1 <==> from <= t / SecondsPerDay <= to
  {
    DayWindowExact(from, to);
    (from * SecondsPerDay, (to + 1) * SecondsPerDay - 1)
  }

  /** An instant, in whole seconds, lies in the window exactly when its UTC day lies in [from, to]. */
  lemma DayWindowExact(from: LocalDate, to: LocalDate)
    ensures forall t: Instant :: from * SecondsPerDay <= t <= (to + 1) * SecondsPerDay - 1 <==> from <= t / SecondsPerDay <= to
  {
    forall t: Instant
      ensures from * SecondsPerDay <= t <= (to + 1) * SecondsPerDay - 1 <==> from <= t / SecondsPerDay <= to
    {
      var d, r := t / SecondsPerDay, t % SecondsPerDay;
      assert t == d * SecondsPerDay + r && 0 <= r < SecondsPerDay;
      if from <= d {
        assert from * SecondsPerDay <= d * SecondsPerDay;
      } else {
        assert d + 1 <= from;
        assert (d + 1) * SecondsPerDay <= from * SecondsPerDay;
      }
      if d <= to {
        assert d * SecondsPerDay <= to * SecondsPerDay;
      } else {
        assert to + 1 <= d;
        assert (to + 1) * SecondsPerDay <= d * SecondsPerDay;
      }
    }
  }

  /** The address test: present, not blank, and containing '@'. */
  predicate UsableAddress(a: Option<string>) {
    a.Some? && !IsBlank(a.value) && '@' in a.value
  }

  /** The LLM text when it passes the check, the template otherwise. */
  function ChooseSummary(llm: LlmOutcome, agg: Aggregates): (s: string)
    ensures llm.LlmReturned? && IsValidSummary(llm.text, agg) ==> s == llm.text.value
    ensures !(llm.LlmReturned? && IsValidSummary(llm.text, agg)) ==> s == BuildSimpleSummary(agg)
    ensures !IsBlank(s)
  {
    if llm.LlmReturned? && IsValidSummary(llm.text, agg) then llm.text.value
    else
      var t := BuildSimpleSummary(agg);
      NotBlankByFirst(t);
      t
  }

  /** The job's catch block: FAILED with the exception's message, completed now. */
  function MarkFailed(rr: ReportRequest, message: Option<string>, now: Instant): (r: ReportRequest)
    ensures r.status == Some(FAILED) && r.errorMessage == message && r.completedAt == Some(now)
    ensures r.(status := rr.status, errorMessage := rr.errorMessage, completedAt := rr.completedAt) == rr
  {
    rr.(status := Some(FAILED), errorMessage := message, completedAt := Some(now))
  }

  /** The success path: DONE with the summary, completed now. */
  function MarkDone(rr: ReportRequest, summary: string, now: Instant): (r: ReportRequest)
    ensures r.status == Some(DONE) && r.summaryText == Some(summary) && r.completedAt == Some(now)
    ensures r.(status := rr.status, summaryText := rr.summaryText, completedAt := rr.completedAt) == rr
  {
    rr.(summaryText := Some(summary), status := Some(DONE), completedAt := Some(now))
  }

  /** "Reporte Semanal Oreo - %s a %s" with the two dates. */
  function Subject(from: LocalDate, to: LocalDate, dateText: LocalDate -> string): string {
    "Reporte Semanal Oreo - " + dateText(from) + " a " + dateText(to)
  }

  /** The email body: a heading, the summary, a closing line. */
  function Body(summary: string): (b: string)
    ensures Contains(b, summary)
  {
    ContainsInfix("Resumen:\n\n", summary, "\n\nGracias.");
    "Resumen:\n\n" + summary + "\n\nGracias."
  }

  /** After the DONE save: send the email if there is a usable address, and note a mail failure on the row. */
  function SendStep(done: ReportRequest, e: Event, from: LocalDate, to: LocalDate, env: Env, w: (Instant, Instant)): (o: Outcome)
    requires done.summaryText.Some?
    ensures o.Finished? && o.saves != [] && o.saves[0] == done && o.saves[|o.saves| - 1] == o.row
    ensures o.window == Some(w)
    ensures o.mail.Some? <==> UsableAddress(e.emailTo)
    ensures o.mail.Some? ==> o.mail.value.to == e.emailTo.value && Contains(o.mail.value.body, done.summaryText.value)
    ensures o.row == done || (env.mail.MailFailed? && o.mail.Some?
                              && o.row == done.(errorMessage := Some("email error: " + NullText(env.mail.message))))
  {
    if !UsableAddress(e.emailTo) then Finished(done, [done], Some(w), None)
    else
      var m := Mail(e.emailTo.value, Subject(from, to, env.dateText), Body(done.summaryText.value));
      match env.mail
      case MailSent => Finished(done, [done], Some(w), Some(m))
      case MailFailed(msg) =>
        var noted := done.(errorMessage := Some("email error: " + NullText(msg)));
        Finished(noted, [done, noted], Some(w), Some(m))
  }

  /**
   * handleReportRequested. An unknown request id throws before anything is
   * saved; missing dates or a failing aggregation leave the request FAILED;
   * otherwise it ends DONE with a summary, and the email outcome only adds an
   * error note.
   */
  function HandleReportRequested(rows: map<string, ReportRequest>, e: Event, env: Env): (o: Outcome)
    ensures e.requestId !in rows <==> o.Aborted?
    ensures o.Aborted? ==> o.error == Error(NotFound, Some("report request not found"))
    ensures o.Finished? ==> o.saves != [] && o.saves[|o.saves| - 1] == o.row
    ensures o.Finished? ==> o.row.status == Some(DONE) || o.row.status == Some(FAILED)
    ensures o.Finished? ==> o.row.completedAt == Some(env.now)
    ensures o.Finished? && (e.from.None? || e.to.None?) ==>
      (o.row.status == Some(FAILED) && o.row.errorMessage == Some("from/to dates are required") && o.window.None?)
    ensures o.Finished? && e.from.Some? && e.to.Some? ==> o.window == Some(DayWindow(e.from.value, e.to.value))
    ensures o.Finished? && o.row.status == Some(DONE) ==>
      e.from.Some? && e.to.Some? && env.aggregationFailure.None? && o.row.summaryText.Some? && !IsBlank(o.row.summaryText.value)
    ensures o.Finished? && o.mail.Some? ==> o.row.status == Some(DONE) && UsableAddress(e.emailTo)
    ensures o.Finished? && e.from.Some? && e.to.Some? && env.aggregationFailure.Some? ==>
      o.row.status == Some(FAILED) && o.row.errorMessage == env.aggregationFailure.value.message && o.saves == [o.row]
    ensures o.Finished? && o.row.status == Some(DONE) ==>
      && o.saves[0].status == Some(DONE)
      && o.saves[0] == o.row.(errorMessage := o.saves[0].errorMessage)
      && (o.mail.Some? <==> UsableAddress(e.emailTo))
  {
    if e.requestId !in rows then Aborted(Error(NotFound, Some("report request not found")))
    else
      var rr := rows[e.requestId];
      if e.from.None? || e.to.None? then
        var failed := MarkFailed(rr, Some("from/to dates are required"), env.now);
        Finished(failed, [failed], None, None)
      else
        var w := DayWindow(e.from.value, e.to.value);
        if env.aggregationFailure.Some? then
          var failed := MarkFailed(rr, env.aggregationFailure.value.message, env.now);
          Finished(failed, [failed], Some(w), None)
        else
          var agg := CalculateAggregates(env.table, w.0, w.1, e.branch);
          var summary := ChooseSummary(env.llm, agg);
          var done := MarkDone(rr, summary, env.now);
          SendStep(done, e, e.from.value, e.to.value, env, w)
  }

  /** The fields the job never writes. */
  predicate SameRequest(a: ReportRequest, b: ReportRequest) {
    a.(status := b.status, summaryText := b.summaryText, completedAt := b.completedAt, errorMessage := b.errorMessage) == b
  }

  /**
   * The job touches only status, summary, completion time and error note; a
   * FAILED request keeps its old summary, and a DONE one keeps its old error
   * note unless the email failed.
   */
  lemma HandleWritesOnlyOutcome(rows: map<string, ReportRequest>, e: Event, env: Env)
    requires e.requestId in rows
    ensures var o := HandleReportRequested(rows, e, env);
      && SameRequest(o.row, rows[e.requestId])
      && (o.row.status == Some(FAILED) ==> o.row.summaryText == rows[e.requestId].summaryText)
      && (o.row.status == Some(DONE) && o.row.errorMessage != rows[e.requestId].errorMessage ==>
            env.mail.MailFailed? && UsableAddress(e.emailTo)
            && o.row.errorMessage == Some("email error: " + NullText(env.mail.message)))
  {
  }

  /**
   * A request stored as PROCESSING, with no summary and no completion time,
   * ends with a completion time exactly when it has left PROCESSING, and with a
   * summary exactly when it is DONE.
   */
  lemma HandleLifecycle(rows: map<string, ReportRequest>, e: Event, env: Env)
    requires e.requestId in rows
    requires rows[e.requestId].status == Some(PROCESSING)
    requires rows[e.requestId].summaryText.None? && rows[e.requestId].completedAt.None?
    ensures var r := HandleReportRequested(rows, e, env).row;
      && (r.completedAt.Some? <==> r.status != Some(PROCESSING))
      && (r.summaryText.Some? <==> r.status == Some(DONE))
  {
  }

  /** The LLM's text is stored exactly when it passes the check; otherwise the template is stored. */
  lemma HandleSummaryChoice(rows: map<string, ReportRequest>, e: Event, env: Env)
    requires e.requestId in rows && e.from.Some? && e.to.Some? && env.aggregationFailure.None?
    ensures var w := DayWindow(e.from.value, e.to.value);
      var agg := CalculateAggregates(env.table, w.0, w.1, e.branch);
      var r := HandleReportRequested(rows, e, env).row;
      && r.status == Some(DONE)
      && (env.llm.LlmReturned? && IsValidSummary(env.llm.text, agg) ==> r.summaryText == env.llm.text)
      && (!(env.llm.LlmReturned? && IsValidSummary(env.llm.text, agg)) ==> r.summaryText == Some(BuildSimpleSummary(agg)))
  {
  }

  /** A failed email still leaves the request DONE with its summary, and notes the error. */
  lemma MailFailureKeepsDone(rows: map<string, ReportRequest>, e: Event, env: Env)
    requires e.requestId in rows && e.from.Some? && e.to.Some? && env.aggregationFailure.None?
    requires UsableAddress(e.emailTo) && env.mail.MailFailed?
    ensures var o := HandleReportRequested(rows, e, env);
      && o.row.status == Some(DONE) && o.row.summaryText.Some?
      && o.row.errorMessage == Some("email error: " + NullText(env.mail.message))
      && |o.saves| == 2 && o.mail.Some?
  {
    var w := DayWindow(e.from.value, e.to.value);
    var agg := CalculateAggregates(env.table, w.0, w.1, e.branch);
    var done := MarkDone(rows[e.requestId], ChooseSummary(env.llm, agg), env.now);
    assert HandleReportRequested(rows, e, env) == SendStep(done, e, e.from.value, e.to.value, env, w);
  }

  /** Without a usable address nothing is sent, and the request is DONE after one save. */
  lemma NoAddressNoMail(rows: map<string, ReportRequest>, e: Event, env: Env)
    requires e.requestId in rows && e.from.Some? && e.to.Some? && env.aggregationFailure.None?
    requires !UsableAddress(e.emailTo)
    ensures var o := HandleReportRequested(rows, e, env);
      o.row.status == Some(DONE) && o.mail.None? && |o.saves| == 1
  {
  }
}
