/**
 * The bounded Calendar listing: payload validation, one page execution, and the loop that
 * aggregates pages until a bound or the end is met.
 */
module CalendarPaging {
  import opened Common
  import opened Text
  import opened JsonValues
  import opened CalendarBoundary
  import opened CalendarWalk

  // ----- Aggregating page replies -----

  /** What one page execution returns. */
  datatype PageReply = Failed | Reported(report: PageReport)

  type Replies = Option<string> -> PageReply

  /** A reply as the aggregation reads it: a failure or an incoherent report is no page. */
  function Checked(reply: PageReply): Page<CalendarEvent> {
    if reply.Reported? && Coherent(reply.report) then
      Good(reply.report.events, reply.report.skipped, reply.report.next)
    else Bad
  }

  function Pages(replies: Replies): Source<CalendarEvent> {
    (token: Option<string>) => Checked(replies(token))
  }

  datatype Outcome =
    | BadRequest(field: RequestField)
    | PageFailed
    | InvalidPage
    | Listed(aggregate: Aggregate<CalendarEvent>)

  /** An outcome as a result of the walk: an aggregate, or nothing at all. */
  function ResultOf(outcome: Outcome): Option<Aggregate<CalendarEvent>> {
    if outcome.Listed? then Some(outcome.aggregate) else None
  }

  /**
   The aggregation over page replies: it answers for the unbounded walk over the checked pages,
   and tells a failed page from an incoherent report.
   */
  method Aggregation(replies: Replies, limit: nat) returns (outcome: Outcome)
    requires limit >= 1
    ensures Answers(Pages(replies), limit, ResultOf(outcome)) && !outcome.BadRequest?
    ensures outcome.InvalidPage? ==> exists token :: replies(token).Reported? && !Coherent(replies(token).report)
    ensures outcome.PageFailed? ==> exists token :: replies(token).Failed?
  {
    var result, token := Collect(Pages(replies), limit);
    if result.Some? {
      return Listed(result.value);
    }
    assert Checked(replies(token)).Bad?;
    outcome := if replies(token).Failed? then PageFailed else InvalidPage;
  }

  // ----- The request in front of the loop -----

  /** The first field at fault in an aggregation payload, if any. */
  function PayloadFault(clock: Clock, payload: map<string, Json>): Option<RequestField> {
    var pages := Field(payload, "max_pages");
    if "page_token" in payload then Some(PageToken)
    else
      match Validate(clock, Field(payload, "time_min"), Field(payload, "time_max"), Field(payload, "max_results"), Null)
      case Err(field) => Some(field)
      case Ok(_) => if pages.Int? && MIN_PAGES <= pages.number <= MAX_PAGES then None else Some(MaxPages)
  }

  /** The payload of a single-page listing. */
  function PagePayload(r: ListRequest): map<string, Json> {
    var window := map["time_min" := Str(r.timeMin), "time_max" := Str(r.timeMax), "max_results" := Int(r.maxResults)];
    if r.pageToken.None? then window else window["page_token" := Str(r.pageToken.value)]
  }

  /** The payload has a window, a page size and a positive page limit. */
  predicate ReadablePayload(payload: map<string, Json>) {
    && Field(payload, "time_min").Str?
    && Field(payload, "time_max").Str?
    && Field(payload, "max_results").Int?
    && Field(payload, "max_pages").Int?
    && Field(payload, "max_pages").number >= 1
  }

  /** The first-page request a faultless payload asks for. */
  function RequestOf(payload: map<string, Json>): ListRequest
    requires ReadablePayload(payload)
  {
    ListRequest(payload["time_min"].text, payload["time_max"].text, payload["max_results"].number, None)
  }

  lemma FaultlessPayload(clock: Clock, payload: map<string, Json>)
    requires PayloadFault(clock, payload).None?
    ensures ReadablePayload(payload) && Bounded(clock, RequestOf(payload))
  {
    ValidateExactly(clock, Field(payload, "time_min"), Field(payload, "time_max"), Field(payload, "max_results"), Null);
  }

  /** The window a payload names is readable and not empty. */
  predicate NamesWindow(clock: Clock, payload: map<string, Json>) {
    && ReadableTime(clock, payload, "time_min") && ReadableTime(clock, payload, "time_max")
    && clock(payload["time_min"].text).value < clock(payload["time_max"].text).value
  }

  predicate ReadableTime(clock: Clock, payload: map<string, Json>, key: string) {
    key in payload && payload[key].Str? && clock(payload[key].text).Some?
  }

  predicate WithinBounds(payload: map<string, Json>, key: string, most: int) {
    key in payload && payload[key].Int? && 1 <= payload[key].number <= most
  }

  /** A payload is accepted exactly with a window, 1 to 50 results, 1 to 10 pages and no page token of its own. */
  lemma FaultlessExactly(clock: Clock, payload: map<string, Json>)
    ensures PayloadFault(clock, payload).None? <==>
      && "page_token" !in payload && NamesWindow(clock, payload)
      && WithinBounds(payload, "max_results", 50) && WithinBounds(payload, "max_pages", 10)
  {
  }

  /** Which field is blamed: the first one at fault, an empty window on its start. */
  lemma FaultsInOrder(clock: Clock, payload: map<string, Json>)
    ensures
      var fault := PayloadFault(clock, payload);
      var starts, ends := ReadableTime(clock, payload, "time_min"), ReadableTime(clock, payload, "time_max");
      && (fault == Some(PageToken) <==> "page_token" in payload)
      && ("page_token" !in payload ==>
        && (fault == Some(TimeMin) <==> !starts || (ends && !NamesWindow(clock, payload)))
        && (fault == Some(TimeMax) <==> starts && !ends)
        && (fault == Some(MaxResults) <==> NamesWindow(clock, payload) && !WithinBounds(payload, "max_results", 50))
        && (fault == Some(MaxPages) <==>
              && NamesWindow(clock, payload) && WithinBounds(payload, "max_results", 50)
              && !WithinBounds(payload, "max_pages", 10)))
  {
  }

  // ----- One page execution -----

  /** What a transport answers: nothing usable, or a provider body. */
  datatype Response = Refused | Body(fields: map<string, Json>)

  type Transport = ProviderRequest -> Response

  /** A body as a page reply. */
  function ReplyTo(response: Response): PageReply {
    if response.Refused? || ReportOf(response.fields).None? then Failed
    else Reported(ReportOf(response.fields).value)
  }

  /** Validates a page payload, sends its query and reads the reply. */
  function ExecutePage(clock: Clock, transport: Transport, payload: map<string, Json>): PageReply {
    match Validate(
      clock, Field(payload, "time_min"), Field(payload, "time_max"),
      Field(payload, "max_results"), Field(payload, "page_token"))
    case Err(_) => Failed
    case Ok(r) => if r.maxResults < 0 then Failed else ReplyTo(transport(ListingOf(r)))
  }

  function PageReplies(clock: Clock, transport: Transport, r: ListRequest): Replies {
    (token: Option<string>) => ExecutePage(clock, transport, PagePayload(r.(pageToken := token)))
  }

  /** A page execution passes the window on unchanged; it fails on a padded token. */
  lemma PageRequestExactly(clock: Clock, transport: Transport, r: ListRequest, token: Option<string>)
    requires Bounded(clock, r)
    ensures PageReplies(clock, transport, r)(token) ==
      if token.Some? && !UsableToken(token.value) then Failed
      else ReplyTo(transport(ListingOf(r.(pageToken := token))))
  {
    var asked := r.(pageToken := token);
    var payload := PagePayload(asked);
    ValidateExactly(clock, Str(r.timeMin), Str(r.timeMax), Int(r.maxResults), TextOrNull(token));
    assert Field(payload, "page_token") == TextOrNull(token);
    var v := Validate(clock, Str(r.timeMin), Str(r.timeMax), Int(r.maxResults), TextOrNull(token));
    assert v == Ok(asked) <==> (token.Some? ==> UsableToken(token.value));
  }

  /** A page the transport serves is read as it is, unless an event in it is unnamed. */
  lemma ServedPage(
      clock: Clock, transport: Transport, r: ListRequest, token: Option<string>,
      events: seq<CalendarEvent>, skipped: nat, next: Option<string>)
    requires Bounded(clock, r) && (token.Some? ==> UsableToken(token.value)) && (next.Some? ==> !Blank(next.value))
    requires transport(ListingOf(r.(pageToken := token))) == Body(PageBody(events, skipped, next))
    ensures Pages(PageReplies(clock, transport, r))(token) ==
      if Named(events) then Good(events, skipped, next) else Bad
  {
    PageRequestExactly(clock, transport, r, token);
    ReportExactly(events, skipped, next);
  }

  /** Page executions never hand the aggregation an incoherent report. */
  lemma RepliesAreCoherent(clock: Clock, transport: Transport, r: ListRequest)
    ensures
      var replies := PageReplies(clock, transport, r);
      forall token :: replies(token).Reported? ==> Coherent(replies(token).report)
  {
  }

  /**
   * The whole operation. A faulty payload is reported by field and fetches nothing;
   * otherwise the outcome answers for the walk over the payload's own window, and the
   * aggregation's re-check of a page is never what fails.
   */
  method Execute(clock: Clock, transport: Transport, payload: map<string, Json>) returns (outcome: Outcome)
    ensures PayloadFault(clock, payload).Some? <==> outcome.BadRequest?
    ensures outcome.BadRequest? ==> PayloadFault(clock, payload) == Some(outcome.field)
    ensures PayloadFault(clock, payload).None? ==>
      && ReadablePayload(payload)
      && Answers(
        Pages(PageReplies(clock, transport, RequestOf(payload))), payload["max_pages"].number, ResultOf(outcome))
    ensures outcome != InvalidPage
  {
    var fault := PayloadFault(clock, payload);
    if fault.Some? {
      return BadRequest(fault.value);
    }
    FaultlessPayload(clock, payload);
    RepliesAreCoherent(clock, transport, RequestOf(payload));
    outcome := Aggregation(PageReplies(clock, transport, RequestOf(payload)), payload["max_pages"].number);
  }
}
