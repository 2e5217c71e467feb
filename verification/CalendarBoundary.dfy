/**
 * The layers a Calendar listing passes through: request validation, the provider
 * query and its re-validation before HTTP, the mapping of raw Google items and the
 * second allowlist applied to the mapped page.
 */
module CalendarBoundary {
  import opened Common
  import opened Text
  import opened JsonValues

  // ----- Requests -----

  const MIN_RESULTS := 1
  const MAX_RESULTS := 50
  const MIN_PAGES := 1
  const MAX_PAGES := 10

  /** Reads a timestamp; `None` for text that is not an RFC 3339 date-time with an offset. */
  type Clock = string -> Option<int>

  datatype ListRequest =
    ListRequest(timeMin: string, timeMax: string, maxResults: int, pageToken: Option<string>)

  datatype RequestField = TimeMin | TimeMax | MaxResults | MaxPages | PageToken

  function Instant(clock: Clock, value: Json): Option<int> {
    if value.Str? then clock(value.text) else None
  }

  /** Validates untyped values into a request, reporting the first field at fault. */
  function Validate(clock: Clock, timeMin: Json, timeMax: Json, maxResults: Json, pageToken: Json)
    : Result<ListRequest, RequestField>
  {
    var from := Instant(clock, timeMin);
    var until := Instant(clock, timeMax);
    if from.None? then Err(TimeMin)
    else if until.None? then Err(TimeMax)
    else if from.value >= until.value then Err(TimeMin)
    else if !maxResults.Int? then Err(MaxResults)
    else if !(MIN_RESULTS <= maxResults.number <= MAX_RESULTS) then Err(MaxResults)
    else if pageToken.Null? then
      Ok(ListRequest(timeMin.text, timeMax.text, maxResults.number, None))
    else if pageToken.Str? && pageToken.text != "" && pageToken.text == Strip(pageToken.text) then
      Ok(ListRequest(timeMin.text, timeMax.text, maxResults.number, Some(pageToken.text)))
    else Err(PageToken)
  }

  predicate UsableToken(token: string) {
    token != "" && Unpadded(token)
  }

  /** The requests that validation lets through. */
  predicate Bounded(clock: Clock, r: ListRequest) {
    && clock(r.timeMin).Some?
    && clock(r.timeMax).Some?
    && clock(r.timeMin).value < clock(r.timeMax).value
    && MIN_RESULTS <= r.maxResults <= MAX_RESULTS
    && (r.pageToken.Some? ==> UsableToken(r.pageToken.value))
  }

  function TextOrNull(t: Option<string>): Json {
    if t.None? then Null else Str(t.value)
  }

  /** Validation accepts exactly the spellings of bounded requests, and never clamps. */
  lemma ValidateExactly(clock: Clock, timeMin: Json, timeMax: Json, maxResults: Json, pageToken: Json)
    ensures
      var v := Validate(clock, timeMin, timeMax, maxResults, pageToken);
      forall r: ListRequest :: v == Ok(r) <==>
        && Bounded(clock, r)
        && timeMin == Str(r.timeMin) && timeMax == Str(r.timeMax)
        && maxResults == Int(r.maxResults) && pageToken == TextOrNull(r.pageToken)
  {
    if pageToken.Str? {
      StripNormalises(pageToken.text);
    }
  }

  /** A value that reads as a time. */
  predicate Reads(clock: Clock, value: Json) {
    value.Str? && clock(value.text).Some?
  }

  /** The field a refusal names: a window out of order is the start's fault, and times come before the rest. */
  lemma ValidateRefusals(clock: Clock, timeMin: Json, timeMax: Json, maxResults: Json, pageToken: Json)
    ensures
      var v := Validate(clock, timeMin, timeMax, maxResults, pageToken);
      var readable := Reads(clock, timeMin) && Reads(clock, timeMax);
      var window := readable && clock(timeMin.text).value < clock(timeMax.text).value;
      var bounded := maxResults.Int? && 1 <= maxResults.number <= 50;
      && (v == Err(TimeMin) <==> !Reads(clock, timeMin) || (readable && !window))
      && (v == Err(TimeMax) <==> Reads(clock, timeMin) && !Reads(clock, timeMax))
      && (v == Err(MaxResults) <==> window && !bounded)
      && (v == Err(PageToken) <==>
            window && bounded && pageToken != Null && !(pageToken.Str? && UsableToken(pageToken.text)))
  {
    if pageToken.Str? {
      StripNormalises(pageToken.text);
    }
  }

  // ----- Queries -----

  const WINDOW_KEYS := {"timeMin", "timeMax", "maxResults", "singleEvents", "orderBy"}
  const EVENTS_PATH := "/calendar/v3/calendars/primary/events"
  const LIST_OPERATION := "list_calendar_events"

  function AsQuery(r: ListRequest): map<string, Json>
    requires r.maxResults >= 0
  {
    var window := map[
      "timeMin" := Str(r.timeMin),
      "timeMax" := Str(r.timeMax),
      "maxResults" := Str(Print(r.maxResults)),
      "singleEvents" := Str("true"),
      "orderBy" := Str("startTime")
    ];
    if r.pageToken.None? then window else window["pageToken" := Str(r.pageToken.value)]
  }

  /** The query of a request, parameter by parameter, and where and how it is sent. */
  lemma QueryIs(r: ListRequest)
    requires r.maxResults >= 0
    ensures
      var p := ListingOf(r);
      && p.operation == "list_calendar_events" && p.verb == "GET"
      && p.path == "/calendar/v3/calendars/primary/events" && p.body == Null
      && p.query.Keys == {"timeMin", "timeMax", "maxResults", "singleEvents", "orderBy"}
           + (if r.pageToken.Some? then {"pageToken"} else {})
      && p.query["timeMin"] == Str(r.timeMin) && p.query["timeMax"] == Str(r.timeMax)
      && p.query["maxResults"] == Str(Print(r.maxResults))
      && p.query["singleEvents"] == Str("true") && p.query["orderBy"] == Str("startTime")
      && (r.pageToken.Some? ==> p.query["pageToken"] == Str(r.pageToken.value))
  {
  }

  /** The two parameters that vary with the request, as the query carries them. */
  lemma QueryParameters(r: ListRequest)
    requires r.maxResults >= 0
    ensures Field(AsQuery(r), "maxResults") == Str(Print(r.maxResults))
    ensures Field(AsQuery(r), "pageToken") == TextOrNull(r.pageToken)
  {
  }

  datatype ProviderRequest = ProviderRequest(
    operation: string,
    verb: string,
    path: string,
    body: Json,
    query: map<string, Json>)

  function ListingOf(r: ListRequest): ProviderRequest
    requires r.maxResults >= 0
  {
    ProviderRequest(LIST_OPERATION, "GET", EVENTS_PATH, Null, AsQuery(r))
  }

  /** The request a listing query stands for, if the last boundary before HTTP lets it through. */
  function Revalidate(clock: Clock, p: ProviderRequest): Option<ListRequest> {
    var q := p.query;
    if p.operation != LIST_OPERATION || p.verb != "GET" || !p.body.Null? || p.path != EVENTS_PATH then None
    else if q.Keys != WINDOW_KEYS && q.Keys != WINDOW_KEYS + {"pageToken"} then None
    else if Field(q, "singleEvents") != Str("true") || Field(q, "orderBy") != Str("startTime") then None
    else if !Field(q, "maxResults").Str? || !IsNumeral(Field(q, "maxResults").text) then None
    else if "pageToken" in q && q["pageToken"].Null? then None
    else
      match Validate(
        clock, Field(q, "timeMin"), Field(q, "timeMax"),
        Int(Parse(Field(q, "maxResults").text)), Field(q, "pageToken"))
      case Ok(r) => Some(r)
      case Err(_) => None
  }

  /** A listing query for `r`, whose page size may be spelled with leading zeros. */
  predicate Spells(clock: Clock, p: ProviderRequest, r: ListRequest) {
    && Bounded(clock, r)
    && "maxResults" in p.query
    && p.query["maxResults"].Str?
    && IsNumeral(p.query["maxResults"].text)
    && Parse(p.query["maxResults"].text) == r.maxResults
    && p == ListingOf(r).(query := AsQuery(r)["maxResults" := p.query["maxResults"]])
  }

  lemma RevalidateAccepts(clock: Clock, p: ProviderRequest, r: ListRequest)
    requires Spells(clock, p, r)
    ensures Revalidate(clock, p) == Some(r)
  {
    assert p.query.Keys == if r.pageToken.None? then WINDOW_KEYS else WINDOW_KEYS + {"pageToken"};
    ValidateExactly(clock, Str(r.timeMin), Str(r.timeMax), Int(r.maxResults), TextOrNull(r.pageToken));
    assert Validate(clock, Str(r.timeMin), Str(r.timeMax), Int(r.maxResults), TextOrNull(r.pageToken)) == Ok(r);
  }

  /** Only such queries are let through: whatever reaches HTTP is a bounded listing. */
  lemma RevalidateExactly(clock: Clock, p: ProviderRequest, r: ListRequest)
    ensures Revalidate(clock, p) == Some(r) <==> Spells(clock, p, r)
  {
    var q := p.query;
    if Revalidate(clock, p) == Some(r) {
      ValidateExactly(clock, q["timeMin"], q["timeMax"], Int(Parse(q["maxResults"].text)), Field(q, "pageToken"));
      assert q == AsQuery(r)["maxResults" := q["maxResults"]];
    }
    if Spells(clock, p, r) {
      RevalidateAccepts(clock, p, r);
    }
  }

  /** Every query built from a bounded request is let through and decodes to that request. */
  lemma QueryRoundTrip(clock: Clock, r: ListRequest)
    requires Bounded(clock, r)
    ensures Revalidate(clock, ListingOf(r)) == Some(r)
  {
    ParsePrint(r.maxResults);
    assert AsQuery(r)["maxResults" := AsQuery(r)["maxResults"]] == AsQuery(r);
    RevalidateAccepts(clock, ListingOf(r), r);
  }

  // ----- Events -----

  datatype CalendarEvent =
    CalendarEvent(eventId: string, title: string, start: string, end: string, attendees: seq<string>)

  /** The start or end of a raw event: `dateTime` first, an all-day `date` otherwise. */
  function Boundary(value: Json): Option<string> {
    if !value.Obj? then None
    else if NonBlankText(Field(value.fields, "dateTime")) then Some(value.fields["dateTime"].text)
    else if NonBlankText(Field(value.fields, "date")) then Some(value.fields["date"].text)
    else None
  }

  /** The attendees' addresses; one unusable attendee spoils the event. */
  function Emails(attendees: seq<Json>): Option<seq<string>> {
    if attendees == [] then Some([])
    else
      var first := attendees[0];
      var rest := Emails(attendees[1..]);
      if first.Obj? && NonBlankText(Field(first.fields, "email")) && rest.Some? then
        Some([first.fields["email"].text] + rest.value)
      else None
  }

  /** Maps one raw Google item onto the five allowed fields. */
  function MapEvent(raw: Json): Option<CalendarEvent> {
    if !raw.Obj? then None
    else
      var id := Field(raw.fields, "id");
      var summary := FieldOr(raw.fields, "summary", Str(""));
      var start := Boundary(Field(raw.fields, "start"));
      var end := Boundary(Field(raw.fields, "end"));
      var attendees := FieldOr(raw.fields, "attendees", Arr([]));
      if !NonBlankText(id) || !summary.Str? || start.None? || end.None? || !attendees.Arr? then None
      else
        match Emails(attendees.items)
        case None => None
        case Some(emails) => Some(CalendarEvent(id.text, summary.text, start.value, end.value, emails))
  }

  /** When an event starts or ends, as a raw value says it: a date-time, or else an all-day date. */
  predicate SaysWhen(value: Json, text: string) {
    && value.Obj?
    && (if "dateTime" in value.fields && NonBlankText(value.fields["dateTime"])
        then value.fields["dateTime"] == Str(text)
        else "date" in value.fields && NonBlankText(value.fields["date"]) && value.fields["date"] == Str(text))
  }

  /** Who attends, as raw values say it: each with an address. */
  predicate SaysWho(values: seq<Json>, attendees: seq<string>) {
    && |values| == |attendees|
    && forall i :: 0 <= i < |values| ==>
         && values[i].Obj? && "email" in values[i].fields
         && values[i].fields["email"] == Str(attendees[i]) && NonBlankText(values[i].fields["email"])
  }

  /** What a raw item says, field by field; a missing summary is empty, missing attendees are none. */
  predicate SaysEvent(raw: Json, e: CalendarEvent) {
    && raw.Obj?
    && "id" in raw.fields && raw.fields["id"] == Str(e.eventId) && NonBlankText(raw.fields["id"])
    && (if "summary" in raw.fields then raw.fields["summary"] == Str(e.title) else e.title == "")
    && "start" in raw.fields && SaysWhen(raw.fields["start"], e.start)
    && "end" in raw.fields && SaysWhen(raw.fields["end"], e.end)
    && (if "attendees" in raw.fields then raw.fields["attendees"].Arr? && SaysWho(raw.fields["attendees"].items, e.attendees)
        else e.attendees == [])
  }

  lemma BoundaryExactly(value: Json, text: string)
    ensures Boundary(value) == Some(text) <==> SaysWhen(value, text)
  {
  }

  lemma {:induction false} EmailsExactly(values: seq<Json>, attendees: seq<string>)
    ensures Emails(values) == Some(attendees) <==> SaysWho(values, attendees)
    decreases |values|
  {
    if values != [] {
      if attendees == [] {
      } else {
        EmailsExactly(values[1..], attendees[1..]);
        assert attendees == [attendees[0]] + attendees[1..];
        if SaysWho(values, attendees) {
          assert values[0].fields["email"] == Str(attendees[0]);
        }
        if Emails(values) == Some(attendees) {
          assert forall i :: 1 <= i < |values| ==> values[i] == values[1..][i - 1];
        }
      }
    }
  }

  /** An item maps to an event exactly when that is what it says, and to nothing when it says none. */
  lemma MapsExactly(raw: Json, e: CalendarEvent)
    ensures MapEvent(raw) == Some(e) <==> SaysEvent(raw, e)
  {
    if raw.Obj? {
      BoundaryExactly(Field(raw.fields, "start"), e.start);
      BoundaryExactly(Field(raw.fields, "end"), e.end);
      var attendees := FieldOr(raw.fields, "attendees", Arr([]));
      if attendees.Arr? {
        EmailsExactly(attendees.items, e.attendees);
      }
    }
  }

  /** Google's spelling of an event with its times given to the second. */
  function RawOf(e: CalendarEvent): Json {
    Obj(map[
      "id" := Str(e.eventId),
      "summary" := Str(e.title),
      "start" := Obj(map["dateTime" := Str(e.start)]),
      "end" := Obj(map["dateTime" := Str(e.end)]),
      "attendees" := Arr(seq(|e.attendees|, i requires 0 <= i < |e.attendees| => Obj(map["email" := Str(e.attendees[i])])))
    ])
  }

  /** Every event with an id, times and addresses comes back from its spelling as it was. */
  lemma RawRoundTrip(e: CalendarEvent)
    requires !Blank(e.eventId) && !Blank(e.start) && !Blank(e.end)
    requires forall i :: 0 <= i < |e.attendees| ==> !Blank(e.attendees[i])
    ensures MapEvent(RawOf(e)) == Some(e)
  {
    var values := seq(|e.attendees|, i requires 0 <= i < |e.attendees| => Obj(map["email" := Str(e.attendees[i])]));
    assert RawOf(e).fields["attendees"] == Arr(values);
    assert SaysWho(values, e.attendees);
    assert SaysWhen(RawOf(e).fields["start"], e.start) && SaysWhen(RawOf(e).fields["end"], e.end);
    MapsExactly(RawOf(e), e);
  }

  /** An event as the provider body carries it. */
  function AsJson(e: CalendarEvent): Json {
    Obj(map[
      "event_id" := Str(e.eventId),
      "title" := Str(e.title),
      "start" := Str(e.start),
      "end" := Str(e.end),
      "attendees" := Arr(seq(|e.attendees|, i requires 0 <= i < |e.attendees| => Str(e.attendees[i])))
    ])
  }

  function Texts(values: seq<Json>): Option<seq<string>> {
    if forall i :: 0 <= i < |values| ==> values[i].Str? then
      Some(seq(|values|, i requires 0 <= i < |values| => values[i].text))
    else None
  }

  /** The second allowlist, applied to whatever the provider body holds as an event. */
  function Allowlist(value: Json): Option<CalendarEvent> {
    if !value.Obj? then None
    else
      var id := Field(value.fields, "event_id");
      var title := Field(value.fields, "title");
      var start := Field(value.fields, "start");
      var end := Field(value.fields, "end");
      var attendees := Field(value.fields, "attendees");
      if !NonBlankText(id) || !title.Str? || !start.Str? || !end.Str? || !attendees.Arr? then None
      else
        match Texts(attendees.items)
        case None => None
        case Some(emails) => Some(CalendarEvent(id.text, title.text, start.text, end.text, emails))
  }

  /** The second allowlist passes an event on unchanged exactly when its id is not blank. */
  lemma AllowlistExactly(e: CalendarEvent)
    ensures Allowlist(AsJson(e)) == if Blank(e.eventId) then None else Some(e)
  {
    var listed := seq(|e.attendees|, i requires 0 <= i < |e.attendees| => Str(e.attendees[i]));
    assert Texts(listed).value == e.attendees;
  }

  /** What a provider body's event says: the five fields, each a text, and an id that is not blank. */
  predicate SaysAllowed(value: Json, e: CalendarEvent) {
    && value.Obj?
    && value.fields.Keys >= {"event_id", "title", "start", "end", "attendees"}
    && value.fields["event_id"] == Str(e.eventId) && !Blank(e.eventId)
    && value.fields["title"] == Str(e.title)
    && value.fields["start"] == Str(e.start)
    && value.fields["end"] == Str(e.end)
    && value.fields["attendees"].Arr?
    && var listed := value.fields["attendees"].items;
       |listed| == |e.attendees| && forall i :: 0 <= i < |listed| ==> listed[i] == Str(e.attendees[i])
  }

  /** The second allowlist accepts whatever body says an event, whoever made it, and nothing else. */
  lemma AllowsExactly(value: Json, e: CalendarEvent)
    ensures Allowlist(value) == Some(e) <==> SaysAllowed(value, e)
  {
    if value.Obj? && Field(value.fields, "attendees").Arr? {
      var listed := value.fields["attendees"].items;
      if SaysAllowed(value, e) {
        assert Texts(listed).value == e.attendees;
      }
    }
  }

  // ----- Pages -----

  /** The mapped items of a page, in order. */
  function Mapped(items: seq<Json>): (events: seq<CalendarEvent>)
    ensures |events| <= |items|
  {
    FilterMap(items, MapEvent)
  }

  /** What the provider body says about one page. */
  function PageBody(events: seq<CalendarEvent>, skipped: int, next: Option<string>): map<string, Json> {
    map[
      "events" := Arr(seq(|events|, i requires 0 <= i < |events| => AsJson(events[i]))),
      "skipped_event_count" := Int(skipped),
      "next_page_token" := TextOrNull(next)
    ]
  }

  /** What a listing reports about one page, before anyone looks at it again. */
  datatype PageReport = PageReport(
    events: seq<CalendarEvent>,
    eventCount: int,
    skipped: int,
    complete: bool,
    next: Option<string>,
    hasMore: bool)

  /** Maps one page of Google's reply; `None` when it is not a page at all. */
  function ParsePage(reply: Json): Option<map<string, Json>> {
    if !reply.Obj? then None
    else
      var items := FieldOr(reply.fields, "items", Arr([]));
      var next := Field(reply.fields, "nextPageToken");
      if !items.Arr? then None
      else if !next.Null? && !NonBlankText(next) then None
      else
        var events := Mapped(items.items);
        Some(PageBody(events, |items.items| - |events|, if next.Null? then None else Some(next.text)))
  }

  /** Runs the second allowlist over a page; one malformed event spoils it. */
  function AllowAll(values: seq<Json>): Option<seq<CalendarEvent>> {
    if values == [] then Some([])
    else
      var last := Allowlist(values[|values| - 1]);
      var before := AllowAll(values[..|values| - 1]);
      if last.Some? && before.Some? then Some(before.value + [last.value]) else None
  }

  /** Turns a provider body into a page report. */
  function ReportOf(body: map<string, Json>): Option<PageReport> {
    var values := Field(body, "events");
    var skipped := Field(body, "skipped_event_count");
    var next := Field(body, "next_page_token");
    if !values.Arr? || AllowAll(values.items).None? then None
    else if !skipped.Int? || skipped.number < 0 then None
    else if !next.Null? && !NonBlankText(next) then None
    else
      var events := AllowAll(values.items).value;
      Some(PageReport(
        events, |events|, skipped.number, skipped.number == 0,
        if next.Null? then None else Some(next.text), !next.Null?))
  }

  /** The aggregation's own check of a report. */
  predicate Coherent(p: PageReport) {
    && p.eventCount == |p.events|
    && p.skipped >= 0
    && p.complete == (p.skipped == 0)
    && (p.next.Some? ==> !Blank(p.next.value))
    && p.hasMore == p.next.Some?
  }

  /** What a provider body says about a page, whoever made it. */
  predicate SaysReport(body: map<string, Json>, p: PageReport) {
    && "events" in body && body["events"].Arr?
    && (var values := body["events"].items;
        |values| == |p.events| && forall i :: 0 <= i < |values| ==> SaysAllowed(values[i], p.events[i]))
    && "skipped_event_count" in body && body["skipped_event_count"] == Int(p.skipped) && 0 <= p.skipped
    && (if "next_page_token" in body && body["next_page_token"] != Null
        then p.next.Some? && !Blank(p.next.value) && body["next_page_token"] == Str(p.next.value)
        else p.next == None)
    && p.eventCount == |p.events| && (p.complete <==> p.skipped == 0) && (p.hasMore <==> p.next.Some?)
  }

  lemma {:induction false} AllowAllSays(values: seq<Json>, events: seq<CalendarEvent>)
    ensures AllowAll(values) == Some(events) <==>
      |values| == |events| && forall i :: 0 <= i < |values| ==> SaysAllowed(values[i], events[i])
    decreases |values|
  {
    if values != [] && events != [] {
      var k, n := |values| - 1, |events| - 1;
      AllowAllSays(values[..k], events[..n]);
      AllowsExactly(values[k], events[n]);
      assert events == events[..n] + [events[n]];
    }
  }

  /** A body is reported exactly as what it says. */
  lemma ReportsExactly(body: map<string, Json>, p: PageReport)
    ensures ReportOf(body) == Some(p) <==> SaysReport(body, p)
  {
    var values := Field(body, "events");
    if values.Arr? {
      AllowAllSays(values.items, p.events);
    }
  }

  /** Every event has a usable id. */
  predicate Named(events: seq<CalendarEvent>) {
    forall i :: 0 <= i < |events| ==> !Blank(events[i].eventId)
  }

  lemma NamedUpToLast(events: seq<CalendarEvent>, last: CalendarEvent)
    ensures Named(events + [last]) <==> Named(events) && !Blank(last.eventId)
  {
    var more := events + [last];
    assert more[|events|] == last;
    assert forall i :: 0 <= i < |events| ==> more[i] == events[i];
  }

  /** One more event on a page: the allowlist passes it on, or spoils the page. */
  lemma AllowOneMore(values: seq<Json>, last: CalendarEvent)
    ensures AllowAll(values + [AsJson(last)]) ==
      if AllowAll(values).None? || Blank(last.eventId) then None else Some(AllowAll(values).value + [last])
  {
    AllowlistExactly(last);
    assert (values + [AsJson(last)])[..|values|] == values;
  }

  lemma {:induction false} AllowAllExactly(events: seq<CalendarEvent>, values: seq<Json>)
    requires |values| == |events|
    requires forall i :: 0 <= i < |events| ==> values[i] == AsJson(events[i])
    ensures AllowAll(values) == if Named(events) then Some(events) else None
  {
    if events != [] {
      var k := |events| - 1;
      AllowAllExactly(events[..k], values[..k]);
      assert events == events[..k] + [events[k]];
      assert values == values[..k] + [AsJson(events[k])];
      NamedUpToLast(events[..k], events[k]);
      AllowOneMore(values[..k], events[k]);
    }
  }

  /** What a page of `events` is reported as. */
  function PageOf(events: seq<CalendarEvent>, skipped: nat, next: Option<string>): PageReport {
    PageReport(events, |events|, skipped, skipped == 0, next, next.Some?)
  }

  /** A page of named events is reported as it is; one blank id spoils it. */
  lemma ReportExactly(events: seq<CalendarEvent>, skipped: nat, next: Option<string>)
    requires next.Some? ==> !Blank(next.value)
    ensures ReportOf(PageBody(events, skipped, next)) ==
      if Named(events) then Some(PageOf(events, skipped, next)) else None
  {
    var values := seq(|events|, i requires 0 <= i < |events| => AsJson(events[i]));
    AllowAllExactly(events, values);
    assert PageBody(events, skipped, next)["events"] == Arr(values);
  }

  /** The aggregation's check accepts, of named events, exactly the reports some body is turned into. */
  lemma CoherentExactly(p: PageReport)
    requires Named(p.events)
    ensures Coherent(p) <==> exists body :: ReportOf(body) == Some(p)
  {
    if Coherent(p) {
      ReportExactly(p.events, p.skipped, p.next);
    }
    forall body | ReportOf(body) == Some(p)
      ensures Coherent(p)
    {
      ReportsExactly(body, p);
    }
  }

  lemma {:induction false} MappedAreNamed(items: seq<Json>)
    ensures Named(Mapped(items))
  {
    if items != [] {
      MappedAreNamed(items[..|items| - 1]);
    }
  }

  /**
   * `events` are what the items at the positions `at` say, in the items' order, and no
   * other item says an event.
   */
  ghost predicate SaysEvents(items: seq<Json>, at: seq<nat>, events: seq<CalendarEvent>) {
    && |at| == |events|
    && (forall i, j :: 0 <= i < j < |at| ==> at[i] < at[j])
    && (forall i :: 0 <= i < |at| ==> at[i] < |items| && SaysEvent(items[at[i]], events[i]))
    && (forall k, e :: 0 <= k < |items| && SaysEvent(items[k], e) ==> k in at)
  }

  lemma MappedSay(items: seq<Json>) returns (at: seq<nat>)
    ensures SaysEvents(items, at, Mapped(items))
  {
    at := FilterMapInOrder(items, MapEvent);
    var events := Mapped(items);
    forall i | 0 <= i < |at|
      ensures at[i] < |items| && SaysEvent(items[at[i]], events[i])
    {
      MapsExactly(items[at[i]], events[i]);
    }
    forall k, e | 0 <= k < |items| && SaysEvent(items[k], e)
      ensures k in at
    {
      MapsExactly(items[k], e);
    }
  }

  /** A page, as Google's reply says it; missing items are none, and `null` is no further page. */
  ghost predicate SaysPage(reply: Json, events: seq<CalendarEvent>, skipped: int, next: Option<string>) {
    && reply.Obj?
    && (if "items" in reply.fields
        then && reply.fields["items"].Arr?
             && (exists at :: SaysEvents(reply.fields["items"].items, at, events))
             && |events| + skipped == |reply.fields["items"].items|
        else events == [] && skipped == 0)
    && (if "nextPageToken" in reply.fields && reply.fields["nextPageToken"] != Null
        then next.Some? && !Blank(next.value) && reply.fields["nextPageToken"] == Str(next.value)
        else next == None)
  }

  /** Replies that are not a page: the wrong shape, or a blank token. */
  predicate NotAPage(reply: Json) {
    || !reply.Obj?
    || ("items" in reply.fields && !reply.fields["items"].Arr?)
    || ("nextPageToken" in reply.fields && reply.fields["nextPageToken"] != Null
        && (reply.fields["nextPageToken"].Str? ==> Blank(reply.fields["nextPageToken"].text)))
  }

  /** What a body made of a page says: the events in full, the skipped count and the token or `null`. */
  ghost predicate CarriesPage(body: map<string, Json>, reply: Json) {
    exists events, skipped: int, next ::
      && SaysPage(reply, events, skipped, next)
      && body == PageBody(events, skipped, next)
  }

  lemma PageCarried(reply: Json)
    ensures ParsePage(reply).None? <==> NotAPage(reply)
    ensures ParsePage(reply).Some? ==> CarriesPage(ParsePage(reply).value, reply)
  {
    if ParsePage(reply).Some? {
      var items := FieldOr(reply.fields, "items", Arr([])).items;
      var token := Field(reply.fields, "nextPageToken");
      var next := if token.Null? then None else Some(token.text);
      var at := MappedSay(items);
      assert SaysPage(reply, Mapped(items), |items| - |Mapped(items)|, next);
    }
  }

  /** The loop that builds a page: it counts what it skips as it goes. */
  method ParseEventList(reply: Json) returns (body: Option<map<string, Json>>)
    ensures body == ParsePage(reply)
    ensures body.None? <==> NotAPage(reply)
    ensures body.Some? ==> CarriesPage(body.value, reply)
  {
    PageCarried(reply);
    if !reply.Obj? || !FieldOr(reply.fields, "items", Arr([])).Arr? {
      return None;
    }
    var items := FieldOr(reply.fields, "items", Arr([])).items;
    var events: seq<CalendarEvent> := [];
    var skipped := 0;
    for k := 0 to |items|
      invariant events == Mapped(items[..k])
      invariant |events| + skipped == k
    {
      assert items[..k + 1][..k] == items[..k];
      var event := MapEvent(items[k]);
      if event.None? {
        skipped := skipped + 1;
      } else {
        events := events + [event.value];
      }
    }
    assert items[..|items|] == items;
    var next := Field(reply.fields, "nextPageToken");
    if !next.Null? && !NonBlankText(next) {
      return None;
    }
    return Some(PageBody(events, skipped, if next.Null? then None else Some(next.text)));
  }

  /**
   * The layers compose: a page the transport could parse is reported with exactly the
   * events its items say, in order, each item counted once as listed or skipped; the
   * second allowlist and the aggregation's check never reject it.
   */
  lemma LayersCompose(reply: Json)
    requires ParsePage(reply).Some?
    ensures
      var report := ReportOf(ParsePage(reply).value);
      && report.Some?
      && Coherent(report.value)
      && SaysPage(reply, report.value.events, report.value.skipped, report.value.next)
      && report.value.eventCount == |report.value.events|
      && (report.value.complete <==> report.value.skipped == 0)
      && (report.value.hasMore <==> report.value.next.Some?)
  {
    var items := FieldOr(reply.fields, "items", Arr([])).items;
    var next := Field(reply.fields, "nextPageToken");
    MappedAreNamed(items);
    ReportExactly(Mapped(items), |items| - |Mapped(items)|, if next.Null? then None else Some(next.text));
    var at := MappedSay(items);
  }
}
