/**
 * The two transports under a Calendar listing: the deterministic fake with its offset
 * tokens, and the Google one, which re-validates, sends and parses. Both are followed
 * through the whole aggregation.
 */
module CalendarTransports {
  import opened Common
  import opened Text
  import opened JsonValues
  import opened CalendarBoundary
  import opened CalendarWalk
  import opened CalendarPaced
  import opened CalendarPaging

  // ----- The fake -----

  const TOKEN_PREFIX := "fake-calendar-page-"

  function OffsetToken(offset: nat): string {
    TOKEN_PREFIX + Print(offset)
  }

  /** The offset a token names, if it is one the fake could have issued. */
  function TokenOffset(token: Json, count: nat): (offset: Option<nat>)
    ensures offset.Some? ==> offset.value <= count
  {
    if !token.Str? || !(TOKEN_PREFIX <= token.text) then None
    else
      var digits := token.text[|TOKEN_PREFIX|..];
      if !IsNumeral(digits) || Parse(digits) > count then None else Some(Parse(digits))
  }

  /** One page: the events from an offset on, and a token only when some are left. */
  function FakeSlice(events: seq<CalendarEvent>, offset: nat, limit: nat): Response
    requires offset <= |events|
  {
    var end := Least(offset + limit, |events|);
    Body(PageBody(events[offset..end], 0, if end < |events| then Some(OffsetToken(end)) else None))
  }

  function FakeList(events: seq<CalendarEvent>, size: Json, token: Json): Response {
    var limit := if size.Str? && IsNumeral(size.text) then Parse(size.text) else |events|;
    if token.Null? then FakeSlice(events, 0, limit)
    else
      match TokenOffset(token, |events|)
      case None => Refused
      case Some(offset) => FakeSlice(events, offset, limit)
  }

  function FakeTransport(events: seq<CalendarEvent>): Transport {
    (p: ProviderRequest) => FakeList(events, Field(p.query, "maxResults"), Field(p.query, "pageToken"))
  }

  /** A token prints an offset and reads back as the same one; stripping leaves it alone. */
  lemma TokenRoundTrip(offset: nat, count: nat)
    ensures TokenOffset(Str(OffsetToken(offset)), count) == if offset <= count then Some(offset) else None
    ensures UsableToken(OffsetToken(offset)) && !Blank(OffsetToken(offset))
  {
    var token := OffsetToken(offset);
    ParsePrint(offset);
    assert token[|TOKEN_PREFIX|..] == Print(offset);
    assert token[|token| - 1] == Print(offset)[|Print(offset)| - 1];
    assert token[0] == 'f';
    StripNormalises(token);
  }

  /** The fake's events as a shelf read `size` at a time. */
  function ShelfOf(events: seq<CalendarEvent>, size: nat): Shelf<CalendarEvent> {
    Shelf(events, size, (e: CalendarEvent) => !Blank(e.eventId), OffsetToken)
  }

  /** The fake's reply to the request for the page at an offset. */
  lemma FakeBody(events: seq<CalendarEvent>, r: ListRequest, offset: nat)
    requires r.maxResults >= 0 && offset <= |events|
    ensures
      var token := TokenAt(ShelfOf(events, r.maxResults), offset);
      FakeTransport(events)(ListingOf(r.(pageToken := token))) == FakeSlice(events, offset, r.maxResults)
  {
    var token := TokenAt(ShelfOf(events, r.maxResults), offset);
    TokenRoundTrip(offset, |events|);
    ParsePrint(r.maxResults);
    QueryParameters(r.(pageToken := token));
  }

  /** The page of the shelf at an offset, in the boundary's terms. */
  lemma ShelfPage(events: seq<CalendarEvent>, size: nat, offset: nat)
    requires offset <= |events|
    ensures
      var end := Least(offset + size, |events|);
      PageAt(ShelfOf(events, size), offset) ==
      if Named(events[offset..end]) then
        Good(events[offset..end], 0, if end < |events| then Some(OffsetToken(end)) else None)
      else Bad
  {
    var end := Least(offset + size, |events|);
    assert AllSound(events[offset..end], ShelfOf(events, size).sound) <==> Named(events[offset..end]);
  }

  lemma FakePage(clock: Clock, events: seq<CalendarEvent>, r: ListRequest, offset: nat)
    requires Bounded(clock, r) && offset <= |events|
    ensures
      var shelf := ShelfOf(events, r.maxResults);
      Pages(PageReplies(clock, FakeTransport(events), r))(TokenAt(shelf, offset)) == PageAt(shelf, offset)
  {
    var end := Least(offset + r.maxResults, |events|);
    TokenRoundTrip(offset, |events|);
    TokenRoundTrip(end, |events|);
    FakeBody(events, r, offset);
    ServedPage(
      clock, FakeTransport(events), r, TokenAt(ShelfOf(events, r.maxResults), offset),
      events[offset..end], 0, if end < |events| then Some(OffsetToken(end)) else None);
    ShelfPage(events, r.maxResults, offset);
  }

  /** The fake, read through the listing's own request and report layers, is paced. */
  lemma FakeIsPaced(clock: Clock, events: seq<CalendarEvent>, r: ListRequest)
    requires Bounded(clock, r)
    ensures Paced(Pages(PageReplies(clock, FakeTransport(events), r)), ShelfOf(events, r.maxResults))
  {
    var shelf := ShelfOf(events, r.maxResults);
    forall offset: nat | offset <= |events|
      ensures Pages(PageReplies(clock, FakeTransport(events), r))(TokenAt(shelf, offset)) == PageAt(shelf, offset)
    {
      FakePage(clock, events, r, offset);
    }
  }

  /**
   * Listing over the fake, end to end: the first `min(n, r*m)` events in order, exhausted
   * exactly when `n <= r*m`, in `max(1, min(m, ceil(n/r)))` pages, with no repeated token;
   * a failure, and no events, when one of those events has a blank id.
   */
  method ListOverFake(clock: Clock, events: seq<CalendarEvent>, payload: map<string, Json>) returns (outcome: Outcome)
    requires PayloadFault(clock, payload).None?
    ensures ReadablePayload(payload) && payload["max_results"].number >= 1
    ensures ResultOf(outcome) ==
      Listing(ShelfOf(events, payload["max_results"].number), payload["max_pages"].number)
    ensures outcome.Listed? || outcome.PageFailed?
  {
    outcome := Execute(clock, FakeTransport(events), payload);
    FaultlessPayload(clock, payload);
    FakeIsPaced(clock, events, RequestOf(payload));
    ListingIs(
      Pages(PageReplies(clock, FakeTransport(events), RequestOf(payload))),
      ShelfOf(events, payload["max_results"].number), payload["max_pages"].number, ResultOf(outcome));
  }

  // ----- Google -----

  /** What HTTP brings back: no response, or a status and a body that may not be JSON. */
  datatype HttpReply = Unreachable | Reply(status: int, body: Option<Json>)

  type Http = map<string, Json> -> HttpReply

  /** The provider body a reply to a listing amounts to. */
  function BodyOf(reply: HttpReply): Response {
    if reply.Unreachable? || !(200 <= reply.status <= 299) || reply.body.None? then Refused
    else
      match ParsePage(reply.body.value)
      case None => Refused
      case Some(fields) => Body(fields)
  }

  /** The Google transport: re-validates the query, wants credentials, sends, parses a successful reply. */
  function GoogleList(clock: Clock, accessToken: string, http: Http, p: ProviderRequest): Response {
    if Revalidate(clock, p).None? || Blank(accessToken) then Refused else BodyOf(http(p.query))
  }

  function GoogleTransport(clock: Clock, accessToken: string, http: Http): Transport {
    (p: ProviderRequest) => GoogleList(clock, accessToken, http, p)
  }

  /** The pages of a window as the aggregation meets them over Google. */
  function GooglePages(clock: Clock, accessToken: string, http: Http, r: ListRequest): Source<CalendarEvent> {
    Pages(PageReplies(clock, GoogleTransport(clock, accessToken, http), r))
  }

  /** The page a reply holds: its mappable items, a count of the others, its own token. */
  function PageIn(reply: HttpReply): Page<CalendarEvent> {
    if BodyOf(reply).Refused? then Bad
    else
      var fields := reply.body.value.fields;
      var items := FieldOr(fields, "items", Arr([])).items;
      var next := Field(fields, "nextPageToken");
      Good(Mapped(items), |items| - |Mapped(items)|, if next.Null? then None else Some(next.text))
  }

  lemma RepliesAreReadWhole(reply: HttpReply)
    ensures Checked(ReplyTo(BodyOf(reply))) == PageIn(reply)
  {
    if BodyOf(reply).Body? {
      var page := PageIn(reply);
      MappedAreNamed(FieldOr(reply.body.value.fields, "items", Arr([])).items);
      ReportExactly(page.events, page.skipped, page.next);
    }
  }

  /** Anything but a 2xx reply with a JSON object, a list of items and a usable token is no page. */
  lemma PagesExactly(reply: HttpReply)
    ensures PageIn(reply).Good? <==>
      && reply.Reply? && 200 <= reply.status < 300 && reply.body.Some? && reply.body.value.Obj?
      && var fields := reply.body.value.fields;
         && ("items" in fields ==> fields["items"].Arr?)
         && ("nextPageToken" in fields ==>
              fields["nextPageToken"].Null?
              || (fields["nextPageToken"].Str? && !Blank(fields["nextPageToken"].text)))
  {
  }

  /** And a page is what its reply says: the events of its items, the count of the others, the token. */
  lemma PagesAccount(reply: HttpReply)
    requires PageIn(reply).Good?
    ensures
      var page := PageIn(reply);
      SaysPage(reply.body.value, page.events, page.skipped, page.next)
  {
    var at := MappedSay(FieldOr(reply.body.value.fields, "items", Arr([])).items);
  }

  /** Only a bounded listing is ever sent, and only with credentials; anything else is refused unsent. */
  lemma SendsExactly(clock: Clock, accessToken: string, http: Http, p: ProviderRequest)
    ensures GoogleList(clock, accessToken, http, p) ==
      if (exists r :: Spells(clock, p, r)) && Strip(accessToken) != "" then BodyOf(http(p.query)) else Refused
  {
    BlankExactly(accessToken);
    if Revalidate(clock, p).Some? {
      RevalidateExactly(clock, p, Revalidate(clock, p).value);
    }
    forall r | Spells(clock, p, r)
      ensures Revalidate(clock, p) == Some(r)
    {
      RevalidateExactly(clock, p, r);
    }
  }

  /** The tokens the fake accepts: its own prefix and a numeral not past the end. */
  lemma AcceptsOwnTokens(token: Json, count: nat, offset: nat)
    ensures TokenOffset(token, count) == Some(offset) <==>
      && token.Str? && "fake-calendar-page-" <= token.text
      && IsNumeral(token.text[19..]) && Parse(token.text[19..]) == offset && offset <= count
  {
  }

  /**
   * A page over Google, for every request the listing makes: a query is sent unless the
   * access token is blank or the continuation token padded, and what Google serves reaches
   * the aggregation whole.
   */
  lemma GooglePage(clock: Clock, accessToken: string, http: Http, r: ListRequest, token: Option<string>)
    requires Bounded(clock, r)
    ensures GooglePages(clock, accessToken, http, r)(token) ==
      if Blank(accessToken) || (token.Some? && !UsableToken(token.value)) then Bad
      else PageIn(http(AsQuery(r.(pageToken := token))))
  {
    var asked := r.(pageToken := token);
    PageRequestExactly(clock, GoogleTransport(clock, accessToken, http), r, token);
    if token.Some? ==> UsableToken(token.value) {
      QueryRoundTrip(clock, asked);
      RepliesAreReadWhole(http(AsQuery(asked)));
    }
  }

  /**
   * A token that came with a page is followed exactly when it carries no padding: a padded
   * one is accepted with its page and then refused as a request, which fails the listing.
   */
  lemma PaddedTokenBreaksTheWalk(
      clock: Clock, accessToken: string, http: Http, r: ListRequest, n: nat, token: string)
    requires Bounded(clock, r) && !Blank(accessToken)
    requires Walk(GooglePages(clock, accessToken, http, r), n) == At(Some(token))
    requires PageIn(http(AsQuery(r.(pageToken := Some(token))))).Good?
    ensures Walk(GooglePages(clock, accessToken, http, r), n + 1) == Broken <==> token == "" || !Unpadded(token)
  {
    GooglePage(clock, accessToken, http, r, Some(token));
  }

  /** Such a token exists: it passes every check a page goes through, and breaks the walk. */
  lemma PaddedTokenIsAccepted()
    ensures
      var token := " next";
      !Blank(token) && !UsableToken(token)
      && PageIn(Reply(200, Some(Obj(map["nextPageToken" := Str(token)])))) == Good([], 0, Some(token))
  {
    var token := " next";
    assert token[1] == 'n' && !Blank(token[1..]);
    var reply := Obj(map["nextPageToken" := Str(token)]);
    assert FieldOr(reply.fields, "items", Arr([])) == Arr([]);
    assert Field(reply.fields, "nextPageToken") == Str(token);
  }

  /** A provider that answers every query with the same page: no events, and the token `token`. */
  function Repeating(token: string): Http {
    (query: map<string, Json>) => Reply(200, Some(Obj(map["nextPageToken" := Str(token)])))
  }

  /** So the failure occurs: the provider would serve the second page, and the walk breaks before it. */
  lemma PaddedTokenHappens(clock: Clock, accessToken: string, r: ListRequest)
    requires Bounded(clock, r) && !Blank(accessToken)
    ensures
      var source := GooglePages(clock, accessToken, Repeating(" next"), r);
      Walk(source, 1) == At(Some(" next")) && Walk(source, 2) == Broken
      && PageIn(Repeating(" next")(AsQuery(r.(pageToken := Some(" next"))))).Good?
  {
    PaddedTokenIsAccepted();
    var http := Repeating(" next");
    GooglePage(clock, accessToken, http, r, None);
    var source := GooglePages(clock, accessToken, http, r);
    assert Walk(source, 0) == At(None);
    assert source(None) == Good([], 0, Some(" next"));
    PaddedTokenBreaksTheWalk(clock, accessToken, http, r, 1, " next");
  }
}
