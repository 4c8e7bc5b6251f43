/**
 * The ticket store (`src/ticket_system/ticket_retriever.py`): normalised lookup in the local
 * ticket list with a fallback to a Jira-like REST API, the translation of a Jira issue into a
 * ticket record, and the scored free-text ticket search.
 * The local JSON file is the ticket list the retriever holds. The HTTP request is a function
 * from the request to its reply that the caller passes in.
 */
module Tickets {
  import opened Wrappers
  import opened Slices
  import opened Chars
  import opened Ranking
  import opened Text

  /** The default `max_results` of `search_tickets`. */
  const DefaultTicketResults: int := 10

  /** A comment record; a field is `None` when the record has no such key. */
  datatype Comment = Comment(author: Option<string>, body: Option<string>, createdDate: Option<string>)

  /** A ticket record; a field is `None` when the record has no such key. */
  datatype Ticket = Ticket(
    id: Option<string>,
    title: Option<string>,
    description: Option<string>,
    status: Option<string>,
    priority: Option<string>,
    assignee: Option<string>,
    reporter: Option<string>,
    createdDate: Option<string>,
    updatedDate: Option<string>,
    comments: Option<seq<Comment>>)

  /** The record without any key, the empty dictionary Python treats as false. */
  predicate IsEmptyRecord(t: Ticket) {
    t == Ticket(None, None, None, None, None, None, None, None, None, None)
  }

  /** `if ticket:` on a lookup result: a record was found and it is not empty. */
  predicate Present(t: Option<Ticket>) {
    t.Some? && !IsEmptyRecord(t.value)
  }

  /** Every key of a comment is present. */
  predicate CompleteComment(c: Comment) {
    c.author.Some? && c.body.Some? && c.createdDate.Some?
  }

  /** Every key of a ticket, and of each of its comments, is present. */
  predicate Complete(t: Ticket) {
    && t.id.Some? && t.title.Some? && t.description.Some? && t.status.Some? && t.priority.Some?
    && t.assignee.Some? && t.reporter.Some? && t.createdDate.Some? && t.updatedDate.Some?
    && t.comments.Some? && forall i :: 0 <= i < |t.comments.value| ==> CompleteComment(t.comments.value[i])
  }

  /** A seed ticket with one comment, every key present. */
  function SampleTicket(id: string, title: string, description: string, status: string, priority: string,
                        assignee: string, reporter: string, created: string, updated: string,
                        commentBody: string, commented: string): Ticket {
    Ticket(Some(id), Some(title), Some(description), Some(status), Some(priority), Some(assignee),
           Some(reporter), Some(created), Some(updated), Some([Comment(Some(assignee), Some(commentBody), Some(commented))]))
  }

  /** The three tickets written to a ticket file that does not exist yet. */
  const SampleTickets: seq<Ticket> := [
    SampleTicket("PROJ-1001", "Unable to login to application",
      "User is experiencing login issues with error message 'Invalid credentials'",
      "Open", "High", "support-team", "customer@example.com",
      "2024-01-15T10:30:00Z", "2024-01-15T14:20:00Z",
      "Please check if you're using the correct password", "2024-01-15T11:00:00Z"),
    SampleTicket("PROJ-1002", "Feature request: Add dark mode",
      "Customer requests dark mode theme for better visibility",
      "In Progress", "Medium", "dev-team", "user@example.com",
      "2024-01-14T09:15:00Z", "2024-01-16T08:45:00Z",
      "Dark mode is planned for Q2 release", "2024-01-14T16:30:00Z"),
    SampleTicket("PROJ-1003", "Payment processing error",
      "Transaction failed with error code 500. Customer unable to complete purchase.",
      "Resolved", "Critical", "payment-team", "merchant@example.com",
      "2024-01-13T15:20:00Z", "2024-01-14T10:10:00Z",
      "Issue resolved. Was a temporary service outage.", "2024-01-14T10:10:00Z")
  ]

  // ---------------------------------------------------------------------------
  // _transform_jira_response
  // ---------------------------------------------------------------------------

  /** A Jira user object (`assignee`, `reporter`, a comment's `author`). */
  datatype JiraUser = JiraUser(displayName: Option<string>)
  /** A Jira object known by its name (`status`, `priority`). */
  datatype JiraNamed = JiraNamed(name: Option<string>)
  datatype JiraComment = JiraComment(author: Option<JiraUser>, body: Option<string>, created: Option<string>)
  /** The `comment` object of an issue, which holds the list of comments. */
  datatype JiraCommentPage = JiraCommentPage(comments: Option<seq<JiraComment>>)
  datatype JiraFields = JiraFields(
    summary: Option<string>,
    description: Option<string>,
    status: Option<JiraNamed>,
    priority: Option<JiraNamed>,
    assignee: Option<JiraUser>,
    reporter: Option<JiraUser>,
    created: Option<string>,
    updated: Option<string>,
    comment: Option<JiraCommentPage>)
  /** The body of a Jira `GET /rest/api/2/issue/<key>` reply. */
  datatype JiraIssue = JiraIssue(key: Option<string>, fields: Option<JiraFields>)

  /** `{}` in the position of the `fields` object. */
  const NoFields: JiraFields := JiraFields(None, None, None, None, None, None, None, None, None)

  /** `obj.get("displayName", "")` on a user object that defaults to `{}`. */
  function UserName(u: Option<JiraUser>): string {
    u.GetOr(JiraUser(None)).displayName.GetOr("")
  }

  /** `obj.get("name", "")` on a named object that defaults to `{}`. */
  function NameOf(n: Option<JiraNamed>): string {
    n.GetOr(JiraNamed(None)).name.GetOr("")
  }

  /** `fields.get("comment", {}).get("comments", [])` */
  function JiraComments(f: JiraFields): seq<JiraComment> {
    f.comment.GetOr(JiraCommentPage(None)).comments.GetOr([])
  }

  /** The comment record built from one Jira comment. */
  function TransformComment(c: JiraComment): (r: Comment)
    ensures CompleteComment(r)
  {
    Comment(Some(UserName(c.author)), Some(c.body.GetOr("")), Some(c.created.GetOr("")))
  }

  /**
   * `_transform_jira_response`: a record with every key present, whatever the issue lacks;
   * its comments are the issue's comments, translated one by one in the same order.
   */
  function TransformJiraResponse(issue: JiraIssue): (t: Ticket)
    ensures Complete(t) && !IsEmptyRecord(t)
    ensures var cs := JiraComments(issue.fields.GetOr(NoFields));
            |t.comments.value| == |cs| && forall i :: 0 <= i < |cs| ==> t.comments.value[i] == TransformComment(cs[i])
  {
    var f := issue.fields.GetOr(NoFields);
    var cs := JiraComments(f);
    Ticket(
      Some(issue.key.GetOr("")),
      Some(f.summary.GetOr("")),
      Some(f.description.GetOr("")),
      Some(NameOf(f.status)),
      Some(NameOf(f.priority)),
      Some(UserName(f.assignee)),
      Some(UserName(f.reporter)),
      Some(f.created.GetOr("")),
      Some(f.updated.GetOr("")),
      Some(seq(|cs|, i requires 0 <= i < |cs| => TransformComment(cs[i]))))
  }

  /** The Jira comment a complete comment record comes from. */
  function ToJiraComment(c: Comment): JiraComment
    requires CompleteComment(c)
  {
    JiraComment(Some(JiraUser(c.author)), c.body, c.createdDate)
  }

  /** The Jira issue a complete ticket record comes from: the inverse of the translation. */
  function ToJira(t: Ticket): JiraIssue
    requires Complete(t)
  {
    var cs := t.comments.value;
    JiraIssue(t.id, Some(JiraFields(
      t.title, t.description, Some(JiraNamed(t.status)), Some(JiraNamed(t.priority)),
      Some(JiraUser(t.assignee)), Some(JiraUser(t.reporter)), t.createdDate, t.updatedDate,
      Some(JiraCommentPage(Some(seq(|cs|, i requires 0 <= i < |cs| => ToJiraComment(cs[i]))))))))
  }

  /** Translating the Jira form of a complete ticket gives the ticket back: nothing is lost or reordered. */
  lemma TransformRoundTrip(t: Ticket)
    requires Complete(t)
    ensures TransformJiraResponse(ToJira(t)) == t
  {
    var issue := ToJira(t);
    var r := TransformJiraResponse(issue);
    var cs := t.comments.value;
    var js := JiraComments(issue.fields.value);
    assert |js| == |cs|;
    forall i | 0 <= i < |cs| ensures r.comments.value[i] == cs[i] {
      assert js[i] == ToJiraComment(cs[i]);
    }
    assert r.comments.value == cs;
  }

  /** Every key missing from an issue becomes `""`, and a missing comment list becomes `[]`. */
  lemma TransformMissingFields(key: Option<string>)
    ensures var empty := Ticket(Some(key.GetOr("")), Some(""), Some(""), Some(""), Some(""), Some(""), Some(""), Some(""), Some(""), Some([]));
            && TransformJiraResponse(JiraIssue(key, None)) == empty
            && TransformJiraResponse(JiraIssue(key, Some(NoFields))) == empty
  {
  }

  // ---------------------------------------------------------------------------
  // _fetch_ticket_from_api
  // ---------------------------------------------------------------------------

  /** An authenticated GET request. */
  datatype Request = Request(url: string, username: string, apiToken: string)

  /** The outcome of a request: a status code with the decoded JSON body, or a request exception. */
  datatype Reply = Response(status: int, body: JiraIssue) | RequestFailed

  /** `f"{api_url}/rest/api/2/issue/{ticket_id}"` */
  function IssueUrl(apiUrl: string, ticketId: string): string {
    apiUrl + "/rest/api/2/issue/" + ticketId
  }

  /** `_fetch_ticket_from_api`, where `api` answers the request. */
  function FetchTicketFromApi(apiUrl: string, username: Option<string>, apiToken: Option<string>, ticketId: string,
                              api: Request -> Reply): Option<Ticket>
  {
    if !Truthy(username) || !Truthy(apiToken) then None
    else
      match api(Request(IssueUrl(apiUrl, ticketId), username.value, apiToken.value))
      case Response(status, body) => if status == 200 then Some(TransformJiraResponse(body)) else None
      case RequestFailed => None
  }

  /** Without a username or a token no request is made: the answer is `None` whatever the API would say. */
  lemma FetchNeedsCredentials(apiUrl: string, username: Option<string>, apiToken: Option<string>, ticketId: string,
                              api: Request -> Reply)
    requires !Truthy(username) || !Truthy(apiToken)
    ensures FetchTicketFromApi(apiUrl, username, apiToken, ticketId, api) == None
  {
  }

  /** A ticket is fetched exactly when the request for the issue's URL is answered with status 200, and it is that body, translated. */
  lemma FetchFound(apiUrl: string, username: Option<string>, apiToken: Option<string>, ticketId: string,
                   api: Request -> Reply)
    ensures var r := FetchTicketFromApi(apiUrl, username, apiToken, ticketId, api);
            r.Some? <==>
              && Truthy(username) && Truthy(apiToken)
              && var reply := api(Request(IssueUrl(apiUrl, ticketId), username.value, apiToken.value));
                 reply.Response? && reply.status == 200 && r == Some(TransformJiraResponse(reply.body))
  {
  }

  /** A fetched ticket is never the empty record. */
  lemma FetchPresent(apiUrl: string, username: Option<string>, apiToken: Option<string>, ticketId: string,
                     api: Request -> Reply)
    ensures var r := FetchTicketFromApi(apiUrl, username, apiToken, ticketId, api);
            r.None? || Present(r)
  {
  }

  // ---------------------------------------------------------------------------
  // get_ticket and _get_ticket_from_local
  // ---------------------------------------------------------------------------

  /** `clean_text(ticket_id).upper()` */
  function NormalizeId(ticketId: string): string {
    UpperStr(CleanText(ticketId))
  }

  /** `ticket.get("id", "").upper() == ticket_id` */
  predicate IdMatches(t: Ticket, ticketId: string) {
    UpperStr(t.id.GetOr("")) == ticketId
  }

  /** The first ticket in list order whose upper-cased id equals `ticketId`. */
  function LocalLookup(tickets: seq<Ticket>, ticketId: string): (r: Option<Ticket>)
    ensures r.Some? ==> r.value in tickets && IdMatches(r.value, ticketId)
  {
    if tickets == [] then None
    else if IdMatches(tickets[0], ticketId) then Some(tickets[0])
    else LocalLookup(tickets[1..], ticketId)
  }

  /** Position `k` holds a matching ticket and no earlier position does. */
  ghost predicate FirstMatching(tickets: seq<Ticket>, ticketId: string, k: nat) {
    k < |tickets| && IdMatches(tickets[k], ticketId) && forall j :: 0 <= j < k ==> !IdMatches(tickets[j], ticketId)
  }

  /** The lookup finds the first matching ticket, and misses exactly when no ticket matches. */
  lemma {:induction false} LocalLookupFirst(tickets: seq<Ticket>, ticketId: string)
    ensures LocalLookup(tickets, ticketId).None? <==> forall j :: 0 <= j < |tickets| ==> !IdMatches(tickets[j], ticketId)
    ensures forall k: nat :: FirstMatching(tickets, ticketId, k) ==> LocalLookup(tickets, ticketId) == Some(tickets[k])
  {
    if tickets != [] {
      var tail := tickets[1..];
      LocalLookupFirst(tail, ticketId);
      if !IdMatches(tickets[0], ticketId) {
        forall k: nat | FirstMatching(tickets, ticketId, k) ensures LocalLookup(tickets, ticketId) == Some(tickets[k]) {
          assert k > 0;
          forall j | 0 <= j < k - 1 ensures !IdMatches(tail[j], ticketId) {
            assert tail[j] == tickets[j + 1];
          }
          assert FirstMatching(tail, ticketId, k - 1);
        }
        if LocalLookup(tickets, ticketId).None? {
          forall j | 0 <= j < |tickets| ensures !IdMatches(tickets[j], ticketId) {
            if j > 0 { assert tickets[j] == tail[j - 1]; }
          }
        }
      } else {
        forall k: nat | FirstMatching(tickets, ticketId, k) ensures k == 0 { }
      }
    }
  }

  /** What `get_ticket` returns: the local record when it is present, otherwise the API's. */
  function GetTicketResult(tickets: seq<Ticket>, apiUrl: string, username: Option<string>, apiToken: Option<string>,
                           ticketId: string, api: Request -> Reply): (r: Option<Ticket>)
    ensures r.None? || Present(r)
  {
    var id := NormalizeId(ticketId);
    var local := LocalLookup(tickets, id);
    if Present(local) then local
    else
      var remote := FetchTicketFromApi(apiUrl, username, apiToken, id, api);
      if Present(remote) then remote else None
  }

  /** A local hit is returned as it is, and the API is not consulted: any two APIs give the same answer. */
  lemma GetTicketLocalFirst(tickets: seq<Ticket>, apiUrl: string, username: Option<string>, apiToken: Option<string>,
                            ticketId: string, api1: Request -> Reply, api2: Request -> Reply)
    requires Present(LocalLookup(tickets, NormalizeId(ticketId)))
    ensures GetTicketResult(tickets, apiUrl, username, apiToken, ticketId, api1) == LocalLookup(tickets, NormalizeId(ticketId))
    ensures GetTicketResult(tickets, apiUrl, username, apiToken, ticketId, api1) ==
            GetTicketResult(tickets, apiUrl, username, apiToken, ticketId, api2)
  {
  }

  /** On a local miss the answer is the API's, fetched for the normalised id. */
  lemma GetTicketFallsBack(tickets: seq<Ticket>, apiUrl: string, username: Option<string>, apiToken: Option<string>,
                           ticketId: string, api: Request -> Reply)
    requires !Present(LocalLookup(tickets, NormalizeId(ticketId)))
    ensures GetTicketResult(tickets, apiUrl, username, apiToken, ticketId, api) ==
            FetchTicketFromApi(apiUrl, username, apiToken, NormalizeId(ticketId), api)
  {
    FetchPresent(apiUrl, username, apiToken, NormalizeId(ticketId), api);
  }

  /** Without credentials only the local list is searched. */
  lemma GetTicketOffline(tickets: seq<Ticket>, apiUrl: string, username: Option<string>, apiToken: Option<string>,
                         ticketId: string, api: Request -> Reply)
    requires !Truthy(username) || !Truthy(apiToken)
    ensures var local := LocalLookup(tickets, NormalizeId(ticketId));
            GetTicketResult(tickets, apiUrl, username, apiToken, ticketId, api) == (if Present(local) then local else None)
  {
  }

  /** Upper-casing keeps a clean text clean: it changes only letters. */
  lemma UpperKeepsClean(c: string)
    requires IsClean(c)
    ensures IsClean(UpperStr(c))
  {
    var u := UpperStr(c);
    forall i | 0 <= i < |c| ensures IsSpace(u[i]) <==> IsSpace(c[i]) {
      assert u[i] == UpperChar(c[i]);
    }
  }

  /** Normalising an id twice gives what normalising it once gives. */
  lemma NormalizeIdIdempotent(ticketId: string)
    ensures NormalizeId(NormalizeId(ticketId)) == NormalizeId(ticketId)
  {
    var c := CleanText(ticketId);
    var u := UpperStr(c);
    CleanTextIsClean(ticketId);
    UpperKeepsClean(c);
    CleanTextOfClean(u);
    assert CleanText(u) == u;
    UpperTwice(c);
    assert NormalizeId(NormalizeId(ticketId)) == UpperStr(u);
  }

  /** Upper-casing twice is upper-casing once. */
  lemma UpperTwice(c: string)
    ensures UpperStr(UpperStr(c)) == UpperStr(c)
  {
    var u := UpperStr(c);
    var v := UpperStr(u);
    assert |v| == |u|;
    forall i | 0 <= i < |u| ensures v[i] == u[i] {
      assert u[i] == UpperChar(c[i]);
    }
  }

  /** A text without whitespace is clean. */
  lemma NoSpaceIsClean(r: string)
    requires forall i :: 0 <= i < |r| ==> !IsSpace(r[i])
    ensures IsClean(r)
  {
  }

  /** Ids that normalise alike find the same ticket. */
  lemma GetTicketNormalized(tickets: seq<Ticket>, apiUrl: string, username: Option<string>, apiToken: Option<string>,
                            ticketId: string, api: Request -> Reply)
    ensures GetTicketResult(tickets, apiUrl, username, apiToken, NormalizeId(ticketId), api) ==
            GetTicketResult(tickets, apiUrl, username, apiToken, ticketId, api)
  {
    NormalizeIdIdempotent(ticketId);
  }

  lemma NormalizeLowerCase(s: string)
    requires s == "proj-1001"
    ensures NormalizeId(s) == "PROJ-1001"
  {
    var t := "PROJ-1001";
    assert forall i :: 0 <= i < |s| ==> !IsSpace(s[i]) && UpperChar(s[i]) == t[i];
    NoSpaceIsClean(s);
    CleanTextOfClean(s);
    assert UpperStr(s) == t;
  }

  lemma NormalizePadded(s: string)
    requires s == " PROJ-1001 "
    ensures NormalizeId(s) == "PROJ-1001"
  {
    var t := "PROJ-1001";
    assert s == " " + t + " ";
    assert forall i :: 0 <= i < |t| ==> !IsSpace(t[i]) && UpperChar(t[i]) == t[i];
    NoSpaceIsClean(t);
    CleanTextPadded(t);
    assert UpperStr(t) == t;
  }

  /** `"proj-1001"` and `" PROJ-1001 "` both find the first seed ticket, whatever the API. */
  lemma GetTicketExample(s1: string, s2: string, apiUrl: string, username: Option<string>, apiToken: Option<string>,
                         api: Request -> Reply)
    requires s1 == "proj-1001" && s2 == " PROJ-1001 "
    ensures GetTicketResult(SampleTickets, apiUrl, username, apiToken, s1, api) == Some(SampleTickets[0])
    ensures GetTicketResult(SampleTickets, apiUrl, username, apiToken, s2, api) == Some(SampleTickets[0])
  {
    NormalizeLowerCase(s1);
    NormalizePadded(s2);
    assert IdMatches(SampleTickets[0], "PROJ-1001");
  }

  // ---------------------------------------------------------------------------
  // search_tickets
  // ---------------------------------------------------------------------------

  /** 10 when the lower-cased query occurs in the lower-cased id. */
  function TicketIdScore(query: string, t: Ticket): real {
    if IsSubstring(LowerStr(query), LowerStr(t.id.GetOr(""))) then 10.0 else 0.0
  }

  /** 5 when the lower-cased query occurs in the lower-cased title. */
  function TicketTitleScore(query: string, t: Ticket): real {
    if IsSubstring(LowerStr(query), LowerStr(t.title.GetOr(""))) then 5.0 else 0.0
  }

  /** 2 when the lower-cased query occurs in the lower-cased description. */
  function TicketDescriptionScore(query: string, t: Ticket): real {
    if IsSubstring(LowerStr(query), LowerStr(t.description.GetOr(""))) then 2.0 else 0.0
  }

  /** Three times the keyword similarity of the query and "title description", both lower-cased. */
  function TicketSimilarityScore(query: string, t: Ticket): real {
    3.0 * Similarity(query, LowerStr(t.title.GetOr("")) + " " + LowerStr(t.description.GetOr("")))
  }

  /** The `match_score` `search_tickets` computes for one ticket. */
  function TicketScore(query: string, t: Ticket): real {
    TicketIdScore(query, t) + TicketTitleScore(query, t) + TicketDescriptionScore(query, t) + TicketSimilarityScore(query, t)
  }

  /** Each term lies between 0 and its weight, so a score lies in [0, 20]. */
  lemma TicketScoreBounds(query: string, t: Ticket)
    ensures 0.0 <= TicketScore(query, t) <= 20.0
  {
    SimilarityBounds(query, LowerStr(t.title.GetOr("")) + " " + LowerStr(t.description.GetOr("")));
  }

  /** The empty query occurs in every field and has no keywords, so every ticket scores exactly 17. */
  lemma EmptyQueryScore(t: Ticket)
    ensures TicketScore("", t) == 17.0
  {
    assert LowerStr("") == "";
    SubstringTrivial("", LowerStr(t.id.GetOr("")));
    SubstringTrivial("", LowerStr(t.title.GetOr("")));
    SubstringTrivial("", LowerStr(t.description.GetOr("")));
    SimilarityEmpty(LowerStr(t.title.GetOr("")) + " " + LowerStr(t.description.GetOr("")));
  }

  /** The scored copies of the tickets with a positive score, in list order. */
  function ScoredTickets(xs: seq<Ticket>, query: string): (r: seq<Ranked<Ticket>>)
    ensures |r| <= |xs|
  {
    if xs == [] then []
    else
      var t := xs[|xs| - 1];
      var s := TicketScore(query, t);
      ScoredTickets(xs[..|xs| - 1], query) + (if s > 0.0 then [Ranked(t, s)] else [])
  }

  /** Scoring one more ticket appends its scored copy when its score is positive. */
  lemma ScoredTicketsSnoc(xs: seq<Ticket>, i: nat, query: string)
    requires i < |xs|
    ensures ScoredTickets(xs[..i + 1], query) ==
            ScoredTickets(xs[..i], query) + (if TicketScore(query, xs[i]) > 0.0 then [Ranked(xs[i], TicketScore(query, xs[i]))] else [])
  {
    assert xs[..i + 1][..i] == xs[..i];
  }

  /** Every scored entry is a stored ticket carrying its own, positive, score. */
  lemma {:induction false} ScoredTicketsSound(xs: seq<Ticket>, query: string)
    ensures forall x :: x in ScoredTickets(xs, query) ==> x.item in xs && x.score == TicketScore(query, x.item) > 0.0
  {
    if xs != [] {
      var init := xs[..|xs| - 1];
      ScoredTicketsSound(init, query);
      forall x | x in init ensures x in xs {
        var i :| 0 <= i < |init| && init[i] == x;
        assert xs[i] == x;
      }
    }
  }

  /** Every stored ticket with a positive score is scored. */
  lemma {:induction false} ScoredTicketsComplete(xs: seq<Ticket>, query: string)
    ensures forall i :: 0 <= i < |xs| && TicketScore(query, xs[i]) > 0.0 ==>
              Ranked(xs[i], TicketScore(query, xs[i])) in ScoredTickets(xs, query)
  {
    if xs != [] {
      var init := xs[..|xs| - 1];
      ScoredTicketsComplete(init, query);
      forall i | 0 <= i < |xs| - 1 && TicketScore(query, xs[i]) > 0.0
        ensures Ranked(xs[i], TicketScore(query, xs[i])) in ScoredTickets(xs, query)
      {
        assert xs[i] == init[i];
        assert Ranked(init[i], TicketScore(query, init[i])) in ScoredTickets(init, query);
      }
    }
  }

  /** Every ticket paired with the same score, in list order. */
  function AllScored(xs: seq<Ticket>, k: real): (r: seq<Ranked<Ticket>>)
    ensures |r| == |xs| && forall i :: 0 <= i < |xs| ==> r[i] == Ranked(xs[i], k)
  {
    seq(|xs|, i requires 0 <= i < |xs| => Ranked(xs[i], k))
  }

  /** For the empty query the scoring pass keeps every ticket, each with score 17. */
  lemma {:induction false} ScoredTicketsEmptyQuery(xs: seq<Ticket>)
    ensures ScoredTickets(xs, "") == AllScored(xs, 17.0)
  {
    if xs != [] {
      var init := xs[..|xs| - 1];
      ScoredTicketsEmptyQuery(init);
      EmptyQueryScore(xs[|xs| - 1]);
      AllScoredSnoc(xs, 17.0);
    }
  }

  lemma AllScoredSnoc(xs: seq<Ticket>, k: real)
    requires xs != []
    ensures AllScored(xs, k) == AllScored(xs[..|xs| - 1], k) + [Ranked(xs[|xs| - 1], k)]
  {
    var a, b := AllScored(xs, k), AllScored(xs[..|xs| - 1], k) + [Ranked(xs[|xs| - 1], k)];
    assert |a| == |b|;
    forall i | 0 <= i < |a| ensures a[i] == b[i] {
      if i < |xs| - 1 { assert b[i] == AllScored(xs[..|xs| - 1], k)[i]; }
    }
  }

  /** What `search_tickets` returns: the positive scores, sorted, truncated; no threshold applies. */
  function TicketSearchResults(tickets: seq<Ticket>, query: string, maxResults: int): seq<Ranked<Ticket>> {
    Prefix(SortDesc(ScoredTickets(tickets, query)), maxResults)
  }

  /** Every result is a stored ticket with its own positive score. */
  lemma TicketSearchSound(tickets: seq<Ticket>, query: string, maxResults: int)
    ensures forall x :: x in TicketSearchResults(tickets, query, maxResults) ==>
              x.item in tickets && x.score == TicketScore(query, x.item) > 0.0
  {
    var scored := ScoredTickets(tickets, query);
    ScoredTicketsSound(tickets, query);
    forall x | x in TicketSearchResults(tickets, query, maxResults) ensures x in scored {
      assert x in multiset(SortDesc(scored));
    }
  }

  /** The results are ordered by non-increasing score, and at most `maxResults` are returned. */
  lemma TicketSearchSortedAndBounded(tickets: seq<Ticket>, query: string, maxResults: int)
    ensures var r := TicketSearchResults(tickets, query, maxResults);
            && SortedDesc(r)
            && |r| <= |tickets|
            && (maxResults >= 0 ==> |r| <= maxResults)
  {
    var sorted := SortDesc(ScoredTickets(tickets, query));
    SortDescSorted(ScoredTickets(tickets, query));
    var r := Prefix(sorted, maxResults);
    forall i, j | 0 <= i < j < |r| ensures r[i].score >= r[j].score {
      assert r[i] == sorted[i] && r[j] == sorted[j];
    }
  }

  /** Equal scores keep list order: the results carrying any one score are a prefix of the scored tickets with that score. */
  lemma TicketSearchStable(tickets: seq<Ticket>, query: string, maxResults: int, k: real)
    ensures WithScore(TicketSearchResults(tickets, query, maxResults), k) <= WithScore(ScoredTickets(tickets, query), k)
  {
    var sorted := SortDesc(ScoredTickets(tickets, query));
    var r := Prefix(sorted, maxResults);
    PrefixWithScore(sorted, |r|, k);
    SortDescStable(ScoredTickets(tickets, query), k);
  }

  /**
   * No threshold: a ticket with a positive score is returned unless `maxResults` results that
   * score at least as high fill the list.
   */
  lemma TicketSearchKeepsBest(tickets: seq<Ticket>, query: string, maxResults: nat, i: nat)
    requires i < |tickets| && TicketScore(query, tickets[i]) > 0.0
    ensures var r := TicketSearchResults(tickets, query, maxResults);
            var x := Ranked(tickets[i], TicketScore(query, tickets[i]));
            x in r || (|r| == maxResults && forall y :: y in r ==> y.score >= x.score)
  {
    var scored := ScoredTickets(tickets, query);
    var sorted := SortDesc(scored);
    var x := Ranked(tickets[i], TicketScore(query, tickets[i]));
    ScoredTicketsComplete(tickets, query);
    assert x in multiset(sorted);
    SortDescSorted(scored);
    TruncateKeepsBest(sorted, maxResults);
  }

  /** With its default `max_results`, a ticket search returns at most ten tickets. */
  lemma DefaultTicketSearchBounded(tickets: seq<Ticket>, query: string)
    ensures |TicketSearchResults(tickets, query, DefaultTicketResults)| <= 10
  {
    TicketSearchSortedAndBounded(tickets, query, DefaultTicketResults);
  }

  /** The empty query returns the first `maxResults` tickets in list order, each scored 17. */
  lemma TicketSearchEmptyQuery(tickets: seq<Ticket>, maxResults: int)
    ensures TicketSearchResults(tickets, "", maxResults) == Prefix(AllScored(tickets, 17.0), maxResults)
  {
    ScoredTicketsEmptyQuery(tickets);
    SortDescEqualScores(AllScored(tickets, 17.0), 17.0);
  }

  /** The score of one ticket, accumulated term by term as in the body of the search loop. */
  method ScoreTicket(query: string, queryLower: string, ticket: Ticket) returns (score: real)
    requires queryLower == LowerStr(query)
    ensures score == TicketScore(query, ticket)
  {
    score := 0.0;
    var title := LowerStr(ticket.title.GetOr(""));
    var description := LowerStr(ticket.description.GetOr(""));
    var ticketId := LowerStr(ticket.id.GetOr(""));
    if IsSubstring(queryLower, ticketId) {
      score := score + 10.0;
    }
    if IsSubstring(queryLower, title) {
      score := score + 5.0;
    }
    if IsSubstring(queryLower, description) {
      score := score + 2.0;
    }
    assert score == TicketIdScore(query, ticket) + TicketTitleScore(query, ticket) + TicketDescriptionScore(query, ticket);
    var similarity := Similarity(query, title + " " + description);
    score := score + similarity * 3.0;
  }

  /** Connection settings read from the environment (`Config.TICKET_SYSTEM_*`). */
  datatype Settings = Settings(url: string, username: Option<string>, apiToken: Option<string>)

  /** `TicketRetriever`: API settings and the local ticket list. */
  class TicketRetriever {
    const apiUrl: string
    const username: Option<string>
    const apiToken: Option<string>
    /** The records of the local ticket file. */
    const tickets: seq<Ticket>

    /**
     * Each argument that is missing or empty falls back to its setting. The local file holds
     * `stored` when it exists; otherwise the seed tickets are written to it first.
     */
    constructor(apiUrl: Option<string>, username: Option<string>, apiToken: Option<string>, config: Settings,
                stored: Option<seq<Ticket>>)
      ensures this.apiUrl == (if Truthy(apiUrl) then apiUrl.value else config.url)
      ensures this.username == Or(username, config.username)
      ensures this.apiToken == Or(apiToken, config.apiToken)
      ensures tickets == stored.GetOr(SampleTickets)
    {
      this.apiUrl := if Truthy(apiUrl) then apiUrl.value else config.url;
      this.username := Or(username, config.username);
      this.apiToken := Or(apiToken, config.apiToken);
      tickets := if stored.Some? then stored.value else SampleTickets;
    }

    /** `_get_ticket_from_local`: the first ticket whose upper-cased id equals `ticketId`. */
    method GetTicketFromLocal(ticketId: string) returns (r: Option<Ticket>)
      ensures r == LocalLookup(tickets, ticketId)
    {
      var i := 0;
      while i < |tickets|
        invariant 0 <= i <= |tickets|
        invariant LocalLookup(tickets[i..], ticketId) == LocalLookup(tickets, ticketId)
      {
        assert tickets[i..][1..] == tickets[i + 1..];
        var ticket := tickets[i];
        if UpperStr(ticket.id.GetOr("")) == ticketId {
          return Some(ticket);
        }
        i := i + 1;
      }
      return None;
    }

    /** `get_ticket`: normalise the id, try the local list, then the API. */
    method GetTicket(ticketId: string, api: Request -> Reply) returns (r: Option<Ticket>)
      ensures r == GetTicketResult(tickets, apiUrl, username, apiToken, ticketId, api)
    {
      var id := UpperStr(CleanText(ticketId));
      var ticket := GetTicketFromLocal(id);
      if Present(ticket) {
        return ticket;
      }
      ticket := FetchTicketFromApi(apiUrl, username, apiToken, id, api);
      if Present(ticket) {
        return ticket;
      }
      return None;
    }

    /** `search_tickets`: scores every ticket in one pass, then sorts and truncates. */
    method SearchTickets(query: string, maxResults: int) returns (results: seq<Ranked<Ticket>>)
      ensures results == TicketSearchResults(tickets, query, maxResults)
    {
      var queryLower := LowerStr(query);
      var matching: seq<Ranked<Ticket>> := [];
      var i := 0;
      while i < |tickets|
        invariant 0 <= i <= |tickets|
        invariant matching == ScoredTickets(tickets[..i], query)
      {
        var ticket := tickets[i];
        var score := ScoreTicket(query, queryLower, ticket);
        ScoredTicketsSnoc(tickets, i, query);
        var entry := if score > 0.0 then [Ranked(ticket, score)] else [];
        matching := matching + entry;
        i := i + 1;
      }
      assert tickets[..i] == tickets;
      var sorted := SortDesc(matching);
      results := Prefix(sorted, maxResults);
    }
  }
}
