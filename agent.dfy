/**
 * The support agent (`src/agent/customer_support_agent.py`): one query is answered by
 * extracting a ticket reference, resolving the ticket, searching the knowledge base and
 * composing a sectioned reply, and every exchange is appended to the conversation log.
 * The clock is read by the caller: the conversation stamp and the ISO time are parameters.
 */
module Agent {
  import opened Wrappers
  import opened Slices
  import opened Chars
  import opened Ranking
  import opened Text
  import opened Articles
  import opened Tickets

  /** One exchange of the conversation log. */
  datatype Entry = Entry(
    timestamp: string,
    userQuery: string,
    agentResponse: string,
    ticketReference: string,
    conversationId: string)

  datatype SourceKind = TicketSource | KnowledgeBaseSource

  /** An entry of `sources`: where part of the answer came from. */
  datatype Source = Source(kind: SourceKind, id: string, title: string)

  /** The dictionary `process_query` returns. */
  datatype ResponseData = ResponseData(
    response: string,
    ticketDetails: Option<Ticket>,
    knowledgeBaseResults: seq<Ranked<Article>>,
    conversationId: string,
    timestamp: string,
    sources: seq<Source>)

  // The fixed sentences of the reply. Long literals are written as concatenations of short
  // pieces, so that the verifier can read their first characters.
  const Greeting: string := "Hello! " + "I'm your customer support agent. " + "How can I help you today?"
  const Fallback: string :=
    "I couldn't find specific information " + "related to your query. "
    + "Could you please provide more details " + "or a ticket reference? "
    + "I'm here to help you!"
  const Closing: string := "Is there anything else I can help you with?"
  const PointerLine: string :=
    "I've found some relevant information " + "above that might help address your concern. "
    + "Please review the details and let me know " + "if you need further assistance."
  const LookingLine: string := "I'm looking into solutions for you. " + "Please check the relevant information above."

  /** `"\n".join(parts)` */
  function JoinLines(parts: seq<string>): string {
    if parts == [] then [] else if |parts| == 1 then parts[0] else parts[0] + "\n" + JoinLines(parts[1..])
  }

  /** Joining a non-empty list followed by two more lines puts those lines, newline-separated, at the end. */
  lemma {:induction false} JoinLinesEnd(parts: seq<string>, a: string, b: string)
    requires parts != []
    ensures JoinLines(parts + [a, b]) == JoinLines(parts) + "\n" + a + "\n" + b
  {
    if |parts| == 1 {
      assert (parts + [a, b])[1..] == [a, b];
      assert [a, b][1..] == [b];
      assert JoinLines([a, b]) == a + "\n" + b;
    } else {
      assert (parts + [a, b])[1..] == parts[1..] + [a, b];
      JoinLinesEnd(parts[1..], a, b);
    }
  }

  // ---------------------------------------------------------------------------
  // _create_contextual_response
  // ---------------------------------------------------------------------------

  /** `_create_contextual_response`: the first pattern that applies decides the text. */
  function ContextualResponse(userQuery: string, ticket: Option<Ticket>, results: seq<Ranked<Article>>): string {
    var q := LowerStr(userQuery);
    if IsSubstring("status", q) && Present(ticket) then StatusReply(ticket.value)
    else if IsSubstring("progress", q) && Present(ticket) && Truthy(ticket.value.comments) then
      ProgressReply(ticket.value.comments.value)
    else if IsSubstring("resolve", q) || IsSubstring("fix", q) then
      if results != [] then SolutionReply(results[0].item) else LookingLine
    else if (IsSubstring("error", q) || IsSubstring("issue", q)) && Present(ticket) then IssueReply(ticket.value)
    else if results != [] then PointerLine
    else ""
  }

  /** The status answer. */
  function StatusReply(t: Ticket): string {
    "Your ticket is currently **" + t.status.GetOr("Unknown") + "**. "
  }

  /** The progress answer: the latest comment's body, cut to 200 characters. */
  function ProgressReply(comments: seq<Comment>): string
    requires comments != []
  {
    "Latest update on your ticket: " + Prefix(comments[|comments| - 1].body.GetOr(""), 200)
  }

  /** The solution answer: the best article's content, cut to 200 characters. */
  function SolutionReply(a: Article): string {
    "Based on our knowledge base, " + "here's a potential solution: " + Prefix(a.content.GetOr(""), 200)
  }

  /** The issue answer: the ticket's description, cut to 200 characters. */
  function IssueReply(t: Ticket): string {
    "I see you're experiencing an issue. " + "Your ticket describes: " + Prefix(t.description.GetOr(""), 200)
  }

  /** The contextual rules, as a table tried top to bottom. */
  datatype Rule = StatusRule | ProgressRule | ResolveRule | IssueRule | PointerRule

  const Rules: seq<Rule> := [StatusRule, ProgressRule, ResolveRule, IssueRule, PointerRule]

  /** When a rule applies to the lower-cased query `q`. */
  predicate Applies(r: Rule, q: string, ticket: Option<Ticket>, results: seq<Ranked<Article>>) {
    match r
    case StatusRule => IsSubstring("status", q) && Present(ticket)
    case ProgressRule => IsSubstring("progress", q) && Present(ticket) && Truthy(ticket.value.comments)
    case ResolveRule => IsSubstring("resolve", q) || IsSubstring("fix", q)
    case IssueRule => (IsSubstring("error", q) || IsSubstring("issue", q)) && Present(ticket)
    case PointerRule => results != []
  }

  /** What a rule answers when it applies. */
  function RuleText(r: Rule, q: string, ticket: Option<Ticket>, results: seq<Ranked<Article>>): (text: string)
    requires Applies(r, q, ticket, results)
    ensures text != []
  {
    match r
    case StatusRule => StatusReply(ticket.value)
    case ProgressRule => ProgressReply(ticket.value.comments.value)
    case ResolveRule => if results == [] then LookingLine else SolutionReply(results[0].item)
    case IssueRule => IssueReply(ticket.value)
    case PointerRule => PointerLine
  }

  /** The first rule of `rules` that applies, if any. */
  function FirstRule(rules: seq<Rule>, q: string, ticket: Option<Ticket>, results: seq<Ranked<Article>>): (r: Option<Rule>)
    ensures r.Some? ==> r.value in rules && Applies(r.value, q, ticket, results)
    ensures r.None? <==> forall i :: 0 <= i < |rules| ==> !Applies(rules[i], q, ticket, results)
  {
    if rules == [] then None
    else if Applies(rules[0], q, ticket, results) then Some(rules[0])
    else
      var r := FirstRule(rules[1..], q, ticket, results);
      assert forall i :: 1 <= i < |rules| ==> rules[i] == rules[1..][i - 1];
      r
  }

  /** The table reading of the contextual response: the first applicable rule's text, or nothing. */
  function ContextualByRules(userQuery: string, ticket: Option<Ticket>, results: seq<Ranked<Article>>): string {
    var q := LowerStr(userQuery);
    match FirstRule(Rules, q, ticket, results)
    case Some(r) => RuleText(r, q, ticket, results)
    case None => ""
  }

  /** The chain of conditionals is the rule table read top to bottom, first match wins. */
  lemma ContextualFollowsRules(userQuery: string, ticket: Option<Ticket>, results: seq<Ranked<Article>>)
    ensures ContextualResponse(userQuery, ticket, results) == ContextualByRules(userQuery, ticket, results)
  {
    var q := LowerStr(userQuery);
    FirstRuleOfTable(q, ticket, results);
    if Applies(StatusRule, q, ticket, results) || Applies(ProgressRule, q, ticket, results) {
      TicketRulesFirst(userQuery, ticket, results);
    } else {
      LaterRules(userQuery, ticket, results);
    }
  }

  /** The status and progress branches. */
  lemma TicketRulesFirst(userQuery: string, ticket: Option<Ticket>, results: seq<Ranked<Article>>)
    requires var q := LowerStr(userQuery);
             Applies(StatusRule, q, ticket, results) || Applies(ProgressRule, q, ticket, results)
    ensures var q := LowerStr(userQuery);
            ContextualResponse(userQuery, ticket, results) ==
            if Applies(StatusRule, q, ticket, results) then StatusReply(ticket.value)
            else ProgressReply(ticket.value.comments.value)
  {
  }

  /** The branches after status and progress. */
  lemma LaterRules(userQuery: string, ticket: Option<Ticket>, results: seq<Ranked<Article>>)
    requires var q := LowerStr(userQuery);
             !Applies(StatusRule, q, ticket, results) && !Applies(ProgressRule, q, ticket, results)
    ensures var q := LowerStr(userQuery);
            ContextualResponse(userQuery, ticket, results) ==
            if Applies(ResolveRule, q, ticket, results) then RuleText(ResolveRule, q, ticket, results)
            else if Applies(IssueRule, q, ticket, results) then IssueReply(ticket.value)
            else if results != [] then PointerLine
            else ""
  {
  }

  /** The first applicable rule of the table, rule by rule. */
  lemma FirstRuleOfTable(q: string, ticket: Option<Ticket>, results: seq<Ranked<Article>>)
    ensures FirstRule(Rules, q, ticket, results) ==
            if Applies(StatusRule, q, ticket, results) then Some(StatusRule)
            else if Applies(ProgressRule, q, ticket, results) then Some(ProgressRule)
            else if Applies(ResolveRule, q, ticket, results) then Some(ResolveRule)
            else if Applies(IssueRule, q, ticket, results) then Some(IssueRule)
            else if Applies(PointerRule, q, ticket, results) then Some(PointerRule)
            else None
  {
    var r1 := [ProgressRule, ResolveRule, IssueRule, PointerRule];
    var r2 := [ResolveRule, IssueRule, PointerRule];
    var r3 := [IssueRule, PointerRule];
    var r4 := [PointerRule];
    assert Rules[1..] == r1 && r1[1..] == r2 && r2[1..] == r3 && r3[1..] == r4 && r4[1..] == [];
    if !Applies(StatusRule, q, ticket, results) {
      FirstRuleSkip(Rules, q, ticket, results);
      if !Applies(ProgressRule, q, ticket, results) {
        FirstRuleSkip(r1, q, ticket, results);
        if !Applies(ResolveRule, q, ticket, results) {
          FirstRuleSkip(r2, q, ticket, results);
          if !Applies(IssueRule, q, ticket, results) {
            FirstRuleSkip(r3, q, ticket, results);
            if !Applies(PointerRule, q, ticket, results) {
              FirstRuleSkip(r4, q, ticket, results);
            }
          }
        }
      }
    }
  }

  lemma FirstRuleSkip(rules: seq<Rule>, q: string, ticket: Option<Ticket>, results: seq<Ranked<Article>>)
    requires rules != [] && !Applies(rules[0], q, ticket, results)
    ensures FirstRule(rules, q, ticket, results) == FirstRule(rules[1..], q, ticket, results)
  {
  }

  /** The contextual response is empty exactly when no rule applies. */
  lemma ContextualEmptyIff(userQuery: string, ticket: Option<Ticket>, results: seq<Ranked<Article>>)
    ensures ContextualResponse(userQuery, ticket, results) == "" <==>
            forall i :: 0 <= i < |Rules| ==> !Applies(Rules[i], LowerStr(userQuery), ticket, results)
  {
    ContextualFollowsRules(userQuery, ticket, results);
  }

  /** A question about the status of a found ticket is answered with its status, whatever else it asks. */
  lemma StatusWins(userQuery: string, ticket: Option<Ticket>, results: seq<Ranked<Article>>)
    requires IsSubstring("status", LowerStr(userQuery)) && Present(ticket)
    ensures ContextualResponse(userQuery, ticket, results) == "Your ticket is currently **" + ticket.value.status.GetOr("Unknown") + "**. "
  {
  }

  /** No contextual response is the fallback sentence: they begin differently. */
  lemma ContextualIsNotFallback(userQuery: string, ticket: Option<Ticket>, results: seq<Ranked<Article>>)
    ensures ContextualResponse(userQuery, ticket, results) != Fallback
  {
    if Present(ticket) {
      TicketTextsAreNotFallback(ticket.value);
    }
    ArticleTextsAreNotFallback(results);
  }

  /** The texts quoting the ticket are not the fallback sentence. */
  lemma TicketTextsAreNotFallback(t: Ticket)
    ensures StatusReply(t) != Fallback && IssueReply(t) != Fallback
    ensures Truthy(t.comments) ==> ProgressReply(t.comments.value) != Fallback
  {
    NotFallback(StatusReply(t));
    if Truthy(t.comments) {
      NotFallback(ProgressReply(t.comments.value));
    }
    NotFallback(IssueReply(t));
  }

  /** The texts pointing at the knowledge base are not the fallback sentence. */
  lemma ArticleTextsAreNotFallback(results: seq<Ranked<Article>>)
    ensures results != [] ==> SolutionReply(results[0].item) != Fallback
    ensures LookingLine != Fallback && PointerLine != Fallback
  {
    if results != [] {
      NotFallback(SolutionReply(results[0].item));
    }
    NotFallback(LookingLine);
    NotFallback(PointerLine);
  }

  /** A text whose third character is not the 'c' of "I couldn't ..." is not the fallback sentence. */
  lemma NotFallback(s: string)
    requires |s| > 2 && s[2] != 'c'
    ensures s != Fallback
  {
    assert Fallback[2] == 'c';
  }

  // ---------------------------------------------------------------------------
  // _generate_response
  // ---------------------------------------------------------------------------

  /** `f"  - {author}: {body}"` with the body cut to 200 characters. */
  function CommentLine(c: Comment): string {
    "  - " + c.author.GetOr("N/A") + ": " + Prefix(c.body.GetOr(""), 200)
  }

  /** One line per comment, in order. */
  function CommentLines(cs: seq<Comment>): (r: seq<string>)
    ensures |r| == |cs| && forall i :: 0 <= i < |cs| ==> r[i] == CommentLine(cs[i])
  {
    if cs == [] then [] else CommentLines(cs[..|cs| - 1]) + [CommentLine(cs[|cs| - 1])]
  }

  lemma CommentLinesSnoc(cs: seq<Comment>, i: nat)
    requires i < |cs|
    ensures CommentLines(cs[..i + 1]) == CommentLines(cs[..i]) + [CommentLine(cs[i])]
  {
    assert cs[..i + 1][..i] == cs[..i];
  }

  /** The ticket block: header lines, the description when non-empty, the last two comments, a blank line. */
  function TicketLines(t: Ticket): seq<string> {
    var description := t.description.GetOr("");
    [ "**Ticket Information:**",
      "\U{1F4CB} **Ticket ID:** " + t.id.GetOr("N/A"),
      "\U{1F4CC} **Title:** " + t.title.GetOr("N/A"),
      "\U{1F4CA} **Status:** " + t.status.GetOr("N/A"),
      "\U{26A1} **Priority:** " + t.priority.GetOr("N/A") ]
    + (if description != "" then ["\n**Description:** " + description] else [])
    + UpdateLines(t.comments.GetOr([]))
    + [""]
  }

  /** The "Latest Updates" heading and the last two comments, when there are comments. */
  function UpdateLines(comments: seq<Comment>): seq<string> {
    if comments != [] then ["\n**Latest Updates:**"] + CommentLines(LastN(comments, 2)) else []
  }

  /** The ticket block shows at most the two most recent comments, oldest first, each body cut to 200 characters. */
  lemma RecentComments(cs: seq<Comment>)
    requires cs != []
    ensures var lines := CommentLines(LastN(cs, 2));
            && |lines| == Min(2, |cs|)
            && forall i :: 0 <= i < |lines| ==>
                 var c := cs[|cs| - |lines| + i];
                 var shown := Prefix(c.body.GetOr(""), 200);
                 lines[i] == "  - " + c.author.GetOr("N/A") + ": " + shown && shown <= c.body.GetOr("") && |shown| <= 200
  {
  }

  /**
   * The lines for the article ranked `idx` (from 1): the numbered heading with title and category,
   * the first 300 characters of the content, and "   ..." when that cut has length 300.
   */
  function ArticleBlock(idx: nat, a: Article): (r: seq<string>)
    ensures |r| == 2 || |r| == 3
    ensures r[0] == "\n" + NatToString(idx) + ". **" + a.title.GetOr("Untitled") + "** (" + a.category.GetOr("general") + ")"
    ensures r[1] == "   " + Prefix(a.content.GetOr(""), 300)
    ensures |r| == 3 <==> |a.content.GetOr("")| >= 300
    ensures |r| == 3 ==> r[2] == "   ..."
  {
    var content := Prefix(a.content.GetOr(""), 300);
    [ "\n" + NatToString(idx) + ". **" + a.title.GetOr("Untitled") + "** (" + a.category.GetOr("general") + ")",
      "   " + content ]
    + (if |content| >= 300 then ["   ..."] else [])
  }

  /** The blocks of the listed articles, numbered from 1 in rank order. */
  function ArticleLines(rs: seq<Ranked<Article>>): (r: seq<string>)
    ensures 2 * |rs| <= |r| <= 3 * |rs|
  {
    if rs == [] then [] else ArticleLines(rs[..|rs| - 1]) + ArticleBlock(|rs|, rs[|rs| - 1].item)
  }

  lemma ArticleLinesSnoc(rs: seq<Ranked<Article>>, i: nat)
    requires i < |rs|
    ensures ArticleLines(rs[..i + 1]) == ArticleLines(rs[..i]) + ArticleBlock(i + 1, rs[i].item)
  {
    assert rs[..i + 1][..i] == rs[..i];
  }

  /** The knowledge block: a heading, the blocks of the top three results, a blank line. */
  function KnowledgeLines(results: seq<Ranked<Article>>): seq<string> {
    ["**Relevant Information:**"] + ArticleLines(Prefix(results, 3)) + [""]
  }

  /** At most three articles are listed, so the knowledge block has at most eleven lines. */
  lemma KnowledgeBlockBounded(results: seq<Ranked<Article>>)
    ensures var n := Min(3, |results|);
            2 * n + 2 <= |KnowledgeLines(results)| <= 3 * n + 2 <= 11
  {
  }

  /**
   * The "   ..." line follows the content of an article exactly when the article's content has at
   * least 300 characters, so a content of exactly 300 characters is shown whole and still marked.
   */
  lemma MarkerWithoutCut(idx: nat, a: Article)
    requires |a.content.GetOr("")| == 300
    ensures var r := ArticleBlock(idx, a);
            |r| == 3 && r[1] == "   " + a.content.GetOr("") && r[2] == "   ..."
  {
    assert Prefix(a.content.GetOr(""), 300) == a.content.GetOr("");
  }

  /** The two closing lines. */
  const ClosingLines: seq<string> := ["\n---", Closing]

  /** The greeting and a blank line, on the first turn only. */
  function GreetingSection(firstTurn: bool): seq<string> {
    if firstTurn then [Greeting, ""] else []
  }

  /** The ticket block, when a ticket was found. */
  function TicketSection(ticket: Option<Ticket>): seq<string> {
    if Present(ticket) then TicketLines(ticket.value) else []
  }

  /** The knowledge block, when the search found something. */
  function KnowledgeSection(results: seq<Ranked<Article>>): seq<string> {
    if results != [] then KnowledgeLines(results) else []
  }

  /** The contextual response under its heading, when there is one. */
  function ContextSection(contextual: string): seq<string> {
    if contextual != "" then ["**Based on your query:**", contextual] else []
  }

  /** The fallback sentence, when there is neither a ticket nor a result. */
  function FallbackSection(ticket: Option<Ticket>, results: seq<Ranked<Article>>): seq<string> {
    if !Present(ticket) && results == [] then [Fallback] else []
  }

  /** The parts before the closing lines, section by section. */
  function BodyParts(firstTurn: bool, userQuery: string, ticket: Option<Ticket>, results: seq<Ranked<Article>>): seq<string> {
    GreetingSection(firstTurn) + TicketSection(ticket) + KnowledgeSection(results)
    + ContextSection(ContextualResponse(userQuery, ticket, results)) + FallbackSection(ticket, results)
  }

  /** The parts `_generate_response` joins. */
  function ResponseParts(firstTurn: bool, userQuery: string, ticket: Option<Ticket>, results: seq<Ranked<Article>>): seq<string> {
    BodyParts(firstTurn, userQuery, ticket, results) + ClosingLines
  }

  /** The greeting opens the response exactly on the first turn of the conversation. */
  lemma GreetingIff(firstTurn: bool, userQuery: string, ticket: Option<Ticket>, results: seq<Ranked<Article>>)
    ensures ResponseParts(firstTurn, userQuery, ticket, results)[0] == Greeting <==> firstTurn
  {
    var parts := ResponseParts(firstTurn, userQuery, ticket, results);
    var contextual := ContextualResponse(userQuery, ticket, results);
    assert parts == GreetingSection(firstTurn) + TicketSection(ticket) + KnowledgeSection(results)
                    + ContextSection(contextual) + FallbackSection(ticket, results) + ClosingLines;
    if !firstTurn {
      if Present(ticket) {
        assert parts[0] == "**Ticket Information:**";
      } else if results != [] {
        assert parts[0] == "**Relevant Information:**";
      } else if contextual != "" {
        assert parts[0] == "**Based on your query:**";
      } else {
        assert parts[0] == Fallback;
      }
    }
  }

  /** The body ends with the fallback sentence, else with the contextual response, else with the ticket block's blank line. */
  lemma BodyLast(firstTurn: bool, userQuery: string, ticket: Option<Ticket>, results: seq<Ranked<Article>>)
    ensures var body := BodyParts(firstTurn, userQuery, ticket, results);
            var contextual := ContextualResponse(userQuery, ticket, results);
            body != [] &&
            body[|body| - 1] == (if !Present(ticket) && results == [] then Fallback else if contextual != "" then contextual else "")
  {
    var contextual := ContextualResponse(userQuery, ticket, results);
    var g, t, k := GreetingSection(firstTurn), TicketSection(ticket), KnowledgeSection(results);
    var c, f := ContextSection(contextual), FallbackSection(ticket, results);
    var body := g + t + k + c + f;
    assert BodyParts(firstTurn, userQuery, ticket, results) == body;
    BodyNonEmpty(firstTurn, userQuery, ticket, results);
    if f == [] && c == [] {
      ContextualWithResults(userQuery, ticket, results);
      assert body == g + t;
      TicketLinesEnd(ticket.value);
    }
  }

  /** The fallback sentence comes right before the closing lines exactly when there is neither a ticket nor a result. */
  lemma FallbackIff(firstTurn: bool, userQuery: string, ticket: Option<Ticket>, results: seq<Ranked<Article>>)
    ensures var parts := ResponseParts(firstTurn, userQuery, ticket, results);
            |parts| >= 3 && (parts[|parts| - 3] == Fallback <==> !Present(ticket) && results == [])
  {
    BodyLast(firstTurn, userQuery, ticket, results);
    ContextualIsNotFallback(userQuery, ticket, results);
    LastIsFallbackIff(ResponseParts(firstTurn, userQuery, ticket, results), BodyParts(firstTurn, userQuery, ticket, results),
                      !Present(ticket) && results == [], ContextualResponse(userQuery, ticket, results));
  }

  /**
   * When the body ends with the fallback sentence, another text or "", as chosen, the part before the
   * closing lines is the fallback sentence exactly when it was chosen.
   */
  lemma LastIsFallbackIff(parts: seq<string>, body: seq<string>, fallback: bool, contextual: string)
    requires parts == body + ClosingLines && body != []
    requires body[|body| - 1] == (if fallback then Fallback else if contextual != "" then contextual else "")
    requires contextual != Fallback
    ensures |parts| >= 3 && (parts[|parts| - 3] == Fallback <==> fallback)
  {
    assert |Fallback| > 0;
  }

  /** When the search found something, the contextual response is never empty. */
  lemma ContextualWithResults(userQuery: string, ticket: Option<Ticket>, results: seq<Ranked<Article>>)
    ensures results != [] ==> ContextualResponse(userQuery, ticket, results) != ""
  {
    ContextualEmptyIff(userQuery, ticket, results);
    assert Rules[4] == PointerRule;
  }

  /** The ticket block ends with a blank line. */
  lemma TicketLinesEnd(t: Ticket)
    ensures var lines := TicketLines(t); |lines| > 0 && lines[|lines| - 1] == ""
  {
  }

  /** The response always ends with the separator and the closing question. */
  lemma ResponseEnds(firstTurn: bool, userQuery: string, ticket: Option<Ticket>, results: seq<Ranked<Article>>)
    ensures var parts := ResponseParts(firstTurn, userQuery, ticket, results);
            |parts| >= 3 && parts[|parts| - 2..] == ClosingLines &&
            JoinLines(parts) == JoinLines(parts[..|parts| - 2]) + "\n\n---\n" + Closing
  {
    BodyNonEmpty(firstTurn, userQuery, ticket, results);
    ClosingEnds(BodyParts(firstTurn, userQuery, ticket, results));
  }

  /** Closing lines appended to a non-empty body end the joined text. */
  lemma ClosingEnds(body: seq<string>)
    requires body != []
    ensures var parts := body + ClosingLines;
            |parts| >= 3 && parts[|parts| - 2..] == ClosingLines &&
            JoinLines(parts) == JoinLines(parts[..|parts| - 2]) + "\n\n---\n" + Closing
  {
    var parts := body + ClosingLines;
    assert parts[|parts| - 2..] == ClosingLines;
    assert parts[..|parts| - 2] == body;
    JoinLinesEnd(body, "\n---", Closing);
  }

  /** There is always something before the closing lines: the ticket, the articles or the fallback. */
  lemma BodyNonEmpty(firstTurn: bool, userQuery: string, ticket: Option<Ticket>, results: seq<Ranked<Article>>)
    ensures BodyParts(firstTurn, userQuery, ticket, results) != []
  {
    var t, k, f := TicketSection(ticket), KnowledgeSection(results), FallbackSection(ticket, results);
    assert |BodyParts(firstTurn, userQuery, ticket, results)| >= |t| + |k| + |f|;
    assert Present(ticket) ==> t[0] == "**Ticket Information:**";
    assert results != [] ==> k[0] == "**Relevant Information:**";
  }

  /** Appends the blocks of the top articles, numbered from 1 (the body of the `enumerate` loop). */
  method AppendArticleLines(parts: seq<string>, top: seq<Ranked<Article>>) returns (r: seq<string>)
    ensures r == parts + ArticleLines(top)
  {
    r := parts;
    var i := 0;
    while i < |top|
      invariant 0 <= i <= |top|
      invariant r == parts + ArticleLines(top[..i])
    {
      var article := top[i].item;
      var title := article.title.GetOr("Untitled");
      var content := Prefix(article.content.GetOr(""), 300);
      var category := article.category.GetOr("general");
      var block := ["\n" + NatToString(i + 1) + ". **" + title + "** (" + category + ")", "   " + content];
      ghost var expected := ArticleBlock(i + 1, article);
      assert expected == block + (if |content| >= 300 then ["   ..."] else []);
      if |content| >= 300 {
        block := block + ["   ..."];
      }
      ArticleLinesSnoc(top, i);
      assert parts + ArticleLines(top[..i + 1]) == r + expected;
      r := r + block;
      i := i + 1;
    }
    assert top[..i] == top;
  }

  /** Appends the knowledge block: heading, the top three articles, blank line. */
  method AppendKnowledgeLines(parts: seq<string>, results: seq<Ranked<Article>>) returns (r: seq<string>)
    ensures r == parts + KnowledgeLines(results)
  {
    r := parts + ["**Relevant Information:**"];
    r := AppendArticleLines(r, Prefix(results, 3));
    r := r + [""];
  }

  /** Appends the ticket block, comment lines included. */
  method AppendTicketLines(parts: seq<string>, t: Ticket) returns (r: seq<string>)
    ensures r == parts + TicketLines(t)
  {
    var header := [
      "**Ticket Information:**",
      "\U{1F4CB} **Ticket ID:** " + t.id.GetOr("N/A"),
      "\U{1F4CC} **Title:** " + t.title.GetOr("N/A"),
      "\U{1F4CA} **Status:** " + t.status.GetOr("N/A"),
      "\U{26A1} **Priority:** " + t.priority.GetOr("N/A") ];
    r := parts + header;
    var description := t.description.GetOr("");
    if description != "" {
      r := r + ["\n**Description:** " + description];
    }
    r := AppendUpdateLines(r, t.comments.GetOr([]));
    r := r + [""];
  }

  /** Appends the "Latest Updates" heading and one line per recent comment (the `comments[-2:]` loop). */
  method AppendUpdateLines(parts: seq<string>, comments: seq<Comment>) returns (r: seq<string>)
    ensures r == parts + UpdateLines(comments)
  {
    r := parts;
    if comments != [] {
      r := r + ["\n**Latest Updates:**"];
      ghost var head := r;
      var recent := LastN(comments, 2);
      var i := 0;
      while i < |recent|
        invariant 0 <= i <= |recent|
        invariant r == head + CommentLines(recent[..i])
      {
        var comment := recent[i];
        var author := comment.author.GetOr("N/A");
        var body := Prefix(comment.body.GetOr(""), 200);
        assert "  - " + author + ": " + body == CommentLine(comment);
        CommentLinesSnoc(recent, i);
        r := r + ["  - " + author + ": " + body];
        i := i + 1;
      }
      assert recent[..i] == recent;
      assert head + CommentLines(recent) == parts + UpdateLines(comments);
    }
  }

  /** The search stage of `process_query`: the knowledge base's answer with its default limit. */
  function KnowledgeResults(kb: KnowledgeBase, userQuery: string): seq<Ranked<Article>>
    reads kb
  {
    SearchResults(kb.articles, userQuery, None, kb.defaultMax, kb.threshold)
  }

  /** One source per listed article, in rank order. */
  function ArticleSources(rs: seq<Ranked<Article>>): (r: seq<Source>)
    ensures |r| == |rs|
    ensures forall i :: 0 <= i < |rs| ==> r[i] == Source(KnowledgeBaseSource, rs[i].item.id.GetOr(""), rs[i].item.title.GetOr(""))
  {
    if rs == [] then []
    else ArticleSources(rs[..|rs| - 1]) + [Source(KnowledgeBaseSource, rs[|rs| - 1].item.id.GetOr(""), rs[|rs| - 1].item.title.GetOr(""))]
  }

  lemma ArticleSourcesSnoc(rs: seq<Ranked<Article>>, i: nat)
    requires i < |rs|
    ensures ArticleSources(rs[..i + 1]) ==
            ArticleSources(rs[..i]) + [Source(KnowledgeBaseSource, rs[i].item.id.GetOr(""), rs[i].item.title.GetOr(""))]
  {
    assert rs[..i + 1][..i] == rs[..i];
  }

  /** The ticket stage of `process_query`: look the reference up, and list the ticket as a source when found. */
  method LookUpTicket(tr: TicketRetriever, ticketRef: string, api: Request -> Reply)
    returns (ticket: Option<Ticket>, sources: seq<Source>)
    ensures ticket == ResolveTicket(tr, ticketRef, api)
    ensures sources == TicketSources(ticketRef, ticket)
  {
    sources := [];
    ticket := None;
    if ticketRef != "" {
      ticket := tr.GetTicket(ticketRef, api);
      if Present(ticket) {
        sources := sources + [Source(TicketSource, ticketRef, ticket.value.title.GetOr(""))];
      }
    }
  }

  /** Appends one source per reported article (the `for kb_result in knowledge_results[:3]` loop). */
  method AppendArticleSources(sources: seq<Source>, top: seq<Ranked<Article>>) returns (r: seq<Source>)
    ensures r == sources + ArticleSources(top)
  {
    r := sources;
    var i := 0;
    while i < |top|
      invariant 0 <= i <= |top|
      invariant r == sources + ArticleSources(top[..i])
    {
      var kbResult := top[i].item;
      ArticleSourcesSnoc(top, i);
      r := r + [Source(KnowledgeBaseSource, kbResult.id.GetOr(""), kbResult.title.GetOr(""))];
      i := i + 1;
    }
    assert top[..i] == top;
  }

  /** `conversation_id or f"conv-{timestamp}"` */
  function ConversationId(conversationId: Option<string>, stamp: string): string {
    if Truthy(conversationId) then conversationId.value else "conv-" + stamp
  }

  /** The ticket `process_query` resolves: none without a reference, otherwise what `get_ticket` finds. */
  function ResolveTicket(tr: TicketRetriever, ticketRef: string, api: Request -> Reply): Option<Ticket> {
    if ticketRef == "" then None
    else GetTicketResult(tr.tickets, tr.apiUrl, tr.username, tr.apiToken, ticketRef, api)
  }

  /** The ticket source, when a ticket was found, then one source per reported article. */
  function Sources(ticketRef: string, ticket: Option<Ticket>, top: seq<Ranked<Article>>): seq<Source> {
    TicketSources(ticketRef, ticket) + ArticleSources(top)
  }

  /** The ticket's source entry, when a ticket was found. */
  function TicketSources(ticketRef: string, ticket: Option<Ticket>): seq<Source> {
    if Present(ticket) then [Source(TicketSource, ticketRef, ticket.value.title.GetOr(""))] else []
  }

  /** The answer assembled from the stage results: reference, ticket and search results. */
  function Compose(firstTurn: bool, userQuery: string, conversationId: Option<string>, stamp: string, now: string,
                   ticketRef: string, ticket: Option<Ticket>, results: seq<Ranked<Article>>): ResponseData {
    ResponseData(
      JoinLines(ResponseParts(firstTurn, userQuery, ticket, results)),
      ticket,
      Prefix(results, 3),
      ConversationId(conversationId, stamp),
      now,
      Sources(ticketRef, ticket, Prefix(results, 3)))
  }

  /** The answer `process_query` gives on a turn that is (or is not) the first of the log. */
  function Respond(kb: KnowledgeBase, tr: TicketRetriever, firstTurn: bool, userQuery: string,
                   conversationId: Option<string>, stamp: string, now: string, api: Request -> Reply): ResponseData
    reads kb
  {
    var ticketRef := ExtractTicketReference(userQuery);
    Compose(firstTurn, userQuery, conversationId, stamp, now, ticketRef, ResolveTicket(tr, ticketRef, api), KnowledgeResults(kb, userQuery))
  }

  /** Without a ticket reference no ticket is looked up: no ticket is reported and the API plays no part. */
  lemma NoReferenceNoLookup(kb: KnowledgeBase, tr: TicketRetriever, firstTurn: bool, userQuery: string,
                            conversationId: Option<string>, stamp: string, now: string,
                            api1: Request -> Reply, api2: Request -> Reply)
    requires ExtractTicketReference(userQuery) == ""
    ensures Respond(kb, tr, firstTurn, userQuery, conversationId, stamp, now, api1).ticketDetails == None
    ensures Respond(kb, tr, firstTurn, userQuery, conversationId, stamp, now, api1) ==
            Respond(kb, tr, firstTurn, userQuery, conversationId, stamp, now, api2)
  {
  }

  /**
   * The sources list the found ticket first, under its reference, then one entry per reported
   * article in rank order; the reported articles are the top three search results. (`Compose`
   * reports `Prefix(results, 3)` and lists `Sources(ticketRef, ticket, Prefix(results, 3))`.)
   */
  lemma SourcesOrder(ticketRef: string, ticket: Option<Ticket>, results: seq<Ranked<Article>>)
    ensures var top := Prefix(results, 3);
            var s := Sources(ticketRef, ticket, top);
            var k := if Present(ticket) then 1 else 0;
            && top <= results
            && |top| == Min(3, |results|)
            && |s| == k + |top|
            && (k == 1 ==> s[0] == Source(TicketSource, ticketRef, ticket.value.title.GetOr("")))
            && forall i :: 0 <= i < |top| ==>
                 s[k + i] == Source(KnowledgeBaseSource, results[i].item.id.GetOr(""), results[i].item.title.GetOr(""))
  {
    var top := Prefix(results, 3);
    var k := if Present(ticket) then 1 else 0;
    var s := Sources(ticketRef, ticket, top);
    assert |TicketSources(ticketRef, ticket)| == k;
    forall i | 0 <= i < |top|
      ensures s[k + i] == Source(KnowledgeBaseSource, results[i].item.id.GetOr(""), results[i].item.title.GetOr(""))
    {
      assert s[k + i] == ArticleSources(top)[i];
      assert top[i] == results[i];
    }
  }

  /** The conversation id is the given one when it is non-empty, and a fresh `conv-` stamp otherwise. */
  lemma ConversationIdChoice(kb: KnowledgeBase, tr: TicketRetriever, firstTurn: bool, userQuery: string,
                             conversationId: Option<string>, stamp: string, now: string, api: Request -> Reply)
    ensures var d := Respond(kb, tr, firstTurn, userQuery, conversationId, stamp, now, api);
            (Truthy(conversationId) ==> d.conversationId == conversationId.value) &&
            (!Truthy(conversationId) ==> d.conversationId == "conv-" + stamp)
  {
  }

  /** The entries carrying conversation id `id`, in log order. */
  function EntriesOf(h: seq<Entry>, id: string): (r: seq<Entry>)
    ensures |r| <= |h|
  {
    if h == [] then []
    else EntriesOf(h[..|h| - 1], id) + (if h[|h| - 1].conversationId == id then [h[|h| - 1]] else [])
  }

  /** An entry is listed exactly when it is in the log with that id. */
  lemma {:induction false} EntriesOfMembers(h: seq<Entry>, id: string)
    ensures forall e :: e in EntriesOf(h, id) <==> e in h && e.conversationId == id
  {
    if h != [] {
      var init := h[..|h| - 1];
      EntriesOfMembers(init, id);
      assert h == init + [h[|h| - 1]];
    }
  }

  /** Filtering commutes with appending: entries keep their log order. */
  lemma {:induction false} EntriesOfAppend(h1: seq<Entry>, h2: seq<Entry>, id: string)
    ensures EntriesOf(h1 + h2, id) == EntriesOf(h1, id) + EntriesOf(h2, id)
    decreases |h2|
  {
    if h2 == [] {
      assert h1 + h2 == h1;
    } else {
      var init := h2[..|h2| - 1];
      assert (h1 + h2)[..|h1 + h2| - 1] == h1 + init;
      assert (h1 + h2)[|h1 + h2| - 1] == h2[|h2| - 1];
      EntriesOfAppend(h1, init, id);
    }
  }

  /** `CustomerSupportAgent`: the two stores and the conversation log. */
  class CustomerSupportAgent {
    const knowledgeBase: KnowledgeBase
    const ticketRetriever: TicketRetriever
    var history: seq<Entry>

    constructor(knowledgeBase: KnowledgeBase, ticketRetriever: TicketRetriever)
      ensures this.knowledgeBase == knowledgeBase && this.ticketRetriever == ticketRetriever
      ensures history == []
    {
      this.knowledgeBase := knowledgeBase;
      this.ticketRetriever := ticketRetriever;
      history := [];
    }

    /** `_generate_response`: the parts of the reply, appended section by section, joined by newlines. */
    method GenerateResponse(userQuery: string, ticket: Option<Ticket>, results: seq<Ranked<Article>>) returns (response: string)
      ensures response == JoinLines(ResponseParts(|history| == 0, userQuery, ticket, results))
    {
      var parts: seq<string> := [];
      if |history| == 0 {
        parts := parts + [Greeting, ""];
      }
      assert parts == GreetingSection(|history| == 0);
      ghost var soFar := parts;
      if Present(ticket) {
        parts := AppendTicketLines(parts, ticket.value);
      }
      assert parts == soFar + TicketSection(ticket);
      soFar := parts;
      if results != [] {
        parts := AppendKnowledgeLines(parts, results);
      }
      assert parts == soFar + KnowledgeSection(results);
      soFar := parts;
      var contextual := ContextualResponse(userQuery, ticket, results);
      if contextual != "" {
        parts := parts + ["**Based on your query:**", contextual];
      }
      assert parts == soFar + ContextSection(contextual);
      soFar := parts;
      if !Present(ticket) && results == [] {
        parts := parts + [Fallback];
      }
      assert parts == soFar + FallbackSection(ticket, results);
      assert parts == BodyParts(|history| == 0, userQuery, ticket, results);
      parts := parts + ["\n---", Closing];
      response := JoinLines(parts);
    }

    /**
     * The composing half of `process_query`: resolve the referenced ticket, search the knowledge
     * base, gather the sources and compose the reply, leaving the log as it is.
     */
    method Answer(userQuery: string, conversationId: Option<string>, stamp: string, now: string,
                  api: Request -> Reply) returns (data: ResponseData)
      ensures data == Respond(knowledgeBase, ticketRetriever, |history| == 0, userQuery, conversationId, stamp, now, api)
    {
      var ticketRef := ExtractTicketReference(userQuery);
      var cid := if Truthy(conversationId) then conversationId.value else "conv-" + stamp;
      var ticketDetails, sources := LookUpTicket(ticketRetriever, ticketRef, api);
      var knowledgeResults := knowledgeBase.Search(userQuery, None);
      assert knowledgeResults == KnowledgeResults(knowledgeBase, userQuery);
      var top := Prefix(knowledgeResults, 3);
      sources := AppendArticleSources(sources, top);
      var response := GenerateResponse(userQuery, ticketDetails, knowledgeResults);
      data := ResponseData(response, ticketDetails, top, cid, now, sources);
      ghost var c := Compose(|history| == 0, userQuery, conversationId, stamp, now, ticketRef, ticketDetails, knowledgeResults);
      assert data.response == c.response;
      assert data.sources == c.sources;
      assert data == c;
    }

    /** `process_query`: answer the query, then append exactly one entry to the log. */
    method ProcessQuery(userQuery: string, conversationId: Option<string>, stamp: string, now: string,
                        api: Request -> Reply) returns (data: ResponseData)
      modifies this
      ensures data == Respond(knowledgeBase, ticketRetriever, |old(history)| == 0, userQuery, conversationId, stamp, now, api)
      ensures history == old(history) + [Entry(now, userQuery, data.response, ExtractTicketReference(userQuery), data.conversationId)]
    {
      data := Answer(userQuery, conversationId, stamp, now, api);
      history := history + [Entry(now, userQuery, data.response, ExtractTicketReference(userQuery), data.conversationId)];
    }

    /** `get_conversation_history`: the entries of one conversation when an id is given, else the whole log. */
    function GetConversationHistory(conversationId: Option<string>): (r: seq<Entry>)
      reads this
      ensures Truthy(conversationId) ==> r == EntriesOf(history, conversationId.value)
      ensures Truthy(conversationId) ==> forall e :: e in r <==> e in history && e.conversationId == conversationId.value
      ensures !Truthy(conversationId) ==> r == history
    {
      if Truthy(conversationId) then EntriesOfMembers(history, conversationId.value); EntriesOf(history, conversationId.value)
      else history
    }

    /** `clear_conversation_history` */
    method ClearConversationHistory()
      modifies this
      ensures history == []
    {
      history := [];
    }
  }

  /** A turn adds its entry to its own conversation's history, after the earlier ones, and to no other. */
  lemma TurnExtendsHistory(h: seq<Entry>, e: Entry, id: string)
    ensures EntriesOf(h + [e], id) == EntriesOf(h, id) + (if e.conversationId == id then [e] else [])
  {
    EntriesOfAppend(h, [e], id);
    assert [e][..0] == [];
  }
}
