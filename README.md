# Customer support agent: a verified model of the search and response pipeline

This project is a Dafny model of the core of a lexical customer-support agent. A customer
query goes through four stages:

1. a ticket reference such as `PROJ-123` or `#789` is extracted from the query;
2. the ticket is resolved, from the local ticket list first and a Jira-like API second;
3. the article store is searched with a composite relevance score;
4. a sectioned reply is composed: greeting, ticket block, knowledge block, a first-match-wins
   contextual sentence, a fallback sentence, and the closing lines.

Every exchange is appended to the agent's conversation log.

The Dafny modules follow the program's structure:

| module | file | models |
|---|---|---|
| `Wrappers`, `Slices`, `Chars` | `wrappers.dfy`, `slices.dfy`, `chars.dfy` | These cover Python details the core relies on: optional dictionary entries and their `.get` defaults, truthiness, slicing with negative bounds, ASCII case mapping, `in` on strings, and `str(n)`. |
| `Ranking` | `ranking.dfy` | `list.sort(key=..., reverse=True)`, as a stable descending insertion sort on values, and the threshold filter. |
| `Text` | `text.dfy` | `TextProcessor`, in `src/utils/text_processing.py`. |
| `Articles` | `articles.dfy` | The class `KnowledgeBase`, in `src/knowledge_base/knowledge_base.py`. |
| `Tickets` | `tickets.dfy` | The class `TicketRetriever` and the Jira record shapes, in `src/ticket_system/ticket_retriever.py`. |
| `Agent` | `agent.dfy` | The class `CustomerSupportAgent`, in `src/agent/customer_support_agent.py`. |

**Records.** Dictionaries the program reads with `.get(key, default)` become datatypes whose
fields are `Option`s. This lets each read site apply its own default: `""` when searching,
`"N/A"`, `"Untitled"`, `"general"` or `"Unknown"` when replying.

**Classes and state.**
- The knowledge base holds its article list as a `seq` field that `AddArticle` reassigns.
- The ticket retriever holds its settings and the records of its local ticket file.
- The agent holds the conversation log and its two stores.

**Loops.** The scoring loops, the early-return lookups, the line-by-line assembly of the reply
and the construction of `sources` are methods with loop invariants. Each is proved equal to a
specification function, and the properties are proved about those functions.

**Scores.** Scores are exact `real`s.

**Configuration.** The configured limits (`MAX_SEARCH_RESULTS`, `SIMILARITY_THRESHOLD`) are
constructor parameters of `KnowledgeBase`.

**Outside inputs.**
- The clock is a parameter: `stamp` for the generated conversation id and `now` for the
  timestamp.
- The HTTP request is a parameter `api: Request -> Reply`. It is a total function from the
  request (URL and credentials) to a status and decoded body, or to a request failure.

**The `"   ..."` marker.** The source comments the cut as truncating long content
(src/agent/customer_support_agent.py:164), but it appends `"   ..."` when the *cut* content has at
least 300 characters (line 170). So content of exactly 300 characters is shown whole and still
marked. The model follows the code (`Agent.MarkerWithoutCut`).

## Model

| member | source | states |
|---|---|---|
| Text.FirstMatchNoneIff | src/utils/text_processing.py:30-37 | The pattern loop finds nothing exactly when no pattern matches at any position of the text. |
| Text.ExtractEmptyIff | src/utils/text_processing.py:23-37 | The extracted reference is `""` exactly when none of the patterns matches anywhere, in both directions. |
| Text.ExtractEmptyIffNoMatch | src/utils/text_processing.py:30-37 | The result is empty exactly when the first-match search returns nothing; a match always yields a non-empty reference. |
| Text.ExtractIsUpper | src/utils/text_processing.py:34-35 | The extracted reference has no lower-case letter and no `#`. |
| Text.ExtractShape | src/utils/text_processing.py:23-37 | The reference is empty, a `KEY-123` reference with an upper-case key, or the digits of a `#789`. |
| Text.ExtractPrefersKey | src/utils/text_processing.py:30-35 | If `[A-Z]+-\d+` matches anywhere, case-insensitively, the result is a key reference, even when a `#789` occurs earlier. |
| Text.ExtractReduces | src/utils/text_processing.py:23-28 | The second and third patterns never decide: trying all four patterns gives the same first match as trying only the key and `#number` patterns. |
| Text.SearchFound | src/utils/text_processing.py:31 | A search result is a match at its start position, and no earlier position matches (leftmost match). |
| Text.SearchNone | src/utils/text_processing.py:31 | A failed search means that no position from the start matches. |
| Text.MatchEndsInDigit | src/utils/text_processing.py:24-27 | Every pattern match ends in a digit. |
| Text.ExtractExampleSetup | verify_setup.py:63-64 | `"Check ticket PROJ-123"` yields `"PROJ-123"`. |
| Text.ExtractExampleKeyFirst | src/utils/text_processing.py:30-35 | `"#789 about PROJ-5"` yields `"PROJ-5"`: the first pattern that matches wins, not the earliest match. |
| Text.ExtractExampleLowerCase | src/utils/text_processing.py:31-35 | `"see ticket-42"` matches case-insensitively and yields `"TICKET-42"`. |
| Text.ExtractExampleNumber | src/utils/text_processing.py:27-35 | `"Issue #789"` yields `"789"`, with the hash removed. |
| Text.ExtractExampleNone | src/utils/text_processing.py:37 | `"no ticket here"` yields `""`. |
| Text.CleanText | src/utils/text_processing.py:50-58 | The cleaned text is never longer than the input, so an empty input gives `""`. |
| Text.CleanTextIsJoinOfWords | src/utils/text_processing.py:54-56 | Collapsing whitespace runs to one space and then stripping gives the whitespace-separated words joined by single spaces. |
| Text.CleanTextIsClean | src/utils/text_processing.py:50-58 | The output has no leading or trailing whitespace, every whitespace character in it is a space, and no two spaces are adjacent. |
| Text.CleanTextIdempotent | src/utils/text_processing.py:50-58 | Cleaning twice equals cleaning once. |
| Text.CleanTextOfClean | src/utils/text_processing.py:50-58 | A text that is already clean is returned unchanged. |
| Text.WordsOfJoin | src/utils/text_processing.py:54-56 | Splitting a single-space join of words gives the words back. This is the inverse that cleaning relies on. |
| Text.JoinWordsClean | src/utils/text_processing.py:54-56 | A join of words is clean, and non-empty when there is a word. |
| Text.TokensAreWordRuns | src/utils/text_processing.py:73 | Each `\w+` token is a non-empty run of word characters, all drawn from the text. |
| Text.TokensOfJoin | src/utils/text_processing.py:73 | Tokenising a space-join of tokens gives the tokens back. |
| Text.Qualifying | src/utils/text_processing.py:80 | The filtered list holds exactly the tokens of length at least `min_length` that are not stop words. |
| Text.KeywordsQualify | src/utils/text_processing.py:73-80 | Every keyword is a lower-case `\w+` token of the text, at least `min_length` long and not a stop word. |
| Text.KeywordsAreDistinctByFrequency | src/utils/text_processing.py:80-83 | The keywords are exactly the qualifying tokens, each listed once, by non-increasing count, with ties in first-occurrence order. |
| Text.MostCommonMembers | src/utils/text_processing.py:82-83 | `most_common` lists exactly the counted words. |
| Text.MostCommonOrder | src/utils/text_processing.py:82-83 | `most_common` orders by non-increasing count, with ties in first-occurrence order, and lists each word once. |
| Text.Distinct | src/utils/text_processing.py:82 | The distinct words are exactly the members of the list. |
| Text.DistinctOrdered | src/utils/text_processing.py:82 | The distinct words are in the order of their first occurrence. |
| Text.Jaccard | src/utils/text_processing.py:100-109 | The ratio lies in [0, 1]. It is 0 exactly when the sets are disjoint or one is empty, and 1 exactly when the sets are equal and non-empty. |
| Text.SimilarityBounds | src/utils/text_processing.py:97-109 | The similarity lies in [0, 1] and is symmetric. It is 0 exactly when the keyword sets share nothing, and 1 exactly when they are equal and non-empty. |
| Text.SimilarityEmpty | src/utils/text_processing.py:100-101 | The empty text has similarity 0 with any text. |
| Text.FormatResponse | src/utils/text_processing.py:123-128 | A cleaned text that fits is returned unchanged. Otherwise the output is `text[:max_length] + "..."` for every limit, a negative one cutting as Python's slice does. For a non-negative limit that is exactly `max_length + 3` characters: the first `max_length` characters, then `"..."`. |
| Text.FormatResponseClean | src/utils/text_processing.py:123-128 | The output is clean, and for any non-negative limit it has at most `max_length + 3` characters. |
| Text.FormatResponseIdempotent | src/utils/text_processing.py:123-128 | Formatting a formatted response again changes nothing. |
| Chars.UpperStrHasNoLower | src/utils/text_processing.py:35 | An upper-cased string has no lower-case letter. |
| Chars.ParseNatToString | src/knowledge_base/knowledge_base.py:60 | Reading back the decimal digits of `str(n)` gives `n`. |
| Chars.NatToStringInjective | src/knowledge_base/knowledge_base.py:60 | Distinct counts give distinct decimal strings. |
| Slices.Prefix | src/knowledge_base/knowledge_base.py:135 | `s[:n]` is a prefix of `s`, of length `min(n, len(s))`, or `len(s) + n` clamped at 0 for negative `n`. |
| Slices.LastN | src/agent/customer_support_agent.py:151 | `s[-n:]` holds the last `min(n, len(s))` elements, in order. |
| Ranking.SortDesc | src/knowledge_base/knowledge_base.py:125 | The sort permutes its input: the multiset is unchanged. |
| Ranking.SortDescSorted | src/knowledge_base/knowledge_base.py:125 | The sorted list is in non-increasing score order. |
| Ranking.SortDescStable | src/knowledge_base/knowledge_base.py:125 | The sort is stable: for every score, the entries with that score keep their input order. |
| Ranking.SortDescTiesOrdered | src/knowledge_base/knowledge_base.py:125 | Entries with equal scores stay ordered by any key that increases along the input. |
| Ranking.AtLeast | src/knowledge_base/knowledge_base.py:129-132 | The filter keeps exactly the entries whose score is at least the threshold. |
| Ranking.AtLeastSorted | src/knowledge_base/knowledge_base.py:129-132 | Filtering a sorted list leaves it sorted. |
| Ranking.TruncateKeepsBest | src/knowledge_base/knowledge_base.py:135 | An entry dropped by truncation scores no more than any entry kept. |
| Articles.KnowledgeBase.constructor | src/knowledge_base/knowledge_base.py:17-28 | The store holds the loaded articles, in load order, with the configured limit and threshold. |
| Articles.KnowledgeBase.AddArticle | src/knowledge_base/knowledge_base.py:59-67 | Exactly one article is appended, and the earlier articles are unchanged. The new article has id `KB-<old count + 1>`, tags defaulting to `[]`, and keywords extracted from `title + " " + content`. |
| Articles.NewArticleIdsDiffer | src/knowledge_base/knowledge_base.py:60 | Articles added at different store sizes get different ids. |
| Articles.ScoreArticle | src/knowledge_base/knowledge_base.py:91-117 | The accumulated score equals the sum of the five terms: title, content similarity, keyword overlap, tags and category. |
| Articles.ScoreBounds | src/knowledge_base/knowledge_base.py:91-117 | Every article score lies in [0, 21]. |
| Articles.ContentScoreBounds | src/knowledge_base/knowledge_base.py:98-101 | The content term lies in [0, 5]. |
| Articles.KeywordScoreBounds | src/knowledge_base/knowledge_base.py:104-108 | The keyword-overlap term lies in [0, 3]. |
| Articles.TitleHitScoresTen | src/knowledge_base/knowledge_base.py:94-95 | A query contained in the title, case-insensitively, scores at least 10. |
| Articles.LowerAll | src/knowledge_base/knowledge_base.py:111 | The tags are lower-cased one by one, in order. |
| Articles.ScoredSound | src/knowledge_base/knowledge_base.py:119-122 | Every scored entry is a stored article paired with its own positive score. |
| Articles.ScoredComplete | src/knowledge_base/knowledge_base.py:119-122 | Every stored article with a positive score is among the scored entries. |
| Articles.KnowledgeBase.Search | src/knowledge_base/knowledge_base.py:70-135 | The search returns the scored, sorted, filtered and truncated list, computed without changing the store. An empty query returns `[]`. |
| Articles.SearchLimitFallback | src/knowledge_base/knowledge_base.py:84 | A `max_results` of `None` or 0 means the configured default, and any other value ignores the default. |
| Articles.SearchSound | src/knowledge_base/knowledge_base.py:119-135 | Every result is a stored article paired with its own score, which is above 0 and at least the threshold. |
| Articles.SearchSortedAndBounded | src/knowledge_base/knowledge_base.py:125-135 | The results are in non-increasing score order. There are no more of them than stored articles, and for a non-negative limit no more than the limit. |
| Articles.SearchStable | src/knowledge_base/knowledge_base.py:125 | For every score, the results with that score are a prefix of the store-order articles with that score. |
| Articles.CandidateFiltered | src/knowledge_base/knowledge_base.py:119-132 | An article scoring above 0 and at least the threshold survives the sort and the filter. |
| Articles.SearchKeepsBest | src/knowledge_base/knowledge_base.py:119-135 | An article scoring above 0 and at least the threshold is returned, unless the limit is full of results scoring at least as high. |
| Articles.SearchFindsTitle | src/knowledge_base/knowledge_base.py:94-135 | With a threshold of at most 10, an article whose title contains the query is returned, or the limit is full of results scoring at least as high. |
| Articles.DefaultSearchBounded | config/config.py:33-34 | With the configured defaults (`MAX_SEARCH_RESULTS` 5, `SIMILARITY_THRESHOLD` 0.7), a search returns at most five articles, each scoring at least 0.7. |
| Articles.KnowledgeBase.GetArticleById | src/knowledge_base/knowledge_base.py:147-150 | The first article with an equal id is returned, and `None` exactly when no article has that id. |
| Articles.KnowledgeBase.GetAllArticles | src/knowledge_base/knowledge_base.py:159 | The copy equals the store. |
| Tickets.TicketRetriever.constructor | src/ticket_system/ticket_retriever.py:30-38 | A missing or empty argument falls back to its setting. The local list is the stored file, or the seed tickets when no file exists. |
| Tickets.TransformComment | src/ticket_system/ticket_retriever.py:210-214 | A translated comment has every field set. |
| Tickets.TransformJiraResponse | src/ticket_system/ticket_retriever.py:198-217 | Every field of the translated ticket is set, so it is never the empty record. Its comments are the Jira comments translated one by one, in the same order. |
| Tickets.TransformRoundTrip | src/ticket_system/ticket_retriever.py:198-217 | Translating a ticket to the Jira shape and back gives the ticket back. |
| Tickets.TransformMissingFields | src/ticket_system/ticket_retriever.py:198-217 | A Jira record without fields, or with an empty `fields` dictionary, translates to its key (or `""`), `""` for every other string, and `[]` for the comments. |
| Tickets.FetchNeedsCredentials | src/ticket_system/ticket_retriever.py:160-162 | Without a username or a token the fetch gives `None`, whatever the API would answer. |
| Tickets.FetchFound | src/ticket_system/ticket_retriever.py:160-186 | A ticket is fetched exactly when credentials are set and the request for the issue URL is answered with status 200. The ticket is that body, translated. |
| Tickets.FetchPresent | src/ticket_system/ticket_retriever.py:176-179 | A fetched ticket is never the empty record. |
| Tickets.LocalLookup | src/ticket_system/ticket_retriever.py:143-145 | A found ticket is in the list, and its upper-cased id equals the requested one. |
| Tickets.LocalLookupFirst | src/ticket_system/ticket_retriever.py:143-148 | The lookup gives `None` exactly when no ticket matches; otherwise it gives the first match in list order. |
| Tickets.TicketRetriever.GetTicketFromLocal | src/ticket_system/ticket_retriever.py:137-148 | The early-return loop computes the local lookup. |
| Tickets.GetTicketResult | src/ticket_system/ticket_retriever.py:107-135 | The result is `None` or a non-empty ticket. |
| Tickets.GetTicketLocalFirst | src/ticket_system/ticket_retriever.py:121-125 | A local hit is returned without consulting the API; two different APIs give the same answer. |
| Tickets.GetTicketFallsBack | src/ticket_system/ticket_retriever.py:127-135 | On a local miss, the result is the API's ticket when it is non-empty, and `None` otherwise. |
| Tickets.GetTicketOffline | src/ticket_system/ticket_retriever.py:128-162 | Without credentials only the local list is consulted. |
| Tickets.NormalizeIdIdempotent | src/ticket_system/ticket_retriever.py:118 | Normalising an id twice equals normalising it once. |
| Tickets.GetTicketNormalized | src/ticket_system/ticket_retriever.py:118 | Looking up an already normalised id gives the same answer as looking up the raw id. |
| Tickets.NormalizeLowerCase | src/ticket_system/ticket_retriever.py:118 | `"proj-1001"` normalises to `"PROJ-1001"`. |
| Tickets.NormalizePadded | src/ticket_system/ticket_retriever.py:118 | `" PROJ-1001 "` normalises to `"PROJ-1001"`. |
| Tickets.GetTicketExample | src/ticket_system/ticket_retriever.py:118-144 | `"proj-1001"` and `" PROJ-1001 "` both find the first seed ticket. |
| Tickets.TicketRetriever.GetTicket | src/ticket_system/ticket_retriever.py:107-135 | The method computes the normalise, local-then-remote lookup. |
| Tickets.ScoreTicket | src/ticket_system/ticket_retriever.py:239-259 | The accumulated score equals 10 for an id hit, plus 5 for a title hit, plus 2 for a description hit, plus 3 × similarity. |
| Tickets.TicketScoreBounds | src/ticket_system/ticket_retriever.py:239-259 | Every ticket score lies in [0, 20]. |
| Tickets.EmptyQueryScore | src/ticket_system/ticket_retriever.py:245-259 | With an empty query every ticket scores exactly 17. |
| Tickets.ScoredTicketsSound | src/ticket_system/ticket_retriever.py:261-264 | Every scored entry is a stored ticket paired with its own positive score. |
| Tickets.ScoredTicketsComplete | src/ticket_system/ticket_retriever.py:261-264 | Every stored ticket with a positive score is among the scored entries. |
| Tickets.ScoredTicketsEmptyQuery | src/ticket_system/ticket_retriever.py:238-264 | With an empty query every ticket is kept, in store order, with score 17. |
| Tickets.TicketSearchSound | src/ticket_system/ticket_retriever.py:261-269 | Every result is a stored ticket with a positive score. No threshold applies. |
| Tickets.TicketSearchSortedAndBounded | src/ticket_system/ticket_retriever.py:267-269 | The results are in non-increasing score order. There are no more of them than tickets, and for a non-negative limit no more than `max_results`. |
| Tickets.TicketSearchStable | src/ticket_system/ticket_retriever.py:267 | For every score, the results with that score are a prefix of the store-order tickets with that score. |
| Tickets.TicketSearchKeepsBest | src/ticket_system/ticket_retriever.py:261-269 | A ticket with a positive score is returned, unless the limit is full of results scoring at least as high. |
| Tickets.DefaultTicketSearchBounded | src/ticket_system/ticket_retriever.py:219 | With the default `max_results` of 10, a ticket search returns at most ten tickets. |
| Tickets.TicketSearchEmptyQuery | src/ticket_system/ticket_retriever.py:230-269 | An empty query returns the first `max_results` tickets in store order, each with score 17. |
| Tickets.TicketRetriever.SearchTickets | src/ticket_system/ticket_retriever.py:219-269 | The scoring loop, the sort and the truncation compute the ticket search. |
| Agent.CustomerSupportAgent.constructor | src/agent/customer_support_agent.py:22-37 | The agent keeps the given stores and starts with an empty log. |
| Agent.CustomerSupportAgent.ProcessQuery | src/agent/customer_support_agent.py:39-111 | The answer is the one defined for this turn. The greeting depends on whether the log was empty before the call. Exactly one entry (timestamp, query, response, extracted reference, conversation id) is appended. |
| Agent.CustomerSupportAgent.Answer | src/agent/customer_support_agent.py:53-99 | The stages compute the response data: reference, ticket, top three search results, sources, and the composed reply. |
| Agent.LookUpTicket | src/agent/customer_support_agent.py:65-79 | A ticket is looked up only for a non-empty reference. It is listed as a source only when found. |
| Agent.AppendArticleSources | src/agent/customer_support_agent.py:85-90 | Each reported article is appended as a source, with id and title, in rank order. |
| Agent.NoReferenceNoLookup | src/agent/customer_support_agent.py:66-70 | Without a reference no ticket is reported, and the API plays no part in the answer. |
| Agent.SourcesOrder | src/agent/customer_support_agent.py:72-90 | The reported results are the first `min(3, n)` search results. The sources list the found ticket first, under its reference, then one entry per reported article, in rank order. |
| Agent.ConversationIdChoice | src/agent/customer_support_agent.py:60 | The conversation id is the given one when non-empty, and `conv-<stamp>` otherwise. |
| Agent.CustomerSupportAgent.GenerateResponse | src/agent/customer_support_agent.py:113-196 | The appended parts, joined with newlines, are the sectioned reply. |
| Agent.AppendTicketLines | src/agent/customer_support_agent.py:136-156 | The method appends the ticket block: five header lines, the description when non-empty, the latest updates, and a blank line. |
| Agent.AppendUpdateLines | src/agent/customer_support_agent.py:148-154 | The method appends the updates heading and one line per comment among the last two. |
| Agent.RecentComments | src/agent/customer_support_agent.py:148-154 | At most the last two comments are shown, in order, each body cut to at most 200 characters from its start. |
| Agent.AppendKnowledgeLines | src/agent/customer_support_agent.py:159-173 | The method appends the knowledge heading, the blocks of the top three results, and a blank line. |
| Agent.AppendArticleLines | src/agent/customer_support_agent.py:162-171 | The method appends the numbered article blocks in rank order. |
| Agent.ArticleBlock | src/agent/customer_support_agent.py:163-171 | An article block has the numbered heading with its title (default `Untitled`) and category (default `general`), then exactly the first 300 characters of its content (`content[:300]`). The `"   ..."` line is added exactly when the content has at least 300 characters. |
| Agent.KnowledgeBlockBounded | src/agent/customer_support_agent.py:159-173 | At most three articles are listed, so the knowledge block has at most 11 lines. |
| Agent.MarkerWithoutCut | src/agent/customer_support_agent.py:164-171 | Content of exactly 300 characters is shown whole and is still followed by `"   ..."`. |
| Agent.GreetingIff | src/agent/customer_support_agent.py:131-133 | The reply begins with the greeting exactly on the first turn. |
| Agent.FallbackIff | src/agent/customer_support_agent.py:185-190 | The line before the closing lines is the fallback sentence exactly when there is neither a ticket nor a search result. |
| Agent.ResponseEnds | src/agent/customer_support_agent.py:193-196 | The last two parts are `"\n---"` and the closing question, and the joined reply ends with them. |
| Agent.JoinLinesEnd | src/agent/customer_support_agent.py:196 | Joining two more parts appends them, each after a newline. |
| Agent.FirstRule | src/agent/customer_support_agent.py:213-246 | The chosen rule applies. No rule is chosen exactly when none of the table's rules applies. |
| Agent.ContextualFollowsRules | src/agent/customer_support_agent.py:213-246 | The contextual sentence is the text of the first applicable rule, in the order status, progress, resolve, issue, pointer, or `""`. |
| Agent.FirstRuleOfTable | src/agent/customer_support_agent.py:216-246 | The first applicable rule, written out rule by rule. Progress without comments and issue without a ticket fall through. |
| Agent.TicketRulesFirst | src/agent/customer_support_agent.py:216-225 | When the status or progress rule applies, its reply is given, and status beats progress. |
| Agent.LaterRules | src/agent/customer_support_agent.py:227-246 | Otherwise the reply comes from resolve, then issue, then the pointer line when there are results, and is `""` when nothing applies. |
| Agent.RuleText | src/agent/customer_support_agent.py:216-244 | Every rule that applies produces a non-empty sentence. |
| Agent.ContextualEmptyIff | src/agent/customer_support_agent.py:213-246 | The contextual sentence is empty exactly when no rule applies. |
| Agent.StatusWins | src/agent/customer_support_agent.py:216-218 | A query mentioning "status", with a found ticket, gets the status sentence, whatever else it asks. |
| Agent.ContextualWithResults | src/agent/customer_support_agent.py:240-244 | With any search result the contextual sentence is never empty. |
| Agent.ContextualIsNotFallback | src/agent/customer_support_agent.py:213-246 | No contextual sentence equals the fallback sentence. |
| Agent.CustomerSupportAgent.GetConversationHistory | src/agent/customer_support_agent.py:258-263 | A non-empty id selects the log entries with that id, in append order (`EntriesOf`), and only those. `None` or `""` returns the whole log. |
| Agent.EntriesOfMembers | src/agent/customer_support_agent.py:258-262 | The filter keeps exactly the entries with the given id. |
| Agent.EntriesOfAppend | src/agent/customer_support_agent.py:258-262 | Filtering distributes over concatenation, so append order is kept. |
| Agent.TurnExtendsHistory | src/agent/customer_support_agent.py:102-108 | After a turn, the conversation's entries are the earlier ones, followed by the new entry when it carries that id. |
| Agent.CustomerSupportAgent.ClearConversationHistory | src/agent/customer_support_agent.py:265-268 | The log is empty afterwards. |

## Left out

- Logging (`logger.*`) and console output: they have no effect on results.
- **File input and output.**
  - `_load_articles`, `save_articles` and the directory creation are not modelled. The store is constructed from the already-loaded article list.
  - `_initialize_local_tickets` and the JSON reads of the ticket file are not modelled. The retriever holds the records of the ticket file.
  - A read error is treated as an empty list.
- **The HTTP request.** Timeout, authentication headers and the JSON decoding of the body are abstracted into the `api` parameter, which returns a status and a decoded record, or a request failure.
- **Exceptions.** Malformed records (a `null` or a non-dictionary where a dictionary is expected) are outside the datatypes.
- **The clock.** `datetime.now()` is replaced by the `stamp` and `now` parameters.
- `config/config.py`: the environment settings are parameters (`Settings`, and the limit and threshold of `KnowledgeBase`).
- **Default stores.** The `knowledge_base or KnowledgeBase()` and `ticket_retriever or TicketRetriever()` defaults of the agent's constructor are not modelled. The two stores are always given.
- **Character semantics.**
  - Character classes, `lower()`/`upper()` and `re.IGNORECASE` are ASCII only.
  - Python's Unicode rules for `\w`, `\d` and `\s` and for case mapping are not modelled.
  - The regular expressions are modelled by a hand-written greedy scanner with leftmost search.
- **Floating point.** Scores and similarities are exact `real`s. Agreement with IEEE double rounding is not claimed.
- **Output dictionaries.**
  - A search result is a `Ranked(article, score)` pair rather than a copy of the article dictionary with a `relevance_score` or `match_score` key.
  - A source is a datatype rather than a dictionary with a `"type"` key.
- `search_tickets` reading the current file on each call: the model searches the records the retriever holds.
- `Ranking.SortDesc`: the in-place `list.sort` is modelled as a pure function on values, because the results list is local to the search and not aliased.
