/**
 * The knowledge base (`src/knowledge_base/knowledge_base.py`): an ordered in-memory list of
 * support articles, the composite relevance score, and the ranked search over it.
 * Articles read from JSON files are records whose keys may be missing; the store starts from
 * the list the files held (reading them is outside the model).
 */
module Articles {
  import opened Wrappers
  import opened Slices
  import opened Chars
  import opened Ranking
  import opened Text

  /** `Config.MAX_SEARCH_RESULTS` */
  const DefaultMaxResults: int := 5
  /** `Config.SIMILARITY_THRESHOLD` */
  const SimilarityThreshold: real := 0.7

  /** An article record; a field is `None` when the record has no such key. */
  datatype Article = Article(
    id: Option<string>,
    title: Option<string>,
    content: Option<string>,
    category: Option<string>,
    tags: Option<seq<string>>,
    keywords: Option<seq<string>>)

  /** The record `add_article` builds when the store already holds `count` articles. */
  function NewArticle(count: nat, title: string, content: string, category: string, tags: Option<seq<string>>): Article {
    Article(
      Some("KB-" + NatToString(count + 1)),
      Some(title),
      Some(content),
      Some(category),
      Some(tags.GetOr([])),
      Some(ExtractKeywords(title + " " + content, 3)))
  }

  /** Articles added at different store sizes get different ids. */
  lemma NewArticleIdsDiffer(m: nat, n: nat, t1: string, c1: string, g1: string, x1: Option<seq<string>>,
                            t2: string, c2: string, g2: string, x2: Option<seq<string>>)
    requires m != n
    ensures NewArticle(m, t1, c1, g1, x1).id != NewArticle(n, t2, c2, g2, x2).id
  {
    var a, b := NatToString(m + 1), NatToString(n + 1);
    if "KB-" + a == "KB-" + b {
      assert a == ("KB-" + a)[3..] == ("KB-" + b)[3..] == b;
      NatToStringInjective(m + 1, n + 1);
    }
  }

  /** `[tag.lower() for tag in tags]` */
  function LowerAll(tags: seq<string>): (r: seq<string>)
    ensures |r| == |tags|
    ensures forall i :: 0 <= i < |tags| ==> r[i] == LowerStr(tags[i])
  {
    seq(|tags|, i requires 0 <= i < |tags| => LowerStr(tags[i]))
  }

  /** `set(article.get("keywords", []))` */
  function ArticleKeywords(a: Article): set<string> {
    set k | k in a.keywords.GetOr([])
  }

  /** 10 when the lower-cased query occurs in the lower-cased title. */
  function TitleScore(query: string, a: Article): real {
    if IsSubstring(LowerStr(query), LowerStr(a.title.GetOr(""))) then 10.0 else 0.0
  }

  /** Five times the keyword similarity of the query and "title content". */
  function ContentScore(query: string, a: Article): real {
    5.0 * Similarity(query, a.title.GetOr("") + " " + a.content.GetOr(""))
  }

  /** Three times the share of query keywords among the article's keywords, when both sets are non-empty. */
  function KeywordScore(query: string, a: Article): real {
    var qk, ak := KeywordSet(query), ArticleKeywords(a);
    if qk != {} && ak != {} then 3.0 * (|qk * ak| as real / Max(|qk|, 1) as real) else 0.0
  }

  /** 2 when the lower-cased query occurs in the space-joined lower-cased tags. */
  function TagScore(query: string, a: Article): real {
    if IsSubstring(LowerStr(query), JoinWords(LowerAll(a.tags.GetOr([])))) then 2.0 else 0.0
  }

  /** 1 when the lower-cased query occurs in the lower-cased category. */
  function CategoryScore(query: string, a: Article): real {
    if IsSubstring(LowerStr(query), LowerStr(a.category.GetOr(""))) then 1.0 else 0.0
  }

  /** The relevance score `search` computes for one article. */
  function ArticleScore(query: string, a: Article): real {
    TitleScore(query, a) + ContentScore(query, a) + KeywordScore(query, a) + TagScore(query, a) + CategoryScore(query, a)
  }

  lemma ContentScoreBounds(query: string, a: Article)
    ensures 0.0 <= ContentScore(query, a) <= 5.0
  {
    SimilarityBounds(query, a.title.GetOr("") + " " + a.content.GetOr(""));
  }

  lemma KeywordScoreBounds(query: string, a: Article)
    ensures 0.0 <= KeywordScore(query, a) <= 3.0
  {
    var qk, ak := KeywordSet(query), ArticleKeywords(a);
    if qk != {} && ak != {} {
      SubsetCard(qk * ak, qk);
      Ratio(|qk * ak|, |qk|);
      assert Max(|qk|, 1) == |qk|;
    }
  }

  /** Each term lies between 0 and its weight, so a score lies in [0, 21]. */
  lemma ScoreBounds(query: string, a: Article)
    ensures 0.0 <= ArticleScore(query, a) <= 21.0
  {
    ContentScoreBounds(query, a);
    KeywordScoreBounds(query, a);
  }

  /** A title hit alone puts an article above every threshold up to 10. */
  lemma TitleHitScoresTen(query: string, a: Article)
    requires IsSubstring(LowerStr(query), LowerStr(a.title.GetOr("")))
    ensures ArticleScore(query, a) >= 10.0
  {
    ContentScoreBounds(query, a);
    KeywordScoreBounds(query, a);
    assert TitleScore(query, a) == 10.0;
    assert TagScore(query, a) >= 0.0 && CategoryScore(query, a) >= 0.0;
  }

  /** The scored copies of the articles with a positive score, in store order. */
  function Scored(xs: seq<Article>, query: string): (r: seq<Ranked<Article>>)
    ensures |r| <= |xs|
  {
    if xs == [] then []
    else
      var a := xs[|xs| - 1];
      var s := ArticleScore(query, a);
      Scored(xs[..|xs| - 1], query) + (if s > 0.0 then [Ranked(a, s)] else [])
  }

  /** Scoring one more article appends its scored copy when its score is positive. */
  lemma ScoredSnoc(xs: seq<Article>, i: nat, query: string)
    requires i < |xs|
    ensures Scored(xs[..i + 1], query) ==
            Scored(xs[..i], query) + (if ArticleScore(query, xs[i]) > 0.0 then [Ranked(xs[i], ArticleScore(query, xs[i]))] else [])
  {
    assert xs[..i + 1][..i] == xs[..i];
  }

  /** Every scored entry is a stored article carrying its own, positive, score. */
  lemma {:induction false} ScoredSound(xs: seq<Article>, query: string)
    ensures forall x :: x in Scored(xs, query) ==> x.item in xs && x.score == ArticleScore(query, x.item) > 0.0
  {
    if xs != [] {
      var init := xs[..|xs| - 1];
      ScoredSound(init, query);
      forall x | x in init ensures x in xs {
        var i :| 0 <= i < |init| && init[i] == x;
        assert xs[i] == x;
      }
    }
  }

  /** Every stored article with a positive score is scored. */
  lemma {:induction false} ScoredComplete(xs: seq<Article>, query: string)
    ensures forall i :: 0 <= i < |xs| && ArticleScore(query, xs[i]) > 0.0 ==>
              Ranked(xs[i], ArticleScore(query, xs[i])) in Scored(xs, query)
  {
    if xs != [] {
      var init := xs[..|xs| - 1];
      ScoredComplete(init, query);
      forall i | 0 <= i < |xs| - 1 && ArticleScore(query, xs[i]) > 0.0
        ensures Ranked(xs[i], ArticleScore(query, xs[i])) in Scored(xs, query)
      {
        assert xs[i] == init[i];
        assert Ranked(init[i], ArticleScore(query, init[i])) in Scored(init, query);
      }
    }
  }

  /** `max_results or Config.MAX_SEARCH_RESULTS`: a missing or zero limit falls back to the default. */
  function EffectiveLimit(maxResults: Option<int>, defaultMax: int): int {
    if maxResults.None? || maxResults.value == 0 then defaultMax else maxResults.value
  }

  /** What `search` returns: no result for an empty query; otherwise the positive scores, sorted, filtered by the threshold, truncated. */
  function SearchResults(articles: seq<Article>, query: string, maxResults: Option<int>, defaultMax: int, threshold: real): seq<Ranked<Article>> {
    if query == [] then []
    else Prefix(AtLeast(SortDesc(Scored(articles, query)), threshold), EffectiveLimit(maxResults, defaultMax))
  }

  /** No limit and a zero limit both mean the configured default; any other limit is used as given. */
  lemma SearchLimitFallback(articles: seq<Article>, query: string, n: int, defaultMax: int, threshold: real)
    ensures SearchResults(articles, query, None, defaultMax, threshold) == SearchResults(articles, query, Some(defaultMax), defaultMax, threshold)
    ensures SearchResults(articles, query, Some(0), defaultMax, threshold) == SearchResults(articles, query, Some(defaultMax), defaultMax, threshold)
    ensures n != 0 ==> SearchResults(articles, query, Some(n), defaultMax, threshold) == SearchResults(articles, query, Some(n), 0, threshold)
  {
  }

  /** Every result is a stored article with its own positive score, at or above the threshold. */
  lemma SearchSound(articles: seq<Article>, query: string, maxResults: Option<int>, defaultMax: int, threshold: real)
    ensures var r := SearchResults(articles, query, maxResults, defaultMax, threshold);
            forall x :: x in r ==>
              && x.item in articles && x.score == ArticleScore(query, x.item)
              && x.score > 0.0 && x.score >= threshold
  {
    if query != [] {
      var scored := Scored(articles, query);
      var filtered := AtLeast(SortDesc(scored), threshold);
      ScoredSound(articles, query);
    ScoredComplete(articles, query);
      forall x | x in filtered ensures x in scored && x.score >= threshold {
        var i :| 0 <= i < |filtered| && filtered[i] == x;
        assert x in multiset(SortDesc(scored));
      }
    }
  }

  /** The results are ordered by non-increasing score, and at most the limit are returned. */
  lemma SearchSortedAndBounded(articles: seq<Article>, query: string, maxResults: Option<int>, defaultMax: int, threshold: real)
    ensures var r := SearchResults(articles, query, maxResults, defaultMax, threshold);
            && SortedDesc(r)
            && |r| <= |articles|
            && (EffectiveLimit(maxResults, defaultMax) >= 0 ==> |r| <= EffectiveLimit(maxResults, defaultMax))
  {
    if query != [] {
      var sorted := SortDesc(Scored(articles, query));
      SortDescSorted(Scored(articles, query));
      AtLeastSorted(sorted, threshold);
      var filtered := AtLeast(sorted, threshold);
      var r := Prefix(filtered, EffectiveLimit(maxResults, defaultMax));
      forall i, j | 0 <= i < j < |r| ensures r[i].score >= r[j].score {
        assert r[i] == filtered[i] && r[j] == filtered[j];
      }
    }
  }

  /** Equal scores keep store order: the results carrying any one score are a prefix of the store's articles with that score. */
  lemma SearchStable(articles: seq<Article>, query: string, maxResults: Option<int>, defaultMax: int, threshold: real, k: real)
    requires query != []
    ensures WithScore(SearchResults(articles, query, maxResults, defaultMax, threshold), k) <= WithScore(Scored(articles, query), k)
  {
    var scored := Scored(articles, query);
    var filtered := AtLeast(SortDesc(scored), threshold);
    var r := Prefix(filtered, EffectiveLimit(maxResults, defaultMax));
    PrefixWithScore(filtered, |r|, k);
    AtLeastWithScore(SortDesc(scored), threshold, k);
    SortDescStable(scored, k);
  }

  /** An article scoring positively and at or above the threshold survives the sort and the filter. */
  lemma CandidateFiltered(articles: seq<Article>, query: string, threshold: real, i: nat)
    requires i < |articles|
    requires ArticleScore(query, articles[i]) > 0.0 && ArticleScore(query, articles[i]) >= threshold
    ensures Ranked(articles[i], ArticleScore(query, articles[i])) in AtLeast(SortDesc(Scored(articles, query)), threshold)
  {
    var scored := Scored(articles, query);
    var x := Ranked(articles[i], ArticleScore(query, articles[i]));
    ScoredComplete(articles, query);
    InSortDesc(scored, x);
    var sorted := SortDesc(scored);
    var j :| 0 <= j < |sorted| && sorted[j] == x;
    assert sorted[j].score >= threshold;
  }

  /**
   * Truncation keeps the best: an article scoring positively and at or above the threshold is
   * returned, unless the limit is reached by articles that score at least as high.
   */
  lemma SearchKeepsBest(articles: seq<Article>, query: string, maxResults: Option<int>, defaultMax: int, threshold: real, i: nat)
    requires query != [] && i < |articles|
    requires ArticleScore(query, articles[i]) > 0.0 && ArticleScore(query, articles[i]) >= threshold
    requires EffectiveLimit(maxResults, defaultMax) >= 0
    ensures var r := SearchResults(articles, query, maxResults, defaultMax, threshold);
            var x := Ranked(articles[i], ArticleScore(query, articles[i]));
            x in r || (|r| == EffectiveLimit(maxResults, defaultMax) && forall y :: y in r ==> y.score >= x.score)
  {
    var scored := Scored(articles, query);
    var sorted := SortDesc(scored);
    var filtered := AtLeast(sorted, threshold);
    CandidateFiltered(articles, query, threshold, i);
    SortDescSorted(scored);
    AtLeastSorted(sorted, threshold);
    TruncateKeepsBest(filtered, EffectiveLimit(maxResults, defaultMax));
  }

  /** A non-empty query found in an article's title returns the article, unless the limit is filled by scores of at least its own. */
  lemma SearchFindsTitle(articles: seq<Article>, query: string, maxResults: Option<int>, defaultMax: int, threshold: real, i: nat)
    requires query != [] && i < |articles| && threshold <= 10.0
    requires IsSubstring(LowerStr(query), LowerStr(articles[i].title.GetOr("")))
    requires EffectiveLimit(maxResults, defaultMax) >= 0
    ensures var r := SearchResults(articles, query, maxResults, defaultMax, threshold);
            Ranked(articles[i], ArticleScore(query, articles[i])) in r ||
            (|r| == EffectiveLimit(maxResults, defaultMax) && forall y :: y in r ==> y.score >= 10.0)
  {
    TitleHitScoresTen(query, articles[i]);
    SearchKeepsBest(articles, query, maxResults, defaultMax, threshold, i);
  }

  /** The score of one article, accumulated term by term as in the body of the search loop. */
  method ScoreArticle(query: string, queryLower: string, queryKeywords: set<string>, article: Article) returns (score: real)
    requires queryLower == LowerStr(query) && queryKeywords == KeywordSet(query)
    ensures score == ArticleScore(query, article)
  {
    score := 0.0;
    if IsSubstring(queryLower, LowerStr(article.title.GetOr(""))) {
      score := score + 10.0;
    }
    assert score == TitleScore(query, article);
    var contentSim := Similarity(query, article.title.GetOr("") + " " + article.content.GetOr(""));
    score := score + contentSim * 5.0;
    assert score == TitleScore(query, article) + ContentScore(query, article);
    var articleKeywords := ArticleKeywords(article);
    if queryKeywords != {} && articleKeywords != {} {
      var overlap := |queryKeywords * articleKeywords|;
      score := score + (overlap as real / Max(|queryKeywords|, 1) as real) * 3.0;
    }
    assert score == TitleScore(query, article) + ContentScore(query, article) + KeywordScore(query, article);
    if IsSubstring(queryLower, JoinWords(LowerAll(article.tags.GetOr([])))) {
      score := score + 2.0;
    }
    assert score == TitleScore(query, article) + ContentScore(query, article) + KeywordScore(query, article) + TagScore(query, article);
    if IsSubstring(queryLower, LowerStr(article.category.GetOr(""))) {
      score := score + 1.0;
    }
    assert score == ArticleScore(query, article);
  }

  /** With the configured defaults a search returns at most five articles, each scoring at least 0.7. */
  lemma DefaultSearchBounded(articles: seq<Article>, query: string)
    ensures var r := SearchResults(articles, query, None, DefaultMaxResults, SimilarityThreshold);
            |r| <= 5 && forall x :: x in r ==> x.score >= 0.7
  {
    SearchSortedAndBounded(articles, query, None, DefaultMaxResults, SimilarityThreshold);
    SearchSound(articles, query, None, DefaultMaxResults, SimilarityThreshold);
  }

  /** The first article whose id equals `articleId`, in store order. */
  ghost predicate FirstWithId(articles: seq<Article>, articleId: string, k: nat) {
    k < |articles| && articles[k].id == Some(articleId) && forall j :: 0 <= j < k ==> articles[j].id != Some(articleId)
  }

  /** `KnowledgeBase`: the article list, with the configured default limit and threshold. */
  class KnowledgeBase {
    var articles: seq<Article>
    const defaultMax: int
    const threshold: real

    /** A store holding the articles loaded from the knowledge-base files, in load order. */
    constructor(loaded: seq<Article>, defaultMax: int, threshold: real)
      ensures articles == loaded && this.defaultMax == defaultMax && this.threshold == threshold
    {
      articles := loaded;
      this.defaultMax := defaultMax;
      this.threshold := threshold;
    }

    /** `add_article`: appends one new record and leaves the earlier ones as they were. */
    method AddArticle(title: string, content: string, category: string, tags: Option<seq<string>>)
      modifies this
      ensures articles == old(articles) + [NewArticle(|old(articles)|, title, content, category, tags)]
    {
      var article := Article(
        Some("KB-" + NatToString(|articles| + 1)),
        Some(title),
        Some(content),
        Some(category),
        Some(if tags.Some? then tags.value else []),
        Some(ExtractKeywords(title + " " + content, 3)));
      articles := articles + [article];
    }

    /** `search`: scores every article in one pass, then sorts, filters and truncates. */
    method Search(query: string, maxResults: Option<int>) returns (results: seq<Ranked<Article>>)
      ensures results == SearchResults(articles, query, maxResults, defaultMax, threshold)
      ensures query == [] ==> results == []
    {
      if query == [] {
        return [];
      }
      var limit := if maxResults.None? || maxResults.value == 0 then defaultMax else maxResults.value;
      var queryLower := LowerStr(query);
      var queryKeywords := KeywordSet(query);
      var scored: seq<Ranked<Article>> := [];
      var i := 0;
      while i < |articles|
        invariant 0 <= i <= |articles|
        invariant scored == Scored(articles[..i], query)
      {
        var article := articles[i];
        var score := ScoreArticle(query, queryLower, queryKeywords, article);
        ScoredSnoc(articles, i, query);
        var entry := if score > 0.0 then [Ranked(article, score)] else [];
        scored := scored + entry;
        i := i + 1;
      }
      assert articles[..i] == articles;
      var sorted := SortDesc(scored);
      var filtered := AtLeast(sorted, threshold);
      results := Prefix(filtered, limit);
    }

    /** `get_article_by_id`: the first article whose id equals `articleId`, or `None`. */
    method GetArticleById(articleId: string) returns (r: Option<Article>)
      ensures r.Some? ==> exists k: nat :: FirstWithId(articles, articleId, k) && r.value == articles[k]
      ensures r.None? <==> forall j :: 0 <= j < |articles| ==> articles[j].id != Some(articleId)
    {
      var i := 0;
      while i < |articles|
        invariant 0 <= i <= |articles|
        invariant forall j :: 0 <= j < i ==> articles[j].id != Some(articleId)
      {
        if articles[i].id == Some(articleId) {
          assert FirstWithId(articles, articleId, i);
          return Some(articles[i]);
        }
        i := i + 1;
      }
      return None;
    }

    /** `get_all_articles`: a copy of the whole store, in order. */
    method GetAllArticles() returns (r: seq<Article>)
      ensures r == articles
    {
      r := articles;
    }
  }
}
