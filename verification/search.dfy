/** The client-side search filter of `src/components/search/SearchView.tsx`: a
    topic filter, a difficulty filter and a multi-term, case-insensitive
    substring match, applied one after the other. */
module Search {
  import opened Seqs
  import opened Strings
  import opened Records

  /** The filter value that imposes no constraint. */
  const AllFilter: string := "all"

  /** The text a query is matched against: title, summary, topic and publisher,
      joined by spaces and lower-cased. */
  function Searchable(p: Post): string {
    ToLower(p.title + " " + p.summary + " " + p.topic + " " + p.sourcePublisher)
  }

  /** The query's terms: the lower-cased, trimmed query split on runs of white space. */
  function Terms(query: string): (terms: seq<string>)
    ensures forall k :: 0 <= k < |terms| ==> |terms[k]| > 0 && NoSpace(terms[k]) && NoUpper(terms[k])
  {
    TrimKeepsNoUpper(ToLower(query));
    WordsKeepNoUpper(Trim(ToLower(query)));
    Words(Trim(ToLower(query)))
  }

  /** A query that is empty once trimmed imposes no text constraint. */
  predicate IsBlank(query: string) {
    |Trim(query)| == 0
  }

  predicate MatchesTopic(p: Post, topicFilter: string) {
    topicFilter == AllFilter || p.topic == topicFilter
  }

  predicate MatchesDifficulty(p: Post, difficultyFilter: string) {
    difficultyFilter == AllFilter || p.difficulty == difficultyFilter
  }

  /** Every term occurs in the post's searchable text. */
  predicate MatchesTerms(p: Post, terms: seq<string>) {
    forall k :: 0 <= k < |terms| ==> Contains(Searchable(p), terms[k])
  }

  predicate MatchesQuery(p: Post, query: string) {
    IsBlank(query) || MatchesTerms(p, Terms(query))
  }

  /** The reference definition: a post is a result iff it passes all three filters. */
  predicate Matches(p: Post, query: string, topicFilter: string, difficultyFilter: string) {
    MatchesTopic(p, topicFilter) && MatchesDifficulty(p, difficultyFilter) && MatchesQuery(p, query)
  }

  function TopicFilterFn(topicFilter: string): Post -> bool {
    (p: Post) => p.topic == topicFilter
  }

  function DifficultyFilterFn(difficultyFilter: string): Post -> bool {
    (p: Post) => p.difficulty == difficultyFilter
  }

  function TermsFilterFn(terms: seq<string>): Post -> bool {
    (p: Post) => MatchesTerms(p, terms)
  }

  function MatchesFn(query: string, topicFilter: string, difficultyFilter: string): Post -> bool {
    (p: Post) => Matches(p, query, topicFilter, difficultyFilter)
  }

  /** The `results` computation: each filter narrows the previous result, so
      every result is one of the posts and passes all three filters. */
  function SearchResults(posts: seq<Post>, query: string, topicFilter: string, difficultyFilter: string): (r: seq<Post>)
    ensures |r| <= |posts|
    ensures forall i :: 0 <= i < |r| ==> r[i] in posts && Matches(r[i], query, topicFilter, difficultyFilter)
  {
    var byTopic := if topicFilter != AllFilter then Filter(posts, TopicFilterFn(topicFilter)) else posts;
    assert forall p :: p in byTopic ==> p in posts && MatchesTopic(p, topicFilter);
    var byDifficulty := if difficultyFilter != AllFilter then Filter(byTopic, DifficultyFilterFn(difficultyFilter)) else byTopic;
    assert forall p :: p in byDifficulty ==> p in byTopic && MatchesDifficulty(p, difficultyFilter);
    if !IsBlank(query) then Filter(byDifficulty, TermsFilterFn(Terms(query))) else byDifficulty
  }

  function TopicStageFn(topicFilter: string): Post -> bool {
    (p: Post) => MatchesTopic(p, topicFilter)
  }

  function DifficultyStageFn(difficultyFilter: string): Post -> bool {
    (p: Post) => MatchesDifficulty(p, difficultyFilter)
  }

  function QueryStageFn(query: string): Post -> bool {
    (p: Post) => MatchesQuery(p, query)
  }

  function TopicAndDifficultyFn(topicFilter: string, difficultyFilter: string): Post -> bool {
    (p: Post) => MatchesTopic(p, topicFilter) && MatchesDifficulty(p, difficultyFilter)
  }

  lemma TopicStage(posts: seq<Post>, topicFilter: string)
    ensures (if topicFilter != AllFilter then Filter(posts, TopicFilterFn(topicFilter)) else posts)
         == Filter(posts, TopicStageFn(topicFilter))
  {
    if topicFilter != AllFilter {
      FilterCongruent(posts, TopicFilterFn(topicFilter), TopicStageFn(topicFilter));
    } else {
      FilterAll(posts, TopicStageFn(topicFilter));
    }
  }

  lemma DifficultyStage(posts: seq<Post>, difficultyFilter: string)
    ensures (if difficultyFilter != AllFilter then Filter(posts, DifficultyFilterFn(difficultyFilter)) else posts)
         == Filter(posts, DifficultyStageFn(difficultyFilter))
  {
    if difficultyFilter != AllFilter {
      FilterCongruent(posts, DifficultyFilterFn(difficultyFilter), DifficultyStageFn(difficultyFilter));
    } else {
      FilterAll(posts, DifficultyStageFn(difficultyFilter));
    }
  }

  lemma QueryStage(posts: seq<Post>, query: string)
    ensures (if !IsBlank(query) then Filter(posts, TermsFilterFn(Terms(query))) else posts)
         == Filter(posts, QueryStageFn(query))
  {
    if !IsBlank(query) {
      FilterCongruent(posts, TermsFilterFn(Terms(query)), QueryStageFn(query));
    } else {
      FilterAll(posts, QueryStageFn(query));
    }
  }

  /** Applying the filters in sequence is the same as one filter with their
      conjunction: the results are exactly the posts that pass all three, in
      input order, so the order of the filters does not matter. */
  lemma SearchIsConjunction(posts: seq<Post>, query: string, topicFilter: string, difficultyFilter: string)
    ensures SearchResults(posts, query, topicFilter, difficultyFilter)
         == Filter(posts, MatchesFn(query, topicFilter, difficultyFilter))
  {
    var byTopic := if topicFilter != AllFilter then Filter(posts, TopicFilterFn(topicFilter)) else posts;
    TopicStage(posts, topicFilter);
    var byDifficulty := if difficultyFilter != AllFilter then Filter(byTopic, DifficultyFilterFn(difficultyFilter)) else byTopic;
    DifficultyStage(byTopic, difficultyFilter);
    QueryStage(byDifficulty, query);
    FilterFusion(posts, TopicStageFn(topicFilter), DifficultyStageFn(difficultyFilter),
                 TopicAndDifficultyFn(topicFilter, difficultyFilter));
    FilterFusion(posts, TopicAndDifficultyFn(topicFilter, difficultyFilter), QueryStageFn(query),
                 MatchesFn(query, topicFilter, difficultyFilter));
  }

  /** The results are a subsequence of the posts, and a post is among them iff it
      passes every filter. */
  lemma SearchResultsCharacterized(posts: seq<Post>, query: string, topicFilter: string, difficultyFilter: string)
    ensures IsSubseq(SearchResults(posts, query, topicFilter, difficultyFilter), posts)
    ensures forall p :: p in SearchResults(posts, query, topicFilter, difficultyFilter)
                        <==> p in posts && Matches(p, query, topicFilter, difficultyFilter)
  {
    SearchIsConjunction(posts, query, topicFilter, difficultyFilter);
    FilterIsSubseq(posts, MatchesFn(query, topicFilter, difficultyFilter));
  }

  /** With no query and both filters at "all", every post is shown, in order. */
  lemma NoFiltersShowsEverything(posts: seq<Post>)
    ensures SearchResults(posts, "", AllFilter, AllFilter) == posts
  {
    assert Trim("") == [];
  }

  /** The match ignores the query's case: a query and its lower-cased form have
      the same terms, are blank together, and match the same posts. */
  lemma QueryIgnoresCase(p: Post, query: string)
    ensures Terms(ToLower(query)) == Terms(query)
    ensures IsBlank(ToLower(query)) <==> IsBlank(query)
    ensures MatchesQuery(p, ToLower(query)) <==> MatchesQuery(p, query)
  {
    ToLowerIdempotent(query);
    ToLowerKeepsSpace(query);
    BlankIffAllSpace(query);
    BlankIffAllSpace(ToLower(query));
  }

  /** A query is matched term by term: a query made of lower-case words joined
      by single spaces, such as "rate limit", has exactly those words as its
      terms, each looked for separately anywhere in the searchable text. */
  lemma TermsOfLowerWords(ws: seq<string>)
    requires forall k :: 0 <= k < |ws| ==> |ws[k]| > 0 && NoSpace(ws[k]) && NoUpper(ws[k])
    ensures Terms(JoinWords(ws)) == ws
  {
    var q := JoinWords(ws);
    JoinWordsNoUpper(ws);
    ToLowerFixes(q);
    JoinWordsTrimmed(ws);
    TrimOfTrimmed(q);
    WordsOfJoin(ws);
  }
}
