/**
 * components/SearchResults.tsx: the search page's query guard, the three
 * case-insensitive substring filters over tokens, news and airdrops, the
 * total, and the cap of 12 cards per section. The three lists are the
 * fetchers' results, given as inputs.
 */
module Search {
  import opened Wrappers
  import opened Strs
  import opened Types
  import Seqs

  const MinQueryLength := 2
  const SectionCap := 12

  /** A section: its header count and the cards it shows. */
  datatype Section<T> = Section(count: nat, shown: seq<T>)

  /** What the component renders. */
  datatype SearchView =
    | Prompt                      // "Please enter a search query"
    | NoResults                   // "No results found for ..."
    | Results(total: nat, tokens: Section<Token>, news: Section<NewsItem>, airdrops: Section<Airdrop>)

  /** The guard `!query || query.length < 2` fails. */
  predicate QueryAccepted(query: Option<string>) {
    query.Some? && |query.value| >= MinQueryLength
  }

  /** `s?.toLowerCase().includes(q)`: an absent string matches nothing. */
  predicate OptContains(s: Option<string>, q: string) {
    s.Some? && Contains(ToLower(s.value), q)
  }

  predicate TokenMatches(t: Token, q: string) {
    Contains(ToLower(t.name), q) || Contains(ToLower(t.symbol), q)
  }

  predicate NewsMatches(n: NewsItem, q: string) {
    Contains(ToLower(n.title), q) || OptContains(n.content, q) || Contains(ToLower(n.source), q)
  }

  predicate AirdropMatches(a: Airdrop, q: string) {
    Contains(ToLower(a.title), q) || OptContains(a.description, q) || OptContains(a.category, q)
  }

  function FilteredTokens(tokens: seq<Token>, q: string): seq<Token> {
    Seqs.Filter(tokens, t => TokenMatches(t, q))
  }

  function FilteredNews(news: seq<NewsItem>, q: string): seq<NewsItem> {
    Seqs.Filter(news, n => NewsMatches(n, q))
  }

  function FilteredAirdrops(airdrops: seq<Airdrop>, q: string): seq<Airdrop> {
    Seqs.Filter(airdrops, a => AirdropMatches(a, q))
  }

  /** A section for a filtered list: the full count in the header, at most 12 cards. */
  function SectionOf<T>(filtered: seq<T>): (r: Section<T>)
    ensures r.count == |filtered|
    ensures |r.shown| == (if |filtered| < SectionCap then |filtered| else SectionCap)
    ensures r.shown == filtered[..|r.shown|]
    ensures |filtered| <= SectionCap ==> r.shown == filtered
  {
    Section(|filtered|, Seqs.Take(filtered, SectionCap))
  }

  /** The search page for `query` over the fetched tokens, news and airdrops. */
  function SearchPage(query: Option<string>, tokens: seq<Token>, news: seq<NewsItem>, airdrops: seq<Airdrop>)
    : (r: SearchView)
    ensures !QueryAccepted(query) <==> r.Prompt?
  {
    if !QueryAccepted(query) then Prompt
    else
      var q := ToLower(query.value);
      var ft, fn, fa := FilteredTokens(tokens, q), FilteredNews(news, q), FilteredAirdrops(airdrops, q);
      var total := |ft| + |fn| + |fa|;
      if total == 0 then NoResults
      else Results(total, SectionOf(ft), SectionOf(fn), SectionOf(fa))
  }

  /**
   * Each filter keeps exactly the entries that match the lowercased query,
   * each as often as the fetched list holds it, as an order-preserving
   * subsequence of that list.
   */
  lemma TokenFilterKeepsMatches(tokens: seq<Token>, q: string)
    ensures forall t :: t in FilteredTokens(tokens, q) <==> t in tokens && TokenMatches(t, q)
    ensures Seqs.CountsKept(FilteredTokens(tokens, q), tokens, t => TokenMatches(t, q))
    ensures Seqs.IsSubseq(FilteredTokens(tokens, q), tokens)
  {
    Seqs.FilterKeeps(tokens, t => TokenMatches(t, q));
  }

  lemma NewsFilterKeepsMatches(news: seq<NewsItem>, q: string)
    ensures forall n :: n in FilteredNews(news, q) <==> n in news && NewsMatches(n, q)
    ensures Seqs.CountsKept(FilteredNews(news, q), news, n => NewsMatches(n, q))
    ensures Seqs.IsSubseq(FilteredNews(news, q), news)
  {
    Seqs.FilterKeeps(news, n => NewsMatches(n, q));
  }

  lemma AirdropFilterKeepsMatches(airdrops: seq<Airdrop>, q: string)
    ensures forall a :: a in FilteredAirdrops(airdrops, q) <==> a in airdrops && AirdropMatches(a, q)
    ensures Seqs.CountsKept(FilteredAirdrops(airdrops, q), airdrops, a => AirdropMatches(a, q))
    ensures Seqs.IsSubseq(FilteredAirdrops(airdrops, q), airdrops)
  {
    Seqs.FilterKeeps(airdrops, a => AirdropMatches(a, q));
  }

  /**
   * For an accepted query the total is the sum of the three filtered
   * lengths; no match at all gives the "no results" message, and otherwise
   * each section counts its whole filtered list and shows its first 12.
   */
  lemma SearchPageSections(query: Option<string>, tokens: seq<Token>, news: seq<NewsItem>, airdrops: seq<Airdrop>)
    requires QueryAccepted(query)
    ensures var q := ToLower(query.value);
      var ft, fn, fa := FilteredTokens(tokens, q), FilteredNews(news, q), FilteredAirdrops(airdrops, q);
      var r := SearchPage(query, tokens, news, airdrops);
      && (r.NoResults? <==> |ft| + |fn| + |fa| == 0)
      && (r.Results? ==>
            && r.total == |ft| + |fn| + |fa|
            && r.tokens.count == |ft| && r.news.count == |fn| && r.airdrops.count == |fa|
            && r.tokens.shown == Seqs.Take(ft, SectionCap)
            && r.news.shown == Seqs.Take(fn, SectionCap)
            && r.airdrops.shown == Seqs.Take(fa, SectionCap))
  {
  }

  /** A search is not affected by the letter case of the query. */
  lemma SearchIgnoresQueryCase(a: string, b: string, tokens: seq<Token>, news: seq<NewsItem>, airdrops: seq<Airdrop>)
    requires ToLower(a) == ToLower(b)
    ensures SearchPage(Some(a), tokens, news, airdrops) == SearchPage(Some(b), tokens, news, airdrops)
  {
  }

  /** A fetched token whose lowercased name contains the lowercased query is found. */
  lemma NameMatchFound(query: Option<string>, tokens: seq<Token>, news: seq<NewsItem>, airdrops: seq<Airdrop>, k: nat)
    requires QueryAccepted(query) && k < |tokens|
    requires Contains(ToLower(tokens[k].name), ToLower(query.value))
    ensures var r := SearchPage(query, tokens, news, airdrops);
      r.Results? && r.tokens.count > 0 && tokens[k] in FilteredTokens(tokens, ToLower(query.value))
  {
    var q := ToLower(query.value);
    TokenFilterKeepsMatches(tokens, q);
    var ft := FilteredTokens(tokens, q);
    assert TokenMatches(tokens[k], q);
    assert tokens[k] in ft;
  }
}
