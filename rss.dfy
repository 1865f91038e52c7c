/**
 * lib/rss.ts: normalizing one parsed feed into news items, and merging the
 * settled results of several feeds into one list, newest first.
 */
module Rss {
  import opened Wrappers
  import opened Strs
  import opened Types
  import Seqs
  import Sorting

  /** One entry of a parsed feed, each field as the feed parser hands it over. */
  datatype FeedEntry = FeedEntry(
    guid: Option<string>,
    link: Option<string>,
    title: Option<string>,
    pubDate: Option<int>,
    contentSnippet: Option<string>,
    content: Option<string>,
    mediaContentUrl: Option<string>,
    enclosureUrl: Option<string>)

  /**
   * What makes an item's id unique within its feed: the guid, else the link,
   * else the entry's position.
   */
  function EntryKey(e: FeedEntry, index: nat): string {
    if Truthy(e.guid) then e.guid.value
    else if Truthy(e.link) then e.link.value
    else NatToString(index)
  }

  /** The news item for entry `index` of the feed labelled `source`, fetched at `now`. */
  function NormalizeEntry(e: FeedEntry, index: nat, source: string, now: int): NewsItem {
    NewsItem(
      id := source + "-" + EntryKey(e, index),
      title := OrElse(e.title, "No title"),
      link := OrElse(e.link, "#"),
      pubDate := e.pubDate.GetOr(now),
      content := JsOr(e.contentSnippet, e.content),
      source := source,
      image := JsOr(e.mediaContentUrl, e.enclosureUrl))
  }

  /**
   * `fetchRSSFeed`: `parsed` is what the parser returned for the feed's URL
   * (`Threw` for a transport, timeout or XML error; `None` for a feed without
   * items). Every failure gives the empty list; otherwise every entry gives
   * one item, in feed order.
   */
  function FetchRSSFeed(parsed: Outcome<Option<seq<FeedEntry>>>, source: string, now: int): (r: seq<NewsItem>)
    ensures parsed.Threw? || parsed.value.None? ==> r == []
    ensures parsed.Returned? && parsed.value.Some? ==> |r| == |parsed.value.value|
    ensures forall i :: 0 <= i < |r| ==> r[i].source == source
  {
    match parsed
    case Threw => []
    case Returned(None) => []
    case Returned(Some(entries)) =>
      if |entries| == 0 then []
      else seq(|entries|, i requires 0 <= i < |entries| => NormalizeEntry(entries[i], i, source, now))
  }

  /**
   * Field by field, the item made from entry `i`: the id is the source label,
   * a dash and the guid/link/position; absent title, link and date take
   * their defaults; the content prefers the snippet; the image prefers the
   * media enclosure.
   */
  lemma FeedItemFields(entries: seq<FeedEntry>, source: string, now: int, i: nat)
    requires i < |entries|
    ensures var r := FetchRSSFeed(Returned(Some(entries)), source, now);
      var e := entries[i];
      && |r| == |entries|
      && r[i].id == source + "-" + (if Truthy(e.guid) then e.guid.value
                                    else if Truthy(e.link) then e.link.value
                                    else NatToString(i))
      && StartsWith(r[i].id, source + "-")
      && r[i].title == (if Truthy(e.title) then e.title.value else "No title")
      && r[i].link == (if Truthy(e.link) then e.link.value else "#")
      && r[i].pubDate == (if e.pubDate.Some? then e.pubDate.value else now)
      && r[i].content == (if Truthy(e.contentSnippet) then e.contentSnippet else e.content)
      && r[i].image == (if Truthy(e.mediaContentUrl) then e.mediaContentUrl else e.enclosureUrl)
  {
    var r := FetchRSSFeed(Returned(Some(entries)), source, now);
    var id := source + "-" + EntryKey(entries[i], i);
    assert r[i].id == id;
    assert id[..|source + "-"|] == source + "-";
  }

  // ---------------------------------------------------------------------------
  // fetchMultipleRSSFeeds

  /** The comparator `dateB - dateA`: a newer item goes first. */
  predicate NewerFirst(a: NewsItem, b: NewsItem) {
    a.pubDate > b.pubDate
  }

  lemma NewerFirstIsStrictWeakOrder()
    ensures Sorting.StrictWeakOrder(NewerFirst)
  {
  }

  /** The items of the fulfilled feeds, concatenated in feed order. */
  function Fulfilled(settled: seq<Outcome<seq<NewsItem>>>): seq<NewsItem>
    decreases |settled|
  {
    if settled == [] then []
    else
      Fulfilled(settled[..|settled| - 1])
      + match settled[|settled| - 1] case Returned(items) => items case Threw => []
  }

  function CountFulfilled(settled: seq<Outcome<seq<NewsItem>>>): (r: nat)
    ensures r <= |settled|
    decreases |settled|
  {
    if settled == [] then 0
    else CountFulfilled(settled[..|settled| - 1]) + if settled[|settled| - 1].Returned? then 1 else 0
  }

  /** The merged, sorted list of `fetchMultipleRSSFeeds`. */
  function MergeFeeds(settled: seq<Outcome<seq<NewsItem>>>): seq<NewsItem> {
    Sorting.SortBy(Fulfilled(settled), NewerFirst)
  }

  /**
   * `fetchMultipleRSSFeeds`: `settled` is the per-feed outcome of the
   * settle-all fan-out, in the order of the feed list. The items of every
   * fulfilled feed are pushed in feed order, the feeds are counted, and the
   * whole list is sorted newest first.
   */
  method FetchMultipleRSSFeeds(settled: seq<Outcome<seq<NewsItem>>>)
    returns (sorted: seq<NewsItem>, successCount: nat, failureCount: nat)
    ensures sorted == MergeFeeds(settled)
    ensures successCount == CountFulfilled(settled)
    ensures successCount + failureCount == |settled|
  {
    var allItems: seq<NewsItem> := [];
    successCount, failureCount := 0, 0;
    var i := 0;
    while i < |settled|
      invariant 0 <= i <= |settled|
      invariant allItems == Fulfilled(settled[..i])
      invariant successCount == CountFulfilled(settled[..i])
      invariant successCount + failureCount == i
    {
      assert settled[..i + 1][..i] == settled[..i];
      match settled[i] {
        case Returned(items) =>
          allItems := allItems + items;
          successCount := successCount + 1;
        case Threw =>
          failureCount := failureCount + 1;
      }
      i := i + 1;
    }
    assert settled[..i] == settled;
    sorted := Sorting.SortBy(allItems, NewerFirst);
  }

  /**
   * `fetchRSSFeed` catches every error and answers `[]` instead, so each
   * feed's promise fulfils: with `settled` made of its results, every feed
   * counts as a success, and `FetchMultipleRSSFeeds` reports no failure.
   */
  lemma FeedsAlwaysFulfil(parsed: seq<Outcome<Option<seq<FeedEntry>>>>, sources: seq<string>, now: int)
    requires |parsed| == |sources|
    ensures var settled := seq(|parsed|, i requires 0 <= i < |parsed| => Returned(FetchRSSFeed(parsed[i], sources[i], now)));
      CountFulfilled(settled) == |settled|
  {
    var settled := seq(|parsed|, i requires 0 <= i < |parsed| => Returned(FetchRSSFeed(parsed[i], sources[i], now)));
    AllFulfilledCount(settled);
  }

  lemma {:induction false} AllFulfilledCount(settled: seq<Outcome<seq<NewsItem>>>)
    requires forall i :: 0 <= i < |settled| ==> settled[i].Returned?
    ensures CountFulfilled(settled) == |settled|
    decreases |settled|
  {
    if settled != [] {
      AllFulfilledCount(settled[..|settled| - 1]);
    }
  }

  /** The sum of the lengths of the fulfilled feeds. */
  function FulfilledLength(settled: seq<Outcome<seq<NewsItem>>>): nat
    decreases |settled|
  {
    if settled == [] then 0
    else FulfilledLength(settled[..|settled| - 1])
         + match settled[|settled| - 1] case Returned(items) => |items| case Threw => 0
  }

  lemma {:induction false} FulfilledLengthIsSum(settled: seq<Outcome<seq<NewsItem>>>)
    ensures |Fulfilled(settled)| == FulfilledLength(settled)
    decreases |settled|
  {
    if settled != [] {
      FulfilledLengthIsSum(settled[..|settled| - 1]);
    }
  }

  /**
   * The merged list holds exactly the fulfilled feeds' items: a permutation of
   * their concatenation, with no de-duplication, so rejected feeds contribute
   * nothing and the length is the sum of the fulfilled feeds' lengths.
   */
  lemma MergeFeedsPermutes(settled: seq<Outcome<seq<NewsItem>>>)
    ensures multiset(MergeFeeds(settled)) == multiset(Fulfilled(settled))
    ensures |MergeFeeds(settled)| == FulfilledLength(settled)
  {
    Sorting.SortPermutes(Fulfilled(settled), NewerFirst);
    FulfilledLengthIsSum(settled);
  }

  /** The merged list is ordered newest first. */
  lemma MergeFeedsNewestFirst(settled: seq<Outcome<seq<NewsItem>>>)
    ensures var r := MergeFeeds(settled);
      forall i, j :: 0 <= i < j < |r| ==> r[i].pubDate >= r[j].pubDate
  {
    NewerFirstIsStrictWeakOrder();
    Sorting.SortSorted(Fulfilled(settled), NewerFirst);
  }

  /** Items with the same date keep their concatenation order (the sort is stable). */
  lemma MergeFeedsStable(settled: seq<Outcome<seq<NewsItem>>>, d: int)
    ensures SameDate(MergeFeeds(settled), d) == SameDate(Fulfilled(settled), d)
  {
    var all := Fulfilled(settled);
    var r := MergeFeeds(settled);
    NewerFirstIsStrictWeakOrder();
    var e := NewsItem("", "", "", d, None, "", None);
    Sorting.SortStable(all, e, NewerFirst);
    SameDateIsTied(r, e);
    SameDateIsTied(all, e);
  }

  /** The items dated `d`, in order. */
  function SameDate(s: seq<NewsItem>, d: int): seq<NewsItem> {
    Seqs.Filter(s, (x: NewsItem) => x.pubDate == d)
  }

  lemma SameDateIsTied(s: seq<NewsItem>, e: NewsItem)
    ensures SameDate(s, e.pubDate) == Sorting.TiedWith(s, e, NewerFirst)
  {
    Seqs.FilterCongruent(s, (x: NewsItem) => x.pubDate == e.pubDate,
                         (x: NewsItem) => Sorting.Tied(x, e, NewerFirst));
  }

  /** A feed that fails takes nothing away from the others: it contributes no item. */
  lemma {:induction false} FailedFeedIsolated(settled: seq<Outcome<seq<NewsItem>>>, k: nat)
    requires k < |settled| && settled[k].Threw?
    ensures Fulfilled(settled) == Fulfilled(settled[..k]) + Fulfilled(settled[k + 1..])
  {
    FulfilledAppend(settled[..k], [Threw]);
    FulfilledAppend(settled[..k] + [Threw], settled[k + 1..]);
    assert settled == settled[..k] + [Threw] + settled[k + 1..];
    var one: seq<Outcome<seq<NewsItem>>> := [Threw];
    assert one[..0] == [];
    assert Fulfilled(one) == [];
  }

  lemma {:induction false} FulfilledAppend(a: seq<Outcome<seq<NewsItem>>>, b: seq<Outcome<seq<NewsItem>>>)
    ensures Fulfilled(a + b) == Fulfilled(a) + Fulfilled(b)
    decreases |b|
  {
    if b != [] {
      var b' := b[..|b| - 1];
      FulfilledAppend(a, b');
      assert (a + b)[..|a + b| - 1] == a + b';
    } else {
      assert a + b == a;
    }
  }
}
