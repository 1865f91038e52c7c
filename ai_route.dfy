/**
 * app/api/ai/route.ts: the AI news endpoint. It merges two feeds, keeps the
 * items whose title or content mentions an AI keyword, and falls back to
 * the whole list when none does. `fetched` is what the merge resolved to;
 * `Threw` stands for an exception escaping the `try` block.
 */
module AiRoute {
  import opened Wrappers
  import opened Strs
  import opened Types
  import Seqs

  const FailureMessage := "Failed to fetch AI news"

  /** The filter's keyword test on the lowercased title and content (absent content is ""). */
  predicate AiRelated(item: NewsItem) {
    var title := ToLower(item.title);
    var content := ToLower(OrEmpty(item.content));
    || Contains(title, "ai")
    || Contains(title, "artificial intelligence")
    || Contains(title, "machine learning")
    || Contains(title, "ml")
    || Contains(content, "ai")
    || Contains(content, "artificial intelligence")
  }

  function AiNews(items: seq<NewsItem>): seq<NewsItem> {
    Seqs.Filter(items, AiRelated)
  }

  /** The `data` of the answer: the AI items, or all items when there are none. */
  function AiData(items: seq<NewsItem>): seq<NewsItem> {
    var ai := AiNews(items);
    if |ai| > 0 then ai else items
  }

  /** `GET /api/ai`. */
  function GetAiNews(fetched: Outcome<seq<NewsItem>>): (r: ApiResponse<NewsItem>)
    ensures fetched.Threw? ==> r == Failed(500, FailureMessage)
    ensures fetched.Returned? ==> r.status == 200 && r.success && r.count == Some(|r.data|)
  {
    match fetched
    case Threw => Failed(500, FailureMessage)
    case Returned(items) => Succeeded(AiData(items))
  }

  /**
   * When some item is AI-related the data is exactly the AI-related items,
   * each as often as the feed holds it, in their original order; when none
   * is, the data is the whole list.
   */
  lemma AiDataRules(items: seq<NewsItem>)
    ensures (exists i :: 0 <= i < |items| && AiRelated(items[i])) ==>
      && (forall x :: x in AiData(items) <==> x in items && AiRelated(x))
      && Seqs.CountsKept(AiData(items), items, AiRelated)
      && Seqs.IsSubseq(AiData(items), items)
    ensures (forall i :: 0 <= i < |items| ==> !AiRelated(items[i])) ==> AiData(items) == items
  {
    var ai := Seqs.Filter(items, AiRelated);
    assert AiData(items) == if |ai| > 0 then ai else items;
    FallbackRules(items, AiRelated);
  }

  /** The filter-or-everything choice, for any keep test. */
  lemma FallbackRules<T>(s: seq<T>, p: T -> bool)
    ensures var f := Seqs.Filter(s, p);
      var data := if |f| > 0 then f else s;
      && ((exists i :: 0 <= i < |s| && p(s[i])) ==>
            && (forall x :: x in data <==> x in s && p(x))
            && Seqs.CountsKept(data, s, p)
            && Seqs.IsSubseq(data, s))
      && ((forall i :: 0 <= i < |s| ==> !p(s[i])) ==> data == s)
  {
    Seqs.FilterKeeps(s, p);
    if i :| 0 <= i < |s| && p(s[i]) {
      assert s[i] in Seqs.Filter(s, p);
    }
  }

  /** The answer's data is never shorter than the AI items and never longer than the feed. */
  lemma AiDataBounds(items: seq<NewsItem>)
    ensures |AiNews(items)| <= |AiData(items)| <= |items|
    ensures AiData(items) == [] <==> items == []
  {
  }
}
