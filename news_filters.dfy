/**
 * components/NewsFilters.tsx: the news list's source picker and ordering.
 * The picker offers each source once, in ascending order; the list shows
 * the items of the chosen source (or all of them), newest first or by
 * source name. Both `sort()` and `localeCompare` are taken as comparing
 * strings character code by character code.
 */
module NewsFilters {
  import opened Types
  import Seqs
  import Sorting
  import Rss

  /** The "all sources" choice of the picker. */
  const AllSources := "all"

  datatype SortMode = ByDate | BySource

  /** Lexicographic order on character codes: `a` sorts strictly before `b`. */
  predicate StrLess(a: string, b: string)
    decreases |a|
  {
    if a == [] then b != []
    else if b == [] then false
    else if a[0] != b[0] then a[0] < b[0]
    else StrLess(a[1..], b[1..])
  }

  lemma {:induction false} StrLessAsymmetric(a: string, b: string)
    ensures StrLess(a, b) ==> !StrLess(b, a)
    decreases |a|
  {
    if a != [] && b != [] && a[0] == b[0] {
      StrLessAsymmetric(a[1..], b[1..]);
    }
  }

  lemma {:induction false} StrLessTotal(a: string, b: string)
    ensures a != b ==> StrLess(a, b) || StrLess(b, a)
    decreases |a|
  {
    if a != [] && b != [] && a[0] == b[0] {
      StrLessTotal(a[1..], b[1..]);
      if a[1..] == b[1..] {
        assert a == [a[0]] + a[1..] && b == [b[0]] + b[1..];
      }
    }
  }

  lemma {:induction false} StrLessTransitive(a: string, b: string, c: string)
    ensures StrLess(a, b) && StrLess(b, c) ==> StrLess(a, c)
    decreases |a|
  {
    if a != [] && b != [] && c != [] && a[0] == b[0] == c[0] {
      StrLessTransitive(a[1..], b[1..], c[1..]);
    }
  }

  /** The default string order is a strict weak order (indeed a total one). */
  lemma StrLessIsStrictWeakOrder()
    ensures Sorting.StrictWeakOrder(StrLess)
  {
    forall a, b ensures StrLess(a, b) ==> !StrLess(b, a) {
      StrLessAsymmetric(a, b);
    }
    forall a, b, c | !StrLess(a, b) && !StrLess(b, c) ensures !StrLess(a, c) {
      StrLessTotal(a, b);
      StrLessTotal(b, c);
      StrLessTransitive(b, a, c);
      StrLessTransitive(a, c, b);
    }
  }

  /** `Array.from(new Set(news.map(item => item.source))).sort()`. */
  function Sources(news: seq<NewsItem>): seq<string> {
    var all := seq(|news|, i requires 0 <= i < |news| => news[i].source);
    Sorting.SortBy(Seqs.Dedupe(all), StrLess)
  }

  /** The picker's filter: everything for "all", else the items of that source. */
  function Filtered(news: seq<NewsItem>, selected: string): seq<NewsItem> {
    if selected == AllSources then news
    else Seqs.Filter(news, (item: NewsItem) => item.source == selected)
  }

  predicate SourceBefore(a: NewsItem, b: NewsItem) {
    StrLess(a.source, b.source)
  }

  function Order(mode: SortMode): (NewsItem, NewsItem) -> bool {
    match mode
    case ByDate => Rss.NewerFirst
    case BySource => SourceBefore
  }

  /** `filteredAndSorted`: a sorted copy of the filtered list. */
  function FilteredAndSorted(news: seq<NewsItem>, selected: string, mode: SortMode): seq<NewsItem> {
    Sorting.SortBy(Filtered(news, selected), Order(mode))
  }

  /** The picker lists each source of the news exactly once, in ascending order. */
  lemma SourcesDistinctSorted(news: seq<NewsItem>)
    ensures var s := Sources(news);
      && Seqs.NoDup(s)
      && Sorting.SortedBy(s, StrLess)
      && (forall x :: x in s <==> exists i :: 0 <= i < |news| && news[i].source == x)
  {
    var all := seq(|news|, i requires 0 <= i < |news| => news[i].source);
    var d := Seqs.Dedupe(all);
    StrLessIsStrictWeakOrder();
    Sorting.SortFacts(d, StrLess);
    Seqs.PermutationNoDup(d, Sorting.SortBy(d, StrLess));
    var s := Sorting.SortBy(d, StrLess);
    forall x ensures x in s <==> exists i :: 0 <= i < |news| && news[i].source == x {
      assert x in s <==> x in multiset(d);
      if x in d {
        var j :| 0 <= j < |d| && d[j] == x;
        assert d[j] in all;
      }
      if i :| 0 <= i < |news| && news[i].source == x {
        assert all[i] == x;
      }
    }
  }

  /**
   * "all" keeps every item; any other choice keeps exactly that source's
   * items, each as often as the news holds it, in order.
   */
  lemma FilterRule(news: seq<NewsItem>, selected: string)
    ensures selected == AllSources ==> Filtered(news, selected) == news
    ensures selected != AllSources ==>
      && (forall x :: x in Filtered(news, selected) <==> x in news && x.source == selected)
      && Seqs.CountsKept(Filtered(news, selected), news, (item: NewsItem) => item.source == selected)
      && Seqs.IsSubseq(Filtered(news, selected), news)
  {
    if selected != AllSources {
      Seqs.FilterKeeps(news, (item: NewsItem) => item.source == selected);
    }
  }

  lemma SourceBeforeIsStrictWeakOrder()
    ensures Sorting.StrictWeakOrder(SourceBefore)
  {
    StrLessIsStrictWeakOrder();
  }

  /**
   * The shown list rearranges the filtered items and no others, at most as
   * many as there are articles: newest first in date mode, by source in
   * source mode, and in their original order among ties.
   */
  lemma ShownListRules(news: seq<NewsItem>, selected: string, mode: SortMode)
    ensures var shown := FilteredAndSorted(news, selected, mode);
      && multiset(shown) == multiset(Filtered(news, selected))
      && |shown| == |Filtered(news, selected)| <= |news|
      && (mode == ByDate ==> forall i, j :: 0 <= i < j < |shown| ==> shown[i].pubDate >= shown[j].pubDate)
      && (mode == BySource ==> forall i, j :: 0 <= i < j < |shown| ==> !StrLess(shown[j].source, shown[i].source))
      && (forall e :: Sorting.TiedWith(shown, e, Order(mode)) == Sorting.TiedWith(Filtered(news, selected), e, Order(mode)))
  {
    var f := Filtered(news, selected);
    if mode == ByDate {
      Rss.NewerFirstIsStrictWeakOrder();
    } else {
      SourceBeforeIsStrictWeakOrder();
    }
    Sorting.SortFacts(f, Order(mode));
  }
}
