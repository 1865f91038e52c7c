/**
 * lib/scraper.ts: the airdrops.io listing scraper. The HTML selector matching
 * is not modelled; its outcome is given as the candidates each selector
 * found, in document order, with the text and attributes the code reads.
 */
module Scraper {
  import opened Wrappers
  import opened Strs
  import opened Types
  import Seqs

  /** A primary-pass container: the raw text of its first title-like, reward-like, ... descendant. */
  datatype Card = Card(
    titleText: string,
    href: Option<string>,
    rewardText: string,
    categoryText: string,
    statusText: string,
    descriptionText: string)

  /** An anchor whose href mentions "airdrop" or "claim". */
  datatype Anchor = Anchor(text: string, titleAttr: Option<string>, href: Option<string>)

  /** What the selectors found on the loaded page. */
  datatype Page = Page(cards: seq<Card>, anchors: seq<Anchor>)

  const SiteOrigin := "https://airdrops.io"
  const MaxItems := 50

  /**
   * Link absolutization: an href starting with "http" is kept; any other is
   * resolved against the site origin, with a "/" added when missing.
   */
  function Absolutize(link: string): string {
    if StartsWith(link, "http") then link
    else SiteOrigin + (if StartsWith(link, "/") then link else "/" + link)
  }

  /** An absolutized link is absolute, and a relative one keeps its path under the origin. */
  lemma AbsolutizeRules(link: string)
    ensures StartsWith(Absolutize(link), "http")
    ensures StartsWith(link, "http") ==> Absolutize(link) == link
    ensures !StartsWith(link, "http") ==>
      Absolutize(link) == SiteOrigin + "/" + (if StartsWith(link, "/") then link[1..] else link)
  {
    if !StartsWith(link, "http") {
      var r := Absolutize(link);
      assert StartsWith(link, "/") ==> link == "/" + link[1..];
      assert r[..4] == "http";
    }
  }

  /** The primary pass keeps a container with a non-empty title and a non-empty first link. */
  predicate CardQualifies(c: Card) {
    Trim(c.titleText) != "" && OrEmpty(c.href) != ""
  }

  function CardAirdrop(c: Card, index: nat, now: nat): Airdrop {
    Airdrop(
      id := "airdrop-" + NatToString(index) + "-" + NatToString(now),
      title := Trim(c.titleText),
      link := Absolutize(OrEmpty(c.href)),
      reward := NonEmpty(Trim(c.rewardText)),
      category := NonEmpty(Trim(c.categoryText)),
      status := NonEmpty(Trim(c.statusText)),
      description := NonEmpty(Trim(c.descriptionText)))
  }

  /** What the container at `index` contributes to the primary pass. */
  function CardItem(c: Card, index: nat, now: nat): Option<Airdrop> {
    if CardQualifies(c) then Some(CardAirdrop(c, index, now)) else None
  }

  function CardStep(now: nat): (Card, nat) -> Option<Airdrop> {
    (c: Card, k: nat) => CardItem(c, k, now)
  }

  /** The fallback title: the trimmed anchor text, else the title attribute. */
  function AnchorTitle(a: Anchor): string {
    if Trim(a.text) != "" then Trim(a.text) else OrElse(a.titleAttr, "")
  }

  /** What the anchor at `index` contributes to the fallback pass: only id, title and link. */
  function AnchorItem(a: Anchor, index: nat, now: nat): Option<Airdrop> {
    var title := AnchorTitle(a);
    var link := OrEmpty(a.href);
    if title != "" && link != "" then
      Some(Airdrop("airdrop-fallback-" + NatToString(index) + "-" + NatToString(now),
                   title, Absolutize(link), None, None, None, None))
    else None
  }

  function AnchorStep(now: nat): (Anchor, nat) -> Option<Airdrop> {
    (a: Anchor, k: nat) => AnchorItem(a, k, now)
  }

  function PrimaryPass(cards: seq<Card>, now: nat): seq<Airdrop> {
    Seqs.Collect(cards, CardStep(now), |cards|)
  }

  function FallbackPass(anchors: seq<Anchor>, now: nat): seq<Airdrop> {
    Seqs.Collect(anchors, AnchorStep(now), |anchors|)
  }

  /**
   * The result of `scrapeAirdrops` for the page outcome (`Threw` for a failed
   * request or parse): the primary pass, or the anchor pass when the primary
   * pass found nothing, cut to 50 items.
   */
  function Scrape(page: Outcome<Page>, now: nat): (r: seq<Airdrop>)
    ensures |r| <= MaxItems
    ensures page.Threw? ==> r == []
  {
    match page
    case Threw => []
    case Returned(p) =>
      var primary := PrimaryPass(p.cards, now);
      Seqs.Take(if |primary| == 0 then FallbackPass(p.anchors, now) else primary, MaxItems)
  }

  /** `scrapeAirdrops`: two push loops over the candidates, then `slice(0, 50)`. */
  method ScrapeAirdrops(page: Outcome<Page>, now: nat) returns (airdrops: seq<Airdrop>)
    ensures airdrops == Scrape(page, now)
  {
    if page.Threw? {
      return [];
    }
    var cards, anchors := page.value.cards, page.value.anchors;
    airdrops := [];
    var i := 0;
    while i < |cards|
      invariant 0 <= i <= |cards|
      invariant airdrops == Seqs.Collect(cards, CardStep(now), i)
    {
      var c := cards[i];
      var title := Trim(c.titleText);
      var link := OrEmpty(c.href);
      if title != "" && link != "" {
        airdrops := airdrops + [CardAirdrop(c, i, now)];
      }
      i := i + 1;
    }
    if |airdrops| == 0 {
      var j := 0;
      while j < |anchors|
        invariant 0 <= j <= |anchors|
        invariant airdrops == Seqs.Collect(anchors, AnchorStep(now), j)
      {
        var a := anchors[j];
        var title := AnchorTitle(a);
        var link := OrEmpty(a.href);
        if title != "" && link != "" {
          airdrops := airdrops + [AnchorItem(a, j, now).value];
        }
        j := j + 1;
      }
    }
    airdrops := Seqs.Take(airdrops, MaxItems);
  }

  /**
   * The primary pass emits one item per qualifying container, in document
   * order: item j is built from the container at the j-th qualifying index,
   * and no qualifying container is skipped.
   */
  lemma PrimaryPassOrder(cards: seq<Card>, now: nat)
    ensures var items := PrimaryPass(cards, now);
      var hits := Seqs.Hits(cards, CardStep(now), |cards|);
      && |hits| == |items|
      && (forall j :: 0 <= j < |hits| ==>
            hits[j] < |cards| && CardQualifies(cards[hits[j]])
            && items[j] == CardAirdrop(cards[hits[j]], hits[j], now))
      && (forall i, j :: 0 <= i < j < |hits| ==> hits[i] < hits[j])
      && (forall k :: 0 <= k < |cards| && CardQualifies(cards[k]) ==> k in hits)
  {
    Seqs.CollectImage(cards, CardStep(now), |cards|);
  }

  /**
   * Every scraped item has a non-empty title and an absolute link; empty
   * reward, category, status and description texts are absent fields, and
   * fallback items carry only id, title and link.
   */
  lemma ScrapedItemsWellFormed(page: Outcome<Page>, now: nat)
    ensures forall a :: a in Scrape(page, now) ==>
      a.title != "" && StartsWith(a.link, "http")
      && a.reward != Some("") && a.category != Some("")
      && a.status != Some("") && a.description != Some("")
  {
    if page.Returned? {
      var p := page.value;
      var P := (a: Airdrop) => a.title != "" && StartsWith(a.link, "http")
        && a.reward != Some("") && a.category != Some("")
        && a.status != Some("") && a.description != Some("");
      forall k | 0 <= k < |p.cards| && CardItem(p.cards[k], k, now).Some?
        ensures P(CardItem(p.cards[k], k, now).value)
      {
        AbsolutizeRules(OrEmpty(p.cards[k].href));
      }
      forall k | 0 <= k < |p.anchors| && AnchorItem(p.anchors[k], k, now).Some?
        ensures P(AnchorItem(p.anchors[k], k, now).value)
      {
        AbsolutizeRules(OrEmpty(p.anchors[k].href));
      }
      Seqs.CollectAll(p.cards, CardStep(now), |p.cards|, P);
      Seqs.CollectAll(p.anchors, AnchorStep(now), |p.anchors|, P);
    }
  }

  lemma FallbackItemsBare(anchors: seq<Anchor>, now: nat)
    ensures forall a :: a in FallbackPass(anchors, now) ==>
      a.reward.None? && a.category.None? && a.status.None? && a.description.None?
      && StartsWith(a.id, "airdrop-fallback-")
  {
    var P := (a: Airdrop) => a.reward.None? && a.category.None? && a.status.None? && a.description.None?
      && StartsWith(a.id, "airdrop-fallback-");
    forall k | 0 <= k < |anchors| && AnchorItem(anchors[k], k, now).Some?
      ensures P(AnchorItem(anchors[k], k, now).value)
    {
      var id := "airdrop-fallback-" + NatToString(k) + "-" + NatToString(now);
      assert id[..|"airdrop-fallback-"|] == "airdrop-fallback-";
    }
    Seqs.CollectAll(anchors, AnchorStep(now), |anchors|, P);
  }

  /**
   * The anchor pass runs only when no container qualifies: if one does, the
   * result is non-empty and holds no fallback item; if none does, the result
   * is the anchor pass cut to 50.
   */
  lemma ScrapePrefersPrimary(p: Page, now: nat, k: nat)
    requires k < |p.cards| && CardQualifies(p.cards[k])
    ensures var r := Scrape(Returned(p), now);
      |r| > 0 && forall a :: a in r ==> !StartsWith(a.id, "airdrop-fallback-")
  {
    var primary := PrimaryPass(p.cards, now);
    Seqs.CollectEmpty(p.cards, CardStep(now), |p.cards|);
    PrimaryIdsNotFallback(p.cards, now);
    var r := Scrape(Returned(p), now);
    assert r == primary[..|r|];
    forall a | a in r ensures a in primary {
      var j :| 0 <= j < |r| && r[j] == a;
      assert primary[j] == a;
    }
  }

  lemma PrimaryIdsNotFallback(cards: seq<Card>, now: nat)
    ensures forall a :: a in PrimaryPass(cards, now) ==> !StartsWith(a.id, "airdrop-fallback-")
  {
    var P := (a: Airdrop) => !StartsWith(a.id, "airdrop-fallback-");
    forall i | 0 <= i < |cards| && CardItem(cards[i], i, now).Some?
      ensures P(CardItem(cards[i], i, now).value)
    {
      CardIdNotFallback(i, now);
    }
    Seqs.CollectAll(cards, CardStep(now), |cards|, P);
  }

  lemma ScrapeFallsBack(p: Page, now: nat)
    requires forall k :: 0 <= k < |p.cards| ==> !CardQualifies(p.cards[k])
    ensures Scrape(Returned(p), now) == Seqs.Take(FallbackPass(p.anchors, now), MaxItems)
  {
    Seqs.CollectEmpty(p.cards, CardStep(now), |p.cards|);
  }

  /** A primary-pass id has a digit where a fallback id has "fallback". */
  lemma CardIdNotFallback(index: nat, now: nat)
    ensures !StartsWith("airdrop-" + NatToString(index) + "-" + NatToString(now), "airdrop-fallback-")
  {
    var head := "airdrop-";
    var digits := NatToString(index);
    var id := head + (digits + "-" + NatToString(now));
    var prefix := "airdrop-fallback-";
    assert |head| == 8 && prefix[8] == 'f';
    assert id[8] == digits[0];
    if |prefix| <= |id| {
      assert id[..|prefix|][8] == id[8];
    }
  }

  /** The 50-item cap keeps the chosen pass's first items in document order. */
  lemma ScrapeIsPrefix(p: Page, now: nat)
    ensures var primary := PrimaryPass(p.cards, now);
      var chosen := if |primary| == 0 then FallbackPass(p.anchors, now) else primary;
      var r := Scrape(Returned(p), now);
      |r| == (if |chosen| < MaxItems then |chosen| else MaxItems) && r == chosen[..|r|]
  {
  }
}
