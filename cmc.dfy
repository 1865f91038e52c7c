/**
 * lib/cmc.ts: CoinMarketCap listings mapped to tokens, the quotes response
 * turned into a symbol-to-price map, and the two-pass airdrop page scraper.
 * The API key is a parameter: an empty key is the "not configured" case.
 */
module Cmc {
  import opened Wrappers
  import opened Strs
  import opened Types
  import Seqs
  import JsMap

  // ---------------------------------------------------------------------------
  // fetchCMCTopTokens

  /** The `quote.USD` object of a listing. */
  datatype UsdQuote = UsdQuote(
    price: real,
    volume24h: real,
    percentChange1h: real,
    percentChange24h: real,
    percentChange7d: real,
    marketCap: real)

  /** One entry of the listings response; `usd` is absent when the entry has no USD quote. */
  datatype CmcListing = CmcListing(
    id: nat,
    name: string,
    symbol: string,
    slug: string,
    cmcRank: int,
    usd: Option<UsdQuote>)

  const CoinImageBase := "https://s2.coinmarketcap.com/static/img/coins/64x64/"

  function ListingToken(l: CmcListing): Token
    requires l.usd.Some?
  {
    var q := l.usd.value;
    Token(
      id := "cmc-" + NatToString(l.id),
      name := l.name,
      symbol := l.symbol,
      price := q.price,
      priceChange24h := q.percentChange24h,
      priceChange1h := Some(q.percentChange1h),
      priceChange7d := Some(q.percentChange7d),
      volume24h := Some(q.volume24h),
      marketCap := Some(q.marketCap),
      image := Some(CoinImageBase + NatToString(l.id) + ".png"),
      rank := Some(l.cmcRank),
      coinId := l.slug)
  }

  /**
   * `fetchCMCTopTokens`: `response` is the listings request's outcome, with
   * `None` when the body has no `data`. A listing without a USD quote makes
   * the mapping throw, which the handler turns into the empty list.
   */
  function FetchCMCTopTokens(key: string, response: Outcome<Option<seq<CmcListing>>>): (r: seq<Token>)
    ensures key == "" || response.Threw? || response.value.None? ==> r == []
    ensures key != "" && response.Returned? && response.value.Some? ==>
      var listings := response.value.value;
      if forall i :: 0 <= i < |listings| ==> listings[i].usd.Some? then
        |r| == |listings|
        && forall i :: 0 <= i < |r| ==>
             r[i].id == "cmc-" + NatToString(listings[i].id)
             && r[i].name == listings[i].name && r[i].symbol == listings[i].symbol
             && r[i].price == listings[i].usd.value.price
             && r[i].rank == Some(listings[i].cmcRank)
             && r[i].coinId == listings[i].slug
             && r[i].image == Some(CoinImageBase + NatToString(listings[i].id) + ".png")
      else r == []
  {
    if key == "" then []
    else match response
      case Threw => []
      case Returned(None) => []
      case Returned(Some(listings)) =>
        if forall i :: 0 <= i < |listings| ==> listings[i].usd.Some? then
          seq(|listings|, i requires 0 <= i < |listings| && listings[i].usd.Some? => ListingToken(listings[i]))
        else []
  }

  // ---------------------------------------------------------------------------
  // fetchCMCPrices

  /** One value of the quotes response; `usdPrice` is absent when the quote, its USD entry or its price is. */
  datatype CmcQuote = CmcQuote(symbol: string, usdPrice: Option<real>)

  /** The price is truthy: present and not zero. */
  predicate Priced(q: CmcQuote) {
    q.usdPrice.Some? && q.usdPrice.value != 0.0
  }

  function PriceEntry(q: CmcQuote, k: nat): Option<(string, real)> {
    if Priced(q) then Some((q.symbol, q.usdPrice.value)) else None
  }

  /** The `priceMap.set` calls the quotes make, in response order. */
  function PricePairs(quotes: seq<CmcQuote>): seq<(string, real)> {
    Seqs.Collect(quotes, PriceEntry, |quotes|)
  }

  /** The map `fetchCMCPrices` resolves to. */
  function PriceMap(key: string, response: Outcome<Option<seq<CmcQuote>>>): JsMap.Entries<string, real> {
    if key == "" then []
    else match response
      case Returned(Some(quotes)) => JsMap.FromPairs(PricePairs(quotes))
      case _ => []
  }

  /** `fetchCMCPrices`: a `forEach` over the quotes that sets each priced symbol. */
  method FetchCMCPrices(key: string, response: Outcome<Option<seq<CmcQuote>>>)
    returns (priceMap: JsMap.Entries<string, real>)
    ensures priceMap == PriceMap(key, response)
  {
    if key == "" || response.Threw? || response.value.None? {
      return [];
    }
    var quotes := response.value.value;
    priceMap := [];
    var i := 0;
    while i < |quotes|
      invariant 0 <= i <= |quotes|
      invariant priceMap == JsMap.FromPairs(Seqs.Collect(quotes, PriceEntry, i))
    {
      var q := quotes[i];
      ghost var before := Seqs.Collect(quotes, PriceEntry, i);
      if q.usdPrice.Some? && q.usdPrice.value != 0.0 {
        ghost var pair := (q.symbol, q.usdPrice.value);
        assert Seqs.Collect(quotes, PriceEntry, i + 1) == before + [pair];
        assert (before + [pair])[..|before|] == before;
        priceMap := JsMap.Set(priceMap, q.symbol, q.usdPrice.value);
      } else {
        assert Seqs.Collect(quotes, PriceEntry, i + 1) == before;
      }
      i := i + 1;
    }
  }

  /**
   * The price map has one key per symbol that some quote prices (non-zero),
   * holds the price of the last such quote, and never a zero price; without
   * a key, or on a failed request, it is empty.
   */
  lemma PriceMapEntries(key: string, quotes: seq<CmcQuote>, sym: string)
    requires key != ""
    ensures var m := PriceMap(key, Returned(Some(quotes)));
      && JsMap.KeysDistinct(m)
      && JsMap.Get(m, sym) == JsMap.LastFor(PricePairs(quotes), sym)
      && (JsMap.Get(m, sym).Some? <==> exists k :: 0 <= k < |quotes| && Priced(quotes[k]) && quotes[k].symbol == sym)
      && (JsMap.Get(m, sym).Some? ==> JsMap.Get(m, sym).value != 0.0)
  {
    var pairs := PricePairs(quotes);
    JsMap.FromPairsLastWins(pairs);
    PricePairsFromPriced(quotes, sym);
  }

  /** The pairs set into the map come from the priced quotes, and from all of them. */
  lemma PricePairsFromPriced(quotes: seq<CmcQuote>, sym: string)
    ensures var got := JsMap.LastFor(PricePairs(quotes), sym);
      && (got.Some? <==> exists k :: 0 <= k < |quotes| && Priced(quotes[k]) && quotes[k].symbol == sym)
      && (got.Some? ==> got.value != 0.0)
  {
    var pairs := PricePairs(quotes);
    var got := JsMap.LastFor(pairs, sym);
    if got.Some? {
      var j :| 0 <= j < |pairs| && pairs[j] == (sym, got.value);
      PairFromPriced(quotes, j);
    }
    if exists k :: 0 <= k < |quotes| && Priced(quotes[k]) && quotes[k].symbol == sym {
      var k :| 0 <= k < |quotes| && Priced(quotes[k]) && quotes[k].symbol == sym;
      PricedGivesPair(quotes, k);
      var j :| 0 <= j < |pairs| && pairs[j] == (sym, quotes[k].usdPrice.value);
      assert JsMap.Keys(pairs)[j] == sym;
    }
  }

  lemma PairFromPriced(quotes: seq<CmcQuote>, j: nat)
    requires j < |PricePairs(quotes)|
    ensures exists k :: 0 <= k < |quotes| && Priced(quotes[k])
                        && PricePairs(quotes)[j] == (quotes[k].symbol, quotes[k].usdPrice.value)
  {
    Seqs.CollectImage(quotes, PriceEntry, |quotes|);
    var k := Seqs.Hits(quotes, PriceEntry, |quotes|)[j];
    assert PriceEntry(quotes[k], k) == Some(PricePairs(quotes)[j]);
  }

  lemma PricedGivesPair(quotes: seq<CmcQuote>, k: nat)
    requires k < |quotes| && Priced(quotes[k])
    ensures exists j :: 0 <= j < |PricePairs(quotes)|
                        && PricePairs(quotes)[j] == (quotes[k].symbol, quotes[k].usdPrice.value)
  {
    Seqs.CollectImage(quotes, PriceEntry, |quotes|);
    var hits := Seqs.Hits(quotes, PriceEntry, |quotes|);
    assert PriceEntry(quotes[k], k).Some?;
    var j :| 0 <= j < |hits| && hits[j] == k;
    assert PricePairs(quotes)[j] == (quotes[k].symbol, quotes[k].usdPrice.value);
  }

  // ---------------------------------------------------------------------------
  // fetchCMCAirdrops

  /** A table row or airdrop element of the first pass: the raw text the code reads, before trimming. */
  datatype CmcRow = CmcRow(
    projectName: string,
    participants: string,
    rewards: string,
    started: string,
    ended: string,
    status: string,
    href: Option<string>)

  /** An airdrop card, campaign or article of the second pass. */
  datatype CmcCard = CmcCard(title: string, href: Option<string>, description: string)

  datatype CmcPage = CmcPage(rows: seq<CmcRow>, cards: seq<CmcCard>)

  const CmcOrigin := "https://coinmarketcap.com"
  const AirdropIndex := "https://coinmarketcap.com/airdrop/"
  const LoadingPlaceholder := "Loading data..."

  /** First-pass link: absolute kept, root-relative on the origin, anything else under the airdrop index. */
  function RowLink(link: string): string {
    if StartsWith(link, "http") then link
    else if StartsWith(link, "/") then CmcOrigin + link
    else AirdropIndex + link
  }

  /** Card-pass link: as in the first pass, except that any other href collapses to the airdrop index. */
  function CardLink(link: string): string {
    if StartsWith(link, "http") then link
    else if StartsWith(link, "/") then CmcOrigin + link
    else AirdropIndex
  }

  /** Both passes produce absolute links; only the first pass keeps a bare relative href. */
  lemma LinkRules(link: string)
    ensures StartsWith(RowLink(link), "http") && StartsWith(CardLink(link), "http")
    ensures StartsWith(link, "http") ==> RowLink(link) == link && CardLink(link) == link
    ensures !StartsWith(link, "http") && StartsWith(link, "/") ==>
      RowLink(link) == CmcOrigin + link && CardLink(link) == CmcOrigin + link
    ensures !StartsWith(link, "http") && !StartsWith(link, "/") ==>
      RowLink(link) == AirdropIndex + link && CardLink(link) == AirdropIndex
  {
    if !StartsWith(link, "http") {
      if StartsWith(link, "/") {
        assert (CmcOrigin + link)[..4] == "http";
      } else {
        assert (AirdropIndex + link)[..4] == "http";
        assert AirdropIndex[..4] == "http";
      }
    }
  }

  predicate RowQualifies(row: CmcRow) {
    Trim(row.projectName) != "" && Trim(row.projectName) != LoadingPlaceholder
  }

  /** The scraped status, else what the dates say. */
  function RowStatus(status: string, started: string, ended: string): string {
    if status != "" then status
    else if ended != "" then "Ended"
    else if started != "" then "Active"
    else "Upcoming"
  }

  function RowDescription(started: string, ended: string): Option<string> {
    if started != "" && ended != "" then Some("Started: " + started + ", Ended: " + ended)
    else if started != "" then Some("Started: " + started)
    else None
  }

  function RowAirdrop(row: CmcRow, index: nat, now: nat): Airdrop {
    var participants := Trim(row.participants);
    var link := RowLink(OrEmpty(row.href));
    Airdrop(
      id := "cmc-airdrop-" + NatToString(index) + "-" + NatToString(now),
      title := Trim(row.projectName),
      link := OrElse(Some(link), AirdropIndex),
      reward := NonEmpty(Trim(row.rewards)),
      category := if participants != "" then Some("Participants: " + participants) else None,
      status := Some(RowStatus(Trim(row.status), Trim(row.started), Trim(row.ended))),
      description := RowDescription(Trim(row.started), Trim(row.ended)))
  }

  function RowItem(row: CmcRow, index: nat, now: nat): Option<Airdrop> {
    if RowQualifies(row) then Some(RowAirdrop(row, index, now)) else None
  }

  function RowStep(now: nat): (CmcRow, nat) -> Option<Airdrop> {
    (row: CmcRow, k: nat) => RowItem(row, k, now)
  }

  /** A card needs a title of more than three characters. */
  predicate CardQualifies(c: CmcCard) {
    |Trim(c.title)| > 3
  }

  function CardAirdrop(c: CmcCard, index: nat, now: nat): Airdrop {
    Airdrop(
      id := "cmc-airdrop-card-" + NatToString(index) + "-" + NatToString(now),
      title := Trim(c.title),
      link := CardLink(OrEmpty(c.href)),
      reward := None,
      category := None,
      status := Some("Active"),
      description := NonEmpty(Trim(c.description)))
  }

  function CardItem(c: CmcCard, index: nat, now: nat): Option<Airdrop> {
    if CardQualifies(c) then Some(CardAirdrop(c, index, now)) else None
  }

  function CardStep(now: nat): (CmcCard, nat) -> Option<Airdrop> {
    (c: CmcCard, k: nat) => CardItem(c, k, now)
  }

  function RowPass(rows: seq<CmcRow>, now: nat): seq<Airdrop> {
    Seqs.Collect(rows, RowStep(now), |rows|)
  }

  function CardPass(cards: seq<CmcCard>, now: nat): seq<Airdrop> {
    Seqs.Collect(cards, CardStep(now), |cards|)
  }

  /** The pass whose items are returned: the rows, or the cards when no row gave an item. */
  function ChosenPass(p: CmcPage, now: nat): seq<Airdrop> {
    var rows := RowPass(p.rows, now);
    if |rows| == 0 then CardPass(p.cards, now) else rows
  }

  /** What `fetchCMCAirdrops(limit)` resolves to for the page outcome. */
  function CmcAirdrops(page: Outcome<CmcPage>, limit: ParsedInt, now: nat): (r: seq<Airdrop>)
    ensures page.Threw? ==> r == []
  {
    match page
    case Threw => []
    case Returned(p) => Seqs.JsSlice(ChosenPass(p, now), 0, ToInteger(limit))
  }

  /** The first `.each` loop: push an item for every qualifying row. */
  method CollectRows(rows: seq<CmcRow>, now: nat) returns (airdrops: seq<Airdrop>)
    ensures airdrops == RowPass(rows, now)
  {
    airdrops := [];
    for i := 0 to |rows|
      invariant airdrops == Seqs.Collect(rows, RowStep(now), i)
    {
      if RowQualifies(rows[i]) {
        airdrops := airdrops + [RowAirdrop(rows[i], i, now)];
      }
    }
  }

  /** The second `.each` loop: push an item for every qualifying card. */
  method CollectCards(cards: seq<CmcCard>, now: nat) returns (airdrops: seq<Airdrop>)
    ensures airdrops == CardPass(cards, now)
  {
    airdrops := [];
    for j := 0 to |cards|
      invariant airdrops == Seqs.Collect(cards, CardStep(now), j)
    {
      if CardQualifies(cards[j]) {
        airdrops := airdrops + [CardAirdrop(cards[j], j, now)];
      }
    }
  }

  /** `fetchCMCAirdrops`: the row pass, the card pass when it found nothing, then `slice(0, limit)`. */
  method FetchCMCAirdrops(page: Outcome<CmcPage>, limit: ParsedInt, now: nat) returns (airdrops: seq<Airdrop>)
    ensures airdrops == CmcAirdrops(page, limit, now)
  {
    if page.Threw? {
      return [];
    }
    airdrops := CollectRows(page.value.rows, now);
    if |airdrops| == 0 {
      airdrops := CollectCards(page.value.cards, now);
    }
    airdrops := Seqs.JsSlice(airdrops, 0, ToInteger(limit));
  }

  /**
   * The first-pass status: a non-empty scraped status wins, then "Ended"
   * when an end date was found, "Active" when only a start date was,
   * "Upcoming" otherwise; it is never empty.
   */
  lemma RowStatusRules(status: string, started: string, ended: string)
    ensures var r := RowStatus(status, started, ended);
      && r != ""
      && (status != "" ==> r == status)
      && (status == "" && ended != "" ==> r == "Ended")
      && (status == "" && ended == "" && started != "" ==> r == "Active")
      && (status == "" && ended == "" && started == "" ==> r == "Upcoming")
  {
  }

  /** A description exists exactly when a start date does, and begins with it. */
  lemma RowDescriptionRules(started: string, ended: string)
    ensures var d := RowDescription(started, ended);
      && (d.Some? <==> started != "")
      && (d.Some? ==> StartsWith(d.value, "Started: " + started))
  {
    if started != "" {
      var d := RowDescription(started, ended).value;
      var p := "Started: " + started;
      if ended != "" {
        assert d == p + (", Ended: " + ended);
      }
      assert d[..|p|] == p;
    }
  }

  /**
   * A first-pass item: its title is the trimmed name, its link absolute, and
   * a category exists exactly when participants were found.
   */
  lemma RowFields(row: CmcRow, index: nat, now: nat)
    requires RowQualifies(row)
    ensures var a := RowAirdrop(row, index, now);
      && a.title != "" && a.title != LoadingPlaceholder
      && a.link == RowLink(OrEmpty(row.href))
      && (a.category.Some? <==> Trim(row.participants) != "")
      && (a.category.Some? ==> StartsWith(a.category.value, "Participants: "))
  {
    var a := RowAirdrop(row, index, now);
    LinkRules(OrEmpty(row.href));
    if a.category.Some? {
      var c := a.category.value;
      assert c[..|"Participants: "|] == "Participants: ";
    }
  }

  /** An item as both passes build it: titled, with an absolute link and a status. */
  predicate WellFormed(a: Airdrop) {
    a.title != "" && StartsWith(a.link, "http") && a.status.Some?
  }

  lemma RowPassWellFormed(rows: seq<CmcRow>, now: nat)
    ensures forall j :: 0 <= j < |RowPass(rows, now)| ==> WellFormed(RowPass(rows, now)[j])
  {
    forall k | 0 <= k < |rows| && RowItem(rows[k], k, now).Some?
      ensures WellFormed(RowItem(rows[k], k, now).value)
    {
      RowFields(rows[k], k, now);
      LinkRules(OrEmpty(rows[k].href));
    }
    Seqs.CollectAll(rows, RowStep(now), |rows|, WellFormed);
  }

  lemma CardPassWellFormed(cards: seq<CmcCard>, now: nat)
    ensures forall j :: 0 <= j < |CardPass(cards, now)| ==> WellFormed(CardPass(cards, now)[j])
  {
    forall k | 0 <= k < |cards| && CardItem(cards[k], k, now).Some?
      ensures WellFormed(CardItem(cards[k], k, now).value)
    {
      LinkRules(OrEmpty(cards[k].href));
    }
    Seqs.CollectAll(cards, CardStep(now), |cards|, WellFormed);
  }

  /** Every returned item has a non-empty title, an absolute link and a status. */
  lemma CmcItemsWellFormed(page: Outcome<CmcPage>, limit: ParsedInt, now: nat)
    ensures forall a :: a in CmcAirdrops(page, limit, now) ==> WellFormed(a)
  {
    if page.Returned? {
      var p := page.value;
      RowPassWellFormed(p.rows, now);
      CardPassWellFormed(p.cards, now);
      Seqs.JsSliceWithin(ChosenPass(p, now), 0, ToInteger(limit));
    }
  }

  /**
   * Card items have a title of more than three characters, carry no reward
   * or category and have status "Active"; the card pass is used only when no
   * row qualifies.
   */
  lemma CardPassShape(cards: seq<CmcCard>, now: nat)
    ensures forall a :: a in CardPass(cards, now) ==>
      |a.title| > 3 && a.reward.None? && a.category.None? && a.status == Some("Active")
  {
    var P := (a: Airdrop) => |a.title| > 3 && a.reward.None? && a.category.None? && a.status == Some("Active");
    Seqs.CollectAll(cards, CardStep(now), |cards|, P);
  }

  lemma ChosenPassRule(p: CmcPage, now: nat)
    ensures (exists k :: 0 <= k < |p.rows| && RowQualifies(p.rows[k])) ==>
      ChosenPass(p, now) == RowPass(p.rows, now) && |ChosenPass(p, now)| > 0
    ensures (forall k :: 0 <= k < |p.rows| ==> !RowQualifies(p.rows[k])) ==>
      ChosenPass(p, now) == CardPass(p.cards, now)
  {
    Seqs.CollectEmpty(p.rows, RowStep(now), |p.rows|);
  }

  /**
   * The `limit` rule: a non-negative limit keeps the first `limit` items; a
   * negative one drops that many from the end (slice semantics); an
   * unparsable one (NaN) keeps nothing.
   */
  lemma CmcLimit(p: CmcPage, limit: ParsedInt, now: nat)
    ensures var chosen := ChosenPass(p, now);
      var r := CmcAirdrops(Returned(p), limit, now);
      && (limit.Int? && limit.value >= 0 ==>
            r == chosen[..if limit.value < |chosen| then limit.value else |chosen|])
      && (limit.Int? && limit.value < 0 ==>
            r == chosen[..if |chosen| + limit.value < 0 then 0 else |chosen| + limit.value])
      && (limit.NaN? ==> r == [])
  {
  }
}
