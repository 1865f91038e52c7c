/**
 * lib/coinbase.ts: the Coinbase products listing turned into a volume-ranked
 * token list, per-id price lookups on the same listing, and the airdrop
 * stub. The API key is a parameter; a key shorter than 20 characters (the
 * empty key included) is the "not configured" case.
 */
module Coinbase {
  import opened Wrappers
  import opened Strs
  import opened Types
  import Seqs
  import Sorting

  /**
   * The fields of a product the code reads. The numeric strings are given
   * as parsed numbers; `None` stands for an absent or empty string.
   */
  datatype Product = Product(
    productId: string,
    price: Option<real>,
    priceChange24h: Option<real>,
    volume24h: Option<real>,
    baseName: string,
    baseDisplaySymbol: string,
    baseCurrencyId: string,
    quoteCurrencyId: string,
    status: string,
    isDisabled: bool,
    tradingDisabled: bool)

  const MinKeyLength := 20
  const DefaultLimit := 200

  predicate KeyConfigured(key: string) {
    |key| >= MinKeyLength
  }

  /** `a || b` on two strings: the empty string is falsy. */
  function StrOr(a: string, b: string): string {
    if a != "" then a else b
  }

  // ---------------------------------------------------------------------------
  // fetchCoinbaseTopTokens

  /** The product filter: USD-quoted, online, enabled and open for trading. */
  predicate Listed(p: Product) {
    p.quoteCurrencyId == "USD" && p.status == "online" && !p.isDisabled && !p.tradingDisabled
  }

  /** `parseFloat(volume_24h || '0')`. */
  function Volume(p: Product): real {
    p.volume24h.GetOr(0.0)
  }

  /** The comparator `volB - volA`: the product with the larger volume goes first. */
  predicate HigherVolume(a: Product, b: Product) {
    Volume(a) > Volume(b)
  }

  lemma HigherVolumeIsStrictWeakOrder()
    ensures Sorting.StrictWeakOrder(HigherVolume)
  {
  }

  /** The products that become tokens: filtered, sorted by volume, then `slice(0, limit)`. */
  function Ranked(products: seq<Product>, limit: int): seq<Product> {
    Seqs.JsSlice(Sorting.SortBy(Seqs.Filter(products, Listed), HigherVolume), 0, limit)
  }

  function ProductToken(p: Product, index: nat): Token {
    Token(
      id := "coinbase-" + p.productId,
      name := StrOr(p.baseName, p.baseDisplaySymbol),
      symbol := StrOr(p.baseDisplaySymbol, p.baseCurrencyId),
      price := p.price.GetOr(0.0),
      priceChange24h := p.priceChange24h.GetOr(0.0),
      priceChange1h := None,
      priceChange7d := None,
      volume24h := None,
      marketCap := None,
      image := None,
      rank := Some(index + 1),
      coinId := ToLower(p.productId))
  }

  /**
   * The result of `fetchCoinbaseTopTokens(limit)` for the products request's
   * outcome (`None` when the body has no `products`).
   */
  function TopTokens(key: string, response: Outcome<Option<seq<Product>>>, limit: Option<int>): (r: seq<Token>)
    ensures !KeyConfigured(key) || response.Threw? ==> r == []
    ensures limit.Some? && limit.value >= 0 ==> |r| <= limit.value
    ensures limit.None? ==> |r| <= DefaultLimit
  {
    if !KeyConfigured(key) || response.Threw? then []
    else
      var ranked := Ranked(response.value.GetOr([]), limit.GetOr(DefaultLimit));
      seq(|ranked|, k requires 0 <= k < |ranked| => ProductToken(ranked[k], k))
  }

  /**
   * `fetchCoinbaseTopTokens`: the filtered list is sorted, cut to the limit,
   * and a token is pushed for each remaining product in turn.
   */
  method FetchCoinbaseTopTokens(key: string, response: Outcome<Option<seq<Product>>>, limit: Option<int>)
    returns (tokens: seq<Token>)
    ensures tokens == TopTokens(key, response, limit)
  {
    if !KeyConfigured(key) || response.Threw? {
      return [];
    }
    var products := response.value.GetOr([]);
    var usdProducts := Seqs.Filter(products, Listed);
    usdProducts := Sorting.SortBy(usdProducts, HigherVolume);
    usdProducts := Seqs.JsSlice(usdProducts, 0, limit.GetOr(DefaultLimit));
    tokens := [];
    for i := 0 to |usdProducts|
      invariant |tokens| == i
      invariant forall k :: 0 <= k < i ==> tokens[k] == ProductToken(usdProducts[k], k)
    {
      tokens := tokens + [ProductToken(usdProducts[i], i)];
    }
  }

  /**
   * Each token is built from the product at its position: rank is the
   * position plus 1, the id is "coinbase-" + product id, the coin id is the
   * product id lowercased, the name falls back to the display symbol and the
   * symbol to the base currency, and neither market cap nor image is set.
   */
  lemma TopTokenFields(key: string, products: seq<Product>, limit: Option<int>, i: nat)
    requires KeyConfigured(key)
    requires i < |TopTokens(key, Returned(Some(products)), limit)|
    ensures var r := TopTokens(key, Returned(Some(products)), limit);
      var p := Ranked(products, limit.GetOr(DefaultLimit))[i];
      && |r| == |Ranked(products, limit.GetOr(DefaultLimit))|
      && r[i].rank == Some(i + 1)
      && r[i].id == "coinbase-" + p.productId
      && r[i].coinId == ToLower(p.productId)
      && r[i].name == (if p.baseName != "" then p.baseName else p.baseDisplaySymbol)
      && r[i].symbol == (if p.baseDisplaySymbol != "" then p.baseDisplaySymbol else p.baseCurrencyId)
      && r[i].marketCap.None? && r[i].image.None?
      && (p.price.Some? ==> r[i].price == p.price.value)
      && (p.price.None? ==> r[i].price == 0.0)
  {
  }

  /** Every ranked product is one of the response's products and passes the filter. */
  lemma RankedListed(products: seq<Product>, limit: int)
    ensures forall p :: p in Ranked(products, limit) ==> p in products && Listed(p)
  {
    var listed := Seqs.Filter(products, Listed);
    var sorted := Sorting.SortBy(listed, HigherVolume);
    Seqs.FilterKeeps(products, Listed);
    Sorting.SortPermutes(listed, HigherVolume);
    Seqs.JsSliceWithin(sorted, 0, limit);
    forall p | p in Ranked(products, limit) ensures p in products && Listed(p) {
      assert p in multiset(sorted);
    }
  }

  /** Ranked products come in non-increasing volume order. */
  lemma RankedByVolume(products: seq<Product>, limit: int)
    ensures var ranked := Ranked(products, limit);
      forall i, j :: 0 <= i < j < |ranked| ==> Volume(ranked[i]) >= Volume(ranked[j])
  {
    var sorted := Sorting.SortBy(Seqs.Filter(products, Listed), HigherVolume);
    HigherVolumeIsStrictWeakOrder();
    Sorting.SortSorted(Seqs.Filter(products, Listed), HigherVolume);
    var ranked := Ranked(products, limit);
    var from := Seqs.SliceIndex(0, |sorted|);
    assert from == 0;
    forall i, j | 0 <= i < j < |ranked| ensures Volume(ranked[i]) >= Volume(ranked[j]) {
      assert ranked[i] == sorted[i] && ranked[j] == sorted[j];
    }
  }

  /**
   * With a non-negative limit the result is the `limit` highest-volume listed
   * products: as many as the limit allows, each listed product at most as
   * often as it is listed, and no listed product left out has a larger
   * volume than one that was kept.
   */
  lemma RankedIsTop(products: seq<Product>, limit: int)
    requires limit >= 0
    ensures var listed := Seqs.Filter(products, Listed);
      var ranked := Ranked(products, limit);
      && |ranked| == (if limit < |listed| then limit else |listed|)
      && multiset(ranked) <= multiset(listed)
      && forall p, q :: p in ranked && q in listed && q !in ranked ==> Volume(q) <= Volume(p)
  {
    var listed := Seqs.Filter(products, Listed);
    var sorted := Sorting.SortBy(listed, HigherVolume);
    var n := RankedPrefix(products, limit);
    SortedPrefixFromListed(listed, n);
    forall p, q | p in sorted[..n] && q in listed && q !in sorted[..n] ensures Volume(q) <= Volume(p) {
      LeftOutRanksLower(listed, n, p, q);
    }
  }

  /** With a non-negative limit the slice keeps the first `min(limit, |listed|)` sorted products. */
  lemma RankedPrefix(products: seq<Product>, limit: int) returns (n: nat)
    requires limit >= 0
    ensures var listed := Seqs.Filter(products, Listed);
      && n == (if limit < |listed| then limit else |listed|)
      && |Sorting.SortBy(listed, HigherVolume)| == |listed|
      && Ranked(products, limit) == Sorting.SortBy(listed, HigherVolume)[..n]
  {
    var listed := Seqs.Filter(products, Listed);
    Sorting.SortPermutes(listed, HigherVolume);
    Seqs.SliceFromStart(Sorting.SortBy(listed, HigherVolume), limit);
    n := if limit < |listed| then limit else |listed|;
  }

  /** A prefix of the volume-sorted list takes each product at most as often as it is listed. */
  lemma SortedPrefixFromListed(listed: seq<Product>, n: nat)
    requires n <= |listed|
    ensures n <= |Sorting.SortBy(listed, HigherVolume)|
    ensures multiset(Sorting.SortBy(listed, HigherVolume)[..n]) <= multiset(listed)
  {
    var sorted := Sorting.SortBy(listed, HigherVolume);
    Sorting.SortPermutes(listed, HigherVolume);
    assert sorted == sorted[..n] + sorted[n..];
    assert multiset(sorted) == multiset(sorted[..n]) + multiset(sorted[n..]);
  }

  /** In the volume-sorted list, a product past the first `n` has no larger volume than one within them. */
  lemma LeftOutRanksLower(listed: seq<Product>, n: nat, p: Product, q: Product)
    requires var sorted := Sorting.SortBy(listed, HigherVolume);
      n <= |sorted| && p in sorted[..n] && q in listed && q !in sorted[..n]
    ensures Volume(q) <= Volume(p)
  {
    var sorted := Sorting.SortBy(listed, HigherVolume);
    HigherVolumeIsStrictWeakOrder();
    Sorting.SortSorted(listed, HigherVolume);
    Sorting.SortPermutes(listed, HigherVolume);
    assert q in multiset(sorted);
    var j :| 0 <= j < |sorted| && sorted[j] == q;
    var i :| 0 <= i < n && sorted[..n][i] == p;
    assert !HigherVolume(sorted[j], sorted[i]);
  }

  // ---------------------------------------------------------------------------
  // fetchCoinbasePrices

  /** `p.product_id.toLowerCase() === productId.toLowerCase()`. */
  predicate MatchesId(p: Product, id: string) {
    ToLower(p.productId) == ToLower(id)
  }

  /** `allProducts.find(...)`: the first product whose id matches, ignoring case. */
  function FindProduct(products: seq<Product>, id: string): (r: Option<Product>)
    ensures r.Some? ==> r.value in products && MatchesId(r.value, id)
    ensures r.Some? ==> exists i :: 0 <= i < |products| && products[i] == r.value
                          && forall j :: 0 <= j < i ==> !MatchesId(products[j], id)
    ensures r.None? ==> forall p :: p in products ==> !MatchesId(p, id)
    decreases |products|
  {
    if products == [] then None
    else if MatchesId(products[0], id) then Some(products[0])
    else
      var rest := FindProduct(products[1..], id);
      if rest.Some? then
        var i :| 0 <= i < |products[1..]| && products[1..][i] == rest.value
                 && forall j :: 0 <= j < i ==> !MatchesId(products[1..][j], id);
        assert products[i + 1] == rest.value;
        assert forall j :: 0 <= j < i + 1 ==> !MatchesId(products[j], id) by {
          forall j | 0 <= j < i + 1 ensures !MatchesId(products[j], id) {
            if j > 0 { assert products[j] == products[1..][j - 1]; }
          }
        }
        rest
      else rest
  }

  /** What the requested id contributes: an update when a product matches and has a price. */
  function PriceFor(products: seq<Product>, id: string, now: int): Option<PriceUpdate> {
    match FindProduct(products, id)
    case Some(p) =>
      if p.price.Some? then
        Some(PriceUpdate(p.productId, StrOr(p.baseDisplaySymbol, p.baseCurrencyId),
                         p.price.value, p.priceChange24h.GetOr(0.0), now))
      else None
    case None => None
  }

  function PriceStep(products: seq<Product>, now: int): (string, nat) -> Option<PriceUpdate> {
    (id: string, k: nat) => PriceFor(products, id, now)
  }

  /** The result of `fetchCoinbasePrices(productIds)` at time `now`. */
  function CoinbasePrices(key: string, response: Outcome<Option<seq<Product>>>, productIds: seq<string>, now: int)
    : (r: seq<PriceUpdate>)
    ensures !KeyConfigured(key) || response.Threw? ==> r == []
    ensures |r| <= |productIds|
  {
    if !KeyConfigured(key) || response.Threw? then []
    else Seqs.Collect(productIds, PriceStep(response.value.GetOr([]), now), |productIds|)
  }

  /** `fetchCoinbasePrices`: one lookup per requested id, pushing an update when it succeeds. */
  method FetchCoinbasePrices(key: string, response: Outcome<Option<seq<Product>>>, productIds: seq<string>, now: int)
    returns (prices: seq<PriceUpdate>)
    ensures prices == CoinbasePrices(key, response, productIds, now)
  {
    if !KeyConfigured(key) || response.Threw? {
      return [];
    }
    var allProducts := response.value.GetOr([]);
    prices := [];
    for i := 0 to |productIds|
      invariant prices == Seqs.Collect(productIds, PriceStep(allProducts, now), i)
    {
      ghost var step := PriceFor(allProducts, productIds[i], now);
      assert Seqs.Collect(productIds, PriceStep(allProducts, now), i + 1)
        == prices + match step case Some(u) => [u] case None => [];
      var product := FindProduct(allProducts, productIds[i]);
      if product.Some? && product.value.price.Some? {
        var p := product.value;
        prices := prices + [PriceUpdate(p.productId, StrOr(p.baseDisplaySymbol, p.baseCurrencyId),
                                        p.price.value, p.priceChange24h.GetOr(0.0), now)];
      }
    }
  }

  /**
   * An id yields an update exactly when some product matches it ignoring
   * case and the first such product has a price; the update carries that
   * product's own id and price, stamped with `now`.
   */
  lemma PriceForRules(products: seq<Product>, id: string, now: int)
    ensures var u := PriceFor(products, id, now);
      && (u.Some? <==> exists p :: p in products && MatchesId(p, id) && FindProduct(products, id).value.price.Some?)
      && (u.Some? ==>
            ToLower(u.value.coinId) == ToLower(id)
            && u.value.price == FindProduct(products, id).value.price.value
            && u.value.coinId == FindProduct(products, id).value.productId
            && u.value.timestamp == now)
  {
  }

  /** Ids that differ only in letter case get the same lookup result. */
  lemma {:induction false} PriceForIgnoresCase(products: seq<Product>, a: string, b: string, now: int)
    requires ToLower(a) == ToLower(b)
    ensures PriceFor(products, a, now) == PriceFor(products, b, now)
  {
    FindIgnoresCase(products, a, b);
  }

  lemma {:induction false} FindIgnoresCase(products: seq<Product>, a: string, b: string)
    requires ToLower(a) == ToLower(b)
    ensures FindProduct(products, a) == FindProduct(products, b)
    decreases |products|
  {
    if products != [] {
      FindIgnoresCase(products[1..], a, b);
    }
  }

  /**
   * The updates follow the request order, at most one per requested id:
   * update j answers the id at the j-th successful position, those positions
   * increase, and every id whose lookup succeeds is answered.
   */
  lemma CoinbasePricesOrder(key: string, products: seq<Product>, productIds: seq<string>, now: int)
    requires KeyConfigured(key)
    ensures var r := CoinbasePrices(key, Returned(Some(products)), productIds, now);
      var hits := Seqs.Hits(productIds, PriceStep(products, now), |productIds|);
      && |hits| == |r|
      && (forall j :: 0 <= j < |hits| ==>
            hits[j] < |productIds| && PriceFor(products, productIds[hits[j]], now) == Some(r[j]))
      && (forall i, j :: 0 <= i < j < |hits| ==> hits[i] < hits[j])
      && (forall k :: 0 <= k < |productIds| && PriceFor(products, productIds[k], now).Some? ==> k in hits)
  {
    Seqs.CollectImage(productIds, PriceStep(products, now), |productIds|);
  }

  // ---------------------------------------------------------------------------
  // fetchCoinbaseAirdrops

  /** Coinbase has no airdrop listing: the result is always empty, whatever the limit. */
  function FetchCoinbaseAirdrops(limit: Option<int>): (r: seq<Airdrop>)
    ensures r == []
  {
    []
  }
}
