/**
 * app/api/prices/route.ts: the live-price endpoint. The `ids` query
 * parameter is split on commas into upper-cased symbols, CoinMarketCap is
 * asked for their prices, and each entry of the price map becomes one
 * price update. `priceMap` is what `fetchCMCPrices` on the requested
 * symbols resolved to; `Threw` stands for an exception escaping the `try`
 * block. `now` is `Date.now()`.
 */
module PricesRoute {
  import opened Wrappers
  import opened Strs
  import opened Types
  import Seqs
  import JsMap
  import Cmc

  const MissingIds := "Missing ids parameter"
  const FailureMessage := "Failed to fetch prices"

  /** The comma-separated pieces of `ids` that are not empty. */
  function Pieces(ids: string): seq<string> {
    Seqs.Filter(Split(ids, ','), p => p != "")
  }

  /** `ids.split(',').filter(Boolean).map(s => s.toUpperCase())`. */
  function RequestedSymbols(ids: string): (r: seq<string>)
    ensures |r| == |Pieces(ids)|
  {
    var pieces := Pieces(ids);
    seq(|pieces|, i requires 0 <= i < |pieces| => ToUpper(pieces[i]))
  }

  /** One entry `[symbol, price]` of the price map as an update. */
  function ToUpdate(entry: (string, real), now: int): PriceUpdate {
    PriceUpdate(ToLower(entry.0), ToUpper(entry.0), entry.1, 0.0, now)
  }

  /** `Array.from(priceMap.entries()).map(...)`. */
  function PriceUpdates(m: JsMap.Entries<string, real>, now: int): (r: seq<PriceUpdate>)
    ensures |r| == |m|
  {
    seq(|m|, i requires 0 <= i < |m| => ToUpdate(m[i], now))
  }

  /** `GET /api/prices?ids=...`. */
  function GetPrices(ids: Option<string>, priceMap: Outcome<JsMap.Entries<string, real>>, now: int)
    : (r: ApiResponse<PriceUpdate>)
    ensures !Truthy(ids) ==> r == Failed(400, MissingIds)
    ensures Truthy(ids) && priceMap.Threw? ==> r == Failed(500, FailureMessage)
    ensures Truthy(ids) && priceMap.Returned? ==>
      && r.status == 200 && r.success
      && |r.data| == |priceMap.value| && r.count == Some(|r.data|)
  {
    if !Truthy(ids) then Failed(400, MissingIds)
    else match priceMap
      case Threw => Failed(500, FailureMessage)
      case Returned(m) => Succeeded(PriceUpdates(m, now))
  }

  /**
   * The requested symbols are the non-empty comma-separated pieces, in
   * order, upper-cased: the pieces are exactly the non-empty ones of the
   * split, each as often as it occurs and in its place; no symbol is
   * empty, none holds a comma, each is already upper case, and every
   * non-empty piece is asked for.
   */
  lemma RequestedSymbolsRules(ids: string)
    ensures var r, pieces := RequestedSymbols(ids), Pieces(ids);
      && |r| == |pieces| <= Occurrences(ids, ',') + 1
      && (forall i :: 0 <= i < |r| ==> r[i] == ToUpper(pieces[i]))
      && Seqs.IsSubseq(pieces, Split(ids, ','))
      && Seqs.CountsKept(pieces, Split(ids, ','), p => p != "")
      && (forall i :: 0 <= i < |r| ==> r[i] != "" && ',' !in r[i] && ToUpper(r[i]) == r[i])
      && (forall p :: p in Split(ids, ',') && p != "" ==> ToUpper(p) in r)
  {
    SplitShape(ids, ',');
    Seqs.FilterKeeps(Split(ids, ','), p => p != "");
    SymbolsClean(ids);
    SymbolsCover(ids);
  }

  /** Each requested symbol is non-empty, comma-free and upper case. */
  lemma SymbolsClean(ids: string)
    ensures var r := RequestedSymbols(ids);
      forall i :: 0 <= i < |r| ==> r[i] != "" && ',' !in r[i] && ToUpper(r[i]) == r[i]
  {
    var parts := Split(ids, ',');
    var pieces := Pieces(ids);
    SplitShape(ids, ',');
    Seqs.FilterOrder(parts, p => p != "");
    forall i | 0 <= i < |pieces| ensures CleanPiece(ToUpper(pieces[i])) {
      assert pieces[i] in parts;
      var j :| 0 <= j < |parts| && parts[j] == pieces[i];
      PieceSymbol(parts[j]);
    }
  }

  /** A symbol as the route sends it on: non-empty, comma-free and upper case. */
  predicate CleanPiece(u: string) {
    u != "" && ',' !in u && ToUpper(u) == u
  }

  /** Upper-casing a non-empty, comma-free piece keeps it non-empty and comma-free. */
  lemma PieceSymbol(p: string)
    requires p != "" && ',' !in p
    ensures CleanPiece(ToUpper(p))
  {
    ToUpperIdempotent(p);
    assert ',' !in ToUpper(p) by {
      forall k | 0 <= k < |p| ensures ToUpper(p)[k] != ',' {
        assert p[k] != ',';
      }
    }
  }

  /** Every non-empty piece of the parameter is requested, upper-cased. */
  lemma SymbolsCover(ids: string)
    ensures forall p :: p in Split(ids, ',') && p != "" ==> ToUpper(p) in RequestedSymbols(ids)
  {
    var pieces := Pieces(ids);
    var r := RequestedSymbols(ids);
    Seqs.FilterOrder(Split(ids, ','), p => p != "");
    forall p | p in Split(ids, ',') && p != "" ensures ToUpper(p) in r {
      assert p in pieces;
      var j :| 0 <= j < |pieces| && pieces[j] == p;
      assert r[j] == ToUpper(p);
    }
  }

  /**
   * Every update names its symbol twice, lower-cased as `coinId` and
   * upper-cased as `symbol`, the two agreeing up to case; it carries the
   * entry's price, a zero 24-hour change and the request time.
   */
  lemma PriceUpdateFields(m: JsMap.Entries<string, real>, now: int, i: nat)
    requires i < |m|
    ensures var u := PriceUpdates(m, now)[i];
      && ToLower(u.symbol) == u.coinId == ToLower(m[i].0)
      && ToUpper(u.symbol) == u.symbol == ToUpper(m[i].0)
      && u.price == m[i].1 && u.priceChange24h == 0.0 && u.timestamp == now
  {
    LowerOfUpper(m[i].0);
    ToUpperIdempotent(m[i].0);
  }

  /**
   * With the price map CoinMarketCap's quotes build, each update carries
   * the price of the last priced quote of its symbol, which is not zero.
   */
  lemma UpdateFromQuote(key: string, quotes: seq<Cmc.CmcQuote>, now: int, i: nat)
    requires key != ""
    requires i < |Cmc.PriceMap(key, Returned(Some(quotes)))|
    ensures var m := Cmc.PriceMap(key, Returned(Some(quotes)));
      var u := PriceUpdates(m, now)[i];
      && JsMap.LastFor(Cmc.PricePairs(quotes), m[i].0) == Some(u.price)
      && u.price != 0.0
      && exists k :: 0 <= k < |quotes| && Cmc.Priced(quotes[k]) && ToUpper(quotes[k].symbol) == u.symbol
  {
    var m := Cmc.PriceMap(key, Returned(Some(quotes)));
    Cmc.PriceMapEntries(key, quotes, m[i].0);
    JsMap.GetAt(m, i);
  }

  /** Every priced quote's symbol gets an update. */
  lemma QuoteGivesUpdate(key: string, quotes: seq<Cmc.CmcQuote>, now: int, k: nat)
    requires key != ""
    requires k < |quotes| && Cmc.Priced(quotes[k])
    ensures var ups := PriceUpdates(Cmc.PriceMap(key, Returned(Some(quotes))), now);
      exists i :: 0 <= i < |ups| && ups[i].symbol == ToUpper(quotes[k].symbol)
  {
    var m := Cmc.PriceMap(key, Returned(Some(quotes)));
    var sym := quotes[k].symbol;
    Cmc.PriceMapEntries(key, quotes, sym);
    var i :| 0 <= i < |m| && JsMap.Keys(m)[i] == sym;
    assert PriceUpdates(m, now)[i].symbol == ToUpper(sym);
  }
}
