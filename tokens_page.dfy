/**
 * app/tokens/page.tsx: the token list page. It shows a window of 12 tokens
 * for the page named in the URL and refreshes prices from the prices
 * endpoint. The token list and the time of the last refresh are state that
 * `updatePrices` replaces; the endpoint's answer and the clock are inputs,
 * and the `setInterval` that repeats the refresh is not part of this model.
 */
module TokensPage {
  import opened Wrappers
  import opened Types
  import Seqs
  import JsMap

  const ItemsPerPage := 12

  /** `tokens.slice((currentPage - 1) * 12, (currentPage - 1) * 12 + 12)`; NaN slices nothing. */
  function PageWindow(tokens: seq<Token>, currentPage: ParsedInt): (r: seq<Token>)
    ensures |r| <= ItemsPerPage
  {
    match currentPage
    case Int(p) =>
      var start := (p - 1) * ItemsPerPage;
      Seqs.JsSlice(tokens, start, start + ItemsPerPage)
    case NaN => []
  }

  /**
   * Page p (from 1) shows tokens 12(p-1) up to 12p, cut at the end of the
   * list; a page past the end shows nothing.
   */
  lemma PageWindowRule(tokens: seq<Token>, p: int)
    requires p >= 1
    ensures var lo, hi := (p - 1) * ItemsPerPage, p * ItemsPerPage;
      && (lo < |tokens| ==> PageWindow(tokens, Int(p)) == tokens[lo..if hi < |tokens| then hi else |tokens|])
      && (lo >= |tokens| ==> PageWindow(tokens, Int(p)) == [])
  {
  }

  /**
   * A page below 1 is not rejected: page 0 shows nothing, and a negative
   * page p makes both slice bounds negative, so they count from the end of
   * the list (`?page=-1` is `slice(-24, -12)`: the twelve tokens before the
   * last twelve).
   */
  lemma PageWindowBelowFirst(tokens: seq<Token>, p: int)
    requires p <= 0
    ensures p == 0 ==> PageWindow(tokens, Int(p)) == []
    ensures p < 0 ==>
      var from, to := |tokens| + (p - 1) * ItemsPerPage, |tokens| + p * ItemsPerPage;
      PageWindow(tokens, Int(p)) == tokens[(if from < 0 then 0 else from)..(if to < 0 then 0 else to)]
  {
  }

  /** Pages 1 to n, one after another, show the first 12n tokens (or all of them). */
  lemma {:induction false} PagesCoverList(tokens: seq<Token>, n: nat)
    ensures Pages(tokens, n) == tokens[..if n * ItemsPerPage < |tokens| then n * ItemsPerPage else |tokens|]
  {
    if n > 0 {
      var lo := (n - 1) * ItemsPerPage;
      assert n * ItemsPerPage == lo + ItemsPerPage;
      PagesCoverList(tokens, n - 1);
      NextPage(tokens, n, lo, if lo + ItemsPerPage < |tokens| then lo + ItemsPerPage else |tokens|);
    }
  }

  /** Adding page n to the first n - 1 pages extends the covered prefix by that page's window. */
  lemma NextPage(tokens: seq<Token>, n: nat, lo: nat, hi: nat)
    requires n >= 1 && lo == (n - 1) * ItemsPerPage
    requires hi == if lo + ItemsPerPage < |tokens| then lo + ItemsPerPage else |tokens|
    requires Pages(tokens, n - 1) == tokens[..if lo < |tokens| then lo else |tokens|]
    ensures Pages(tokens, n) == tokens[..hi]
  {
    PageWindowRule(tokens, n);
    if lo < |tokens| {
      assert tokens[..lo] + tokens[lo..hi] == tokens[..hi];
    }
  }

  /** The windows of pages 1 to n, concatenated. */
  function Pages(tokens: seq<Token>, n: nat): seq<Token> {
    if n == 0 then [] else Pages(tokens, n - 1) + PageWindow(tokens, Int(n))
  }

  // ---------------------------------------------------------------------------
  // updatePrices

  /** `[p.coinId, p]` for each update: `new Map(...)` keeps the last update of each coin. */
  function UpdatePairs(updates: seq<PriceUpdate>): (r: seq<(string, PriceUpdate)>)
    ensures |r| == |updates|
  {
    seq(|updates|, j requires 0 <= j < |updates| => (updates[j].coinId, updates[j]))
  }

  /** The token with the price and 24-hour change of its update, if it has one. */
  function Refreshed(token: Token, update: Option<PriceUpdate>): Token {
    match update
    case Some(u) => token.(price := u.price, priceChange24h := u.priceChange24h)
    case None => token
  }

  /** `prev.map(token => ...)` with the map built from `updates`. */
  function MergePrices(tokens: seq<Token>, updates: seq<PriceUpdate>): (r: seq<Token>)
    ensures |r| == |tokens|
  {
    var priceMap := JsMap.FromPairs(UpdatePairs(updates));
    seq(|tokens|, i requires 0 <= i < |tokens| => Refreshed(tokens[i], JsMap.Get(priceMap, tokens[i].coinId)))
  }

  class TokenList {
    var tokens: seq<Token>
    var lastUpdate: int

    constructor (fetched: seq<Token>, now: int)
      ensures tokens == fetched && lastUpdate == now
    {
      tokens := fetched;
      lastUpdate := now;
    }

    /**
     * `updatePrices`: with tokens listed and a successful answer, every
     * token takes the price of its coin's update and the refresh time is
     * set; an empty list, a failed request or an unsuccessful answer
     * changes nothing.
     */
    method UpdatePrices(response: Outcome<ApiResponse<PriceUpdate>>, now: int)
      modifies this
      ensures old(tokens) != [] && response.Returned? && response.value.success ==>
        tokens == MergePrices(old(tokens), response.value.data) && lastUpdate == now
      ensures !(old(tokens) != [] && response.Returned? && response.value.success) ==>
        tokens == old(tokens) && lastUpdate == old(lastUpdate)
    {
      if |tokens| == 0 {
        return;
      }
      match response {
        case Threw =>
        case Returned(data) =>
          if data.success {
            tokens := MergePrices(tokens, data.data);
            lastUpdate := now;
          }
      }
    }
  }

  /**
   * A token whose coin has updates takes price and 24-hour change from the
   * last of them and keeps every other field; a token without one is left
   * as it was.
   */
  lemma MergePricesRules(tokens: seq<Token>, updates: seq<PriceUpdate>, i: nat)
    requires i < |tokens|
    ensures var t, r := tokens[i], MergePrices(tokens, updates)[i];
      match JsMap.LastFor(UpdatePairs(updates), t.coinId)
      case Some(u) =>
        && u in updates && u.coinId == t.coinId
        && r == t.(price := u.price, priceChange24h := u.priceChange24h)
        && (forall j :: 0 <= j < |updates| && updates[j].coinId == t.coinId ==> LastAt(updates, j, t.coinId) ==> updates[j] == u)
      case None =>
        && r == t
        && forall j :: 0 <= j < |updates| ==> updates[j].coinId != t.coinId
  {
    var pairs := UpdatePairs(updates);
    JsMap.FromPairsLastWins(pairs);
    var t := tokens[i];
    match JsMap.LastFor(pairs, t.coinId) {
      case Some(u) =>
        assert (t.coinId, u) in pairs;
        var j :| 0 <= j < |pairs| && pairs[j] == (t.coinId, u);
        assert updates[j] == u;
        forall j' | 0 <= j' < |updates| && updates[j'].coinId == t.coinId && LastAt(updates, j', t.coinId)
          ensures updates[j'] == u
        {
          LastForIsLast(updates, j', t.coinId);
        }
      case None =>
        forall j | 0 <= j < |updates| ensures updates[j].coinId != t.coinId {
          assert JsMap.Keys(pairs)[j] == updates[j].coinId;
        }
    }
  }

  /** No later update is for the same coin. */
  predicate LastAt(updates: seq<PriceUpdate>, j: nat, coinId: string)
    requires j < |updates|
  {
    forall k :: j < k < |updates| ==> updates[k].coinId != coinId
  }

  lemma {:induction false} LastForIsLast(updates: seq<PriceUpdate>, j: nat, coinId: string)
    requires j < |updates| && updates[j].coinId == coinId && LastAt(updates, j, coinId)
    ensures JsMap.LastFor(UpdatePairs(updates), coinId) == Some(updates[j])
    decreases |updates|
  {
    var pairs := UpdatePairs(updates);
    var n := |updates|;
    if j < n - 1 {
      var init := updates[..n - 1];
      assert UpdatePairs(init) == pairs[..n - 1];
      assert LastAt(init, j, coinId);
      LastForIsLast(init, j, coinId);
    }
  }
}
