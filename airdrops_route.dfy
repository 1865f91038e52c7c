/**
 * app/api/airdrops/route.ts: the airdrop endpoint. The `limit` query
 * parameter (50 when absent or empty) is capped at 100 from above only
 * and handed to the CoinMarketCap airdrop scraper. `parsed` is what
 * `parseInt` made of the parameter; `fetchAirdrops` is the scraper call,
 * whose `Threw` stands for an exception escaping the `try` block.
 */
module AirdropsRoute {
  import opened Wrappers
  import opened Strs
  import opened Types
  import Seqs
  import Cmc

  const DefaultLimit := 50
  const MaxLimit := 100
  const FailureMessage := "Failed to fetch airdrops"

  /** `parseInt(searchParams.get('limit') || '50', 10)`. */
  function RequestedLimit(param: Option<string>, parsed: ParsedInt): (r: ParsedInt)
    ensures !Truthy(param) ==> r == Int(DefaultLimit)
    ensures Truthy(param) ==> r == parsed
  {
    if Truthy(param) then parsed else Int(DefaultLimit)
  }

  /**
   * `Math.min(limit, 100)` as written: the smaller of the limit and 100, so
   * there is no lower bound; NaN stays NaN.
   */
  function SafeLimitAsWritten(limit: ParsedInt): (r: ParsedInt)
    ensures r.NaN? <==> limit.NaN?
    ensures r.Int? ==> r.value <= limit.value && r.value <= MaxLimit
    ensures r.Int? ==> r.value == limit.value || r.value == MaxLimit
  {
    match limit
    case Int(v) => Int(if v < MaxLimit then v else MaxLimit)
    case NaN => NaN
  }

  /** The evidently intended clamp: a count between 0 and 100. */
  function SafeLimit(limit: ParsedInt): (r: ParsedInt)
    ensures r.Int? ==> 0 <= r.value <= MaxLimit
    ensures limit.Int? && 0 <= limit.value ==> r == SafeLimitAsWritten(limit)
    ensures limit.NaN? ==> r == NaN
  {
    match limit
    case Int(v) => Int(if v < 0 then 0 else if v < MaxLimit then v else MaxLimit)
    case NaN => NaN
  }

  /** The route's answer once the scraper call has settled. */
  function Answer(fetched: Outcome<seq<Airdrop>>): (r: ApiResponse<Airdrop>)
    ensures fetched.Threw? ==> r == Failed(500, FailureMessage)
    ensures fetched.Returned? ==> r.status == 200 && r.success && r.data == fetched.value && r.count == Some(|r.data|)
  {
    match fetched
    case Threw => Failed(500, FailureMessage)
    case Returned(airdrops) => Succeeded(airdrops)
  }

  /** `GET /api/airdrops?limit=...` as written, with the upper-only clamp. */
  function GetAirdrops(param: Option<string>, parsed: ParsedInt, fetchAirdrops: ParsedInt -> Outcome<seq<Airdrop>>)
    : (r: ApiResponse<Airdrop>)
    ensures fetchAirdrops(SafeLimitAsWritten(RequestedLimit(param, parsed))).Threw? ==> r == Failed(500, FailureMessage)
    ensures fetchAirdrops(SafeLimitAsWritten(RequestedLimit(param, parsed))).Returned? ==>
      && r.status == 200 && r.success && r.count == Some(|r.data|)
      && r.data == fetchAirdrops(SafeLimitAsWritten(RequestedLimit(param, parsed))).value
  {
    Answer(fetchAirdrops(SafeLimitAsWritten(RequestedLimit(param, parsed))))
  }

  /** The corrected route: the same, with the limit clamped to 0..100. */
  function GetAirdropsClamped(param: Option<string>, parsed: ParsedInt, fetchAirdrops: ParsedInt -> Outcome<seq<Airdrop>>)
    : (r: ApiResponse<Airdrop>)
    ensures fetchAirdrops(SafeLimit(RequestedLimit(param, parsed))).Threw? ==> r == Failed(500, FailureMessage)
    ensures fetchAirdrops(SafeLimit(RequestedLimit(param, parsed))).Returned? ==>
      && r.status == 200 && r.success && r.count == Some(|r.data|)
      && r.data == fetchAirdrops(SafeLimit(RequestedLimit(param, parsed))).value
  {
    Answer(fetchAirdrops(SafeLimit(RequestedLimit(param, parsed))))
  }

  /** The CoinMarketCap scraper on a settled page, as the route's fetch function. */
  function CmcFetch(page: Outcome<Cmc.CmcPage>, now: nat): ParsedInt -> Outcome<seq<Airdrop>> {
    l => Returned(Cmc.CmcAirdrops(page, l, now))
  }

  /**
   * Against the CoinMarketCap scraper the route always answers with success.
   * A missing, non-negative or unparsable limit gives at most 100 airdrops,
   * and no `limit` at all gives the first 50 the page yields. A negative
   * limit passes the clamp and drops that many airdrops from the end of
   * the chosen pass.
   */
  lemma AirdropsCapped(param: Option<string>, parsed: ParsedInt, page: Outcome<Cmc.CmcPage>, now: nat)
    ensures var r, limit := GetAirdrops(param, parsed, CmcFetch(page, now)), RequestedLimit(param, parsed);
      && r.success && r.count == Some(|r.data|)
      && (limit.NaN? || limit.value >= 0 ==> |r.data| <= MaxLimit)
      && (!Truthy(param) && page.Returned? ==>
            var chosen := Cmc.ChosenPass(page.value, now);
            r.data == chosen[..if |chosen| < DefaultLimit then |chosen| else DefaultLimit])
      && (limit.Int? && limit.value < 0 && page.Returned? ==>
            var chosen := Cmc.ChosenPass(page.value, now);
            r.data == chosen[..if |chosen| + limit.value < 0 then 0 else |chosen| + limit.value])
  {
    var limit := SafeLimitAsWritten(RequestedLimit(param, parsed));
    if page.Returned? {
      Cmc.CmcLimit(page.value, limit, now);
    }
  }

  // ---------------------------------------------------------------------------
  // The limit as written

  /** A row that the scraper's first pass turns into an airdrop. */
  const SampleRow := Cmc.CmcRow("Alpha", "", "", "", "", "", None)

  /** A page with `n` qualifying rows and no cards. */
  function FilledPage(n: nat): (p: Cmc.CmcPage)
    ensures |p.rows| == n
  {
    Cmc.CmcPage(seq(n, _ => SampleRow), [])
  }

  lemma FilledPageChosen(n: nat, now: nat)
    ensures |Cmc.ChosenPass(FilledPage(n), now)| == n
  {
    var rows := FilledPage(n).rows;
    TrimKeeps("Alpha");
    assert Cmc.RowQualifies(SampleRow);
    Seqs.CollectEvery(rows, Cmc.RowStep(now), |rows|);
  }

  /**
   * With the upper-only clamp, `limit=-1` on a page of 102 airdrops answers
   * 101 of them: more than the cap of 100.
   */
  lemma AsWrittenOverrunsCap(now: nat)
    ensures |GetAirdrops(Some("-1"), Int(-1), CmcFetch(Returned(FilledPage(102)), now)).data| == 101 > MaxLimit
  {
    FilledPageChosen(102, now);
    Cmc.CmcLimit(FilledPage(102), Int(-1), now);
  }

  /**
   * The corrected route never answers more than 100 airdrops, negative
   * limits included, and it answers as the route does whenever the limit
   * is not negative.
   */
  lemma ClampedLimitCaps(param: Option<string>, parsed: ParsedInt, page: Outcome<Cmc.CmcPage>, now: nat)
    ensures |GetAirdropsClamped(param, parsed, CmcFetch(page, now)).data| <= MaxLimit
    ensures var limit := RequestedLimit(param, parsed);
      limit.NaN? || limit.value >= 0 ==>
        GetAirdropsClamped(param, parsed, CmcFetch(page, now)) == GetAirdrops(param, parsed, CmcFetch(page, now))
  {
    if page.Returned? {
      Cmc.CmcLimit(page.value, SafeLimit(RequestedLimit(param, parsed)), now);
    }
  }
}
