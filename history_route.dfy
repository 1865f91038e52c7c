/**
 * app/api/prices/history/route.ts: the price-history endpoint. It requires
 * a `symbol`, reads `days` (30 when absent or empty), asks the history
 * provider, and reports success only when some points came back.
 * `fetchHistory` is the provider call (`fetchCMCPriceHistory`, which is not
 * part of this model); `Raised` stands for an exception escaping the `try`
 * block, with its message.
 */
module HistoryRoute {
  import opened Wrappers
  import opened Strs
  import opened Types

  const DefaultDays := 30
  const MissingSymbol := "Missing symbol parameter"
  const FailureMessage := "Failed to fetch price history"
  const NoDataMessage := "No historical data available for this token"
  const UnknownError := "Unknown error occurred"

  /** One point of a price series. */
  datatype PricePoint = PricePoint(timestamp: int, price: real, volume: Option<real>)

  /** What the provider call did: threw with a message, or resolved to a series. */
  datatype HistoryFetch = Raised(message: string) | Got(points: seq<PricePoint>)

  /** The JSON body and status of the answer. */
  datatype HistoryResponse = HistoryResponse(
    status: nat,
    success: bool,
    data: seq<PricePoint>,
    count: Option<nat>,
    symbol: Option<string>,
    days: Option<ParsedInt>,
    message: Option<string>,
    error: Option<string>)

  /** `parseInt(searchParams.get('days') || '30', 10)`. */
  function RequestedDays(param: Option<string>, parsed: ParsedInt): (r: ParsedInt)
    ensures !Truthy(param) ==> r == Int(DefaultDays)
    ensures Truthy(param) ==> r == parsed
  {
    if Truthy(param) then parsed else Int(DefaultDays)
  }

  /** `GET /api/prices/history?symbol=...&days=...`. */
  function GetHistory(symbol: Option<string>, daysParam: Option<string>, daysParsed: ParsedInt,
                      fetchHistory: (string, ParsedInt) -> HistoryFetch): (r: HistoryResponse)
    ensures !Truthy(symbol) ==> r.status == 400 && !r.success && r.data == [] && r.error == Some(MissingSymbol)
    ensures Truthy(symbol) ==>
      var days := RequestedDays(daysParam, daysParsed);
      match fetchHistory(symbol.value, days)
      case Raised(m) =>
        && r.status == 500 && !r.success && r.data == [] && r.error == Some(FailureMessage)
        && r.message == Some(if m != "" then m else UnknownError)
      case Got(points) =>
        && r.status == 200 && r.data == points && r.count == Some(|points|)
        && r.symbol == symbol && r.days == Some(days)
  {
    if !Truthy(symbol) then
      HistoryResponse(400, false, [], None, None, None, None, Some(MissingSymbol))
    else
      var days := RequestedDays(daysParam, daysParsed);
      match fetchHistory(symbol.value, days)
      case Raised(m) =>
        HistoryResponse(500, false, [], None, None, None, Some(if m != "" then m else UnknownError), Some(FailureMessage))
      case Got(history) =>
        HistoryResponse(200, |history| > 0, history, Some(|history|), symbol, Some(days),
                        if |history| == 0 then Some(NoDataMessage) else None, None)
  }

  /**
   * An answer with data succeeds exactly when the series is non-empty, and
   * carries the "no data" message exactly when it is empty.
   */
  lemma HistorySuccessRule(symbol: Option<string>, daysParam: Option<string>, daysParsed: ParsedInt,
                           fetchHistory: (string, ParsedInt) -> HistoryFetch)
    ensures var r := GetHistory(symbol, daysParam, daysParsed, fetchHistory);
      && (r.success <==> r.status == 200 && |r.data| > 0)
      && (r.status == 200 ==> (r.message.Some? <==> r.data == []))
      && (r.status == 200 && r.message.Some? ==> r.message == Some(NoDataMessage))
      && (r.status != 200 ==> r.data == [])
  {
  }

  /** Without a symbol the provider is never asked: the answer does not depend on it. */
  lemma MissingSymbolNoFetch(symbol: Option<string>, daysParam: Option<string>, daysParsed: ParsedInt,
                             f: (string, ParsedInt) -> HistoryFetch, g: (string, ParsedInt) -> HistoryFetch)
    requires !Truthy(symbol)
    ensures GetHistory(symbol, daysParam, daysParsed, f) == GetHistory(symbol, daysParam, daysParsed, g)
  {
  }
}
