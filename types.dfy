/**
 * The shared item shapes every provider normalizes into (lib/types.ts), and
 * the JSON envelope the API routes answer with.
 */
module Types {
  import opened Wrappers

  /** A news entry; `pubDate` is the publication time as a timestamp. */
  datatype NewsItem = NewsItem(
    id: string,
    title: string,
    link: string,
    pubDate: int,
    content: Option<string>,
    source: string,
    image: Option<string>)

  /** A token; prices, changes, volumes and caps are only copied or compared. */
  datatype Token = Token(
    id: string,
    name: string,
    symbol: string,
    price: real,
    priceChange24h: real,
    priceChange1h: Option<real>,
    priceChange7d: Option<real>,
    volume24h: Option<real>,
    marketCap: Option<real>,
    image: Option<string>,
    rank: Option<int>,
    coinId: string)

  datatype Airdrop = Airdrop(
    id: string,
    title: string,
    link: string,
    reward: Option<string>,
    category: Option<string>,
    status: Option<string>,
    description: Option<string>)

  datatype NativeCurrency = NativeCurrency(name: string, symbol: string, decimals: nat)

  datatype Testnet = Testnet(
    id: string,
    name: string,
    chainId: nat,
    rpc: seq<string>,
    explorers: Option<seq<string>>,
    testnet: bool,
    nativeCurrency: Option<NativeCurrency>)

  datatype PriceUpdate = PriceUpdate(
    coinId: string,
    symbol: string,
    price: real,
    priceChange24h: real,
    timestamp: int)

  /** The result of `parseInt` on a query parameter. */
  datatype ParsedInt = Int(value: int) | NaN

  /** How array methods read a number argument: NaN counts as 0. */
  function ToInteger(n: ParsedInt): int {
    match n
    case Int(v) => v
    case NaN => 0
  }

  /** The JSON body and HTTP status of an API route's answer. */
  datatype ApiResponse<T> = ApiResponse(
    status: nat,
    success: bool,
    data: seq<T>,
    count: Option<nat>,
    error: Option<string>)

  /** The `{ success: false, error, data: [] }` answer of a route's catch block. */
  function Failed<T>(status: nat, error: string): (r: ApiResponse<T>)
    ensures !r.success && r.data == [] && r.status == status && r.count.None?
  {
    ApiResponse(status, false, [], None, Some(error))
  }

  /** The `{ success: true, data, count: data.length }` answer (status 200). */
  function Succeeded<T>(data: seq<T>): (r: ApiResponse<T>)
    ensures r.success && r.data == data && r.count == Some(|data|) && r.status == 200
  {
    ApiResponse(200, true, data, Some(|data|), None)
  }
}
