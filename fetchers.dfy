/**
 * lib/fetchers.ts: CoinGecko trending coins joined with their prices, the
 * simple-price response turned into price updates, and the curated testnet
 * table.
 */
module Fetchers {
  import opened Wrappers
  import opened Strs
  import opened Types
  import JsMap
  import Seqs

  // ---------------------------------------------------------------------------
  // fetchTrendingTokens

  /** The `item` of one trending coin. */
  datatype TrendingCoin = TrendingCoin(
    id: string,
    name: string,
    symbol: string,
    large: Option<string>,
    small: Option<string>)

  /** One coin's entry in a simple-price response; each field may be absent. */
  datatype CoinPrice = CoinPrice(usd: Option<real>, usd24hChange: Option<real>, usdMarketCap: Option<real>)

  /** An absent price entry reads as `{}`, so every field is absent. */
  const NoPrice := CoinPrice(None, None, None)

  function TrendingToken(coin: TrendingCoin, index: nat, details: JsMap.Entries<string, CoinPrice>): Token {
    var priceData := JsMap.Get(details, coin.id).GetOr(NoPrice);
    Token(
      id := "token-" + coin.id,
      name := coin.name,
      symbol := ToUpper(coin.symbol),
      price := priceData.usd.GetOr(0.0),
      priceChange24h := priceData.usd24hChange.GetOr(0.0),
      priceChange1h := None,
      priceChange7d := None,
      volume24h := None,
      marketCap := priceData.usdMarketCap,
      image := JsOr(coin.large, coin.small),
      rank := Some(index + 1),
      coinId := coin.id)
  }

  /**
   * `fetchTrendingTokens`: `trending` is the trending request's outcome
   * (`None` when the body has no `coins`), `details` the price request's
   * outcome, keyed by coin id. Either request failing gives the empty list.
   */
  function FetchTrendingTokens(
    trending: Outcome<Option<seq<TrendingCoin>>>,
    details: Outcome<JsMap.Entries<string, CoinPrice>>): (r: seq<Token>)
    ensures trending.Threw? || details.Threw? ==> r == []
    ensures trending.Returned? && details.Returned? ==> |r| == |trending.value.GetOr([])|
  {
    match (trending, details)
    case (Returned(coins), Returned(prices)) =>
      var cs := coins.GetOr([]);
      seq(|cs|, i requires 0 <= i < |cs| => TrendingToken(cs[i], i, prices))
    case _ => []
  }

  /**
   * One token per trending coin, in trending order: ranked by position from
   * 1, with id "token-" + coin id, the symbol uppercased, the coin id carried
   * through and the large image preferred over the small one.
   */
  lemma TrendingTokenFields(coins: seq<TrendingCoin>, prices: JsMap.Entries<string, CoinPrice>, i: nat)
    requires i < |coins|
    ensures var r := FetchTrendingTokens(Returned(Some(coins)), Returned(prices));
      var c := coins[i];
      && |r| == |coins|
      && r[i].rank == Some(i + 1)
      && r[i].id == "token-" + c.id && r[i].coinId == c.id
      && r[i].symbol == ToUpper(c.symbol) && r[i].name == c.name
      && r[i].image == (if Truthy(c.large) then c.large else c.small)
  {
  }

  /**
   * A trending token's price, 24h change and market cap come from the price
   * entry of its coin id; a field the entry lacks, or a coin the price
   * response does not mention, gives price and change 0 and no market cap.
   */
  lemma TrendingTokenPrice(coins: seq<TrendingCoin>, prices: JsMap.Entries<string, CoinPrice>, i: nat)
    requires i < |coins|
    ensures var r := FetchTrendingTokens(Returned(Some(coins)), Returned(prices));
      var c := coins[i];
      var e := JsMap.Get(prices, c.id);
      && |r| == |coins|
      && (c.id !in JsMap.Keys(prices) ==> r[i].price == 0.0 && r[i].priceChange24h == 0.0 && r[i].marketCap.None?)
      && (e.Some? && e.value.usd.Some? ==> r[i].price == e.value.usd.value)
      && (e.Some? && e.value.usd.None? ==> r[i].price == 0.0)
      && (e.Some? && e.value.usd24hChange.Some? ==> r[i].priceChange24h == e.value.usd24hChange.value)
      && (e.Some? && e.value.usd24hChange.None? ==> r[i].priceChange24h == 0.0)
      && (e.Some? ==> r[i].marketCap == e.value.usdMarketCap)
  {
  }

  /** Ranks are 1, 2, 3, ... in list order, so no two trending tokens share one. */
  lemma TrendingRanksConsecutive(coins: seq<TrendingCoin>, prices: JsMap.Entries<string, CoinPrice>)
    ensures var r := FetchTrendingTokens(Returned(Some(coins)), Returned(prices));
      forall i, j :: 0 <= i < j < |r| ==> r[i].rank.Some? && r[i].rank.value < r[j].rank.value
  {
  }

  // ---------------------------------------------------------------------------
  // fetchTokenPrices

  /** `fetchTokenPrices`: one update per entry of the response object, in its order. */
  function FetchTokenPrices(response: Outcome<seq<(string, CoinPrice)>>, now: int): (r: seq<PriceUpdate>)
    ensures response.Threw? ==> r == []
    ensures response.Returned? ==>
      var entries := response.value;
      |r| == |entries|
      && forall i :: 0 <= i < |r| ==>
           r[i].coinId == entries[i].0 && r[i].symbol == ToUpper(entries[i].0)
           && r[i].price == entries[i].1.usd.GetOr(0.0)
           && r[i].priceChange24h == entries[i].1.usd24hChange.GetOr(0.0)
           && r[i].timestamp == now
  {
    match response
    case Threw => []
    case Returned(entries) =>
      seq(|entries|, i requires 0 <= i < |entries| =>
        PriceUpdate(entries[i].0, ToUpper(entries[i].0), entries[i].1.usd.GetOr(0.0),
                    entries[i].1.usd24hChange.GetOr(0.0), now))
  }

  // ---------------------------------------------------------------------------
  // getKnownTestnets and fetchTestnets

  function Sepolia(): Testnet {
    Testnet("testnet-11155111", "Sepolia", 11155111,
      ["https://rpc.sepolia.org",
       "https://sepolia.infura.io/v3/YOUR-PROJECT-ID",
       "https://ethereum-sepolia-rpc.publicnode.com"],
      Some(["https://sepolia.etherscan.io"]), true, Some(NativeCurrency("Sepolia Ether", "ETH", 18)))
  }

  function Mumbai(): Testnet {
    Testnet("testnet-80001", "Mumbai (Polygon)", 80001,
      ["https://matic-mumbai.chainstacklabs.com",
       "https://rpc-mumbai.maticvigil.com",
       "https://polygon-mumbai-bor.publicnode.com"],
      Some(["https://mumbai.polygonscan.com"]), true, Some(NativeCurrency("MATIC", "MATIC", 18)))
  }

  function BscTestnet(): Testnet {
    Testnet("testnet-97", "BSC Testnet", 97,
      ["https://data-seed-prebsc-1-s1.binance.org:8545",
       "https://bsc-testnet-rpc.publicnode.com"],
      Some(["https://testnet.bscscan.com"]), true, Some(NativeCurrency("BNB", "BNB", 18)))
  }

  function AvalancheFuji(): Testnet {
    Testnet("testnet-43113", "Avalanche Fuji", 43113,
      ["https://api.avax-test.network/ext/bc/C/rpc",
       "https://avalanche-fuji-c-chain-rpc.publicnode.com"],
      Some(["https://testnet.snowtrace.io"]), true, Some(NativeCurrency("AVAX", "AVAX", 18)))
  }

  function ArbitrumGoerli(): Testnet {
    Testnet("testnet-421613", "Arbitrum Goerli", 421613,
      ["https://goerli-rollup.arbitrum.io/rpc",
       "https://arbitrum-goerli-rpc.publicnode.com"],
      Some(["https://goerli.arbiscan.io"]), true, Some(NativeCurrency("Ether", "ETH", 18)))
  }

  function BaseGoerli(): Testnet {
    Testnet("testnet-84531", "Base Goerli", 84531,
      ["https://goerli.base.org",
       "https://base-goerli-rpc.publicnode.com"],
      Some(["https://goerli.basescan.org"]), true, Some(NativeCurrency("Ether", "ETH", 18)))
  }

  function FantomTestnet(): Testnet {
    Testnet("testnet-4002", "Fantom Testnet", 4002,
      ["https://rpc.testnet.fantom.network",
       "https://fantom-testnet-rpc.publicnode.com"],
      Some(["https://testnet.ftmscan.com"]), true, Some(NativeCurrency("Fantom", "FTM", 18)))
  }

  function ZkSyncEraTestnet(): Testnet {
    Testnet("testnet-280", "zkSync Era Testnet", 280,
      ["https://testnet.era.zksync.dev"],
      Some(["https://goerli.explorer.zksync.io"]), true, Some(NativeCurrency("Ether", "ETH", 18)))
  }

  function PolygonZkEvmTestnet(): Testnet {
    Testnet("testnet-1442", "Polygon zkEVM Testnet", 1442,
      ["https://rpc.public.zkevm-test.net"],
      Some(["https://testnet-zkevm.polygonscan.com"]), true, Some(NativeCurrency("Ether", "ETH", 18)))
  }

  function ScrollTestnet(): Testnet {
    Testnet("testnet-534353", "Scroll Testnet", 534353,
      ["https://alpha-rpc.scroll.io/l2"],
      Some(["https://blockscout.scroll.io"]), true, Some(NativeCurrency("Ether", "ETH", 18)))
  }

  /** The curated testnet list. */
  function KnownTestnets(): seq<Testnet> {
    [Sepolia(), Mumbai(), BscTestnet(), AvalancheFuji(), ArbitrumGoerli(), BaseGoerli(), FantomTestnet(), ZkSyncEraTestnet(), PolygonZkEvmTestnet(), ScrollTestnet()]
  }

  /** `fetchTestnets`: the curated list, as is. */
  function FetchTestnets(): seq<Testnet> {
    KnownTestnets()
  }

  /**
   * A listed testnet is flagged as a testnet, is identified as "testnet-"
   * followed by its chain id in decimal, has at least one RPC endpoint and an
   * explorer, and a native currency with 18 decimals.
   */
  predicate ListedTestnet(t: Testnet) {
    t.testnet && t.id == "testnet-" + NatToString(t.chainId)
    && |t.rpc| > 0 && t.explorers.Some? && |t.explorers.value| > 0
    && t.nativeCurrency.Some? && t.nativeCurrency.value.decimals == 18
  }

  // The decimal renderings of the listed chain ids, built up one digit at a time.

  lemma ChainIdDigitsA()
    ensures NatToString(11155111) == "11155111"
    ensures NatToString(80001) == "80001"
    ensures NatToString(97) == "97"
  {
    assert NatToString(1) == "1";
    assert NatToString(11) == NatToString(1) + "1";
    assert NatToString(111) == NatToString(11) + "1";
    assert NatToString(1115) == NatToString(111) + "5";
    assert NatToString(11155) == NatToString(1115) + "5";
    assert NatToString(111551) == NatToString(11155) + "1";
    assert NatToString(1115511) == NatToString(111551) + "1";
    assert NatToString(11155111) == NatToString(1115511) + "1";
    assert NatToString(8) == "8";
    assert NatToString(80) == NatToString(8) + "0";
    assert NatToString(800) == NatToString(80) + "0";
    assert NatToString(8000) == NatToString(800) + "0";
    assert NatToString(80001) == NatToString(8000) + "1";
    assert NatToString(9) == "9";
    assert NatToString(97) == NatToString(9) + "7";
  }

  lemma ChainIdDigitsB()
    ensures NatToString(43113) == "43113"
    ensures NatToString(421613) == "421613"
    ensures NatToString(84531) == "84531"
  {
    assert NatToString(4) == "4";
    assert NatToString(43) == NatToString(4) + "3";
    assert NatToString(431) == NatToString(43) + "1";
    assert NatToString(4311) == NatToString(431) + "1";
    assert NatToString(43113) == NatToString(4311) + "3";
    assert NatToString(4) == "4";
    assert NatToString(42) == NatToString(4) + "2";
    assert NatToString(421) == NatToString(42) + "1";
    assert NatToString(4216) == NatToString(421) + "6";
    assert NatToString(42161) == NatToString(4216) + "1";
    assert NatToString(421613) == NatToString(42161) + "3";
    assert NatToString(8) == "8";
    assert NatToString(84) == NatToString(8) + "4";
    assert NatToString(845) == NatToString(84) + "5";
    assert NatToString(8453) == NatToString(845) + "3";
    assert NatToString(84531) == NatToString(8453) + "1";
  }

  lemma ChainIdDigitsC()
    ensures NatToString(4002) == "4002"
    ensures NatToString(280) == "280"
    ensures NatToString(1442) == "1442"
    ensures NatToString(534353) == "534353"
  {
    assert NatToString(4) == "4";
    assert NatToString(40) == NatToString(4) + "0";
    assert NatToString(400) == NatToString(40) + "0";
    assert NatToString(4002) == NatToString(400) + "2";
    assert NatToString(2) == "2";
    assert NatToString(28) == NatToString(2) + "8";
    assert NatToString(280) == NatToString(28) + "0";
    assert NatToString(1) == "1";
    assert NatToString(14) == NatToString(1) + "4";
    assert NatToString(144) == NatToString(14) + "4";
    assert NatToString(1442) == NatToString(144) + "2";
    assert NatToString(5) == "5";
    assert NatToString(53) == NatToString(5) + "3";
    assert NatToString(534) == NatToString(53) + "4";
    assert NatToString(5343) == NatToString(534) + "3";
    assert NatToString(53435) == NatToString(5343) + "5";
    assert NatToString(534353) == NatToString(53435) + "3";
  }

  /** Every entry of the list is well formed. */
  lemma TestnetsListed()
    ensures forall t :: t in FetchTestnets() ==> ListedTestnet(t)
  {
    SepoliaListed();
    MumbaiListed();
    BscTestnetListed();
    AvalancheFujiListed();
    ArbitrumGoerliListed();
    BaseGoerliListed();
    FantomTestnetListed();
    ZkSyncEraTestnetListed();
    PolygonZkEvmTestnetListed();
    ScrollTestnetListed();
  }

  lemma SepoliaListed()
    ensures ListedTestnet(Sepolia())
  {
    ChainIdDigitsA();
  }

  lemma MumbaiListed()
    ensures ListedTestnet(Mumbai())
  {
    ChainIdDigitsA();
  }

  lemma BscTestnetListed()
    ensures ListedTestnet(BscTestnet())
  {
    ChainIdDigitsA();
  }

  lemma AvalancheFujiListed()
    ensures ListedTestnet(AvalancheFuji())
  {
    ChainIdDigitsB();
  }

  lemma ArbitrumGoerliListed()
    ensures ListedTestnet(ArbitrumGoerli())
  {
    ChainIdDigitsB();
  }

  lemma BaseGoerliListed()
    ensures ListedTestnet(BaseGoerli())
  {
    ChainIdDigitsB();
  }

  lemma FantomTestnetListed()
    ensures ListedTestnet(FantomTestnet())
  {
    ChainIdDigitsC();
  }

  lemma ZkSyncEraTestnetListed()
    ensures ListedTestnet(ZkSyncEraTestnet())
  {
    ChainIdDigitsC();
  }

  lemma PolygonZkEvmTestnetListed()
    ensures ListedTestnet(PolygonZkEvmTestnet())
  {
    ChainIdDigitsC();
  }

  lemma ScrollTestnetListed()
    ensures ListedTestnet(ScrollTestnet())
  {
    ChainIdDigitsC();
  }

  /** No chain id appears twice, so the chain id identifies a network. */
  lemma TestnetsDistinct()
    ensures var ts := FetchTestnets();
      |ts| == 10 && forall i, j :: 0 <= i < j < |ts| ==> ts[i].chainId != ts[j].chainId
  {
  }

}
