# vigilnet-hub in Dafny

A model of the data layer and client-side logic of vigilnet-hub, a Next.js crypto dashboard.
The dashboard collects token prices, news, airdrops and testnets from outside sources. It
serves them through a few JSON routes and shows them in pages with filters, pagination, a
watchlist and a token comparison.

The model covers:

- **Fetchers** (`lib/`). RSS feeds are merged and sorted newest first. CoinGecko trending
  tokens and prices are read, and the testnet list is curated. CoinMarketCap listings, quotes
  and airdrops are scraped with two passes. Coinbase products are filtered, ranked by volume
  and looked up. airdrops.io is scraped with a primary pass and a fallback pass.
- **API routes** (`app/api/`): AI news, prices, airdrops and price history. These cover the
  query-parameter defaults, the error statuses and the response bodies.
- **Client logic.** This covers the news source filter and sort, the airdrop status colour,
  the search page's filters and sections, and the pagination row with its query-string
  update. It also covers the comparison page's symbol list, the comparison component's
  add/remove state, and the tokens page's window and price refresh. The last piece is the
  watchlist button.

Every network request, HTML parse, clock read and number parse is an input. A request or
parse that can fail is an `Outcome` (`Threw` or `Returned(value)`). An absent field is an
`Option`. `Date.now()` is a `now` parameter. `parseInt`/`parseFloat` results are given as a
`ParsedInt` (`Int(v)` or `NaN`) or a real. API keys are `key` parameters. The component
state that React updates (`useState`, local storage) becomes a class whose methods update
its fields in place.

The helper modules model the JavaScript built-ins the code relies on:

- `Strs`: ASCII case mapping, `trim`, `split`/`join`, `includes` and decimal rendering.
- `Seqs`: `filter`, `slice` with negative and NaN bounds, the push-in-a-loop pattern, and
  de-duplication.
- `Sorting`: the stable `Array.prototype.sort`, for a comparator that is a strict weak
  order.
- `JsMap`: a `Map` with insertion order and overwriting `set`.

## Model

| member | source | states |
|---|---|---|
| Rss.FetchRSSFeed | vigilnet-hub/lib/rss.ts:11-40 | a failed parse or a feed without items gives no items; otherwise one item per entry, each labelled with the feed's source |
| Rss.FeedItemFields | vigilnet-hub/lib/rss.ts:21-29 | the item's id is source, dash, then guid, link or position; title, link and date take their defaults; content prefers the snippet; image prefers the media URL |
| Rss.NewerFirstIsStrictWeakOrder | vigilnet-hub/lib/rss.ts:68-72 | the `dateB - dateA` comparator is a strict weak order, so the sort is well defined |
| Rss.FetchMultipleRSSFeeds | vigilnet-hub/lib/rss.ts:42-75 | the loop pushes the items of the fulfilled feeds, counts successes, and successes plus failures equal the number of feeds; the result is the sorted merge |
| Rss.CountFulfilled | vigilnet-hub/lib/rss.ts:55-63 | the success count never exceeds the number of feeds |
| Rss.FeedsAlwaysFulfil | vigilnet-hub/lib/rss.ts:33-39 | `fetchRSSFeed` catches every error, so every settled feed is fulfilled: the success count is the number of feeds and no failure is counted |
| Rss.FulfilledLengthIsSum | vigilnet-hub/lib/rss.ts:55-58 | the pushed list is as long as the fulfilled feeds together |
| Rss.MergeFeedsPermutes | vigilnet-hub/lib/rss.ts:51-72 | the result is a permutation of the fulfilled feeds' items, with nothing dropped or de-duplicated |
| Rss.MergeFeedsNewestFirst | vigilnet-hub/lib/rss.ts:67-72 | the result is ordered newest first |
| Rss.MergeFeedsStable | vigilnet-hub/lib/rss.ts:67-72 | items with the same date keep their feed order |
| Rss.SameDateIsTied | vigilnet-hub/lib/rss.ts:68-72 | the comparator ties exactly the items with equal dates |
| Rss.FailedFeedIsolated | vigilnet-hub/lib/rss.ts:55-62 | a rejected feed adds nothing, and the other feeds' items stay as they were |
| Rss.FulfilledAppend | vigilnet-hub/lib/rss.ts:55-63 | the pushed items of two runs of feeds are the concatenation of each run's items |
| Scraper.AbsolutizeRules | vigilnet-hub/lib/scraper.ts:30-32 | a link starting with "http" is kept; a link starting with "/" becomes https://airdrops.io followed by the link; any other link becomes https://airdrops.io + "/" + the link |
| Scraper.Scrape | vigilnet-hub/lib/scraper.ts:5-72 | at most 50 items; a failed request gives none |
| Scraper.ScrapeAirdrops | vigilnet-hub/lib/scraper.ts:15-67 | the two push loops and the slice compute the scrape result |
| Scraper.PrimaryPassOrder | vigilnet-hub/lib/scraper.ts:18-44 | one item per qualifying container, in document order; item j is built from the j-th qualifying container; none is skipped |
| Scraper.ScrapedItemsWellFormed | vigilnet-hub/lib/scraper.ts:28-42 | every item has a non-empty title and an absolute link, and an empty text becomes an absent field |
| Scraper.FallbackItemsBare | vigilnet-hub/lib/scraper.ts:58-62 | fallback items carry only id, title and link, and their ids start with "airdrop-fallback-" |
| Scraper.ScrapePrefersPrimary | vigilnet-hub/lib/scraper.ts:47 | when a container qualifies, the result is non-empty and holds no fallback item |
| Scraper.PrimaryIdsNotFallback | vigilnet-hub/lib/scraper.ts:35 | a primary-pass id never looks like a fallback id |
| Scraper.CardIdNotFallback | vigilnet-hub/lib/scraper.ts:35 | "airdrop-" followed by digits never starts with "airdrop-fallback-" |
| Scraper.ScrapeFallsBack | vigilnet-hub/lib/scraper.ts:46-67 | when no container qualifies, the result is the anchor pass cut to 50 |
| Scraper.ScrapeIsPrefix | vigilnet-hub/lib/scraper.ts:67 | the result is the first min(n, 50) items of the chosen pass |
| Fetchers.FetchTrendingTokens | vigilnet-hub/lib/fetchers.ts:6-44 | either request failing gives no tokens; otherwise one token per trending coin |
| Fetchers.TrendingTokenFields | vigilnet-hub/lib/fetchers.ts:24-38 | rank is position plus 1; id is "token-" + coin id; the symbol is uppercased; the large image is preferred |
| Fetchers.TrendingTokenPrice | vigilnet-hub/lib/fetchers.ts:26-34 | price, change and market cap come from the coin's price entry; a missing entry or field gives 0, 0 and no market cap |
| Fetchers.TrendingRanksConsecutive | vigilnet-hub/lib/fetchers.ts:36 | ranks strictly increase along the list |
| Fetchers.FetchTokenPrices | vigilnet-hub/lib/fetchers.ts:46-65 | a failed request gives none; otherwise one update per response entry in order, with the coin id, its uppercased symbol, the price and change defaulting to 0, and the timestamp |
| Fetchers.TestnetsListed | vigilnet-hub/lib/fetchers.ts:67-189 | every listed testnet is flagged as a testnet, with id "testnet-" + chain id in decimal, an RPC endpoint, an explorer and 18 decimals; each of the ten entries equals its literal in the source |
| Fetchers.TestnetsDistinct | vigilnet-hub/lib/fetchers.ts:74-188 | the list has ten testnets and no two share a chain id |
| Cmc.FetchCMCTopTokens | vigilnet-hub/lib/cmc.ts:27-74 | no key, a failed request or a body without data gives no tokens; otherwise one token per listing (id "cmc-" + id, price, rank, slug as coin id, image URL); a listing without a USD quote makes the whole call give none |
| Cmc.FetchCMCPrices | vigilnet-hub/lib/cmc.ts:94-101 | the forEach sets each priced quote's symbol in turn |
| Cmc.PriceMapEntries | vigilnet-hub/lib/cmc.ts:76-107 | the map has distinct keys; a symbol is present iff some quote prices it (non-zero); it holds the last such price, never 0 |
| Cmc.PricePairsFromPriced | vigilnet-hub/lib/cmc.ts:96-100 | the last value set for a symbol exists iff a priced quote has that symbol, and it is non-zero |
| Cmc.PairFromPriced | vigilnet-hub/lib/cmc.ts:97-98 | every set call comes from a priced quote |
| Cmc.PricedGivesPair | vigilnet-hub/lib/cmc.ts:97-98 | every priced quote makes a set call |
| Cmc.LinkRules | vigilnet-hub/lib/cmc.ts:139-143 | both passes make absolute links; an "http" link is kept; a root-relative one goes on the origin; any other goes under the airdrop index in the row pass and becomes the index itself in the card pass (lines 166-170) |
| Cmc.CmcAirdrops | vigilnet-hub/lib/cmc.ts:111-188 | a failed request gives no airdrops |
| Cmc.CollectRows | vigilnet-hub/lib/cmc.ts:126-155 | the first each-loop pushes exactly the row pass |
| Cmc.CollectCards | vigilnet-hub/lib/cmc.ts:158-181 | the second each-loop pushes exactly the card pass |
| Cmc.FetchCMCAirdrops | vigilnet-hub/lib/cmc.ts:111-188 | the two loops, the fallback choice and the slice compute the airdrop result |
| Cmc.RowStatusRules | vigilnet-hub/lib/cmc.ts:151 | the status is never empty: a non-empty scraped status is kept as it is, else "Ended" with an end date, "Active" with only a start date, and "Upcoming" with neither |
| Cmc.RowDescriptionRules | vigilnet-hub/lib/cmc.ts:152 | a description exists iff a start date does, and it begins "Started: " + start |
| Cmc.RowFields | vigilnet-hub/lib/cmc.ts:138-153 | a row item's title is non-empty and not the loading placeholder; a category exists iff participants were found, and it starts "Participants: " |
| Cmc.RowPassWellFormed | vigilnet-hub/lib/cmc.ts:145-153 | every row item is titled, absolutely linked and has a status |
| Cmc.CardPassWellFormed | vigilnet-hub/lib/cmc.ts:172-178 | every card item is titled, absolutely linked and has a status |
| Cmc.CmcItemsWellFormed | vigilnet-hub/lib/cmc.ts:111-188 | every returned airdrop is titled, absolutely linked and has a status |
| Cmc.CardPassShape | vigilnet-hub/lib/cmc.ts:162-178 | card items have a title longer than 3 characters, no reward or category, and the status "Active" |
| Cmc.ChosenPassRule | vigilnet-hub/lib/cmc.ts:158 | a qualifying row means the non-empty row pass is used; no qualifying row means the card pass is used |
| Cmc.CmcLimit | vigilnet-hub/lib/cmc.ts:183 | `slice(0, limit)`: a non-negative limit keeps that many, a negative one drops that many from the end, and NaN keeps none |
| Coinbase.HigherVolumeIsStrictWeakOrder | vigilnet-hub/lib/coinbase.ts:92-96 | the `volB - volA` comparator is a strict weak order |
| Coinbase.TopTokens | vigilnet-hub/lib/coinbase.ts:63-129 | a key shorter than 20 characters or a failed request gives none; there are never more tokens than the limit (200 by default) |
| Coinbase.FetchCoinbaseTopTokens | vigilnet-hub/lib/coinbase.ts:101-120 | the forEach push loop computes the token list |
| Coinbase.TopTokenFields | vigilnet-hub/lib/coinbase.ts:103-118 | a token's rank is position plus 1; id "coinbase-" + product id; coin id the lowercased product id; name and symbol fall back; no market cap or image; the price defaults to 0 |
| Coinbase.RankedListed | vigilnet-hub/lib/coinbase.ts:83-89 | each ranked product is a USD-quoted, online, enabled, tradable product of the response |
| Coinbase.RankedByVolume | vigilnet-hub/lib/coinbase.ts:92-96 | ranked products come in non-increasing 24-hour volume |
| Coinbase.RankedIsTop | vigilnet-hub/lib/coinbase.ts:83-99 | the ranked list is min(limit, listed) long and drawn from the listed products, and no listed product left out has a larger volume than a kept one |
| Coinbase.RankedPrefix | vigilnet-hub/lib/coinbase.ts:99 | the ranked list is a prefix of the sorted listed products |
| Coinbase.LeftOutRanksLower | vigilnet-hub/lib/coinbase.ts:92-99 | a product past the cut has no larger volume than one before it |
| Coinbase.FindProduct | vigilnet-hub/lib/coinbase.ts:150-152 | a found product matches ignoring case and is the first such product in the list (no earlier product matches); not found means that no product matches |
| Coinbase.CoinbasePrices | vigilnet-hub/lib/coinbase.ts:131-176 | a short key or a failed request gives none; never more updates than requested ids |
| Coinbase.FetchCoinbasePrices | vigilnet-hub/lib/coinbase.ts:147-168 | the forEach push loop computes the update list |
| Coinbase.PriceForRules | vigilnet-hub/lib/coinbase.ts:150-165 | an id yields an update iff a product matches and the first match has a price; the update carries that product's id and price and the time |
| Coinbase.PriceForIgnoresCase | vigilnet-hub/lib/coinbase.ts:151 | ids differing only in case give the same update |
| Coinbase.FindIgnoresCase | vigilnet-hub/lib/coinbase.ts:150-152 | ids differing only in case find the same product |
| Coinbase.CoinbasePricesOrder | vigilnet-hub/lib/coinbase.ts:149-166 | updates follow request order, at most one per id, and every id that resolves is answered |
| Coinbase.FetchCoinbaseAirdrops | vigilnet-hub/lib/coinbase.ts:179-183 | always empty |
| AiRoute.GetAiNews | vigilnet-hub/app/api/ai/route.ts:12-47 | a failure gives status 500 with "Failed to fetch AI news"; otherwise 200, success, and the count equals the data's length |
| AiRoute.AiDataRules | vigilnet-hub/app/api/ai/route.ts:17-32 | when some item is AI-related, the data is exactly the AI-related items, each as often as the feed holds it, in order; otherwise it is the whole list |
| AiRoute.FallbackRules | vigilnet-hub/app/api/ai/route.ts:32 | the filter-or-everything choice, for any keep test: with a match, exactly the matching items with their multiplicities, in order; with none, the whole list |
| AiRoute.AiDataBounds | vigilnet-hub/app/api/ai/route.ts:32-33 | the data lies between the AI items and the full list in length, and is empty only for an empty feed |
| PricesRoute.RequestedSymbols | vigilnet-hub/app/api/prices/route.ts:23 | one symbol per non-empty comma-separated piece |
| PricesRoute.RequestedSymbolsRules | vigilnet-hub/app/api/prices/route.ts:23 | symbol i is piece i uppercased, where the pieces are exactly the non-empty comma-separated pieces, each as often as it occurs, in order; each symbol is non-empty, comma-free and uppercase; every non-empty piece is requested |
| PricesRoute.PriceUpdates | vigilnet-hub/app/api/prices/route.ts:27-33 | one update per map entry |
| PricesRoute.PriceUpdateFields | vigilnet-hub/app/api/prices/route.ts:27-33 | the coin id is the lowercased symbol and the symbol is uppercased; the price is copied; the change is 0; the time is the request time |
| PricesRoute.GetPrices | vigilnet-hub/app/api/prices/route.ts:7-52 | a missing or empty `ids` gives 400 "Missing ids parameter"; a failure gives 500; otherwise 200 with one update per map entry and a matching count |
| PricesRoute.UpdateFromQuote | vigilnet-hub/app/api/prices/route.ts:24-33 | each update's price is the last non-zero price some quote gave that symbol |
| PricesRoute.QuoteGivesUpdate | vigilnet-hub/app/api/prices/route.ts:24-33 | every priced quote's symbol appears, uppercased, among the updates |
| AirdropsRoute.RequestedLimit | vigilnet-hub/app/api/airdrops/route.ts:10 | a missing or empty `limit` means 50; otherwise the parsed value |
| AirdropsRoute.SafeLimitAsWritten | vigilnet-hub/app/api/airdrops/route.ts:11 | `Math.min(limit, 100)`: NaN stays NaN; otherwise the result is at most the limit and at most 100, and equals one of them, so negative limits pass |
| AirdropsRoute.SafeLimit | vigilnet-hub/app/api/airdrops/route.ts:11 | the corrected clamp: the limit passed on is within 0..100, and agrees with `Math.min(limit, 100)` for non-negative limits; NaN stays NaN |
| AirdropsRoute.Answer | vigilnet-hub/app/api/airdrops/route.ts:13-31 | a failure gives 500 "Failed to fetch airdrops"; otherwise 200, the fetched airdrops and their count |
| AirdropsRoute.GetAirdrops | vigilnet-hub/app/api/airdrops/route.ts:7-32 | the route as written, with the upper-only clamp: a failure gives 500 "Failed to fetch airdrops"; otherwise 200, the airdrops fetched for `Math.min(limit, 100)` and their count |
| AirdropsRoute.GetAirdropsClamped | vigilnet-hub/app/api/airdrops/route.ts:7-32 | the corrected route: the same answers, with the limit clamped to 0..100 |
| AirdropsRoute.AirdropsCapped | vigilnet-hub/app/api/airdrops/route.ts:10-20 | as written, against the scraper: always a success; a missing, non-negative or unparsable limit gives at most 100 airdrops, no parameter gives the first 50 of the chosen pass, and a negative limit drops that many from the end of the chosen pass |
| AirdropsRoute.FilledPage | vigilnet-hub/app/api/airdrops/route.ts:11 | a page of n qualifying rows |
| AirdropsRoute.FilledPageChosen | vigilnet-hub/app/api/airdrops/route.ts:11 | such a page yields n airdrops before the limit |
| AirdropsRoute.AsWrittenOverrunsCap | vigilnet-hub/app/api/airdrops/route.ts:11 | the route as written answers `limit=-1` on a page of 102 airdrops with 101 of them, more than 100 |
| AirdropsRoute.ClampedLimitCaps | vigilnet-hub/app/api/airdrops/route.ts:11-13 | the corrected route never answers more than 100 airdrops, and answers as the route does whenever the limit is not negative |
| HistoryRoute.RequestedDays | vigilnet-hub/app/api/prices/history/route.ts:10 | a missing or empty `days` means 30; otherwise the parsed value |
| HistoryRoute.GetHistory | vigilnet-hub/app/api/prices/history/route.ts:6-56 | no symbol gives 400; a thrown error gives 500 with its message or "Unknown error occurred"; otherwise 200 with the points, their count, the symbol and the days |
| HistoryRoute.HistorySuccessRule | vigilnet-hub/app/api/prices/history/route.ts:33-40 | success iff 200 with data; at 200, a message exists iff there is no data, and it is the no-data message |
| HistoryRoute.MissingSymbolNoFetch | vigilnet-hub/app/api/prices/history/route.ts:12-22 | without a symbol the answer does not depend on the fetcher |
| AirdropCard.StatusColor | vigilnet-hub/components/AirdropCard.tsx:8-21 | one of four colours; no status or an empty one is gray |
| AirdropCard.StatusColorRules | vigilnet-hub/components/AirdropCard.tsx:10-19 | green iff the lowercased status mentions active/ongoing; red iff not that but ended/closed; blue iff neither but upcoming/soon |
| AirdropCard.StatusColorIgnoresCase | vigilnet-hub/components/AirdropCard.tsx:10 | statuses that differ only in case get the same colour |
| AirdropCard.InactiveShowsGreen | vigilnet-hub/components/AirdropCard.tsx:11 | "Inactive" is shown green, since it contains "active" |
| AirdropCard.DerivedStatusColors | vigilnet-hub/components/AirdropCard.tsx:11-19 | the statuses derived in the CoinMarketCap scrape colour as Ended red, Active green, Upcoming blue |
| NewsFilters.StrLessIsStrictWeakOrder | vigilnet-hub/components/NewsFilters.tsx:17 | string order is a strict weak order |
| NewsFilters.SourcesDistinctSorted | vigilnet-hub/components/NewsFilters.tsx:15-18 | the source list is duplicate-free and sorted, and holds exactly the sources of the news |
| NewsFilters.FilterRule | vigilnet-hub/components/NewsFilters.tsx:21-25 | "all" keeps every item; otherwise exactly the items of that source, each as often as the news holds it, in order |
| NewsFilters.SourceBeforeIsStrictWeakOrder | vigilnet-hub/components/NewsFilters.tsx:31 | the source comparator is a strict weak order |
| NewsFilters.ShownListRules | vigilnet-hub/components/NewsFilters.tsx:20-36 | the shown list is a permutation of the filtered one; date mode is newest first; source mode is A-Z; ties keep their order; it is never longer than the news (line 70) |
| Search.SectionOf | vigilnet-hub/components/SearchResults.tsx:69-102 | a section counts its whole filtered list and shows its first 12 |
| Search.SearchPage | vigilnet-hub/components/SearchResults.tsx:16-105 | the prompt is shown iff the query is missing or shorter than 2 |
| Search.TokenFilterKeepsMatches | vigilnet-hub/components/SearchResults.tsx:33-37 | the kept tokens are exactly those whose name or symbol contains the query, each as often as the list holds it, in order |
| Search.NewsFilterKeepsMatches | vigilnet-hub/components/SearchResults.tsx:39-44 | the kept news items are exactly those whose title, content or source contains the query, each as often as the list holds it, in order |
| Search.AirdropFilterKeepsMatches | vigilnet-hub/components/SearchResults.tsx:46-51 | the kept airdrops are exactly those whose title, description or category contains the query, each as often as the list holds it, in order |
| Search.SearchPageSections | vigilnet-hub/components/SearchResults.tsx:53-102 | the total is the sum of the three counts; "no results" iff it is 0; each section shows the first 12 |
| Search.SearchIgnoresQueryCase | vigilnet-hub/components/SearchResults.tsx:31 | queries differing only in case give the same page |
| Search.NameMatchFound | vigilnet-hub/components/SearchResults.tsx:33-37 | a token whose name contains the query is found and the page shows results |
| Pagination.TotalPagesIsCeiling | vigilnet-hub/components/Pagination.tsx:16 | the page count is the least number of pages holding every item |
| Pagination.RenderedIffMoreThanOnePage | vigilnet-hub/components/Pagination.tsx:16-18 | the row appears iff there are more items than fit on one page |
| Pagination.Range | vigilnet-hub/components/Pagination.tsx:35-37 | the buttons for pages lo to hi, in order |
| Pagination.GetPageNumbers | vigilnet-hub/components/Pagination.tsx:30-63 | the counting loops build the row, for a numeric or NaN current page; with NaN the middle loop pushes nothing |
| Pagination.FewPagesAllShown | vigilnet-hub/components/Pagination.tsx:34-37 | up to five pages, every page is shown with no gap |
| Pagination.ManyPagesShape | vigilnet-hub/components/Pagination.tsx:38-60 | beyond five pages, the row runs from page 1 to the last: six or seven entries for a numeric page (seven iff it lies strictly between 3 and totalPages - 2), four for NaN |
| Pagination.PageNumbersWellFormed | vigilnet-hub/components/Pagination.tsx:30-63 | for a numeric current page, or at most five pages, the row is increasing and in range, and its gaps each hide at least one page |
| Pagination.NaNPageRow | vigilnet-hub/components/Pagination.tsx:39-58 | as written, a NaN current page beyond five pages gives the row 1, "...", "...", last page: two gaps side by side |
| Pagination.CorrectedRowWellFormed | vigilnet-hub/components/Pagination.tsx:30-63 | with an unparsable page read as page 1, the row is well formed for every input, has six or seven entries beyond five pages, and equals the source's row for numeric pages |
| Pagination.LocallyOrderedIsIncreasing | vigilnet-hub/components/Pagination.tsx:30-63 | neighbour order plus well-placed gaps give a strictly increasing row |
| Pagination.CurrentPageShown | vigilnet-hub/components/Pagination.tsx:30-63 | an existing current page always has its own button |
| Pagination.GoToPageRules | vigilnet-hub/components/Pagination.tsx:20-28 | after navigating, `page` is absent for page 1, holds the page number for other pages and "NaN" for NaN; other parameters are kept |
| Pagination.DeleteTwice | vigilnet-hub/components/Pagination.tsx:23 | deleting a parameter twice is the same as once |
| Pagination.SetParamRules | vigilnet-hub/components/Pagination.tsx:25 | after `set`, the parameter has exactly the one value |
| Pagination.NeighbourButtonsStayInRange | vigilnet-hub/components/Pagination.tsx:68-106 | from an existing page, enabled Previous and Next lead to existing pages; with a NaN page both are enabled and lead to NaN |
| ComparePage.TokenSymbols | vigilnet-hub/app/compare/page.tsx:9-11 | no parameter or an empty one gives no symbols |
| ComparePage.TokenSymbolsRules | vigilnet-hub/app/compare/page.tsx:9-11 | one symbol per comma-separated piece, empty ones included; each is the piece trimmed and uppercased |
| ComparePage.EmptyPiecesKept | vigilnet-hub/app/compare/page.tsx:10 | "a,,b" gives ["A", "", "B"] |
| TokenComparison.WithoutIndex | vigilnet-hub/components/TokenComparison.tsx:55-57 | an index in range removes one symbol; any other index changes nothing |
| TokenComparison.Comparison.constructor | vigilnet-hub/components/TokenComparison.tsx:13-16 | the first four initial symbols and an empty text box |
| TokenComparison.Comparison.SetInput | vigilnet-hub/components/TokenComparison.tsx:16 | typing sets the text box only |
| TokenComparison.Comparison.AddToken | vigilnet-hub/components/TokenComparison.tsx:48-53 | an accepted input is appended uppercased and the box cleared; otherwise nothing changes; at most four symbols |
| TokenComparison.Comparison.RemoveToken | vigilnet-hub/components/TokenComparison.tsx:55-57 | the symbol at the index is dropped; at most four symbols |
| TokenComparison.WithoutIndexRules | vigilnet-hub/components/TokenComparison.tsx:56 | the symbols before the index stay, and those after it move down by one |
| TokenComparison.AddThenRemove | vigilnet-hub/components/TokenComparison.tsx:48-57 | adding keeps the list duplicate-free, and removing the added symbol restores it |
| TokensPage.PageWindow | vigilnet-hub/app/tokens/page.tsx:18-22 | at most 12 tokens are shown |
| TokensPage.PageWindowRule | vigilnet-hub/app/tokens/page.tsx:13-22 | page p shows tokens 12(p-1) to 12p, cut at the end; a page past the end shows none |
| TokensPage.PageWindowBelowFirst | vigilnet-hub/app/tokens/page.tsx:18-22 | page 0 shows nothing; a negative page's bounds count from the end of the list, so `?page=-1` shows the twelve tokens before the last twelve |
| TokensPage.PagesCoverList | vigilnet-hub/app/tokens/page.tsx:18-22 | pages 1 to n together show the first 12n tokens |
| TokensPage.UpdatePairs | vigilnet-hub/app/tokens/page.tsx:48-50 | one pair per update |
| TokensPage.MergePrices | vigilnet-hub/app/tokens/page.tsx:52-64 | the list keeps its length |
| TokensPage.TokenList.constructor | vigilnet-hub/app/tokens/page.tsx:28-31 | the fetched tokens and the time |
| TokensPage.TokenList.UpdatePrices | vigilnet-hub/app/tokens/page.tsx:39-70 | with tokens and a successful answer, prices merge and the time is set; otherwise nothing changes |
| TokensPage.MergePricesRules | vigilnet-hub/app/tokens/page.tsx:48-63 | a token with updates takes price and change from the last update for its coin; one without is unchanged |
| TokensPage.LastForIsLast | vigilnet-hub/app/tokens/page.tsx:48-50 | the map holds the last update for each coin |
| Watchlist.WithoutId | vigilnet-hub/components/WatchlistButton.tsx:26 | the token is no longer listed |
| Watchlist.WatchlistButton.constructor | vigilnet-hub/components/WatchlistButton.tsx:13-18 | the flag is read from the stored list |
| Watchlist.WatchlistButton.Toggle | vigilnet-hub/components/WatchlistButton.tsx:20-34 | a listed token is removed and an unlisted one appended; the flag flips and keeps agreeing with the list |
| Watchlist.WithoutIdRules | vigilnet-hub/components/WatchlistButton.tsx:26 | removing keeps exactly the tokens with other ids, duplicates included, in order |
| Watchlist.AddThenRemove | vigilnet-hub/components/WatchlistButton.tsx:25-32 | adding an absent token then removing it restores the list |

## Left out

- HTTP requests, their timeouts, and RSS and HTML parsing are left out. axios and rss-parser appear only as the values they hand back. For cheerio, the model starts from the raw text and attributes each selector found, and it applies the `trim` calls and fallbacks to them itself.
- `parseInt`, `parseFloat` and `new Date(...).getTime()` are inputs. Floating-point arithmetic is not modelled: prices are reals that are only copied and compared.
- `Date.now()` and `new Date()` are a `now` parameter. Logging (`console.*`) is left out.
- API keys are `key` parameters. The hard-coded fallback keys in cmc.ts and coinbase.ts mean that in the source the "no key" branches never run.
- `fetchCMCPriceHistory` and `fetchCMCTokenDetail` are not part of this model. The history route takes the history fetch as a function parameter, and TokenComparison's per-symbol detail loading (`loadTokens`) is left out.
- Promise concurrency (`Promise.all`, `Promise.allSettled`) is a sequence of per-feed outcomes in feed order. React state updates are applied in order. Effects, `useMemo` caching and `setInterval` refreshes are left out.
- Rendering (JSX, class names other than the status colours, number formatting) and the pages that only fetch and display are left out.
- Case mapping covers ASCII letters only, and `localeCompare` is ordering by character code.
- Search.QueryAccepted, Cmc.CardQualifies, Coinbase.KeyConfigured: a string's length is its number of characters (code points), whereas JavaScript's `.length` counts UTF-16 code units. For text outside the Basic Multilingual Plane, such as emoji, the source's `query.length < 2`, `title.length > 3` and key-length tests can decide differently from the model. Strings are modelled as sequences of characters, not of UTF-16 units.
- URL-encoding of query strings in `goToPage` is left out. The query string is an ordered list of name/value pairs.
- A route's `catch` block is modelled as the failure of the awaited fetch. Exceptions that could only arise in code outside the model are not distinguished.
- Fetchers.TestnetsDistinct: proves only that chain ids are distinct. Distinct ids follow from the "testnet-" + chain id rule but are not stated.
- Cmc.CmcAirdrops, Scraper.Scrape: the item ids include a timestamp. Two items made from the same index at the same `now` would share an id; ids are not proved unique.

## Findings

| source | as written | input that shows it | evidently intended | confidence | as-written member | corrected member |
|---|---|---|---|---|---|---|
| vigilnet-hub/app/api/airdrops/route.ts:11 | `Math.min(limit, 100)` bounds the limit from above only, and `slice(0, limit)` with a negative limit drops items from the end | `GET /api/airdrops?limit=-1` when the scrape yields 102 airdrops returns 101 of them, above the cap of 100 | clamp the limit to 0..100 so at most 100 airdrops are returned | not executed | AirdropsRoute.AsWrittenOverrunsCap | AirdropsRoute.ClampedLimitCaps |
| vigilnet-hub/components/Pagination.tsx:39-58 | a current page of NaN (`parseInt` of an unparsable `page` parameter, app/tokens/page.tsx:13) fails both `currentPage <= 3` and `currentPage >= totalPages - 2`, and the middle loop from `NaN - 1` pushes nothing | `/tokens?page=abc` with more than five pages of tokens renders the buttons 1, "...", "...", last page | read an unparsable page as page 1, giving the row of page 1 | not executed | Pagination.NaNPageRow | Pagination.CorrectedRowWellFormed |
