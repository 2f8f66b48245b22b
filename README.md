# Stock portfolio tracker — a verified model of its ledger

The tracker keeps purchase lots of stocks in the browser's local storage. This project
models its core in Dafny:

- **Lots.** Each lot records the shares left, the shares bought, the total paid and a
  per-share cost.
- **Sales.** A sale books a transaction on its lot. The lot then keeps
  remaining + sold = bought and realized = Σ transaction gains.
- **Groups and totals.** Lots are grouped by ticker, and each group and the portfolio
  carry summed figures.
- **Prices.** Prices come from a quote provider behind a fixed-window limiter of 60
  requests per 60 000 ms. A refresh re-prices every lot.
- **Forms.** Three form components add a lot, edit a lot and sell shares.

Modules (one per source file, plus shared types):

| file | module | models |
|---|---|---|
| wrappers.dfy | Wrappers | `Option`, `Result` |
| portfolio_types.dfy | PortfolioTypes | the record shapes; JavaScript `\|\|` on optional numbers (`OrElse`), division (`Div`) |
| portfolio_storage.dfy | PortfolioStorage | loading (validation and migration of parsed records), saving, and the class whose methods load, change and save the stored list |
| portfolio_projections.dfy | PortfolioProjections | the ticker grouping fold with its average pass, and the portfolio totals |
| use_portfolio.dfy | UsePortfolio | the hook's list operations: add, update, delete, sell, refresh; the quote fan-out through the limiter |
| finnhub_api.dfy | FinnhubApi | the limiter state machine, the request outcome and quote validation, as a class |
| position_item.dfy | PositionItem | the lot-edit rule, cancel and the row predicates, as a class holding the shown lot and the edit state |
| sell_shares_form.dfy | SellSharesForm | default values, the sale preview, field rules and the submitted sale |
| add_position_form.dfy | AddPositionForm | ticker rules and normalisation, numeric minimums, the per-share preview |

**JavaScript semantics.**
- `a || b` on an optional number gives `b` when `a` is absent or 0, which is `OrElse`.
- A division whose denominator can be 0 goes through `Div`, which is 0 there; the source
  gives Infinity or NaN. Every property that involves such a quotient is stated under a
  nonzero denominator.
- Numbers are unbounded reals.

## Model

| member | source | states |
|---|---|---|
| PortfolioStorage.Migrate | src/services/portfolioStorage.ts:44-63 | the migrated lot copies id, ticker, name, date, shares (≥ 0), total (> 0), price, value and time stamp; each `\|\|` keeps a stored value that is present and nonzero and otherwise takes its default (original shares ← shares, per-share cost ← total/shares, realized ← 0, unrealized and its percentage ← the legacy gainLoss fields); a stored realized figure or transaction list is kept, a missing list becomes [] |
| PortfolioStorage.MigrateAll | src/services/portfolioStorage.ts:30-64 | the map-then-filter keeps no more records than it gets, and every kept lot has shares ≥ 0 and total > 0 |
| PortfolioStorage.LoadPositions | src/services/portfolioStorage.ts:16-69 | no data, unparsable data or a non-array gives []; otherwise the migrated valid records |
| PortfolioStorage.MigrateAllAppend | src/services/portfolioStorage.ts:30-64 | loading distributes over concatenation, so the kept lots stay in stored order |
| PortfolioStorage.LoadSingle | src/services/portfolioStorage.ts:32-42 | one record loads to its migration if it passes the checks, and to nothing otherwise |
| PortfolioStorage.LoadCount | src/services/portfolioStorage.ts:32-64 | the loaded count is exactly the number of records that pass the checks |
| PortfolioStorage.MigrateAllFull | src/services/portfolioStorage.ts:30-64 | if nothing was dropped, every record was valid and the k-th lot is the k-th record migrated |
| PortfolioStorage.ReloadFixedPoint | src/services/portfolioStorage.ts:7-61 | saving one lot and loading it back gives that lot exactly when it is canonical (valid, and no `\|\|` default would fire) |
| PortfolioStorage.RecordsOfSave | src/services/portfolioStorage.ts:7-14 | a saved list is an array of objects, one record per lot in order |
| PortfolioStorage.MigrateSaved | src/services/portfolioStorage.ts:7-64 | re-loading the records of a canonical list returns that list |
| PortfolioStorage.LoadSaveRoundTrip | src/services/portfolioStorage.ts:7-69 | load(save(ps)) == ps if and only if every lot is canonical |
| PortfolioStorage.FindIndex | src/services/portfolioStorage.ts:79-95 | `findIndex`: the first lot with the id, or None when no lot has it |
| PortfolioStorage.WithoutId | src/services/portfolioStorage.ts:89 | the filter never lengthens the list and leaves no lot with the id |
| PortfolioStorage.WithoutIdAppend | src/services/portfolioStorage.ts:89 | the filter distributes over concatenation (order is kept) |
| PortfolioStorage.UpdateFirst | src/services/portfolioStorage.ts:79-84 | only the first lot with the id is replaced; with no such lot the list is unchanged |
| PortfolioStorage.ApplySell | src/services/portfolioStorage.ts:106-111 | shares drop by the count sold, the transaction is appended, realized grows by its gain (from 0 when absent), and nothing else changes |
| PortfolioStorage.SellPreservesInvariant | src/services/portfolioStorage.ts:101-111 | a sale that passes the oversell check keeps remaining + Σ sold = bought and realized = Σ transaction gains |
| PortfolioStorage.SellPreservesCanonical | src/services/portfolioStorage.ts:101-111 | such a sale keeps a canonical lot canonical, so the next load leaves it alone |
| PortfolioStorage.SellSequenceInvariant | src/services/portfolioStorage.ts:93-122 | any run of sales that all pass the check keeps the invariant, appends exactly those transactions, and leaves bought shares and total cost alone |
| PortfolioStorage.AllTransactionsLength | src/services/portfolioStorage.ts:126-130 | the gathered history has one entry per transaction of every lot |
| PortfolioStorage.InsertStep | src/services/portfolioStorage.ts:133 | moving a newer transaction left past an older neighbour keeps the insertion shape |
| PortfolioStorage.InsertDone | src/services/portfolioStorage.ts:133 | once the moving transaction is no newer than its left neighbour, the prefix is ordered newest first |
| PortfolioStorage.SwapAdjacent | src/services/portfolioStorage.ts:133 | exchanging two neighbours in place keeps the array's multiset |
| PortfolioStorage.SortNewestFirst | src/services/portfolioStorage.ts:133 | the in-place sort leaves the array newest first and a permutation of what it was |
| PortfolioStorage.PortfolioStorage.constructor | src/services/portfolioStorage.ts:6 | the store starts with the given stored data |
| PortfolioStorage.PortfolioStorage.SavePositions | src/services/portfolioStorage.ts:7-14 | the stored data becomes the saved list |
| PortfolioStorage.PortfolioStorage.AddPosition | src/services/portfolioStorage.ts:71-75 | stores the loaded list with the lot appended; over canonical lots the next load sees exactly that list |
| PortfolioStorage.PortfolioStorage.UpdatePosition | src/services/portfolioStorage.ts:77-85 | replaces the first lot with the id and saves; with no such lot nothing is written |
| PortfolioStorage.PortfolioStorage.DeletePosition | src/services/portfolioStorage.ts:87-91 | saves the loaded list without every lot of that id |
| PortfolioStorage.PortfolioStorage.SellShares | src/services/portfolioStorage.ts:93-122 | unknown id: NotFound and no write; oversell: refused (the source's throw) with no write; otherwise the first such lot is replaced by the sold lot, which is returned |
| PortfolioStorage.PortfolioStorage.GetAllTransactions | src/services/portfolioStorage.ts:124-134 | returns every transaction of the loaded lots, each once, newest first |
| PortfolioProjections.WithTickerMembers | src/hooks/usePortfolio.ts:20-46 | a ticker's selection holds exactly the lots of that ticker |
| PortfolioProjections.WithTickerAppend | src/hooks/usePortfolio.ts:24 | selection distributes over concatenation, so a group's lots keep list order |
| PortfolioProjections.TickersExact | src/hooks/usePortfolio.ts:21-31 | the group tickers are distinct and are exactly the tickers that occur |
| PortfolioProjections.TickersSnoc | src/hooks/usePortfolio.ts:21-43 | a lot with an unseen ticker opens a new group at the end; one with a seen ticker adds none |
| PortfolioProjections.FindGroup | src/hooks/usePortfolio.ts:21 | `find`: the index of a group with the ticker, or None when there is none |
| PortfolioProjections.RawGroupSnoc | src/hooks/usePortfolio.ts:23-29 | appending a lot changes only its own ticker's group, by adding it to every total |
| PortfolioProjections.JoinStep | src/hooks/usePortfolio.ts:23-29 | a reduction step that finds the group keeps the fold equal to the grouping of the lots seen so far |
| PortfolioProjections.OpenStep | src/hooks/usePortfolio.ts:30-43 | a reduction step that opens a group keeps the same correspondence |
| PortfolioProjections.TickerGroups | src/hooks/usePortfolio.ts:20-53 | the reduce followed by the average pass computes exactly the grouping specification |
| PortfolioProjections.SetAverages | src/hooks/usePortfolio.ts:49-53 | every group, in place, gets total cost over total shares as its average when it has shares and is otherwise unchanged |
| PortfolioProjections.GroupsPartition | src/hooks/usePortfolio.ts:20-46 | groups have distinct tickers, every lot has a group, and a group holds exactly the lots of its ticker |
| PortfolioProjections.FirstIndex | src/hooks/usePortfolio.ts:20-46 | the position of a ticker's first lot (the list length if it has none) |
| PortfolioProjections.GroupsInFirstOccurrenceOrder | src/hooks/usePortfolio.ts:20-46 | groups come in the order their tickers first occur in the list |
| PortfolioProjections.SumByTicker | src/hooks/usePortfolio.ts:20-46 | summing any figure group by group equals summing it over all lots |
| PortfolioProjections.GroupTotalMatches | src/hooks/usePortfolio.ts:25-39 | a group total that is its lots' sum adds up across groups to the portfolio sum |
| PortfolioProjections.GroupTotalsMatchPortfolio | src/hooks/usePortfolio.ts:25-61 | the five group totals add up to the portfolio's shares, cost, value (current value or cost), unrealized and realized |
| PortfolioProjections.GroupAverage | src/hooks/usePortfolio.ts:33-53 | a group is non-empty; with shares > 0 its average times its shares is its total cost, otherwise the average is its first lot's per-share cost; name and price come from the first lot |
| PortfolioProjections.ComputePortfolio | src/hooks/usePortfolio.ts:56-70 | the four sums, gain = unrealized + realized, and percentage × cost = gain × 100 when cost > 0, else 0 |
| PortfolioProjections.RemainingCostAverageBounds | src/hooks/usePortfolio.ts:49-53 | the remaining-cost average lies between the lowest and highest per-share cost of the group's lots |
| PortfolioProjections.AverageAfterPartialSale | src/hooks/usePortfolio.ts:49-53 | 100 shares bought for 1500 with 40 sold: the group average is 25, while the remaining lots cost 15 a share |
| UsePortfolio.NewLot | src/hooks/usePortfolio.ts:72-80 | the new lot takes the given fields, the fresh id, bought = shares, no transactions, realized 0, and per-share cost × shares = total |
| UsePortfolio.AddPosition | src/hooks/usePortfolio.ts:83 | the list grows by exactly the new lot at the end |
| UsePortfolio.NewLotInvariant | src/hooks/usePortfolio.ts:72-80 | a new lot satisfies the ledger invariant |
| UsePortfolio.AddKeepsStorageInStep | src/hooks/usePortfolio.ts:82-83 | over canonical lots, the hook's new list is what storage then loads |
| UsePortfolio.UpdatePosition | src/hooks/usePortfolio.ts:86-91 | every lot with the id becomes the given lot; the others are unchanged |
| UsePortfolio.UpdateMatchesStorage | src/hooks/usePortfolio.ts:86-91 | with unique ids the hook's list equals the storage's first-match update |
| UsePortfolio.DeleteRemovesExactly | src/hooks/usePortfolio.ts:93-96 | a lot survives deletion exactly when it was in the list and carries another id |
| UsePortfolio.DeleteCount | src/hooks/usePortfolio.ts:93-96 | deletion shortens the list by the number of lots with that id, and changes nothing when there are none |
| UsePortfolio.BuildSellTransaction | src/hooks/usePortfolio.ts:103-123 | unknown id ⇔ PositionNotFound; for a found lot, oversell ⇔ count sold > shares; the booked figures are proceeds = count × price, cost snapshot = the lot's, realized = proceeds − cost × count, percentage × cost = (price − cost) × 100 |
| UsePortfolio.SellShares | src/hooks/usePortfolio.ts:98-131 | an error is passed on; a transaction that can be built always succeeds, and then every lot with the id becomes the sold lot and the others stay |
| UsePortfolio.SellMatchesStorage | src/hooks/usePortfolio.ts:125-130 | with unique ids the hook's list is the storage's update, and the sold lot keeps the ledger invariant |
| UsePortfolio.ApplyQuote | src/hooks/usePortfolio.ts:143-156 | re-pricing at c sets value = c × shares, unrealized = value − cost × shares, percentage × (cost × shares) = unrealized × 100, and the time stamp; nothing else changes |
| UsePortfolio.RefreshPrices | src/hooks/usePortfolio.ts:133-178 | an empty list is skipped, any other list is refreshed |
| UsePortfolio.RefreshKeepsPositions | src/hooks/usePortfolio.ts:140-170 | the refreshed list has the same length and order: lots with a quote are re-priced, and the others are kept as they were |
| UsePortfolio.RefreshNeverReportsFailures | src/hooks/usePortfolio.ts:159-178 | as written, the failure count is 0 whatever the quotes |
| UsePortfolio.OneFailedQuoteGoesUnreported | src/hooks/usePortfolio.ts:159-178 | one lot whose quote failed: one position is not updated, yet 0 failures are reported |
| UsePortfolio.RefreshPricesReporting | src/hooks/usePortfolio.ts:133-178 | the corrected refresh skips exactly the empty list |
| UsePortfolio.ReportingCountsFailures | src/hooks/usePortfolio.ts:166-178 | the corrected refresh keeps the same list and reports a failure exactly when some quote failed |
| UsePortfolio.FetchQuotes | src/hooks/usePortfolio.ts:140-143 | one limiter-guarded quote request per lot in order: the k-th lot gets a quote exactly when k is below what the limiter had left and its delivery is an accepted quote, and the quote is that delivery's positive price; the limiter ends as after one check per lot at that instant |
| UsePortfolio.WorkedExample | src/hooks/usePortfolio.ts:72-156 | 100 shares for 1500 cost 15 each; selling 40 at 20 realizes 200; the 60 left at 18 are worth 1080, 180 (20 %) above cost |
| FinnhubApi.Check | src/services/finnhubApi.ts:12-28 | at or after the reset time a new window starts at now + 60000 and the request is granted as its first; before it, the request is granted iff fewer than 60 were granted and counts one; a refusal leaves the state unchanged |
| FinnhubApi.Remaining | src/services/finnhubApi.ts:86-92 | 60 after the reset time, else 60 − requests, always within [0, 60] |
| FinnhubApi.TimeUntilReset | src/services/finnhubApi.ts:94-96 | never negative, 0 exactly once the reset time is reached, and otherwise now + result = reset time |
| FinnhubApi.CeilDiv | src/services/finnhubApi.ts:33 | `Math.ceil(a / b)`: the least q with a ≤ q × b |
| FinnhubApi.CheckPreservesValid | src/services/finnhubApi.ts:12-28 | the request count stays within [0, 60] |
| FinnhubApi.CheckConsumesOne | src/services/finnhubApi.ts:12-28 | granted iff some requests remain; a grant uses exactly one; a refusal happens only with none left |
| FinnhubApi.RefusalWaitsAtLeastOneSecond | src/services/finnhubApi.ts:31-33 | after a refusal the window has not reset, and the reported wait is at least one second |
| FinnhubApi.RunWithinWindow | src/services/finnhubApi.ts:12-28 | checks that all fall before the reset time grant at most 60 − requests, never exceed 60 in all, and keep the reset time |
| FinnhubApi.RunGrantsRemaining | src/services/finnhubApi.ts:12-28 | within one window, exactly min(number of checks, remaining) are granted |
| FinnhubApi.FinnhubClient.constructor | src/services/finnhubApi.ts:7-10 | a new client has 0 requests and resets 60000 ms after creation |
| FinnhubApi.FinnhubClient.CheckRateLimit | src/services/finnhubApi.ts:12-28 | the client state and the answer follow `Check` |
| FinnhubApi.FinnhubClient.MakeRequest | src/services/finnhubApi.ts:30-59 | refused: RateLimited with the wait rounded up to seconds; granted: unreachable, non-OK status, or an error in the body each fail, and otherwise the body is returned |
| FinnhubApi.FinnhubClient.GetQuote | src/services/finnhubApi.ts:61-70 | a quote is returned iff the request was granted and the body has no error and a positive `c`; every quote returned is positive |
| FinnhubApi.FinnhubClient.RemainingRequests | src/services/finnhubApi.ts:86-92 | within [0, 60] |
| FinnhubApi.FinnhubClient.TimeUntilResetAt | src/services/finnhubApi.ts:94-96 | never negative |
| PositionItem.EditBuffer | src/components/PositionItem.tsx:31-74 | the buffer holds the lot's shares, total and date |
| PositionItem.PerSharePreview | src/components/PositionItem.tsx:134 | total/shares (preview × shares = total) while shares > 0, else 0; positive whenever save is enabled |
| PositionItem.EditedLot | src/components/PositionItem.tsx:49-63 | the three edited fields; per-share cost × shares = total; bought shares kept, or taken from shares when 0; with a nonzero price, value = price × shares, unrealized = value − cost × shares, percentage × (cost × shares) = unrealized × 100, otherwise those figures are carried over; id, ticker, name, transactions, realized, price and time stamp unchanged |
| PositionItem.PositionRow.constructor | src/components/PositionItem.tsx:28-35 | a row starts out of edit mode with the buffer filled from its lot |
| PositionItem.PositionRow.StartEditing | src/components/PositionItem.tsx:277 | enters edit mode and keeps the buffer |
| PositionItem.PositionRow.ReceivePosition | src/components/TickerGroupView.tsx:46-48 | a new `position` prop replaces the row's lot and leaves the buffer and edit mode as they were |
| PositionItem.PositionRow.StartEditingSynced | src/components/PositionItem.tsx:31-35 | the corrected edit button: enters edit mode with the buffer refilled from the lot the row now shows |
| PositionItem.PositionRow.SetShares | src/components/PositionItem.tsx:119 | sets the buffer's share count only |
| PositionItem.PositionRow.SetTotalPurchasePrice | src/components/PositionItem.tsx:130 | sets the buffer's total only |
| PositionItem.PositionRow.SetPurchaseDate | src/components/PositionItem.tsx:107 | sets the buffer's date only |
| PositionItem.PositionRow.HandleSave | src/components/PositionItem.tsx:48-67 | reachable only when save is enabled; builds the lot by a spread and conditional assignments, equal to `EditedLot` of the buffer, with a positive per-share cost, and leaves edit mode |
| PositionItem.PositionRow.HandleCancel | src/components/PositionItem.tsx:69-76 | the buffer is refilled from the lot and edit mode ends |
| PositionItem.SavedCostPositive | src/components/PositionItem.tsx:134-165 | whatever save accepts gets a positive per-share cost, the one the preview showed |
| PositionItem.SellOfferedIffOpen | src/components/PositionItem.tsx:94-267 | with no negative holding, the sell action is offered exactly when the lot is not closed |
| PositionItem.EditedUnrealizedOverTotal | src/components/PositionItem.tsx:59-63 | with a price and an accepted edit, unrealized = value − edited total and the percentage is over that total |
| PositionItem.EditKeepsLedgerIff | src/components/PositionItem.tsx:49-56 | an edit keeps remaining + sold = bought exactly when it leaves the share count unchanged (the edit does not enforce shares ≤ bought) |
| PositionItem.EditKeepsCanonical | src/components/PositionItem.tsx:49-63 | a saved edit of a canonical lot stays canonical unless its recomputed unrealized figure is exactly 0 |
| PositionItem.NoOpEditRepricesIff | src/components/PositionItem.tsx:31-54 | saving the unchanged buffer keeps the per-share cost exactly when cost × remaining shares equals the total |
| PositionItem.NoOpEditAfterPartialSale | src/components/PositionItem.tsx:54 | 100 bought for 1500 (15 each), 40 sold: a save without changes sets the per-share cost to 25 |
| PositionItem.StaleBufferAfterSale | src/components/PositionItem.tsx:31-35 | a row kept mounted through a sale of 40 of 100 shares, then saved unchanged, restores 100 shares beside the sale and breaks remaining + sold = bought |
| PositionItem.SyncedNoOpEditKeepsLedger | src/components/PositionItem.tsx:48-56 | with the buffer taken from the lot shown, an unchanged save keeps the ledger invariant |
| PositionItem.EditedLotCorrected | src/components/PositionItem.tsx:49-63 | the corrected edit: bought = edited shares + Σ sold and per-share cost × bought = total; otherwise the same fields as `EditedLot` |
| PositionItem.CorrectedEditKeepsLedger | src/components/PositionItem.tsx:49-56 | the corrected edit keeps the ledger invariant for every non-negative share count |
| PositionItem.CorrectedNoOpEditKeepsCost | src/components/PositionItem.tsx:54-55 | under the corrected edit, saving the unchanged buffer keeps the bought count and the per-share cost |
| SellSharesForm.DefaultSalePrice | src/components/SellSharesForm.tsx:27 | the current price when known and nonzero, else the lot's per-share cost |
| SellSharesForm.DefaultValues | src/components/SellSharesForm.tsx:24-29 | no share count, today's date and the default price |
| SellSharesForm.Preview | src/components/SellSharesForm.tsx:42-46 | proceeds = count × price when both are nonzero, else 0; cost = count × per-share cost when the count is nonzero, else 0; realized = proceeds − cost; percentage × cost = realized × 100 when cost > 0, else 0; gain ⇔ realized ≥ 0 |
| SellSharesForm.Submit | src/components/SellSharesForm.tsx:48-54 | with sell-all, exactly the remaining shares; otherwise the entered count; date and price as entered |
| SellSharesForm.DefaultPriceWithoutQuoteBreaksEven | src/components/SellSharesForm.tsx:27-46 | with no current price the preview at the default price shows a 0 gain, whichever count is entered |
| SellSharesForm.PreviewRealized | src/components/SellSharesForm.tsx:42-46 | for nonzero entries realized = (price − cost) × count; for a positive count gain ⇔ price ≥ cost |
| SellSharesForm.PreviewPercentage | src/components/SellSharesForm.tsx:45 | with a positive cost the preview percentage is the one the hook books |
| SellSharesForm.BookedAgreesWithPreview | src/components/SellSharesForm.tsx:42-46 | a transaction with the hook's booked figures for a count ≥ 0.001 and a price ≥ 0.01 agrees with the preview of those entries |
| SellSharesForm.PreviewMatchesBookedSale | src/components/SellSharesForm.tsx:42-54 | a valid form without sell-all books a transaction with the preview's proceeds and realized figure, and its percentage whenever cost > 0 |
| SellSharesForm.ValidSubmissionBooks | src/components/SellSharesForm.tsx:50-112 | a submission that passes the field rules is never an oversell: the hook books it, and a count entered by hand is at least 0.001 |
| SellSharesForm.SellAllClosesLot | src/components/SellSharesForm.tsx:50 | selling all of a lot that keeps the ledger invariant closes it (0 shares) and keeps the invariant, with Σ sold = bought |
| AddPositionForm.UpperChar | src/components/AddPositionForm.tsx:36 | ASCII a–z go to A–Z (code − 32); every other character is kept |
| AddPositionForm.ToUpper | src/components/AddPositionForm.tsx:36 | the same length, each character upper-cased |
| AddPositionForm.TrimStart | src/components/AddPositionForm.tsx:36 | a suffix that is empty or starts with a non-space, after dropping only white space |
| AddPositionForm.TrimEnd | src/components/AddPositionForm.tsx:36 | a prefix that is empty or ends with a non-space, after dropping only white space |
| AddPositionForm.PricePerSharePreview | src/components/AddPositionForm.tsx:30-32 | total/shares (preview × shares = total) when both are set and nonzero, else 0 |
| AddPositionForm.Submit | src/components/AddPositionForm.tsx:34-40 | the normalised ticker; shares, total and date unchanged; no other field set |
| AddPositionForm.UpperCharFacts | src/components/AddPositionForm.tsx:36 | upper-casing sends letters to A–Z, keeps white space white space, and is idempotent |
| AddPositionForm.LettersUpperCapitals | src/components/AddPositionForm.tsx:80-86 | the upper-casing of a string of ASCII letters holds only A–Z, none of them white space |
| AddPositionForm.TrimWithoutWhitespace | src/components/AddPositionForm.tsx:36 | a string without white space is its own trim |
| AddPositionForm.ValidTickerNormalises | src/components/AddPositionForm.tsx:36-86 | an accepted ticker normalises to its upper-casing (the trim never fires) |
| AddPositionForm.TrimIdempotent | src/components/AddPositionForm.tsx:36 | trimming twice is trimming once |
| AddPositionForm.NormaliseIdempotent | src/components/AddPositionForm.tsx:36 | normalising a normalised ticker returns it unchanged |
| AddPositionForm.ValidFormBuildsSoundLot | src/components/AddPositionForm.tsx:103-141 | a valid form yields a lot whose per-share cost is positive and equals the preview, that keeps the ledger invariant, and that storage reloads unchanged |

## Left out

- React state: the `loading`, `error` and `lastUpdated` flags, the effects and callbacks, and the open/expand toggles are left out. The hook's `positions` and the stored list are one list.
- Local storage and JSON: loading starts from records that are already parsed. The stored blob is the `Stored` value held by the storage class. `clearAll` and the transactions key are not modelled.
- Network: `fetch` and `response.json()` are replaced by a `Delivery` parameter. `getCompanyProfile` and `searchSymbol` are not modelled (network lookups with no ledger logic).
- Concurrency: `Promise.allSettled` is modelled as one quote per lot, in list order, at a single instant (`FetchQuotes`). The refresh-time text is one shared stamp.
- Ids, clocks and dates are parameters: `randomUUID`, `Date.now`, the `format` of today, and the clock read for the wait message. A sale date is the time value the history sort compares, not its text.
- Floating point: values are unbounded reals, so IEEE rounding, `toFixed` and currency formatting are not modelled. Division by zero yields 0, not Infinity or NaN.
- AddPositionForm.UpperChar: upper-cases ASCII letters only, not the rest of Unicode. Accepted tickers are ASCII letters, so normalisation of accepted input is exact.
- PortfolioStorage.SortNewestFirst: proves newest first and a permutation, but not the stability of the source's sort.
- SellSharesForm.FieldsValid: with sell-all checked, the share-count rules are treated as not applying. The unmounted input's rule turns its `required` off, and the model assumes the form library skips its range rules as well.
- SellSharesForm.FieldsValid: the inputs' `step` attributes (0.001 shares, 0.01 price) also make the browser refuse a value that is not a multiple of the step; the model checks only the minimum and the maximum.
- AddPositionForm.ValidForm: the `step` attributes of the share and total inputs are not modelled either; any value at or above the minimum is accepted.
- Display-only functions are not modelled: the other components (summary, lists, history view, alert) and the formatting helpers.

## Findings

| source | as written | input that shows it | evidently intended | confidence | as-written member | corrected member |
|---|---|---|---|---|---|---|
| src/hooks/usePortfolio.ts:159-178 | each lot's task catches its own failure and returns the lot, so no task rejects and the failure count is always 0 | one lot whose quote request fails | report one failure per lot whose price could not be fetched | high, not executed | UsePortfolio.OneFailedQuoteGoesUnreported | UsePortfolio.ReportingCountsFailures |
| src/hooks/usePortfolio.ts:49-53 | the group average divides the total originally paid by the shares that remain | one lot of 100 shares bought for 1500, 40 sold: average 25 | the average per-share cost of the shares held (15 here) | high, not executed | PortfolioProjections.AverageAfterPartialSale | PortfolioProjections.RemainingCostAverageBounds |
| src/components/PositionItem.tsx:54-55 | the edit recomputes the per-share cost as the total originally paid over the remaining shares, and keeps the old bought count | the same lot after the sale, once its row has been mounted afresh (after a reload, say), edit opened and saved without a change: per-share cost becomes 25 | an edit that changes nothing leaves the lot's cost alone, and the bought count follows the edited holding | medium, not executed | PositionItem.NoOpEditAfterPartialSale | PositionItem.CorrectedNoOpEditKeepsCost |
| src/components/PositionItem.tsx:31-35 | the edit buffer is filled only when the row is created and on cancel, so a row that stays mounted while its lot changes opens the edit with the old figures | 100 shares bought for 1500, 40 sold from the same row, edit opened and saved without a change: 100 shares again beside the 40-share sale | opening the edit shows the lot as it is now | medium, not executed | PositionItem.StaleBufferAfterSale | PositionItem.SyncedNoOpEditKeepsLedger |
