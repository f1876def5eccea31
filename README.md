# Investment portfolio core, modelled in Dafny

This project models the core of a personal investment-portfolio web
application. The application keeps one table of investments: ISIN, asset
name, purchase value, amount invested, current price, profit/loss
percentage, total money and investment type. A set of HTTP handlers reads
and writes that table:

- the **table view** sorts every investment into one of eight buckets (DCA,
  renta fija, renta variable, cryptomonedas, acciones, crowfounding, EPSV,
  capital riesgo) by substring rules on the upper-cased type, and counts the
  buckets;
- the **composition view** (pie chart) uses seven of those buckets, without
  the DCA rule. It adds up each bucket's money and turns the totals into
  percentages of the whole;
- the **per-asset ranking** sorts the investments by money, largest first,
  and gives each its share of the total;
- the **portfolio overview** adds up amount, money and purchase value;
- the **bank summary** totals a fixed list of six bank accounts;
- **refresh all** re-prices every tradable investment and rewrites its
  current value, profit/loss and total money. A row is tradable when its
  lower-cased ISIN (not its type) mentions neither "crowfounding" nor
  "capital riesgo"; this follows the code;
- **edit** changes the purchase value and/or amount of the first investment
  with a given ISIN, or only refreshes its price;
- **add** validates a request, prices the new asset and inserts it.

Beside these it models:

- the valuation formulas: `profit_loss = (current - purchase) / purchase * 100`
  and `total_money = amount + amount * profit_loss / 100`;
- the price lookup's fallback chain;
- the per-category aggregation helper;
- the browser's profit/loss CSS class.

Every handler is modelled as a function of the rows it reads, plus its
request. The modules are:

- `InvestmentStore.Store` models the database table. It is a class whose
  `rows` and `nextId` fields are rewritten by `Update` and `Insert`. Each
  call takes the store's acceptance of the write as a `bool` parameter.
- The three writing handlers are methods on that store. Each is proved
  equal to a specification function: `UpdateAssets.Run`,
  `EditAsset.EditSpec` or `AddAsset.AddSpec`.
- The aggregation loops of `utils/calculations.py` are methods proved
  against `Calculations.CategoryTotalsOf`.
- Each row-distributing loop of the views is `Buckets.Distribute`, proved
  against `Buckets.Members`.
- The refresh loop `UpdateAssets.Run` takes its ISIN filter as a parameter
  `keep: string -> bool`. The handler passes `UpdateAssets.Tradable`, the
  test on the lower-cased ISIN, so the loop's lemmas hold for any filter.

External inputs are parameters:

- the market price of an ISIN is a function `price: string -> real`;
- Python's `float` on a string is `parse: string -> Option<real>` (`None`
  where it raises);
- the clock is a single timestamp `now`.

Monetary values are Dafny `real`, so the arithmetic is exact.

## Model

| member | source | states |
|---|---|---|
| YFinanceHelper.CurrentValue | utils/yfinance_helper.py:7-56 | the price is the intraday close if there is one, else the fast-info last price, else the info market price, else 0 |
| YFinanceHelper.PercentChange | utils/yfinance_helper.py:58-64 | a zero purchase value gives 0; otherwise the percentage times the purchase value is 100 times the price gain |
| YFinanceHelper.PercentChangeSign | utils/yfinance_helper.py:58-64 | for a positive purchase value the percentage is positive, negative or zero exactly when the price rose, fell or stayed |
| YFinanceHelper.ProfitLoss | utils/yfinance_helper.py:58-64 | a missing or zero purchase value gives 0, as does a failed float conversion of either value; otherwise the result is the percentage change of the converted values |
| YFinanceHelper.ProfitLossOfNumbers | utils/yfinance_helper.py:58-64 | on two numbers the guarded helper agrees with the plain percentage formula |
| Calculations.TotalMoney | utils/calculations.py:2-4 | no change keeps the amount; for a positive amount the money exceeds (falls below) it exactly when the percentage is positive (negative); -100% leaves nothing |
| Calculations.TotalMoneyIsPriceRatio | utils/calculations.py:2-4 | feeding the percentage change into the total-money formula scales the amount by current price over purchase price |
| Calculations.CategoryTotals | utils/calculations.py:10-33 | the result maps each category that occurs to the purchase-value sum, money sum, row count and average of exactly the rows of that category |
| Calculations.AccumulateCategories | utils/calculations.py:12-25 | the first loop leaves, for each category met, the sums and count of its rows, with average 0 |
| Calculations.AverageCategories | utils/calculations.py:28-32 | the second loop replaces each entry's average by the gain over purchase value in percent, when the count and purchase total are positive |
| Calculations.AveragedAccumulators | utils/calculations.py:10-33 | averaging the accumulators gives the per-category totals |
| Calculations.CategoryTotalsFacts | utils/calculations.py:10-33 | the keys are the categories that occur; each entry's count is the size of its group and is positive, its sums are the group's sums, and its average is the percent change from the purchase total to the money total when that total is positive, 0 otherwise |
| Calculations.CategoryOf | utils/calculations.py:14 | a row's category is its category column, or "Sin categoría" when the row has none |
| Calculations.InCategoryIff | utils/calculations.py:13-14 | a row is in a category's group exactly when it is one of the rows and its category field (or "Sin categoría" when absent) is that category |
| Calculations.CountsAddUp | utils/calculations.py:12-25 | the counts of all categories add up to the number of rows |
| Calculations.GroupsCoverRows | utils/calculations.py:12-25 | the groups of the categories that occur have sizes adding up to the number of rows |
| Buckets.TypeKey | api/tables.py:61 | the upper-cased type is empty exactly when the type is missing, null or empty, so all three fall to the default |
| Buckets.Members | api/tables.py:60-82 | a bucket's list is never longer than the input |
| Buckets.MembersIff | api/tables.py:60-82 | a row is in a bucket's list exactly when it is an input row sent to that bucket |
| Buckets.MembersConcat | api/tables.py:60-82 | the lists of a concatenation are the concatenations of the lists, so input order is kept |
| Buckets.Distribute | api/tables.py:60-82 | the loop produces one list per bucket, and each list is exactly that bucket's members in input order |
| Buckets.CountPartition | api/tables.py:85-95 | when every row's bucket occurs once among the buckets, the list lengths add up to the number of rows |
| Buckets.SumPartition | api/pie-chart.py:86-97 | under the same condition the per-bucket sums of a column add up to that column's sum |
| Buckets.FirstMatchWins | api/tables.py:64-82 | the first-match rule chain yields the earliest bucket whose rule holds, and the fallback when none holds |
| Tables.TableRule | api/tables.py:64-80 | the test of each branch of the chain: "DCA" together with a renta phrase for DCA, its own phrase for every other bucket |
| Tables.TableCategory | api/tables.py:64-82 | the chain always answers one of the eight buckets, and DCA exactly when the type mentions "DCA" and a renta phrase |
| Tables.TableFirstMatch | api/tables.py:60-82 | the table view's chain is the eight-rule table read first match first, with renta variable as default |
| Tables.TableBucketsOnce | api/tables.py:100-113 | every bucket occurs exactly once in the response |
| Tables.TableCountsAddUp | api/tables.py:85-95 | the eight counts add up to `counts.total` |
| Tables.TableIgnoresCase | api/tables.py:61 | lower- or upper-casing the type does not change its bucket |
| Tables.TableDefault | api/tables.py:80-82 | a missing, empty or "Otros" type goes to renta variable |
| Tables.TableDcaFallsThrough | api/tables.py:64-71 | "DCA" without a renta phrase is not DCA ("dca crypto" is crypto) |
| Tables.TableEarlierRuleWins | api/tables.py:66-73 | with two phrases the earlier rule wins ("Renta Fija Acciones" is renta fija) |
| Tables.TableDcaRenta | api/tables.py:64-65 | "dca renta fija" and "DCA Renta Variable" are both DCA |
| Tables.Categorize | api/tables.py:36-113 | an empty table gives no lists and total 0; otherwise the eight lists hold each bucket's rows in input order, and the counts are the row count and the list lengths |
| PieChart.PieCategory | api/pie-chart.py:64-83 | the composition view never answers DCA |
| PieChart.PieFirstMatch | api/pie-chart.py:64-83 | the chain is the seven-phrase table read first match first, with renta variable as default |
| PieChart.PieBucketsOnce | api/pie-chart.py:109-112 | every non-DCA bucket occurs once among the seven |
| PieChart.ViewsDivergeOnlyOnDca | api/pie-chart.py:64-83 | the two views agree on every row the table view does not call DCA; a DCA row is renta fija or renta variable in the composition view |
| PieChart.PieDcaExamples | api/pie-chart.py:67-68 | "DCA Renta Fija" is renta fija here and DCA in the table view |
| PieChart.PieDcaVariableExample | api/pie-chart.py:69-70 | "DCA Renta Variable" is renta variable here (the table view files it under DCA, see Tables.TableDcaRenta) |
| PieChart.Share | api/pie-chart.py:100-106 | with a positive overall the percentage times the overall is 100 times the total; otherwise it is 0 |
| PieChart.SharesAddUp | api/pie-chart.py:100-106 | with a positive overall the seven percentages add up to 100 |
| PieChart.SharesOfNonPositive | api/pie-chart.py:100-106 | with a non-positive overall every percentage is 0 |
| PieChart.TotalOfBucketTotals | api/pie-chart.py:86-97 | the sum of bucket totals over a bucket list is the money summed over that list's rows |
| PieChart.BucketTotals | api/pie-chart.py:86-92 | there are seven totals |
| PieChart.OverallIsTotalMoney | api/pie-chart.py:94-97 | the overall total is the money of all rows, whatever their types |
| PieChart.CryptoExample | api/pie-chart.py:71-72 | two "Crypto" rows of 300 and 700 give a crypto total of 1000, an overall of 1000 and a 100% share |
| PieChart.Compose | api/pie-chart.py:40-162 | no rows gives the empty answer; otherwise labels and colours are the fixed ones, the totals are the bucket totals, overall is all rows' money and the values are the shares |
| PieChart.TableData | api/pie-chart.py:128-143 | the table has one row per label, pairing colour, label, total and percentage |
| Categories.InsertByMoney | api/categories.py:54 | inserting adds one row |
| Categories.SortByMoneyDesc | api/categories.py:54 | sorting keeps the length |
| Categories.SortPermutes | api/categories.py:54 | the sorted list is a permutation of the input |
| Categories.SortDescends | api/categories.py:54 | the sorted list never increases in money |
| Categories.SortIsStable | api/categories.py:54 | rows with equal money keep their input order, as Python's `sorted` guarantees |
| Categories.SortKeepsSum | api/categories.py:54-59 | sorting does not change a column's sum |
| Categories.TableData | api/categories.py:95-102 | the zip loop stops at the shortest list and pairs label, size and percentage position by position |
| Categories.Rank | api/categories.py:41-135 | empty gives the no-investments answer; a row without money or a zero sum gives a 500, each exactly when it occurs; otherwise the count, the sum, and one table row per sorted investment with its share |
| Categories.RankingAddsUp | api/categories.py:57-60 | the percentages of a ranking add up to 100 |
| Categories.MoneyTotal | api/categories.py:58-59 | the sum of the sizes list is the money of the rows |
| Portfolio.Summarize | api/portfolio.py:40-63 | no rows gives the 404; otherwise the answer carries the rows unchanged |
| Portfolio.MoneyMatchesComposition | api/portfolio.py:51 | the overview's money equals the sum of the composition view's seven bucket totals |
| Portfolio.OverviewSplits | api/portfolio.py:50-52 | the three totals are additive over a split of the rows |
| Portfolio.OverviewExample | api/portfolio.py:50-63 | two valued rows (+10% on 200, -20% on 50) give money 220 and 40, together 260 |
| Bank.YieldCoversBalances | api/bank.py:41-42 | with non-negative balances and rates and no notes, the result is at least the investment |
| Bank.Report | api/bank.py:31-56 | the six accounts followed by a "TOTALES" row; the investment is their balance sum 10737.68, the result their grown sum 10777.265, and the account count 6 |
| ClientApi.ClassOf | public/js/api.js:73-77 | positive exactly for a positive percentage, negative exactly for a negative one, neutral for zero or a missing value |
| ClientApi.ClassFollowsPrice | public/js/api.js:73-77 | for a stored percentage change the class says whether the price rose, fell or stayed |
| Valuation.PriceUpdate | api/update-assets.py:80-85 | the price-only payload writes price and timestamp and leaves both inputs alone |
| Valuation.InputsUpdate | api/edit-asset.py:88-95 | the recompute payload writes both inputs, the price and the timestamp |
| Valuation.PriceUpdateConsistent | api/update-assets.py:71-85 | a price refresh leaves a row whose percentage and money follow from its inputs and new price, with its identity and inputs kept |
| Valuation.InputsUpdateConsistent | api/edit-asset.py:80-95 | a recompute leaves a row consistent with the new inputs and price |
| Valuation.InputsUpdateOfStored | api/edit-asset.py:96-110 | recomputing with the stored inputs gives the same row as a price refresh |
| InvestmentStore.WithIdMembers | utils/supabase_client.py:47-55 | the rows returned by an update are exactly the table's rows with that id |
| InvestmentStore.WithIdOfRow | utils/supabase_client.py:47-55 | with unique ids, updating a row's id returns just that row |
| InvestmentStore.UpdateByIdKeepsIds | utils/supabase_client.py:47-55 | an update never changes an id |
| InvestmentStore.Store.ListAll | utils/supabase_client.py:37-45 | listing returns the table, whose ids are unique |
| InvestmentStore.Store.Update | utils/supabase_client.py:47-55 | an accepted update patches the rows with that id and returns them; a refused one changes nothing and returns nothing |
| InvestmentStore.Store.Insert | utils/supabase_client.py:57-65 | an accepted insert appends the row under the next id and returns it; a refused one changes nothing |
| Records.SumConcat | api/portfolio.py:50-52 | a column sum is additive over concatenation |
| Records.UpdateByIdAt | utils/supabase_client.py:50 | with unique ids, updating a row's id rewrites that position and no other |
| Records.PercentagesAddUp | api/categories.py:60 | percentages of a list of sizes over their sum add up to 100 |
| UpdateAssets.Tradable | api/update-assets.py:63 | the refresh filter: the lower-cased ISIN mentions neither "crowfounding" nor "capital riesgo" |
| UpdateAssets.Priceable | api/update-assets.py:59-60 | the two `float(...)` reads before the filter succeed exactly when the row has a purchase value and an amount |
| UpdateAssets.RefreshPatch | api/update-assets.py:68-85 | the `update_data` of a row passing the filter: the looked-up price, the percentage change from the purchase value, the money from the amount, and the request time |
| UpdateAssets.RefreshedRow | api/update-assets.py:68-85 | the refreshed row is consistent, keeps its identity, purchase value and amount, and carries the looked-up price and the request time |
| UpdateAssets.Step | api/update-assets.py:55-101 | one pass of the loop body: a raised loop stays raised, a row without both inputs raises, a filtered row is skipped, and a priced row is rewritten when accepted and then counted or reported as an error |
| UpdateAssets.Run | api/update-assets.py:51-101 | the loop over the rows from `updated_count = 0` and `errors = []`, one step per row in order |
| UpdateAssets.Respond | api/update-assets.py:104-109 | a 500 exactly when a row raised; otherwise the count, and the errors or `None` when there are none |
| UpdateAssets.RefreshAll | api/update-assets.py:38-109 | an empty table gives "nothing to update" and no change; otherwise the table becomes the loop model's table and the answer is its response |
| UpdateAssets.RefreshRows | api/update-assets.py:51-101 | the loop leaves the table, count and errors of the loop model, and raises exactly when the model aborts |
| UpdateAssets.VisitRow | api/update-assets.py:55-99 | one pass of the loop body changes the table, count, errors and priced list exactly as one step of the loop model |
| UpdateAssets.RunAfterAbort | api/update-assets.py:59-60 | after a row raises, later rows change nothing |
| UpdateAssets.RunBalance | api/update-assets.py:88-94 | every priced row is counted once: updated plus errors equals rows priced |
| UpdateAssets.StepFacts | api/update-assets.py:55-99 | a raised loop stays raised; a step raises exactly at a row without both inputs; a priced row lands in exactly one of count and errors; only rows passing the filter are priced |
| UpdateAssets.RunPricesTradable | api/update-assets.py:63 | only ISINs that pass the filter are priced, so in the handler no crowdfunding or venture-capital ISIN is |
| UpdateAssets.RunAborts | api/update-assets.py:59-60 | the handler answers 500 exactly when some row lacks a purchase value or amount |
| UpdateAssets.StepAt | api/update-assets.py:66-94 | a step on a priceable row rewrites that row's position only, as the accepted refresh or not at all |
| UpdateAssets.StepMidway | api/update-assets.py:55-99 | a step over the next priceable row refreshes that row exactly when it passes the filter and the store accepts, and adds it to the count, the errors or neither |
| UpdateAssets.RunMidway | api/update-assets.py:55-99 | after the first rows of the table, each one that passes the filter and is accepted is refreshed with its price, and every other row is untouched |
| UpdateAssets.RunTallies | api/update-assets.py:51-99 | after the first rows, count, errors and priced list are the per-row tallies of those rows |
| UpdateAssets.RunTable | api/update-assets.py:55-99 | after the first k rows, each accepted row passing the filter is refreshed with its price, the others are untouched, and count, errors and priced list are the per-row tallies |
| UpdateAssets.RefreshAccepted | api/update-assets.py:88 | an accepted update of a row returns that row, as refreshed |
| UpdateAssets.RefreshTally | api/update-assets.py:51-109 | when every row is priceable the answer is the count of accepted tradable rows and one error per refused one |
| UpdateAssets.RunFrame | api/update-assets.py:55-101 | every row keeps its identity, purchase value, amount and creation time, and a row the filter rejects or the store refuses is unchanged |
| UpdateAssets.RefreshSparesOthers | api/update-assets.py:88 | updating one row's id leaves every other position alone |
| UpdateAssets.OneFailsOneSucceeds | api/update-assets.py:88-109 | with one refused and one accepted row the answer is count 1 and the single error "Error al actualizar A" |
| EditAsset.Supplied | api/edit-asset.py:53-54 | `float(data.get(key, 0))`: a missing key reads 0, null does not convert, a given value converts as `float` does |
| EditAsset.Matches | api/edit-asset.py:63 | a row matches exactly when the request's ISIN is a JSON string equal to the row's ISIN |
| EditAsset.FirstFrom | api/edit-asset.py:62-65 | the index is the first matching row, and no row matches when there is none |
| EditAsset.FindByIsin | api/edit-asset.py:59-65 | the lookup loop stops at the first row whose ISIN equals the request's |
| EditAsset.EditPatch | api/edit-asset.py:80-110 | fails exactly when a stored input the branch needs is missing; otherwise the row is consistent, keeps its identity and takes the new price, and each input is replaced when the supplied one is positive |
| EditAsset.EditSpec | api/edit-asset.py:42-148 | 400 exactly without an ISIN; 404 exactly when the values convert and no row matches; the outer 500 exactly for a body that is not JSON, a value that does not convert, or a found row whose payload cannot be built; for a found row with a built payload, 200 exactly when the store accepts and the update failure otherwise; only a successful edit changes the table |
| EditAsset.Edit | api/edit-asset.py:42-148 | the handler's answer and the new table are those of the specification function, so every case above holds of the handler |
| EditAsset.EditTouchesOnlyTarget | api/edit-asset.py:77-126 | a successful edit rewrites the first row with the ISIN, and no other, and answers with that row as rewritten |
| EditAsset.EditSucceedsIff | api/edit-asset.py:42-135 | a 200 exactly when an ISIN is given, both values convert, a row matches, its payload can be built and the store accepts the update |
| AddAsset.MissingFrom | api/add-asset.py:43-53 | the first required field that is absent or falsy, or none when all are present |
| AddAsset.TypeOf | api/add-asset.py:80 | a missing type becomes "Otros", null stays null, a given type is kept |
| AddAsset.NewRecord | api/add-asset.py:55-83 | no record exactly when a value does not convert or the purchase value is 0; otherwise a consistent row with the request's fields |
| AddAsset.AddSpec | api/add-asset.py:42-125 | invalid JSON exactly for a malformed body; a missing-field 400 naming the first missing field; for a complete request, the outer 500 exactly when the record cannot be built, and otherwise the built record under the next id when the store accepts and the insert failure when it refuses |
| AddAsset.Add | api/add-asset.py:42-125 | the answer is the specification function's, so a complete, convertible, accepted request is created as the record built from it; the table grows by the created row only |
| AddAsset.AddSucceedsIff | api/add-asset.py:42-110 | a 201 exactly when the request is complete, both values convert, the purchase value is not 0 and the store accepts; the created row holds the request's ISIN, name, values and type at the looked-up price |
| AddAsset.ZeroPurchaseValue | api/add-asset.py:45-66 | a numeric 0 purchase value is a missing field, while the string "0" passes the check and then fails the division |
| AddAsset.UntypedIsRentaVariable | api/add-asset.py:80 | an asset added without a type lands in renta variable in both views |
| AddAsset.CreatedFollowsFormulas | api/add-asset.py:65-69 | a created row's percentage is what the shared profit/loss helper gives for its purchase value and price, and its money what the shared total-money helper gives for its amount and percentage |

## Left out

- HTTP plumbing: the headers, CORS, the OPTIONS answer and JSON encoding are not modelled. A handler's answer is a datatype carrying the status and the data.
- The network side of the price lookup is left out. `YFinanceHelper.CurrentValue` takes the three quote sources as optional values, and the handlers take the price as a function of the ISIN. Every exception in the lookup becomes a missing source or the final 0.
- The database is not modelled. `get_all_investments` is the store's `rows`; its exception path (which returns `[]`) is covered by the empty-table case of each handler. Whether an `update` or `insert` succeeds is a parameter; a raised exception there is the same as a refusal, because the client returns `None`.
- UpdateAssets.RefreshAll: the inner `except` branch ("Error con ...") is not reachable in the model, because the price lookup and the store client catch every exception themselves. A row whose `float(...)` raises before the `try` ends the handler with a 500 (`Aborted`).
- Stored rows have no SQL NULL. In `Records.Investment` a numeric column or the type that is `None` stands for a key the row does not have. A column the database returns as NULL (the key present, its value `None`) is not modelled. The consequences:
  - Portfolio.Summarize, PieChart.Compose and Calculations.CategoryTotals read a missing numeric column as 0 and answer normally. For a NULL `amount`, `total_money` or `purchase_value` the source's `float(inv.get(key, 0))` receives `None` and raises, and the handler answers 500 (api/portfolio.py:50-52, api/pie-chart.py:86-92, utils/calculations.py:23-24). The model has no such 500.
  - Calculations.CategoryOf reads a missing category as "Sin categoría". A NULL category is its own group under the key `None` in the source (utils/calculations.py:14); the model has no such group.
- Stored `isin` and `asset_name` are plain strings, never absent or NULL. In the source such a value makes line 57-58 or `isin.lower()` / `asset_name[:30]` (lines 63-64 of api/update-assets.py) raise, and the handler answers 500.
- UpdateAssets.RunAborts: its "500 exactly when some row lacks a purchase value or amount" holds only for rows whose ISIN and name are strings, which is all the model admits. A missing or non-string ISIN or name is a second cause of the 500 that the model does not have.
- AddAsset.AddSpec: the request's `isin`, `asset_name` and `investment_type` are JSON strings (or absent or null) in `AddBody`. A number, list or object in those fields is not admitted, so what the source does with one (a truthy number passes the required-field check) is not modelled. `purchase_value` and `amount` keep every JSON scalar. Request bodies keep the absent / null / given distinction.
- Case mapping is ASCII only; Unicode case folding is not modelled.
- Arithmetic is exact (`real`); IEEE rounding is not modelled. The identities that add up to 100 therefore hold exactly in the model and only approximately in the application.
- The timestamps `created_at` / `updated_at` come from one `now` parameter per request.
- Plotly figures, seaborn colours and the bar chart of the ranking are left out; the ranking's colour column is dropped.
- `format_currency` in `utils/calculations.py`, `api/grapsh.py` and `public/js/main.js` are not part of this model.
- Categories.Rank: the sort key `float(x.get("total_money", 0))` is modelled as money with a missing value read as 0. A present value that is not a number is not modelled.
- Bank.Report: the source's totals row puts the empty string in the rate column. The model has a separate `TotalsRow` constructor for it.
