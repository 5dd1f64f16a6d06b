# Trader: a model of the PortfolioManager trading bot

The trading bot of PortfolioManager (`volumes/ibbot/Trader.py`) is a broker
client. It keeps a local SQLite store of portfolios, instruments, positions,
balances, exchange rates and open orders up to date from the broker's
callbacks. It also runs three periodic tasks:

- an option-chain scanner over a watch list of symbols;
- a cash rebalance that buys or sells a benchmark fund;
- a report of the amount still available for short ("naked") puts.

The order templates it places come from `TraderOrder` (`volumes/ibbot/TraderOrder.py`).

The model has these parts:

- **Store.** Each SQL table is a sequence of rows in rowid order (`Store.Db`).
  - A `SELECT ... fetchone()` is the first matching row.
  - `UPDATE` and `DELETE` rewrite or drop the matching rows.
  - SQL `SUM`, `/` and `*` keep SQL's NULL rules: NULL terms are skipped, the sum of no row is NULL, and division by 0 is NULL (module `Sql`).
  - The store invariant `Store.Valid` holds the keys that the select-then-insert and update-then-insert idioms keep unique, and the contract rowids.
- **Instrument registry.** The find-or-create functions are pure functions from a store to the new store and an id (module `Registry`).
- **Read-only aggregates.** These are functions on the store (module `Queries`).
  - Each result is `None` exactly where the SQL value is NULL or no row comes back.
  - The bot converts these values with `float(...)`, so a caller that needs a value carries a `requires` that rules out `None`.
- **Order templates.** These are functions building `Order` values (module `TraderOrders`).
- **Rebalance and scanner decisions.** The rebalance decision of `adjustCash` (module `Rebalance`) and the scanner's pure steps (module `Scanner`) are specification functions.
- **The bot.** The bot itself is a class, `Traders.Trader` (module `Traders`).
  - Its fields are the session state, and the store is a field each handler reassigns.
  - Every broker call is appended to the request log `requests` instead of being sent.
  - Each handler is a method whose `ensures` gives the new store, log and state in terms of the old ones and of the specification functions. Lemmas prove what those functions promise.

The clock (`time.time()`), the date (`date.today()`), and the next order id
(kept by the broker client outside `Trader`) are parameters: `now`, in seconds; `today`, a day number;
and `orderId`. An expiration date is a pair of its broker text and its day number.

## Model

| member | source | states |
|---|---|---|
| Sql.FirstIndex | volumes/ibbot/Trader.py:180-189 | `fetchone`: the index returned holds a row satisfying the filter with none before it; `None` exactly when no row does |
| Sql.FirstIndexIs | volumes/ibbot/Trader.py:180-189 | a row that matches with no match before it is the one `fetchone` returns |
| Sql.FirstIndexExtends | volumes/ibbot/Trader.py:195-222 | rows inserted after a match do not change which row `fetchone` returns |
| Sql.Where | volumes/ibbot/Trader.py:596-599 | the selected rows all match, and every matching row of the table is selected (and nothing else) |
| Sql.WhereStep | volumes/ibbot/Trader.py:596-599 | scanning one more row extends the selection by exactly that row when it matches |
| Sql.Count | volumes/ibbot/Trader.py:291-309 | an UPDATE's `rowcount` is 0 exactly when no row matches, and is never more than the table size |
| Sql.UpdateWhere | volumes/ibbot/Trader.py:291-309 | UPDATE keeps the row count and rewrites exactly the matching rows |
| Sql.DeleteWhere | volumes/ibbot/Trader.py:167-178 | DELETE leaves no matching row and keeps every other row |
| Sql.SqlSum | volumes/ibbot/Trader.py:391-407 | SQL `SUM` is NULL exactly when every term is NULL |
| Sql.SqlSumIsTotal | volumes/ibbot/Trader.py:391-407 | `SUM` equals the total of its non-NULL terms, and is NULL when there are none |
| Sql.SqlDiv | volumes/ibbot/Trader.py:391-407 | SQL `/` has a value exactly when both sides do and the divisor is not 0, and then the quotient times the divisor is the dividend |
| Sql.SqlMul | volumes/ibbot/Trader.py:449-466 | SQL `*` has a value exactly when both sides do |
| Sql.Present | volumes/ibbot/Trader.py:391-407 | the non-NULL terms are empty exactly when every term is NULL |
| Sql.SumOver | volumes/ibbot/Trader.py:391-407 | a `SUM` over a join is NULL exactly when no joined row has a non-NULL term (its value: `SumOverIsSqlSum`, `SumOverTotal`) |
| Sql.SumOverIsSqlSum | volumes/ibbot/Trader.py:391-407 | a `SUM` over a join is SQL `SUM` of the joined rows' terms, in table order |
| Sql.SumOverTotal | volumes/ibbot/Trader.py:391-407 | a `SUM` over a join is NULL when no joined row has a non-NULL term, and otherwise the total of those terms |
| Sql.SumOverAppend | volumes/ibbot/Trader.py:391-407 | a row appended to the table adds its term when it joins and the term is not NULL, and leaves the `SUM` unchanged otherwise |
| Sql.SumOverSameTerms | volumes/ibbot/Trader.py:449-466 | two term functions that agree on every joined row give the same `SUM` |
| Sql.SumOverNonNegative | volumes/ibbot/Trader.py:625-647 | a `SUM` of non-negative terms is non-negative (NULL read as 0) |
| Sql.SumOverWhere | volumes/ibbot/Trader.py:513-556 | rows outside the join do not change a `SUM`: filtering them out first gives the same value |
| Sql.SumOverNonPositive | volumes/ibbot/Trader.py:492-511 | a `SUM` of non-positive terms is non-positive (NULL read as 0) |
| Sql.SumOverDropNonPositive | volumes/ibbot/Trader.py:513-556 | dropping non-positive terms from a `SUM` can only raise it |
| Sql.DistinctWhere | volumes/ibbot/Trader.py:167-178 | filtering a table keeps its keys unique |
| Sql.DistinctDelete | volumes/ibbot/Trader.py:291-309 | DELETE keeps keys unique |
| Sql.DistinctUpdate | volumes/ibbot/Trader.py:291-309 | an UPDATE that leaves keys as they are keeps them unique |
| Sql.DistinctAppend | volumes/ibbot/Trader.py:291-309 | an INSERT of a row with a new or NULL key keeps keys unique |
| Sql.DistinctSameKey | volumes/ibbot/Trader.py:409-425 | under unique keys, two rows with the same non-NULL key are one row |
| Sql.UpdateKeepsOtherKeys | volumes/ibbot/Trader.py:964-1002 | an UPDATE confined to one key leaves the rows of every other key as they were |
| Store.FindPortfolio | volumes/ibbot/Trader.py:180-189 | `findPortfolio` finds a row exactly when some portfolio has the account, and the row found has it |
| Store.ContractById | volumes/ibbot/Trader.py:449-466 | the join on `contract.id` finds the row with that id, or there is none |
| Store.OptionById | volumes/ibbot/Trader.py:472-489 | the join on `option.id` finds the row with that id, or there is none |
| Store.ContractBySymbol | volumes/ibbot/Trader.py:355-369 | the first contract row with the symbol, or there is none |
| Store.RateOf | volumes/ibbot/Trader.py:427-443 | the rate row of an edge (base, currency) is found exactly when one exists |
| Store.RateOfRow | volumes/ibbot/Trader.py:427-443 | under unique edges, the lookup returns the rate of the one row on file |
| Store.SameContractIdsValid | volumes/ibbot/Trader.py:865-890 | rewriting contract rows without touching their ids keeps the store invariant and the next rowid |
| Store.SameStockIdsValid | volumes/ibbot/Trader.py:1096-1116 | rewriting stock rows without touching their ids keeps the store invariant |
| Store.SameOptionIdsValid | volumes/ibbot/Trader.py:895-924 | rewriting option rows without touching their ids keeps the store invariant |
| Store.CurrenciesValid | volumes/ibbot/Trader.py:980-1000 | a currency table with one row per edge keeps the store invariant |
| Store.BalancesValid | volumes/ibbot/Trader.py:968-979 | a balance table with one row per (portfolio, currency) keeps the store invariant |
| Store.PositionsValid | volumes/ibbot/Trader.py:291-309 | a position table with one row per (portfolio, contract) keeps the store invariant |
| Store.OpenOrdersValid | volumes/ibbot/Trader.py:1048-1067 | an open-order table with one row per order id keeps the store invariant |
| Store.Valid | volumes/ibbot/Trader.py:195-309 | the store invariant: one portfolio row per account, increasing contract rowids, an extension row only for a contract on file, and one row per position key, balance key, rate edge and order id |
| Symbols.RStrip | volumes/ibbot/Trader.py:192-193 | `rstrip('d')` returns a prefix that does not end in `d`, and only `d`s were removed |
| Symbols.Replace | volumes/ibbot/Trader.py:192-193 | Python `str.replace` for a non-empty pattern: occurrences are replaced left to right without overlap; its properties are `ReplaceNotLonger`, `ReplaceRemovesChar`, `ReplaceKeepsAbsent` and `ReplaceAbsent` |
| Symbols.NormalizeSymbol | volumes/ibbot/Trader.py:192-193 | `normalizeSymbol` strips trailing `d`s, turns spaces into `-`, then removes ".T", in that order; its properties are the `Normalize*` lemmas below |
| Symbols.ReplaceNotLonger | volumes/ibbot/Trader.py:192-193 | `replace` by text no longer than the pattern never lengthens the string |
| Symbols.ReplaceRemovesChar | volumes/ibbot/Trader.py:192-193 | replacing a character by text without it leaves no such character |
| Symbols.ReplaceKeepsAbsent | volumes/ibbot/Trader.py:192-193 | `replace` introduces no character absent from both the string and the replacement |
| Symbols.ReplaceAbsent | volumes/ibbot/Trader.py:192-193 | `replace` of a pattern that does not occur changes nothing |
| Symbols.NormalizeHasNoSpace | volumes/ibbot/Trader.py:192-193 | a normalised symbol holds no space |
| Symbols.NormalizeNotLonger | volumes/ibbot/Trader.py:192-193 | normalisation never lengthens a symbol |
| Symbols.NormalizeUnchanged | volumes/ibbot/Trader.py:192-193 | a symbol with no trailing `d`, no space and no ".T" is its own normal form |
| Symbols.TokyoHyphenPass | volumes/ibbot/Trader.py:193 | the space pass leaves "BRK.T" alone |
| Symbols.TokyoSuffixPass | volumes/ibbot/Trader.py:193 | the suffix pass turns "BRK.T" into "BRK" |
| Symbols.NormalizeTokyoSuffix | volumes/ibbot/Trader.py:192-193 | the market suffix ".T" is removed ("BRK.T" becomes "BRK") |
| Symbols.ClassShareHyphenPass | volumes/ibbot/Trader.py:193 | the space pass turns "FOO D" into "FOO-D" |
| Symbols.ClassShareSuffixPass | volumes/ibbot/Trader.py:193 | the suffix pass leaves "FOO-D" alone |
| Symbols.NormalizeClassShare | volumes/ibbot/Trader.py:192-193 | a class-share space becomes a hyphen ("FOO D" becomes "FOO-D") |
| Symbols.SuffixExposesD | volumes/ibbot/Trader.py:193 | on "ad.T" only the suffix pass changes anything, and it leaves "ad" |
| Symbols.NormalizeNotIdempotent | volumes/ibbot/Trader.py:192-193 | normalisation is not idempotent: "ad.T" normalises to "ad", which normalises to "a" |
| TraderOrders.BaseOrder | volumes/ibbot/TraderOrder.py:10-14 | `Order()` is a day order that is not transmitted, with the other fields as the broker library leaves them |
| TraderOrders.Midprice | volumes/ibbot/TraderOrder.py:22-30 | a MIDPRICE order with the given action and quantity, capped at the given price, keeping the day / no-transmit settings of `Order()` |
| TraderOrders.BuyBenchmark | volumes/ibbot/TraderOrder.py:33-37 | a transmitted MIDPRICE day buy of the quantity, capped at 1 |
| TraderOrders.SellBenchmark | volumes/ibbot/TraderOrder.py:40-44 | a transmitted MIDPRICE day sell of the quantity, capped at 1000000 |
| TraderOrders.SellNakedPut | volumes/ibbot/TraderOrder.py:47-53 | an untransmitted day limit sell of one contract at the price cap |
| TraderOrders.SellCoveredCall | volumes/ibbot/TraderOrder.py:56-62 | an untransmitted day limit sell of the quantity at the price cap |
| Registry.ExtendsTransitive | volumes/ibbot/Trader.py:224-267 | two successive append-only extensions of the contract tables are one |
| Registry.BelowNextRowId | volumes/ibbot/Trader.py:195-222 | every contract id is below the rowid SQLite hands out next |
| Registry.AppendContractValid | volumes/ibbot/Trader.py:195-222 | inserting a contract row under the next rowid keeps the store invariant and moves the next rowid past it |
| Registry.InsertStock | volumes/ibbot/Trader.py:208-213 | the stock INSERTs append one contract row and one stock row under the next rowid, keep the invariant and change nothing else |
| Registry.FindOrCreateStockContract | volumes/ibbot/Trader.py:195-222 | the row with the broker's `con_id` wins; else the stock row with the normalised symbol; else a new contract and stock row; the store stays valid |
| Registry.FindOrCreateUnderlying | volumes/ibbot/Trader.py:233-248 | the option's underlying is the first stock row with the normalised symbol, created (without `con_id`) only on a miss |
| Registry.InsertOption | volumes/ibbot/Trader.py:253-258 | the option INSERTs append one contract row and one option row under the next rowid, keep the invariant and change nothing else |
| Registry.FindOrCreateOptionRow | volumes/ibbot/Trader.py:249-263 | the option row on (underlying, right, strike, last trade date) is found, or created on a miss only |
| Registry.FindOrCreateOptionContract | volumes/ibbot/Trader.py:224-267 | the row with the broker's `con_id` wins; else the option is filed under its underlying and found or created there; at most two rows are appended |
| Registry.FileOption | volumes/ibbot/Trader.py:232-263 | on a `con_id` miss, the option ends up filed under its underlying stock, with at most two new contract rows |
| Registry.FiledUnderStock | volumes/ibbot/Trader.py:232-263 | an option row found under an underlying that a later extension keeps is filed under that stock |
| Registry.AppendedRows | volumes/ibbot/Trader.py:232-263 | the underlying row (no `con_id`) and the option row (the broker's `con_id`) appended in two steps make one extension of at most two rows |
| Registry.FindOrCreateContract | volumes/ibbot/Trader.py:269-277 | an id is returned exactly for stocks and options; any other type changes nothing; the id is below the next rowid |
| Registry.StockIdBelow | volumes/ibbot/Trader.py:195-222 | a stock lookup returns the id of a contract row on file afterwards |
| Registry.OptionIdBelow | volumes/ibbot/Trader.py:224-267 | an option lookup returns the id of a contract row on file afterwards |
| Registry.StockLookupIdempotent | volumes/ibbot/Trader.py:195-222 | looking a stock up again finds the same id and inserts nothing |
| Registry.FileOptionStable | volumes/ibbot/Trader.py:232-263 | filing an option a second time finds the rows the first filing found or created |
| Registry.OptionLookupIdempotent | volumes/ibbot/Trader.py:224-267 | looking an option up again finds the same id and inserts nothing |
| Registry.ConIdHitIsNew | volumes/ibbot/Trader.py:224-267 | when the broker's `con_id` was not on file, the first row carrying it afterwards is the one just created |
| Registry.OptionDisplaySymbol | volumes/ibbot/Trader.py:254 | the symbol of a new option row starts with the normalised underlying symbol and ends with the right |
| Queries.RateIn | volumes/ibbot/Trader.py:427-443 | a rate is found only on a stored row of the edge; an edge with no row gives none |
| Queries.RateInFirstRow | volumes/ibbot/Trader.py:427-443 | the rate returned is that of the first row on the edge |
| Queries.RateInStored | volumes/ibbot/Trader.py:427-443 | in a valid store, an edge's stored row yields its rate |
| Queries.SymbolPrice | volumes/ibbot/Trader.py:355-369 | `getSymbolPrice` returns the price of a contract row of that symbol, and nothing when no row has the symbol |
| Queries.SymbolPriceFirstRow | volumes/ibbot/Trader.py:355-369 | the price returned is that of the first row carrying the symbol |
| Queries.SymbolCurrency | volumes/ibbot/Trader.py:371-385 | `getSymbolCurrency` has a value exactly when a row has the symbol, and it is that row's currency |
| Queries.ContractConId | volumes/ibbot/Trader.py:279-289 | `getContractConId` finds a row exactly when one has the symbol, and returns its `con_id` |
| Queries.SymbolPriceInBase | volumes/ibbot/Trader.py:315-336 | `getSymbolPriceInBase` has a value only for a known account; the value times the rate into its base currency is the price of a contract row of the symbol |
| Queries.SymbolPriceInBaseNoRow | volumes/ibbot/Trader.py:315-336 | NULL for an unknown account, and when no row of the symbol has a rate row into the base currency |
| Queries.SymbolPriceInBaseFirstRow | volumes/ibbot/Trader.py:315-336 | otherwise the first such row's price divided by its rate (NULL when the price or rate is NULL, or the rate is 0) |
| Queries.TotalCash | volumes/ibbot/Trader.py:391-407 | `getTotalCashAmount` is NULL for an unknown account; otherwise the `SUM` over the account's balances of the quantity over its rate into the base; see `TotalCashAppend` and `TotalCashOnlyAccountRows` |
| Queries.TotalCashAppend | volumes/ibbot/Trader.py:391-407 | a new balance row of the account adds its quantity in base currency; a row of another portfolio, or one with no rate into the base, changes nothing |
| Queries.TotalCashOnlyAccountRows | volumes/ibbot/Trader.py:391-407 | the cash total reads the account's balance rows alone: dropping every other row leaves it unchanged |
| Queries.CurrencyBalance | volumes/ibbot/Trader.py:409-425 | `getCurrencyBalance` returns the quantity of one of the account's balance rows in that currency, and nothing when there is none |
| Queries.CurrencyBalanceFirstRow | volumes/ibbot/Trader.py:409-425 | the quantity returned is that of the account's first row in the currency |
| Queries.CurrencyBalanceStored | volumes/ibbot/Trader.py:409-425 | in a valid store, the account's stored row in a currency yields its quantity |
| Queries.BaseToCurrencyRate | volumes/ibbot/Trader.py:427-443 | `getBaseToCurrencyRate` is a rate stored on (the portfolio's base currency, currency), and nothing for an unknown account |
| Queries.BaseToCurrencyRateFirstRow | volumes/ibbot/Trader.py:427-443 | the rate returned is that of the first row on the base-currency edge |
| Queries.BaseToCurrencyRateStored | volumes/ibbot/Trader.py:427-443 | in a valid store, the row stored on the base-currency edge yields its rate |
| Queries.PositionContract | volumes/ibbot/Trader.py:449-466 | a position joins to the contract row its `contract_id` names |
| Queries.PortfolioStocksValue | volumes/ibbot/Trader.py:449-466 | `getPortfolioStocksValue` is NULL for an unknown account; otherwise the `SUM` of the account's stock positions' value in base currency; see `StocksValueAppend` and `PositionValuesOnlyAccountRows` |
| Queries.StocksValueAppend | volumes/ibbot/Trader.py:449-466 | a new position of the account adds its stock value to the sum (nothing when that value is NULL); a position of another portfolio changes nothing |
| Queries.StockValueOfPosition | volumes/ibbot/Trader.py:449-466 | a stock position's value is its quantity times the price, over the rate into base currency |
| Queries.PortfolioOptionsValue | volumes/ibbot/Trader.py:472-489 | `getPortfolioOptionsValue` is NULL for an unknown account; otherwise the `SUM` of the account's option positions' value in base currency; see `OptionsValueAppend` and `PositionValuesOnlyAccountRows` |
| Queries.OptionsValueAppend | volumes/ibbot/Trader.py:472-489 | a new position of the account adds its option value to the sum (nothing when that value is NULL); a position of another portfolio changes nothing |
| Queries.OptionValueOfPosition | volumes/ibbot/Trader.py:472-489 | an option position's value is quantity times price times multiplier, over the rate into base currency |
| Queries.PositionTermsAgree | volumes/ibbot/Trader.py:449-489 | the position values read the contract, option and currency tables only |
| Queries.PositionValuesOnlyAccountRows | volumes/ibbot/Trader.py:449-489 | the stock and option sums read the account's positions alone: dropping every other position leaves both unchanged |
| Queries.NakedPutAmount | volumes/ibbot/Trader.py:492-556 | the three naked-put sums are NULL for an unknown account; their bounds are `NakedPutAmountNonPositive` and `TotalNakedPutsBoundScoped` |
| Queries.ShortPutTerm | volumes/ibbot/Trader.py:492-556 | one position's term in a naked-put sum: `quantity * strike * multiplier / rate` for a short put on file in scope, NULL for any other row; `ShortPutTermNonPositive` bounds it |
| Queries.ShortPutTermNonPositive | volumes/ibbot/Trader.py:492-511 | the commitment of a single short put is non-positive |
| Queries.ShortPutQuotientNonPositive | volumes/ibbot/Trader.py:492-511 | a short quantity times a stored strike and multiplier, over a stored rate, is non-positive |
| Queries.NakedPutAmountNonPositive | volumes/ibbot/Trader.py:492-511 | the documented "returned value is <= 0": each naked-put sum is at most 0 |
| Queries.TotalNakedPutsBoundScoped | volumes/ibbot/Trader.py:513-556 | the in-the-money and per-underlying commitments never exceed, in magnitude, that of all short puts |
| Queries.SignedSum | volumes/ibbot/Trader.py:613-620 | a NULL or zero book sum reads 0; otherwise BUY is positive and SELL negative |
| Queries.LiveStockOrder | volumes/ibbot/Trader.py:601-612 | the join of the stock book: an order of the account on a stock contract of the symbol, on the side, submitted or pre-submitted |
| Queries.LiveOptionOrder | volumes/ibbot/Trader.py:625-636 | the join of the options book: an order of the account on an option of the right whose underlying has the symbol, on the side, submitted or pre-submitted |
| Queries.StockQuantityOnOrderBook | volumes/ibbot/Trader.py:601-623 | `getStockQuantityOnOrderBook` is 0 for an unknown account; its properties are `OrderBookEmpty`, `OrderBookSign`, `OrderBookOnlyLiveOrders` and `OrderBookAppend` |
| Queries.OptionsQuantityOnOrderBook | volumes/ibbot/Trader.py:625-647 | `getOptionsQuantityOnOrderBook` is 0 for an unknown account; its properties are `OptionsBookEmpty`, `OptionsBookSign` and `OptionsBookAppend` |
| Queries.OrderBookEmpty | volumes/ibbot/Trader.py:601-623 | with no live order of that symbol and side, the book quantity is 0 |
| Queries.OrderBookSign | volumes/ibbot/Trader.py:601-623 | with no negative remainder, the BUY book is non-negative and the SELL book non-positive |
| Queries.OrderBookOnlyLiveOrders | volumes/ibbot/Trader.py:601-623 | dropping every order that is not a matching live one leaves the book quantity unchanged |
| Queries.OrderBookAppend | volumes/ibbot/Trader.py:601-623 | a new matching live order moves the book quantity by its signed remainder |
| Queries.OptionsBookEmpty | volumes/ibbot/Trader.py:625-647 | with no live option order of that underlying, right and side, the book quantity is 0 |
| Queries.OptionsBookSign | volumes/ibbot/Trader.py:625-647 | with non-negative remainders and multipliers, the BUY book is non-negative and the SELL book non-positive (so the puts on sale `adjustCash` reads are at most 0) |
| Queries.OptionsBookAppend | volumes/ibbot/Trader.py:625-647 | a new live option order whose option row is on file moves the book quantity by its signed remainder times the multiplier |
| Rebalance.NetCash | volumes/ibbot/Trader.py:708 | net cash is the cash total plus the (non-positive) in-the-money put commitment |
| Rebalance.SellBranch | volumes/ibbot/Trader.py:711-712 | shares are sold when net cash is negative |
| Rebalance.BuyBranch | volumes/ibbot/Trader.py:713-719 | otherwise shares may be bought when the benchmark-currency balance exceeds net cash converted into that currency |
| Rebalance.Computable | volumes/ibbot/Trader.py:711-719 | the divisor of the branch taken is not 0 and the benchmark's put commitment has a value on the buy branch |
| Rebalance.CashViewOf | volumes/ibbot/Trader.py:684-706 | the values `adjustCash` reads, `None` when a query it converts with `float` has no value |
| Rebalance.SellQuantity | volumes/ibbot/Trader.py:711-712 | on the sell branch with a positive price, a negative number of shares |
| Rebalance.ToAdjust | volumes/ibbot/Trader.py:708-724 | the share delta is 0 outside both branches and when the adjusted net cash is not positive; a purchase happens only on the buy branch or at a negative price |
| Rebalance.SellCoversShortfall | volumes/ibbot/Trader.py:711-724 | a negative net cash sells the fewest shares whose value covers the shortfall |
| Rebalance.BuyWithinCash | volumes/ibbot/Trader.py:713-724 | a purchase never costs more than the adjusted net cash, and one share more would |
| Rebalance.Decide | volumes/ibbot/Trader.py:726-742 | the book is left alone exactly when it already holds the target; otherwise the order is the target plus the puts on sale, BUY when positive, SELL when negative, none when zero |
| Rebalance.BenchmarkContract | volumes/ibbot/Trader.py:731-735 | the orders go to a SMART stock contract of the benchmark in its currency |
| Rebalance.CancelRequests | volumes/ibbot/Trader.py:596-599 | one cancel per order row, in row order |
| Rebalance.CancelRequestsSnoc | volumes/ibbot/Trader.py:596-599 | one more row adds its cancel at the end |
| Rebalance.BenchmarkOrder | volumes/ibbot/Trader.py:737-742 | a transmitted order of the side and quantity |
| Rebalance.AdjustmentRequestsShape | volumes/ibbot/Trader.py:726-742 | on a match nothing is issued; otherwise only cancels of orders on file, then at most one transmitted BUY or SELL of a positive quantity |
| Rebalance.AdjustmentRequests | volumes/ibbot/Trader.py:726-742 | the requests of an adjustment: none on a match, else the BUY-side then SELL-side cancels and at most one order; `AdjustmentRequestsShape` states their shape |
| Rebalance.CashAdjustment | volumes/ibbot/Trader.py:675-742 | the requests of one `adjustCash` run: the adjustment decided from the values `CashViewOf` reads; `Traders.Trader.AdjustCash` appends them |
| Rebalance.PortfolioNav | volumes/ibbot/Trader.py:664-666 | the NAV exists exactly when cash, stock and option values do, and is their total |
| Rebalance.PuttableWithinRatio | volumes/ibbot/Trader.py:654-673 | short puts only lower the puttable amount below the NAV share |
| Scanner.Near | volumes/ibbot/Trader.py:798 | an expiration is near when it is less than 50 days away |
| Scanner.PopUntilNear | volumes/ibbot/Trader.py:795-800 | the `while` loop pops from the end until a near expiration comes off: the one returned is near, none popped before it is, and the list is emptied when none is |
| Scanner.PopShrinks | volumes/ibbot/Trader.py:795-800 | a non-empty list always loses an expiration |
| Scanner.InWindow | volumes/ibbot/Trader.py:807 | a strike is in the window when it lies strictly between 80% and 120% of the price |
| Scanner.WindowStrikes | volumes/ibbot/Trader.py:805-817 | a strike is requested exactly when it is in the chain and strictly within 20% of the price |
| Scanner.OptionContract | volumes/ibbot/Trader.py:806-815 | the requested option is a SMART option of the symbol on the strike, expiration and right |
| Scanner.StockContract | volumes/ibbot/Trader.py:825-833 | the requested underlying is a SMART stock of the symbol with its `con_id` |
| Scanner.OptionRequests | volumes/ibbot/Trader.py:805-817 | two requests per window strike |
| Scanner.OptionRequestsAt | volumes/ibbot/Trader.py:805-817 | request `2k` is the call and `2k+1` the put of strike `k`, under consecutive ticker ids |
| Scanner.OptionRequestsCoverWindow | volumes/ibbot/Trader.py:805-817 | every window strike gets its call and its put, and every request is for a window strike |
| Scanner.LoggedOptionsInWindow | volumes/ibbot/Trader.py:805-817 | appended to the log, the new requests are option contract requests of the symbol and expiration at window strikes |
| Scanner.LoggedStrikeCovered | volumes/ibbot/Trader.py:805-817 | appended to the log, the new requests hold the call and the put of a given window strike |
| Scanner.LoggedOptionsCoverWindow | volumes/ibbot/Trader.py:805-817 | appended to the log, the new requests hold the call and the put of every window strike |
| Scanner.OptionRequestIdsIncrease | volumes/ibbot/Trader.py:805-817 | the ticker ids of the requests run on from the counter, one by one |
| Scanner.WindowStrikesStep | volumes/ibbot/Trader.py:805-817 | one more strike of the chain extends the window by it when it is in range |
| Scanner.OptionRequestsSnoc | volumes/ibbot/Trader.py:805-817 | one more window strike appends its call, then its put |
| Traders.PortfolioIdOf | volumes/ibbot/Trader.py:141-178 | the portfolio sub-select with a possibly NULL account finds an id exactly for a known account |
| Traders.HoldsOnceAt | volumes/ibbot/Trader.py:291-309 | under unique position keys, a row of the position is its only row |
| Traders.PositionsAfter | volumes/ibbot/Trader.py:291-309 | the position table after `createOrUpdatePosition` keeps one row per (portfolio, contract) |
| Traders.PositionsAfterClose | volumes/ibbot/Trader.py:299-301 | a zero position removes exactly the rows of the position |
| Traders.PositionsAfterInsert | volumes/ibbot/Trader.py:303-307 | a position with no row yet is appended with cost `averageCost * position` |
| Traders.PositionsAfterUpdate | volumes/ibbot/Trader.py:303-304 | a position that has a row is set in place; all other rows stay |
| Traders.PositionsAfterHoldsOnce | volumes/ibbot/Trader.py:291-309 | after any non-zero position with a contract id, exactly one row holds it, at the new quantity and cost |
| Traders.NewOrderRow | volumes/ibbot/Trader.py:1048-1067 | a new open-order row starts with its remaining quantity equal to its total |
| Traders.WithQuote | volumes/ibbot/Trader.py:865-890 | last, bid, ask and close ticks each set their own field; nothing else in the row changes |
| Traders.DetailsMarked | volumes/ibbot/Trader.py:1096-1116 | rows with the broker's `con_id` get the request mark, and an option's also lose their quotes; ids stay |
| Traders.Classified | volumes/ibbot/Trader.py:1096-1116 | the stock extending the first row with the `con_id` gets the industry, category and subcategory; ids stay |
| Traders.Released | volumes/ibbot/Trader.py:930-943 | no row keeps the request's mark; ids stay |
| Traders.Repriced | volumes/ibbot/Trader.py:1007-1026 | the contract row with the id gets the market price; ids stay |
| Traders.StrikeInPounds | volumes/ibbot/Trader.py:1015-1016 | a GBP contract's strike is divided by 100; any other contract is unchanged |
| Traders.PortfolioIdOfSamePortfolios | volumes/ibbot/Trader.py:1129-1157 | the portfolio id lookup reads the portfolio table only |
| Traders.Due | volumes/ibbot/Trader.py:675-682 | a periodic task runs on a loaded account once its period has passed since its last run |
| Traders.ScannerReady | volumes/ibbot/Trader.py:784-833 | the scanner finds the values it reads: the price of the symbol in progress when a near expiration is found, and the contract row of the next watch-list symbol |
| Traders.ScanStep | volumes/ibbot/Trader.py:771-840 | one step of `findWheelSymbolsInfo`: nothing before its time, else the timer moves 2 seconds on and `ScanAdvance` runs; `ScanStepProgress`, `ScanStepFreshIds` and `ScanStepRequestsWindow` state its properties |
| Traders.ScanAdvance | volumes/ibbot/Trader.py:784-840 | the symbol in progress is stepped, else the last watch-list symbol is started, else the list is restored |
| Traders.ChainStep | volumes/ibbot/Trader.py:784-824 | the next near expiration's window options are requested and the timer moves 11 seconds on, or the symbol is moved to the processed list |
| Traders.StartSymbol | volumes/ibbot/Trader.py:825-833 | the last watch-list symbol is popped, and its contract details and option chain are requested under the next two ticker ids |
| Traders.Restart | volumes/ibbot/Trader.py:834-840 | the processed symbols become the watch list again, an hour later |
| Traders.AppendFreshIds | volumes/ibbot/Trader.py:125-127 | requests numbered on from the counter, with the counter moved past them, use fresh ticker ids |
| Traders.ChainStepFreshIds | volumes/ibbot/Trader.py:795-824 | a step on a symbol in progress only appends requests, under fresh consecutive ticker ids |
| Traders.StartSymbolFreshIds | volumes/ibbot/Trader.py:825-833 | starting a symbol only appends requests, under fresh consecutive ticker ids |
| Traders.ScanStepFreshIds | volumes/ibbot/Trader.py:771-840 | every scanner step only appends to the log, under consecutive ticker ids right after the counter, which ends on the last one |
| Traders.ChainStepRequestsWindow | volumes/ibbot/Trader.py:795-820 | a near expiration leads to requests for options of that symbol and expiration at window strikes, and to the call and the put of every window strike |
| Traders.ScanStepRequestsWindow | volumes/ibbot/Trader.py:771-820 | the same, for a scanner step whose timer has run out |
| Traders.ScanStepProgress | volumes/ibbot/Trader.py:771-840 | the scanner waits at least 2 seconds and does nothing before its time; every step but the restart leaves less to scan; the restart brings the processed symbols back |
| Traders.Trader.constructor | volumes/ibbot/Trader.py:111-123 | a bot on a valid store, with no account, nothing loaded, an empty log and the ticker counter at 1024 |
| Traders.Trader.GetNextTickerId | volumes/ibbot/Trader.py:125-127 | the id is one more than the counter, which now stands on it |
| Traders.Trader.ClearApiReqId | volumes/ibbot/Trader.py:134-139 | no contract keeps a market-data mark; nothing else changes |
| Traders.Trader.ClearPortfolioBalances | volumes/ibbot/Trader.py:141-152 | the account's balances read 0; all other rows are untouched |
| Traders.Trader.ClearPortfolioPositions | volumes/ibbot/Trader.py:154-165 | the account's positions read 0; all other rows are untouched |
| Traders.Trader.ClearOpenOrders | volumes/ibbot/Trader.py:167-178 | the account's open orders are deleted; every other order row is kept |
| Traders.Trader.CreateOrUpdatePosition | volumes/ibbot/Trader.py:291-309 | the position table is `PositionsAfter`: a zero position deletes its rows; any other leaves exactly one row holding it; the store stays valid |
| Traders.Trader.StoreRate | volumes/ibbot/Trader.py:980-1000 | the edge reads the rate and no other edge changes |
| Traders.Trader.StoreBalance | volumes/ibbot/Trader.py:968-979 | the balance reads the quantity and no other balance changes |
| Traders.Trader.UpdateAccountValue | volumes/ibbot/Trader.py:964-1002 | a cash balance is stored; an exchange rate stores the edge and its reciprocal (NULL for 0); the NAV is kept; other keys change nothing |
| Traders.Trader.OpenOrder | volumes/ibbot/Trader.py:1048-1067 | a new order id with a resolved, non-zero contract id is inserted; a known order id changes nothing |
| Traders.Trader.OrderStatus | volumes/ibbot/Trader.py:1079-1091 | the order's status and remaining quantity are overwritten; no other row changes |
| Traders.Trader.ContractDetailsReceived | volumes/ibbot/Trader.py:1096-1116 | the contract is resolved; a stock is classified and an option loses its quotes; it is marked with a fresh id under which a snapshot is requested |
| Traders.Trader.TickPrice | volumes/ibbot/Trader.py:865-890 | the tick is stored in the rows marked with the request id (a negative price as NULL); other ticks are ignored |
| Traders.Trader.TickOptionComputation | volumes/ibbot/Trader.py:895-924 | a model-option tick stores its greeks in the option row of the first marked contract; other kinds are ignored |
| Traders.Trader.ReleaseMark | volumes/ibbot/Trader.py:855-856 | the request's mark is released everywhere; nothing else changes |
| Traders.Trader.Error | volumes/ibbot/Trader.py:848-860 | error 200 "No security definition has been found for the request" releases the mark; any other error changes nothing |
| Traders.Trader.SecurityDefinitionOptionParameter | volumes/ibbot/Trader.py:948-959 | a SMART answer becomes the chain to scan next; any other exchange changes nothing |
| Traders.Trader.PopNearExpiration | volumes/ibbot/Trader.py:795-800 | the loop does what `PopUntilNear` specifies |
| Traders.Trader.RequestWindowOptions | volumes/ibbot/Trader.py:805-817 | the loop appends `OptionRequests` of the window strikes and moves the counter two per strike |
| Traders.Trader.ContinueChain | volumes/ibbot/Trader.py:795-824 | the step on a symbol in progress is `ChainStep` |
| Traders.Trader.ScanExpiration | volumes/ibbot/Trader.py:801-820 | a near expiration's window options are requested and the next step waits 11 seconds more |
| Traders.Trader.FinishSymbol | volumes/ibbot/Trader.py:821-824 | the symbol is moved to the processed list and nothing is in progress |
| Traders.Trader.StartNextSymbol | volumes/ibbot/Trader.py:825-833 | the step that starts a symbol is `StartSymbol` |
| Traders.Trader.StartOrRestart | volumes/ibbot/Trader.py:825-840 | the next symbol is started, or the list is restored an hour later |
| Traders.Trader.FindWheelSymbolsInfo | volumes/ibbot/Trader.py:771-840 | one scanner step is `ScanStep`; the store and the other state are unchanged |
| Traders.Trader.Advance | volumes/ibbot/Trader.py:793-840 | the step once its timer has run out is `ScanStep` |
| Traders.Trader.TickSnapshotEnd | volumes/ibbot/Trader.py:930-943 | the mark is released, and once no snapshot is pending the scanner runs at once; otherwise nothing else changes |
| Traders.Trader.CancelStockOrderBook | volumes/ibbot/Trader.py:584-599 | the log grows by one cancel per live stock order of the account on the symbol and side, in table order |
| Traders.Trader.SellNakedPuts | volumes/ibbot/Trader.py:654-673 | at most once a minute, the puttable amount is computed and the timer set; otherwise nothing happens |
| Traders.Trader.AdjustCash | volumes/ibbot/Trader.py:675-742 | at most every ten minutes, the log grows by `CashAdjustment` and the timer is set; otherwise nothing happens |
| Traders.Trader.RebalanceBenchmark | volumes/ibbot/Trader.py:724-742 | the book is compared with the target and replaced when they differ |
| Traders.Trader.ReplaceBook | volumes/ibbot/Trader.py:726-742 | both sides of the benchmark book are cancelled, then the decided order is placed |
| Traders.Trader.CancelBenchmarkBook | volumes/ibbot/Trader.py:728-729 | the BUY side then the SELL side of the benchmark book are cancelled |
| Traders.Trader.PlaceBenchmarkOrder | volumes/ibbot/Trader.py:731-742 | a BUY of a positive quantity, a SELL of a negative one, nothing for zero |
| Traders.Trader.UpdateAccountTime | volumes/ibbot/Trader.py:1121-1124 | one scanner step, then the cash adjustment, its requests after the scanner's |
| Traders.Trader.AccountDownloadEnd | volumes/ibbot/Trader.py:1031-1033 | the portfolio is loaded |
| Traders.Trader.OpenOrderEnd | volumes/ibbot/Trader.py:1072-1074 | the open orders are loaded |
| Traders.Trader.Position | volumes/ibbot/Trader.py:1038-1043 | the contract is resolved and the position stored as `createOrUpdatePosition` does |
| Traders.Trader.UpdatePortfolio | volumes/ibbot/Trader.py:1007-1026 | unknown and cash entries change nothing; otherwise the contract (strike in pounds for GBP) is resolved, the position stored and the price set |
| Traders.Trader.ManagedAccounts | volumes/ibbot/Trader.py:1129-1157 | the account is recorded; the first time, the bot is configured, the session is reset and the four start-up requests are logged; later calls change nothing else |
| Traders.Trader.Configure | volumes/ibbot/Trader.py:1135-1145 | the benchmark "VT", the put ratio 0.5, the watch list, and the timers at 0 |
| Traders.Trader.ResetSession | volumes/ibbot/Trader.py:1147-1150 | the four session clears, in order, give `SessionReset` |

## Left out

- `getContractBuyableQuantity` and `getShortCallPositionQuantity`: no modelled operation calls them, and they only read the store.
- `sellCoveredCallsIfPossible`: its only call, in `updatePortfolio`, is commented out (volumes/ibbot/Trader.py:1025-1026), so it never runs. Run, it could insert contract rows through `findOrCreateContract`.
- `rollOptionIfNeeded`: its body only reads values and logs them, and it places no order.
- Traders.Trader.SellNakedPuts: the bot computes and reports the puttable amount and sells nothing. The model returns the amount instead of logging it.
- `cashAvailableRatio`: it is set but never read.
- `start`, `stop`, `main`, the logger set-up, the database connection and its `commit`, `print` and logging are I/O and are left out.
- Date parsing and display formatting are not modelled:
  - an expiration is given as its broker text and its day number;
  - an option's display name keeps the expiry text and leaves out the formatted strike.
- Floating point: prices, quantities and rates are `real`, so the model does not capture rounding. `math.floor` is Dafny's `.Floor`.
- SQL row order: a `fetchone` over a join that can match several rows yields the first in table order.
- Traders.Trader.CancelStockOrderBook: the `for r in c` loop over the join (volumes/ibbot/Trader.py:596) is taken to visit the rows in table order. SQLite does not promise that order.
- The watch list is a Python list (volumes/ibbot/Trader.py:1137) and `pop()` takes its last element, as the model does.
- The broker gives the option chain's expirations and strikes as sets (volumes/ibbot/Trader.py:948-959). The model takes them as sequences in the order the broker lists them.
- `position` ends with a call to the undefined `unused()`. The model stores the position and leaves out the crash that follows.
- The broker client class that receives the callbacks (`TestApp`) is not part of this model. Its next order id is the `orderId` parameter.
- The account that the broker client's own `managedAccounts` records is the `recorded` parameter of `Traders.Trader.ManagedAccounts`.
- `float(None)` crashes: each handler that would crash carries a `requires` that the queried value exists (`CashAdjustable`, `ScannerReady`, `PuttableAmount(...).Some?`). The crash itself is not modelled.
- Unknown-account crashes: `createOrUpdatePosition`, `openOrder`, `position` and `updatePortfolio` read `r[0]` of the portfolio lookup and fail when the account has no portfolio row. `updateAccountValue` fails the same way for the CashBalance key, inside `findPortfolio` (volumes/ibbot/Trader.py:186, called at 971), and for the ExchangeRate key (986). Traders.Trader.CreateOrUpdatePosition, Traders.Trader.OpenOrder, Traders.Trader.Position, Traders.Trader.UpdatePortfolio and, for those two keys, Traders.Trader.UpdateAccountValue require `FindPortfolio(...).Some?` instead. The failure is not modelled.
- Callbacks before `managedAccounts`: `__init__` (volumes/ibbot/Trader.py:111-123) creates neither `nextWheelProcess` nor the `wheelSymbols*` attributes, and leaves `lastNakedPutsSale` and `lastCashAdjust` at None. They are first set by `managedAccounts` (1135-1145). The model calls that state `configured`, and the handlers below require it. The errors the source raises without it are not modelled. Under the broker's usual callback order they are not reached.
- FindWheelSymbolsInfo (Traders.Trader.FindWheelSymbolsInfo): `requires configured`. Called earlier, the source raises AttributeError on `self.nextWheelProcess` (volumes/ibbot/Trader.py:774).
- TickSnapshotEnd (Traders.Trader.TickSnapshotEnd): requires `configured` when no snapshot is left pending. Earlier, the source sets `nextWheelProcess` (942) and raises AttributeError on `self.wheelSymbolsProcessing` (778) in the `findWheelSymbolsInfo` call.
- UpdateAccountTime (Traders.Trader.UpdateAccountTime): `requires configured`. Called earlier, the source raises AttributeError in its `findWheelSymbolsInfo` call (774).
- SellNakedPuts (Traders.Trader.SellNakedPuts): requires `configured` once both loaded flags are set. Earlier, `None + 60` (659) raises TypeError.
- AdjustCash (Traders.Trader.AdjustCash): requires `configured` once both loaded flags are set. Earlier, `None + 600` (680) raises TypeError.
- Division by zero: `adjustCash` divides by the benchmark's price in base currency (volumes/ibbot/Trader.py:712) and by its price (717), and raises `ZeroDivisionError` when that price is 0. `Rebalance.Computable`, part of `CashAdjustable`, requires those divisors to be non-zero. The failure is not modelled.
- Traders.Trader.UpdateAccountValue: the guard before inserting a balance compares the value's text with the number 0. That comparison is always true, so the model always inserts a missing row.
- Missing `strikes` or `expirations` in the option-chain answer are modelled as empty sequences.
- Traders.Trader.ReplaceBook: the puts on sale are read once from the unchanged store. The source repeats the same query after cancelling, so both reads give the same value.
- The scanner keeps expirations less than 50 days away, as the code does. It requests strikes in the broker's order, unsorted.
- Error 200 releases the request's mark only. The scanner is re-run by `tickSnapshotEnd` alone.
- The broker's text multipliers are their numeric value.
