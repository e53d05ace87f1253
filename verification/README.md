# Portfolio rebalancer — Dafny model

This project models the core of a small Ruby portfolio rebalancer (`main.rb`).
A `Stock` is a position: a ticker name, a unit price and a quantity. Its value
is price × quantity. A `Portfolio` pairs a list of stocks with a target
allocation. The allocation is a Hash from ticker to target fraction, and the
fractions should add up to 1 (100%).

Construction validates the pair with three ordered, fail-fast checks:

1. The fractions sum to 1 within 0.0001.
2. Every stock has a target. The missing tickers are reported in stock order.
3. Every target names a stock. The orphaned tickers are reported in allocation order.

Once built, the portfolio answers three queries:

- `total_value`: the sum of the stock values.
- `current_stats`: each stock's share of the total, rounded to four decimals, next to its target.
- `rebalance_plan`: for each stock, the gap between its target value (total × fraction) and its current value. A gap below the tolerance is a hold. Otherwise a positive gap is a buy and any other gap is a sell. The line carries the number of shares (rounded to six decimals) and the value (rounded to cents).

Module layout (one file each):

- `Results`: `Option` (Ruby's `nil` is `None`) and `Result`.
- `Reals`: absolute value, powers of ten, and Ruby's `Float#round` on exact reals. It also holds a few arithmetic facts, the error allowance `Budget`, and the lemma `SumsWithin` that adds up entry-by-entry errors.
- `Holdings`: `Stock`, `Value`, `TotalValue`, `Names`.
- `Allocations`: the Hash as its entries in insertion order, `Hash#[]` (`Find`), `Hash#values.sum`, and `Array#-` (`Difference`).
- `Portfolios`: the validated constructor `NewPortfolio`, its error datatype, and the corrected constructor `NewPortfolioChecked` (see Findings).
- `Statistics`: `CurrentStats` and the sums of its columns.
- `Rebalancing`: `RebalancePlan`, per-line properties, and the conservation of the value gaps.
- `Scenarios`: worked cases. These are the two-stock portfolio, the error paths, and the duplicate-ticker finding.

Exact `real` arithmetic stands in for Ruby floats. Rounding is modelled exactly: the nearest multiple of 10^-d, with a tie rounding away from zero. The caller of `RebalancePlan` supplies the tolerance. Its default is `Rebalancing.DefaultTolerance` = 0.0001.

## Model

`Holdings.Value` (main.rb:10-12), `Holdings.TotalValue` (main.rb:26-28), `Allocations.SumFractions` (main.rb:86), `Allocations.Difference` (main.rb:96), `Rebalancing.QuantityDiff` (main.rb:70) and `Rebalancing.DiffValue` (main.rb:57-60) are plain definitions with no contract of their own. The lemmas below characterize them: `TotalValueAppend` and `TotalZeroIff` the total, `SumTargetsIsSumFractions` the sum of fractions, `DifferenceMembers` and `DifferenceAppend` the list difference, `QuantityDiffInverts` the share count, and `SumDiffsIsShortfall` with `SumDiffsOverSameTickers` the gaps. The error allowances below are written `Reals.Budget(n, e)`, e added up once per stock, and `Reals.BudgetIsProduct` proves that this is n × e.

| member | source | states |
|---|---|---|
| Holdings.TotalValueAppend | main.rb:26-28 | the total value of two stock lists joined is the sum of their totals |
| Holdings.TotalValueSingle | main.rb:10-12 | a one-stock list is worth that stock's price × quantity. Together with `TotalValueAppend`, the total is the plain sum of price × quantity over the list |
| Holdings.TotalValueNonNegative | main.rb:26-28 | when no position has a negative value, the total is not negative |
| Holdings.ValueAtMostTotal | main.rb:26-28 | when no position has a negative value, each position's value lies between 0 and the total |
| Holdings.TotalZeroIff | main.rb:26-28 | when no position has a negative value, the total is zero exactly when every position's price × quantity is zero, the empty list included |
| Holdings.Names | main.rb:92 | `stocks.map(&:name)`: one name per stock, in stock order |
| Allocations.Keys | main.rb:93 | `Hash#keys`: one key per entry, in insertion order |
| Allocations.Find | main.rb:37 | `Hash#[]` returns a value exactly when the key is present, and then it returns that key's fraction |
| Allocations.FindEntry | main.rb:37 | a fraction that `Hash#[]` returns is stored in an entry under the looked-up key |
| Allocations.DifferenceMembers | main.rb:96 | `Array#-`: a ticker is in the result exactly when it is in the left list and not in the right one, and each such ticker keeps its number of occurrences |
| Allocations.DifferenceAppend | main.rb:96 | `Array#-` keeps the left list's order: it distributes over concatenation |
| Allocations.SumTargetsIsSumFractions | main.rb:86 | looking up each name of a repetition-free list that names exactly the Hash's keys, and summing the results, gives `Hash#values.sum` |
| Portfolios.NewPortfolio | main.rb:83-106 | construction succeeds exactly when the sum is within 0.0001 of 1 and the ticker sets agree, and success yields a portfolio whose every lookup is defined. The sum error occurs exactly when the sum check fails, and it carries the sum. The missing error occurs exactly when the sum passes and some stock has no target, and it carries `stock_names - allocation_names`. The orphan error occurs exactly when both earlier checks pass and some target names no stock, and it carries `allocation_names - stock_names` |
| Portfolios.CoveredIffNothingMissing | main.rb:96-97 | every stock has a target exactly when `stock_names - allocation_names` is empty |
| Portfolios.NamedIffNoOrphans | main.rb:102-103 | every target names a stock exactly when `allocation_names - stock_names` is empty |
| Portfolios.ErrorsNameTickers | main.rb:96-105 | a missing or orphan error always names at least one ticker |
| Portfolios.EmptyPortfolioRejected | main.rb:86-89 | no stocks with an empty allocation is refused with the sum error and sum 0 |
| Portfolios.NewPortfolioChecked | main.rb:83-106 | the corrected constructor accepts exactly what `NewPortfolio` accepts and has repetition-free tickers. It keeps `NewPortfolio`'s error. A list that `NewPortfolio` accepts but that repeats a ticker is refused with the duplicate-ticker error, which names a non-empty list of tickers taken from the stock list |
| Allocations.Repeated | main.rb:92 | the repetitions of a name list: empty exactly when the names are distinct, and a name that occurs n > 0 times is listed n − 1 times |
| Portfolios.DuplicatesReported | main.rb:92-105 | the corrected constructor raises the duplicate-ticker error exactly when `NewPortfolio` accepts and a ticker repeats. The error lists each ticker that occurs n > 0 times in the stock list n − 1 times |
| Reals.RoundTo | main.rb:36 | `Float#round(d)` moves its argument by at most half a unit of the d-th decimal and never changes its sign |
| Reals.RoundWholeNearest | main.rb:36 | rounding to a whole number picks the k with x in [k − ½, k + ½) at or above zero and in (k − ½, k + ½] below it, so a tie goes away from zero |
| Reals.RoundToScaled | main.rb:36 | rounding to d decimals is scaling by 10^d, rounding to a whole number, and scaling back |
| Reals.RoundToOnGrid | main.rb:36 | the result of `round(d)` has at most d decimals: times 10^d it is a whole number |
| Reals.RoundOnGrid | main.rb:75-76 | a number that already has at most d decimals is returned unchanged by `round(d)` |
| Reals.RoundWholeNumber | main.rb:75-76 | a whole number is returned unchanged by `round(d)` for every d |
| Reals.SumsWithin | main.rb:36 | lists that agree entry by entry to within e have sums that agree to within e per entry |
| Statistics.StatFor | main.rb:35-46 | a report row carries the stock's ticker, quantity and value, the target that `Hash#[]` returns, and a current fraction within 0.00005 of value / total |
| Statistics.StatForRounds | main.rb:36 | a row's current fraction is `round(4)` of value / total: value / total scaled by 10^4, taken to the nearest whole number with a tie away from zero, and scaled back |
| Statistics.StatsOfLines | main.rb:34-48 | row i of the report is the row of stock i: the report keeps the stock order and drops no stock |
| Statistics.StatsOfRows | main.rb:34-48 | every row of the report of a non-zero total carries its stock's ticker, quantity and value, the fraction `Hash#[]` returns for the ticker, and a current fraction within 0.00005 of value / total |
| Statistics.CurrentStats | main.rb:30-49 | the report is empty when the total is zero. Otherwise it has one row per stock, in stock order, with the row properties of `StatFor` |
| Statistics.SumSharesIsRatio | main.rb:36 | the exact shares value / total add up to total value / total |
| Statistics.StatFractionsSumNearOne | main.rb:30-49 | with a non-zero total, the report's current fractions add up to 1 within (number of stocks) × 0.00005 |
| Statistics.TargetColumnIsLookup | main.rb:37 | the target column adds up to the sum of the allocation's lookups of the stock names |
| Statistics.StatTargetsSumToAllocation | main.rb:37 | on a validated portfolio with repetition-free tickers, the target column adds up to `Hash#values.sum`, which is within 0.0001 of 1 |
| Statistics.StatsEmptyIff | main.rb:32 | when no position has a negative value, the report is empty exactly when every position is worth zero |
| Rebalancing.QuantityDiffInverts | main.rb:70 | with a non-zero price, the unrounded share count times the price is the value gap. With a zero price there is no finite share count |
| Rebalancing.TargetIsEntry | main.rb:56 | a stock's target is the fraction of an allocation entry under its ticker, and of the only such entry when the keys are distinct |
| Rebalancing.TradeQuantity | main.rb:70-75 | the traded share count exists exactly when the price is not zero. It is within 0.0000005 of gap / price and has the sign of gap / price |
| Rebalancing.TradeValue | main.rb:76 | the traded value is within half a cent of the gap and has the gap's sign |
| Rebalancing.TradeQuantityRounds | main.rb:70-75 | with a non-zero price, the share count is `round(6)` of gap / price: scaled by 10^6, taken to the nearest whole number with a tie away from zero, and scaled back |
| Rebalancing.TradeValueRounds | main.rb:76 | the traded value is `round(2)` of the gap: the nearest cent, a tie away from zero |
| Rebalancing.EntryFor | main.rb:56-77 | the line is a hold exactly when the gap is below the tolerance, and a hold trades 0 shares worth 0. It is a buy exactly when it is not a hold and the gap is positive. A trade's value is within half a cent of the gap, and its share count is within 0.0000005 of gap / price. It has a share count exactly when the price is not zero. Buys carry non-negative values and sells carry non-positive values, and with a positive price the share count has the same sign |
| Rebalancing.PlanOfLines | main.rb:55-79 | line i of the plan is the line of stock i against its looked-up target: the plan keeps the stock order and drops no stock |
| Rebalancing.RebalancePlan | main.rb:51-80 | the plan is empty when the total is zero. Otherwise it has one line per stock, in stock order, each the `EntryFor` of the stock against its looked-up target and the total |
| Rebalancing.EntryOnTargetIsHold | main.rb:60-68 | a stock worth exactly total × target is a hold of nothing, under any positive tolerance |
| Rebalancing.OnTargetIsHeld | main.rb:51-80 | in the plan, a stock already worth exactly its target share is held |
| Rebalancing.EntryValueNearDiff | main.rb:62-76 | a line's value misses its gap by at most max(tolerance, half a cent) |
| Rebalancing.SumDiffsIsShortfall | main.rb:57-60 | the gaps add up to the sum of the target values minus the total value |
| Rebalancing.SumTargetValuesScale | main.rb:57 | the target values total × fraction add up to the total × the sum of the stocks' fractions |
| Rebalancing.StockTargetsSumFractions | main.rb:56 | when each key names exactly one stock, the stocks' targets add up to `Hash#values.sum` |
| Rebalancing.SumDiffsOverSameTickers | main.rb:57-60 | when each key names exactly one stock, the gaps add up to total × (sum of fractions − 1) |
| Rebalancing.ShortfallBound | main.rb:87 | the sum check's bound of 0.0001 becomes a bound of abs(total) × 0.0001 on total × (sum − 1), a strict one when the total is not zero |
| Rebalancing.PlanDiffsConserved | main.rb:57-60 | buys are funded by sells: on any portfolio the corrected constructor accepts, the gaps add up to total × (sum − 1), whose absolute value is below abs(total) × 0.0001 |
| Rebalancing.PlanValuesNearDiffs | main.rb:62-76 | the plan's value column adds up to the sum of the gaps within (number of stocks) × max(tolerance, half a cent) |
| Scenarios.TwoStocksAccepted | main.rb:83-106 | AAA (100 × 10) and BBB (50 × 10) with targets 0.5 and 0.5 are accepted |
| Scenarios.ThirdsRounded | main.rb:36 | two thirds and one third, rounded to four decimals, are 0.6667 and 0.3333 |
| Scenarios.TradesRounded | main.rb:75-76 | −2.5, 5 and 1 shares and −250, 250 and 100 in value are left alone by rounding to six and two decimals |
| Scenarios.TwoStocksReport | main.rb:30-49 | that portfolio is worth 1500, and its report rows give fractions of 0.6667 and 0.3333 against targets of 0.5 |
| Scenarios.AaaSells | main.rb:55-77 | AAA, worth 1000 against a target of 750, is a sell of 2.5 shares for −250 |
| Scenarios.BbbBuys | main.rb:55-77 | BBB, worth 500 against a target of 750, is a buy of 5 shares for 250 |
| Scenarios.TwoStocksPlan | main.rb:51-80 | its plan sells 2.5 AAA for −250 and buys 5 BBB for 250 |
| Scenarios.NinetyPercentRefused | main.rb:86-89 | fractions that sum to 0.9 give the sum error with 0.9 |
| Scenarios.SumCheckRunsFirst | main.rb:86-89 | the sum error is reported even when the tickers also disagree |
| Scenarios.MissingReportedInStockOrder | main.rb:96-99 | against the single target CCC, both stocks are reported missing, in stock order |
| Scenarios.DuplicateTickersUnfunded | main.rb:92-105 | a stock list that names A twice against {A: 1.0} is accepted, and its gaps add up to 200 |
| Scenarios.DoubledLineBuys | main.rb:55-77 | each line of the doubled list aims at 200 from 100: a buy of one share for 100 |
| Scenarios.DuplicateTickersBuyTwice | main.rb:55-77 | that plan buys 100 of A twice and sells nothing |
| Scenarios.DuplicateTickersRefused | main.rb:92-105 | the corrected constructor refuses that list and names A as the repeated ticker |

## Left out

- The sample script at main.rb:110-166 is left out. It is hard-coded data printed with `puts`.
- The `balanced` comparison at main.rb:143 is part of that printing loop and is left out.
- The percentage strings at main.rb:43-44 and the text of the three error messages are left out. Errors are a datatype that carries the offending sum or the ticker list.
- `transform_keys(&:to_s)` at main.rb:21 is left out. Allocation keys are taken to be strings already.
- `NewPortfolio` requires distinct allocation keys, because a Ruby Hash cannot hold a key twice. The Hash is modelled as its entry list, so this is a property of the type and not a restriction on callers.
- IEEE floating point is not modelled. Prices, quantities and fractions are exact reals, so there is no binary representation error and no overflow. `Float#round` is applied to the exact value.
- Ruby Integer inputs are not modelled. If every price, quantity and fraction were an Integer, `diff_value / stock.price` at main.rb:70 would be an integer division that floors.
- With a zero price, `diff_value / stock.price` is an infinite Float in Ruby, or NaN when the gap is also zero (a line that is not a hold because the tolerance is not positive). The model gives a quantity of `None` instead.
- Ruby objects are mutable, and the model does not cover mutating `stocks` after construction, which would bypass validation. Portfolios are immutable values here.
- The model follows the code on the empty portfolio: no stocks with an empty allocation fails the sum check, because an empty Hash sums to 0 (`Portfolios.EmptyPortfolioRejected`). When no position has a negative value, the empty report and plan for a zero total are therefore reached only by stocks that are all worth nothing. Negative quantities are not rejected, so positions whose values cancel out also give a zero total.
- Statistics.StatFor: its own contract states the current fraction only to within half a unit of the fourth decimal of value / total, which is enough for the sum-to-one property. Which multiple of 0.0001 is chosen is stated by `Statistics.StatForRounds`.
- Statistics.CurrentStats: the same bound as `StatFor`, applied to every row. Each row is `StatFor` of its stock, so `Statistics.StatForRounds` gives its exact value.
- Rebalancing.EntryFor: states the rounded quantity and value only to within half a unit of their last decimal. A trade line carries `TradeQuantity` and `TradeValue`, whose exact rounding is stated by `Rebalancing.TradeQuantityRounds` and `Rebalancing.TradeValueRounds`.
- Rebalancing.TradeQuantity: its own contract gives only the half-unit bound of the sixth decimal and the sign. The exact `round(6)` is stated by `Rebalancing.TradeQuantityRounds`.
- Rebalancing.TradeValue: its own contract gives only the half-cent bound and the sign. The exact `round(2)` is stated by `Rebalancing.TradeValueRounds`.
- Statistics.StatsOfRows: gives each row's current fraction only to within half a unit of the fourth decimal of value / total. Each row is `StatFor` of its stock, and the exact `round(4)` is stated by `Statistics.StatForRounds`.
- Reals.RoundTo: its own contract states only the half-unit bound and the sign. The grid and the tie rule are stated by `Reals.RoundToOnGrid`, `Reals.RoundToScaled` and `Reals.RoundWholeNearest`.
- Rebalancing.PlanDiffsConserved: holds only for portfolios whose tickers are all different, because the source's own validation does not ensure conservation (see Findings).
- Statistics.StatTargetsSumToAllocation: requires repetition-free tickers for the same reason.

## Findings

| source | as written | input that shows it | evidently intended | confidence | as-written member | corrected member |
|---|---|---|---|---|---|---|
| main.rb:92-105 | validation compares the ticker lists only through `Array#-`, so a stock list that names one ticker twice passes | stocks A (price 100, quantity 1) twice, allocation {A: 1.0}: total 200, each line targets 200 and buys 100, so the gaps add up to 200 instead of about 0 | each allocated ticker is one position, so its target is counted once and buys are funded by sells | medium, not executed | Scenarios.DuplicateTickersUnfunded | Portfolios.NewPortfolioChecked |

`Portfolios.NewPortfolioChecked` runs the same three checks and then refuses repeated tickers with `DuplicateTickerError`. The conservation lemma `Rebalancing.PlanDiffsConserved` is stated over portfolios that it accepts.
