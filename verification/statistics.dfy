/** The current-allocation report: each stock's share of the total next to its target. */
module Statistics {
  import opened Reals
  import opened Holdings
  import opened Allocations
  import opened Portfolios

  /** Decimal places kept in a stock's current fraction. */
  const FractionDigits: nat := 4

  /** The largest rounding error of one current fraction: half a unit of the fourth decimal. */
  const FractionError: real := 0.00005

  lemma FractionErrorIsHalfUlp()
    ensures HalfUlp(FractionDigits) == FractionError
  {
    assert Pow10(FractionDigits) == 10000.0;
  }

  /** One report row: the stock, its value, its current fraction (rounded) and its target fraction. */
  datatype StatEntry = StatEntry(
    ticker: string,
    quantity: real,
    value: real,
    currentFraction: real,
    targetFraction: real)

  /** The row of one stock, given a non-zero portfolio total. */
  function StatFor(s: Stock, a: Allocation, total: real): (e: StatEntry)
    requires s.name in Keys(a)
    requires total != 0.0
    ensures e.ticker == s.name && e.quantity == s.quantity && e.value == Value(s)
    ensures Find(a, s.name) == Results.Some(e.targetFraction)
    ensures Abs(e.currentFraction - Value(s) / total) <= FractionError
  {
    FractionErrorIsHalfUlp();
    StatEntry(s.name, s.quantity, Value(s), RoundTo(Value(s) / total, FractionDigits), Find(a, s.name).value)
  }

  /**
   * A row's current fraction is Ruby's `round(4)` of value / total: scaled
   * by 10^4, taken to the nearest whole number (a tie away from zero),
   * scaled back.
   */
  lemma StatForRounds(s: Stock, a: Allocation, total: real)
    requires s.name in Keys(a)
    requires total != 0.0
    ensures StatFor(s, a, total).currentFraction == RoundWhole(Times(Value(s) / total, 10000.0)) / 10000.0
  {
    assert Pow10(FractionDigits) == 10000.0;
    RoundToScaled(Value(s) / total, FractionDigits);
  }

  /** One row per stock, in stock order. */
  function StatsOf(stocks: seq<Stock>, a: Allocation, total: real): (r: seq<StatEntry>)
    requires Covered(stocks, a)
    requires total != 0.0
    ensures |r| == |stocks|
  {
    if |stocks| == 0 then [] else [StatFor(stocks[0], a, total)] + StatsOf(stocks[1..], a, total)
  }

  /** Row i of the report is the row of stock i. */
  lemma {:induction false} StatsOfLines(stocks: seq<Stock>, a: Allocation, total: real)
    requires Covered(stocks, a)
    requires total != 0.0
    ensures forall i :: 0 <= i < |stocks| ==> StatsOf(stocks, a, total)[i] == StatFor(stocks[i], a, total)
    decreases |stocks|
  {
    if |stocks| > 0 {
      CoveredTail(stocks, a);
      StatsOfLines(stocks[1..], a, total);
      var rows := StatsOf(stocks, a, total);
      forall i | 0 <= i < |stocks|
        ensures rows[i] == StatFor(stocks[i], a, total)
      {
        if i > 0 {
          assert rows[i] == StatsOf(stocks[1..], a, total)[i - 1];
          assert stocks[1..][i - 1] == stocks[i];
        }
      }
    }
  }

  /**
   * The report: empty when the portfolio is worth nothing (no division by a
   * zero total); otherwise one row per stock, in stock order, carrying the
   * stock's ticker, quantity and value, its target fraction as looked up in
   * the allocation, and its share of the total to within half a unit of the
   * fourth decimal.
   */
  function CurrentStats(p: Portfolio): (r: seq<StatEntry>)
    requires Covered(p.stocks, p.allocation)
    ensures TotalValue(p.stocks) == 0.0 ==> r == []
    ensures TotalValue(p.stocks) != 0.0 ==> |r| == |p.stocks|
    ensures TotalValue(p.stocks) != 0.0 ==>
              forall i :: 0 <= i < |r| ==>
                && r[i].ticker == p.stocks[i].name
                && r[i].quantity == p.stocks[i].quantity
                && r[i].value == Value(p.stocks[i])
                && Find(p.allocation, p.stocks[i].name) == Results.Some(r[i].targetFraction)
                && Abs(r[i].currentFraction - Value(p.stocks[i]) / TotalValue(p.stocks)) <= FractionError
  {
    if TotalValue(p.stocks) == 0.0 then []
    else
      StatsOfRows(p.stocks, p.allocation, TotalValue(p.stocks));
      StatsOf(p.stocks, p.allocation, TotalValue(p.stocks))
  }

  /** The row properties of `StatFor`, row by row. */
  lemma StatsOfRows(stocks: seq<Stock>, a: Allocation, total: real)
    requires Covered(stocks, a)
    requires total != 0.0
    ensures forall i :: 0 <= i < |stocks| ==>
              && StatsOf(stocks, a, total)[i].ticker == stocks[i].name
              && StatsOf(stocks, a, total)[i].quantity == stocks[i].quantity
              && StatsOf(stocks, a, total)[i].value == Value(stocks[i])
              && Find(a, stocks[i].name) == Results.Some(StatsOf(stocks, a, total)[i].targetFraction)
              && Abs(StatsOf(stocks, a, total)[i].currentFraction - Value(stocks[i]) / total) <= FractionError
  {
    StatsOfLines(stocks, a, total);
  }

  /** The current-fraction column of a report. */
  function CurrentFractions(rows: seq<StatEntry>): (r: seq<real>)
    ensures |r| == |rows|
    ensures forall i :: 0 <= i < |rows| ==> r[i] == rows[i].currentFraction
  {
    if |rows| == 0 then [] else [rows[0].currentFraction] + CurrentFractions(rows[1..])
  }

  /** The target-fraction column of a report. */
  function TargetFractions(rows: seq<StatEntry>): (r: seq<real>)
    ensures |r| == |rows|
    ensures forall i :: 0 <= i < |rows| ==> r[i] == rows[i].targetFraction
  {
    if |rows| == 0 then [] else [rows[0].targetFraction] + TargetFractions(rows[1..])
  }

  /** The exact share value / total of each stock, in stock order. */
  function Shares(stocks: seq<Stock>, total: real): (r: seq<real>)
    requires total != 0.0
    ensures |r| == |stocks|
    ensures forall i :: 0 <= i < |stocks| ==> r[i] == Value(stocks[i]) / total
  {
    if |stocks| == 0 then [] else [Value(stocks[0]) / total] + Shares(stocks[1..], total)
  }

  /** The exact shares add up to the whole: their sum is total value / total. */
  lemma {:induction false} SumSharesIsRatio(stocks: seq<Stock>, total: real)
    requires total != 0.0
    ensures Sum(Shares(stocks, total)) == TotalValue(stocks) / total
  {
    if |stocks| > 0 {
      SumSharesIsRatio(stocks[1..], total);
      assert Shares(stocks, total)[1..] == Shares(stocks[1..], total);
      DivideAdd(Value(stocks[0]), TotalValue(stocks[1..]), total);
    }
  }

  /** Each row's rounding error is at most half a unit of the fourth decimal, and these add up. */
  lemma RoundedSharesClose(stocks: seq<Stock>, a: Allocation, total: real)
    requires Covered(stocks, a)
    requires total != 0.0
    ensures Abs(Sum(CurrentFractions(StatsOf(stocks, a, total))) - Sum(Shares(stocks, total)))
            <= Budget(|stocks|, FractionError)
  {
    RowsClose(stocks, a, total);
    SumsWithin(CurrentFractions(StatsOf(stocks, a, total)), Shares(stocks, total), FractionError);
  }

  /** Row by row, the rounded current fraction is within half a unit of the fourth decimal of the exact share. */
  lemma RowsClose(stocks: seq<Stock>, a: Allocation, total: real)
    requires Covered(stocks, a)
    requires total != 0.0
    ensures |CurrentFractions(StatsOf(stocks, a, total))| == |Shares(stocks, total)| == |stocks|
    ensures forall i :: 0 <= i < |CurrentFractions(StatsOf(stocks, a, total))| ==>
              Abs(CurrentFractions(StatsOf(stocks, a, total))[i] - Shares(stocks, total)[i]) <= FractionError
  {
    StatsOfLines(stocks, a, total);
  }

  /**
   * The current fractions of a report that is not empty add up to 100%,
   * up to the rounding of each one: within (number of stocks) x 0.00005.
   */
  lemma StatFractionsSumNearOne(p: Portfolio)
    requires Covered(p.stocks, p.allocation)
    requires TotalValue(p.stocks) != 0.0
    ensures Abs(Sum(CurrentFractions(CurrentStats(p))) - 1.0) <= Budget(|p.stocks|, FractionError)
  {
    assert CurrentStats(p) == StatsOf(p.stocks, p.allocation, TotalValue(p.stocks));
    RoundedSharesClose(p.stocks, p.allocation, TotalValue(p.stocks));
    SumSharesIsRatio(p.stocks, TotalValue(p.stocks));
    DivideSelf(TotalValue(p.stocks));
  }

  /** The target column looks each stock up in the allocation. */
  lemma {:induction false} TargetColumnIsLookup(stocks: seq<Stock>, a: Allocation, total: real)
    requires Covered(stocks, a)
    requires total != 0.0
    ensures Sum(TargetFractions(StatsOf(stocks, a, total))) == SumTargets(Names(stocks), a)
  {
    if |stocks| > 0 {
      var rows := StatsOf(stocks, a, total);
      assert rows[1..] == StatsOf(stocks[1..], a, total);
      assert TargetFractions(rows)[1..] == TargetFractions(rows[1..]);
      assert Names(stocks)[1..] == Names(stocks[1..]);
      TargetColumnIsLookup(stocks[1..], a, total);
    }
  }

  /**
   * In a report on a validated portfolio whose tickers are all different,
   * the target column adds up to the allocation's sum, hence to 100% within
   * the validation tolerance.
   */
  lemma StatTargetsSumToAllocation(p: Portfolio)
    requires Valid(p)
    requires Distinct(Names(p.stocks))
    requires TotalValue(p.stocks) != 0.0
    ensures Sum(TargetFractions(CurrentStats(p))) == SumFractions(p.allocation)
    ensures Abs(Sum(TargetFractions(CurrentStats(p))) - 1.0) < SumTolerance
  {
    var total := TotalValue(p.stocks);
    var rows := StatsOf(p.stocks, p.allocation, total);
    assert CurrentStats(p) == rows;
    TargetColumnIsLookup(p.stocks, p.allocation, total);
    SumTargetsIsSumFractions(Names(p.stocks), p.allocation);
    var x := Sum(TargetFractions(rows));
    assert x == SumFractions(p.allocation);
    assert Abs(x - 1.0) < SumTolerance;
  }

  /**
   * With no negative position, the report is empty exactly when every
   * position is worth zero.
   */
  lemma StatsEmptyIff(p: Portfolio)
    requires Covered(p.stocks, p.allocation)
    requires NonNegativeValues(p.stocks)
    ensures CurrentStats(p) == [] <==> forall i :: 0 <= i < |p.stocks| ==> Value(p.stocks[i]) == 0.0
  {
    TotalZeroIff(p.stocks);
  }
}
