/**
 * Worked cases: a two-stock portfolio, a sum check that fails, and a
 * stock list that names one ticker twice.
 */
module Scenarios {
  import opened Results
  import opened Reals
  import opened Holdings
  import opened Allocations
  import opened Portfolios
  import opened Statistics
  import opened Rebalancing

  /** 10 shares of AAA at 100 and 10 shares of BBB at 50, targeted half and half. */
  function TwoStocks(): seq<Stock>
  {
    [Stock("AAA", 100.0, 10.0), Stock("BBB", 50.0, 10.0)]
  }

  function HalfAndHalf(): Allocation
  {
    [("AAA", 0.5), ("BBB", 0.5)]
  }

  /** The two-stock portfolio is accepted as given. */
  lemma TwoStocksAccepted()
    ensures NewPortfolio(TwoStocks(), HalfAndHalf()) == Ok(Portfolio(TwoStocks(), HalfAndHalf()))
  {
    assert SumFractions(HalfAndHalf()) == 1.0;
    assert Names(TwoStocks()) == ["AAA", "BBB"];
    assert Keys(HalfAndHalf()) == ["AAA", "BBB"];
  }

  /** Each of the two stocks is targeted at one half. */
  lemma HalfEach()
    ensures TargetOf(Stock("AAA", 100.0, 10.0), HalfAndHalf()) == 0.5
    ensures TargetOf(Stock("BBB", 50.0, 10.0), HalfAndHalf()) == 0.5
  {
    assert HalfAndHalf()[1..] == [("BBB", 0.5)];
  }

  /** Both stocks have a target. */
  lemma TwoStocksCovered()
    ensures Covered(TwoStocks(), HalfAndHalf())
  {
    assert Keys(HalfAndHalf()) == ["AAA", "BBB"];
  }

  lemma TwoStocksTotal()
    ensures TotalValue(TwoStocks()) == 1500.0
  {
  }

  /** Two thirds and one third, rounded to the fourth decimal. */
  lemma ThirdsRounded()
    ensures RoundTo(1000.0 / 1500.0, FractionDigits) == 0.6667
    ensures RoundTo(500.0 / 1500.0, FractionDigits) == 0.3333
  {
    assert Pow10(FractionDigits) == 10000.0;
    RoundToScaled(1000.0 / 1500.0, FractionDigits);
    assert Times(1000.0 / 1500.0, 10000.0) == 20000.0 / 3.0;
    RoundWholeNearest(20000.0 / 3.0, 6667);
    RoundToScaled(500.0 / 1500.0, FractionDigits);
    assert Times(500.0 / 1500.0, 10000.0) == 10000.0 / 3.0;
    RoundWholeNearest(10000.0 / 3.0, 3333);
  }

  /** Whole numbers of shares and of cents are left alone by rounding. */
  lemma TradesRounded()
    ensures RoundTo(-2.5, QuantityDigits) == -2.5 && RoundTo(5.0, QuantityDigits) == 5.0
    ensures RoundTo(1.0, QuantityDigits) == 1.0
    ensures RoundTo(-250.0, ValueDigits) == -250.0 && RoundTo(250.0, ValueDigits) == 250.0
    ensures RoundTo(100.0, ValueDigits) == 100.0
  {
    RoundWholeNumber(-25, QuantityDigits - 1);
    assert RoundTo(-2.5, QuantityDigits) == RoundTo(-25.0, QuantityDigits - 1) / 10.0;
    RoundWholeNumber(5, QuantityDigits);
    RoundWholeNumber(1, QuantityDigits);
    RoundWholeNumber(-250, ValueDigits);
    RoundWholeNumber(250, ValueDigits);
    RoundWholeNumber(100, ValueDigits);
  }

  /** Worth 1500 in all: AAA holds two thirds, rounded to 0.6667, and BBB one third, 0.3333. */
  lemma TwoStocksReport()
    ensures CurrentStats(Portfolio(TwoStocks(), HalfAndHalf()))
            == [StatEntry("AAA", 10.0, 1000.0, 0.6667, 0.5), StatEntry("BBB", 10.0, 500.0, 0.3333, 0.5)]
  {
    TwoStocksTotal();
    ThirdsRounded();
    var rows := CurrentStats(Portfolio(TwoStocks(), HalfAndHalf()));
    assert |rows| == 2;
    assert rows[0] == StatFor(Stock("AAA", 100.0, 10.0), HalfAndHalf(), 1500.0);
    assert rows[1] == StatFor(Stock("BBB", 50.0, 10.0), HalfAndHalf(), 1500.0);
    assert rows[0] == StatEntry("AAA", 10.0, 1000.0, 0.6667, 0.5);
    assert rows[1] == StatEntry("BBB", 10.0, 500.0, 0.3333, 0.5);
  }

  /** Each stock's target is 750: sell 2.5 shares (250) of AAA, buy 5 shares (250) of BBB. */
  lemma TwoStocksPlan()
    ensures RebalancePlan(Portfolio(TwoStocks(), HalfAndHalf()), DefaultTolerance)
            == [PlanEntry("AAA", Sell, Some(-2.5), -250.0), PlanEntry("BBB", Buy, Some(5.0), 250.0)]
  {
    TwoStocksCovered();
    FirstLineSells();
    SecondLineBuys();
    PairOf(RebalancePlan(Portfolio(TwoStocks(), HalfAndHalf()), DefaultTolerance),
           PlanEntry("AAA", Sell, Some(-2.5), -250.0), PlanEntry("BBB", Buy, Some(5.0), 250.0));
  }

  /** The first line of the two-stock plan sells 2.5 shares of AAA. */
  lemma FirstLineSells()
    ensures |RebalancePlan(Portfolio(TwoStocks(), HalfAndHalf()), DefaultTolerance)| == 2
    ensures RebalancePlan(Portfolio(TwoStocks(), HalfAndHalf()), DefaultTolerance)[0]
            == PlanEntry("AAA", Sell, Some(-2.5), -250.0)
  {
    TwoStocksCovered();
    TwoStocksTotal();
    HalfEach();
    assert RebalancePlan(Portfolio(TwoStocks(), HalfAndHalf()), DefaultTolerance)[0]
        == EntryFor(Stock("AAA", 100.0, 10.0), 0.5, 1500.0, DefaultTolerance);
    AaaSells();
  }

  /** The second line of the two-stock plan buys 5 shares of BBB. */
  lemma SecondLineBuys()
    ensures |RebalancePlan(Portfolio(TwoStocks(), HalfAndHalf()), DefaultTolerance)| == 2
    ensures RebalancePlan(Portfolio(TwoStocks(), HalfAndHalf()), DefaultTolerance)[1]
            == PlanEntry("BBB", Buy, Some(5.0), 250.0)
  {
    TwoStocksCovered();
    TwoStocksTotal();
    HalfEach();
    assert RebalancePlan(Portfolio(TwoStocks(), HalfAndHalf()), DefaultTolerance)[1]
        == EntryFor(Stock("BBB", 50.0, 10.0), 0.5, 1500.0, DefaultTolerance);
    BbbBuys();
  }

  /** AAA is worth 1000 against a target of 750: sell 250, that is 2.5 shares at 100. */
  lemma AaaSells()
    ensures EntryFor(Stock("AAA", 100.0, 10.0), 0.5, 1500.0, DefaultTolerance)
            == PlanEntry("AAA", Sell, Some(-2.5), -250.0)
  {
    assert DiffValue(Stock("AAA", 100.0, 10.0), 0.5, 1500.0) == -250.0;
    assert !(Abs(-250.0) < DefaultTolerance);
    assert EntryFor(Stock("AAA", 100.0, 10.0), 0.5, 1500.0, DefaultTolerance)
        == PlanEntry("AAA", Sell, TradeQuantity(-250.0, 100.0), TradeValue(-250.0));
    assert TradeQuantity(-250.0, 100.0) == Some(RoundTo(-2.5, QuantityDigits));
    assert TradeValue(-250.0) == RoundTo(-250.0, ValueDigits);
    TradesRounded();
  }

  /** BBB is worth 500 against a target of 750: buy 250, that is 5 shares at 50. */
  lemma BbbBuys()
    ensures EntryFor(Stock("BBB", 50.0, 10.0), 0.5, 1500.0, DefaultTolerance)
            == PlanEntry("BBB", Buy, Some(5.0), 250.0)
  {
    assert DiffValue(Stock("BBB", 50.0, 10.0), 0.5, 1500.0) == 250.0;
    assert !(Abs(250.0) < DefaultTolerance);
    assert EntryFor(Stock("BBB", 50.0, 10.0), 0.5, 1500.0, DefaultTolerance)
        == PlanEntry("BBB", Buy, TradeQuantity(250.0, 50.0), TradeValue(250.0));
    assert TradeQuantity(250.0, 50.0) == Some(RoundTo(5.0, QuantityDigits));
    assert TradeValue(250.0) == RoundTo(250.0, ValueDigits);
    TradesRounded();
  }

  /** A list of two items is the list of its first and its second. */
  lemma PairOf<T>(s: seq<T>, x: T, y: T)
    requires |s| == 2 && s[0] == x && s[1] == y
    ensures s == [x, y]
  {
  }

  /** Fractions summing to 0.9 are refused by the sum check, which reports the sum. */
  lemma NinetyPercentRefused()
    ensures NewPortfolio(TwoStocks(), [("AAA", 0.5), ("BBB", 0.4)]) == Err(AllocationSumError(0.9))
  {
    assert SumFractions([("AAA", 0.5), ("BBB", 0.4)]) == 0.9;
  }

  /** The sum check wins over a ticker mismatch. */
  lemma SumCheckRunsFirst()
    ensures NewPortfolio(TwoStocks(), [("CCC", 0.5)]).Err?
    ensures NewPortfolio(TwoStocks(), [("CCC", 0.5)]).error.AllocationSumError?
  {
    assert SumFractions([("CCC", 0.5)]) == 0.5;
  }

  /** Both stocks missing from a one-entry allocation are reported, in stock order. */
  lemma MissingReportedInStockOrder()
    ensures NewPortfolio(TwoStocks(), [("CCC", 1.0)]) == Err(MissingAllocationError(["AAA", "BBB"]))
  {
    assert SumFractions([("CCC", 1.0)]) == 1.0;
    assert Names(TwoStocks()) == ["AAA", "BBB"];
    assert Keys([("CCC", 1.0)]) == ["CCC"];
    assert Difference(["BBB"], ["CCC"]) == ["BBB"];
  }

  /** One position in A at 100, listed twice. */
  function DoubledStock(): seq<Stock>
  {
    [Stock("A", 100.0, 1.0), Stock("A", 100.0, 1.0)]
  }

  function SingleA(): Allocation
  {
    [("A", 1.0)]
  }

  /**
   * As written, validation compares ticker sets only, so it accepts a list
   * naming ticker A twice against {A: 1.0}. Both lines then aim at the whole
   * 200: each gap is 100, and they add up to 200 instead of about 0.
   */
  lemma DuplicateTickersUnfunded()
    ensures NewPortfolio(DoubledStock(), SingleA()) == Ok(Portfolio(DoubledStock(), SingleA()))
    ensures Sum(DiffValues(DoubledStock(), SingleA(), TotalValue(DoubledStock()))) == 200.0
  {
    DoubledStockAccepted();
    assert TotalValue(DoubledStock()) == 200.0;
    assert TargetOf(Stock("A", 100.0, 1.0), SingleA()) == 1.0;
    assert DiffValue(Stock("A", 100.0, 1.0), 1.0, 200.0) == 100.0;
    var diffs := DiffValues(DoubledStock(), SingleA(), 200.0);
    assert diffs == [100.0, 100.0];
    assert diffs[1..] == [100.0] && diffs[1..][1..] == [];
  }

  /** The doubled list passes the sum check and both ticker comparisons. */
  lemma DoubledStockAccepted()
    ensures NewPortfolio(DoubledStock(), SingleA()) == Ok(Portfolio(DoubledStock(), SingleA()))
  {
    assert SumFractions(SingleA()) == 1.0;
    assert Names(DoubledStock()) == ["A", "A"];
    assert Keys(SingleA()) == ["A"];
  }

  /** The plan for the doubled list buys 100 of A twice, with nothing sold to pay for it. */
  lemma DuplicateTickersBuyTwice()
    ensures RebalancePlan(Portfolio(DoubledStock(), SingleA()), DefaultTolerance)
            == [PlanEntry("A", Buy, Some(1.0), 100.0), PlanEntry("A", Buy, Some(1.0), 100.0)]
  {
    var plan := RebalancePlan(Portfolio(DoubledStock(), SingleA()), DefaultTolerance);
    assert |plan| == 2 && plan[0] == plan[1] == PlanEntry("A", Buy, Some(1.0), 100.0) by {
      assert TotalValue(DoubledStock()) == 200.0;
      assert TargetOf(Stock("A", 100.0, 1.0), SingleA()) == 1.0;
      assert plan[0] == EntryFor(Stock("A", 100.0, 1.0), 1.0, 200.0, DefaultTolerance);
      assert plan[1] == EntryFor(Stock("A", 100.0, 1.0), 1.0, 200.0, DefaultTolerance);
      DoubledLineBuys();
    }
    PairOf(plan, PlanEntry("A", Buy, Some(1.0), 100.0), PlanEntry("A", Buy, Some(1.0), 100.0));
  }

  /** Each line of the doubled list aims at 200 from 100: buy 100, one share. */
  lemma DoubledLineBuys()
    ensures EntryFor(Stock("A", 100.0, 1.0), 1.0, 200.0, DefaultTolerance) == PlanEntry("A", Buy, Some(1.0), 100.0)
  {
    assert DiffValue(Stock("A", 100.0, 1.0), 1.0, 200.0) == 100.0;
    assert !(Abs(100.0) < DefaultTolerance);
    assert EntryFor(Stock("A", 100.0, 1.0), 1.0, 200.0, DefaultTolerance)
        == PlanEntry("A", Buy, TradeQuantity(100.0, 100.0), TradeValue(100.0));
    assert TradeQuantity(100.0, 100.0) == Some(RoundTo(1.0, QuantityDigits));
    assert TradeValue(100.0) == RoundTo(100.0, ValueDigits);
    TradesRounded();
  }

  /** The repetition in A, A is the second A. */
  lemma RepeatedTwice()
    ensures Repeated(["A", "A"]) == ["A"]
  {
    assert ["A", "A"][..1] == ["A"];
    assert ["A"][..0] == [];
    assert Repeated(["A"]) == [];
  }

  /** The corrected constructor refuses the doubled list and names the repeated ticker. */
  lemma DuplicateTickersRefused()
    ensures NewPortfolioChecked(DoubledStock(), SingleA()) == Err(DuplicateTickerError(["A"]))
  {
    DoubledStockAccepted();
    RepeatedTwice();
    assert Names(DoubledStock()) == ["A", "A"];
    DuplicatesReported(DoubledStock(), SingleA());
  }
}
