/**
 * The rebalance plan: for each stock, the value gap to its target and the
 * hold / buy / sell decision that closes it.
 */
module Rebalancing {
  import opened Results
  import opened Reals
  import opened Holdings
  import opened Allocations
  import opened Portfolios

  /** The value gap below which a stock is left alone, unless the caller supplies another. */
  const DefaultTolerance: real := 0.0001

  /** Decimal places kept in a traded quantity. */
  const QuantityDigits: nat := 6

  /** Decimal places kept in a traded value. */
  const ValueDigits: nat := 2

  /** The largest rounding error of a traded value: half a cent. */
  const ValueError: real := 0.005

  datatype Action = Hold | Buy | Sell

  /**
   * One plan line. `quantity` is `None` where the price is zero: there the
   * division yields no finite number of shares.
   */
  datatype PlanEntry = PlanEntry(ticker: string, action: Action, quantity: Option<real>, value: real)

  /**
   * The value gap of a stock: total × target − value, the value to add
   * (positive) or remove (negative) so that it reaches its target share.
   */
  function DiffValue(s: Stock, target: real, total: real): real
  {
    Times(total, target) - Value(s)
  }

  /** Shares to trade, before rounding; `None` when the price is zero. */
  function QuantityDiff(diff: real, price: real): Option<real>
  {
    if price == 0.0 then None else Some(diff / price)
  }

  /**
   * The share count undoes the division: times the price it gives back the
   * gap. A zero price has no share count.
   */
  lemma QuantityDiffInverts(diff: real, price: real)
    ensures price != 0.0 ==> QuantityDiff(diff, price).Some? && QuantityDiff(diff, price).value * price == diff
    ensures price == 0.0 ==> QuantityDiff(diff, price) == None
  {
  }

  lemma ValueErrorIsHalfUlp()
    ensures HalfUlp(ValueDigits) == ValueError
  {
    assert Pow10(ValueDigits) == 100.0;
  }

  /**
   * The plan line of one stock. A gap smaller than the tolerance is a hold
   * of nothing; otherwise a positive gap is a buy and any other a sell, and
   * the line carries the signed gap and the signed number of shares, each
   * rounded (to cents and to six decimals respectively).
   */
  function EntryFor(s: Stock, target: real, total: real, tolerance: real): (e: PlanEntry)
    ensures e.ticker == s.name
    ensures e.action == Hold <==> Abs(DiffValue(s, target, total)) < tolerance
    ensures e.action == Buy <==> !(Abs(DiffValue(s, target, total)) < tolerance) && DiffValue(s, target, total) > 0.0
    ensures e.action == Hold ==> e.quantity == Some(0.0) && e.value == 0.0
    ensures e.action != Hold ==> Abs(e.value - DiffValue(s, target, total)) <= ValueError
    ensures e.action != Hold ==> (e.quantity.Some? <==> s.price != 0.0)
    ensures e.action != Hold && s.price != 0.0 ==>
              Abs(e.quantity.value - DiffValue(s, target, total) / s.price) <= HalfUlp(QuantityDigits)
    ensures e.action == Buy ==> e.value >= 0.0 && (s.price > 0.0 ==> e.quantity.value >= 0.0)
    ensures e.action == Sell ==> e.value <= 0.0 && (s.price > 0.0 ==> e.quantity.value <= 0.0)
  {
    var diff := DiffValue(s, target, total);
    if Abs(diff) < tolerance then
      PlanEntry(s.name, Hold, Some(0.0), 0.0)
    else
      DivideSign(diff, s.price);
      PlanEntry(s.name, if diff > 0.0 then Buy else Sell, TradeQuantity(diff, s.price), TradeValue(diff))
  }

  /**
   * The number of shares a trade of value `diff` moves, rounded to six
   * decimals without changing sign; `None` when the price is zero.
   */
  function TradeQuantity(diff: real, price: real): (q: Option<real>)
    ensures q.Some? <==> price != 0.0
    ensures price != 0.0 ==> Abs(q.value - diff / price) <= HalfUlp(QuantityDigits)
    ensures price != 0.0 && diff / price >= 0.0 ==> q.value >= 0.0
    ensures price != 0.0 && diff / price <= 0.0 ==> q.value <= 0.0
  {
    if price == 0.0 then None else Some(RoundTo(QuantityDiff(diff, price).value, QuantityDigits))
  }

  /** The value of a trade, rounded to cents: within half a cent of `diff`, and of the same sign. */
  function TradeValue(diff: real): (v: real)
    ensures Abs(v - diff) <= ValueError
    ensures diff >= 0.0 ==> v >= 0.0
    ensures diff <= 0.0 ==> v <= 0.0
  {
    ValueErrorIsHalfUlp();
    RoundTo(diff, ValueDigits)
  }

  /**
   * The share count is Ruby's `round(6)` of gap / price: scaled by 10^6,
   * taken to the nearest whole number (a tie away from zero), scaled back.
   */
  lemma TradeQuantityRounds(diff: real, price: real)
    ensures price != 0.0 ==>
              TradeQuantity(diff, price) == Some(RoundWhole(Times(diff / price, 1000000.0)) / 1000000.0)
  {
    if price != 0.0 {
      QuantityRounding(QuantityDiff(diff, price).value);
    }
  }

  /** Rounding to six decimals is scaling by 10^6, rounding to a whole number and scaling back. */
  lemma QuantityRounding(x: real)
    ensures RoundTo(x, QuantityDigits) == RoundWhole(Times(x, 1000000.0)) / 1000000.0
  {
    assert Pow10(QuantityDigits) == 1000000.0;
    RoundToScaled(x, QuantityDigits);
  }

  /** The traded value is Ruby's `round(2)` of the gap: to the nearest cent, a tie away from zero. */
  lemma TradeValueRounds(diff: real)
    ensures TradeValue(diff) == RoundWhole(Times(diff, 100.0)) / 100.0
  {
    assert Pow10(ValueDigits) == 100.0;
    RoundToScaled(diff, ValueDigits);
  }

  /** A line's value misses its gap by at most the tolerance (a hold) or half a cent (a trade). */
  lemma EntryValueNearDiff(s: Stock, target: real, total: real, tolerance: real)
    ensures Abs(EntryFor(s, target, total, tolerance).value - DiffValue(s, target, total)) <= Max(tolerance, ValueError)
  {
  }

  /** The target fraction of a stock whose ticker the allocation holds, as `Hash#[]` returns it. */
  function TargetOf(s: Stock, a: Allocation): (target: real)
    requires s.name in Keys(a)
    ensures Find(a, s.name) == Some(target)
  {
    Find(a, s.name).value
  }

  /**
   * A stock's target is the fraction of an entry under its ticker, and of
   * the only one, a Hash's keys being distinct.
   */
  lemma TargetIsEntry(s: Stock, a: Allocation)
    requires s.name in Keys(a)
    ensures exists i :: 0 <= i < |a| && a[i] == (s.name, TargetOf(s, a))
    ensures DistinctKeys(a) ==> forall i :: 0 <= i < |a| && a[i].0 == s.name ==> TargetOf(s, a) == a[i].1
  {
    FindEntry(a, s.name);
  }

  /** One plan line per stock, in stock order. */
  function PlanOf(stocks: seq<Stock>, a: Allocation, total: real, tolerance: real): (r: seq<PlanEntry>)
    requires Covered(stocks, a)
    ensures |r| == |stocks|
  {
    if |stocks| == 0 then []
    else [EntryFor(stocks[0], TargetOf(stocks[0], a), total, tolerance)] + PlanOf(stocks[1..], a, total, tolerance)
  }

  /** Line i of the plan is the line of stock i against its target. */
  lemma {:induction false} PlanOfLines(stocks: seq<Stock>, a: Allocation, total: real, tolerance: real)
    requires Covered(stocks, a)
    ensures forall i :: 0 <= i < |stocks| ==>
              PlanOf(stocks, a, total, tolerance)[i] == EntryFor(stocks[i], TargetOf(stocks[i], a), total, tolerance)
    decreases |stocks|
  {
    if |stocks| > 0 {
      PlanOfLines(stocks[1..], a, total, tolerance);
      var plan := PlanOf(stocks, a, total, tolerance);
      forall i | 0 <= i < |stocks|
        ensures plan[i] == EntryFor(stocks[i], TargetOf(stocks[i], a), total, tolerance)
      {
        if i > 0 {
          assert plan[i] == PlanOf(stocks[1..], a, total, tolerance)[i - 1];
          assert stocks[1..][i - 1] == stocks[i];
        }
      }
    }
  }

  /**
   * The plan: empty when the portfolio is worth nothing; otherwise one line
   * per stock, in stock order, measured against the stock's target share of
   * the total.
   */
  function RebalancePlan(p: Portfolio, tolerance: real): (r: seq<PlanEntry>)
    requires Covered(p.stocks, p.allocation)
    ensures TotalValue(p.stocks) == 0.0 ==> r == []
    ensures TotalValue(p.stocks) != 0.0 ==> |r| == |p.stocks|
    ensures TotalValue(p.stocks) != 0.0 ==>
              forall i :: 0 <= i < |r| ==>
                r[i] == EntryFor(p.stocks[i], TargetOf(p.stocks[i], p.allocation), TotalValue(p.stocks), tolerance)
  {
    var total := TotalValue(p.stocks);
    if total == 0.0 then []
    else
      PlanOfLines(p.stocks, p.allocation, total, tolerance);
      PlanOf(p.stocks, p.allocation, total, tolerance)
  }

  /** A stock worth exactly its target share has no gap, so its line is a hold of nothing. */
  lemma EntryOnTargetIsHold(s: Stock, target: real, total: real, tolerance: real)
    requires tolerance > 0.0
    requires Value(s) == Times(total, target)
    ensures EntryFor(s, target, total, tolerance) == PlanEntry(s.name, Hold, Some(0.0), 0.0)
  {
    assert DiffValue(s, target, total) == 0.0;
  }

  /**
   * A stock already worth exactly its target share is held, whatever the
   * (positive) tolerance.
   */
  lemma OnTargetIsHeld(p: Portfolio, tolerance: real, i: int)
    requires Covered(p.stocks, p.allocation)
    requires TotalValue(p.stocks) != 0.0
    requires tolerance > 0.0
    requires 0 <= i < |p.stocks|
    requires Value(p.stocks[i]) == Times(TotalValue(p.stocks), TargetOf(p.stocks[i], p.allocation))
    ensures RebalancePlan(p, tolerance)[i] == PlanEntry(p.stocks[i].name, Hold, Some(0.0), 0.0)
  {
    EntryOnTargetIsHold(p.stocks[i], TargetOf(p.stocks[i], p.allocation), TotalValue(p.stocks), tolerance);
  }

  /** The unrounded value gap of each stock, in stock order. */
  function DiffValues(stocks: seq<Stock>, a: Allocation, total: real): (r: seq<real>)
    requires Covered(stocks, a)
    ensures |r| == |stocks|
  {
    if |stocks| == 0 then [] else [DiffValue(stocks[0], TargetOf(stocks[0], a), total)] + DiffValues(stocks[1..], a, total)
  }

  /** The value column of a plan. */
  function PlanValues(plan: seq<PlanEntry>): (r: seq<real>)
    ensures |r| == |plan|
    ensures forall i :: 0 <= i < |plan| ==> r[i] == plan[i].value
  {
    if |plan| == 0 then [] else [plan[0].value] + PlanValues(plan[1..])
  }

  /** Sum of the stocks' target values, total × target fraction. */
  function SumTargetValues(stocks: seq<Stock>, a: Allocation, total: real): real
    requires Covered(stocks, a)
  {
    if |stocks| == 0 then 0.0
    else Times(total, TargetOf(stocks[0], a)) + SumTargetValues(stocks[1..], a, total)
  }

  /** Sum of the stocks' target fractions. */
  function SumStockTargets(stocks: seq<Stock>, a: Allocation): real
    requires Covered(stocks, a)
  {
    if |stocks| == 0 then 0.0 else TargetOf(stocks[0], a) + SumStockTargets(stocks[1..], a)
  }

  /** The gaps add up to the sum of the target values less what the stocks are worth. */
  lemma {:induction false} SumDiffsIsShortfall(stocks: seq<Stock>, a: Allocation, total: real)
    requires Covered(stocks, a)
    ensures Sum(DiffValues(stocks, a, total)) == SumTargetValues(stocks, a, total) - TotalValue(stocks)
  {
    if |stocks| > 0 {
      SumDiffsIsShortfall(stocks[1..], a, total);
      assert DiffValues(stocks, a, total)[1..] == DiffValues(stocks[1..], a, total);
    }
  }

  /** The target values add up to the total times the sum of the target fractions. */
  lemma {:induction false} SumTargetValuesScale(stocks: seq<Stock>, a: Allocation, total: real)
    requires Covered(stocks, a)
    ensures SumTargetValues(stocks, a, total) == Times(total, SumStockTargets(stocks, a))
  {
    if |stocks| > 0 {
      SumTargetValuesScale(stocks[1..], a, total);
      TimesDistributes(total, SumStockTargets(stocks, a), TargetOf(stocks[0], a), SumStockTargets(stocks[1..], a));
    }
  }

  /** Summing the stocks' targets is summing the lookups of their tickers. */
  lemma {:induction false} SumStockTargetsIsLookup(stocks: seq<Stock>, a: Allocation)
    requires Covered(stocks, a)
    ensures SumStockTargets(stocks, a) == SumTargets(Names(stocks), a)
  {
    if |stocks| > 0 {
      SumStockTargetsIsLookup(stocks[1..], a);
      assert Names(stocks) == [stocks[0].name] + Names(stocks[1..]);
    }
  }

  /** What the value gaps add up to: the total times the excess of the fractions' sum over 1. */
  function Shortfall(total: real, sum: real): real
  {
    total * (sum - 1.0)
  }

  /** The tolerance bound on a fractions' sum carries over, scaled by |total|, to the shortfall. */
  lemma ShortfallBound(total: real, sum: real, e: real)
    requires Abs(sum - 1.0) < e
    ensures Abs(Shortfall(total, sum)) <= Scaled(total, e)
    ensures total != 0.0 ==> Abs(Shortfall(total, sum)) < Scaled(total, e)
  {
    var d := sum - 1.0;
    assert Abs(total * d) == Abs(total) * Abs(d);
    if total != 0.0 {
      assert Abs(total) * (e - Abs(d)) > 0.0;
    }
  }

  /** A bound e on a fraction, read as a bound on a value: |total| × e. */
  function Scaled(total: real, e: real): real
  {
    Abs(total) * e
  }

  /**
   * When the stocks' tickers are the allocation's keys, each exactly once,
   * the stocks' targets add up to the allocation's sum of fractions.
   */
  lemma StockTargetsSumFractions(stocks: seq<Stock>, a: Allocation)
    requires DistinctKeys(a)
    requires Distinct(Names(stocks))
    requires SameTickers(stocks, a)
    ensures Covered(stocks, a)
    ensures SumStockTargets(stocks, a) == SumFractions(a)
  {
    SumStockTargetsIsLookup(stocks, a);
    SumTargetsIsSumFractions(Names(stocks), a);
  }

  /**
   * When the stocks' tickers are the allocation's keys, each exactly once,
   * the value gaps add up to total x (sum of fractions - 1).
   */
  lemma SumDiffsOverSameTickers(stocks: seq<Stock>, a: Allocation)
    requires DistinctKeys(a)
    requires Distinct(Names(stocks))
    requires SameTickers(stocks, a)
    ensures Covered(stocks, a)
    ensures Sum(DiffValues(stocks, a, TotalValue(stocks))) == Shortfall(TotalValue(stocks), SumFractions(a))
  {
    StockTargetsSumFractions(stocks, a);
    SumDiffsIsShortfall(stocks, a, TotalValue(stocks));
    SumTargetValuesScale(stocks, a, TotalValue(stocks));
    assert Times(TotalValue(stocks), SumFractions(a)) - TotalValue(stocks) == Shortfall(TotalValue(stocks), SumFractions(a));
  }

  /**
   * Buys are funded by sells: over a portfolio accepted by the corrected
   * constructor, the value gaps add up to total x (sum of fractions - 1),
   * which the sum check bounds by |total| x 0.0001.
   */
  lemma PlanDiffsConserved(stocks: seq<Stock>, allocation: Allocation)
    requires DistinctKeys(allocation)
    requires NewPortfolioChecked(stocks, allocation).Ok?
    ensures Covered(stocks, allocation)
    ensures Sum(DiffValues(stocks, allocation, TotalValue(stocks))) == Shortfall(TotalValue(stocks), SumFractions(allocation))
    ensures Abs(Sum(DiffValues(stocks, allocation, TotalValue(stocks)))) <= Scaled(TotalValue(stocks), SumTolerance)
    ensures TotalValue(stocks) != 0.0 ==>
              Abs(Sum(DiffValues(stocks, allocation, TotalValue(stocks)))) < Scaled(TotalValue(stocks), SumTolerance)
  {
    var p := NewPortfolioChecked(stocks, allocation).value;
    assert p == Portfolio(stocks, allocation);
    SumDiffsOverSameTickers(stocks, allocation);
    ShortfallBound(TotalValue(stocks), SumFractions(allocation), SumTolerance);
  }

  /**
   * The rounded value column differs from the unrounded gaps by at most
   * max(tolerance, half a cent) per stock: a held stock's gap is below the
   * tolerance and a traded one is rounded to the cent.
   */
  lemma {:induction false} PlanValuesNearDiffs(stocks: seq<Stock>, a: Allocation, total: real, tolerance: real)
    requires Covered(stocks, a)
    ensures Abs(Sum(PlanValues(PlanOf(stocks, a, total, tolerance))) - Sum(DiffValues(stocks, a, total)))
            <= Budget(|stocks|, Max(tolerance, ValueError))
    decreases |stocks|
  {
    if |stocks| > 0 {
      var rest := stocks[1..];
      var e := Max(tolerance, ValueError);
      var line := EntryFor(stocks[0], TargetOf(stocks[0], a), total, tolerance);
      var gap := DiffValue(stocks[0], TargetOf(stocks[0], a), total);
      CoveredTail(stocks, a);
      PlanValuesCons(stocks, a, total, tolerance);
      DiffValuesCons(stocks, a, total);
      assert Abs(line.value - gap) <= e by {
        EntryValueNearDiff(stocks[0], TargetOf(stocks[0], a), total, tolerance);
      }
      PlanValuesNearDiffs(rest, a, total, tolerance);
      AddBounds(line.value, gap, e,
                Sum(PlanValues(PlanOf(rest, a, total, tolerance))), Sum(DiffValues(rest, a, total)), Budget(|rest|, e));
    }
  }

  /** The value column of a plan is the first line's value followed by the rest's. */
  lemma PlanValuesCons(stocks: seq<Stock>, a: Allocation, total: real, tolerance: real)
    requires Covered(stocks, a)
    requires |stocks| > 0
    ensures Covered(stocks[1..], a)
    ensures Sum(PlanValues(PlanOf(stocks, a, total, tolerance)))
            == EntryFor(stocks[0], TargetOf(stocks[0], a), total, tolerance).value
               + Sum(PlanValues(PlanOf(stocks[1..], a, total, tolerance)))
  {
    CoveredTail(stocks, a);
    var line := EntryFor(stocks[0], TargetOf(stocks[0], a), total, tolerance);
    var plan := PlanOf(stocks, a, total, tolerance);
    assert plan[1..] == PlanOf(stocks[1..], a, total, tolerance);
    assert PlanValues(plan) == [line.value] + PlanValues(PlanOf(stocks[1..], a, total, tolerance));
    SumCons(line.value, PlanValues(PlanOf(stocks[1..], a, total, tolerance)));
  }

  /** The gaps are the first stock's gap followed by the rest's. */
  lemma DiffValuesCons(stocks: seq<Stock>, a: Allocation, total: real)
    requires Covered(stocks, a)
    requires |stocks| > 0
    ensures Covered(stocks[1..], a)
    ensures Sum(DiffValues(stocks, a, total))
            == DiffValue(stocks[0], TargetOf(stocks[0], a), total) + Sum(DiffValues(stocks[1..], a, total))
  {
    CoveredTail(stocks, a);
    SumCons(DiffValue(stocks[0], TargetOf(stocks[0], a), total), DiffValues(stocks[1..], a, total));
  }
}
