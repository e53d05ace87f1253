/**
 * The portfolio: a list of stock positions plus a target allocation, and the
 * validation that decides at construction whether the two are consistent.
 */
module Portfolios {
  import opened Results
  import opened Reals
  import opened Holdings
  import opened Allocations

  /** How far the target fractions may sum away from 1 (that is, from 100%). */
  const SumTolerance: real := 0.0001

  datatype Portfolio = Portfolio(stocks: seq<Stock>, allocation: Allocation)

  /** Why construction was refused; each case carries what the error message reports. */
  datatype ValidationError =
    | AllocationSumError(sum: real)
    | MissingAllocationError(tickers: seq<string>)
    | OrphanAllocationError(tickers: seq<string>)
      /** Raised only by the corrected constructor `NewPortfolioChecked`. */
    | DuplicateTickerError(tickers: seq<string>)

  /** The target fractions add up to 100% within the tolerance. */
  predicate SumWithinTolerance(a: Allocation)
  {
    Abs(SumFractions(a) - 1.0) < SumTolerance
  }

  /** Every stock's ticker has a target fraction. */
  predicate Covered(stocks: seq<Stock>, a: Allocation)
  {
    forall i :: 0 <= i < |stocks| ==> stocks[i].name in Keys(a)
  }

  /** Dropping the first stock keeps the rest covered. */
  lemma CoveredTail(stocks: seq<Stock>, a: Allocation)
    requires Covered(stocks, a)
    requires |stocks| > 0
    ensures Covered(stocks[1..], a)
  {
    forall i | 0 <= i < |stocks| - 1
      ensures stocks[1..][i].name in Keys(a)
    {
      assert stocks[1..][i] == stocks[i + 1];
    }
  }

  /** The stocks' tickers and the allocation's keys are the same set. */
  predicate SameTickers(stocks: seq<Stock>, a: Allocation)
  {
    && Covered(stocks, a)
    && forall k :: k in Keys(a) ==> k in Names(stocks)
  }

  /** What a successfully constructed portfolio satisfies. */
  predicate Valid(p: Portfolio)
  {
    && DistinctKeys(p.allocation)
    && SumWithinTolerance(p.allocation)
    && SameTickers(p.stocks, p.allocation)
  }

  /**
   * Construction with its three ordered, fail-fast checks: the fractions must
   * sum to 1, then every stock must have a target (missing ones reported in
   * stock order), then every target must name a stock (orphans reported in
   * allocation order).
   */
  function NewPortfolio(stocks: seq<Stock>, allocation: Allocation): (r: Result<Portfolio, ValidationError>)
    requires DistinctKeys(allocation)
    ensures r.Ok? <==> SumWithinTolerance(allocation) && SameTickers(stocks, allocation)
    ensures r.Ok? ==> r.value == Portfolio(stocks, allocation) && Valid(r.value)
    ensures r.Ok? ==> forall i :: 0 <= i < |stocks| ==> Find(allocation, stocks[i].name).Some?
    ensures r.Err? && r.error.AllocationSumError? <==> !SumWithinTolerance(allocation)
    ensures r.Err? && r.error.AllocationSumError? ==> r.error.sum == SumFractions(allocation)
    ensures r.Err? && r.error.MissingAllocationError? <==>
              SumWithinTolerance(allocation) && !Covered(stocks, allocation)
    ensures r.Err? && r.error.MissingAllocationError? ==>
              r.error.tickers == Difference(Names(stocks), Keys(allocation))
    ensures r.Err? && r.error.OrphanAllocationError? <==>
              SumWithinTolerance(allocation) && Covered(stocks, allocation) && !SameTickers(stocks, allocation)
    ensures r.Err? && r.error.OrphanAllocationError? ==>
              r.error.tickers == Difference(Keys(allocation), Names(stocks))
    ensures !(r.Err? && r.error.DuplicateTickerError?)
  {
    var total := SumFractions(allocation);
    if !(Abs(total - 1.0) < SumTolerance) then
      Err(AllocationSumError(total))
    else
      var names := Names(stocks);
      var keys := Keys(allocation);
      var missing := Difference(names, keys);
      if |missing| > 0 then
        CoveredIffNothingMissing(stocks, allocation);
        Err(MissingAllocationError(missing))
      else
        var extra := Difference(keys, names);
        CoveredIffNothingMissing(stocks, allocation);
        NamedIffNoOrphans(stocks, allocation);
        if |extra| > 0 then
          Err(OrphanAllocationError(extra))
        else
          Ok(Portfolio(stocks, allocation))
  }

  /** Every stock has a target exactly when `stock_names - allocation_names` is empty. */
  lemma CoveredIffNothingMissing(stocks: seq<Stock>, a: Allocation)
    ensures Covered(stocks, a) <==> Difference(Names(stocks), Keys(a)) == []
  {
    var missing := Difference(Names(stocks), Keys(a));
    DifferenceMembers(Names(stocks), Keys(a));
    if !Covered(stocks, a) {
      var i :| 0 <= i < |stocks| && stocks[i].name !in Keys(a);
      assert Names(stocks)[i] in Names(stocks);
      assert stocks[i].name in missing;
    }
    if missing != [] {
      assert missing[0] in missing;
      var i :| 0 <= i < |stocks| && Names(stocks)[i] == missing[0];
    }
  }

  /** Every target names a stock exactly when `allocation_names - stock_names` is empty. */
  lemma NamedIffNoOrphans(stocks: seq<Stock>, a: Allocation)
    ensures (forall k :: k in Keys(a) ==> k in Names(stocks)) <==> Difference(Keys(a), Names(stocks)) == []
  {
    var extra := Difference(Keys(a), Names(stocks));
    DifferenceMembers(Keys(a), Names(stocks));
    if extra != [] {
      assert extra[0] in extra;
    }
  }

  /** A reported missing or orphaned list is never empty: each error names at least one ticker. */
  lemma ErrorsNameTickers(stocks: seq<Stock>, allocation: Allocation)
    requires DistinctKeys(allocation)
    ensures var r := NewPortfolio(stocks, allocation);
            r.Err? && (r.error.MissingAllocationError? || r.error.OrphanAllocationError?) ==>
              |r.error.tickers| > 0
  {
    var r := NewPortfolio(stocks, allocation);
    DifferenceMembers(Names(stocks), Keys(allocation));
    DifferenceMembers(Keys(allocation), Names(stocks));
    if r.Err? && r.error.MissingAllocationError? {
      var n :| n in Names(stocks) && n !in Keys(allocation);
      assert n in r.error.tickers;
    }
    if r.Err? && r.error.OrphanAllocationError? {
      var n :| n in Keys(allocation) && n !in Names(stocks);
      assert n in r.error.tickers;
    }
  }

  /**
   * No holdings and no targets is not a valid portfolio: the empty sum of
   * fractions is 0, so the sum check refuses it.
   */
  lemma EmptyPortfolioRejected()
    ensures NewPortfolio([], []) == Err(AllocationSumError(0.0))
  {
  }

  /**
   * The corrected construction: the same three checks, then a fourth that
   * refuses a stock list naming one ticker twice.
   */
  function NewPortfolioChecked(stocks: seq<Stock>, allocation: Allocation): (r: Result<Portfolio, ValidationError>)
    requires DistinctKeys(allocation)
    ensures r.Ok? <==> NewPortfolio(stocks, allocation).Ok? && Distinct(Names(stocks))
    ensures r.Ok? ==> Valid(r.value) && Distinct(Names(r.value.stocks))
    ensures NewPortfolio(stocks, allocation).Err? ==> r == NewPortfolio(stocks, allocation)
    ensures NewPortfolio(stocks, allocation).Ok? && !Distinct(Names(stocks)) ==>
              r.Err? && r.error.DuplicateTickerError?
    ensures r.Err? && r.error.DuplicateTickerError? ==>
              |r.error.tickers| > 0 && forall t :: t in r.error.tickers ==> t in Names(stocks)
  {
    match NewPortfolio(stocks, allocation)
    case Err(e) => Err(e)
    case Ok(p) =>
      var repeated := Repeated(Names(stocks));
      if |repeated| > 0 then Err(DuplicateTickerError(repeated)) else Ok(p)
  }

  /**
   * The corrected constructor refuses with a duplicate-ticker error exactly
   * when the three checks pass and some ticker repeats; the error lists a
   * ticker that occurs n > 0 times in the stock list n - 1 times.
   */
  lemma DuplicatesReported(stocks: seq<Stock>, allocation: Allocation)
    requires DistinctKeys(allocation)
    ensures var r := NewPortfolioChecked(stocks, allocation);
            r.Err? && r.error.DuplicateTickerError? <==> NewPortfolio(stocks, allocation).Ok? && !Distinct(Names(stocks))
    ensures var r := NewPortfolioChecked(stocks, allocation);
            r.Err? && r.error.DuplicateTickerError? ==>
              forall t :: multiset(r.error.tickers)[t] ==
                if multiset(Names(stocks))[t] == 0 then 0 else multiset(Names(stocks))[t] - 1
  {
  }
}
