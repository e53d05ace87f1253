/** A single position held in the portfolio, and the market value of a list of positions. */
module Holdings {

  /** One stock position: ticker name, unit price and number of shares. */
  datatype Stock = Stock(name: string, price: real, quantity: real)

  /** Market value of a position. */
  function Value(s: Stock): real
  {
    s.price * s.quantity
  }

  /** Every position in the list has a non-negative market value. */
  predicate NonNegativeValues(stocks: seq<Stock>)
  {
    forall i :: 0 <= i < |stocks| ==> Value(stocks[i]) >= 0.0
  }

  /** Market value of the whole list: the sum of the positions' values. */
  function TotalValue(stocks: seq<Stock>): real
  {
    if |stocks| == 0 then 0.0 else Value(stocks[0]) + TotalValue(stocks[1..])
  }

  /** The ticker names of the positions, in list order. */
  function Names(stocks: seq<Stock>): (names: seq<string>)
    ensures |names| == |stocks|
    ensures forall i :: 0 <= i < |stocks| ==> names[i] == stocks[i].name
  {
    if |stocks| == 0 then [] else [stocks[0].name] + Names(stocks[1..])
  }

  /** The total of a concatenation is the sum of the totals of its parts. */
  lemma {:induction false} TotalValueAppend(a: seq<Stock>, b: seq<Stock>)
    ensures TotalValue(a + b) == TotalValue(a) + TotalValue(b)
  {
    if |a| == 0 {
      assert a + b == b;
    } else {
      assert (a + b)[1..] == a[1..] + b;
      TotalValueAppend(a[1..], b);
    }
  }

  /** A list of one position is worth that position's price × quantity. */
  lemma TotalValueSingle(s: Stock)
    ensures TotalValue([s]) == s.price * s.quantity
  {
    assert [s][1..] == [];
  }

  /** With no negative position the total is not negative either. */
  lemma {:induction false} TotalValueNonNegative(stocks: seq<Stock>)
    requires NonNegativeValues(stocks)
    ensures TotalValue(stocks) >= 0.0
  {
    if |stocks| > 0 {
      assert NonNegativeValues(stocks[1..]);
      TotalValueNonNegative(stocks[1..]);
    }
  }

  /** With no negative position, each position is worth at most the total. */
  lemma {:induction false} ValueAtMostTotal(stocks: seq<Stock>, i: int)
    requires NonNegativeValues(stocks)
    requires 0 <= i < |stocks|
    ensures 0.0 <= Value(stocks[i]) <= TotalValue(stocks)
  {
    assert NonNegativeValues(stocks[1..]);
    if i > 0 {
      ValueAtMostTotal(stocks[1..], i - 1);
    } else {
      TotalValueNonNegative(stocks[1..]);
    }
  }

  /**
   * With no negative position, the total is zero exactly when every
   * position is worth zero (in particular, when the list is empty).
   */
  lemma {:induction false} TotalZeroIff(stocks: seq<Stock>)
    requires NonNegativeValues(stocks)
    ensures TotalValue(stocks) == 0.0 <==> forall i :: 0 <= i < |stocks| ==> Value(stocks[i]) == 0.0
  {
    if TotalValue(stocks) == 0.0 {
      forall i | 0 <= i < |stocks|
        ensures Value(stocks[i]) == 0.0
      {
        ValueAtMostTotal(stocks, i);
      }
    }
    if forall i :: 0 <= i < |stocks| ==> Value(stocks[i]) == 0.0 {
      AllZeroTotal(stocks);
    }
  }

  lemma {:induction false} AllZeroTotal(stocks: seq<Stock>)
    requires forall i :: 0 <= i < |stocks| ==> Value(stocks[i]) == 0.0
    ensures TotalValue(stocks) == 0.0
  {
    if |stocks| > 0 {
      AllZeroTotal(stocks[1..]);
    }
  }
}
