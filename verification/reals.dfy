/** Exact real arithmetic standing in for Ruby's Float operations used by the portfolio. */
module Reals {

  function Abs(x: real): (r: real)
    ensures r >= 0.0
    ensures r == x || r == -x
  {
    if x < 0.0 then -x else x
  }

  function Max(x: real, y: real): (r: real)
    ensures r >= x && r >= y
    ensures r == x || r == y
  {
    if x < y then y else x
  }

  /** Ten to the power `digits`. */
  function Pow10(digits: nat): (r: real)
    ensures r >= 1.0
  {
    if digits == 0 then 1.0 else 10.0 * Pow10(digits - 1)
  }

  /** Half the weight of the last kept decimal place: the largest error `RoundTo` makes. */
  function HalfUlp(digits: nat): (r: real)
    ensures 0.0 < r <= 0.5
  {
    0.5 / Pow10(digits)
  }

  /** One more decimal place divides the largest error by ten. */
  lemma HalfUlpStep(digits: nat)
    requires digits > 0
    ensures HalfUlp(digits) == HalfUlp(digits - 1) / 10.0
  {
    assert Pow10(digits) == 10.0 * Pow10(digits - 1);
  }

  /** The nearest whole number, a tie rounding away from zero (Ruby's `Float#round` with no digits). */
  function RoundWhole(x: real): (r: real)
    ensures x >= 0.0 ==> r >= 0.0
    ensures x <= 0.0 ==> r <= 0.0
    ensures Abs(r - x) <= 0.5
    ensures r.Floor as real == r
  {
    var k := (Abs(x) + 0.5).Floor;
    assert (k as real).Floor == k && ((-k) as real).Floor == -k;
    if x >= 0.0 then k as real else (-k) as real
  }

  /**
   * The whole number `RoundWhole` picks: the k with x in [k - 1/2, k + 1/2)
   * for x at or above zero, and in (k - 1/2, k + 1/2] below it, so a tie
   * goes away from zero.
   */
  lemma RoundWholeNearest(x: real, k: int)
    ensures x >= 0.0 && k as real - 0.5 <= x < k as real + 0.5 ==> RoundWhole(x) == k as real
    ensures x <= 0.0 && k as real - 0.5 < x <= k as real + 0.5 ==> RoundWhole(x) == k as real
  {
    if x >= 0.0 && k as real - 0.5 <= x < k as real + 0.5 {
      assert (Abs(x) + 0.5).Floor == k;
    }
    if x <= 0.0 && k as real - 0.5 < x <= k as real + 0.5 {
      assert (Abs(x) + 0.5).Floor == -k;
    }
  }

  /** A whole number is its own nearest whole number. */
  lemma RoundWholeFixed(k: int)
    ensures RoundWhole(k as real) == k as real
  {
    var m := if k >= 0 then k else -k;
    assert Abs(k as real) == m as real;
    assert (m as real + 0.5).Floor == m;
  }

  /**
   * Ruby's `Float#round(digits)`: the nearest multiple of 10^-digits, a tie
   * rounding away from zero. Applied to the exact real value, one decimal
   * place at a time: rounding x to d places is rounding 10x to d - 1 places,
   * divided by ten.
   */
  function RoundTo(x: real, digits: nat): (r: real)
    ensures x >= 0.0 ==> r >= 0.0
    ensures x <= 0.0 ==> r <= 0.0
    ensures Abs(r - x) <= HalfUlp(digits)
    decreases digits
  {
    if digits == 0 then RoundWhole(x)
    else
      var shifted := RoundTo(10.0 * x, digits - 1);
      HalfUlpStep(digits);
      TenthWithin(shifted, x, HalfUlp(digits - 1));
      shifted / 10.0
  }

  /** A tenth of a number within e of 10x is within e / 10 of x, and keeps its sign. */
  lemma TenthWithin(a: real, x: real, e: real)
    requires Abs(a - 10.0 * x) <= e
    ensures Abs(a / 10.0 - x) <= e / 10.0
    ensures a >= 0.0 ==> a / 10.0 >= 0.0
    ensures a <= 0.0 ==> a / 10.0 <= 0.0
  {
  }

  /** The result of `RoundTo` has at most `digits` decimals: times 10^digits it is whole. */
  lemma {:induction false} RoundToOnGrid(x: real, digits: nat)
    ensures Times(RoundTo(x, digits), Pow10(digits)).Floor as real == Times(RoundTo(x, digits), Pow10(digits))
    decreases digits
  {
    if digits > 0 {
      RoundToOnGrid(10.0 * x, digits - 1);
      assert RoundTo(x, digits) == RoundTo(10.0 * x, digits - 1) / 10.0;
      assert Pow10(digits) == 10.0 * Pow10(digits - 1);
      TimesTenth(RoundTo(10.0 * x, digits - 1), Pow10(digits - 1));
    }
  }

  /** A tenth of a times ten times p is a times p. */
  lemma TimesTenth(a: real, p: real)
    ensures Times(a / 10.0, 10.0 * p) == Times(a, p)
  {
  }

  /** Rounding to d decimals in one step: scale by 10^d, round to whole, scale back. */
  lemma {:induction false} RoundToScaled(x: real, digits: nat)
    ensures RoundTo(x, digits) == RoundWhole(Times(x, Pow10(digits))) / Pow10(digits)
    decreases digits
  {
    if digits > 0 {
      var whole := RoundWhole(Times(10.0 * x, Pow10(digits - 1)));
      RoundToScaled(10.0 * x, digits - 1);
      assert RoundTo(x, digits) == RoundTo(10.0 * x, digits - 1) / 10.0;
      assert Pow10(digits) == 10.0 * Pow10(digits - 1);
      TimesShift(x, Pow10(digits - 1));
      DivideTenth(whole, Pow10(digits - 1));
    }
  }

  /** Ten x times p is x times ten p. */
  lemma TimesShift(x: real, p: real)
    ensures Times(10.0 * x, p) == Times(x, 10.0 * p)
  {
  }

  /** A tenth of a / p is a / (10p). */
  lemma DivideTenth(a: real, p: real)
    requires p != 0.0
    ensures (a / p) / 10.0 == a / (10.0 * p)
  {
  }

  /** A whole number is left alone by rounding to any number of decimals. */
  lemma {:induction false} RoundWholeNumber(k: int, digits: nat)
    ensures RoundTo(k as real, digits) == k as real
    decreases digits
  {
    if digits == 0 {
      RoundWholeFixed(k);
    } else {
      assert (10 * k) as real == 10.0 * (k as real);
      RoundWholeNumber(10 * k, digits - 1);
    }
  }

  /** A number that already has at most `digits` decimals is left alone by rounding. */
  lemma {:induction false} RoundOnGrid(x: real, k: int, digits: nat)
    requires Times(x, Pow10(digits)) == k as real
    ensures RoundTo(x, digits) == x
    decreases digits
  {
    if digits == 0 {
      assert x == k as real;
      RoundWholeFixed(k);
    } else {
      assert Pow10(digits) == 10.0 * Pow10(digits - 1);
      assert Times(10.0 * x, Pow10(digits - 1)) == Times(x, Pow10(digits));
      RoundOnGrid(10.0 * x, k, digits - 1);
    }
  }

  /** Division by a positive number preserves order. */
  lemma DivideLe(a: real, b: real, s: real)
    requires s > 0.0
    requires a <= b
    ensures a / s <= b / s
  {
    var qa := a / s;
    var qb := b / s;
    assert qa * s == a;
    assert qb * s == b;
    if qa > qb {
      assert (qa - qb) * s > 0.0;
    }
  }

  /** Dividing by a positive number keeps the sign. */
  lemma DivideSign(d: real, s: real)
    ensures s > 0.0 && d >= 0.0 ==> d / s >= 0.0
    ensures s > 0.0 && d <= 0.0 ==> d / s <= 0.0
  {
    if s > 0.0 {
      if d >= 0.0 {
        DivideLe(0.0, d, s);
      } else {
        DivideLe(d, 0.0, s);
      }
    }
  }

  /** Division by the same non-zero number distributes over a sum. */
  lemma DivideAdd(x: real, y: real, s: real)
    requires s != 0.0
    ensures x / s + y / s == (x + y) / s
  {
  }

  /** A non-zero number divided by itself is one. */
  lemma DivideSelf(x: real)
    requires x != 0.0
    ensures x / x == 1.0
  {
  }

  /** Errors add: if x1 is within e1 of y1 and x2 within e2 of y2, the sums are within e1 + e2. */
  lemma AddBounds(x1: real, y1: real, e1: real, x2: real, y2: real, e2: real)
    requires Abs(x1 - y1) <= e1
    requires Abs(x2 - y2) <= e2
    ensures -(e1 + e2) <= (x1 + x2) - (y1 + y2) <= e1 + e2
  {
  }

  /** The product x × y, as in a target value total × fraction. */
  function Times(x: real, y: real): real
  {
    x * y
  }

  /** Multiplication distributes over a sum `sum` of y and z. */
  lemma TimesDistributes(x: real, sum: real, y: real, z: real)
    requires sum == y + z
    ensures Times(x, sum) == Times(x, y) + Times(x, z)
  {
  }

  /** An error allowance of `each` for every one of `count` items, added up item by item. */
  function Budget(count: nat, each: real): real
  {
    if count == 0 then 0.0 else each + Budget(count - 1, each)
  }

  /** The added-up allowance is count x each. */
  lemma {:induction false} BudgetIsProduct(count: nat, each: real)
    ensures Budget(count, each) == count as real * each
  {
    if count > 0 {
      BudgetIsProduct(count - 1, each);
      assert count as real * each == each + (count - 1) as real * each;
    }
  }

  /** Sum of a list of numbers, first to last. */
  function Sum(xs: seq<real>): real
  {
    if |xs| == 0 then 0.0 else xs[0] + Sum(xs[1..])
  }

  /** The sum of a list with one more number in front. */
  lemma SumCons(x: real, ys: seq<real>)
    ensures Sum([x] + ys) == x + Sum(ys)
  {
    assert ([x] + ys)[1..] == ys;
  }

  /**
   * Two lists that agree entry by entry to within e have sums that agree to
   * within e per entry.
   */
  lemma {:induction false} SumsWithin(xs: seq<real>, ys: seq<real>, e: real)
    requires |xs| == |ys|
    requires forall i :: 0 <= i < |xs| ==> Abs(xs[i] - ys[i]) <= e
    ensures Abs(Sum(xs) - Sum(ys)) <= Budget(|xs|, e)
  {
    if |xs| > 0 {
      SumsWithin(xs[1..], ys[1..], e);
      AddBounds(xs[0], ys[0], e, Sum(xs[1..]), Sum(ys[1..]), Budget(|xs| - 1, e));
    }
  }

}
