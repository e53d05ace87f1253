/**
 * The target allocation: a ticker-to-fraction Hash, kept as its entries in
 * insertion order, together with the list operations validation applies to it.
 */
module Allocations {
  import opened Results

  /** (ticker, target fraction) entries in the Hash's insertion order. */
  type Allocation = seq<(string, real)>

  /** No ticker occurs twice. */
  predicate Distinct(xs: seq<string>)
  {
    forall i, j :: 0 <= i < j < |xs| ==> xs[i] != xs[j]
  }

  /** The Hash's keys, in insertion order (Ruby's `Hash#keys`). */
  function Keys(a: Allocation): (keys: seq<string>)
    ensures |keys| == |a|
    ensures forall i :: 0 <= i < |a| ==> keys[i] == a[i].0
  {
    if |a| == 0 then [] else [a[0].0] + Keys(a[1..])
  }

  /** A Ruby Hash never holds the same key twice. */
  predicate DistinctKeys(a: Allocation)
  {
    Distinct(Keys(a))
  }

  /** Ruby's `Hash#[]`: the fraction stored under `key`, or `None` (Ruby's `nil`) when absent. */
  function Find(a: Allocation, key: string): (r: Option<real>)
    ensures r.Some? <==> key in Keys(a)
    ensures DistinctKeys(a) ==> forall i :: 0 <= i < |a| && a[i].0 == key ==> r == Some(a[i].1)
  {
    if |a| == 0 then None
    else if a[0].0 == key then Some(a[0].1)
    else Find(a[1..], key)
  }

  /** A value `Hash#[]` returns is stored in an entry under that key. */
  lemma {:induction false} FindEntry(a: Allocation, key: string)
    ensures Find(a, key).Some? ==> exists i :: 0 <= i < |a| && a[i] == (key, Find(a, key).value)
  {
    if |a| > 0 && a[0].0 != key {
      FindEntry(a[1..], key);
      if Find(a, key).Some? {
        var i :| 0 <= i < |a[1..]| && a[1..][i] == (key, Find(a, key).value);
        assert a[i + 1] == (key, Find(a, key).value);
      }
    }
  }

  /** Sum of the target fractions (Ruby's `Hash#values.sum`). */
  function SumFractions(a: Allocation): real
  {
    if |a| == 0 then 0.0 else a[0].1 + SumFractions(a[1..])
  }

  /**
   * Ruby's `Array#-`: the elements of `xs` that do not occur in `ys`, in the
   * order of `xs`, repetitions kept.
   */
  function Difference(xs: seq<string>, ys: seq<string>): seq<string>
  {
    if |xs| == 0 then []
    else (if xs[0] in ys then [] else [xs[0]]) + Difference(xs[1..], ys)
  }

  /**
   * What `Array#-` keeps: a ticker survives exactly when the right operand
   * lacks it, and then every occurrence of it survives.
   */
  lemma {:induction false} DifferenceMembers(xs: seq<string>, ys: seq<string>)
    ensures forall x :: x in Difference(xs, ys) <==> x in xs && x !in ys
    ensures forall x :: multiset(Difference(xs, ys))[x] == if x in ys then 0 else multiset(xs)[x]
  {
    if |xs| > 0 {
      DifferenceMembers(xs[1..], ys);
      assert xs == [xs[0]] + xs[1..];
    }
  }

  /** `Array#-` keeps the order of its left operand: it distributes over concatenation. */
  lemma {:induction false} DifferenceAppend(a: seq<string>, b: seq<string>, ys: seq<string>)
    ensures Difference(a + b, ys) == Difference(a, ys) + Difference(b, ys)
  {
    if |a| == 0 {
      assert a + b == b;
    } else {
      var head := if a[0] in ys then [] else [a[0]];
      calc {
        Difference(a + b, ys);
        == { assert (a + b)[0] == a[0] && (a + b)[1..] == a[1..] + b; }
        head + Difference(a[1..] + b, ys);
        == { DifferenceAppend(a[1..], b, ys); }
        head + (Difference(a[1..], ys) + Difference(b, ys));
        (head + Difference(a[1..], ys)) + Difference(b, ys);
      }
    }
  }

  /**
   * The tickers that repeat an earlier one, in list order: a ticker that
   * occurs n > 0 times is listed n - 1 times.
   */
  function Repeated(xs: seq<string>): (r: seq<string>)
    ensures r == [] <==> Distinct(xs)
    ensures forall x :: x in r ==> x in xs
    ensures forall x :: multiset(r)[x] == if multiset(xs)[x] == 0 then 0 else multiset(xs)[x] - 1
  {
    if |xs| == 0 then []
    else
      var init := xs[..|xs| - 1];
      var last := xs[|xs| - 1];
      assert forall x :: x in init ==> x in xs;
      DistinctSnoc(init, last);
      assert init + [last] == xs;
      var r := Repeated(init) + (if last in init then [last] else []);
      assert multiset(xs) == multiset(init) + multiset{last};
      assert multiset(r) == multiset(Repeated(init)) + multiset(if last in init then [last] else []);
      r
  }

  /** A list with one more ticker at the end is repetition-free iff the list is and the ticker is new. */
  lemma DistinctSnoc(xs: seq<string>, x: string)
    ensures Distinct(xs + [x]) <==> Distinct(xs) && x !in xs
  {
    var ys := xs + [x];
    if Distinct(ys) {
      forall i, j | 0 <= i < j < |xs|
        ensures xs[i] != xs[j]
      {
        assert xs[i] == ys[i] && xs[j] == ys[j];
      }
      forall i | 0 <= i < |xs|
        ensures xs[i] != x
      {
        assert xs[i] == ys[i] && x == ys[|xs|];
      }
    }
  }

  /** The fraction stored under `key`, read as 0 when there is none. */
  function FractionOr0(a: Allocation, key: string): (f: real)
    ensures key in Keys(a) ==> Find(a, key) == Some(f)
  {
    match Find(a, key)
    case Some(v) => v
    case None => 0.0
  }

  /** Sum of the target fractions of the given tickers, each looked up in the allocation. */
  function SumTargets(names: seq<string>, a: Allocation): real
  {
    if |names| == 0 then 0.0 else FractionOr0(a, names[0]) + SumTargets(names[1..], a)
  }

  lemma {:induction false} SumTargetsAppend(x: seq<string>, y: seq<string>, a: Allocation)
    ensures SumTargets(x + y, a) == SumTargets(x, a) + SumTargets(y, a)
  {
    if |x| == 0 {
      assert x + y == y;
    } else {
      assert (x + y)[0] == x[0];
      assert (x + y)[1..] == x[1..] + y;
      SumTargetsAppend(x[1..], y, a);
    }
  }

  /** Dropping the first entry changes no lookup of a ticker other than its key. */
  lemma {:induction false} SumTargetsDropHead(names: seq<string>, a: Allocation)
    requires |a| > 0
    requires a[0].0 !in names
    ensures SumTargets(names, a) == SumTargets(names, a[1..])
  {
    assert Keys(a) == [a[0].0] + Keys(a[1..]);
    if |names| > 0 {
      assert names[0] in names;
      SumTargetsDropHead(names[1..], a);
    }
  }

  /** The list without its element at position `j`. */
  function RemoveAt(xs: seq<string>, j: int): (r: seq<string>)
    requires 0 <= j < |xs|
    ensures |r| == |xs| - 1
  {
    xs[..j] + xs[j + 1..]
  }

  /** Removing one ticker from a repetition-free list removes exactly that ticker. */
  lemma RemoveAtDistinct(xs: seq<string>, j: int)
    requires 0 <= j < |xs|
    requires Distinct(xs)
    ensures Distinct(RemoveAt(xs, j))
    ensures forall n :: n in RemoveAt(xs, j) <==> n in xs && n != xs[j]
  {
    var rest := RemoveAt(xs, j);
    forall s, t | 0 <= s < t < |rest|
      ensures rest[s] != rest[t]
    {
      var s' := if s < j then s else s + 1;
      var t' := if t < j then t else t + 1;
      assert rest[s] == xs[s'] && rest[t] == xs[t'];
    }
    forall n
      ensures n in rest <==> n in xs && n != xs[j]
    {
      if n in rest {
        var t :| 0 <= t < |rest| && rest[t] == n;
        if t < j {
          assert n == xs[t];
        } else {
          assert n == xs[t + 1];
        }
      }
      if n in xs && n != xs[j] {
        var t :| 0 <= t < |xs| && xs[t] == n;
        if t < j {
          assert rest[t] == n;
        } else {
          assert rest[t - 1] == n;
        }
      }
    }
  }

  /** Looking the tickers up one by one is unaffected by taking one of them out first. */
  lemma SumTargetsRemoveAt(names: seq<string>, j: int, a: Allocation)
    requires 0 <= j < |names|
    ensures SumTargets(names, a) == SumTargets(RemoveAt(names, j), a) + FractionOr0(a, names[j])
  {
    assert names == names[..j] + [names[j]] + names[j + 1..];
    SumTargetsAppend(names[..j] + [names[j]], names[j + 1..], a);
    SumTargetsAppend(names[..j], [names[j]], a);
    SumTargetsAppend(names[..j], names[j + 1..], a);
  }

  /** The entries after the first of a Hash are a Hash without the first key. */
  lemma DistinctKeysTail(a: Allocation)
    requires |a| > 0
    requires DistinctKeys(a)
    ensures DistinctKeys(a[1..])
    ensures a[0].0 !in Keys(a[1..])
    ensures forall n :: n in Keys(a) <==> n == a[0].0 || n in Keys(a[1..])
  {
    var full := Keys(a);
    var ks := Keys(a[1..]);
    assert full == [a[0].0] + ks;
    forall i, j | 0 <= i < j < |ks|
      ensures ks[i] != ks[j]
    {
      assert ks[i] == full[i + 1] && ks[j] == full[j + 1];
    }
    forall i | 0 <= i < |ks|
      ensures ks[i] != a[0].0
    {
      assert ks[i] == full[i + 1] && a[0].0 == full[0];
    }
  }

  /**
   * When the tickers and the allocation's keys are the same set, each without
   * repetition, looking every ticker up and adding the results gives the sum
   * of all the fractions, whatever order the tickers come in.
   */
  lemma {:induction false} SumTargetsIsSumFractions(names: seq<string>, a: Allocation)
    requires Distinct(names)
    requires DistinctKeys(a)
    requires forall n :: n in names <==> n in Keys(a)
    ensures SumTargets(names, a) == SumFractions(a)
  {
    if |a| > 0 {
      var k := a[0].0;
      assert k in Keys(a);
      var j :| 0 <= j < |names| && names[j] == k;
      var rest := RemoveAt(names, j);
      SumTargetsRemoveAt(names, j, a);
      RemoveAtDistinct(names, j);
      DistinctKeysTail(a);
      SumTargetsDropHead(rest, a);
      SumTargetsIsSumFractions(rest, a[1..]);
    }
  }
}
