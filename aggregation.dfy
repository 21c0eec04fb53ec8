/**
 * The two aggregations the report code runs over a list of sales, written once for any
 * record type: the running `Decimal` total and the scan for the first sale with the largest
 * individual quantity.
 */
module Aggregation {
  import opened Decimals

  /** `Decimal("0.00")`, where every running total starts. */
  const Zero: Decimal := Decimal(0, 2)

  /** The running total `Zero + amount(sales[0]) + ... + amount(sales[n-1])`, added left to right. */
  function Total<S>(sales: seq<S>, amount: S -> Decimal): (r: Decimal)
    ensures r.places >= 2
  {
    if sales == [] then Zero
    else Add(Total(sales[..|sales| - 1], amount), amount(sales[|sales| - 1]))
  }

  /** The exact mathematical sum of the amounts: the reference the running total is checked against. */
  ghost function ExactSum<S>(sales: seq<S>, amount: S -> Decimal): real {
    if sales == [] then 0.0 else ExactSum(sales[1..], amount) + Value(amount(sales[0]))
  }

  lemma {:induction false} ExactSumAppend<S>(sales: seq<S>, x: S, amount: S -> Decimal)
    ensures ExactSum(sales + [x], amount) == ExactSum(sales, amount) + Value(amount(x))
  {
    if sales != [] {
      assert (sales + [x])[1..] == sales[1..] + [x];
      ExactSumAppend(sales[1..], x, amount);
    }
  }

  /** No digit is lost: the value of the running total is the exact sum of all amounts. */
  lemma {:induction false} TotalIsExact<S>(sales: seq<S>, amount: S -> Decimal)
    ensures Value(Total(sales, amount)) == ExactSum(sales, amount)
  {
    if sales != [] {
      var init := sales[..|sales| - 1];
      TotalIsExact(init, amount);
      assert init + [sales[|sales| - 1]] == sales;
      ExactSumAppend(init, sales[|sales| - 1], amount);
    }
  }

  /** Appending one sale adds exactly that sale's amount to the total. */
  lemma TotalAppend<S>(sales: seq<S>, x: S, amount: S -> Decimal)
    ensures Total(sales + [x], amount) == Add(Total(sales, amount), amount(x))
  {
    assert (sales + [x])[..|sales|] == sales;
  }

  /** Removing the sale at index `k` and adding it back last gives the same total. */
  lemma {:induction false} TotalRemove<S>(sales: seq<S>, k: nat, amount: S -> Decimal)
    requires k < |sales|
    ensures Total(sales, amount) == Add(Total(sales[..k] + sales[k + 1..], amount), amount(sales[k]))
  {
    var n := |sales|;
    var init := sales[..n - 1];
    if k == n - 1 {
      assert sales[..k] + sales[k + 1..] == init;
    } else {
      TotalRemove(init, k, amount);
      var rest := init[..k] + init[k + 1..];
      assert sales[..k] + sales[k + 1..] == rest + [sales[n - 1]];
      TotalAppend(rest, sales[n - 1], amount);
      AddSwap(Total(rest, amount), amount(sales[k]), amount(sales[n - 1]));
    }
  }

  /** With exact arithmetic the total does not depend on the order of the sales. */
  lemma {:induction false} TotalPermutation<S>(a: seq<S>, b: seq<S>, amount: S -> Decimal)
    requires multiset(a) == multiset(b)
    ensures Total(a, amount) == Total(b, amount)
    decreases |a|
  {
    if a == [] {
      assert |b| == |multiset(b)| == 0;
    } else {
      var n := |a|;
      var x := a[n - 1];
      assert x in multiset(b);
      var k :| 0 <= k < |b| && b[k] == x;
      var b' := b[..k] + b[k + 1..];
      assert b == b[..k] + [x] + b[k + 1..];
      assert a == a[..n - 1] + [x];
      calc {
        multiset(a[..n - 1]) + multiset{x};
        multiset(a);
        multiset(b);
        multiset(b[..k] + [x] + b[k + 1..]);
        multiset(b[..k]) + multiset{x} + multiset(b[k + 1..]);
        multiset(b') + multiset{x};
      }
      assert multiset(b') == multiset(b[..k]) + multiset(b[k + 1..]);
      var ma, mb := multiset(a[..n - 1]), multiset(b');
      assert ma + multiset{x} == mb + multiset{x};
      assert ma == (ma + multiset{x}) - multiset{x};
      assert mb == (mb + multiset{x}) - multiset{x};
      TotalPermutation(a[..n - 1], b', amount);
      TotalRemove(b, k, amount);
    }
  }

  /** The total written with two decimal places: the sum of the amounts in hundredths. */
  function CentsSum<S>(sales: seq<S>, amount: S -> Decimal): int
    requires forall i :: 0 <= i < |sales| ==> amount(sales[i]).places <= 2
  {
    if sales == [] then 0
    else CentsSum(sales[..|sales| - 1], amount) + Scaled(amount(sales[|sales| - 1]), 2)
  }

  /**
   * When no amount has more than two fractional digits the total keeps exponent -2 (so
   * `str(total)` shows exactly two places) and its coefficient counts hundredths.
   */
  lemma {:induction false} TotalInCents<S>(sales: seq<S>, amount: S -> Decimal)
    requires forall i :: 0 <= i < |sales| ==> amount(sales[i]).places <= 2
    ensures Total(sales, amount) == Decimal(CentsSum(sales, amount), 2)
  {
    if sales != [] {
      var init := sales[..|sales| - 1];
      assert forall i :: 0 <= i < |init| ==> amount(init[i]).places <= 2 by {
        forall i | 0 <= i < |init| ensures amount(init[i]).places <= 2 {
          assert init[i] == sales[i];
        }
      }
      TotalInCents(init, amount);
    }
  }

  /** `k` is the first index whose quantity is as large as every other quantity. */
  ghost predicate IsFirstMaximum<S>(sales: seq<S>, quantity: S -> int, k: int) {
    && 0 <= k < |sales|
    && (forall j :: 0 <= j < |sales| ==> quantity(sales[j]) <= quantity(sales[k]))
    && (forall j :: 0 <= j < k ==> quantity(sales[j]) < quantity(sales[k]))
  }

  /** The scan with a strict `>`: a later sale replaces the current one only when strictly larger. */
  function FirstMaxIndex<S>(sales: seq<S>, quantity: S -> int): (k: nat)
    requires |sales| > 0
    ensures IsFirstMaximum(sales, quantity, k)
  {
    var n := |sales|;
    if n == 1 then 0
    else
      var k := FirstMaxIndex(sales[..n - 1], quantity);
      assert forall j :: 0 <= j < n - 1 ==> sales[..n - 1][j] == sales[j];
      if quantity(sales[n - 1]) > quantity(sales[k]) then n - 1 else k
  }

  /** One step of the scan: the sale at `i` takes over exactly when it is strictly larger. */
  lemma FirstMaxIndexStep<S>(sales: seq<S>, quantity: S -> int, i: nat)
    requires 0 < i < |sales|
    ensures var k := FirstMaxIndex(sales[..i], quantity);
      FirstMaxIndex(sales[..i + 1], quantity)
        == if quantity(sales[i]) > quantity(sales[k]) then i else k
  {
    assert sales[..i + 1][..i] == sales[..i];
    assert sales[..i + 1][i] == sales[i];
  }

  /** The first maximum is unique, so the scan's answer is the only one the properties allow. */
  lemma FirstMaximumUnique<S>(sales: seq<S>, quantity: S -> int, k1: int, k2: int)
    requires IsFirstMaximum(sales, quantity, k1) && IsFirstMaximum(sales, quantity, k2)
    ensures k1 == k2
  {
    assert quantity(sales[k1]) == quantity(sales[k2]);
  }
}
