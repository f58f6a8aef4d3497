/** Percent discount codes: validation, the discounted price in whole tomans, stacking, and the usage
    limit under concurrent applications.  Prices are in cents, percents in hundredths. */
module Discounts {
  import opened Schema
  import opened Text

  // ---------------------------------------------------------------- the price

  const TOMAN := 100        // cents
  const FULL := 10000       // one hundred percent, in hundredths

  /** quantize(Decimal("1")): to the nearest integer, ties to the even one. */
  function HalfEven(n: int, d: int): (q: int)
    requires d > 0
  {
    var down := n / d;
    var rest := n % d;
    if 2 * rest < d || (2 * rest == d && down % 2 == 0) then down else down + 1
  }

  /** Nearest: at most half a unit off, exact on multiples, and even when half a unit off. */
  lemma HalfEvenIsNearest(n: int, d: int)
    requires d > 0
    ensures -d <= 2 * (d * HalfEven(n, d) - n) <= d
    ensures n % d == 0 ==> d * HalfEven(n, d) == n
    ensures 2 * (n % d) == d ==> HalfEven(n, d) % 2 == 0
  {
    assert n == d * (n / d) + n % d;
    var q := HalfEven(n, d);
    if q == n / d {
      assert d * q - n == -(n % d);
    } else {
      assert d * q == d * (n / d) + d;
    }
  }

  lemma HalfEvenMonotone(n: int, m: int, d: int)
    requires d > 0 && n <= m
    ensures HalfEven(n, d) <= HalfEven(m, d)
  {
    assert n / d <= m / d by { Quotients(n, m, d); }
    if n / d == m / d {
      assert n == d * (n / d) + n % d && m == d * (m / d) + m % d;
    }
  }

  lemma Quotients(n: int, m: int, d: int)
    requires d > 0 && n <= m
    ensures n / d <= m / d
  {
    if n / d > m / d {
      assert n == d * (n / d) + n % d && m == d * (m / d) + m % d;
      assert d * (n / d) >= d * (m / d + 1) by { Scale(d, m / d + 1, n / d); }
      assert false;
    }
  }

  lemma Scale(d: int, a: int, b: int)
    requires d > 0 && a <= b
    ensures d * a <= d * b
  {
  }

  /** apply_discount: whole tomans. */
  function ApplyDiscount(price: int, percent: int): (tomans: int) {
    HalfEven(price * (FULL - percent), TOMAN * FULL)
  }

  lemma Shrinks(price: int, percent: int)
    requires price >= 0 && 0 <= percent <= FULL
    ensures 0 <= price * (FULL - percent) <= price * FULL
  {
    assert price * (FULL - percent) == price * FULL - price * percent;
    assert price * percent >= 0 && price * (FULL - percent) >= 0;
  }

  /** A percent of a whole-toman price keeps it between zero and itself. */
  lemma WholePriceIsNotRaised(tomans: int, percent: int)
    requires tomans >= 0 && 0 <= percent <= FULL
    ensures 0 <= ApplyDiscount(TOMAN * tomans, percent) <= tomans
  {
    var price := TOMAN * tomans;
    Shrinks(price, percent);
    HalfEvenMonotone(0, price * (FULL - percent), TOMAN * FULL);
    HalfEvenMonotone(price * (FULL - percent), price * FULL, TOMAN * FULL);
    assert price * FULL == (TOMAN * FULL) * tomans;
    Multiple(tomans, TOMAN * FULL);
    Multiple(0, TOMAN * FULL);
  }

  lemma Multiple(k: int, d: int)
    requires d > 0
    ensures HalfEven(d * k, d) == k
  {
    assert (d * k) % d == 0 && (d * k) / d == k by { Divides(k, d); }
  }

  lemma Divides(k: int, d: int)
    requires d > 0
    ensures (d * k) % d == 0 && (d * k) / d == k
  {
    var q, r := (d * k) / d, (d * k) % d;
    assert d * k == d * q + r;
    assert d * (k - q) == r;
    if k - q >= 1 {
      Scale(d, 1, k - q);
    } else if k - q <= -1 {
      Scale(d, k - q, -1);
    }
  }

  /** Exactly when no percent can raise a price: when it rounds down.  A price of 1.50 at 0 percent
      becomes 2. */
  lemma NeverRaisedExactlyWhen(price: int)
    requires price >= 0
    ensures (forall percent :: 0 <= percent <= FULL ==> TOMAN * ApplyDiscount(price, percent) <= price)
            <==> price % TOMAN < 50 || (price % TOMAN == 50 && price / TOMAN % 2 == 0)
    ensures TOMAN * ApplyDiscount(150, 0) > 150
  {
    var down := price % TOMAN < 50 || (price % TOMAN == 50 && price / TOMAN % 2 == 0);
    AtZeroPercent(price);
    if down {
      forall percent | 0 <= percent <= FULL
        ensures TOMAN * ApplyDiscount(price, percent) <= price
      {
        Shrinks(price, percent);
        HalfEvenMonotone(price * (FULL - percent), price * FULL, TOMAN * FULL);
      }
    } else {
      assert TOMAN * ApplyDiscount(price, 0) > price;
    }
  }

  lemma AtZeroPercent(price: int)
    ensures ApplyDiscount(price, 0) == HalfEven(price, TOMAN)
    ensures TOMAN * ApplyDiscount(price, 0) <= price <==>
              price % TOMAN < 50 || (price % TOMAN == 50 && price / TOMAN % 2 == 0)
  {
    var n := price * FULL;
    assert n / (TOMAN * FULL) == price / TOMAN && n % (TOMAN * FULL) == FULL * (price % TOMAN);
  }

  // ---------------------------------------------------------------- stacked discounts

  /** Applying one code after another to an unpaid order, each to the price the last one left. */
  function Stacked(tomans: int, percents: seq<int>): (left: int) {
    if percents == [] then tomans
    else ApplyDiscount(TOMAN * Stacked(tomans, percents[..|percents| - 1]), percents[|percents| - 1])
  }

  /** What a percent leaves of an amount, unrounded. */
  function Left(amount: real, percent: int): (left: real) {
    amount * Share(percent)
  }

  function Share(percent: int): (share: real) {
    (FULL - percent) as real / FULL as real
  }

  /** The price without any rounding. */
  function Exact(tomans: int, percents: seq<int>): (left: real) {
    if percents == [] then tomans as real
    else Left(Exact(tomans, percents[..|percents| - 1]), percents[|percents| - 1])
  }

  predicate Percents(percents: seq<int>) {
    forall i :: 0 <= i < |percents| ==> 0 <= percents[i] <= FULL
  }

  function Distance(x: real, y: real): (d: real) {
    if x < y then y - x else x - y
  }

  /** One application is at most half a toman off. */
  lemma OneStep(tomans: int, percent: int)
    ensures Distance(ApplyDiscount(TOMAN * tomans, percent) as real, Left(tomans as real, percent)) <= 0.5
  {
    var n := TOMAN * tomans * (FULL - percent);
    var d := TOMAN * FULL;
    HalfEvenIsNearest(n, d);
    var q := ApplyDiscount(TOMAN * tomans, percent);
    assert n == TOMAN * (tomans * (FULL - percent));
    assert -FULL <= 2 * (FULL * q - tomans * (FULL - percent)) <= FULL;
    var exact := tomans * (FULL - percent);
    assert tomans as real * Share(percent) == exact as real / FULL as real;
    assert (FULL * q) as real == FULL as real * q as real;
    assert q as real - exact as real / FULL as real == (FULL * q - exact) as real / FULL as real;
  }

  /** The distance of two prices shrinks with them. */
  lemma SharesShrink(x: real, y: real, share: real)
    requires x >= y && 0.0 <= share <= 1.0
    ensures 0.0 <= x * share - y * share <= x - y
  {
    var d, kept := x - y, 1.0 - share;
    assert x * share - y * share == d * share;
    assert d - d * share == d * kept;
    assert d * share >= 0.0 && d * kept >= 0.0;
  }

  lemma Contracts(x: real, y: real, percent: int)
    requires 0 <= percent <= FULL
    ensures Distance(Left(x, percent), Left(y, percent)) <= Distance(x, y)
  {
    var left, right := Left(x, percent), Left(y, percent);
    if x < y {
      SharesShrink(y, x, Share(percent));
      assert 0.0 <= right - left <= y - x;
    } else {
      SharesShrink(x, y, Share(percent));
      assert 0.0 <= left - right <= x - y;
    }
  }

  /** One rounding more is half a toman more. */
  lemma OneRoundingMore(q: real, x: real, y: real, percent: int, n: nat)
    requires 0 <= percent <= FULL && Distance(x, y) <= n as real / 2.0 && Distance(q, Left(x, percent)) <= 0.5
    ensures Distance(q, Left(y, percent)) <= (n + 1) as real / 2.0
  {
    Contracts(x, y, percent);
    Triangle(q, Left(x, percent), Left(y, percent));
  }

  lemma Triangle(x: real, y: real, z: real)
    ensures Distance(x, z) <= Distance(x, y) + Distance(y, z)
  {
  }

  /** n stacked discounts on a whole-toman price keep it whole, never raise it, never take it below
      zero, and end within n/2 toman of the exact product. */
  lemma {:induction false} StackedDiscounts(tomans: int, percents: seq<int>)
    requires tomans >= 0 && Percents(percents)
    ensures 0 <= Stacked(tomans, percents) <= tomans
    ensures Distance(Stacked(tomans, percents) as real, Exact(tomans, percents)) <= |percents| as real / 2.0
  {
    if percents != [] {
      var early := percents[..|percents| - 1];
      var percent := percents[|percents| - 1];
      StackedDiscounts(tomans, early);
      var before := Stacked(tomans, early);
      WholePriceIsNotRaised(before, percent);
      OneCodeMore(tomans, percents, before, Exact(tomans, early));
    }
  }

  lemma OneCodeMore(tomans: int, percents: seq<int>, before: int, exact: real)
    requires percents != [] && Percents(percents)
    requires var n := |percents| - 1;
             && before == Stacked(tomans, percents[..n]) && exact == Exact(tomans, percents[..n])
             && Distance(before as real, exact) <= n as real / 2.0
    ensures Distance(Stacked(tomans, percents) as real, Exact(tomans, percents)) <= |percents| as real / 2.0
  {
    var n := |percents| - 1;
    OneStep(before, percents[n]);
    OneRoundingMore(ApplyDiscount(TOMAN * before, percents[n]) as real, before as real, exact, percents[n], n);
  }

  /** More codes never make it dearer. */
  lemma {:induction false} MoreCodesCostNoMore(tomans: int, percents: seq<int>, n: nat)
    requires tomans >= 0 && Percents(percents) && n <= |percents|
    ensures Stacked(tomans, percents) <= Stacked(tomans, percents[..n])
  {
    if n < |percents| {
      var early := percents[..|percents| - 1];
      MoreCodesCostNoMore(tomans, early, n);
      assert early[..n] == percents[..n];
      StackedDiscounts(tomans, early);
      WholePriceIsNotRaised(Stacked(tomans, early), percents[|percents| - 1]);
    } else {
      assert percents[..n] == percents;
    }
  }
}
