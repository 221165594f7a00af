/** The default decimal context of the source language: a quotient is rounded half-even to 28
    significant digits before it is truncated. */
module DecimalPrecision {
  import opened Prelude
  import opened Arithmetic
  import opened Validation

  /** 10^27 and 10^28: a 28-digit coefficient lies between them. */
  const TEN_27: nat := 1_000_000_000_000_000_000_000_000_000
  const TEN_28: nat := 10_000_000_000_000_000_000_000_000_000

  function Power10(e: nat): (p: nat)
    ensures p > 0
  {
    if e == 0 then 1 else 10 * Power10(e - 1)
  }

  /** The integer nearest to n / d, the even one on a tie. */
  function RoundHalfEven(n: nat, d: nat): nat
    requires d > 0
  {
    var q, r := n / d, n % d;
    if 2 * r < d || (2 * r == d && q % 2 == 0) then q else q + 1
  }

  /** How many decimal places of n / d a 28-digit coefficient holds. */
  function Places(n: nat, d: nat): (e: nat)
    requires 0 < n && 0 < d
    decreases TEN_27 * d - n
  {
    if n >= TEN_27 * d then 0 else 1 + Places(10 * n, d)
  }

  /** How many digits of the integer part of n / d a 28-digit coefficient drops. */
  function Dropped(n: nat, d: nat): nat
    requires 0 < d
    decreases n / TEN_28 - d
  {
    if n < TEN_28 * d then 0 else 1 + Dropped(n, 10 * d)
  }

  /** The quotient as the context computes it, then rounded toward zero to an integer. */
  function IntegralQuotient(n: nat, d: nat): nat
    requires 0 < d
  {
    if n == 0 then 0
    else if n < TEN_28 * d then
      var e := Places(n, d);
      RoundHalfEven(n * Power10(e), d) / Power10(e)
    else
      var k := Dropped(n, d);
      RoundHalfEven(n, d * Power10(k)) * Power10(k)
  }

  /** Rounding half-even is to the nearest integer, and to the even one on a tie. */
  lemma {:induction false} RoundsToNearestEven(n: nat, d: nat)
    requires d > 0
    ensures var m := RoundHalfEven(n, d);
            && 2 * (n - d * m) <= d && 2 * (d * m - n) <= d
            && (2 * (n - d * m) == d || 2 * (d * m - n) == d ==> m % 2 == 0)
  {
    var q, r := n / d, n % d;
    assert n == d * q + r;
    assert d * (q + 1) == d * q + d;
  }

  /** The coefficient kept has 28 digits, no more. */
  lemma {:induction false} PlacesFit(n: nat, d: nat)
    requires 0 < n && 0 < d && n < TEN_28 * d
    ensures n * Power10(Places(n, d)) < TEN_28 * d
    decreases TEN_27 * d - n
  {
    if n < TEN_27 * d {
      var e := Places(10 * n, d);
      PlacesFit(10 * n, d);
      assert n * (10 * Power10(e)) == 10 * n * Power10(e);
    } else {
      assert Power10(0) == 1;
    }
  }

  lemma {:induction false} DroppedFit(n: nat, d: nat)
    requires 0 < d
    ensures n < TEN_28 * (d * Power10(Dropped(n, d)))
    decreases n / TEN_28 - d
  {
    if n >= TEN_28 * d {
      DroppedFit(n, 10 * d);
      assert (10 * d) * Power10(Dropped(n, 10 * d)) == d * (10 * Power10(Dropped(n, 10 * d)));
    }
  }

  lemma {:induction false} PlacesFill(n: nat, d: nat)
    requires 0 < n && 0 < d
    ensures TEN_27 * d <= n * Power10(Places(n, d))
    decreases TEN_27 * d - n
  {
    if n < TEN_27 * d {
      var e := Places(10 * n, d);
      PlacesFill(10 * n, d);
      assert n * (10 * Power10(e)) == 10 * n * Power10(e);
    }
  }

  /** Rounding to nearest moves at most one unit away from the floor. */
  lemma {:induction false} RoundsBetween(x: nat, d: nat, lo: nat, hi: nat)
    requires d > 0 && d * lo <= x < d * hi
    ensures lo <= RoundHalfEven(x, d) <= hi
  {
    QuotientAtLeast(x, d, lo);
    QuotientBelow(x, d, hi);
  }

  lemma {:induction false} QuotientAtLeast(n: nat, d: nat, q: nat)
    requires d > 0 && d * q <= n
    ensures q <= n / d
  {
    var q' := n / d;
    assert n == d * q' + n % d && d * (q - q') == d * q - d * q';
    if q' < q {
      ProductAtLeast(d, q - q');
    }
  }

  lemma {:induction false} QuotientBelow(n: nat, d: nat, q: int)
    requires d > 0 && n < d * q
    ensures n / d < q
  {
    var q' := n / d;
    assert n == d * q' + n % d && d * (q' - q) == d * q' - d * q;
    if q' >= q {
      ProductNonNegative(d, q' - q);
    }
  }

  // ----- when the rounded quotient reaches the next integer -----

  /** The context rounds the quotient past its integer part. With p the scale a short quotient is
      rounded at, (d - n % d) * p is how far it is below the next integer; of a long quotient whole
      digits are dropped. */
  predicate Raised(n: nat, d: nat)
    requires 0 < d
  {
    n > 0 &&
    if n < TEN_28 * d then
      var p := Power10(Places(n, d));
      var gap := (d - n % d) * p;
      2 * gap < d || (2 * gap == d && (n / d + 1) * p % 2 == 0)
    else
      var unit := d * Power10(Dropped(n, d));
      2 * (n % unit) > unit || (2 * (n % unit) == unit && n / unit % 2 == 1)
  }

  lemma {:induction false} NearestIs(x: nat, d: nat, q: nat, r: nat)
    requires x == d * q + r && r < d
    ensures RoundHalfEven(x, d) == if 2 * r < d || (2 * r == d && q % 2 == 0) then q else q + 1
  {
    QuotientUnique(x, d, q, r);
    assert x == d * (x / d) + x % d;
  }

  /** A numerator that is `gap` short of t times d rounds to t exactly when the gap is less than half,
      or half with t even. */
  lemma {:induction false} NearestReaches(x: nat, d: nat, t: nat, gap: nat)
    requires 0 < d && 0 < gap && x + gap == d * t
    ensures RoundHalfEven(x, d) <= t
    ensures RoundHalfEven(x, d) == t <==> 2 * gap < d || (2 * gap == d && t % 2 == 0)
  {
    assert t > 0 && d * (t - 1) == d * t - d;
    if gap <= d {
      if gap < d {
        NearestIs(x, d, t - 1, d - gap);
      } else {
        NearestIs(x, d, t - 1, 0);
      }
    } else {
      RoundsBetween(x, d, 0, t - 1);
    }
  }

  lemma {:induction false} ScaledGap(n: nat, d: nat, p: nat, f: nat, r: nat)
    requires n == d * f + r && r < d && p > 0
    ensures n * p + (d - r) * p == d * ((f + 1) * p)
    ensures (d - r) * p > 0 && d * (f * p) <= n * p
  {
    assert n * p == (d * f) * p + r * p;
    assert (d * f) * p == d * (f * p);
    assert (d - r) * p == d * p - r * p;
    assert d * ((f + 1) * p) == d * (f * p) + d * p;
    ProductNonNegative(p, r);
    assert p * r == r * p;
    ProductAtLeast(p, d - r);
    assert p * (d - r) == (d - r) * p;
  }

  lemma {:induction false} SplitByScale(m: nat, f: nat, p: nat)
    requires p > 0 && f * p <= m < f * p + p
    ensures m / p == f
  {
    assert m == p * f + (m - f * p);
    QuotientUnique(m, p, f, m - f * p);
  }

  /** The same for a numerator between two neighbouring multiples of p. */
  lemma {:induction false} RoundedBetween(x: nat, d: nat, p: nat, low: nat, f: nat, gap: nat)
    requires 0 < d && 0 < p && low == f * p
    requires 0 < gap && d * low <= x && x + gap == d * (low + p)
    ensures RoundHalfEven(x, d) / p == f + if 2 * gap < d || (2 * gap == d && (low + p) % 2 == 0) then 1 else 0
  {
    NearestReaches(x, d, low + p, gap);
    QuotientAtLeast(x, d, low);
    var m := RoundHalfEven(x, d);
    assert (f + 1) * p == low + p;
    if m == low + p {
      SplitByScale(m, f + 1, p);
    } else {
      SplitByScale(m, f, p);
    }
  }

  /** Rounding n / d at scale p and truncating gives the floor, or the next integer. */
  lemma {:induction false} RoundedAtScale(n: nat, d: nat, p: nat, f: nat, r: nat)
    requires 0 < p && n == d * f + r && r < d
    ensures RoundHalfEven(n * p, d) / p
            == f + if 2 * ((d - r) * p) < d || (2 * ((d - r) * p) == d && (f + 1) * p % 2 == 0) then 1 else 0
  {
    ScaledGap(n, d, p, f, r);
    assert (f + 1) * p == f * p + p;
    RoundedBetween(n * p, d, p, f * p, f, (d - r) * p);
  }

  /** A quotient below 10^28 truncates to its floor, or to the next integer exactly when it is raised. */
  lemma {:induction false} ShortQuotient(n: nat, d: nat)
    requires 0 < d && n < TEN_28 * d
    ensures IntegralQuotient(n, d) == n / d + if Raised(n, d) then 1 else 0
  {
    if n > 0 {
      RoundedAtScale(n, d, Power10(Places(n, d)), n / d, n % d);
    } else {
      QuotientUnique(0, d, 0, 0);
    }
  }

  /** Dividing by d and then by k is dividing by their product. */
  lemma {:induction false} NestedQuotient(n: nat, d: nat, k: nat)
    requires 0 < d && 0 < k
    ensures d * k > 0
    ensures n / (d * k) == n / d / k
    ensures n % (d * k) == d * (n / d % k) + n % d
  {
    var f, g, s := n / d, n / d / k, n / d % k;
    ProductAtLeast(d, k);
    assert f == k * g + s;
    assert n == d * f + n % d;
    assert d * f == d * (k * g) + d * s && d * (k * g) == (d * k) * g;
    ProductNonNegative(d, s);
    ProductNonNegative(d, k - 1 - s);
    assert d * (k - 1 - s) == d * k - d - d * s;
    QuotientUnique(n, d * k, g, d * s + n % d);
    assert n == (d * k) * (n / (d * k)) + n % (d * k);
  }

  /** The multiples of k next to f. */
  lemma {:induction false} NeighbouringMultiples(f: nat, k: nat, g: nat)
    requires 0 < k && g == f / k
    ensures g * k <= f < (g + 1) * k
    ensures g * k == f <==> f % k == 0
  {
    assert f == k * g + f % k;
    assert (g + 1) * k == g * k + k && k * g == g * k;
  }

  /** What is left of a quotient when its last digits are dropped. */
  lemma {:induction false} LongRounds(n: nat, d: nat, k: nat)
    requires 0 < d && n >= TEN_28 * d && k == Power10(Dropped(n, d))
    ensures k >= 10 && IntegralQuotient(n, d) == (n / d / k + if Raised(n, d) then 1 else 0) * k
  {
    ProductAtLeast(TEN_28, d);
    assert k == 10 * Power10(Dropped(n, 10 * d));
    NestedQuotient(n, d, k);
  }

  lemma {:induction false} ZerosAreNotRaised(n: nat, d: nat, k: nat)
    requires 0 < d && n >= TEN_28 * d && k == Power10(Dropped(n, d)) && k >= 10
    requires n / d % k == 0
    ensures !Raised(n, d)
  {
    NestedQuotient(n, d, k);
    ProductNonNegative(d, k - 10);
    assert d * (k - 10) == d * k - 10 * d;
    assert n % (d * k) == n % d;
  }

  /** A longer quotient loses digits: it is not raised exactly when it is rounded down, and exact
      exactly when the digits lost are zeros. */
  lemma {:induction false} LongQuotient(n: nat, d: nat)
    requires 0 < d && n >= TEN_28 * d
    ensures IntegralQuotient(n, d) <= n / d <==> !Raised(n, d)
    ensures IntegralQuotient(n, d) == n / d <==> n / d % Power10(Dropped(n, d)) == 0
  {
    var k := Power10(Dropped(n, d));
    LongRounds(n, d, k);
    NeighbouringMultiples(n / d, k, n / d / k);
    if n / d % k == 0 {
      ZerosAreNotRaised(n, d, k);
    }
  }

  /** The exact condition, for every quotient: truncating under the 28-digit context never rounds up
      exactly when the quotient is not raised, and gives the exact floor exactly when a short
      quotient is not raised or a long one loses only zeros. */
  lemma {:induction false} TruncationExactIff(n: nat, d: nat)
    requires 0 < d
    ensures IntegralQuotient(n, d) <= n / d <==> !Raised(n, d)
    ensures IntegralQuotient(n, d) == n / d <==>
              if n < TEN_28 * d then !Raised(n, d) else n / d % Power10(Dropped(n, d)) == 0
  {
    if n < TEN_28 * d {
      ShortQuotient(n, d);
    } else {
      LongQuotient(n, d);
    }
  }

  lemma {:induction false} HalfGapNeedsLongNumerator(n: nat, d: nat, p: nat)
    requires n < 2 * TEN_27 && TEN_27 * d <= n * p && p > 0
    ensures d < 2 * p
  {
    ProductAtLeast(p, 2 * TEN_27 - n);
    assert p * (2 * TEN_27 - n) == 2 * TEN_27 * p - n * p;
  }

  lemma {:induction false} RaisedNeedsSmallGap(n: nat, d: nat)
    requires 0 < d && 0 < n < TEN_28 * d && Raised(n, d)
    ensures 2 * ((d - n % d) * Power10(Places(n, d))) <= d
  {
  }

  lemma {:induction false} ShortNumeratorIsNotRaised(n: nat, d: nat)
    requires n < 2 * TEN_27 && 0 < d
    ensures n < TEN_28 * d && !Raised(n, d)
  {
    ProductAtLeast(TEN_28, d);
    if n > 0 {
      var p := Power10(Places(n, d));
      PlacesFill(n, d);
      HalfGapNeedsLongNumerator(n, d, p);
      ProductAtLeast(p, d - n % d);
      assert p * (d - n % d) == (d - n % d) * p;
      if Raised(n, d) {
        RaisedNeedsSmallGap(n, d);
      }
    }
  }

  /** In particular for every numerator below 2 * 10^27, so for every one of at most 27 digits,
      dividing under the 28-digit context and truncating gives the exact floor. */
  lemma {:induction false} TruncationIsExact(n: nat, d: nat)
    requires n < 2 * TEN_27 && 0 < d
    ensures IntegralQuotient(n, d) == n / d
  {
    ShortNumeratorIsNotRaised(n, d);
    ShortQuotient(n, d);
  }

  // ----- the snapped price -----

  /** A product under the context: rounded to 28 digits. */
  function ContextRound(m: nat): nat { IntegralQuotient(m, 1) }

  /** snap_price for a non-negative price and a positive tick, every operation under the context. */
  function SnapInContext(price: nat, tick: nat): nat
    requires 0 < tick
  {
    ContextRound(IntegralQuotient(price, tick) * tick)
  }

  lemma {:induction false} DroppedFills(n: nat, d: nat)
    requires 0 < d && n >= TEN_28 * d
    ensures TEN_27 * (d * Power10(Dropped(n, d))) <= n
    decreases n / TEN_28 - d
  {
    assert Dropped(n, d) == 1 + Dropped(n, 10 * d);
    if n >= TEN_28 * (10 * d) {
      DroppedFills(n, 10 * d);
      assert (10 * d) * Power10(Dropped(n, 10 * d)) == d * (10 * Power10(Dropped(n, 10 * d)));
    } else {
      assert Power10(0) == 1 && Power10(1) == 10 * Power10(0);
    }
  }

  /** Numbers of at most 28 digits are kept, and longer ones stay longer. */
  lemma {:induction false} ContextRoundKeepsShort(m: nat)
    ensures m < TEN_28 ==> ContextRound(m) == m
    ensures m >= TEN_28 ==> ContextRound(m) >= TEN_28
  {
    QuotientUnique(m, 1, m, 0);
    if m < TEN_28 {
      ShortQuotient(m, 1);
    } else {
      var k := Power10(Dropped(m, 1));
      DroppedFills(m, 1);
      assert Dropped(m, 1) == 1 + Dropped(m, 10);
      assert 1 * k == k && k * TEN_27 == TEN_27 * k;
      QuotientAtLeast(m, k, TEN_27);
      var q := RoundHalfEven(m, k);
      ProductNonNegative(k, q - TEN_27);
      assert k * (q - TEN_27) == q * k - TEN_27 * k;
      assert k >= 10;
    }
  }

  lemma {:induction false} SnapIsFloor(price: nat, tick: nat)
    requires 0 < tick
    ensures Snap(price, Some(tick)) == price / tick * tick <= price < (price / tick + 1) * tick
  {
    assert TruncDiv(price, tick) == price / tick;
    assert price == tick * (price / tick) + price % tick;
    assert tick * (price / tick) == price / tick * tick;
    assert (price / tick + 1) * tick == price / tick * tick + tick;
  }

  lemma {:induction false} ShortIsRounded(m: nat, k: nat)
    requires m < TEN_28 && k == Power10(Dropped(m, 1))
    ensures ContextRound(m) == (m / k + if Raised(m, 1) then 1 else 0) * k
  {
    ContextRoundKeepsShort(m);
    ShortQuotient(m, 1);
    assert Dropped(m, 1) == 0 && Power10(0) == 1 && k == 1;
    QuotientUnique(m, 1, m, 0);
    assert m / k == m;
  }

  lemma {:induction false} LongIsRounded(m: nat, k: nat)
    requires m >= TEN_28 && k == Power10(Dropped(m, 1))
    ensures ContextRound(m) == (m / k + if Raised(m, 1) then 1 else 0) * k
  {
    LongRounds(m, 1, k);
    assert m / 1 == m by { QuotientUnique(m, 1, m, 0); }
  }

  /** Rounding to 28 digits: one of the two multiples of the last digit kept around the number, the
      upper one exactly when it is raised. A short number is its own neighbour. */
  lemma {:induction false} ContextRoundIs(m: nat, k: nat)
    requires k == Power10(Dropped(m, 1))
    ensures ContextRound(m) == (m / k + if Raised(m, 1) then 1 else 0) * k
  {
    if m < TEN_28 {
      ShortIsRounded(m, k);
    } else {
      LongIsRounded(m, k);
    }
  }

  /** The product is at most the price exactly when the quotient was not raised. */
  lemma {:induction false} ProductAtMostIff(price: nat, tick: nat, q: nat)
    requires 0 < tick
    ensures q * tick <= price <==> q <= price / tick
  {
    SnapIsFloor(price, tick);
    var f := price / tick;
    if q <= f {
      ProductNonNegative(tick, f - q);
      assert tick * (f - q) == f * tick - q * tick;
    } else {
      ProductNonNegative(tick, q - (f + 1));
      assert tick * (q - (f + 1)) == q * tick - (f + 1) * tick;
    }
  }

  /** The exact condition for every price. Let k be the weight of the last digit kept of the product:
      snapping does not raise the price exactly when the price reaches the multiple of k below the
      product and the product is not raised, or reaches the multiple above it. In particular it does
      not when neither the quotient nor the product is raised. */
  lemma {:induction false} SnapNotRaisedIff(price: nat, tick: nat)
    requires 0 < tick
    ensures var m := IntegralQuotient(price, tick) * tick;
            var k := Power10(Dropped(m, 1));
            SnapInContext(price, tick) <= price <==>
              price >= (m / k + 1) * k || (price >= m / k * k && !Raised(m, 1))
    ensures !Raised(price, tick) && !Raised(IntegralQuotient(price, tick) * tick, 1) ==> SnapInContext(price, tick) <= price
  {
    var q := IntegralQuotient(price, tick);
    var m := q * tick;
    var k := Power10(Dropped(m, 1));
    ContextRoundIs(m, k);
    NeighbouringMultiples(m, k, m / k);
    TruncationExactIff(price, tick);
    ProductAtMostIff(price, tick, q);
  }

  /** For every price of at most 28 digits the product decides nothing: snapping does not raise the
      price exactly when its quotient by the tick is not raised, and then it is exact flooring. */
  lemma {:induction false} SnapInContextIff(price: nat, tick: nat)
    requires price < TEN_28 && 0 < tick
    ensures SnapInContext(price, tick) <= price <==> !Raised(price, tick)
    ensures !Raised(price, tick) ==> SnapInContext(price, tick) == Snap(price, Some(tick))
  {
    ProductAtLeast(TEN_28, tick);
    ShortQuotient(price, tick);
    SnapIsFloor(price, tick);
    ContextRoundKeepsShort(IntegralQuotient(price, tick) * tick);
  }

  /** So with at most 27 digits, and a little beyond, snapping never rounds up. */
  lemma {:induction false} SnappingNeverRoundsUp(price: nat, tick: nat)
    requires price < 2 * TEN_27 && 0 < tick
    ensures SnapInContext(price, tick) == Snap(price, Some(tick)) <= price
  {
    ShortNumeratorIsNotRaised(price, tick);
    SnapInContextIff(price, tick);
  }

  /** Just past that bound a price of 28 digits is raised: half a unit short of an even quotient. */
  lemma {:induction false} LongPriceIsRaised()
    ensures var price := 2 * TEN_27 + 3;
            Raised(price, 2) && SnapInContext(price, 2) == price + 1
  {
    var price := 2 * TEN_27 + 3;
    assert Places(price, 2) == 0 && Power10(0) == 1;
    QuotientUnique(price, 2, TEN_27 + 1, 1);
    ShortQuotient(price, 2);
    ContextRoundKeepsShort((TEN_27 + 2) * 2);
  }

  /** A price of 29 digits can be raised by the product alone: the quotient is exact, and the product
      loses its last digit, an 8. */
  lemma {:induction false} LongProductIsRaised()
    ensures var price := TEN_28 + 8;
            && !Raised(price, 3) && IntegralQuotient(price, 3) * 3 == price
            && SnapInContext(price, 3) == price + 2
  {
    var price, third: nat := TEN_28 + 8, 3_333_333_333_333_333_333_333_333_336;
    assert price == 3 * third;
    QuotientUnique(price, 3, third, 0);
    ShortQuotient(price, 3);
    EvenDivisionIsNotRaised(price, 3);
    assert Dropped(price, 10) == 0 && Dropped(price, 1) == 1;
    assert Power10(0) == 1 && Power10(1) == 10;
    ContextRoundIs(price, 10);
    QuotientUnique(price, 10, TEN_27, 8);
    assert price % 10 == 8;
  }

  lemma {:induction false} EvenDivisionIsNotRaised(n: nat, d: nat)
    requires 0 < d && 0 < n < TEN_28 * d && n % d == 0
    ensures !Raised(n, d)
  {
    var p := Power10(Places(n, d));
    ProductAtLeast(d, p);
    if Raised(n, d) {
      RaisedNeedsSmallGap(n, d);
    }
  }
}
