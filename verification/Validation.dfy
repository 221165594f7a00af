/** Pre-trade validation: snapping to tick and step, the bounds, and the minimum notional.
    Decimals are integers at one common scale. */
module Validation {
  import opened Prelude
  import opened Arithmetic

  function Abs(n: int): nat { if n >= 0 then n else -n }

  /** Division rounding toward zero, as ROUND_DOWN does. */
  function TruncDiv(n: int, d: int): int
    requires d != 0
  {
    if (n >= 0) == (d > 0) then Abs(n) / Abs(d) else -(Abs(n) / Abs(d))
  }

  /** snap_price and snap_qty: unchanged when the tick is absent or zero. */
  function Snap(value: int, tick: Option<int>): int {
    if tick.None? || tick.value == 0 then value else TruncDiv(value, tick.value) * tick.value
  }

  datatype PriceFilter = PriceFilter(tickSize: Option<int>, minPrice: Option<int>, maxPrice: Option<int>)

  datatype LotFilter = LotFilter(stepSize: Option<int>, minQty: Option<int>, maxQty: Option<int>)

  /** The filters of a symbol; `minNotional` is the filter, which may lack its value. */
  datatype Filters = Filters(price: Option<PriceFilter>, lot: Option<LotFilter>, marketLot: Option<LotFilter>,
                             minNotional: Option<Option<int>>)

  datatype OrderRequest = OrderRequest(isMarket: bool, price: Option<int>, stopPrice: Option<int>,
                                       quantity: Option<int>, quoteOrderQty: Option<int>)

  datatype Rejection =
    | PriceNotPositive | PriceBelowMin | PriceAboveMax
    | QuantityNotPositive | QuantityBelowMin | QuantityAboveMax
    | NotionalBelowMin

  /** A bound that is present and not zero. */
  predicate Bounds(bound: Option<int>) { bound.Some? && bound.value != 0 }

  function LotOf(request: OrderRequest, filters: Filters): Option<LotFilter> {
    if request.isMarket && filters.marketLot.Some? then filters.marketLot else filters.lot
  }

  function SnappedBy(value: Option<int>, tick: Option<int>): Option<int> {
    if value.Some? then Some(Snap(value.value, tick)) else None
  }

  /** The request with every field snapped by the filters that are present. */
  function Snapped(request: OrderRequest, filters: Filters): OrderRequest {
    var lot := LotOf(request, filters);
    request.(price := if filters.price.Some? then SnappedBy(request.price, filters.price.value.tickSize) else request.price,
             stopPrice := if filters.price.Some? then SnappedBy(request.stopPrice, filters.price.value.tickSize) else request.stopPrice,
             quantity := if lot.Some? then SnappedBy(request.quantity, lot.value.stepSize) else request.quantity)
  }

  function PriceRejection(price: Option<int>, filter: Option<PriceFilter>): Option<Rejection> {
    if price.None? then None
    else if price.value <= 0 then Some(PriceNotPositive)
    else if filter.Some? && Bounds(filter.value.minPrice) && price.value < filter.value.minPrice.value then Some(PriceBelowMin)
    else if filter.Some? && Bounds(filter.value.maxPrice) && price.value > filter.value.maxPrice.value then Some(PriceAboveMax)
    else None
  }

  function QuantityRejection(quantity: Option<int>, filter: Option<LotFilter>): Option<Rejection> {
    if quantity.None? then None
    else if quantity.value <= 0 then Some(QuantityNotPositive)
    else if filter.Some? && Bounds(filter.value.minQty) && quantity.value < filter.value.minQty.value then Some(QuantityBelowMin)
    else if filter.Some? && Bounds(filter.value.maxQty) && quantity.value > filter.value.maxQty.value then Some(QuantityAboveMax)
    else None
  }

  /** The notional of a snapped request at the square of the scale, when it can be known. */
  function Notional(request: OrderRequest, scale: int): Option<int> {
    if request.quoteOrderQty.Some? then Some(request.quoteOrderQty.value * scale)
    else if request.price.Some? && request.quantity.Some? then Some(request.price.value * request.quantity.value)
    else None
  }

  function NotionalRejection(request: OrderRequest, filter: Option<Option<int>>, scale: int): Option<Rejection> {
    if filter.Some? && Bounds(filter.value) && Notional(request, scale).Some?
       && Notional(request, scale).value < filter.value.value * scale
    then Some(NotionalBelowMin) else None
  }

  function Validated(request: OrderRequest, filters: Filters, scale: int): Result<OrderRequest, Rejection> {
    var snapped := Snapped(request, filters);
    var price := PriceRejection(snapped.price, filters.price);
    var quantity := QuantityRejection(snapped.quantity, LotOf(request, filters));
    var notional := NotionalRejection(snapped, filters.minNotional, scale);
    if price.Some? then Err(price.value)
    else if quantity.Some? then Err(quantity.value)
    else if notional.Some? then Err(notional.value)
    else Ok(snapped)
  }

  /** Between the bounds; an absent or zero bound is no limit. */
  ghost predicate WithinBounds(value: int, lower: Option<int>, upper: Option<int>) {
    (lower.Some? && lower.value != 0 ==> lower.value <= value) && (upper.Some? && upper.value != 0 ==> value <= upper.value)
  }

  /** A price passes exactly when it is positive and within the bounds; a rejection names the first
      rule it breaks. */
  ghost predicate PriceVerdict(price: Option<int>, filter: Option<PriceFilter>, rejection: Option<Rejection>) {
    && (rejection.None? <==>
          price.Some? ==> price.value > 0 && (filter.Some? ==> WithinBounds(price.value, filter.value.minPrice, filter.value.maxPrice)))
    && (rejection.Some? && price.Some? ==>
          match rejection.value
          case PriceNotPositive => price.value <= 0
          case PriceBelowMin => price.value > 0 && filter.Some? && !WithinBounds(price.value, filter.value.minPrice, None)
          case PriceAboveMax => price.value > 0 && filter.Some? && WithinBounds(price.value, filter.value.minPrice, None)
                                && !WithinBounds(price.value, None, filter.value.maxPrice)
          case _ => false)
  }

  /** Likewise for a quantity. */
  ghost predicate QuantityVerdict(quantity: Option<int>, filter: Option<LotFilter>, rejection: Option<Rejection>) {
    && (rejection.None? <==>
          quantity.Some? ==> quantity.value > 0 && (filter.Some? ==> WithinBounds(quantity.value, filter.value.minQty, filter.value.maxQty)))
    && (rejection.Some? && quantity.Some? ==>
          match rejection.value
          case QuantityNotPositive => quantity.value <= 0
          case QuantityBelowMin => quantity.value > 0 && filter.Some? && !WithinBounds(quantity.value, filter.value.minQty, None)
          case QuantityAboveMax => quantity.value > 0 && filter.Some? && WithinBounds(quantity.value, filter.value.minQty, None)
                                   && !WithinBounds(quantity.value, None, filter.value.maxQty)
          case _ => false)
  }

  /** A request passes unless a non-zero minimum is set and the notional is known and below it; the
      quote quantity, when given, is the notional. */
  ghost predicate NotionalVerdict(request: OrderRequest, filter: Option<Option<int>>, scale: int, rejection: Option<Rejection>) {
    && (rejection.None? <==>
          filter.Some? && filter.value.Some? && filter.value.value != 0 ==>
            if request.quoteOrderQty.Some? then request.quoteOrderQty.value * scale >= filter.value.value * scale
            else request.price.Some? && request.quantity.Some? ==>
                   request.price.value * request.quantity.value >= filter.value.value * scale)
    && (rejection.Some? ==> rejection.value.NotionalBelowMin?)
  }

  /** These verdicts leave no choice: they are the rejections of the specification. */
  lemma {:induction false} VerdictsDecide(request: OrderRequest, filters: Filters, lot: Option<LotFilter>, scale: int,
                                          price: Option<Rejection>, quantity: Option<Rejection>, notional: Option<Rejection>)
    ensures PriceVerdict(request.price, filters.price, price) ==> price == PriceRejection(request.price, filters.price)
    ensures QuantityVerdict(request.quantity, lot, quantity) ==> quantity == QuantityRejection(request.quantity, lot)
    ensures NotionalVerdict(request, filters.minNotional, scale, notional)
            ==> notional == NotionalRejection(request, filters.minNotional, scale)
  {
  }

  method CheckPrice(price: Option<int>, filter: Option<PriceFilter>) returns (rejection: Option<Rejection>)
    ensures PriceVerdict(price, filter, rejection)
  {
    if price.Some? {
      if price.value <= 0 {
        return Some(PriceNotPositive);
      }
      if filter.Some? {
        if Bounds(filter.value.minPrice) && price.value < filter.value.minPrice.value {
          return Some(PriceBelowMin);
        }
        if Bounds(filter.value.maxPrice) && price.value > filter.value.maxPrice.value {
          return Some(PriceAboveMax);
        }
      }
    }
    rejection := None;
  }

  method CheckQuantity(quantity: Option<int>, filter: Option<LotFilter>) returns (rejection: Option<Rejection>)
    ensures QuantityVerdict(quantity, filter, rejection)
  {
    if quantity.Some? {
      if quantity.value <= 0 {
        return Some(QuantityNotPositive);
      }
      if filter.Some? {
        if Bounds(filter.value.minQty) && quantity.value < filter.value.minQty.value {
          return Some(QuantityBelowMin);
        }
        if Bounds(filter.value.maxQty) && quantity.value > filter.value.maxQty.value {
          return Some(QuantityAboveMax);
        }
      }
    }
    rejection := None;
  }

  method CheckNotional(request: OrderRequest, filter: Option<Option<int>>, scale: int) returns (rejection: Option<Rejection>)
    ensures NotionalVerdict(request, filter, scale, rejection)
  {
    if filter.Some? && Bounds(filter.value) {
      var notional := Notional(request, scale);
      if notional.Some? && notional.value < filter.value.value * scale {
        return Some(NotionalBelowMin);
      }
    }
    rejection := None;
  }

  /** The source's body, its three checks named. */
  method ValidateOrder(request: OrderRequest, filters: Filters, scale: int) returns (result: Result<OrderRequest, Rejection>)
    ensures result == Validated(request, filters, scale)
  {
    var lotFilter := None;
    if request.isMarket {
      lotFilter := filters.marketLot;
    }
    if lotFilter == None {
      lotFilter := filters.lot;
    }
    var updated := request;
    if request.price.Some? && filters.price.Some? {
      updated := updated.(price := Some(Snap(request.price.value, filters.price.value.tickSize)));
    }
    var rejection := CheckPrice(updated.price, filters.price);
    VerdictsDecide(updated, filters, lotFilter, scale, rejection, None, None);
    if rejection.Some? {
      return Err(rejection.value);
    }
    if request.stopPrice.Some? && filters.price.Some? {
      updated := updated.(stopPrice := Some(Snap(request.stopPrice.value, filters.price.value.tickSize)));
    }
    if request.quantity.Some? && lotFilter.Some? {
      updated := updated.(quantity := Some(Snap(request.quantity.value, lotFilter.value.stepSize)));
    }
    rejection := CheckQuantity(updated.quantity, lotFilter);
    VerdictsDecide(updated, filters, lotFilter, scale, None, rejection, None);
    if rejection.Some? {
      return Err(rejection.value);
    }
    rejection := CheckNotional(updated, filters.minNotional, scale);
    VerdictsDecide(updated, filters, lotFilter, scale, None, None, rejection);
    if rejection.Some? {
      return Err(rejection.value);
    }
    result := Ok(updated);
  }

  // ----- snapping -----

  lemma {:induction false} DivOfMultiple(k: nat, d: nat)
    requires d > 0
    ensures k * d / d == k
  {
    assert k * d == d * k + 0;
    QuotientUnique(k * d, d, k, 0);
  }

  lemma {:induction false} AbsProduct(k: int, d: int)
    ensures Abs(k * d) == Abs(k) * Abs(d)
    ensures d != 0 && k != 0 ==> ((k * d >= 0) == (d > 0) <==> k > 0)
  {
    if k >= 0 && d >= 0 {
    } else if k >= 0 {
      assert k * d == -(k * -d);
    } else if d >= 0 {
      assert k * d == -(-k * d);
    } else {
      assert k * d == -k * -d;
    }
  }

  lemma {:induction false} TruncDivOfMultiple(k: int, d: int)
    requires d != 0
    ensures TruncDiv(k * d, d) == k
  {
    AbsProduct(k, d);
    DivOfMultiple(Abs(k), Abs(d));
    if k == 0 {
      assert k * d == 0;
    }
  }

  /** Snapping a snapped value changes nothing, whatever the sign of the value or the tick. */
  lemma {:induction false} SnapIsIdempotent(value: int, tick: Option<int>)
    ensures Snap(Snap(value, tick), tick) == Snap(value, tick)
  {
    if tick.Some? && tick.value != 0 {
      TruncDivOfMultiple(TruncDiv(value, tick.value), tick.value);
    }
  }

  /** For a non-negative value and a positive tick, snapping gives the greatest multiple of the tick
      not above the value. */
  lemma {:induction false} SnapIsGreatestMultiple(value: int, tick: int)
    requires value >= 0 && tick > 0
    ensures var s := Snap(value, Some(tick));
            && s % tick == 0 && 0 <= s <= value < s + tick
            && forall m :: m <= value && m % tick == 0 ==> m <= s
  {
    var s := Snap(value, Some(tick));
    var q := value / tick;
    assert TruncDiv(value, tick) == q && q >= 0;
    ProductNonNegative(tick, q);
    assert s == tick * q && value == tick * q + value % tick;
    MultipleHasNoRemainder(q, tick);
    forall m | m <= value && m % tick == 0 ensures m <= s {
      MultipleAtMost(m, value, q, tick);
    }
  }

  lemma {:induction false} MultipleHasNoRemainder(q: int, d: int)
    requires d > 0
    ensures (d * q) % d == 0
  {
    QuotientUnique(d * q, d, q, 0);
    assert d * q == d * (d * q / d) + (d * q) % d;
  }

  lemma {:induction false} MultipleAtMost(m: int, value: int, q: int, d: int)
    requires d > 0 && m % d == 0 && m <= value < d * q + d
    ensures m <= d * q
  {
    var k := m / d;
    assert m == d * k && d * (k - q) == d * k - d * q && d * (q - k) == d * q - d * k;
    if k > q {
      ProductAtLeast(d, k - q);
    } else {
      ProductNonNegative(d, q - k);
    }
  }

  /** Snapping never raises a value exactly when the value is non-negative or already a multiple: a
      negative value is rounded toward zero, so upwards. */
  lemma {:induction false} SnapNeverRaisesIff(value: int, tick: int)
    requires tick > 0
    ensures Snap(value, Some(tick)) <= value <==> value >= 0 || value % tick == 0
  {
    if value >= 0 {
      SnapIsGreatestMultiple(value, tick);
    } else {
      var n := -value;
      SnapIsGreatestMultiple(n, tick);
      var s := Snap(n, Some(tick));
      assert Snap(value, Some(tick)) == -s by {
        assert -(n / tick) * tick == -(n / tick * tick);
      }
      assert s == n <==> n % tick == 0;
      NegatedMultiple(value, tick);
    }
  }

  lemma {:induction false} NegatedMultiple(value: int, tick: int)
    requires tick > 0
    ensures value % tick == 0 <==> -value % tick == 0
  {
    var q := value / tick;
    if value % tick == 0 {
      assert -value == tick * -q;
      QuotientUnique(-value, tick, -q, 0);
      assert -value == tick * (-value / tick) + -value % tick;
    }
    var p := -value / tick;
    if -value % tick == 0 {
      assert value == tick * -p;
      QuotientUnique(value, tick, -p, 0);
      assert value == tick * (value / tick) + value % tick;
    }
  }

  /** A stop price is snapped but never checked to be positive, so a negative one is raised. */
  lemma {:induction false} NegativeStopIsRaised()
    ensures var request := OrderRequest(false, Some(10), Some(-7), Some(1), None);
            var filters := Filters(Some(PriceFilter(Some(5), None, None)), None, None, None);
            Validated(request, filters, 1) == Ok(OrderRequest(false, Some(10), Some(-5), Some(1), None))
  {
    assert TruncDiv(10, 5) == 2 && TruncDiv(-7, 5) == -1;
  }

  // ----- validation -----

  lemma {:induction false} SnappedTwice(request: OrderRequest, filters: Filters)
    ensures Snapped(Snapped(request, filters), filters) == Snapped(request, filters)
    ensures LotOf(Snapped(request, filters), filters) == LotOf(request, filters)
  {
    var lot := LotOf(request, filters);
    if filters.price.Some? {
      var tick := filters.price.value.tickSize;
      if request.price.Some? { SnapIsIdempotent(request.price.value, tick); }
      if request.stopPrice.Some? { SnapIsIdempotent(request.stopPrice.value, tick); }
    }
    if lot.Some? && request.quantity.Some? {
      SnapIsIdempotent(request.quantity.value, lot.value.stepSize);
    }
  }

  /** Validation is a fixpoint on its results. */
  lemma {:induction false} ValidationIsFixpoint(request: OrderRequest, filters: Filters, scale: int)
    requires Validated(request, filters, scale).Ok?
    ensures Validated(Validated(request, filters, scale).value, filters, scale) == Validated(request, filters, scale)
  {
    SnappedTwice(request, filters);
  }

  /** The value is the greatest multiple of the tick not above the input. */
  ghost predicate GreatestMultiple(snapped: int, value: int, tick: int)
    requires tick > 0
  {
    snapped % tick == 0 && snapped <= value && forall m :: m <= value && m % tick == 0 ==> m <= snapped
  }

  lemma {:induction false} NegativeSnapsToNonPositive(value: int, tick: int)
    requires tick > 0 && value < 0
    ensures Snap(value, Some(tick)) <= 0
  {
    ProductNonNegative(tick, -value / tick);
    assert -(-value / tick) * tick == -(tick * (-value / tick));
  }

  lemma {:induction false} PositiveSnapFloors(value: int, tick: int)
    requires tick > 0 && Snap(value, Some(tick)) > 0
    ensures GreatestMultiple(Snap(value, Some(tick)), value, tick)
  {
    if value < 0 {
      NegativeSnapsToNonPositive(value, tick);
    } else {
      SnapIsGreatestMultiple(value, tick);
    }
  }

  /** What acceptance means: with a positive tick or step the accepted price and quantity are the
      greatest multiples not above what was asked, inside the filter's bounds, and the notional of
      what will be sent meets the minimum. */
  lemma {:induction false} AcceptedMeansTradable(request: OrderRequest, filters: Filters, scale: int)
    requires Validated(request, filters, scale).Ok?
    ensures var sent := Validated(request, filters, scale).value;
            var lot := LotOf(request, filters);
            && (request.price.Some? && filters.price.Some? ==>
                  && sent.price.Some? && sent.price.value > 0
                  && WithinBounds(sent.price.value, filters.price.value.minPrice, filters.price.value.maxPrice)
                  && (filters.price.value.tickSize.Some? && filters.price.value.tickSize.value > 0 ==>
                        GreatestMultiple(sent.price.value, request.price.value, filters.price.value.tickSize.value)))
            && (request.quantity.Some? && lot.Some? ==>
                  && sent.quantity.Some? && sent.quantity.value > 0
                  && WithinBounds(sent.quantity.value, lot.value.minQty, lot.value.maxQty)
                  && (lot.value.stepSize.Some? && lot.value.stepSize.value > 0 ==>
                        GreatestMultiple(sent.quantity.value, request.quantity.value, lot.value.stepSize.value)))
            && (filters.minNotional.Some? && Bounds(filters.minNotional.value) ==>
                  Notional(sent, scale).None? || Notional(sent, scale).value >= filters.minNotional.value.value * scale)
            && sent.isMarket == request.isMarket && sent.quoteOrderQty == request.quoteOrderQty
  {
    var lot := LotOf(request, filters);
    if request.price.Some? && filters.price.Some? {
      var tick := filters.price.value.tickSize;
      if tick.Some? && tick.value > 0 {
        PositiveSnapFloors(request.price.value, tick.value);
      }
    }
    if request.quantity.Some? && lot.Some? {
      var step := lot.value.stepSize;
      if step.Some? && step.value > 0 {
        PositiveSnapFloors(request.quantity.value, step.value);
      }
    }
  }

  // ----- which filter, and what is left as it was -----

  /** The lot filter that governs a request: MARKET_LOT_SIZE for a market order when the symbol has one,
      and LOT_SIZE in every other case. */
  ghost predicate Governs(lot: LotFilter, request: OrderRequest, filters: Filters) {
    || (request.isMarket && filters.marketLot == Some(lot))
    || ((!request.isMarket || filters.marketLot.None?) && filters.lot == Some(lot))
  }

  /** A quantity that is what the filter makes of the one asked for, and that the filter lets pass. */
  ghost predicate FollowsLot(sent: int, asked: int, lot: LotFilter) {
    && sent > 0 && WithinBounds(sent, lot.minQty, lot.maxQty)
    && (lot.stepSize.Some? && lot.stepSize.value > 0 ==> GreatestMultiple(sent, asked, lot.stepSize.value))
    && (lot.stepSize.None? || lot.stepSize.value == 0 ==> sent == asked)
  }

  /** An accepted market order follows MARKET_LOT_SIZE when there is one; any other accepted order, and
      a market order without that filter, follows LOT_SIZE; without a filter the quantity is sent as it
      was asked for. */
  lemma {:induction false} AcceptedQuantityFollowsLot(request: OrderRequest, filters: Filters, scale: int)
    requires Validated(request, filters, scale).Ok? && request.quantity.Some?
    ensures Validated(request, filters, scale).value.quantity.Some?
    ensures var sent := Validated(request, filters, scale).value.quantity.value;
            && (request.isMarket && filters.marketLot.Some? ==> FollowsLot(sent, request.quantity.value, filters.marketLot.value))
            && (!(request.isMarket && filters.marketLot.Some?) && filters.lot.Some? ==>
                  FollowsLot(sent, request.quantity.value, filters.lot.value))
            && (!(request.isMarket && filters.marketLot.Some?) && filters.lot.None? ==> sent == request.quantity.value > 0)
  {
    AcceptedMeansTradable(request, filters, scale);
  }

  /** A value rounded toward zero to a multiple of the tick. */
  ghost predicate TowardZero(snapped: int, value: int, tick: int)
    requires tick > 0
  {
    && snapped % tick == 0
    && (value >= 0 ==> 0 <= snapped <= value < snapped + tick)
    && (value < 0 ==> snapped - tick < value <= snapped <= 0)
  }

  /** What snapping computes for every value and tick: rounding toward zero, by the size of the tick;
      an absent or zero tick changes nothing. */
  lemma {:induction false} SnapRoundsTowardZero(value: int, tick: Option<int>)
    ensures tick.None? || tick.value == 0 ==> Snap(value, tick) == value
    ensures tick.Some? && tick.value > 0 ==> TowardZero(Snap(value, tick), value, tick.value)
    ensures tick.Some? && tick.value < 0 ==> Snap(value, tick) == Snap(value, Some(-tick.value))
  {
    if tick.Some? && tick.value > 0 {
      PositiveTickRounds(value, tick.value);
    } else if tick.Some? && tick.value < 0 {
      NegativeTickRounds(value, tick.value);
    }
  }

  lemma {:induction false} PositiveTickRounds(value: int, tick: int)
    requires tick > 0
    ensures TowardZero(Snap(value, Some(tick)), value, tick)
  {
    if value >= 0 {
      SnapIsGreatestMultiple(value, tick);
    } else {
      var n := -value;
      SnapIsGreatestMultiple(n, tick);
      var s := Snap(n, Some(tick));
      assert Snap(value, Some(tick)) == -s by {
        assert -(n / tick) * tick == -(n / tick * tick);
      }
      NegatedMultiple(s, tick);
    }
  }

  lemma {:induction false} NegativeTickRounds(value: int, tick: int)
    requires tick < 0
    ensures Snap(value, Some(tick)) == Snap(value, Some(-tick))
  {
    var q := Abs(value) / -tick;
    assert q * tick == -(q * -tick) && -q * tick == q * -tick && -q * -tick == -(q * -tick);
    if value == 0 {
      assert q == 0;
    }
  }

  /** The other fields of an accepted request: the price and the stop price rounded by the price filter's
      tick, or as they were without one; the kind and the quote quantity untouched. */
  lemma {:induction false} AcceptedPricesFollowTick(request: OrderRequest, filters: Filters, scale: int)
    requires Validated(request, filters, scale).Ok?
    ensures var sent := Validated(request, filters, scale).value;
            && sent.isMarket == request.isMarket && sent.quoteOrderQty == request.quoteOrderQty
            && (sent.price.Some? <==> request.price.Some?) && (sent.stopPrice.Some? <==> request.stopPrice.Some?)
            && (sent.quantity.Some? <==> request.quantity.Some?)
            && if filters.price.None? || filters.price.value.tickSize.None? || filters.price.value.tickSize.value == 0 then
                 sent.price == request.price && sent.stopPrice == request.stopPrice
               else filters.price.value.tickSize.value > 0 ==>
                 && (request.price.Some? ==> TowardZero(sent.price.value, request.price.value, filters.price.value.tickSize.value))
                 && (request.stopPrice.Some? ==> TowardZero(sent.stopPrice.value, request.stopPrice.value, filters.price.value.tickSize.value))
  {
    if filters.price.Some? {
      var tick := filters.price.value.tickSize;
      if request.price.Some? { SnapRoundsTowardZero(request.price.value, tick); }
      if request.stopPrice.Some? { SnapRoundsTowardZero(request.stopPrice.value, tick); }
    }
  }

  /** What the exchange's filters ask of a request, said without an order of checks. */
  ghost predicate Tradable(sent: OrderRequest, filters: Filters, scale: int) {
    && (sent.price.Some? ==>
          && sent.price.value > 0
          && (filters.price.Some? ==> WithinBounds(sent.price.value, filters.price.value.minPrice, filters.price.value.maxPrice)))
    && (sent.quantity.Some? ==>
          && sent.quantity.value > 0
          && forall lot :: Governs(lot, sent, filters) ==> WithinBounds(sent.quantity.value, lot.minQty, lot.maxQty))
    && (filters.minNotional.Some? && filters.minNotional.value.Some? && filters.minNotional.value.value != 0 ==>
          if sent.quoteOrderQty.Some? then sent.quoteOrderQty.value * scale >= filters.minNotional.value.value * scale
          else sent.price.Some? && sent.quantity.Some? ==>
                 sent.price.value * sent.quantity.value >= filters.minNotional.value.value * scale)
  }

  /** A request is accepted exactly when what would be sent is tradable, and that is what is sent. */
  lemma {:induction false} AcceptedIffTradable(request: OrderRequest, filters: Filters, scale: int)
    ensures Validated(request, filters, scale).Ok? <==> Tradable(Snapped(request, filters), filters, scale)
    ensures Validated(request, filters, scale).Ok? ==> Validated(request, filters, scale).value == Snapped(request, filters)
  {
    SnappedTwice(request, filters);
  }

  /** The checks run in order: a quantity is rejected only when the price passes, and the notional only
      when both pass. */
  lemma {:induction false} RejectionsInOrder(request: OrderRequest, filters: Filters, scale: int)
    requires Validated(request, filters, scale).Err?
    ensures var e := Validated(request, filters, scale).error;
            var sent := Snapped(request, filters);
            && (PriceVerdict(sent.price, filters.price, None) <==> !(e.PriceNotPositive? || e.PriceBelowMin? || e.PriceAboveMax?))
            && (e.NotionalBelowMin? ==> QuantityVerdict(sent.quantity, LotOf(request, filters), None))
            && ((e.QuantityNotPositive? || e.QuantityBelowMin? || e.QuantityAboveMax?) ==>
                  !QuantityVerdict(sent.quantity, LotOf(request, filters), None))
  {
  }

  /** A rejection names a rule that the snapped request really breaks. */
  lemma {:induction false} RejectionIsTrue(request: OrderRequest, filters: Filters, scale: int)
    requires Validated(request, filters, scale).Err?
    ensures var sent, lot := Snapped(request, filters), LotOf(request, filters);
            match Validated(request, filters, scale).error
            case PriceNotPositive => sent.price.Some? && sent.price.value <= 0
            case PriceBelowMin => sent.price.Some? && filters.price.Some? && filters.price.value.minPrice.Some?
                                  && sent.price.value < filters.price.value.minPrice.value
            case PriceAboveMax => sent.price.Some? && filters.price.Some? && filters.price.value.maxPrice.Some?
                                  && sent.price.value > filters.price.value.maxPrice.value
            case QuantityNotPositive => sent.quantity.Some? && sent.quantity.value <= 0
            case QuantityBelowMin => sent.quantity.Some? && lot.Some? && lot.value.minQty.Some?
                                     && sent.quantity.value < lot.value.minQty.value
            case QuantityAboveMax => sent.quantity.Some? && lot.Some? && lot.value.maxQty.Some?
                                     && sent.quantity.value > lot.value.maxQty.value
            case NotionalBelowMin => Notional(sent, scale).Some? && filters.minNotional.Some? && filters.minNotional.value.Some?
                                     && Notional(sent, scale).value < filters.minNotional.value.value * scale
  {
  }
}
