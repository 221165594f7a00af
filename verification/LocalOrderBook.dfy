/** The local order book: the mutable book object, its reads, and the pure functions that
    specify them. Prices and quantities are integers at one common decimal scale. */
module LocalOrderBooks {
  import opened Prelude

  /** A price, as a count of units of the common scale. */
  datatype Price = Price(units: int)

  datatype Level = Level(price: Price, quantity: int)

  type Side = map<Price, int>

  datatype Snapshot = Snapshot(lastUpdateId: int, bids: seq<Level>, asks: seq<Level>)

  /** A diff-depth event; it covers the update ids firstUpdateId..finalUpdateId. */
  datatype Delta = Delta(firstUpdateId: int, finalUpdateId: int, bids: seq<Level>, asks: seq<Level>)

  /** The observable state of a book at one moment. */
  datatype Book = Book(bids: Side, asks: Side, lastAppliedU: int)

  /** Which end of the price axis is best. */
  datatype Direction = Bid | Ask

  predicate Better(dir: Direction, p: Price, q: Price) {
    if dir.Bid? then p.units > q.units else p.units < q.units
  }

  /** Quantity resting at a price; an absent price rests nothing. */
  function QuantityAt(side: Side, price: Price): int {
    if price in side then side[price] else 0
  }

  // ----- seeding and applying -----

  /** A later entry for the same price overwrites an earlier one. */
  function SeedSide(levels: seq<Level>): Side {
    if levels == [] then map[]
    else
      var last := levels[|levels| - 1];
      SeedSide(levels[..|levels| - 1])[last.price := last.quantity]
  }

  function ApplyLevel(side: Side, level: Level): Side {
    if level.quantity == 0 then side - {level.price} else side[level.price := level.quantity]
  }

  function ApplyLevels(side: Side, levels: seq<Level>): Side {
    if levels == [] then side
    else ApplyLevel(ApplyLevels(side, levels[..|levels| - 1]), levels[|levels| - 1])
  }

  function SeededBook(snapshot: Snapshot): Book {
    Book(SeedSide(snapshot.bids), SeedSide(snapshot.asks), snapshot.lastUpdateId)
  }

  function AppliedBook(book: Book, delta: Delta): Book {
    Book(ApplyLevels(book.bids, delta.bids), ApplyLevels(book.asks, delta.asks), delta.finalUpdateId)
  }

  ghost predicate Listed(levels: seq<Level>, price: Price) {
    exists k :: 0 <= k < |levels| && levels[k].price == price
  }

  /** The quantity of the last level listed for a price. */
  function LastListing(levels: seq<Level>, price: Price): Option<int> {
    if levels == [] then None
    else if levels[|levels| - 1].price == price then Some(levels[|levels| - 1].quantity)
    else LastListing(levels[..|levels| - 1], price)
  }

  lemma {:induction false} LastListingIsListed(levels: seq<Level>, price: Price)
    ensures Listed(levels, price) <==> LastListing(levels, price).Some?
    ensures LastListing(levels, price).Some? ==> Level(price, LastListing(levels, price).value) in levels
  {
    if levels != [] {
      var init, last := levels[..|levels| - 1], levels[|levels| - 1];
      assert levels == init + [last];
      LastListingIsListed(init, price);
      if last.price == price {
        assert levels[|levels| - 1].price == price;
      } else if Listed(init, price) {
        var k :| 0 <= k < |init| && init[k].price == price;
        assert levels[k].price == price;
      }
    }
  }

  /** What applying a list of levels does to one price: the last listing decides, a listed
      zero removes the level, and an unlisted price is untouched. */
  lemma {:induction false} ApplyLevelsAt(side: Side, levels: seq<Level>, price: Price)
    ensures var after, last := ApplyLevels(side, levels), LastListing(levels, price);
            && QuantityAt(after, price) == (if last.Some? then last.value else QuantityAt(side, price))
            && (price in after <==> if last.Some? then last.value != 0 else price in side)
  {
    if levels != [] {
      ApplyLevelsAt(side, levels[..|levels| - 1], price);
    }
  }

  /** No later entry lists the price of the k-th one. */
  ghost predicate LastListed(levels: seq<Level>, k: nat) {
    k < |levels| && forall j :: k < j < |levels| ==> levels[j].price != levels[k].price
  }

  lemma {:induction false} ListedInit(levels: seq<Level>, price: Price)
    requires levels != []
    ensures var n := |levels| - 1;
            Listed(levels, price) <==> levels[n].price == price || Listed(levels[..n], price)
  {
    var n := |levels| - 1;
    assert forall k :: 0 <= k < n ==> levels[..n][k] == levels[k];
    if Listed(levels[..n], price) {
      var k :| 0 <= k < n && levels[..n][k].price == price;
      assert levels[k].price == price;
    }
  }

  lemma {:induction false} LastListedInit(levels: seq<Level>, k: nat)
    requires LastListed(levels, k) && k < |levels| - 1
    ensures LastListed(levels[..|levels| - 1], k) && levels[|levels| - 1].price != levels[k].price
  {
  }

  /** What seeding computes: exactly the listed prices are held, each with the quantity of the last
      entry that lists it. */
  lemma {:induction false} SeedHoldsLastListing(levels: seq<Level>, price: Price)
    ensures price in SeedSide(levels) <==> Listed(levels, price)
    ensures forall k: nat :: LastListed(levels, k) && levels[k].price == price ==>
              price in SeedSide(levels) && SeedSide(levels)[price] == levels[k].quantity
  {
    if levels != [] {
      var n := |levels| - 1;
      SeedHoldsLastListing(levels[..n], price);
      ListedInit(levels, price);
      forall k: nat | LastListed(levels, k) && levels[k].price == price
        ensures price in SeedSide(levels) && SeedSide(levels)[price] == levels[k].quantity
      {
        if k < n {
          LastListedInit(levels, k);
        }
      }
    }
  }

  /** What applying computes, by the entries alone: the last entry for a price sets its quantity or, if
      zero, removes it; a price no entry lists stays as it was. */
  lemma {:induction false} ApplyTakesLastListing(side: Side, levels: seq<Level>, price: Price)
    ensures forall k: nat :: LastListed(levels, k) && levels[k].price == price ==>
              if levels[k].quantity == 0 then price !in ApplyLevels(side, levels)
              else price in ApplyLevels(side, levels) && ApplyLevels(side, levels)[price] == levels[k].quantity
    ensures !Listed(levels, price) ==>
              (price in ApplyLevels(side, levels) <==> price in side)
              && (price in side ==> ApplyLevels(side, levels)[price] == side[price])
  {
    if levels != [] {
      var n := |levels| - 1;
      ApplyTakesLastListing(side, levels[..n], price);
      ListedInit(levels, price);
      forall k: nat | LastListed(levels, k) && levels[k].price == price
        ensures if levels[k].quantity == 0 then price !in ApplyLevels(side, levels)
                else price in ApplyLevels(side, levels) && ApplyLevels(side, levels)[price] == levels[k].quantity
      {
        if k < n {
          LastListedInit(levels, k);
        }
      }
    }
  }

  // ----- ordered reads -----

  lemma {:induction false} BestPriceExists(dir: Direction, prices: set<Price>)
    requires prices != {}
    ensures exists p :: p in prices && forall q :: q in prices ==> !Better(dir, q, p)
  {
    var p :| p in prices;
    var rest := prices - {p};
    if rest != {} {
      BestPriceExists(dir, rest);
      var b :| b in rest && forall q :: q in rest ==> !Better(dir, q, b);
      var best := if Better(dir, p, b) then p else b;
      assert forall q :: q in prices ==> q == p || q in rest;
      assert best in prices && forall q :: q in prices ==> !Better(dir, q, best);
    } else {
      assert prices == {p};
    }
  }

  function BestPrice(dir: Direction, prices: set<Price>): (best: Price)
    requires prices != {}
    ensures best in prices && forall q :: q in prices ==> !Better(dir, q, best)
  {
    BestPriceExists(dir, prices);
    var p :| p in prices && forall q :: q in prices ==> !Better(dir, q, p);
    p
  }

  /** The prices from best to worst. */
  function SortedPrices(dir: Direction, prices: set<Price>): (sorted: seq<Price>)
    ensures |sorted| == |prices|
    ensures forall p :: p in sorted <==> p in prices
    ensures forall i, j :: 0 <= i < j < |sorted| ==> Better(dir, sorted[i], sorted[j])
  {
    if prices == {} then []
    else
      var best := BestPrice(dir, prices);
      var rest := SortedPrices(dir, prices - {best});
      assert forall p :: p in rest ==> Better(dir, best, p);
      [best] + rest
  }

  function TopLevels(dir: Direction, side: Side, n: int): (top: seq<Level>) {
    var prices := Prefix(SortedPrices(dir, side.Keys), n);
    seq(|prices|, i requires 0 <= i < |prices| =>
      assert prices[i] in SortedPrices(dir, side.Keys); Level(prices[i], side[prices[i]]))
  }

  /** What a top-n read shows: the n best levels, or for a negative n all but the |n| worst. Nothing
      left out is better than anything shown. */
  lemma {:induction false} TopLevelsAreBest(dir: Direction, side: Side, n: int)
    ensures var top := TopLevels(dir, side, n);
            && |top| == (if n >= 0 then if n <= |side| then n else |side| else if -n <= |side| then |side| + n else 0)
            && (forall i :: 0 <= i < |top| ==> top[i].price in side && side[top[i].price] == top[i].quantity)
            && (forall i, j :: 0 <= i < j < |top| ==> Better(dir, top[i].price, top[j].price))
            && forall p :: p in side ==>
                 (exists i :: 0 <= i < |top| && top[i].price == p) || forall i :: 0 <= i < |top| ==> Better(dir, top[i].price, p)
  {
    var prices, top := SortedPrices(dir, side.Keys), TopLevels(dir, side, n);
    assert |side.Keys| == |side|;
    forall i | 0 <= i < |top| ensures top[i].price == prices[i] && prices[i] in side && side[top[i].price] == top[i].quantity {
      assert prices[i] in prices;
    }
    forall p | p in side
      ensures (exists i :: 0 <= i < |top| && top[i].price == p) || forall i :: 0 <= i < |top| ==> Better(dir, top[i].price, p)
    {
      assert p in prices;
      var j :| 0 <= j < |prices| && prices[j] == p;
      if j < |top| {
        assert top[j].price == p;
      }
    }
  }

  function BestLevel(dir: Direction, side: Side): Option<Level> {
    if side == map[] then None
    else
      var p := BestPrice(dir, side.Keys); Some(Level(p, side[p]))
  }

  // ----- the mutable book -----

  /** The in-memory book: two dictionaries and the id of the last applied update. */
  class LocalOrderBook {
    var bids: Side
    var asks: Side
    var lastAppliedU: int

    function State(): Book
      reads this
    {
      Book(bids, asks, lastAppliedU)
    }

    constructor ()
      ensures State() == Book(map[], map[], -1)
    {
      bids, asks, lastAppliedU := map[], map[], -1;
    }

    method Seed(snapshot: Snapshot)
      modifies this
      ensures State() == SeededBook(snapshot)
    {
      bids := SeedSide(snapshot.bids);
      asks := SeedSide(snapshot.asks);
      lastAppliedU := snapshot.lastUpdateId;
    }

    method Apply(delta: Delta)
      modifies this
      ensures State() == AppliedBook(old(State()), delta)
    {
      bids := ApplySide(bids, delta.bids);
      asks := ApplySide(asks, delta.asks);
      lastAppliedU := delta.finalUpdateId;
    }

    static method ApplySide(side: Side, levels: seq<Level>) returns (updated: Side)
      ensures updated == ApplyLevels(side, levels)
    {
      updated := side;
      for i := 0 to |levels|
        invariant updated == ApplyLevels(side, levels[..i])
      {
        var level := levels[i];
        assert levels[..i + 1][..i] == levels[..i];
        if level.quantity == 0 {
          updated := updated - {level.price};
        } else {
          updated := updated[level.price := level.quantity];
        }
      }
      assert levels[..|levels|] == levels;
    }

    method BestBid() returns (best: Option<Level>)
      ensures best.None? <==> bids == map[]
      ensures best.Some? ==>
                && best.value.price in bids && bids[best.value.price] == best.value.quantity
                && forall p :: p in bids ==> p.units <= best.value.price.units
      ensures best == BestLevel(Bid, bids)
    {
      best := BestLevel(Bid, bids);
    }

    method BestAsk() returns (best: Option<Level>)
      ensures best.None? <==> asks == map[]
      ensures best.Some? ==>
                && best.value.price in asks && asks[best.value.price] == best.value.quantity
                && forall p :: p in asks ==> best.value.price.units <= p.units
      ensures best == BestLevel(Ask, asks)
    {
      best := BestLevel(Ask, asks);
    }

    method BidsTop(n: int) returns (top: seq<Level>)
      ensures top == TopLevels(Bid, bids, n)
      ensures n >= 0 ==> |top| == Min(n, |bids|)
      ensures forall i, j :: 0 <= i < j < |top| ==> top[i].price.units > top[j].price.units
      ensures forall i :: 0 <= i < |top| ==> top[i].price in bids && bids[top[i].price] == top[i].quantity
    {
      top := TopLevels(Bid, bids, n);
    }

    method AsksTop(n: int) returns (top: seq<Level>)
      ensures top == TopLevels(Ask, asks, n)
      ensures n >= 0 ==> |top| == Min(n, |asks|)
      ensures forall i, j :: 0 <= i < j < |top| ==> top[i].price.units < top[j].price.units
      ensures forall i :: 0 <= i < |top| ==> top[i].price in asks && asks[top[i].price] == top[i].quantity
    {
      top := TopLevels(Ask, asks, n);
    }
  }
}
