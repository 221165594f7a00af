/** The exchange's own book as a history indexed by update id, and the refinement theorems:
    every book the loop yields is the exchange's book at its last applied id. */
module DepthServer {
  import opened Prelude
  import opened LocalOrderBooks
  import opened OrderBookSync

  /** The side of the exchange's book after each update id. */
  type History = int -> Side

  datatype Server = Server(bids: History, asks: History)

  /** The exchange never rests a zero quantity. */
  ghost predicate WellFormed(server: Server) {
    && (forall id, p :: p in server.bids(id) ==> server.bids(id)[p] != 0)
    && (forall id, p :: p in server.asks(id) ==> server.asks(id)[p] != 0)
  }

  ghost predicate ChangedAt(history: History, id: int, price: Price) {
    QuantityAt(history(id), price) != QuantityAt(history(id - 1), price)
  }

  /** A list of levels is genuine for U..u when it gives the absolute quantity at u of every
      price it lists, and lists every price that changed at some id of U..u. */
  ghost predicate GenuineLevels(levels: seq<Level>, first: int, final: int, history: History) {
    && (forall k :: 0 <= k < |levels| ==> levels[k].quantity == QuantityAt(history(final), levels[k].price))
    && (forall id, p :: first <= id <= final && ChangedAt(history, id, p) ==> Listed(levels, p))
  }

  ghost predicate Genuine(delta: Delta, server: Server) {
    && GenuineLevels(delta.bids, delta.firstUpdateId, delta.finalUpdateId, server.bids)
    && GenuineLevels(delta.asks, delta.firstUpdateId, delta.finalUpdateId, server.asks)
  }

  function ListedPrices(levels: seq<Level>): set<Price> {
    set k | 0 <= k < |levels| :: levels[k].price
  }

  /** A list of levels shows a side truly: the last entry for each listed price is the side's level. */
  ghost predicate Shows(levels: seq<Level>, side: Side) {
    forall k: nat :: LastListed(levels, k) ==> levels[k].price in side && side[levels[k].price] == levels[k].quantity
  }

  /** The best `limit` levels of a side: the exchange's depth reply. */
  ghost predicate BestLevels(dir: Direction, levels: seq<Level>, full: Side, limit: nat) {
    && Shows(levels, full)
    && |ListedPrices(levels)| == Min(limit, |full|)
    && (forall p, q :: p in ListedPrices(levels) && q in full && q !in ListedPrices(levels) ==> Better(dir, p, q))
  }

  ghost predicate GenuineSnapshot(snapshot: Snapshot, server: Server, limit: nat) {
    && BestLevels(Bid, snapshot.bids, server.bids(snapshot.lastUpdateId), limit)
    && BestLevels(Ask, snapshot.asks, server.asks(snapshot.lastUpdateId), limit)
  }

  ghost predicate FullDepth(snapshot: Snapshot, server: Server) {
    && Shows(snapshot.bids, server.bids(snapshot.lastUpdateId))
    && ListedPrices(snapshot.bids) == server.bids(snapshot.lastUpdateId).Keys
    && Shows(snapshot.asks, server.asks(snapshot.lastUpdateId))
    && ListedPrices(snapshot.asks) == server.asks(snapshot.lastUpdateId).Keys
  }

  /** A price the snapshot vouches for: at or better than some listed price, or any price when the
      snapshot listed the whole side. */
  ghost predicate InBand(dir: Direction, listed: set<Price>, full: Side, price: Price) {
    |full| <= |listed| || exists q :: q in listed && !Better(dir, q, price)
  }

  /** Every level held is the exchange's, and inside the band nothing is missing. */
  ghost predicate TracksSide(dir: Direction, held: Side, listed: set<Price>, full: Side, now: Side) {
    && (forall p :: p in held ==> p in now && held[p] == now[p])
    && (forall p :: InBand(dir, listed, full, p) && p in now ==> p in held)
  }

  ghost predicate Tracks(book: Book, snapshot: Snapshot, server: Server) {
    && TracksSide(Bid, book.bids, ListedPrices(snapshot.bids), server.bids(snapshot.lastUpdateId), server.bids(book.lastAppliedU))
    && TracksSide(Ask, book.asks, ListedPrices(snapshot.asks), server.asks(snapshot.lastUpdateId), server.asks(book.lastAppliedU))
  }

  // ----- one step -----

  lemma {:induction false} LastListingExists(levels: seq<Level>, i: nat) returns (k: nat)
    requires i < |levels|
    ensures LastListed(levels, k) && levels[k].price == levels[i].price
    decreases |levels| - i
  {
    if j :| i < j < |levels| && levels[j].price == levels[i].price {
      k := LastListingExists(levels, j);
    } else {
      k := i;
    }
  }

  /** Seeding from a list that shows a side truly holds the listed part of it. */
  lemma {:induction false} SeedIsShown(levels: seq<Level>, full: Side)
    requires Shows(levels, full)
    ensures SeedSide(levels).Keys == ListedPrices(levels)
    ensures forall p :: p in SeedSide(levels) ==> p in full && SeedSide(levels)[p] == full[p]
  {
    forall p
      ensures p in SeedSide(levels) <==> p in ListedPrices(levels)
      ensures p in SeedSide(levels) ==> p in full && SeedSide(levels)[p] == full[p]
    {
      SeedHoldsLastListing(levels, p);
      if p in SeedSide(levels) {
        var i :| 0 <= i < |levels| && levels[i].price == p;
        var k := LastListingExists(levels, i);
      }
    }
  }

  lemma {:induction false} SeedTracks(dir: Direction, levels: seq<Level>, full: Side, limit: nat)
    requires BestLevels(dir, levels, full, limit)
    ensures TracksSide(dir, SeedSide(levels), ListedPrices(levels), full, full)
  {
    var seeded := SeedSide(levels);
    SeedIsShown(levels, full);
    assert |seeded| == |seeded.Keys|;
    if |full| <= |seeded| {
      SubmapOfEqualSize(seeded, full);
    }
  }

  /** A price no id of lo+1..hi changed rests the same quantity at both ends. */
  lemma {:induction false} Unchanged(history: History, price: Price, lo: int, hi: int)
    requires lo <= hi
    requires forall id :: lo < id <= hi ==> !ChangedAt(history, id, price)
    ensures QuantityAt(history(lo), price) == QuantityAt(history(hi), price)
    decreases hi - lo
  {
    if lo < hi {
      Unchanged(history, price, lo, hi - 1);
      assert !ChangedAt(history, hi, price);
    }
  }

  /** Applying a genuine diff that starts no later than the next id moves a tracking side to the
      diff's final id; the ids it overlaps with the past do no harm. */
  lemma {:induction false} ApplyTracks(dir: Direction, held: Side, listed: set<Price>, full: Side, history: History, at: int,
                    levels: seq<Level>, first: int, final: int)
    requires forall id, p :: p in history(id) ==> history(id)[p] != 0
    requires TracksSide(dir, held, listed, full, history(at))
    requires GenuineLevels(levels, first, final, history)
    requires first <= at + 1 <= final
    ensures TracksSide(dir, ApplyLevels(held, levels), listed, full, history(final))
  {
    var after := ApplyLevels(held, levels);
    forall p
      ensures p in after ==> p in history(final) && after[p] == history(final)[p]
      ensures InBand(dir, listed, full, p) && p in history(final) ==> p in after
    {
      ApplyLevelsAt(held, levels, p);
      LastListingIsListed(levels, p);
      if !Listed(levels, p) {
        Unchanged(history, p, at, final);
      }
    }
  }

  lemma {:induction false} SeededTracks(snapshot: Snapshot, server: Server, limit: nat)
    requires GenuineSnapshot(snapshot, server, limit)
    ensures Tracks(SeededBook(snapshot), snapshot, server)
  {
    SeedTracks(Bid, snapshot.bids, server.bids(snapshot.lastUpdateId), limit);
    SeedTracks(Ask, snapshot.asks, server.asks(snapshot.lastUpdateId), limit);
  }

  lemma {:induction false} AppliedTracks(book: Book, delta: Delta, snapshot: Snapshot, server: Server)
    requires WellFormed(server) && Genuine(delta, server)
    requires Tracks(book, snapshot, server)
    requires delta.firstUpdateId <= book.lastAppliedU + 1 <= delta.finalUpdateId
    ensures Tracks(AppliedBook(book, delta), snapshot, server)
  {
    ApplyTracks(Bid, book.bids, ListedPrices(snapshot.bids), server.bids(snapshot.lastUpdateId), server.bids,
                book.lastAppliedU, delta.bids, delta.firstUpdateId, delta.finalUpdateId);
    ApplyTracks(Ask, book.asks, ListedPrices(snapshot.asks), server.asks(snapshot.lastUpdateId), server.asks,
                book.lastAppliedU, delta.asks, delta.firstUpdateId, delta.finalUpdateId);
  }

  // ----- whole runs -----

  lemma {:induction false} EventTracks(events: seq<Event>, k: nat, server: Server, limit: nat)
    requires WellFormed(server)
    requires Chained(events) && SeedsAreSeeds(events)
    requires events != [] ==> events[0].Seeded?
    requires forall e :: e in events ==> GenuineSnapshot(e.snapshot, server, limit)
    requires forall e :: e in events && e.Applied? ==> Genuine(e.delta, server)
    requires k < |events|
    ensures Tracks(events[k].book, events[k].snapshot, server)
  {
    if events[k].Seeded? {
      SeededTracks(events[k].snapshot, server, limit);
    } else {
      EventTracks(events, k - 1, server, limit);
      assert Follows(events[k - 1], events[k]);
      assert events[k] in events;
      AppliedTracks(events[k - 1].book, events[k].delta, events[k].snapshot, server);
    }
  }

  /** Refinement, truncated snapshots: for every exchange history, every snapshot of the best
      `limit` levels and every delivered sequence of genuine diffs, whatever was dropped,
      duplicated or reordered, each level of each yielded book is the exchange's level at
      last_applied_u, and the book is complete inside the seeded band. */
  lemma {:induction false} BooksTrackServer(snapshots: seq<Snapshot>, deltas: seq<Delta>, server: Server, limit: nat)
    requires WellFormed(server)
    requires forall s :: s in snapshots ==> GenuineSnapshot(s, server, limit)
    requires forall d :: d in deltas ==> Genuine(d, server)
    ensures forall e :: e in Sync(snapshots, deltas).events ==> Tracks(e.book, e.snapshot, server)
  {
    var events := Sync(snapshots, deltas).events;
    SyncChained(snapshots, deltas);
    SyncUsesInputs(snapshots, deltas);
    forall e | e in events ensures Tracks(e.book, e.snapshot, server) {
      var k :| 0 <= k < |events| && events[k] == e;
      EventTracks(events, k, server, limit);
    }
  }

  ghost function Depth(snapshot: Snapshot, server: Server): nat {
    |server.bids(snapshot.lastUpdateId)| + |server.asks(snapshot.lastUpdateId)|
  }

  ghost function MaxDepth(snapshots: seq<Snapshot>, server: Server): (m: nat)
    ensures forall s :: s in snapshots ==> Depth(s, server) <= m
  {
    if snapshots == [] then 0
    else Max(Depth(snapshots[0], server), MaxDepth(snapshots[1..], server))
  }

  lemma {:induction false} FullIsBest(dir: Direction, levels: seq<Level>, full: Side, limit: nat)
    requires Shows(levels, full) && ListedPrices(levels) == full.Keys && |full| <= limit
    ensures BestLevels(dir, levels, full, limit)
  {
    assert |full.Keys| == |full|;
  }

  /** Refinement, full-depth snapshots: every yielded book equals the exchange's book at
      last_applied_u. */
  lemma {:induction false} BooksEqualServer(snapshots: seq<Snapshot>, deltas: seq<Delta>, server: Server)
    requires WellFormed(server)
    requires forall s :: s in snapshots ==> FullDepth(s, server)
    requires forall d :: d in deltas ==> Genuine(d, server)
    ensures forall e :: e in Sync(snapshots, deltas).events ==>
              && e.book.bids == server.bids(e.book.lastAppliedU)
              && e.book.asks == server.asks(e.book.lastAppliedU)
  {
    var limit := MaxDepth(snapshots, server);
    forall s | s in snapshots ensures GenuineSnapshot(s, server, limit) {
      assert Depth(s, server) <= limit && FullDepth(s, server);
      FullIsBest(Bid, s.bids, server.bids(s.lastUpdateId), limit);
      FullIsBest(Ask, s.asks, server.asks(s.lastUpdateId), limit);
    }
    BooksTrackServer(snapshots, deltas, server, limit);
    SyncUsesInputs(snapshots, deltas);
    forall e | e in Sync(snapshots, deltas).events
      ensures e.book.bids == server.bids(e.book.lastAppliedU)
      ensures e.book.asks == server.asks(e.book.lastAppliedU)
    {
      assert FullDepth(e.snapshot, server) && Tracks(e.book, e.snapshot, server);
      WholeBandIsEverything(Bid, e.book.bids, ListedPrices(e.snapshot.bids), server.bids(e.snapshot.lastUpdateId), server.bids(e.book.lastAppliedU));
      WholeBandIsEverything(Ask, e.book.asks, ListedPrices(e.snapshot.asks), server.asks(e.snapshot.lastUpdateId), server.asks(e.book.lastAppliedU));
    }
  }

  lemma {:induction false} WholeBandIsEverything(dir: Direction, held: Side, listed: set<Price>, full: Side, now: Side)
    requires TracksSide(dir, held, listed, full, now) && listed == full.Keys
    ensures held == now
  {
    assert |full.Keys| == |full|;
    assert forall p :: InBand(dir, listed, full, p);
    assert held.Keys == now.Keys;
  }

  // ----- what a reader of the truncated book sees -----

  ghost predicate Sorted(dir: Direction, prices: seq<Price>) {
    forall i, j :: 0 <= i < j < |prices| ==> Better(dir, prices[i], prices[j])
  }

  /** When xs misses no price of ys at or better than its own m-th best, the two lists share
      their first m entries. */
  lemma {:induction false} SortedPrefixAgrees(dir: Direction, xs: seq<Price>, ys: seq<Price>, m: nat)
    requires Sorted(dir, xs) && Sorted(dir, ys) && m <= |xs|
    requires forall x :: x in xs ==> x in ys
    requires m > 0 ==> forall y :: y in ys && !Better(dir, xs[m - 1], y) ==> y in xs
    ensures m <= |ys|
    ensures forall i :: 0 <= i < m ==> xs[i] == ys[i]
  {
    if m > 0 {
      var last := m - 1;
      SortedPrefixAgrees(dir, xs, ys, last);
      assert xs[last] in ys;
      var j :| 0 <= j < |ys| && ys[j] == xs[last];
      assert j >= last;
      assert !Better(dir, xs[last], ys[last]);
      assert ys[last] in ys;
      var k :| 0 <= k < |xs| && xs[k] == ys[last];
      assert k >= last;
    }
  }

  /** The list holds, in order, the first prices of xs with the quantities resting there. */
  ghost predicate Lists(side: Side, xs: seq<Price>, top: seq<Level>) {
    && |top| <= |xs|
    && forall i :: 0 <= i < |top| ==> xs[i] in side && top[i] == Level(xs[i], side[xs[i]])
  }

  lemma {:induction false} TopLists(dir: Direction, side: Side, n: int)
    ensures Lists(side, SortedPrices(dir, side.Keys), TopLevels(dir, side, n))
    ensures n >= 0 ==> |TopLevels(dir, side, n)| == Min(n, |SortedPrices(dir, side.Keys)|)
  {
    var prices := SortedPrices(dir, side.Keys);
    forall i | 0 <= i < |TopLevels(dir, side, n)|
      ensures Prefix(prices, n)[i] == prices[i] && prices[i] in side
    {
      assert prices[i] in prices;
    }
  }

  /** Any top-n list lying inside the band is the exchange's own list of that length, in strict
      price order; with n = 1 this is the best bid or ask. */
  lemma {:induction false} TopInsideBandIsServers(dir: Direction, held: Side, listed: set<Price>, full: Side, now: Side, n: int)
    requires TracksSide(dir, held, listed, full, now)
    requires forall l :: l in TopLevels(dir, held, n) ==> InBand(dir, listed, full, l.price)
    ensures TopLevels(dir, held, n) == TopLevels(dir, now, |TopLevels(dir, held, n)|)
    ensures StrictlyOrdered(dir, TopLevels(dir, held, n))
  {
    var top := TopLevels(dir, held, n);
    var m := |top|;
    var xs, ys := SortedPrices(dir, held.Keys), SortedPrices(dir, now.Keys);
    TopLists(dir, held, n);
    TopLists(dir, now, m);
    ListsAreOrdered(dir, held, xs, top);
    if m > 0 {
      assert top[m - 1] in top;
      NothingBetterIsMissing(dir, held, listed, full, now, xs[m - 1]);
    }
    SortedPrefixAgrees(dir, xs, ys, m);
    SameLists(held, now, xs, ys, top, TopLevels(dir, now, m));
  }

  ghost predicate StrictlyOrdered(dir: Direction, top: seq<Level>) {
    forall i, j :: 0 <= i < j < |top| ==> Better(dir, top[i].price, top[j].price)
  }

  lemma {:induction false} ListsAreOrdered(dir: Direction, side: Side, xs: seq<Price>, top: seq<Level>)
    requires Lists(side, xs, top) && Sorted(dir, xs)
    ensures StrictlyOrdered(dir, top)
  {
  }

  /** Down to a price inside the band, the book holds every price of the exchange. */
  lemma {:induction false} NothingBetterIsMissing(dir: Direction, held: Side, listed: set<Price>, full: Side, now: Side, worst: Price)
    requires TracksSide(dir, held, listed, full, now) && InBand(dir, listed, full, worst)
    ensures forall p :: p in now && !Better(dir, worst, p) ==> p in held
  {
    forall p | p in now && !Better(dir, worst, p) ensures p in held {
      BandIsUpward(dir, listed, full, worst, p);
    }
  }

  lemma {:induction false} SameLists(held: Side, now: Side, xs: seq<Price>, ys: seq<Price>, top: seq<Level>, topNow: seq<Level>)
    requires Lists(held, xs, top) && Lists(now, ys, topNow) && |top| == |topNow|
    requires forall p :: p in held ==> p in now && held[p] == now[p]
    requires forall i :: 0 <= i < |top| ==> xs[i] == ys[i]
    ensures top == topNow
  {
  }

  lemma {:induction false} BandIsUpward(dir: Direction, listed: set<Price>, full: Side, q: Price, p: Price)
    requires InBand(dir, listed, full, q) && !Better(dir, q, p)
    ensures InBand(dir, listed, full, p)
  {
    if !(|full| <= |listed|) {
      var w :| w in listed && !Better(dir, w, q);
      assert !Better(dir, w, p);
    }
  }

  /** So a best level read inside the band is the exchange's best level. */
  lemma {:induction false} BestInsideBandIsServers(dir: Direction, held: Side, listed: set<Price>, full: Side, now: Side)
    requires TracksSide(dir, held, listed, full, now)
    requires held != map[]
    requires InBand(dir, listed, full, BestLevel(dir, held).value.price)
    ensures BestLevel(dir, held) == BestLevel(dir, now)
  {
    var p := BestPrice(dir, held.Keys);
    assert p in now;
    var q := BestPrice(dir, now.Keys);
    assert !Better(dir, p, q);
    BandIsUpward(dir, listed, full, p, q);
    assert q in held;
  }
}
