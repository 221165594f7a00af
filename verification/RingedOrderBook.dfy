/** The order book fed through the lossy subscription queue. */
module RingedOrderBook {
  import opened LocalOrderBooks
  import opened OrderBookSync
  import opened DepthServer
  import opened Subscription

  /** The diffs the book sees: what was delivered, up to the first sentinel. */
  function Payloads(items: seq<Item<Delta>>): seq<Delta> {
    if items == [] || !items[0].Payload? then [] else [items[0].value] + Payloads(items[1..])
  }

  /** The diffs the socket reader offered, in order. */
  function Diffs(deltas: seq<Delta>): seq<Item<Delta>> {
    seq(|deltas|, k requires 0 <= k < |deltas| => Payload(deltas[k]))
  }

  lemma {:induction false} PayloadsAreItems(items: seq<Item<Delta>>)
    ensures |Payloads(items)| <= |items|
    ensures forall k :: 0 <= k < |Payloads(items)| ==> items[k] == Payload(Payloads(items)[k])
    ensures (forall k :: 0 <= k < |items| ==> items[k].Payload?) ==> |Payloads(items)| == |items|
    ensures |Payloads(items)| < |items| ==> !items[|Payloads(items)|].Payload?
  {
    if items != [] && items[0].Payload? {
      PayloadsAreItems(items[1..]);
    }
  }

  /** The diffs delivered to the book by one interleaving of the reader and the consumer. */
  function Received(ops: seq<Op<Item<Delta>>>, maxsize: int): seq<Delta>
  {
    RingFaithful(ops, maxsize);
    Payloads(Delivered(Interleave(ops, maxsize)))
  }

  lemma {:induction false} ReceivedWereOffered(ops: seq<Op<Item<Delta>>>, maxsize: int)
    ensures var c := Interleave(ops, maxsize);
            && |Received(ops, maxsize)| <= |c.taken|
            && forall k :: 0 <= k < |Received(ops, maxsize)| ==>
                 c.taken[k] < |c.offered| && c.offered[c.taken[k]] == Payload(Received(ops, maxsize)[k])
  {
    RingFaithful(ops, maxsize);
    PayloadsAreItems(Delivered(Interleave(ops, maxsize)));
  }

  /** Whatever the queue dropped, every book the consumer sees is the exchange's. */
  lemma {:induction false} RingedBooksTrackServer(ops: seq<Op<Item<Delta>>>, maxsize: int, snapshots: seq<Snapshot>,
                               server: Server, limit: nat)
    requires WellFormed(server)
    requires forall s :: s in snapshots ==> GenuineSnapshot(s, server, limit)
    requires forall d :: Payload(d) in Interleave(ops, maxsize).offered ==> Genuine(d, server)
    ensures forall e :: e in Sync(snapshots, Received(ops, maxsize)).events ==> Tracks(e.book, e.snapshot, server)
  {
    ReceivedWereOffered(ops, maxsize);
    var deltas := Received(ops, maxsize);
    forall d | d in deltas ensures Genuine(d, server) {
      var k :| 0 <= k < |deltas| && deltas[k] == d;
      assert Payload(d) in Interleave(ops, maxsize).offered;
    }
    BooksTrackServer(snapshots, deltas, server, limit);
  }

  lemma {:induction false} ContiguousFinalIdsIncrease(stream: seq<Delta>, i: nat, j: nat)
    requires Contiguous(stream) && i < j < |stream|
    ensures stream[i].finalUpdateId < stream[j].finalUpdateId
  {
    if i < j - 1 {
      ContiguousFinalIdsIncrease(stream, i, j - 1);
    }
  }

  /** Along a run over diffs of a contiguous stream, an applied diff directly follows either the
      previous diff of the stream or a snapshot that already contains that diff. */
  lemma {:induction false} PreviousDiffAccountedFor(events: seq<Event>, k: nat, stream: seq<Delta>, j: nat)
    requires Contiguous(stream)
    requires Chained(events) && SeedsAreSeeds(events) && events != [] && events[0].Seeded?
    requires forall e :: e in events && e.Applied? ==> e.delta in stream
    requires k < |events| && 0 < j < |stream| && events[k].Applied? && events[k].delta == stream[j]
    ensures k > 0 && events[k - 1].snapshot == events[k].snapshot
    ensures events[k - 1].Seeded? ==> stream[j - 1].finalUpdateId <= events[k].snapshot.lastUpdateId
    ensures events[k - 1].Applied? ==> events[k - 1].delta == stream[j - 1]
  {
    var prev := events[k - 1];
    assert Follows(prev, events[k]);
    if prev.Applied? {
      assert prev in events;
      var i :| 0 <= i < |stream| && stream[i] == prev.delta;
      if k > 1 {
        assert Follows(events[k - 2], prev);
      }
      if i < j - 1 {
        ContiguousFinalIdsIncrease(stream, i, j - 1);
      } else if i > j {
        ContiguousFinalIdsIncrease(stream, j, i);
      }
    }
  }

  /** Within the epoch that event k belongs to, the diff was applied at or before k. */
  ghost predicate AppliedInEpoch(events: seq<Event>, k: nat, delta: Delta)
    requires k < |events|
  {
    events[k].Applied? && (events[k].delta == delta || (k > 0 && AppliedInEpoch(events, k - 1, delta)))
  }

  lemma {:induction false} EpochAppliesItsInputs(events: seq<Event>, k: nat, delta: Delta, deltas: seq<Delta>)
    requires k < |events| && AppliedInEpoch(events, k, delta)
    requires forall e :: e in events && e.Applied? ==> e.delta in deltas
    ensures delta in deltas
  {
    if events[k].delta == delta {
      assert events[k] in events;
    } else {
      EpochAppliesItsInputs(events, k - 1, delta, deltas);
    }
  }

  /** No epoch has a hole: when a diff of the stream is applied, each earlier diff is already in
      the snapshot of that epoch or was applied in that epoch. */
  lemma {:induction false} EpochHasNoHole(events: seq<Event>, k: nat, stream: seq<Delta>, j: nat, i: nat)
    requires Contiguous(stream)
    requires Chained(events) && SeedsAreSeeds(events) && events != [] && events[0].Seeded?
    requires forall e :: e in events && e.Applied? ==> e.delta in stream
    requires k < |events| && i <= j < |stream| && events[k].Applied? && events[k].delta == stream[j]
    ensures stream[i].finalUpdateId <= events[k].snapshot.lastUpdateId || AppliedInEpoch(events, k, stream[i])
    decreases j
  {
    if i < j {
      PreviousDiffAccountedFor(events, k, stream, j);
      if events[k - 1].Applied? {
        EpochHasNoHole(events, k - 1, stream, j - 1, i);
      } else if i < j - 1 {
        ContiguousFinalIdsIncrease(stream, i, j - 1);
      }
    }
  }

  /** However a diff of the stream got lost, in the queue or while the socket was down, and whatever
      was duplicated or reordered: it forces a re-snapshot before any later diff is applied, because
      every epoch that applies a later diff was seeded at or past the lost one. */
  lemma {:induction false} LostDiffForcesResnapshot(snapshots: seq<Snapshot>, deltas: seq<Delta>, stream: seq<Delta>,
                                                    lost: nat, k: nat, j: nat)
    requires Contiguous(stream) && forall d :: d in deltas ==> d in stream
    requires lost < j < |stream| && stream[lost] !in deltas
    requires var events := Sync(snapshots, deltas).events;
             k < |events| && events[k].Applied? && events[k].delta == stream[j]
    ensures stream[lost].finalUpdateId <= Sync(snapshots, deltas).events[k].snapshot.lastUpdateId
  {
    var events := Sync(snapshots, deltas).events;
    SyncChained(snapshots, deltas);
    SyncUsesInputs(snapshots, deltas);
    EpochHasNoHole(events, k, stream, j, lost);
    if AppliedInEpoch(events, k, stream[lost]) {
      EpochAppliesItsInputs(events, k, stream[lost], deltas);
    }
  }

  /** In particular a diff that the queue dropped. */
  lemma {:induction false} DroppedDiffForcesResnapshot(ops: seq<Op<Item<Delta>>>, maxsize: int, snapshots: seq<Snapshot>,
                                    stream: seq<Delta>, dropped: nat, k: nat, j: nat)
    requires Interleave(ops, maxsize).offered == Diffs(stream) && Contiguous(stream)
    requires dropped < j < |stream| && stream[dropped] !in Received(ops, maxsize)
    requires var events := Sync(snapshots, Received(ops, maxsize)).events;
             k < |events| && events[k].Applied? && events[k].delta == stream[j]
    ensures stream[dropped].finalUpdateId <= Sync(snapshots, Received(ops, maxsize)).events[k].snapshot.lastUpdateId
  {
    var deltas := Received(ops, maxsize);
    ReceivedWereOffered(ops, maxsize);
    forall d | d in deltas ensures d in stream {
      var n :| 0 <= n < |deltas| && deltas[n] == d;
      var at := Interleave(ops, maxsize).taken[n];
      assert Diffs(stream)[at] == Payload(stream[at]);
    }
    LostDiffForcesResnapshot(snapshots, deltas, stream, dropped, k, j);
  }

  /** With nothing dropped, the consumer has received a prefix of the stream. */
  lemma {:induction false} UndroppedIsPrefix(ops: seq<Op<Item<Delta>>>, maxsize: int, stream: seq<Delta>)
    requires Interleave(ops, maxsize).offered == Diffs(stream)
    requires Interleave(ops, maxsize).lagged == 0
    ensures Received(ops, maxsize) <= stream
    ensures |Received(ops, maxsize)| == |Interleave(ops, maxsize).taken|
  {
    var c := Interleave(ops, maxsize);
    LosslessIffNeverLagged(ops, maxsize);
    var items := Delivered(c);
    assert items <= Diffs(stream);
    PayloadsAreItems(items);
    forall k | 0 <= k < |Payloads(items)| ensures Payloads(items)[k] == stream[k] {
      assert items[k] == Diffs(stream)[k];
    }
  }

  /** And without a drop none is needed: a contiguous stream that joins the first snapshot is
      followed to its last delivered diff with that one snapshot. */
  lemma {:induction false} UndroppedStreamNeedsOneSnapshot(ops: seq<Op<Item<Delta>>>, maxsize: int,
                                                           snapshots: seq<Snapshot>, stream: seq<Delta>)
    requires Interleave(ops, maxsize).offered == Diffs(stream) && Contiguous(stream)
    requires Interleave(ops, maxsize).lagged == 0 && snapshots != []
    requires stream != [] ==> stream[0].firstUpdateId <= snapshots[0].lastUpdateId + 1
    ensures var t := Sync(snapshots, Received(ops, maxsize));
            && t.ended && Fetches(t.events) == 1
            && FinalId(-1, t.events) == Reached(Received(ops, maxsize), snapshots[0].lastUpdateId)
  {
    var deltas := Received(ops, maxsize);
    UndroppedIsPrefix(ops, maxsize, stream);
    ContiguousPrefix(stream, deltas);
    ContiguousIsCovered(deltas, snapshots[0].lastUpdateId);
    CoveredNeedsOneSnapshot(snapshots, deltas);
  }

  lemma {:induction false} ContiguousPrefix(stream: seq<Delta>, deltas: seq<Delta>)
    requires Contiguous(stream) && deltas <= stream
    ensures Contiguous(deltas)
    ensures deltas != [] ==> deltas[0] == stream[0]
  {
  }
}
