/** The synchronisation loop of the local order book: seed from a snapshot, drop stale diffs,
    check that the first one brackets the snapshot, apply, and re-snapshot on a gap. */
module OrderBookSync {
  import opened Prelude
  import opened LocalOrderBooks

  /** One yield of the loop. The snapshot that seeded the current epoch is kept beside the book. */
  datatype Event =
    | Seeded(snapshot: Snapshot, book: Book)
    | Applied(snapshot: Snapshot, delta: Delta, book: Book)

  datatype Verdict = Stale | Gap | Fits

  /** What the loop body decides about one diff. */
  function Judge(lastU: int, first: bool, delta: Delta): Verdict {
    if delta.finalUpdateId <= lastU then Stale
    else if first then
      if delta.firstUpdateId <= lastU + 1 <= delta.finalUpdateId then Fits else Gap
    else if delta.firstUpdateId > lastU + 1 then Gap
    else Fits
  }

  /** The loop from its top: fetch a snapshot, yield the seeded book, consume diffs. */
  function Sync(snapshots: seq<Snapshot>, deltas: seq<Delta>): Trace<Event>
    decreases |deltas|, 1
  {
    if snapshots == [] then Trace([], false)
    else
      var book := SeededBook(snapshots[0]);
      var rest := Drive(snapshots[0], book, true, snapshots[1..], deltas);
      Trace([Seeded(snapshots[0], book)] + rest.events, rest.ended)
  }

  /** The loop from the top of its inner iteration. */
  function Drive(snapshot: Snapshot, book: Book, first: bool, snapshots: seq<Snapshot>, deltas: seq<Delta>): Trace<Event>
    decreases |deltas|, 0
  {
    if deltas == [] then Trace([], true)
    else
      match Judge(book.lastAppliedU, first, deltas[0])
      case Stale => Drive(snapshot, book, first, snapshots, deltas[1..])
      case Gap => Sync(snapshots, deltas[1..])
      case Fits =>
        var next := AppliedBook(book, deltas[0]);
        var rest := Drive(snapshot, next, false, snapshots, deltas[1..]);
        Trace([Applied(snapshot, deltas[0], next)] + rest.events, rest.ended)
  }

  /** The generator itself. The k-th call of the depth provider returns snapshots[k]; a call
      beyond the end of that sequence raises. */
  method Run(snapshots: seq<Snapshot>, deltas: seq<Delta>) returns (events: seq<Event>, ended: bool)
    ensures Trace(events, ended) == Sync(snapshots, deltas)
  {
    ghost var total := Sync(snapshots, deltas);
    events := [];
    var calls, i := 0, 0;
    while true
      invariant 0 <= calls <= |snapshots| && 0 <= i <= |deltas|
      invariant Completes(events, Sync(snapshots[calls..], deltas[i..]), total)
      decreases |deltas| - i, |snapshots| - calls
    {
      if calls == |snapshots| {
        return events, false;
      }
      var snapshot := snapshots[calls];
      calls := calls + 1;
      assert snapshots[calls - 1..][1..] == snapshots[calls..];
      var book := new LocalOrderBook();
      book.Seed(snapshot);
      var lastU := snapshot.lastUpdateId;
      var first, gap := true, false;
      CompletesAfterYield(events, Seeded(snapshot, book.State()),
                          Drive(snapshot, book.State(), true, snapshots[calls..], deltas[i..]), total);
      events := events + [Seeded(snapshot, book.State())];
      while i < |deltas|
        invariant 0 <= i <= |deltas| && !gap
        invariant lastU == book.lastAppliedU
        invariant Completes(events, Drive(snapshot, book.State(), first, snapshots[calls..], deltas[i..]), total)
      {
        var delta := deltas[i];
        i := i + 1;
        assert deltas[i - 1..][1..] == deltas[i..];
        if delta.finalUpdateId <= lastU {
          continue;
        }
        if first {
          if !(delta.firstUpdateId <= lastU + 1 <= delta.finalUpdateId) {
            gap := true;
            break;
          }
          first := false;
        } else if delta.firstUpdateId > lastU + 1 {
          gap := true;
          break;
        }
        book.Apply(delta);
        CompletesAfterYield(events, Applied(snapshot, delta, book.State()),
                            Drive(snapshot, book.State(), false, snapshots[calls..], deltas[i..]), total);
        lastU := book.lastAppliedU;
        events := events + [Applied(snapshot, delta, book.State())];
      }
      if !gap {
        return events, true;
      }
    }
  }

  // ----- the shape of a run -----

  /** Once stale diffs are dropped the bracket check and the gap check are one test. */
  lemma {:induction false} JudgeIgnoresFirst(lastU: int, delta: Delta)
    ensures Judge(lastU, true, delta) == Judge(lastU, false, delta)
    ensures forall first :: Judge(lastU, first, delta) == Stale <==> delta.finalUpdateId <= lastU
    ensures forall first :: Judge(lastU, first, delta) == Gap <==> delta.finalUpdateId > lastU && delta.firstUpdateId > lastU + 1
  {
  }

  /** Event b may directly follow event a. */
  ghost predicate Follows(a: Event, b: Event) {
    b.Applied? ==>
      && b.snapshot == a.snapshot
      && a.book.lastAppliedU < b.book.lastAppliedU
      && b.delta.firstUpdateId <= a.book.lastAppliedU + 1 <= b.delta.finalUpdateId == b.book.lastAppliedU
      && b.book == AppliedBook(a.book, b.delta)
  }

  ghost predicate Chained(events: seq<Event>) {
    forall k :: 0 < k < |events| ==> Follows(events[k - 1], events[k])
  }

  ghost predicate SeedsAreSeeds(events: seq<Event>) {
    forall k :: 0 <= k < |events| && events[k].Seeded? ==> events[k].book == SeededBook(events[k].snapshot)
  }

  /** Prepending an event keeps a chain when the old first event may follow it. */
  lemma {:induction false} ChainCons(head: Event, tail: seq<Event>)
    requires Chained(tail) && (tail != [] ==> Follows(head, tail[0]))
    ensures Chained([head] + tail)
  {
    var all := [head] + tail;
    forall k | 0 < k < |all| ensures Follows(all[k - 1], all[k]) {
      assert all[k] == tail[k - 1];
    }
  }

  /** Along any run, whatever arrives: each applied diff extends the book of the yield before it,
      so within an epoch the last applied id strictly increases. */
  lemma {:induction false} SyncChained(snapshots: seq<Snapshot>, deltas: seq<Delta>)
    ensures Chained(Sync(snapshots, deltas).events)
    ensures SeedsAreSeeds(Sync(snapshots, deltas).events)
    ensures Sync(snapshots, deltas).events != [] ==> Sync(snapshots, deltas).events[0].Seeded?
    decreases |deltas|, 1
  {
    if snapshots != [] {
      var seed := Seeded(snapshots[0], SeededBook(snapshots[0]));
      DriveChained(seed, true, snapshots[1..], deltas);
      ChainCons(seed, Drive(seed.snapshot, seed.book, true, snapshots[1..], deltas).events);
    }
  }

  lemma {:induction false} DriveChained(prev: Event, first: bool, snapshots: seq<Snapshot>, deltas: seq<Delta>)
    ensures var events := Drive(prev.snapshot, prev.book, first, snapshots, deltas).events;
            Chained(events) && SeedsAreSeeds(events) && (events != [] ==> Follows(prev, events[0]))
    decreases |deltas|, 0
  {
    if deltas != [] {
      match Judge(prev.book.lastAppliedU, first, deltas[0])
      case Stale => DriveChained(prev, first, snapshots, deltas[1..]);
      case Gap => SyncChained(snapshots, deltas[1..]);
      case Fits =>
        var next := Applied(prev.snapshot, deltas[0], AppliedBook(prev.book, deltas[0]));
        DriveChained(next, false, snapshots, deltas[1..]);
        ChainCons(next, Drive(next.snapshot, next.book, false, snapshots, deltas[1..]).events);
    }
  }

  /** Every snapshot used is one the provider returned, and every diff applied is one the stream
      delivered. */
  lemma {:induction false} SyncUsesInputs(snapshots: seq<Snapshot>, deltas: seq<Delta>)
    ensures forall e :: e in Sync(snapshots, deltas).events ==>
              e.snapshot in snapshots && (e.Applied? ==> e.delta in deltas)
    decreases |deltas|, 1
  {
    if snapshots != [] {
      DriveUsesInputs(snapshots[0], SeededBook(snapshots[0]), true, snapshots[1..], deltas);
    }
  }

  lemma {:induction false} DriveUsesInputs(snapshot: Snapshot, book: Book, first: bool, snapshots: seq<Snapshot>, deltas: seq<Delta>)
    ensures forall e :: e in Drive(snapshot, book, first, snapshots, deltas).events ==>
              (e.snapshot == snapshot || e.snapshot in snapshots) && (e.Applied? ==> e.delta in deltas)
    decreases |deltas|, 0
  {
    if deltas != [] {
      match Judge(book.lastAppliedU, first, deltas[0])
      case Stale => DriveUsesInputs(snapshot, book, first, snapshots, deltas[1..]);
      case Gap => SyncUsesInputs(snapshots, deltas[1..]);
      case Fits =>
        DriveUsesInputs(snapshot, AppliedBook(book, deltas[0]), false, snapshots, deltas[1..]);
    }
  }

  function Fetches(events: seq<Event>): nat {
    if events == [] then 0 else (if events[0].Seeded? then 1 else 0) + Fetches(events[1..])
  }

  lemma {:induction false} FetchesCons(e: Event, events: seq<Event>)
    ensures Fetches([e] + events) == (if e.Seeded? then 1 else 0) + Fetches(events)
  {
    assert ([e] + events)[1..] == events;
  }

  /** A finite stream ends with at most one snapshot more than its diffs; indeed snapshots and
      applied diffs together are at most one more than the diffs, so a provider that can answer
      that often never fails the run. */
  lemma {:induction false} SnapshotsBounded(snapshots: seq<Snapshot>, deltas: seq<Delta>)
    ensures var t := Sync(snapshots, deltas);
            |t.events| <= |deltas| + 1 && Fetches(t.events) <= |t.events|
            && Fetches(t.events) <= |snapshots|
            && (!t.ended ==> Fetches(t.events) == |snapshots| <= |deltas|)
    decreases |deltas|, 1
  {
    if snapshots != [] {
      var book := SeededBook(snapshots[0]);
      DriveSnapshotsBounded(snapshots[0], book, true, snapshots[1..], deltas);
      FetchesCons(Seeded(snapshots[0], book), Drive(snapshots[0], book, true, snapshots[1..], deltas).events);
    }
  }

  lemma {:induction false} DriveSnapshotsBounded(snapshot: Snapshot, book: Book, first: bool, snapshots: seq<Snapshot>, deltas: seq<Delta>)
    ensures var t := Drive(snapshot, book, first, snapshots, deltas);
            |t.events| <= |deltas| && Fetches(t.events) <= |t.events|
            && Fetches(t.events) <= |snapshots|
            && (!t.ended ==> Fetches(t.events) == |snapshots| < |deltas|)
    decreases |deltas|, 0
  {
    if deltas != [] {
      match Judge(book.lastAppliedU, first, deltas[0])
      case Stale => DriveSnapshotsBounded(snapshot, book, first, snapshots, deltas[1..]);
      case Gap => SnapshotsBounded(snapshots, deltas[1..]);
      case Fits =>
        var next := AppliedBook(book, deltas[0]);
        DriveSnapshotsBounded(snapshot, next, false, snapshots, deltas[1..]);
        FetchesCons(Applied(snapshot, deltas[0], next), Drive(snapshot, next, false, snapshots, deltas[1..]).events);
    }
  }

  // ----- exactly when a re-snapshot happens -----

  /** No diff starts beyond the id reached so far. */
  predicate Covered(deltas: seq<Delta>, reach: int)
    decreases |deltas|
  {
    deltas == [] ||
    (if deltas[0].finalUpdateId <= reach then Covered(deltas[1..], reach)
     else deltas[0].firstUpdateId <= reach + 1 && Covered(deltas[1..], deltas[0].finalUpdateId))
  }

  function Reached(deltas: seq<Delta>, reach: int): int
    decreases |deltas|
  {
    if deltas == [] then reach else Reached(deltas[1..], Max(reach, deltas[0].finalUpdateId))
  }

  /** The id of the last yielded book. */
  function FinalId(start: int, events: seq<Event>): int {
    if events == [] then start else events[|events| - 1].book.lastAppliedU
  }

  /** The epoch seeded so far survives the remaining diffs exactly when they are covered, and
      then the book ends at the furthest id seen. */
  lemma {:induction false} ResyncExactlyWhenUncovered(snapshot: Snapshot, book: Book, first: bool, snapshots: seq<Snapshot>, deltas: seq<Delta>)
    ensures var t := Drive(snapshot, book, first, snapshots, deltas);
            && (t.ended && Fetches(t.events) == 0 <==> Covered(deltas, book.lastAppliedU))
            && (Covered(deltas, book.lastAppliedU) ==>
                  FinalId(book.lastAppliedU, t.events) == Reached(deltas, book.lastAppliedU))
    decreases |deltas|
  {
    if deltas != [] {
      match Judge(book.lastAppliedU, first, deltas[0])
      case Stale => ResyncExactlyWhenUncovered(snapshot, book, first, snapshots, deltas[1..]);
      case Gap =>
        if snapshots != [] {
          var again := Seeded(snapshots[0], SeededBook(snapshots[0]));
          FetchesCons(again, Drive(again.snapshot, again.book, true, snapshots[1..], deltas[1..]).events);
        }
      case Fits =>
        var next := AppliedBook(book, deltas[0]);
        ResyncExactlyWhenUncovered(snapshot, next, false, snapshots, deltas[1..]);
        FetchesCons(Applied(snapshot, deltas[0], next), Drive(snapshot, next, false, snapshots, deltas[1..]).events);
    }
  }

  /** Each diff starts right after the one before it ends. */
  ghost predicate Contiguous(deltas: seq<Delta>) {
    && (forall k :: 0 <= k < |deltas| ==> deltas[k].firstUpdateId <= deltas[k].finalUpdateId)
    && (forall k :: 0 < k < |deltas| ==> deltas[k].firstUpdateId == deltas[k - 1].finalUpdateId + 1)
  }

  lemma {:induction false} ContiguousIsCovered(deltas: seq<Delta>, reach: int)
    requires Contiguous(deltas)
    requires deltas != [] ==> deltas[0].firstUpdateId <= reach + 1
    ensures Covered(deltas, reach)
    ensures deltas != [] ==> deltas[0].finalUpdateId <= deltas[|deltas| - 1].finalUpdateId
    ensures Reached(deltas, reach) == if deltas == [] then reach else Max(reach, deltas[|deltas| - 1].finalUpdateId)
    decreases |deltas|
  {
    if deltas != [] {
      ContiguousIsCovered(deltas[1..], Max(reach, deltas[0].finalUpdateId));
    }
  }

  lemma {:induction false} FinalIdCons(start: int, e: Event, events: seq<Event>)
    ensures FinalId(start, [e] + events) == FinalId(e.book.lastAppliedU, events)
  {
  }

  /** A run over covered diffs uses one snapshot. */
  lemma {:induction false} CoveredNeedsOneSnapshot(snapshots: seq<Snapshot>, deltas: seq<Delta>)
    requires snapshots != [] && Covered(deltas, snapshots[0].lastUpdateId)
    ensures var t := Sync(snapshots, deltas);
            && t.ended && Fetches(t.events) == 1
            && forall start :: FinalId(start, t.events) == Reached(deltas, snapshots[0].lastUpdateId)
  {
    var seed := Seeded(snapshots[0], SeededBook(snapshots[0]));
    var tail := Drive(snapshots[0], seed.book, true, snapshots[1..], deltas).events;
    ResyncExactlyWhenUncovered(snapshots[0], seed.book, true, snapshots[1..], deltas);
    FetchesCons(seed, tail);
    forall start ensures FinalId(start, [seed] + tail) == FinalId(seed.book.lastAppliedU, tail) {
      FinalIdCons(start, seed, tail);
    }
  }

  /** Healing: when the fresh snapshot is at or past the diff that triggered it and the stream
      continues without holes, there is no further re-snapshot and the book ends at the later of
      the snapshot id and the last diff's id. */
  lemma {:induction false} ResyncHeals(trigger: Delta, snapshots: seq<Snapshot>, rest: seq<Delta>)
    requires snapshots != []
    requires trigger.finalUpdateId <= snapshots[0].lastUpdateId
    requires Contiguous(rest)
    requires rest != [] ==> rest[0].firstUpdateId == trigger.finalUpdateId + 1
    ensures Sync(snapshots, rest).ended && Fetches(Sync(snapshots, rest).events) == 1
    ensures FinalId(trigger.finalUpdateId, Sync(snapshots, rest).events) ==
            if rest == [] then snapshots[0].lastUpdateId
            else Max(snapshots[0].lastUpdateId, rest[|rest| - 1].finalUpdateId)
  {
    ContiguousIsCovered(rest, snapshots[0].lastUpdateId);
    CoveredNeedsOneSnapshot(snapshots, rest);
  }
}
