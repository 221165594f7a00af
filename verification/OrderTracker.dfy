/** The tracker loop: seed from REST, apply reports, re-seed whenever a reconnect is signalled. */
module OrderTracker {
  import opened Prelude
  import opened OrderViews

  /** What the event iterator carries; anything that is not an execution report is ignored. */
  datatype Event = Reconnected | Report(report: ExecutionReport) | Unrecognised

  /** The loop from its top. The k-th call of the open-orders provider returns snapshots[k]; a
      call beyond the end of that sequence raises. */
  function Track(snapshots: seq<seq<Order>>, events: seq<Event>): Trace<View>
    decreases |events|, 1
  {
    if snapshots == [] then Trace([], false)
    else
      var view := SeededView(snapshots[0]);
      var rest := Follow(view, snapshots[1..], events);
      Trace([view] + rest.events, rest.ended)
  }

  function Follow(view: View, snapshots: seq<seq<Order>>, events: seq<Event>): Trace<View>
    decreases |events|, 0
  {
    if events == [] then Trace([], true)
    else
      match events[0]
      case Reconnected => Track(snapshots, events[1..])
      case Unrecognised => Follow(view, snapshots, events[1..])
      case Report(report) =>
        var next := AppliedView(view, report);
        var rest := Follow(next, snapshots, events[1..]);
        Trace([next] + rest.events, rest.ended)
  }

  method Run(snapshots: seq<seq<Order>>, events: seq<Event>) returns (views: seq<View>, ended: bool)
    ensures Trace(views, ended) == Track(snapshots, events)
  {
    ghost var total := Track(snapshots, events);
    views := [];
    var calls, i := 0, 0;
    while true
      invariant 0 <= calls <= |snapshots| && 0 <= i <= |events|
      invariant Completes(views, Track(snapshots[calls..], events[i..]), total)
      decreases |events| - i, |snapshots| - calls
    {
      var view := new LocalOrderView();
      if calls == |snapshots| {
        return views, false;
      }
      view.Seed(snapshots[calls]);
      calls := calls + 1;
      assert snapshots[calls - 1..][1..] == snapshots[calls..];
      CompletesAfterYield(views, view.orders, Follow(view.orders, snapshots[calls..], events[i..]), total);
      views := views + [view.orders];
      var reconnected := false;
      while i < |events|
        invariant 0 <= i <= |events| && !reconnected
        invariant Completes(views, Follow(view.orders, snapshots[calls..], events[i..]), total)
      {
        var event := events[i];
        i := i + 1;
        assert events[i - 1..][1..] == events[i..];
        if event == Reconnected {
          reconnected := true;
          break;
        }
        if event.Report? {
          view.Apply(event.report);
          CompletesAfterYield(views, view.orders, Follow(view.orders, snapshots[calls..], events[i..]), total);
          views := views + [view.orders];
        }
      }
      if !reconnected {
        return views, true;
      }
    }
  }

  // ----- what a run ends with -----

  /** The events after the last reconnect signal. */
  function SinceReconnect(events: seq<Event>): seq<Event> {
    if events == [] then []
    else if events[|events| - 1].Reconnected? then []
    else SinceReconnect(events[..|events| - 1]) + [events[|events| - 1]]
  }

  function Signals(events: seq<Event>): nat {
    if events == [] then 0 else (if events[0].Reconnected? then 1 else 0) + Signals(events[1..])
  }

  /** The loop calls the provider once at the start and once per reconnect signal, and no more. */
  lemma {:induction false} OneSeedPerReconnect(snapshots: seq<seq<Order>>, events: seq<Event>)
    ensures Track(snapshots, events).ended <==> Signals(events) < |snapshots|
    ensures Track(snapshots, events).ended ==> Track(snapshots, events).events != []
    decreases |events|, 1
  {
    if snapshots != [] {
      OneSeedPerReconnectFrom(SeededView(snapshots[0]), snapshots[1..], events);
    }
  }

  lemma {:induction false} OneSeedPerReconnectFrom(view: View, snapshots: seq<seq<Order>>, events: seq<Event>)
    ensures Follow(view, snapshots, events).ended <==> Signals(events) <= |snapshots|
    decreases |events|, 0
  {
    if events != [] {
      match events[0]
      case Reconnected => OneSeedPerReconnect(snapshots, events[1..]);
      case Unrecognised => OneSeedPerReconnectFrom(view, snapshots, events[1..]);
      case Report(report) => OneSeedPerReconnectFrom(AppliedView(view, report), snapshots, events[1..]);
    }
  }

  /** The view most recently yielded. */
  function Current(view: View, views: seq<View>): View {
    if views == [] then view else views[|views| - 1]
  }

  /** The run over one more event, from the run over the events before it. */
  function Extended(view: View, before: Trace<View>, event: Event): Trace<View> {
    match event
    case Reconnected => Trace(before.events, false)
    case Unrecognised => before
    case Report(report) => Trace(before.events + [AppliedView(Current(view, before.events), report)], true)
  }

  lemma {:induction false} FollowOneMoreEvent(view: View, snapshots: seq<seq<Order>>, events: seq<Event>, event: Event)
    requires Signals(events) == |snapshots|
    ensures Follow(view, snapshots, events + [event]) == Extended(view, Follow(view, snapshots, events), event)
    decreases |events|
  {
    OneSeedPerReconnectFrom(view, snapshots, events);
    if events == [] {
      assert [] + [event] == [event];
      assert Follow(view, [], [event][1..]) == Trace([], true);
    } else {
      assert (events + [event])[1..] == events[1..] + [event];
      match events[0]
      case Unrecognised => FollowOneMoreEvent(view, snapshots, events[1..], event);
      case Report(report) =>
        FollowOneMoreEvent(AppliedView(view, report), snapshots, events[1..], event);
      case Reconnected =>
        FollowOneMoreEvent(SeededView(snapshots[0]), snapshots[1..], events[1..], event);
    }
  }

  /** A run that has answered every signal so far goes on by exactly one step per event. */
  lemma {:induction false} TrackOneMoreEvent(snapshots: seq<seq<Order>>, events: seq<Event>, event: Event)
    requires |snapshots| == Signals(events) + 1
    ensures Track(snapshots, events).events != []
    ensures Track(snapshots, events + [event]) == Extended(map[], Track(snapshots, events), event)
    ensures Signals(events + [event]) == Signals(events) + (if event.Reconnected? then 1 else 0)
  {
    FollowOneMoreEvent(SeededView(snapshots[0]), snapshots[1..], events, event);
    SignalsOneMore(events, event);
  }

  lemma {:induction false} SignalsOneMore(events: seq<Event>, event: Event)
    ensures Signals(events + [event]) == Signals(events) + (if event.Reconnected? then 1 else 0)
  {
    if events == [] {
      assert [] + [event] == [event];
    } else {
      assert (events + [event])[1..] == events[1..] + [event];
      SignalsOneMore(events[1..], event);
    }
  }

  lemma {:induction false} FollowOneMoreSeed(view: View, snapshots: seq<seq<Order>>, events: seq<Event>, orders: seq<Order>)
    requires Signals(events) == |snapshots| + 1 && events[|events| - 1].Reconnected?
    ensures var before := Follow(view, snapshots, events);
            Follow(view, snapshots + [orders], events) == Trace(before.events + [SeededView(orders)], true)
    decreases |events|
  {
    if |events| > 1 {
      assert events[1..][|events| - 2] == events[|events| - 1];
      match events[0]
      case Unrecognised => FollowOneMoreSeed(view, snapshots, events[1..], orders);
      case Report(report) => FollowOneMoreSeed(AppliedView(view, report), snapshots, events[1..], orders);
      case Reconnected =>
        LastSignalCounts(events[1..]);
        assert (snapshots + [orders])[1..] == snapshots[1..] + [orders];
        FollowOneMoreSeed(SeededView(snapshots[0]), snapshots[1..], events[1..], orders);
    } else {
      assert snapshots == [] && [] + [orders] == [orders];
      assert Follow(SeededView(orders), [], events[1..]) == Trace([], true);
    }
  }

  lemma {:induction false} LastSignalCounts(events: seq<Event>)
    requires events != [] && events[|events| - 1].Reconnected?
    ensures Signals(events) > 0
  {
    assert events == events[..|events| - 1] + [events[|events| - 1]];
    SignalsOneMore(events[..|events| - 1], events[|events| - 1]);
  }

  /** A run waiting for REST yields the seeded view once the answer is there. */
  lemma {:induction false} TrackOneMoreSeed(snapshots: seq<seq<Order>>, events: seq<Event>, orders: seq<Order>)
    requires |snapshots| == Signals(events)
    requires events == [] || events[|events| - 1].Reconnected?
    ensures Track(snapshots + [orders], events) == Trace(Track(snapshots, events).events + [SeededView(orders)], true)
  {
    if events == [] {
      assert [] + [orders] == [orders];
    } else {
      LastSignalCounts(events);
      assert (snapshots + [orders])[1..] == snapshots[1..] + [orders];
      FollowOneMoreSeed(SeededView(snapshots[0]), snapshots[1..], events, orders);
    }
  }
}
