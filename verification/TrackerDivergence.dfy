/** Runs of the user-data system that end in a wrong view, and from them the exact conditions under
    which every run of a new tracker converges. */
module TrackerDivergence {
  import opened Prelude
  import opened OrderViews
  import opened OrderTracker
  import opened Subscription
  import opened UserDataFeed

  // ----- runs put together -----

  lemma {:induction false} AfterBoth(s: System, a: seq<Action>, b: seq<Action>, world: World)
    ensures After(s, a + b, world) == After(After(s, a, world), b, world)
    ensures SeedsAfterFirstConnects(s, a + b, world) <==>
            SeedsAfterFirstConnects(s, a, world) && SeedsAfterFirstConnects(After(s, a, world), b, world)
    decreases |b|
  {
    if b == [] {
      assert a + b == a;
    } else {
      var init, last := b[..|b| - 1], b[|b| - 1];
      AfterBoth(s, a, init, world);
      assert a + b == (a + init) + [last] && b == init + [last];
      AfterOneMore(s, a + init, last, world);
      AfterOneMore(After(s, a, world), init, last, world);
    }
  }

  lemma {:induction false} AfterOne(s: System, action: Action, world: World)
    ensures After(s, [action], world) == UserDataFeed.Next(s, action, world)
    ensures SeedsAfterFirstConnects(s, [action], world) <==> (action.Serve? && Enabled(s, action) ==> BothEverUp(s))
  {
    assert [] + [action] == [action];
    AfterOneMore(s, [], action, world);
  }

  lemma {:induction false} SeedsOnceConnected(s: System, actions: seq<Action>, world: World)
    requires BothEverUp(s)
    ensures SeedsAfterFirstConnects(s, actions, world) && BothEverUp(After(s, actions, world))
  {
    if actions != [] {
      SeedsOnceConnected(s, actions[..|actions| - 1], world);
      StepMonotone(After(s, actions[..|actions| - 1], world), actions[|actions| - 1], world);
    }
  }

  /** The socket is dropped, if it was up, and connected again. */
  lemma {:induction false} ReconnectRun(s: System, c: Socket, world: World) returns (actions: seq<Action>)
    ensures SeedsAfterFirstConnects(s, actions, world)
    ensures After(s, actions, world)
            == WithLink(if LinkOf(s, c).everUp then Enqueued(s, Reconnected, world) else s, c, Link(Up, true, []))
  {
    var none: seq<Action> := [];
    actions := none + [Drop(c)] + [Accept(c)] + [Resume(c)];
    AfterOneMore(s, none, Drop(c), world);
    AfterOneMore(s, none + [Drop(c)], Accept(c), world);
    AfterOneMore(s, none + [Drop(c)] + [Accept(c)], Resume(c), world);
  }

  /** REST answers truthfully and the tracker shows the answer. */
  lemma {:induction false} SeedRun(s: System, orders: seq<Order>, world: World) returns (actions: seq<Action>)
    requires s.tracker.Seeding? && Truthful(orders, s.log)
    ensures BothEverUp(s) ==> SeedsAfterFirstConnects(s, actions, world)
    ensures After(s, actions, world) == s.(tracker := Tracking(SeededView(orders)))
  {
    var none: seq<Action> := [];
    actions := none + [Serve(orders)] + [Reply];
    AfterOneMore(s, none, Serve(orders), world);
    AfterOneMore(s, none + [Serve(orders)], Reply, world);
  }

  /** REST answers, and once more if a reconnect signal was waiting. */
  lemma {:induction false} SeedTwice(s: System, orders: seq<Order>, world: World) returns (actions: seq<Action>)
    requires s.tracker.Seeding? && Truthful(orders, s.log)
    requires s.queue.queue == [] || s.queue.queue == [Reconnected]
    ensures BothEverUp(s) ==> SeedsAfterFirstConnects(s, actions, world)
    ensures var t := After(s, actions, world);
            t == s.(tracker := Tracking(SeededView(orders)), queue := t.queue)
            && t.queue.queue == [] && t.queue.lagged == s.queue.lagged
  {
    actions := SeedRun(s, orders, world);
    if s.queue.queue != [] {
      var u := After(s, actions, world);
      AfterOneMore(s, actions, Consume, world);
      var more := SeedRun(UserDataFeed.Next(u, Consume, world), orders, world);
      AfterBoth(s, actions + [Consume], more, world);
      actions := actions + [Consume] + more;
    }
  }

  /** Both sockets up and idle, everything consumed, the view just seeded, nothing ever dropped. */
  ghost predicate Calm(t: System, log: seq<ExecutionReport>, orders: seq<Order>) {
    && t.log == log && t.global == Link(Up, true, []) && t.site == Link(Up, true, [])
    && t.tracker == Tracking(SeededView(orders)) && t.queue.queue == [] && t.queue.lagged == 0
  }

  /** From any start the system can become calm without a seed that precedes the first connects. */
  lemma {:induction false} CalmRun(s: System, orders: seq<Order>, world: World) returns (actions: seq<Action>)
    requires Start(s, world) && Truthful(orders, s.log)
    ensures SeedsAfterFirstConnects(s, actions, world)
    ensures Calm(After(s, actions, world), s.log, orders)
  {
    actions := ReconnectRun(s, Global, world);
    var u := After(s, actions, world);
    if s.global.everUp && s.site.everUp {
      var first := SeedRun(u, orders, world);
      AfterBoth(s, actions, first, world);
      AfterOneMore(s, actions + first, Consume, world);
      actions := actions + first + [Consume];
      u := After(s, actions, world);
      assert u.queue.queue == [] && u.tracker.Seeding?;
    }
    var again := ReconnectRun(u, Site, world);
    AfterBoth(s, actions, again, world);
    actions := actions + again;
    u := After(s, actions, world);
    var last := SeedTwice(u, orders, world);
    AfterBoth(s, actions, last, world);
    actions := actions + last;
  }

  // ----- what REST can answer, and orders still to come -----

  function Excluding(orders: seq<Order>, id: OrderId): seq<Order> {
    if orders == [] then []
    else
      var init := Excluding(orders[..|orders| - 1], id);
      if orders[|orders| - 1].orderId == id then init else init + [orders[|orders| - 1]]
  }

  lemma {:induction false} ExcludingRemoves(orders: seq<Order>, id: OrderId)
    ensures SeededView(Excluding(orders, id)) == SeededView(orders) - {id}
  {
    if orders != [] {
      var init, last := orders[..|orders| - 1], orders[|orders| - 1];
      ExcludingRemoves(init, id);
      if last.orderId != id {
        assert (Excluding(init, id) + [last])[..|Excluding(init, id)|] == Excluding(init, id);
      }
    }
  }

  /** An answer that lists the open orders. */
  function Answer(log: seq<ExecutionReport>): seq<Order> {
    if log == [] then []
    else
      var last := log[|log| - 1];
      if EndsOnWire(last) then Excluding(Answer(log[..|log| - 1]), last.orderId)
      else Answer(log[..|log| - 1]) + [OrderFromReport(last)]
  }

  lemma {:induction false} ReportChangesTruth(log: seq<ExecutionReport>, last: ExecutionReport, id: OrderId)
    ensures TrueEntry(log + [last], id)
            == if id != last.orderId then TrueEntry(log, id) else if EndsOnWire(last) then None else Some(OrderFromReport(last))
  {
    LatestAfterEmit(log, last, id);
  }

  lemma {:induction false} SeededOneMore(orders: seq<Order>, order: Order)
    ensures SeededView(orders + [order]) == if IsActive(order.status) then SeededView(orders)[order.orderId := order] else SeededView(orders)
  {
    assert (orders + [order])[..|orders|] == orders;
  }

  lemma {:induction false} AnswerIsTruthful(log: seq<ExecutionReport>)
    ensures Truthful(Answer(log), log)
  {
    if log != [] {
      var init, last := log[..|log| - 1], log[|log| - 1];
      assert log == init + [last];
      AnswerIsTruthful(init);
      ExcludingRemoves(Answer(init), last.orderId);
      SeededOneMore(Answer(init), OrderFromReport(last));
      forall id ensures Entry(SeededView(Answer(log)), id) == TrueEntry(log, id) {
        ReportChangesTruth(init, last, id);
        assert Entry(SeededView(Answer(init)), id) == TrueEntry(init, id);
      }
    }
  }

  ghost predicate CarriesBeyond(world: World, c: Socket, bound: int) {
    exists id :: world.owner(id) == c && id.value > bound
  }

  /** Both symbol types get new order ids without end. */
  ghost predicate Endless(world: World) {
    forall c, bound :: CarriesBeyond(world, c, bound)
  }

  function LargestId(log: seq<ExecutionReport>): (n: int)
    ensures forall r :: r in log ==> r.orderId.value <= n
  {
    if log == [] then 0
    else
      assert log == log[..|log| - 1] + [log[|log| - 1]];
      Max(LargestId(log[..|log| - 1]), log[|log| - 1].orderId.value)
  }

  /** A report that opens an order nobody has heard of. */
  lemma {:induction false} NewOrder(log: seq<ExecutionReport>, world: World, c: Socket, above: int) returns (r: ExecutionReport)
    requires Endless(world)
    ensures world.owner(r.orderId) == c && !EndsOnWire(r) && Latest(log, r.orderId).None? && r.orderId.value > above
  {
    assert CarriesBeyond(world, c, Max(above, LargestId(log)));
    var id :| world.owner(id) == c && id.value > Max(above, LargestId(log));
    r := ExecutionReport(id, "NEW", 0, None, 0, None, None);
    LatestIsOne(log, id);
  }

  lemma {:induction false} EmitKeepsTimes(log: seq<ExecutionReport>, report: ExecutionReport)
    requires TimesOrdered(log)
    requires var latest := Latest(log, report.orderId); latest.None? || TimeOf(latest.value) <= TimeOf(report)
    ensures TimesOrdered(log + [report])
  {
    var longer := log + [report];
    LatestIsOne(log, report.orderId);
    forall i, j | 0 <= i < j < |longer| && longer[i].orderId == longer[j].orderId
      ensures TimeOf(longer[i]) <= TimeOf(longer[j])
    {
      if j == |log| {
        assert longer[i] in log;
        LatestIsNewest(log, longer[i]);
      }
    }
  }

  // ----- a seed before a first connect -----

  /** From every state: a report sent while its socket is down is lost, and the connect that follows
      queues a signal exactly when it is not the socket's first. */
  lemma {:induction false} OutageMissesReport(s: System, world: World, c: Socket, lost: ExecutionReport)
      returns (actions: seq<Action>)
    requires world.owner(lost.orderId) == c
    ensures After(s, actions, world)
            == WithLink(if LinkOf(s, c).everUp then Enqueued(s, Reconnected, world) else s, c, Link(Up, true, []))
               .(log := s.log + [lost])
  {
    var none: seq<Action> := [];
    AfterOneMore(s, none, Drop(c), world);
    AfterOneMore(s, none + [Drop(c)], Emit(lost), world);
    AfterOneMore(s, none + [Drop(c)] + [Emit(lost)], Accept(c), world);
    AfterOneMore(s, none + [Drop(c)] + [Emit(lost)] + [Accept(c)], Resume(c), world);
    actions := none + [Drop(c)] + [Emit(lost)] + [Accept(c)] + [Resume(c)];
  }

  /** From every start in which some socket was never connected there is a run without overflow that
      settles on a wrong view: the first connect sends no signal, so an order opened between the seed
      and that connect stays unknown. */
  lemma {:induction false} SeedBeforeFirstConnectDiverges(s: System, world: World, c: Socket, report: ExecutionReport)
      returns (actions: seq<Action>)
    requires Start(s, world) && TimesOrdered(s.log) && !LinkOf(s, c).everUp
    requires world.owner(report.orderId) == c && !EndsOnWire(report) && Latest(s.log, report.orderId).None?
    ensures var t := After(s, actions, world);
            && Quiescent(t) && TimesOrdered(t.log) && t.queue.lagged == 0
            && !Agrees(t.tracker.view, t.log)
  {
    var orders := Answer(s.log);
    AnswerIsTruthful(s.log);
    var first := ReconnectRun(s, if c.Global? then Site else Global, world);
    var u := After(s, first, world);
    var seeding := SeedTwice(u, orders, world);
    AfterBoth(s, first, seeding, world);
    var v := After(s, first + seeding, world);
    var rest := OutageMissesReport(v, world, c, report);
    AfterBoth(s, first + seeding, rest, world);
    actions := first + seeding + rest;
    EmitKeepsTimes(s.log, report);
    MissingOrderIsWrong(orders, s.log, report);
  }

  /** A seed taken before an order was opened does not show it. */
  lemma {:induction false} MissingOrderIsWrong(orders: seq<Order>, log: seq<ExecutionReport>, report: ExecutionReport)
    requires Truthful(orders, log) && !EndsOnWire(report) && Latest(log, report.orderId).None?
    ensures Entry(SeededView(orders), report.orderId) == None
    ensures Entry(SeededView(orders), report.orderId) != TrueEntry(log + [report], report.orderId)
    ensures !Agrees(SeededView(orders), log + [report])
  {
    LatestAfterEmit(log, report, report.orderId);
    assert Entry(SeededView(orders), report.orderId) == TrueEntry(log, report.orderId);
  }

  // ----- an overflow that takes the signal -----

  function Copies(event: Event, n: nat): seq<Event> {
    if n == 0 then [] else Copies(event, n - 1) + [event]
  }

  lemma {:induction false} CopiesAreMany(event: Event, n: nat)
    ensures |Copies(event, n)| == n && forall e :: e in Copies(event, n) ==> e == event
  {
    if n > 0 {
      CopiesAreMany(event, n - 1);
    }
  }

  /** The system after a reconnect signal and n reads of the same report. */
  ghost predicate Flooded(s: System, t: System, report: ExecutionReport, n: nat, world: World) {
    && t == s.(log := t.log, queue := t.queue)
    && t.queue.queue == (if n < world.maxsize then [Reconnected] else []) + Copies(Report(report), n)
    && t.queue.lagged == (if n < world.maxsize then 0 else 1)
    && TimesOrdered(t.log)
    && Latest(t.log, report.orderId) == (if n > 0 then Some(report) else Latest(s.log, report.orderId))
    && (forall id :: id != report.orderId ==> Latest(t.log, id) == Latest(s.log, id))
  }

  /** One more copy in the queue: it takes the room left, or the last one takes the signal's place. */
  lemma {:induction false} OfferedCopy(queue: Channel<Event>, event: Event, n: nat, maxsize: int)
    requires 0 <= n < maxsize && queue.queue == [Reconnected] + Copies(event, n)
    ensures Offered(queue, event, maxsize).queue == (if n + 1 < maxsize then [Reconnected] else []) + Copies(event, n + 1)
    ensures Offered(queue, event, maxsize).lagged == queue.lagged + if n + 1 < maxsize then 0 else 1
  {
    CopiesAreMany(event, n);
    assert [Reconnected] + Copies(event, n) + [event] == [Reconnected] + (Copies(event, n) + [event]);
    assert ([Reconnected] + Copies(event, n))[1..] == Copies(event, n);
    assert [] + Copies(event, n + 1) == Copies(event, n + 1);
  }

  /** As many reports as the queue holds, read after the signal, push the signal out. */
  lemma {:induction false} FloodRun(s: System, world: World, c: Socket, report: ExecutionReport, n: nat)
      returns (actions: seq<Action>)
    requires LinkOf(s, c) == Link(Up, true, []) && world.owner(report.orderId) == c
    requires s.queue.queue == [Reconnected] && s.queue.lagged == 0 && n <= world.maxsize && world.maxsize > 0
    requires TimesOrdered(s.log) && Latest(s.log, report.orderId).None?
    ensures Flooded(s, After(s, actions, world), report, n, world)
  {
    if n == 0 {
      actions := [];
    } else {
      actions := FloodRun(s, world, c, report, n - 1);
      var u := After(s, actions, world);
      AfterOneMore(s, actions, Emit(report), world);
      AfterOneMore(s, actions + [Emit(report)], Read(c), world);
      actions := actions + [Emit(report)] + [Read(c)];
      EmitKeepsTimes(u.log, report);
      forall id ensures Latest(u.log + [report], id) == if id == report.orderId then Some(report) else Latest(u.log, id) {
        LatestAfterEmit(u.log, report, id);
      }
      FloodOneMore(u, After(s, actions, world), world, c, report);
      OfferedCopy(u.queue, Report(report), n - 1, world.maxsize);
    }
  }

  lemma {:induction false} FloodOneMore(u: System, t: System, world: World, c: Socket, report: ExecutionReport)
    requires LinkOf(u, c) == Link(Up, true, []) && world.owner(report.orderId) == c
    requires t == UserDataFeed.Next(UserDataFeed.Next(u, Emit(report), world), Read(c), world)
    ensures t == u.(log := u.log + [report], queue := Offered(u.queue, Report(report), world.maxsize))
  {
  }

  /** Consuming the copies leaves every other order's entry alone. */
  lemma {:induction false} DrainRun(s: System, world: World, report: ExecutionReport, n: nat, id: OrderId)
      returns (actions: seq<Action>)
    requires s.tracker.Tracking? && s.queue.queue == Copies(Report(report), n) && id != report.orderId
    ensures var t := After(s, actions, world);
            && t == s.(tracker := t.tracker, queue := t.queue) && t.tracker.Tracking?
            && t.queue.queue == [] && t.queue.lagged == s.queue.lagged
            && Entry(t.tracker.view, id) == Entry(s.tracker.view, id)
    decreases n
  {
    actions := [];
    if n > 0 {
      var u := UserDataFeed.Next(s, Consume, world);
      CopiesAreMany(Report(report), n);
      assert s.queue.queue[0] in s.queue.queue;
      ApplyTouchesOneEntry(s.tracker.view, report, id);
      CopiesTail(Report(report), n);
      var rest := DrainRun(u, world, report, n - 1, id);
      AfterOne(s, Consume, world);
      AfterBoth(s, [Consume], rest, world);
      actions := [Consume] + rest;
    }
  }

  lemma {:induction false} CopiesTail(event: Event, n: nat)
    requires n > 0
    ensures |Copies(event, n)| == n && Copies(event, n)[1..] == Copies(event, n - 1)
  {
    CopiesAreMany(event, n);
    CopiesAreMany(event, n - 1);
    var tail, fewer := Copies(event, n)[1..], Copies(event, n - 1);
    forall k | 0 <= k < n - 1 ensures tail[k] == fewer[k] {
      assert Copies(event, n)[k + 1] in Copies(event, n) && fewer[k] in fewer;
    }
  }

  /** From a calm system: a socket reconnects, the tracker consumes the signal, and REST computes an
      answer that is still on its way. */
  lemma {:induction false} AnsweredRun(s: System, orders: seq<Order>, world: World, c: Socket) returns (actions: seq<Action>)
    requires Calm(s, s.log, orders) && Truthful(orders, s.log)
    ensures var t := After(s, actions, world);
            && t == s.(tracker := Answered(orders), queue := t.queue)
            && t.queue.queue == [] && t.queue.lagged == 0
  {
    var reconnect := ReconnectRun(s, c, world);
    AfterOneMore(s, reconnect, Consume, world);
    AfterOneMore(s, reconnect + [Consume], Serve(orders), world);
    actions := reconnect + [Consume] + [Serve(orders)];
  }

  /** While that answer is on its way: a report is lost in an outage, the reconnect queues its signal,
      and as many reports as the queue holds push the signal out. */
  lemma {:induction false} SignalPushedOut(s: System, world: World, c: Socket, lost: ExecutionReport, later: ExecutionReport)
      returns (actions: seq<Action>)
    requires LinkOf(s, c).everUp && s.queue.queue == [] && s.queue.lagged == 0 && world.maxsize > 0 && TimesOrdered(s.log)
    requires world.owner(lost.orderId) == world.owner(later.orderId) == c && lost.orderId != later.orderId
    requires Latest(s.log, lost.orderId).None? && Latest(s.log, later.orderId).None?
    ensures var t := After(s, actions, world);
            && t == WithLink(s, c, Link(Up, true, [])).(log := t.log, queue := t.queue)
            && t.queue.queue == Copies(Report(later), world.maxsize) && t.queue.lagged == 1
            && TimesOrdered(t.log) && Latest(t.log, lost.orderId) == Some(lost)
  {
    EmitKeepsTimes(s.log, lost);
    LatestAfterEmit(s.log, lost, later.orderId);
    LatestAfterEmit(s.log, lost, lost.orderId);
    var outage := OutageMissesReport(s, world, c, lost);
    var v := After(s, outage, world);
    var flood := FloodRun(v, world, c, later, world.maxsize);
    AfterBoth(s, outage, flood, world);
    assert [] + Copies(Report(later), world.maxsize) == Copies(Report(later), world.maxsize);
    actions := outage + flood;
  }

  /** The answer arrives and the queue is drained: the view still lacks the lost order. */
  lemma {:induction false} ReplyAndDrain(s: System, orders: seq<Order>, world: World, lost: ExecutionReport, later: ExecutionReport)
      returns (actions: seq<Action>)
    requires world.maxsize > 0 && s.tracker == Answered(orders) && s.queue.queue == Copies(Report(later), world.maxsize)
    requires Entry(SeededView(orders), lost.orderId) == None && lost.orderId != later.orderId
    ensures var t := After(s, actions, world);
            && t == s.(tracker := t.tracker, queue := t.queue) && t.tracker.Tracking?
            && t.queue.queue == [] && t.queue.lagged == s.queue.lagged
            && Entry(t.tracker.view, lost.orderId) == None
  {
    var u := UserDataFeed.Next(s, Reply, world);
    AfterOne(s, Reply, world);
    var drain := DrainRun(u, world, later, world.maxsize, lost.orderId);
    AfterBoth(s, [Reply], drain, world);
    actions := [Reply] + drain;
  }

  /** Whatever the bound of the queue, and from every start, one dropped item can leave the tracker
      on a wrong view for good: the item is the reconnect signal itself, pushed out while the tracker
      waits for a REST answer that was computed before the outage. */
  lemma {:induction false} LostSignalDiverges(s: System, world: World, c: Socket, lost: ExecutionReport, later: ExecutionReport)
      returns (actions: seq<Action>, waiting: nat)
    requires Start(s, world) && TimesOrdered(s.log) && world.maxsize > 0
    requires world.owner(lost.orderId) == world.owner(later.orderId) == c && lost.orderId != later.orderId
    requires !EndsOnWire(lost) && Latest(s.log, lost.orderId).None? && Latest(s.log, later.orderId).None?
    ensures SeedsAfterFirstConnects(s, actions, world)
    ensures waiting <= |actions|
    ensures var u := After(s, actions[..waiting], world); u.tracker.Answered? && u.queue.lagged == 1
    ensures var t := After(s, actions, world);
            && Quiescent(t) && TimesOrdered(t.log) && t.queue.lagged == 1
            && !Agrees(t.tracker.view, t.log)
  {
    var orders := Answer(s.log);
    AnswerIsTruthful(s.log);
    MissingOrderIsWrong(orders, s.log, lost);
    var calming := CalmRun(s, orders, world);
    var u := After(s, calming, world);
    var answered := AnsweredRun(u, orders, world, c);
    var v := After(u, answered, world);
    var pushed := SignalPushedOut(v, world, c, lost, later);
    var w := After(v, pushed, world);
    var drained := ReplyAndDrain(w, orders, world, lost, later);
    AfterBoth(u, answered, pushed, world);
    AfterBoth(s, calming, answered + pushed, world);
    var before := calming + (answered + pushed);
    AfterBoth(s, before, drained, world);
    SeedsOnceConnected(u, answered + pushed, world);
    SeedsOnceConnected(w, drained, world);
    actions, waiting := before + drained, |before|;
    assert actions[..waiting] == before;
    assert Entry(After(s, actions, world).tracker.view, lost.orderId) != TrueEntry(After(s, actions, world).log, lost.orderId);
  }

  // ----- exactly when every run converges -----

  /** If everything is drained at the end of this run, the view is right. */
  ghost predicate Converges(s: System, actions: seq<Action>, world: World) {
    var t := After(s, actions, world);
    TimesOrdered(t.log) && Quiescent(t) ==> Agrees(t.tracker.view, t.log)
  }

  /** Without overflow every run of a new tracker converges exactly when both sockets had already
      been connected once when it was created. */
  lemma {:induction false} ConvergesIffBothEverUp(s: System, world: World)
    requires Start(s, world) && TimesOrdered(s.log) && Endless(world)
    ensures (forall actions :: After(s, actions, world).queue.lagged == 0 ==> Converges(s, actions, world)) <==> BothEverUp(s)
  {
    if BothEverUp(s) {
      forall actions | After(s, actions, world).queue.lagged == 0 ensures Converges(s, actions, world) {
        SeedsOnceConnected(s, actions, world);
        LosslessIsTrusted(s, actions, world);
        if TimesOrdered(After(s, actions, world).log) && Quiescent(After(s, actions, world)) {
          TrackerConverges(s, actions, world);
        }
      }
    } else {
      var c := if s.global.everUp then Site else Global;
      var report := NewOrder(s.log, world, c, 0);
      var actions := SeedBeforeFirstConnectDiverges(s, world, c, report);
      assert After(s, actions, world).queue.lagged == 0 && !Converges(s, actions, world);
    }
  }

  lemma {:induction false} UnboundedNeverLags(s: System, actions: seq<Action>, world: World)
    requires world.maxsize <= 0
    ensures After(s, actions, world).queue.lagged == s.queue.lagged
  {
    if actions != [] {
      UnboundedNeverLags(s, actions[..|actions| - 1], world);
    }
  }

  /** With seeds only after the first connects, every run converges exactly when the queue has no
      bound: any bound can lose the signal. */
  lemma {:induction false} ConvergesIffUnbounded(s: System, world: World)
    requires Start(s, world) && TimesOrdered(s.log) && Endless(world)
    ensures (forall actions :: SeedsAfterFirstConnects(s, actions, world) ==> Converges(s, actions, world))
            <==> world.maxsize <= 0
  {
    if world.maxsize <= 0 {
      forall actions | SeedsAfterFirstConnects(s, actions, world) ensures Converges(s, actions, world) {
        UnboundedNeverLags(s, actions, world);
        LosslessIsTrusted(s, actions, world);
        if TimesOrdered(After(s, actions, world).log) && Quiescent(After(s, actions, world)) {
          TrackerConverges(s, actions, world);
        }
      }
    } else {
      var lost := NewOrder(s.log, world, Global, 0);
      var later := NewOrder(s.log, world, Global, lost.orderId.value);
      var actions, waiting := LostSignalDiverges(s, world, Global, lost, later);
      assert SeedsAfterFirstConnects(s, actions, world) && !Converges(s, actions, world);
    }
  }
}
