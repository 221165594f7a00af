/** The exchange, its two user-data sockets, the bounded queue and the tracker as one step system,
    and the theorem that the tracker's view converges to the exchange's open orders. */
module UserDataFeed {
  import opened Prelude
  import opened OrderViews
  import opened OrderTracker
  import opened Subscription

  /** One socket per symbol type. */
  datatype Socket = Global | Site

  datatype Phase = Down | Accepted | Up

  /** A socket as the client and the exchange together see it. `Accepted` means that the exchange
      already pushes into the connection while the client's connect call has not returned yet.
      `everUp` is the negation of the supervisor's `first` flag. `wire` holds reports pushed but
      not yet read. */
  datatype Link = Link(phase: Phase, everUp: bool, wire: seq<ExecutionReport>)

  /** The tracker waits for REST, or REST has computed its answer, or it consumes events. */
  datatype Tracker = Seeding | Answered(orders: seq<Order>) | Tracking(view: View)

  datatype System = System(
    log: seq<ExecutionReport>,
    global: Link, site: Link,
    queue: Channel<Event>,
    tracker: Tracker)

  datatype Action =
    | Emit(report: ExecutionReport)
    | Accept(socket: Socket)
    | Resume(socket: Socket)
    | Read(socket: Socket)
    | Drop(socket: Socket)
    | Serve(orders: seq<Order>)
    | Reply
    | Consume

  /** Fixed facts about a run: which socket carries an order, and the queue bound. */
  datatype World = World(owner: OrderId -> Socket, maxsize: int)

  function LinkOf(s: System, socket: Socket): Link {
    if socket.Global? then s.global else s.site
  }

  function WithLink(s: System, socket: Socket, link: Link): System {
    if socket.Global? then s.(global := link) else s.(site := link)
  }

  // ----- the exchange's truth -----

  /** The last report of an order. */
  function Latest(reports: seq<ExecutionReport>, id: OrderId): Option<ExecutionReport> {
    if reports == [] then None
    else if reports[|reports| - 1].orderId == id then Some(reports[|reports| - 1])
    else Latest(reports[..|reports| - 1], id)
  }

  /** The state of one order at the exchange: open with its latest state, or not open. */
  function TrueEntry(log: seq<ExecutionReport>, id: OrderId): Option<Order> {
    var latest := Latest(log, id);
    if latest.None? || EndsOnWire(latest.value) then None else Some(OrderFromReport(latest.value))
  }

  /** The view holds exactly the exchange's open orders. */
  ghost predicate Agrees(view: View, log: seq<ExecutionReport>) {
    forall id :: Entry(view, id) == TrueEntry(log, id)
  }

  ghost predicate Truthful(orders: seq<Order>, log: seq<ExecutionReport>) {
    Agrees(SeededView(orders), log)
  }

  /** Each order's update times never decrease along the log. */
  ghost predicate TimesOrdered(log: seq<ExecutionReport>) {
    forall i, j :: 0 <= i < j < |log| && log[i].orderId == log[j].orderId ==> TimeOf(log[i]) <= TimeOf(log[j])
  }

  // ----- steps -----

  function Enqueued(s: System, event: Event, world: World): System {
    s.(queue := Offered(s.queue, event, world.maxsize))
  }

  ghost predicate Enabled(s: System, action: Action) {
    match action
    case Emit(_) => true
    case Accept(c) => LinkOf(s, c).phase.Down?
    case Resume(c) => LinkOf(s, c).phase.Accepted?
    case Read(c) => LinkOf(s, c).phase.Up? && LinkOf(s, c).wire != []
    case Drop(c) => !LinkOf(s, c).phase.Down?
    case Serve(orders) => s.tracker.Seeding? && Truthful(orders, s.log)
    case Reply => s.tracker.Answered?
    case Consume => s.tracker.Tracking? && s.queue.queue != []
  }

  function Emitted(s: System, report: ExecutionReport, world: World): System {
    var c := world.owner(report.orderId);
    var link := LinkOf(s, c);
    var pushed := if link.phase.Down? then link else link.(wire := link.wire + [report]);
    WithLink(s, c, pushed).(log := s.log + [report])
  }

  function Resumed(s: System, c: Socket, world: World): System {
    var link := LinkOf(s, c);
    var signalled := if link.everUp then Enqueued(s, Reconnected, world) else s;
    WithLink(signalled, c, link.(phase := Up, everUp := true))
  }

  function ReadFrom(s: System, c: Socket, world: World): System
    requires LinkOf(s, c).wire != []
  {
    var link := LinkOf(s, c);
    WithLink(Enqueued(s, Report(link.wire[0]), world), c, link.(wire := link.wire[1..]))
  }

  function Consumed(s: System): System
    requires s.tracker.Tracking? && s.queue.queue != []
  {
    var event := s.queue.queue[0];
    var rest := s.(queue := Taken(s.queue));
    match event
    case Reconnected => rest.(tracker := Seeding)
    case Unrecognised => rest
    case Report(report) => rest.(tracker := Tracking(AppliedView(s.tracker.view, report)))
  }

  /** A step that is not enabled does not happen. */
  ghost function Next(s: System, action: Action, world: World): System {
    if !Enabled(s, action) then s
    else
      match action
      case Emit(report) => Emitted(s, report, world)
      case Accept(c) => WithLink(s, c, LinkOf(s, c).(phase := Accepted, wire := []))
      case Resume(c) => Resumed(s, c, world)
      case Read(c) => ReadFrom(s, c, world)
      case Drop(c) => WithLink(s, c, LinkOf(s, c).(phase := Down, wire := []))
      case Serve(orders) => s.(tracker := Answered(orders))
      case Reply => s.(tracker := Tracking(SeededView(s.tracker.orders)))
      case Consume => Consumed(s)
  }

  ghost function After(s: System, actions: seq<Action>, world: World): System {
    if actions == [] then s
    else Next(After(s, actions[..|actions| - 1], world), actions[|actions| - 1], world)
  }

  ghost predicate BothEverUp(s: System) { s.global.everUp && s.site.everUp }

  ghost predicate Signalled(s: System) { Reconnected in s.queue.queue }

  /** A fresh seed is still to come: REST has not answered, or a reconnect signal is queued. */
  ghost predicate SeedDue(s: System) { s.tracker.Seeding? || Signalled(s) }

  /** Since a fresh seed was last due nothing was dropped from the queue, and both sockets had been
      connected once. Whatever went wrong before then no longer matters. */
  ghost predicate Trusted(s: System, actions: seq<Action>, world: World) {
    var after := After(s, actions, world);
    || SeedDue(after)
    || (actions != []
        && var before := After(s, actions[..|actions| - 1], world);
           && Trusted(s, actions[..|actions| - 1], world)
           && after.queue.lagged == before.queue.lagged && BothEverUp(after))
  }

  /** REST never computes a seed before both sockets have been connected once. */
  ghost predicate SeedsAfterFirstConnects(s: System, actions: seq<Action>, world: World) {
    actions == [] ||
    var before := After(s, actions[..|actions| - 1], world);
    && SeedsAfterFirstConnects(s, actions[..|actions| - 1], world)
    && (actions[|actions| - 1].Serve? && Enabled(before, actions[|actions| - 1]) ==> BothEverUp(before))
  }

  /** A tracker just created: its queue is empty, the account and the sockets are in any state the
      supervisors allow. */
  ghost predicate Start(s: System, world: World) {
    && s.tracker.Seeding?
    && s.queue == Channel([], 0, [], [])
    && LinkSound(s, Global, world) && LinkSound(s, Site, world)
  }

  ghost predicate Quiescent(s: System) {
    && s.tracker.Tracking? && s.queue.queue == []
    && s.global.phase.Up? && s.global.wire == []
    && s.site.phase.Up? && s.site.wire == []
  }

  // ----- the invariant -----

  /** The pending reports about an order, if any, end with the exchange's latest one. */
  ghost predicate EndsLatest(pending: seq<ExecutionReport>, log: seq<ExecutionReport>, id: OrderId) {
    Latest(pending, id).Some? ==> Latest(pending, id) == Latest(log, id)
  }

  ghost predicate LinkSound(s: System, c: Socket, world: World) {
    var link := LinkOf(s, c);
    && (link.phase.Down? ==> link.wire == [])
    && (link.phase.Up? ==> link.everUp)
    && (forall r :: r in link.wire ==> r in s.log && world.owner(r.orderId) == c)
    && (forall id :: EndsLatest(link.wire, s.log, id))
  }

  function Reports(events: seq<Event>): seq<ExecutionReport> {
    if events == [] then []
    else
      var init := Reports(events[..|events| - 1]);
      if events[|events| - 1].Report? then init + [events[|events| - 1].report] else init
  }

  /** What will reach the view on behalf of a socket if nothing more happens. */
  function Pending(s: System, c: Socket): seq<ExecutionReport> {
    Reports(SinceReconnect(s.queue.queue)) + LinkOf(s, c).wire
  }

  ghost predicate QueueSound(s: System, c: Socket, world: World) {
    var link := LinkOf(s, c);
    && (link.phase.Up? ==> forall id :: world.owner(id) == c ==> EndsLatest(Pending(s, c), s.log, id))
    && (!link.everUp ==> forall r :: r in Reports(s.queue.queue) ==> world.owner(r.orderId) != c)
  }

  ghost predicate SocketSound(s: System, c: Socket, world: World) {
    LinkSound(s, c, world) && QueueSound(s, c, world)
  }

  /** The view the tracker has, or will have as soon as the REST reply is delivered. */
  function CurrentView(s: System): View {
    match s.tracker
    case Seeding => map[]
    case Answered(orders) => SeededView(orders)
    case Tracking(view) => view
  }

  /** No entry is newer than the exchange's latest report of that order. */
  ghost predicate ViewBehind(view: View, log: seq<ExecutionReport>) {
    forall id :: id in view ==> Latest(log, id).Some? && view[id].updateTime <= TimeOf(Latest(log, id).value)
  }

  /** What every step keeps, whatever the queue drops. */
  ghost predicate Sound(s: System, world: World) {
    && SocketSound(s, Global, world) && SocketSound(s, Site, world)
    && (forall r :: r in Reports(s.queue.queue) ==> r in s.log)
    && ViewBehind(CurrentView(s), s.log)
  }

  /** An order with nothing pending is already right. */
  ghost predicate Settled(s: System, c: Socket, world: World) {
    forall id :: world.owner(id) == c && Latest(Pending(s, c), id).None? ==>
                   Entry(CurrentView(s), id) == TrueEntry(s.log, id)
  }

  ghost predicate UpIsSettled(s: System, c: Socket, world: World) {
    LinkOf(s, c).phase.Up? ==> Settled(s, c, world)
  }

  /** What a trusted run adds: unless a fresh seed is due, the view is right up to what is pending. */
  ghost predicate Correct(s: System, world: World) {
    SeedDue(s) || (BothEverUp(s) && UpIsSettled(s, Global, world) && UpIsSettled(s, Site, world))
  }

  // ----- facts about latest reports -----

  lemma {:induction false} LatestOfConcat(a: seq<ExecutionReport>, b: seq<ExecutionReport>, id: OrderId)
    ensures Latest(a + b, id) == if Latest(b, id).Some? then Latest(b, id) else Latest(a, id)
    decreases |b|
  {
    if b == [] {
      assert a + b == a;
    } else {
      assert (a + b)[..|a + b| - 1] == a + b[..|b| - 1];
      LatestOfConcat(a, b[..|b| - 1], id);
    }
  }

  lemma {:induction false} LatestIsOne(reports: seq<ExecutionReport>, id: OrderId)
    ensures Latest(reports, id).Some? ==> Latest(reports, id).value in reports && Latest(reports, id).value.orderId == id
    ensures Latest(reports, id).None? ==> forall r :: r in reports ==> r.orderId != id
  {
    if reports != [] {
      LatestIsOne(reports[..|reports| - 1], id);
      assert reports == reports[..|reports| - 1] + [reports[|reports| - 1]];
    }
  }

  lemma {:induction false} LatestIsNewest(log: seq<ExecutionReport>, r: ExecutionReport)
    requires TimesOrdered(log) && r in log
    ensures Latest(log, r.orderId).Some? && TimeOf(r) <= TimeOf(Latest(log, r.orderId).value)
  {
    var last := log[|log| - 1];
    if last.orderId != r.orderId {
      var init := log[..|log| - 1];
      assert log == init + [last];
      LatestIsNewest(init, r);
    } else {
      var i :| 0 <= i < |log| && log[i] == r;
    }
  }

  lemma {:induction false} ReportsOfConcat(a: seq<Event>, b: seq<Event>)
    ensures Reports(a + b) == Reports(a) + Reports(b)
    decreases |b|
  {
    if b == [] {
      assert a + b == a;
    } else {
      assert (a + b)[..|a + b| - 1] == a + b[..|b| - 1];
      ReportsOfConcat(a, b[..|b| - 1]);
    }
  }

  lemma {:induction false} SinceReconnectDrop(event: Event, events: seq<Event>)
    ensures SinceReconnect([event] + events) ==
            if Reconnected in events || event == Reconnected then SinceReconnect(events) else [event] + events
    ensures Reconnected !in events ==> SinceReconnect(events) == events
    decreases |events|
  {
    if events == [] {
      assert [event] + events == [event];
      assert [event][..0] == [];
    } else {
      var init, last := events[..|events| - 1], events[|events| - 1];
      assert ([event] + events)[..|events|] == [event] + init;
      assert events == init + [last];
      SinceReconnectDrop(event, init);
    }
  }

  lemma {:induction false} SinceReconnectOneMore(events: seq<Event>, event: Event)
    ensures SinceReconnect(events + [event]) == if event.Reconnected? then [] else SinceReconnect(events) + [event]
  {
    assert (events + [event])[..|events|] == events;
  }

  lemma {:induction false} SinceReconnectIsPart(events: seq<Event>)
    ensures forall r :: r in Reports(SinceReconnect(events)) ==> r in Reports(events)
  {
    if events != [] && !events[|events| - 1].Reconnected? {
      var init, last := events[..|events| - 1], events[|events| - 1];
      SinceReconnectIsPart(init);
      ReportsOfConcat(SinceReconnect(init), [last]);
      ReportsOfConcat(init, [last]);
      assert init + [last] == events;
    }
  }

  lemma {:induction false} ReportsOfOne(event: Event)
    ensures Reports([event]) == if event.Report? then [event.report] else []
  {
    assert [event][..0] == [];
  }

  // ----- making room in the queue -----

  /** The queue after an offer made room: its oldest item is gone if it was full. */
  function Room(s: System, world: World): System {
    if s.queue.queue != [] && IsFull(|s.queue.queue|, world.maxsize)
    then s.(queue := s.queue.(queue := s.queue.queue[1..]))
    else s
  }

  lemma {:induction false} EnqueuedAppends(s: System, event: Event, world: World)
    ensures Enqueued(s, event, world).queue.queue == Room(s, world).queue.queue + [event]
    ensures Enqueued(s, event, world).queue.lagged == s.queue.lagged ==> Room(s, world) == s
  {
  }

  /** How taking one event from the queue changes the queued reports that count. */
  lemma {:induction false} QueueTail(event: Event, rest: seq<Event>)
    ensures Reports(SinceReconnect([event] + rest))
            == if event.Report? && Reconnected !in rest then [event.report] + Reports(SinceReconnect(rest))
               else Reports(SinceReconnect(rest))
  {
    SinceReconnectDrop(event, rest);
    if Reconnected !in rest && !event.Reconnected? {
      ReportsOfConcat([event], rest);
      ReportsOfOne(event);
      assert event.Unrecognised? ==> [] + Reports(rest) == Reports(rest);
    }
  }

  lemma {:induction false} JoinFirst(report: ExecutionReport, queued: seq<ExecutionReport>, wire: seq<ExecutionReport>)
    ensures ([report] + queued) + wire == [report] + (queued + wire)
  {
  }

  lemma {:induction false} ConsumePending(event: Event, rest: seq<Event>, wire: seq<ExecutionReport>)
    ensures var pending := Reports(SinceReconnect(rest)) + wire;
            Reports(SinceReconnect([event] + rest)) + wire
            == if event.Report? && Reconnected !in rest then [event.report] + pending else pending
  {
    QueueTail(event, rest);
    if event.Report? {
      JoinFirst(event.report, Reports(SinceReconnect(rest)), wire);
    }
  }

  /** Losing the oldest queued item, to the consumer or to an overflow, keeps a socket sound: the
      reports left still end with the latest ones. */
  lemma {:induction false} OldestGone(s: System, t: System, world: World, c: Socket)
    requires SocketSound(s, c, world) && s.queue.queue != []
    requires t.queue.queue == s.queue.queue[1..]
    requires t.log == s.log && LinkOf(t, c) == LinkOf(s, c)
    ensures SocketSound(t, c, world)
    ensures forall r :: r in Reports(t.queue.queue) ==> r in Reports(s.queue.queue)
  {
    var event, rest := s.queue.queue[0], s.queue.queue[1..];
    assert s.queue.queue == [event] + rest;
    ReportsOfConcat([event], rest);
    ConsumePending(event, rest, LinkOf(s, c).wire);
    if LinkOf(s, c).phase.Up? {
      forall id | world.owner(id) == c ensures EndsLatest(Pending(t, c), t.log, id) {
        assert EndsLatest(Pending(s, c), s.log, id);
        if event.Report? {
          LatestOfConcat([event.report], Pending(t, c), id);
        }
      }
    }
  }

  lemma {:induction false} RoomKeeps(s: System, world: World, c: Socket)
    requires SocketSound(s, c, world)
    ensures SocketSound(Room(s, world), c, world)
    ensures forall r :: r in Reports(Room(s, world).queue.queue) ==> r in Reports(s.queue.queue)
  {
    if Room(s, world) != s {
      OldestGone(s, Room(s, world), world, c);
    }
  }

  // ----- every step keeps the exchange's side of the invariant -----

  lemma {:induction false} LatestAfterEmit(log: seq<ExecutionReport>, report: ExecutionReport, id: OrderId)
    ensures Latest(log + [report], id) == if id == report.orderId then Some(report) else Latest(log, id)
  {
    assert (log + [report])[..|log|] == log;
  }

  lemma {:induction false} EmitKeepsViewBehind(view: View, log: seq<ExecutionReport>, report: ExecutionReport)
    requires ViewBehind(view, log) && TimesOrdered(log + [report])
    ensures ViewBehind(view, log + [report])
  {
    forall id | id in view
      ensures Latest(log + [report], id).Some?
      ensures view[id].updateTime <= TimeOf(Latest(log + [report], id).value)
    {
      LatestAfterEmit(log, report, id);
      if id == report.orderId {
        LatestIsOne(log, id);
        var last := Latest(log, id).value;
        var i :| 0 <= i < |log| && log[i] == last;
        assert (log + [report])[i] == last && (log + [report])[|log|] == report;
      }
    }
  }

  lemma {:induction false} BothGrow(pending: seq<ExecutionReport>, log: seq<ExecutionReport>, report: ExecutionReport, id: OrderId)
    requires id != report.orderId ==> EndsLatest(pending, log, id)
    ensures EndsLatest(pending + [report], log + [report], id)
    ensures Latest(pending + [report], id).None? ==>
              Latest(pending, id).None? && TrueEntry(log + [report], id) == TrueEntry(log, id)
  {
    LatestAfterEmit(log, report, id);
    LatestAfterEmit(pending, report, id);
  }

  /** The wire and the log grow by the same report. */
  lemma {:induction false} EmitKeepsLink(s: System, report: ExecutionReport, world: World, c: Socket)
    requires LinkSound(s, c, world)
    ensures LinkSound(Emitted(s, report, world), c, world)
  {
    var t := Emitted(s, report, world);
    var wire := LinkOf(s, c).wire;
    assert report in t.log;
    LatestIsOne(wire, report.orderId);
    forall id ensures EndsLatest(LinkOf(t, c).wire, t.log, id) {
      assert EndsLatest(wire, s.log, id);
      LatestAfterEmit(s.log, report, id);
      BothGrow(wire, s.log, report, id);
    }
  }

  /** What an emitted report does to what is pending for a connected socket. */
  lemma {:induction false} EmitPending(s: System, report: ExecutionReport, world: World, c: Socket)
    requires LinkOf(s, c).phase.Up?
    ensures var t := Emitted(s, report, world);
            && t.queue == s.queue && t.log == s.log + [report] && t.tracker == s.tracker
            && LinkOf(t, c).phase.Up? && LinkOf(t, c).everUp == LinkOf(s, c).everUp
            && Pending(t, c) == if world.owner(report.orderId) == c then Pending(s, c) + [report] else Pending(s, c)
  {
    assert (Reports(SinceReconnect(s.queue.queue)) + LinkOf(s, c).wire) + [report]
        == Reports(SinceReconnect(s.queue.queue)) + (LinkOf(s, c).wire + [report]);
  }

  lemma {:induction false} EmitKeepsPending(s: System, report: ExecutionReport, world: World, c: Socket, id: OrderId)
    requires LinkOf(s, c).phase.Up? && world.owner(id) == c && EndsLatest(Pending(s, c), s.log, id)
    ensures var t := Emitted(s, report, world);
            && EndsLatest(Pending(t, c), t.log, id)
            && (Latest(Pending(t, c), id).None? ==>
                  Latest(Pending(s, c), id).None? && TrueEntry(t.log, id) == TrueEntry(s.log, id))
  {
    EmitPending(s, report, world, c);
    BothGrow(Pending(s, c), s.log, report, id);
    LatestAfterEmit(s.log, report, id);
  }

  lemma {:induction false} EmitKeeps(s: System, report: ExecutionReport, world: World, c: Socket)
    requires SocketSound(s, c, world)
    ensures SocketSound(Emitted(s, report, world), c, world)
  {
    var t := Emitted(s, report, world);
    EmitKeepsLink(s, report, world, c);
    if LinkOf(s, c).phase.Up? {
      EmitPending(s, report, world, c);
      forall id | world.owner(id) == c ensures EndsLatest(Pending(t, c), t.log, id) {
        assert EndsLatest(Pending(s, c), s.log, id);
        EmitKeepsPending(s, report, world, c, id);
      }
    }
  }

  /** A reconnect queues the signal, and only what is still on the wire counts after it. */
  lemma {:induction false} ReconnectQueues(s: System, socket: Socket, world: World)
    requires LinkOf(s, socket).everUp
    ensures var t := Resumed(s, socket, world);
            && Signalled(t) && Reports(t.queue.queue) == Reports(Room(s, world).queue.queue)
            && forall c :: Pending(t, c) == LinkOf(t, c).wire == LinkOf(s, c).wire
  {
    var t := Resumed(s, socket, world);
    var q := Room(s, world).queue.queue;
    EnqueuedAppends(s, Reconnected, world);
    SinceReconnectOneMore(q, Reconnected);
    ReportsOfConcat(q, [Reconnected]);
    ReportsOfOne(Reconnected);
    assert t.queue.queue[|q|] == Reconnected;
  }

  lemma {:induction false} ResumeKeeps(s: System, socket: Socket, world: World, c: Socket)
    requires SocketSound(s, c, world) && LinkOf(s, socket).phase.Accepted?
    ensures SocketSound(Resumed(s, socket, world), c, world)
  {
    if LinkOf(s, socket).everUp {
      ReconnectQueues(s, socket, world);
      RoomKeeps(s, world, c);
    } else {
      FirstConnectKeeps(s, socket, world, c);
    }
  }

  /** A first connect: nothing of this socket was ever queued. */
  lemma {:induction false} FirstConnectKeeps(s: System, socket: Socket, world: World, c: Socket)
    requires SocketSound(s, c, world) && LinkOf(s, socket).phase.Accepted? && !LinkOf(s, socket).everUp
    ensures SocketSound(Resumed(s, socket, world), c, world)
  {
    var t := Resumed(s, socket, world);
    var older := Reports(SinceReconnect(s.queue.queue));
    SinceReconnectIsPart(s.queue.queue);
    assert Pending(t, c) == Pending(s, c);
    if c == socket {
      forall id | world.owner(id) == c ensures EndsLatest(Pending(t, c), t.log, id) {
        LatestIsOne(older, id);
        assert EndsLatest(LinkOf(s, c).wire, s.log, id);
        LatestOfConcat(older, LinkOf(t, c).wire, id);
      }
    }
  }

  /** The reports that count after a read: the read one moved to the end of the queued ones. */
  lemma {:induction false} ReadQueues(s: System, socket: Socket, world: World)
    requires LinkOf(s, socket).wire != []
    ensures var t, q, report := ReadFrom(s, socket, world), Room(s, world).queue.queue, LinkOf(s, socket).wire[0];
            && t.queue.queue == q + [Report(report)]
            && Reports(t.queue.queue) == Reports(q) + [report]
            && Reports(SinceReconnect(t.queue.queue)) == Reports(SinceReconnect(q)) + [report]
            && (Signalled(t) <==> Reconnected in q)
  {
    var q, report := Room(s, world).queue.queue, LinkOf(s, socket).wire[0];
    EnqueuedAppends(s, Report(report), world);
    SinceReconnectOneMore(q, Report(report));
    ReportsOfConcat(q, [Report(report)]);
    ReportsOfConcat(SinceReconnect(q), [Report(report)]);
    ReportsOfOne(Report(report));
  }

  lemma {:induction false} MoveHead(queued: seq<ExecutionReport>, wire: seq<ExecutionReport>)
    requires wire != []
    ensures (queued + [wire[0]]) + wire[1..] == queued + wire
  {
  }

  /** For its own socket, a read moves a report without changing what is pending. */
  lemma {:induction false} ReadKeepsPending(s: System, world: World, c: Socket)
    requires LinkOf(s, c).wire != []
    ensures Pending(ReadFrom(s, c, world), c) == Pending(Room(s, world), c)
  {
    ReadQueues(s, c, world);
    MoveHead(Reports(SinceReconnect(Room(s, world).queue.queue)), LinkOf(s, c).wire);
  }

  lemma {:induction false} WireShrinks(report: ExecutionReport, wire: seq<ExecutionReport>, log: seq<ExecutionReport>)
    requires forall id :: EndsLatest([report] + wire, log, id)
    ensures forall id :: EndsLatest(wire, log, id)
  {
    forall id ensures EndsLatest(wire, log, id) {
      LatestOfConcat([report], wire, id);
      assert EndsLatest([report] + wire, log, id);
    }
  }

  lemma {:induction false} InsertedElsewhere(a: seq<ExecutionReport>, report: ExecutionReport, b: seq<ExecutionReport>, id: OrderId)
    requires report.orderId != id
    ensures Latest(a + [report] + b, id) == Latest(a + b, id)
  {
    LatestOfConcat(a + [report], b, id);
    LatestOfConcat(a, b, id);
    LatestAfterEmit(a, report, id);
  }

  /** For the orders of any socket, a read leaves the latest pending report as it is. */
  lemma {:induction false} ReadKeepsLatest(s: System, socket: Socket, world: World, c: Socket, id: OrderId)
    requires LinkSound(s, socket, world) && LinkOf(s, socket).wire != [] && world.owner(id) == c
    ensures Latest(Pending(ReadFrom(s, socket, world), c), id) == Latest(Pending(Room(s, world), c), id)
  {
    if c == socket {
      ReadKeepsPending(s, world, c);
    } else {
      var report := LinkOf(s, socket).wire[0];
      assert report in LinkOf(s, socket).wire;
      ReadQueues(s, socket, world);
      InsertedElsewhere(Reports(SinceReconnect(Room(s, world).queue.queue)), report, LinkOf(s, c).wire, id);
    }
  }

  lemma {:induction false} ReadKeepsLink(s: System, socket: Socket, world: World, c: Socket)
    requires LinkSound(s, c, world) && LinkOf(s, socket).wire != []
    ensures LinkSound(ReadFrom(s, socket, world), c, world)
  {
    if c == socket {
      var wire := LinkOf(s, c).wire;
      assert [wire[0]] + wire[1..] == wire;
      WireShrinks(wire[0], wire[1..], s.log);
    }
  }

  lemma {:induction false} ReadKeeps(s: System, socket: Socket, world: World, c: Socket)
    requires SocketSound(s, socket, world) && SocketSound(s, c, world)
    requires LinkOf(s, socket).phase.Up? && LinkOf(s, socket).wire != []
    ensures SocketSound(ReadFrom(s, socket, world), c, world)
  {
    RoomKeeps(s, world, c);
    ReadKeepsLink(s, socket, world, c);
    ReadKeepsEnds(s, socket, world, c);
    if !LinkOf(s, c).everUp {
      ReadKeepsAway(s, socket, world, c);
    }
  }

  lemma {:induction false} ReadKeepsEnds(s: System, socket: Socket, world: World, c: Socket)
    requires LinkSound(s, socket, world) && LinkOf(s, socket).wire != []
    requires SocketSound(Room(s, world), c, world)
    ensures var t := ReadFrom(s, socket, world);
            LinkOf(t, c).phase.Up? ==> forall id :: world.owner(id) == c ==> EndsLatest(Pending(t, c), t.log, id)
  {
    var t, u := ReadFrom(s, socket, world), Room(s, world);
    if LinkOf(t, c).phase.Up? {
      forall id | world.owner(id) == c ensures EndsLatest(Pending(t, c), t.log, id) {
        assert EndsLatest(Pending(u, c), u.log, id);
        ReadKeepsLatest(s, socket, world, c, id);
      }
    }
  }

  /** A socket never connected has nothing queued, and what is read belongs to another one. */
  lemma {:induction false} ReadKeepsAway(s: System, socket: Socket, world: World, c: Socket)
    requires LinkSound(s, socket, world) && LinkOf(s, socket).phase.Up? && LinkOf(s, socket).wire != []
    requires SocketSound(Room(s, world), c, world) && !LinkOf(s, c).everUp
    ensures forall r :: r in Reports(ReadFrom(s, socket, world).queue.queue) ==> world.owner(r.orderId) != c
  {
    ReadQueues(s, socket, world);
    assert LinkOf(s, socket).wire[0] in LinkOf(s, socket).wire;
  }

  /** Steps that leave the log and the queue as they are. */
  lemma {:induction false} UntouchedQueue(s: System, t: System, world: World, c: Socket)
    requires SocketSound(s, c, world)
    requires t.log == s.log && t.queue == s.queue
    requires LinkOf(t, c).everUp == LinkOf(s, c).everUp
    requires LinkOf(t, c) == LinkOf(s, c) || (!LinkOf(t, c).phase.Up? && LinkOf(t, c).wire == [])
    ensures SocketSound(t, c, world)
  {
    if LinkOf(t, c) == LinkOf(s, c) {
      assert Pending(t, c) == Pending(s, c);
    }
  }

  lemma {:induction false} SocketStepKeeps(s: System, action: Action, world: World, c: Socket)
    requires Sound(s, world) && Enabled(s, action)
    ensures SocketSound(Next(s, action, world), c, world)
  {
    assert SocketSound(s, c, world) && SocketSound(s, Global, world) && SocketSound(s, Site, world);
    match action
    case Emit(report) => EmitKeeps(s, report, world, c);
    case Resume(socket) => ResumeKeeps(s, socket, world, c);
    case Read(socket) => ReadKeeps(s, socket, world, c);
    case Consume => OldestGone(s, Consumed(s), world, c);
    case _ => UntouchedQueue(s, Next(s, action, world), world, c);
  }

  /** Whatever is queued after a step was queued before it, or just read from a wire. */
  lemma {:induction false} QueuedIsLogged(s: System, action: Action, world: World)
    requires Sound(s, world) && Enabled(s, action)
    ensures forall r :: r in Reports(Next(s, action, world).queue.queue) ==> r in Next(s, action, world).log
  {
    match action
    case Resume(socket) =>
      if LinkOf(s, socket).everUp {
        ReconnectQueues(s, socket, world);
        RoomKeeps(s, world, Global);
      }
    case Read(socket) =>
      ReadQueues(s, socket, world);
      RoomKeeps(s, world, Global);
      assert SocketSound(s, socket, world);
      assert LinkOf(s, socket).wire[0] in LinkOf(s, socket).wire;
    case Consume => OldestGone(s, Consumed(s), world, Global);
    case _ =>
  }

  lemma {:induction false} ServeKeepsViewBehind(orders: seq<Order>, log: seq<ExecutionReport>)
    requires Truthful(orders, log)
    ensures ViewBehind(SeededView(orders), log)
  {
    forall id | id in SeededView(orders)
      ensures Latest(log, id).Some? && SeededView(orders)[id].updateTime <= TimeOf(Latest(log, id).value)
    {
      assert Entry(SeededView(orders), id) == TrueEntry(log, id);
    }
  }

  lemma {:induction false} ApplyKeepsViewBehind(view: View, report: ExecutionReport, log: seq<ExecutionReport>)
    requires ViewBehind(view, log) && TimesOrdered(log) && report in log
    ensures ViewBehind(AppliedView(view, report), log)
  {
    LatestIsNewest(log, report);
  }

  lemma {:induction false} StepKeepsViewBehind(s: System, action: Action, world: World)
    requires Sound(s, world) && Enabled(s, action)
    requires TimesOrdered(Next(s, action, world).log)
    ensures ViewBehind(CurrentView(Next(s, action, world)), Next(s, action, world).log)
  {
    match action
    case Emit(report) => EmitKeepsViewBehind(CurrentView(s), s.log, report);
    case Serve(orders) => ServeKeepsViewBehind(orders, s.log);
    case Consume =>
      var event := s.queue.queue[0];
      if event.Report? {
        QueuedReport(s.queue.queue);
        ApplyKeepsViewBehind(s.tracker.view, event.report, s.log);
      }
    case _ =>
  }

  lemma {:induction false} QueuedReport(events: seq<Event>)
    requires events != [] && events[0].Report?
    ensures events[0].report in Reports(events)
  {
    assert events == [events[0]] + events[1..];
    ReportsOfConcat([events[0]], events[1..]);
    ReportsOfOne(events[0]);
  }

  /** Every step keeps the system sound, whatever the queue drops. */
  lemma {:induction false} StepKeepsSound(s: System, action: Action, world: World)
    requires Sound(s, world) && TimesOrdered(Next(s, action, world).log)
    ensures Sound(Next(s, action, world), world)
  {
    if Enabled(s, action) {
      SocketStepKeeps(s, action, world, Global);
      SocketStepKeeps(s, action, world, Site);
      QueuedIsLogged(s, action, world);
      StepKeepsViewBehind(s, action, world);
    }
  }

  // ----- every trusted step keeps the view right -----

  /** Applying the last pending report of an order makes its entry true. */
  lemma {:induction false} LastReportSettles(view: View, report: ExecutionReport, pending: seq<ExecutionReport>,
                                             log: seq<ExecutionReport>, id: OrderId)
    requires EndsLatest([report] + pending, log, id) && Latest(pending, id).None?
    requires ViewBehind(view, log)
    requires Latest([report] + pending, id).None? ==> Entry(view, id) == TrueEntry(log, id)
    ensures Entry(AppliedView(view, report), id) == TrueEntry(log, id)
  {
    LatestOfConcat([report], pending, id);
    LatestAfterEmit([], report, id);
    assert [] + [report] == [report];
    ApplyTouchesOneEntry(view, report, id);
  }

  /** What the consumer takes from a queue without a signal, and what is then pending. */
  lemma {:induction false} ConsumedPending(s: System, c: Socket)
    requires s.tracker.Tracking? && s.queue.queue != [] && !Signalled(s)
    ensures var event, after := s.queue.queue[0], Pending(Consumed(s), c);
            && !event.Reconnected?
            && Pending(s, c) == if event.Report? then [event.report] + after else after
  {
    var event, rest := s.queue.queue[0], s.queue.queue[1..];
    assert s.queue.queue == [event] + rest && event in s.queue.queue;
    ConsumePending(event, rest, LinkOf(s, c).wire);
  }

  lemma {:induction false} ConsumeSettles(s: System, world: World, c: Socket, id: OrderId)
    requires SocketSound(s, c, world) && ViewBehind(CurrentView(s), s.log)
    requires s.tracker.Tracking? && s.queue.queue != [] && !Signalled(s)
    requires LinkOf(s, c).phase.Up? && world.owner(id) == c && Settled(s, c, world)
    requires Latest(Pending(Consumed(s), c), id).None?
    ensures Entry(CurrentView(Consumed(s)), id) == TrueEntry(s.log, id)
  {
    var event := s.queue.queue[0];
    ConsumedPending(s, c);
    assert EndsLatest(Pending(s, c), s.log, id);
    if event.Report? {
      LastReportSettles(s.tracker.view, event.report, Pending(Consumed(s), c), s.log, id);
    }
  }

  lemma {:induction false} ReadSettles(s: System, socket: Socket, world: World, c: Socket, id: OrderId)
    requires Sound(s, world) && Enabled(s, Read(socket)) && ReadFrom(s, socket, world).queue.lagged == s.queue.lagged
    requires LinkOf(s, c).phase.Up? && world.owner(id) == c && Settled(s, c, world)
    requires Latest(Pending(ReadFrom(s, socket, world), c), id).None?
    ensures Entry(CurrentView(ReadFrom(s, socket, world)), id) == TrueEntry(s.log, id)
  {
    assert SocketSound(s, socket, world);
    EnqueuedAppends(s, Report(LinkOf(s, socket).wire[0]), world);
    ReadKeepsLatest(s, socket, world, c, id);
  }

  /** With no fresh seed due before or after it, a step that drops nothing keeps every connected
      socket settled. */
  lemma {:induction false} StepSettles(s: System, action: Action, world: World, c: Socket)
    requires Sound(s, world) && Enabled(s, action) && Next(s, action, world).queue.lagged == s.queue.lagged
    requires !SeedDue(s) && !SeedDue(Next(s, action, world)) && BothEverUp(s)
    requires UpIsSettled(s, c, world)
    ensures UpIsSettled(Next(s, action, world), c, world)
  {
    var t := Next(s, action, world);
    if action.Resume? {
      ReconnectQueues(s, action.socket, world);
    } else if LinkOf(t, c).phase.Up? {
      assert LinkOf(s, c).phase.Up? && SocketSound(s, c, world);
      forall id | world.owner(id) == c && Latest(Pending(t, c), id).None?
        ensures Entry(CurrentView(t), id) == TrueEntry(t.log, id)
      {
        match action
        case Emit(report) =>
          assert EndsLatest(Pending(s, c), s.log, id);
          EmitKeepsPending(s, report, world, c, id);
        case Read(socket) => ReadSettles(s, socket, world, c, id);
        case Consume => ConsumeSettles(s, world, c, id);
        case _ =>
      }
    }
  }

  /** The only step after which a seed is no longer due, while nothing is dropped, is REST's answer. */
  lemma {:induction false} OnlyServeEndsDue(s: System, action: Action, world: World)
    requires Enabled(s, action) && Next(s, action, world).queue.lagged == s.queue.lagged
    requires SeedDue(s) && !SeedDue(Next(s, action, world))
    ensures action.Serve?
  {
    match action
    case Resume(socket) => EnqueuedAppends(s, Reconnected, world);
    case Read(socket) => EnqueuedAppends(s, Report(LinkOf(s, socket).wire[0]), world);
    case _ =>
  }

  /** A truthful seed makes every entry right at once. */
  lemma {:induction false} ServeSettles(s: System, orders: seq<Order>, world: World, c: Socket)
    requires Truthful(orders, s.log)
    ensures Settled(s.(tracker := Answered(orders)), c, world)
  {
    forall id ensures Entry(SeededView(orders), id) == TrueEntry(s.log, id) {
    }
  }

  lemma {:induction false} StepKeepsCorrect(s: System, action: Action, world: World)
    requires Sound(s, world) && Correct(s, world)
    requires Next(s, action, world).queue.lagged == s.queue.lagged && BothEverUp(Next(s, action, world))
    ensures Correct(Next(s, action, world), world)
  {
    var t := Next(s, action, world);
    if Enabled(s, action) && !SeedDue(t) {
      if SeedDue(s) {
        OnlyServeEndsDue(s, action, world);
        ServeSettles(s, action.orders, world, Global);
        ServeSettles(s, action.orders, world, Site);
      } else {
        StepSettles(s, action, world, Global);
        StepSettles(s, action, world, Site);
      }
    }
  }

  // ----- whole runs -----

  lemma {:induction false} AfterOneMore(s: System, actions: seq<Action>, action: Action, world: World)
    ensures After(s, actions + [action], world) == Next(After(s, actions, world), action, world)
    ensures SeedsAfterFirstConnects(s, actions + [action], world) <==>
            && SeedsAfterFirstConnects(s, actions, world)
            && (action.Serve? && Enabled(After(s, actions, world), action) ==> BothEverUp(After(s, actions, world)))
  {
    assert (actions + [action])[..|actions|] == actions;
  }

  /** The log, the lag counter and the first connects only grow. */
  lemma {:induction false} StepMonotone(s: System, action: Action, world: World)
    ensures s.log <= Next(s, action, world).log
    ensures s.queue.lagged <= Next(s, action, world).queue.lagged
    ensures BothEverUp(s) ==> BothEverUp(Next(s, action, world))
  {
  }

  lemma {:induction false} EarlierTimesOrdered(log: seq<ExecutionReport>, longer: seq<ExecutionReport>)
    requires log <= longer && TimesOrdered(longer)
    ensures TimesOrdered(log)
  {
    forall i, j | 0 <= i < j < |log| && log[i].orderId == log[j].orderId ensures TimeOf(log[i]) <= TimeOf(log[j]) {
      assert longer[i] == log[i] && longer[j] == log[j];
    }
  }

  lemma {:induction false} RunKeeps(s: System, actions: seq<Action>, world: World)
    requires Start(s, world) && TimesOrdered(After(s, actions, world).log)
    ensures Sound(After(s, actions, world), world)
    ensures Trusted(s, actions, world) ==> Correct(After(s, actions, world), world)
  {
    if actions == [] {
      assert Pending(s, Global) == s.global.wire && Pending(s, Site) == s.site.wire;
    } else {
      var init, last := actions[..|actions| - 1], actions[|actions| - 1];
      var before := After(s, init, world);
      StepMonotone(before, last, world);
      EarlierTimesOrdered(before.log, After(s, actions, world).log);
      RunKeeps(s, init, world);
      StepKeepsSound(before, last, world);
      if Trusted(s, actions, world) && !SeedDue(After(s, actions, world)) {
        StepKeepsCorrect(before, last, world);
      }
    }
  }

  /** Each order settles as soon as its own reports are drained: in a trusted run with no reconnect
      signal pending and its socket up, an order that no queued or unread report mentions is in the
      view exactly as it is at the exchange. So a replayed old report can show a ghost only before
      the drain. */
  lemma {:induction false} DrainedOrderIsRight(s: System, actions: seq<Action>, world: World, id: OrderId)
    requires Start(s, world) && Trusted(s, actions, world)
    requires TimesOrdered(After(s, actions, world).log)
    requires var t := After(s, actions, world);
             && t.tracker.Tracking? && !Signalled(t)
             && LinkOf(t, world.owner(id)).phase.Up?
             && Latest(Pending(t, world.owner(id)), id).None?
    ensures Entry(After(s, actions, world).tracker.view, id) == TrueEntry(After(s, actions, world).log, id)
  {
    RunKeeps(s, actions, world);
    assert UpIsSettled(After(s, actions, world), world.owner(id), world);
  }

  /** Convergence: over any number of drops and reconnects of either socket and any overflow of the
      queue, once both sockets are up and everything sent has been consumed, the view is exactly
      the exchange's open orders, provided each order's times never decrease and, since a fresh
      seed was last due, nothing was dropped and both sockets had been connected once. */
  lemma {:induction false} TrackerConverges(s: System, actions: seq<Action>, world: World)
    requires Start(s, world) && Trusted(s, actions, world)
    requires TimesOrdered(After(s, actions, world).log)
    requires Quiescent(After(s, actions, world))
    ensures Agrees(After(s, actions, world).tracker.view, After(s, actions, world).log)
  {
    var t := After(s, actions, world);
    forall id ensures Entry(t.tracker.view, id) == TrueEntry(t.log, id) {
      assert Pending(t, world.owner(id)) == [];
      DrainedOrderIsRight(s, actions, world, id);
    }
  }

  /** A run in which the queue never overflowed and no seed preceded the first connects is trusted. */
  lemma {:induction false} LosslessIsTrusted(s: System, actions: seq<Action>, world: World)
    requires Start(s, world) && SeedsAfterFirstConnects(s, actions, world)
    requires After(s, actions, world).queue.lagged == 0
    ensures Trusted(s, actions, world)
    ensures After(s, actions, world).tracker.Seeding? || BothEverUp(After(s, actions, world))
  {
    if actions != [] {
      var before := After(s, actions[..|actions| - 1], world);
      StepMonotone(before, actions[|actions| - 1], world);
      LosslessIsTrusted(s, actions[..|actions| - 1], world);
    }
  }

  /** Self-healing: whatever was dropped or seeded too early before, a run is trusted again from the
      moment a reconnect signal is queued. */
  lemma {:induction false} ReconnectRestoresTrust(s: System, actions: seq<Action>, world: World, c: Socket)
    requires var t := After(s, actions, world); LinkOf(t, c).phase.Accepted? && LinkOf(t, c).everUp
    ensures Trusted(s, actions + [Resume(c)], world)
  {
    AfterOneMore(s, actions, Resume(c), world);
    ReconnectQueues(After(s, actions, world), c, world);
  }

  // ----- the step system's tracker is the loop -----

  /** The REST answers the tracker has taken, in order. */
  ghost function Answers(s: System, actions: seq<Action>, world: World): seq<seq<Order>> {
    if actions == [] then []
    else
      var before := After(s, actions[..|actions| - 1], world);
      var init := Answers(s, actions[..|actions| - 1], world);
      if actions[|actions| - 1].Reply? && before.tracker.Answered? then init + [before.tracker.orders] else init
  }

  lemma {:induction false} QueueFaithful(s: System, actions: seq<Action>, world: World)
    requires Start(s, world)
    ensures Faithful(After(s, actions, world).queue, world.maxsize)
  {
    if actions != [] {
      var before := After(s, actions[..|actions| - 1], world);
      QueueFaithful(s, actions[..|actions| - 1], world);
      TakenFaithful(before.queue, world.maxsize);
      match actions[|actions| - 1]
      case Resume(c) => OfferedFaithful(before.queue, Reconnected, world.maxsize);
      case Read(c) =>
        if LinkOf(before, c).wire != [] {
          OfferedFaithful(before.queue, Report(LinkOf(before, c).wire[0]), world.maxsize);
        }
      case _ =>
    }
  }

  ghost predicate LoopAgrees(t: System, answers: seq<seq<Order>>, consumed: seq<Event>) {
    if t.tracker.Tracking? then
      && |answers| == Signals(consumed) + 1
      && Track(answers, consumed).events != []
      && t.tracker.view == Current(map[], Track(answers, consumed).events)
    else
      && |answers| == Signals(consumed)
      && (consumed == [] || consumed[|consumed| - 1].Reconnected?)
  }

  lemma {:induction false} ReplyIsLoopStep(s: System, answers: seq<seq<Order>>, world: World)
    requires Faithful(s.queue, world.maxsize) && LoopAgrees(s, answers, Delivered(s.queue))
    requires s.tracker.Answered?
    ensures LoopAgrees(Next(s, Reply, world), answers + [s.tracker.orders], Delivered(s.queue))
  {
    TrackOneMoreSeed(answers, Delivered(s.queue), s.tracker.orders);
  }

  lemma {:induction false} ConsumeIsLoopStep(s: System, answers: seq<seq<Order>>, world: World)
    requires Faithful(s.queue, world.maxsize) && LoopAgrees(s, answers, Delivered(s.queue))
    requires Enabled(s, Consume)
    ensures var t := Next(s, Consume, world);
            Faithful(t.queue, world.maxsize) && LoopAgrees(t, answers, Delivered(t.queue))
  {
    TakenFaithful(s.queue, world.maxsize);
    TrackOneMoreEvent(answers, Delivered(s.queue), s.queue.queue[0]);
  }

  /** Whatever the interleaving, the tracker's view is the one the loop yields last when it is
      given the REST answers taken and the events delivered so far. */
  lemma {:induction false} TrackerIsTheLoop(s: System, actions: seq<Action>, world: World)
    requires Start(s, world)
    ensures Faithful(After(s, actions, world).queue, world.maxsize)
    ensures LoopAgrees(After(s, actions, world), Answers(s, actions, world), Delivered(After(s, actions, world).queue))
  {
    QueueFaithful(s, actions, world);
    if actions != [] {
      var init, last := actions[..|actions| - 1], actions[|actions| - 1];
      var before, after := After(s, init, world), After(s, actions, world);
      TrackerIsTheLoop(s, init, world);
      if last.Consume? && Enabled(before, last) {
        ConsumeIsLoopStep(before, Answers(s, init, world), world);
      } else if last.Reply? && Enabled(before, last) {
        ReplyIsLoopStep(before, Answers(s, init, world), world);
      } else {
        OtherStepsLeaveTheLoop(before, last, Answers(s, init, world), world);
      }
    }
  }

  lemma {:induction false} OtherStepsLeaveTheLoop(s: System, action: Action, answers: seq<seq<Order>>, world: World)
    requires Faithful(s.queue, world.maxsize) && LoopAgrees(s, answers, Delivered(s.queue))
    requires Faithful(Next(s, action, world).queue, world.maxsize)
    requires !(action.Reply? || action.Consume?) || !Enabled(s, action)
    ensures LoopAgrees(Next(s, action, world), answers, Delivered(Next(s, action, world).queue))
  {
    var t := Next(s, action, world);
    OtherStepsKeepTracker(s, action, world);
    OffersKeepDelivered(s.queue, t.queue);
  }

  lemma {:induction false} OtherStepsKeepTracker(s: System, action: Action, world: World)
    requires !(action.Reply? || action.Consume?) || !Enabled(s, action)
    ensures var t := Next(s, action, world);
            && s.queue.offered <= t.queue.offered && t.queue.taken == s.queue.taken
            && (t.tracker == s.tracker || (s.tracker.Seeding? && t.tracker.Answered?))
  {
  }

  lemma {:induction false} OffersKeepDelivered(before: Channel<Event>, after: Channel<Event>)
    requires before.offered <= after.offered && before.taken == after.taken
    requires forall k :: 0 <= k < |before.taken| ==> before.taken[k] < |before.offered|
    ensures Delivered(after) == Delivered(before)
  {
  }
}
