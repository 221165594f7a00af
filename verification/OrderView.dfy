/** The local view of open orders and the execution reports that update it. */
module OrderViews {
  import opened Prelude

  datatype OrderId = OrderId(value: int)

  datatype Status = New | PartiallyFilled | Filled | Canceled | Rejected | Expired

  datatype Order = Order(orderId: OrderId, status: Status, updateTime: int,
                         executedQty: int, quoteQty: int, isWorking: bool)

  /** The wire frame: the status is a raw string and several fields may be absent. */
  datatype ExecutionReport = ExecutionReport(
    orderId: OrderId, currentStatus: string, eventTime: int, transactionTime: Option<int>,
    cumulativeFilledQty: int, cumulativeQuoteQty: Option<int>, isOnBook: Option<bool>)

  type View = map<OrderId, Order>

  predicate IsActive(status: Status) { status.New? || status.PartiallyFilled? }

  predicate IsTerminal(status: Status) {
    status.Filled? || status.Canceled? || status.Rejected? || status.Expired?
  }

  /** An unmodelled status string falls back to NEW. */
  function CoerceStatus(raw: string): Status {
    if raw == "PARTIALLY_FILLED" then PartiallyFilled
    else if raw == "FILLED" then Filled
    else if raw == "CANCELED" then Canceled
    else if raw == "REJECTED" then Rejected
    else if raw == "EXPIRED" then Expired
    else New
  }

  function OrderFromReport(report: ExecutionReport): Order {
    var status := CoerceStatus(report.currentStatus);
    Order(report.orderId, status,
          if report.transactionTime.Some? then report.transactionTime.value else report.eventTime,
          report.cumulativeFilledQty,
          if report.cumulativeQuoteQty.Some? then report.cumulativeQuoteQty.value else 0,
          if report.isOnBook.Some? then report.isOnBook.value else IsActive(status))
  }

  predicate Ends(report: ExecutionReport) { IsTerminal(OrderFromReport(report).status) }

  function TimeOf(report: ExecutionReport): int { OrderFromReport(report).updateTime }

  /** The wire statuses after which an order is over. */
  predicate EndsOnWire(report: ExecutionReport) {
    || report.currentStatus == "FILLED" || report.currentStatus == "CANCELED"
    || report.currentStatus == "REJECTED" || report.currentStatus == "EXPIRED"
  }

  predicate IsOpen(status: Status) { status == New || status == PartiallyFilled }

  /** What the view makes of a frame, field by field: exactly four wire statuses end an order, any
      unknown one counts as new, and absent fields fall back to the event time, zero, and whether the
      order is open. */
  lemma {:induction false} ReportedOrder(report: ExecutionReport)
    ensures Ends(report) <==> EndsOnWire(report)
    ensures var order := OrderFromReport(report);
            && order.orderId == report.orderId && order.executedQty == report.cumulativeFilledQty
            && (IsOpen(order.status) <==> !EndsOnWire(report))
            && (order.status == PartiallyFilled <==> report.currentStatus == "PARTIALLY_FILLED")
            && (order.status == Filled <==> report.currentStatus == "FILLED")
            && (order.status == Canceled <==> report.currentStatus == "CANCELED")
            && (order.status == Rejected <==> report.currentStatus == "REJECTED")
            && (order.status == Expired <==> report.currentStatus == "EXPIRED")
            && Some(order.updateTime) == (if report.transactionTime.None? then Some(report.eventTime) else report.transactionTime)
            && Some(order.quoteQty) == (if report.cumulativeQuoteQty.None? then Some(0) else report.cumulativeQuoteQty)
            && Some(order.isWorking) == (if report.isOnBook.None? then Some(!EndsOnWire(report)) else report.isOnBook)
  {
  }

  /** The view holding the active orders of a REST reply; a later duplicate id wins. */
  function SeededView(orders: seq<Order>): View {
    if orders == [] then map[]
    else
      var last := orders[|orders| - 1];
      var rest := SeededView(orders[..|orders| - 1]);
      if IsActive(last.status) then rest[last.orderId := last] else rest
  }

  function AppliedView(view: View, report: ExecutionReport): View {
    var order := OrderFromReport(report);
    if order.orderId in view && order.updateTime < view[order.orderId].updateTime then view
    else if IsTerminal(order.status) then view - {order.orderId}
    else view[order.orderId := order]
  }

  function Replay(view: View, reports: seq<ExecutionReport>): View {
    if reports == [] then view
    else AppliedView(Replay(view, reports[..|reports| - 1]), reports[|reports| - 1])
  }

  class LocalOrderView {
    var orders: View

    constructor ()
      ensures orders == map[]
    {
      orders := map[];
    }

    method Seed(snapshot: seq<Order>)
      modifies this
      ensures orders == SeededView(snapshot)
    {
      orders := SeededView(snapshot);
    }

    method Apply(report: ExecutionReport)
      modifies this
      ensures orders == AppliedView(old(orders), report)
    {
      var order := OrderFromReport(report);
      if order.orderId in orders && order.updateTime < orders[order.orderId].updateTime {
        return;
      }
      if IsTerminal(order.status) {
        orders := orders - {order.orderId};
      } else {
        orders := orders[order.orderId := order];
      }
    }

    method Get(orderId: OrderId) returns (order: Option<Order>)
      ensures order.Some? <==> orderId in orders
      ensures order.Some? ==> order.value == orders[orderId]
    {
      order := if orderId in orders then Some(orders[orderId]) else None;
    }
  }

  // ----- what a view makes of a report -----

  /** The time a frame speaks of. */
  function WireTime(report: ExecutionReport): int {
    if report.transactionTime.Some? then report.transactionTime.value else report.eventTime
  }

  /** What applying a report does, by the wire alone: older than what is held, it changes nothing;
      otherwise it removes the order if its status is one of the four that end it, and else the order
      is held with the report's time, quantities and openness. Other orders are untouched. */
  lemma {:induction false} AppliedByWire(view: View, report: ExecutionReport)
    ensures var id, after := report.orderId, AppliedView(view, report);
            && (forall other :: other != id ==> (other in after <==> other in view) && (other in view ==> after[other] == view[other]))
            && if id in view && WireTime(report) < view[id].updateTime then after == view
               else if EndsOnWire(report) then id !in after
               else
                 && id in after && after[id].orderId == id && IsOpen(after[id].status)
                 && (after[id].status.PartiallyFilled? <==> report.currentStatus == "PARTIALLY_FILLED")
                 && after[id].updateTime == WireTime(report)
                 && after[id].executedQty == report.cumulativeFilledQty
                 && Some(after[id].quoteQty) == (if report.cumulativeQuoteQty.None? then Some(0) else report.cumulativeQuoteQty)
                 && Some(after[id].isWorking) == (if report.isOnBook.None? then Some(true) else report.isOnBook)
  {
    ReportedOrder(report);
  }

  // ----- what a view holds -----

  /** The k-th order is the last active one listed with its id. */
  ghost predicate LastActive(orders: seq<Order>, k: nat) {
    && k < |orders| && IsOpen(orders[k].status)
    && forall j :: k < j < |orders| && orders[j].orderId == orders[k].orderId ==> !IsOpen(orders[j].status)
  }

  /** Seeding holds exactly the active orders of the reply, the last one listed for each id: an
      inactive order never enters, and never displaces an active one. */
  lemma {:induction false} SeedHoldsLastActive(orders: seq<Order>, id: OrderId)
    ensures id in SeededView(orders) <==> exists k :: 0 <= k < |orders| && orders[k].orderId == id && IsOpen(orders[k].status)
    ensures id in SeededView(orders) ==>
              exists k: nat :: LastActive(orders, k) && orders[k].orderId == id && orders[k] == SeededView(orders)[id]
  {
    if orders != [] {
      var init, last := orders[..|orders| - 1], orders[|orders| - 1];
      SeedHoldsLastActive(init, id);
      if IsOpen(last.status) && last.orderId == id {
        assert LastActive(orders, |orders| - 1);
      } else if id in SeededView(init) {
        var k: nat :| LastActive(init, k) && init[k].orderId == id && init[k] == SeededView(init)[id];
        assert LastActive(orders, k) && orders[k] == init[k];
      } else {
        forall k | 0 <= k < |orders| && orders[k].orderId == id ensures !IsOpen(orders[k].status) {
          if k < |init| {
            assert init[k] == orders[k];
          }
        }
      }
    }
  }

  ghost predicate HoldsOpenOrders(view: View) {
    forall id :: id in view ==> view[id].orderId == id && IsOpen(view[id].status)
  }

  lemma {:induction false} ApplyKeepsOpen(view: View, report: ExecutionReport)
    requires HoldsOpenOrders(view)
    ensures HoldsOpenOrders(AppliedView(view, report))
  {
    var order, after := OrderFromReport(report), AppliedView(view, report);
    assert !IsTerminal(order.status) ==> IsOpen(order.status);
    forall id | id in after ensures after[id].orderId == id && IsOpen(after[id].status) {
      assert after[id] == order || (id in view && after[id] == view[id]);
    }
  }

  /** Whatever a view was seeded with and whatever reached it since, an order it returns for an id
      has that id and is open. */
  lemma {:induction false} HeldOrdersAreOpen(orders: seq<Order>, reports: seq<ExecutionReport>)
    ensures HoldsOpenOrders(Replay(SeededView(orders), reports))
  {
    if reports != [] {
      HeldOrdersAreOpen(orders, reports[..|reports| - 1]);
      ApplyKeepsOpen(Replay(SeededView(orders), reports[..|reports| - 1]), reports[|reports| - 1]);
    } else {
      forall id | id in SeededView(orders) ensures SeededView(orders)[id].orderId == id && IsOpen(SeededView(orders)[id].status) {
        SeedHoldsLastActive(orders, id);
      }
    }
  }

  // ----- one order at a time -----

  function Entry(view: View, id: OrderId): Option<Order> {
    if id in view then Some(view[id]) else None
  }

  /** The reports about one order, in the order they came. */
  function Own(reports: seq<ExecutionReport>, id: OrderId): seq<ExecutionReport> {
    if reports == [] then []
    else
      var init := Own(reports[..|reports| - 1], id);
      if reports[|reports| - 1].orderId == id then init + [reports[|reports| - 1]] else init
  }

  function AppliedEntry(entry: Option<Order>, report: ExecutionReport): Option<Order> {
    var order := OrderFromReport(report);
    if entry.Some? && order.updateTime < entry.value.updateTime then entry
    else if IsTerminal(order.status) then None
    else Some(order)
  }

  /** What a view makes of one order's own reports. */
  function ReplayOne(entry: Option<Order>, reports: seq<ExecutionReport>): Option<Order> {
    if reports == [] then entry
    else AppliedEntry(ReplayOne(entry, reports[..|reports| - 1]), reports[|reports| - 1])
  }

  lemma {:induction false} ApplyTouchesOneEntry(view: View, report: ExecutionReport, id: OrderId)
    ensures Entry(AppliedView(view, report), id) ==
            if report.orderId == id then AppliedEntry(Entry(view, id), report) else Entry(view, id)
  {
  }

  /** The entry of an order depends on that order's own reports only. */
  lemma {:induction false} EntryDependsOnOwnReports(view: View, reports: seq<ExecutionReport>, id: OrderId)
    ensures Entry(Replay(view, reports), id) == ReplayOne(Entry(view, id), Own(reports, id))
  {
    if reports != [] {
      var init, last := reports[..|reports| - 1], reports[|reports| - 1];
      EntryDependsOnOwnReports(view, init, id);
      ApplyTouchesOneEntry(Replay(view, init), last, id);
      if last.orderId == id {
        assert Own(reports, id)[..|Own(reports, id)| - 1] == Own(init, id);
      }
    }
  }

  lemma {:induction false} SameEntriesSameView(a: View, b: View)
    requires forall id :: Entry(a, id) == Entry(b, id)
    ensures a == b
  {
    forall id ensures id in a <==> id in b {
      assert Entry(a, id) == Entry(b, id);
    }
    forall id | id in a ensures a[id] == b[id] {
      assert Entry(a, id) == Entry(b, id);
    }
  }

  /** Two deliveries that agree order by order give the same view. */
  lemma {:induction false} ViewIgnoresCrossOrderTiming(view: View, a: seq<ExecutionReport>, b: seq<ExecutionReport>)
    requires forall id :: Own(a, id) == Own(b, id)
    ensures Replay(view, a) == Replay(view, b)
  {
    forall id ensures Entry(Replay(view, a), id) == Entry(Replay(view, b), id) {
      EntryDependsOnOwnReports(view, a, id);
      EntryDependsOnOwnReports(view, b, id);
    }
    SameEntriesSameView(Replay(view, a), Replay(view, b));
  }

  /** z merges x and y, keeping the order inside each. */
  ghost predicate Merges(x: seq<ExecutionReport>, y: seq<ExecutionReport>, z: seq<ExecutionReport>)
    decreases |z|
  {
    if z == [] then x == [] && y == []
    else
      var last := z[|z| - 1];
      || (x != [] && x[|x| - 1] == last && Merges(x[..|x| - 1], y, z[..|z| - 1]))
      || (y != [] && y[|y| - 1] == last && Merges(x, y[..|y| - 1], z[..|z| - 1]))
  }

  lemma {:induction false} MergeKeepsOwn(x: seq<ExecutionReport>, y: seq<ExecutionReport>, z: seq<ExecutionReport>, id: OrderId)
    requires Merges(x, y, z)
    requires forall r, s :: r in x && s in y ==> r.orderId != s.orderId
    ensures Own(z, id) == if exists r :: r in x && r.orderId == id then Own(x, id) else Own(y, id)
    ensures (exists r :: r in y && r.orderId == id) ==> Own(x, id) == []
    decreases |z|
  {
    if exists r :: r in y && r.orderId == id { NoOwn(x, id); }
    if exists r :: r in x && r.orderId == id { NoOwn(y, id); }
    if z != [] {
      if x != [] && x[|x| - 1] == z[|z| - 1] && Merges(x[..|x| - 1], y, z[..|z| - 1]) {
        MergeKeepsOwn(x[..|x| - 1], y, z[..|z| - 1], id);
        LastElsewhere(x, id);
      } else {
        MergeKeepsOwn(x, y[..|y| - 1], z[..|z| - 1], id);
        LastElsewhere(y, id);
      }
    }
  }

  lemma {:induction false} NoOwn(reports: seq<ExecutionReport>, id: OrderId)
    requires forall r :: r in reports ==> r.orderId != id
    ensures Own(reports, id) == []
  {
    if reports != [] {
      NoOwn(reports[..|reports| - 1], id);
    }
  }

  lemma {:induction false} LastElsewhere(reports: seq<ExecutionReport>, id: OrderId)
    requires reports != []
    ensures (exists r :: r in reports && r.orderId == id) <==>
            reports[|reports| - 1].orderId == id || exists r :: r in reports[..|reports| - 1] && r.orderId == id
    ensures !(exists r :: r in reports[..|reports| - 1] && r.orderId == id) ==> Own(reports[..|reports| - 1], id) == []
  {
    var init, last := reports[..|reports| - 1], reports[|reports| - 1];
    assert reports == init + [last];
    assert last in reports;
    if !(exists r :: r in init && r.orderId == id) {
      NoOwn(init, id);
    }
  }

  /** Every interleaving of two report streams about disjoint orders gives the same view. */
  lemma {:induction false} InterleavingsAgree(view: View, x: seq<ExecutionReport>, y: seq<ExecutionReport>,
                                              z: seq<ExecutionReport>, w: seq<ExecutionReport>)
    requires Merges(x, y, z) && Merges(x, y, w)
    requires forall r, s :: r in x && s in y ==> r.orderId != s.orderId
    ensures Replay(view, z) == Replay(view, w)
  {
    forall id ensures Own(z, id) == Own(w, id) {
      MergeKeepsOwn(x, y, z, id);
      MergeKeepsOwn(x, y, w, id);
    }
    ViewIgnoresCrossOrderTiming(view, z, w);
  }

  /** Applying a report twice is applying it once. */
  lemma {:induction false} ApplyIsIdempotent(view: View, report: ExecutionReport)
    ensures AppliedView(AppliedView(view, report), report) == AppliedView(view, report)
  {
    var once := AppliedView(view, report);
    if Ends(report) && report.orderId !in once {
      assert once - {report.orderId} == once;
    }
  }

  // ----- reports that only ever say "still open" -----

  /** The newest of the seed and the order's reports wins, a report winning a tie with the seed. */
  lemma {:induction false} NewestActiveReportWins(view: View, reports: seq<ExecutionReport>, id: OrderId)
    requires forall r :: r in reports ==> !Ends(r)
    ensures id in Replay(view, reports) <==> id in view || exists r :: r in reports && r.orderId == id
    ensures id in Replay(view, reports) ==>
              var e := Replay(view, reports)[id];
              && (forall r :: r in reports && r.orderId == id ==> TimeOf(r) <= e.updateTime)
              && (id in view ==> view[id].updateTime <= e.updateTime)
              && ((exists r :: r in reports && r.orderId == id && OrderFromReport(r) == e)
                  || (id in view && e == view[id] && forall r :: r in reports && r.orderId == id ==> TimeOf(r) < e.updateTime))
  {
    if reports != [] {
      var init, last := reports[..|reports| - 1], reports[|reports| - 1];
      assert reports == init + [last];
      assert last in reports;
      NewestActiveReportWins(view, init, id);
    }
  }

  /** For active-only reports whose update times tell an order's reports apart, any order of
      delivery and any repetition gives the same view. */
  lemma {:induction false} ActiveReportsCommute(view: View, a: seq<ExecutionReport>, b: seq<ExecutionReport>)
    requires forall r :: r in a <==> r in b
    requires forall r :: r in a ==> !Ends(r)
    requires forall r, s :: r in a && s in a && r.orderId == s.orderId && TimeOf(r) == TimeOf(s) ==> r == s
    ensures Replay(view, a) == Replay(view, b)
  {
    forall id ensures Entry(Replay(view, a), id) == Entry(Replay(view, b), id) {
      NewestActiveReportWins(view, a, id);
      NewestActiveReportWins(view, b, id);
    }
    SameEntriesSameView(Replay(view, a), Replay(view, b));
  }

  // ----- resurrection -----

  lemma {:induction false} AbsentAfterTerminalReports(view: View, reports: seq<ExecutionReport>, id: OrderId)
    requires id !in view
    requires forall r :: r in reports && r.orderId == id ==> Ends(r)
    ensures id !in Replay(view, reports)
  {
    if reports != [] {
      assert reports == reports[..|reports| - 1] + [reports[|reports| - 1]];
      assert reports[|reports| - 1] in reports;
      AbsentAfterTerminalReports(view, reports[..|reports| - 1], id);
    }
  }

  lemma {:induction false} ReplayOneMore(view: View, reports: seq<ExecutionReport>, i: nat)
    requires i < |reports|
    ensures Replay(view, reports[..i + 1]) == AppliedView(Replay(view, reports[..i]), reports[i])
  {
    assert reports[..i + 1][..i] == reports[..i];
  }

  /** An order the view does not hold stays out of it exactly as long as no report calls it open:
      a late non-terminal report re-adds a finished order, because nothing is left to compare with. */
  lemma {:induction false} AbsentUnlessActiveReport(view: View, reports: seq<ExecutionReport>, id: OrderId)
    requires id !in view
    ensures (forall k :: 0 <= k <= |reports| ==> id !in Replay(view, reports[..k]))
            <==> (forall r :: r in reports && r.orderId == id ==> Ends(r))
  {
    if forall r :: r in reports && r.orderId == id ==> Ends(r) {
      forall k | 0 <= k <= |reports| ensures id !in Replay(view, reports[..k]) {
        AbsentAfterTerminalReports(view, reports[..k], id);
      }
    } else {
      var r :| r in reports && r.orderId == id && !Ends(r);
      var i :| 0 <= i < |reports| && reports[i] == r;
      ReplayOneMore(view, reports, i);
      assert id in Replay(view, reports[..i]) || id in Replay(view, reports[..i + 1]);
    }
  }

  /** The concrete case: filled at time 3, then a partial fill of time 2 arrives late. */
  lemma {:induction false} LateReportResurrects()
    ensures var id := OrderId(1);
            var r := (status: string, time: int) => ExecutionReport(id, status, time, None, 0, None, None);
            && id !in Replay(map[], [r("NEW", 1), r("FILLED", 3)])
            && id in Replay(map[], [r("NEW", 1), r("FILLED", 3), r("PARTIALLY_FILLED", 2)])
  {
    var id := OrderId(1);
    var a := ExecutionReport(id, "NEW", 1, None, 0, None, None);
    var b := ExecutionReport(id, "FILLED", 3, None, 0, None, None);
    var c := ExecutionReport(id, "PARTIALLY_FILLED", 2, None, 0, None, None);
    assert [a, b, c][..2] == [a, b];
    assert [a, b][..1] == [a];
    assert [a][..0] == [];
    assert Replay(map[], [a]) == map[id := OrderFromReport(a)];
    assert id !in Replay(map[], [a, b]);
    assert Replay(map[], [a, b, c]) == AppliedView(Replay(map[], [a, b]), c);
  }
}
