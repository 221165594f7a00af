/** What any number of tasks can get admitted through the limiter, over every interleaving of
    their locked sections with usage headers and reseeds. */
module RateHistory {
  import opened Prelude
  import opened RateLimit

  /** Each event is atomic: some task's locked section, one usage header, or a reseed. */
  datatype Event =
    | Try(now: int, weight: nat, mutating: bool)
    | Header(now: int, key: Key, reported: int)
    | Reseed(now: int, rules: seq<Rule>)

  /** A charge admitted to a window, and the count the rolled window had just before. */
  datatype Admission = Admission(time: int, amount: nat, found: int)

  ghost predicate Possible(event: Event) { event.Reseed? ==> Proper(event.rules) }

  function Step(ws: seq<Win>, event: Event): (after: seq<Win>)
    requires Sound(ws) && Possible(event)
    ensures Sound(after)
  {
    match event
    case Try(now, weight, mutating) => Tried(ws, now, weight, mutating)
    case Header(now, key, reported) => ReportedAll(ws, key, now, reported)
    case Reseed(_, rules) => ReseededSound(ws, rules); Reseeded(ws, rules)
  }

  /** What the event admits to the window of a key. */
  function AdmittedBy(ws: seq<Win>, event: Event, key: Key): seq<Admission>
    requires Sound(ws)
  {
    if event.Try? && Wait(RolledAll(ws, event.now, event.mutating), event.now, event.weight, event.mutating) <= 0
       && WindowOf(ws, key).Some? && ChargeOf(key, event.weight, event.mutating).Some?
    then [Admission(event.now, ChargeOf(key, event.weight, event.mutating).value, Rolled(WindowOf(ws, key).value, event.now).used)]
    else []
  }

  ghost predicate AllPossible(events: seq<Event>) {
    forall k :: 0 <= k < |events| ==> Possible(events[k])
  }

  function After(ws: seq<Win>, events: seq<Event>): (after: seq<Win>)
    requires Sound(ws) && AllPossible(events)
    ensures Sound(after)
  {
    if events == [] then ws else Step(After(ws, events[..|events| - 1]), events[|events| - 1])
  }

  function Admitted(ws: seq<Win>, events: seq<Event>, key: Key): seq<Admission>
    requires Sound(ws) && AllPossible(events)
  {
    if events == [] then []
    else
      var init := events[..|events| - 1];
      Admitted(ws, init, key) + AdmittedBy(After(ws, init), events[|events| - 1], key)
  }

  /** The total admitted at times of lo..hi-1. */
  function Total(admitted: seq<Admission>, lo: int, hi: int): nat {
    if admitted == [] then 0
    else
      var last := admitted[|admitted| - 1];
      Total(admitted[..|admitted| - 1], lo, hi) + (if lo <= last.time < hi then last.amount else 0)
  }

  ghost predicate MonotoneClock(events: seq<Event>) {
    forall i, j :: 0 <= i < j < |events| ==> events[i].now <= events[j].now
  }

  /** Every reseed keeps the window of the key, its duration, and its limit within the cap. */
  ghost predicate Kept(events: seq<Event>, key: Key, duration: int, cap: int) {
    forall k :: 0 <= k < |events| && events[k].Reseed? ==> KeptBy(events[k].rules, key, duration, cap)
  }

  ghost predicate KeptBy(rules: seq<Rule>, key: Key, duration: int, cap: int) {
    Duration(key) == duration && RuleFor(rules, key).Some? && RuleFor(rules, key).value.limit <= cap
  }

  // ----- totals -----

  lemma {:induction false} TotalOneMore(admitted: seq<Admission>, a: Admission, lo: int, hi: int)
    ensures Total(admitted + [a], lo, hi) == Total(admitted, lo, hi) + (if lo <= a.time < hi then a.amount else 0)
  {
    assert (admitted + [a])[..|admitted|] == admitted;
  }

  lemma {:induction false} TotalSplits(admitted: seq<Admission>, lo: int, mid: int, hi: int)
    requires lo <= mid <= hi
    ensures Total(admitted, lo, hi) == Total(admitted, lo, mid) + Total(admitted, mid, hi)
  {
    if admitted != [] {
      TotalSplits(admitted[..|admitted| - 1], lo, mid, hi);
    }
  }

  lemma {:induction false} TotalOutside(admitted: seq<Admission>, lo: int, hi: int)
    requires forall a :: a in admitted ==> a.time < lo
    ensures Total(admitted, lo, hi) == 0
  {
    if admitted != [] {
      assert admitted[|admitted| - 1] in admitted;
      TotalOutside(admitted[..|admitted| - 1], lo, hi);
    }
  }

  // ----- the invariant of one window -----

  /** One period admitted at most the cap, or exactly one single charge, admitted while the window
      was empty. */
  ghost predicate PeriodBounded(admitted: seq<Admission>, lo: int, hi: int, cap: int) {
    Total(admitted, lo, hi) <= Max(0, cap)
    || exists a :: a in admitted && lo <= a.time < hi && a.found == 0 && a.amount == Total(admitted, lo, hi)
  }

  /** The start of the k-th period from a given one, forwards or backwards. */
  function Grid(start: int, duration: int, k: int): int
    decreases if k >= 0 then k else -k
  {
    if k == 0 then start
    else if k > 0 then Grid(start, duration, k - 1) + duration
    else Grid(start, duration, k + 1) - duration
  }

  /** The k-th period counted from the current one. */
  function PeriodStart(w: Win, k: int): int
    requires w.start.Some?
  {
    Grid(w.start.value, w.duration, k)
  }

  ghost predicate Accounted(w: Win, admitted: seq<Admission>, now: int, cap: int) {
    && w.duration > 0 && w.used >= 0 && w.limit <= cap
    && (w.start.None? ==> admitted == [])
    && (w.start.Some? ==>
          && w.start.value <= now
          && (forall a :: a in admitted ==> a.time < w.start.value + w.duration)
          && Total(admitted, w.start.value, w.start.value + w.duration) <= w.used
          && forall k :: PeriodBounded(admitted, PeriodStart(w, k), PeriodStart(w, k) + w.duration, cap))
  }

  lemma {:induction false} PeriodsAreDisjoint(start: int, d: int, k: int)
    requires d > 0
    ensures k < 0 ==> Grid(start, d, k) + d <= start
    ensures k > 0 ==> Grid(start, d, k) >= start + d
    decreases if k >= 0 then k else -k
  {
    if k > 1 {
      PeriodsAreDisjoint(start, d, k - 1);
    } else if k < -1 {
      PeriodsAreDisjoint(start, d, k + 1);
    }
  }

  /** The grid seen from its q-th period is the same grid. */
  lemma {:induction false} GridShift(start: int, d: int, q: nat, k: int)
    ensures Grid(Grid(start, d, q), d, k) == Grid(start, d, k + q)
    decreases if k >= 0 then k else -k
  {
    if k > 0 {
      GridShift(start, d, q, k - 1);
      assert Grid(start, d, k + q) == Grid(start, d, k - 1 + q) + d;
    } else if k < 0 {
      GridShift(start, d, q, k + 1);
      assert Grid(start, d, k + 1 + q) == Grid(start, d, k + q) + d;
    }
  }

  /** Walking forwards stays on the grid. */
  lemma {:induction false} GridPointIsOnGrid(start: int, d: int, now: int) returns (q: nat)
    requires d > 0 && start <= now
    ensures GridPoint(start, d, now) == Grid(start, d, q)
    decreases now - start
  {
    if now - start < d {
      q := 0;
    } else {
      var rest := GridPointIsOnGrid(start + d, d, now);
      q := rest + 1;
      GridShift(start, d, 1, rest);
      assert Grid(start, d, 1) == Grid(start, d, 0) + d == start + d;
    }
  }

  /** Rolling moves along the window's own grid: the k-th period of the rolled window is a period
      of the old one. */
  lemma {:induction false} RollStaysOnGrid(w: Win, now: int) returns (q: nat)
    requires w.duration > 0 && w.start.Some? && now - w.start.value >= w.duration
    ensures Rolled(w, now).start.Some? && Rolled(w, now).start.value >= w.start.value + w.duration
    ensures forall k :: PeriodStart(Rolled(w, now), k) == PeriodStart(w, k + q)
  {
    GridPointBounds(w.start.value, w.duration, now);
    q := GridPointIsOnGrid(w.start.value, w.duration, now);
    forall k ensures PeriodStart(Rolled(w, now), k) == PeriodStart(w, k + q) {
      GridShift(w.start.value, w.duration, q, k);
    }
  }

  /** The invariant speaks of a window's grid, count and limit only. */
  lemma {:induction false} SameGrid(w: Win, t: Win, admitted: seq<Admission>, now: int, later: int, cap: int)
    requires Accounted(w, admitted, now, cap) && now <= later
    requires t.start == w.start && t.duration == w.duration && t.used >= w.used && t.limit <= cap
    ensures Accounted(t, admitted, later, cap)
  {
    if w.start.Some? {
      forall k ensures PeriodBounded(admitted, PeriodStart(t, k), PeriodStart(t, k) + t.duration, cap) {
        assert PeriodStart(t, k) == PeriodStart(w, k);
      }
    }
  }

  lemma {:induction false} RollKeeps(w: Win, admitted: seq<Admission>, before: int, now: int, cap: int)
    requires Accounted(w, admitted, before, cap) && before <= now
    ensures Accounted(Rolled(w, now), admitted, now, cap)
  {
    var r := Rolled(w, now);
    RollLandsInPeriod(w, now);
    if w.start.None? {
      forall k ensures PeriodBounded(admitted, PeriodStart(r, k), PeriodStart(r, k) + r.duration, cap) {
      }
    } else if now - w.start.value >= w.duration {
      var q := RollStaysOnGrid(w, now);
      TotalOutside(admitted, r.start.value, r.start.value + r.duration);
      forall k ensures PeriodBounded(admitted, PeriodStart(r, k), PeriodStart(r, k) + r.duration, cap) {
        assert PeriodBounded(admitted, PeriodStart(w, k + q), PeriodStart(w, k + q) + w.duration, cap);
      }
    } else {
      SameGrid(w, r, admitted, before, now, cap);
    }
  }

  /** A charge that fits a rolled window keeps its k-th period bounded: the current one because it
      fits, the others because it is not in them. */
  lemma {:induction false} ChargedPeriod(w: Win, admitted: seq<Admission>, now: int, charge: nat, cap: int, k: int)
    requires Accounted(w, admitted, now, cap) && w.start.Some? && now < w.start.value + w.duration
    requires Fits(w, charge)
    ensures PeriodBounded(admitted + [Admission(now, charge, w.used)], PeriodStart(w, k), PeriodStart(w, k) + w.duration, cap)
  {
    var a, lo := Admission(now, charge, w.used), PeriodStart(w, k);
    TotalOneMore(admitted, a, lo, lo + w.duration);
    assert a in admitted + [a];
    if k != 0 {
      PeriodsAreDisjoint(w.start.value, w.duration, k);
      StillBounded(admitted, a, lo, lo + w.duration, cap);
    }
  }

  lemma {:induction false} StillBounded(admitted: seq<Admission>, a: Admission, lo: int, hi: int, cap: int)
    requires PeriodBounded(admitted, lo, hi, cap) && !(lo <= a.time < hi)
    ensures PeriodBounded(admitted + [a], lo, hi, cap)
  {
    TotalOneMore(admitted, a, lo, hi);
    if Total(admitted, lo, hi) > Max(0, cap) {
      var b :| b in admitted && lo <= b.time < hi && b.found == 0 && b.amount == Total(admitted, lo, hi);
      assert b in admitted + [a];
    }
  }

  lemma {:induction false} ChargeKeeps(w: Win, admitted: seq<Admission>, now: int, charge: nat, cap: int)
    requires Accounted(w, admitted, now, cap) && w.start.Some? && now < w.start.value + w.duration
    requires Fits(w, charge)
    ensures Accounted(w.(used := w.used + charge), admitted + [Admission(now, charge, w.used)], now, cap)
  {
    var t, more := w.(used := w.used + charge), admitted + [Admission(now, charge, w.used)];
    TotalOneMore(admitted, Admission(now, charge, w.used), w.start.value, w.start.value + w.duration);
    forall k ensures PeriodBounded(more, PeriodStart(t, k), PeriodStart(t, k) + t.duration, cap) {
      ChargedPeriod(w, admitted, now, charge, cap, k);
      assert PeriodStart(t, k) == PeriodStart(w, k);
    }
  }

  // ----- what each event does to the window of one key -----

  lemma {:induction false} TryAt(ws: seq<Win>, now: int, weight: nat, mutating: bool, key: Key)
    requires Sound(ws) && WindowOf(ws, key).Some?
    ensures var event := Try(now, weight, mutating);
            var w, after, charge := WindowOf(ws, key).value, WindowOf(Step(ws, event), key), ChargeOf(key, weight, mutating);
            var r := Rolled(w, now);
            && after.Some?
            && if charge.None? then after.value == w && AdmittedBy(ws, event, key) == []
               else
                 || (after.value == r && AdmittedBy(ws, event, key) == [])
                 || (Fits(r, charge.value) && after.value == r.(used := r.used + charge.value)
                     && AdmittedBy(ws, event, key) == [Admission(now, charge.value, r.used)])
  {
    var i := Find(ws, key).value;
    TriedAt(ws, now, weight, mutating, i);
    TriedKeepsKeys(ws, now, weight, mutating);
    SameKeys(Tried(ws, now, weight, mutating), ws, key);
  }

  lemma {:induction false} TriedKeepsKeys(ws: seq<Win>, now: int, weight: nat, mutating: bool)
    requires Sound(ws)
    ensures forall i :: 0 <= i < |ws| ==> Tried(ws, now, weight, mutating)[i].key == ws[i].key
  {
  }

  /** What a try admits to the window of a key, kind by kind: the weight, one request, or for a mutating
      call one order, and only when every window of the call has room. */
  lemma {:induction false} AdmittedByKind(ws: seq<Win>, now: int, weight: nat, mutating: bool, key: Key)
    requires Sound(ws)
    ensures var charged := key.kind.Orders? ==> mutating;
            AdmittedBy(ws, Try(now, weight, mutating), key)
            == if WindowOf(ws, key).Some? && charged && RoomForCall(RolledAll(ws, now, mutating), weight, mutating)
               then [Admission(now, if key.kind.RequestWeight? then weight else 1, Rolled(WindowOf(ws, key).value, now).used)]
               else []
  {
    AdmitsIffAllFit(ws, now, weight, mutating);
    RoomIsFit(RolledAll(ws, now, mutating), weight, mutating);
  }

  lemma {:induction false} HeaderAt(ws: seq<Win>, now: int, named: Key, reported: int, key: Key)
    requires Sound(ws) && WindowOf(ws, key).Some?
    ensures var w := WindowOf(ws, key).value;
            WindowOf(Step(ws, Header(now, named, reported)), key) == Some(if named == key then Reported(w, now, reported) else w)
  {
    SameKeys(ReportedAll(ws, named, now, reported), ws, key);
  }

  /** The three things a try can do to one window all keep it accounted for. */
  lemma {:induction false} TriedWindowKeeps(w: Win, after: Win, admitted: seq<Admission>, more: seq<Admission>,
                                            before: int, now: int, charge: nat, cap: int)
    requires Accounted(w, admitted, before, cap) && before <= now
    requires var r := Rolled(w, now);
             || ((after == w || after == r) && more == [])
             || (Fits(r, charge) && after == r.(used := r.used + charge) && more == [Admission(now, charge, r.used)])
    ensures after.duration == w.duration && Accounted(after, admitted + more, now, cap)
  {
    if more == [] {
      assert admitted + more == admitted;
      if after == w {
        SameGrid(w, w, admitted, before, now, cap);
      } else {
        RollKeeps(w, admitted, before, now, cap);
      }
    } else {
      RollKeeps(w, admitted, before, now, cap);
      RollLandsInPeriod(w, now);
      ChargeKeeps(Rolled(w, now), admitted, now, charge, cap);
    }
  }

  lemma {:induction false} TryKeeps(ws: seq<Win>, now: int, weight: nat, mutating: bool, key: Key,
                                    admitted: seq<Admission>, before: int, cap: int)
    requires Sound(ws) && WindowOf(ws, key).Some?
    requires Accounted(WindowOf(ws, key).value, admitted, before, cap) && before <= now
    ensures var event := Try(now, weight, mutating);
            var w, after := WindowOf(ws, key).value, WindowOf(Step(ws, event), key);
            && after.Some? && after.value.duration == w.duration
            && Accounted(after.value, admitted + AdmittedBy(ws, event, key), now, cap)
  {
    TryAt(ws, now, weight, mutating, key);
    var charge := ChargeOf(key, weight, mutating);
    var event := Try(now, weight, mutating);
    TriedWindowKeeps(WindowOf(ws, key).value, WindowOf(Step(ws, event), key).value, admitted, AdmittedBy(ws, event, key),
                     before, now, if charge.Some? then charge.value else 0, cap);
  }

  lemma {:induction false} HeaderKeeps(ws: seq<Win>, now: int, named: Key, reported: int, key: Key,
                                       admitted: seq<Admission>, before: int, cap: int)
    requires Sound(ws) && WindowOf(ws, key).Some?
    requires Accounted(WindowOf(ws, key).value, admitted, before, cap) && before <= now
    ensures var w, after := WindowOf(ws, key).value, WindowOf(Step(ws, Header(now, named, reported)), key);
            && after.Some? && after.value.duration == w.duration
            && Accounted(after.value, admitted, now, cap)
  {
    var w := WindowOf(ws, key).value;
    HeaderAt(ws, now, named, reported, key);
    if named == key {
      RollKeeps(w, admitted, before, now, cap);
      SameGrid(Rolled(w, now), Reported(w, now, reported), admitted, now, now, cap);
    } else {
      SameGrid(w, w, admitted, before, now, cap);
    }
  }

  lemma {:induction false} ReseedKeeps(ws: seq<Win>, now: int, rules: seq<Rule>, key: Key,
                                       admitted: seq<Admission>, before: int, cap: int)
    requires Sound(ws) && Proper(rules) && WindowOf(ws, key).Some?
    requires KeptBy(rules, key, WindowOf(ws, key).value.duration, cap)
    requires Accounted(WindowOf(ws, key).value, admitted, before, cap) && before <= now
    ensures var w, after := WindowOf(ws, key).value, WindowOf(Step(ws, Reseed(now, rules)), key);
            && after.Some? && after.value.duration == w.duration
            && Accounted(after.value, admitted, now, cap)
  {
    ReseededAt(ws, rules, key);
    SameGrid(WindowOf(ws, key).value, WindowOf(Reseeded(ws, rules), key).value, admitted, before, now, cap);
  }

  lemma {:induction false} StepKeeps(ws: seq<Win>, event: Event, key: Key, admitted: seq<Admission>, before: int, cap: int)
    requires Sound(ws) && Possible(event) && WindowOf(ws, key).Some?
    requires event.Reseed? ==> KeptBy(event.rules, key, WindowOf(ws, key).value.duration, cap)
    requires Accounted(WindowOf(ws, key).value, admitted, before, cap) && before <= event.now
    ensures var w, after := WindowOf(ws, key).value, WindowOf(Step(ws, event), key);
            && after.Some? && after.value.duration == w.duration
            && Accounted(after.value, admitted + AdmittedBy(ws, event, key), event.now, cap)
  {
    assert admitted + [] == admitted;
    match event
    case Try(now, weight, mutating) => TryKeeps(ws, now, weight, mutating, key, admitted, before, cap);
    case Header(now, named, reported) => HeaderKeeps(ws, now, named, reported, key, admitted, before, cap);
    case Reseed(now, rules) => ReseedKeeps(ws, now, rules, key, admitted, before, cap);
  }

  /** A window not yet used, for the whole of a run that keeps it. */
  ghost predicate Fresh(ws: seq<Win>, events: seq<Event>, key: Key, cap: int) {
    && Sound(ws) && AllPossible(events) && MonotoneClock(events)
    && WindowOf(ws, key).Some?
    && var w := WindowOf(ws, key).value;
       w.used == 0 && w.start.None? && w.limit <= cap && Kept(events, key, w.duration, cap)
  }

  /** The window of the key is still there, on its old grid, and accounted for. */
  ghost predicate KeptAccounted(before: seq<Win>, after: seq<Win>, key: Key, admitted: seq<Admission>, now: int, cap: int)
    requires WindowOf(before, key).Some?
  {
    && WindowOf(after, key).Some?
    && WindowOf(after, key).value.duration == WindowOf(before, key).value.duration
    && Accounted(WindowOf(after, key).value, admitted, now, cap)
  }

  lemma {:induction false} LaterAccounted(before: seq<Win>, after: seq<Win>, key: Key, admitted: seq<Admission>, now: int, later: int, cap: int)
    requires WindowOf(before, key).Some? && KeptAccounted(before, after, key, admitted, now, cap) && now <= later
    ensures KeptAccounted(before, after, key, admitted, later, cap)
  {
    var w := WindowOf(after, key).value;
    SameGrid(w, w, admitted, now, later, cap);
  }

  lemma {:induction false} RunAccounted(ws: seq<Win>, events: seq<Event>, key: Key, cap: int, now: int)
    requires Fresh(ws, events, key, cap)
    requires events != [] ==> events[|events| - 1].now <= now
    ensures KeptAccounted(ws, After(ws, events), key, Admitted(ws, events, key), now, cap)
  {
    if events != [] {
      var init, last := events[..|events| - 1], events[|events| - 1];
      RunAccounted(ws, init, key, cap, last.now);
      StepKeeps(After(ws, init), last, key, Admitted(ws, init, key), last.now, cap);
      LaterAccounted(ws, After(ws, events), key, Admitted(ws, events, key), last.now, now, cap);
    }
  }

  /** The time of the last event. */
  function EndOf(events: seq<Event>): int {
    if events == [] then 0 else events[|events| - 1].now
  }

  // ----- the theorems -----

  /** What the window admitted in its current period is at most its `used`, and each period of its
      grid stays within the cap or admitted one single charge, while the window was empty. */
  ghost predicate NeverOverAdmits(w: Win, admitted: seq<Admission>, cap: int) {
    w.start.Some? ==>
      && Total(admitted, w.start.value, w.start.value + w.duration) <= w.used
      && forall k :: PeriodBounded(admitted, PeriodStart(w, k), PeriodStart(w, k) + w.duration, cap)
  }

  ghost predicate KeyNeverOverAdmits(ws: seq<Win>, key: Key, admitted: seq<Admission>, cap: int) {
    WindowOf(ws, key).Some? && NeverOverAdmits(WindowOf(ws, key).value, admitted, cap)
  }

  lemma {:induction false} AccountedNeverOverAdmits(before: seq<Win>, after: seq<Win>, key: Key, admitted: seq<Admission>, now: int, cap: int)
    requires WindowOf(before, key).Some? && KeptAccounted(before, after, key, admitted, now, cap)
    ensures KeyNeverOverAdmits(after, key, admitted, cap)
  {
  }

  /** For every interleaving of tasks, usage headers and reseeds that keep the window: what it
      admitted in its current period sums to at most its `used`, and each period on its grid stays
      within the highest limit in force unless it admitted one single charge, while it was empty.
      Without a reseed the cap is the window's own limit. */
  lemma {:induction false} PeriodsNeverOverAdmit(ws: seq<Win>, events: seq<Event>, key: Key, cap: int)
    requires Fresh(ws, events, key, cap)
    ensures KeyNeverOverAdmits(After(ws, events), key, Admitted(ws, events, key), cap)
  {
    RunAccounted(ws, events, key, cap, EndOf(events));
    AccountedNeverOverAdmits(ws, After(ws, events), key, Admitted(ws, events, key), EndOf(events), cap);
  }

  lemma {:induction false} TotalCountsEach(admitted: seq<Admission>, a: Admission, lo: int, hi: int)
    requires a in admitted && lo <= a.time < hi
    ensures a.amount <= Total(admitted, lo, hi)
  {
    var init, last := admitted[..|admitted| - 1], admitted[|admitted| - 1];
    assert admitted == init + [last];
    if a in init {
      TotalCountsEach(init, a, lo, hi);
    }
  }

  /** Every period of a window's grid admits at most the cap. */
  ghost predicate EveryPeriodWithin(w: Win, admitted: seq<Admission>, cap: int)
    requires w.start.Some?
  {
    forall k :: Total(admitted, PeriodStart(w, k), PeriodStart(w, k) + w.duration) <= Max(0, cap)
  }

  lemma {:induction false} PeriodsWithinIff(w: Win, admitted: seq<Admission>, now: int, cap: int)
    requires Accounted(w, admitted, now, cap) && w.start.Some?
    ensures EveryPeriodWithin(w, admitted, cap) <==> forall a :: a in admitted ==> a.amount <= Max(0, cap)
  {
    if EveryPeriodWithin(w, admitted, cap) {
      forall a | a in admitted ensures a.amount <= Max(0, cap) {
        var k := PeriodContaining(w, a.time, 0);
        assert Total(admitted, PeriodStart(w, k), PeriodStart(w, k) + w.duration) <= Max(0, cap);
        TotalCountsEach(admitted, a, PeriodStart(w, k), PeriodStart(w, k) + w.duration);
      }
    } else {
      var k :| !(Total(admitted, PeriodStart(w, k), PeriodStart(w, k) + w.duration) <= Max(0, cap));
      assert PeriodBounded(admitted, PeriodStart(w, k), PeriodStart(w, k) + w.duration, cap);
    }
  }

  /** Exactly when no period over-admits: a window keeps every period within the highest limit in
      force if and only if no single charge admitted to it exceeds that limit. */
  lemma {:induction false} NoPeriodOverAdmitsIff(ws: seq<Win>, events: seq<Event>, key: Key, cap: int)
    requires Fresh(ws, events, key, cap)
    ensures WindowOf(After(ws, events), key).Some?
    ensures var w, admitted := WindowOf(After(ws, events), key).value, Admitted(ws, events, key);
            w.start.Some? ==>
              (EveryPeriodWithin(w, admitted, cap) <==> forall a :: a in admitted ==> a.amount <= Max(0, cap))
  {
    RunAccounted(ws, events, key, cap, EndOf(events));
    var w := WindowOf(After(ws, events), key).value;
    if w.start.Some? {
      PeriodsWithinIff(w, Admitted(ws, events, key), EndOf(events), cap);
    }
  }

  lemma {:induction false} BoundedByLargest(admitted: seq<Admission>, lo: int, hi: int, limit: int, largest: nat)
    requires PeriodBounded(admitted, lo, hi, limit)
    requires forall a :: a in admitted ==> a.amount <= largest
    ensures Total(admitted, lo, hi) <= Max(limit, largest)
  {
  }

  lemma {:induction false} CoveredByTwoPeriods(admitted: seq<Admission>, lo: int, x: int, d: int)
    requires d > 0 && lo <= x < lo + d
    ensures Total(admitted, x, x + d) <= Total(admitted, lo, lo + d) + Total(admitted, lo + d, lo + 2 * d)
  {
    TotalSplits(admitted, lo, x, lo + d);
    TotalSplits(admitted, x, lo + d, x + d);
    TotalSplits(admitted, lo + d, x + d, lo + 2 * d);
  }

  /** Every instant lies in one period of the grid, and the next period follows it. */
  lemma {:induction false} PeriodContaining(w: Win, x: int, near: int) returns (k: int)
    requires w.duration > 0 && w.start.Some?
    ensures PeriodStart(w, k) <= x < PeriodStart(w, k) + w.duration
    ensures PeriodStart(w, k + 1) == PeriodStart(w, k) + w.duration
    decreases if x >= PeriodStart(w, near) then x - PeriodStart(w, near) else PeriodStart(w, near) - x + w.duration
  {
    var lo := PeriodStart(w, near);
    assert PeriodStart(w, near + 1) == lo + w.duration && PeriodStart(w, near - 1) == lo - w.duration;
    if x < lo {
      k := PeriodContaining(w, x, near - 1);
    } else if x >= lo + w.duration {
      k := PeriodContaining(w, x, near + 1);
    } else {
      k := near;
    }
  }

  ghost predicate AmountsAtMost(admitted: seq<Admission>, largest: nat) {
    forall a :: a in admitted ==> a.amount <= largest
  }

  lemma {:induction false} TwoPeriods(w: Win, admitted: seq<Admission>, now: int, cap: int, lo: int, hi: int, x: int, largest: nat)
    requires w.duration > 0 && hi == lo + w.duration && lo <= x < hi
    requires PeriodBounded(admitted, lo, lo + w.duration, cap) && PeriodBounded(admitted, hi, hi + w.duration, cap)
    requires AmountsAtMost(admitted, largest)
    ensures Total(admitted, x, x + w.duration) <= 2 * Max(cap, largest)
  {
    BoundedByLargest(admitted, lo, lo + w.duration, cap, largest);
    BoundedByLargest(admitted, hi, hi + w.duration, cap, largest);
    CoveredByTwoPeriods(admitted, lo, x, w.duration);
  }

  lemma {:induction false} AccountedInterval(w: Win, admitted: seq<Admission>, now: int, cap: int, x: int, largest: nat)
    requires Accounted(w, admitted, now, cap) && AmountsAtMost(admitted, largest)
    ensures Total(admitted, x, x + w.duration) <= 2 * Max(cap, largest)
  {
    if w.start.Some? {
      var k := PeriodContaining(w, x, 0);
      var lo, hi := PeriodStart(w, k), PeriodStart(w, k + 1);
      assert PeriodBounded(admitted, lo, lo + w.duration, cap) && PeriodBounded(admitted, hi, hi + w.duration, cap);
      TwoPeriods(w, admitted, now, cap, lo, hi, x, largest);
    }
  }

  lemma {:induction false} KeptInterval(before: seq<Win>, after: seq<Win>, key: Key, admitted: seq<Admission>, now: int, cap: int,
                                        x: int, largest: nat)
    requires WindowOf(before, key).Some? && KeptAccounted(before, after, key, admitted, now, cap)
    requires AmountsAtMost(admitted, largest)
    ensures Total(admitted, x, x + WindowOf(before, key).value.duration) <= 2 * Max(cap, largest)
  {
    AccountedInterval(WindowOf(after, key).value, admitted, now, cap, x, largest);
  }

  /** Any half-open interval of one duration, wherever it starts, contains admissions of at most
      twice the larger of the highest limit in force and the largest single charge. */
  lemma {:induction false} AnyIntervalAtMostTwice(ws: seq<Win>, events: seq<Event>, key: Key, cap: int, x: int, largest: nat)
    requires Fresh(ws, events, key, cap)
    requires AmountsAtMost(Admitted(ws, events, key), largest)
    ensures Total(Admitted(ws, events, key), x, x + WindowOf(ws, key).value.duration) <= 2 * Max(cap, largest)
  {
    RunAccounted(ws, events, key, cap, EndOf(events));
    KeptInterval(ws, After(ws, events), key, Admitted(ws, events, key), EndOf(events), cap, x, largest);
  }

  /** Everything admitted, whenever. */
  function Sum(admitted: seq<Admission>): nat {
    if admitted == [] then 0 else Sum(admitted[..|admitted| - 1]) + admitted[|admitted| - 1].amount
  }

  lemma {:induction false} SumOfOne(a: Admission)
    ensures Sum([a]) == a.amount
  {
    assert [a][..0] == [];
  }

  lemma {:induction false} SumOfConcat(a: seq<Admission>, b: seq<Admission>)
    ensures Sum(a + b) == Sum(a) + Sum(b)
  {
    if b == [] {
      assert a + b == a;
    } else {
      assert (a + b)[..|a + b| - 1] == a + b[..|b| - 1];
      SumOfConcat(a, b[..|b| - 1]);
    }
  }

  /** Inside one period a window's count keeps growing by what it admits, so what was reported
      stays charged. */
  lemma {:induction false} StepInPeriod(ws: seq<Win>, event: Event, key: Key, cap: int)
    requires Sound(ws) && Possible(event) && WindowOf(ws, key).Some?
    requires var w := WindowOf(ws, key).value;
             && w.start.Some? && event.now < w.start.value + w.duration && w.limit <= cap
             && (event.Reseed? ==> KeptBy(event.rules, key, w.duration, cap))
    ensures var w, after, admitted := WindowOf(ws, key).value, WindowOf(Step(ws, event), key), AdmittedBy(ws, event, key);
            && after.Some? && after.value.start == w.start && after.value.duration == w.duration && after.value.limit <= cap
            && after.value.used >= w.used + Sum(admitted)
            && (admitted == [] || w.used == 0 || w.used + Sum(admitted) <= cap)
  {
    match event
    case Try(now, weight, mutating) =>
      TryAt(ws, now, weight, mutating, key);
      if AdmittedBy(ws, event, key) != [] {
        SumOfOne(AdmittedBy(ws, event, key)[0]);
      }
    case Header(now, named, reported) => HeaderAt(ws, now, named, reported, key);
    case Reseed(_, rules) => ReseededAt(ws, rules, key);
  }

  /** Once the server has reported some usage of a window, then for every interleaving until that
      period ends, the reported usage and all that is admitted stay within the limit together. */
  lemma {:induction false} ReportedUsageIsRespected(ws: seq<Win>, now: int, key: Key, reported: nat, events: seq<Event>, cap: int)
    requires Sound(ws) && AllPossible(events) && WindowOf(ws, key).Some? && reported > 0
    requires var w := WindowOf(ws, key).value;
             && w.limit <= cap && Kept(events, key, w.duration, cap)
             && forall k :: 0 <= k < |events| ==> events[k].now < Rolled(w, now).start.value + w.duration
    ensures var w, told := WindowOf(ws, key).value, Step(ws, Header(now, key, reported));
            var after, admitted := WindowOf(After(told, events), key), Sum(Admitted(told, events, key));
            && after.Some? && after.value.start == Rolled(w, now).start && after.value.duration == w.duration
            && after.value.limit <= cap
            && after.value.used >= reported + admitted
            && (Admitted(told, events, key) != [] ==> reported + admitted <= cap)
  {
    var told := Step(ws, Header(now, key, reported));
    if events == [] {
      HeaderAt(ws, now, key, reported, key);
    } else {
      var init, last := events[..|events| - 1], events[|events| - 1];
      ReportedUsageIsRespected(ws, now, key, reported, init, cap);
      StepInPeriod(After(told, init), last, key, cap);
      SumOfConcat(Admitted(told, init, key), AdmittedBy(After(told, init), last, key));
    }
  }

  // ----- the bounds are sharp -----

  /** One window and one call that fits after the roll. */
  lemma {:induction false} OneTry(w: Win, event: Event, charge: nat)
    requires w.duration > 0 && event.Try? && ChargeOf(w.key, event.weight, event.mutating) == Some(charge)
    requires Fits(Rolled(w, event.now), charge)
    ensures var r := Rolled(w, event.now);
            Step([w], event) == [r.(used := r.used + charge)]
    ensures AdmittedBy([w], event, w.key) == [Admission(event.now, charge, Rolled(w, event.now).used)]
  {
    AdmitsIffAllFit([w], event.now, event.weight, event.mutating);
    FindIs([w], 0);
  }

  /** A run of events, what it leaves and what it admits to the window of a key. */
  ghost predicate Leads(ws: seq<Win>, events: seq<Event>, key: Key, after: seq<Win>, admitted: seq<Admission>) {
    Sound(ws) && AllPossible(events) && After(ws, events) == after && Admitted(ws, events, key) == admitted
  }

  lemma {:induction false} LeadsNowhere(ws: seq<Win>, key: Key)
    requires Sound(ws)
    ensures Leads(ws, [], key, ws, [])
  {
  }

  lemma {:induction false} AfterOneMore(ws: seq<Win>, events: seq<Event>, event: Event, key: Key)
    requires Sound(ws) && AllPossible(events) && Possible(event)
    ensures AllPossible(events + [event])
    ensures After(ws, events + [event]) == Step(After(ws, events), event)
    ensures Admitted(ws, events + [event], key) == Admitted(ws, events, key) + AdmittedBy(After(ws, events), event, key)
  {
    assert (events + [event])[..|events|] == events;
  }

  /** One more event, given what it does to the windows reached so far. */
  lemma {:induction false} LeadsOn(ws: seq<Win>, events: seq<Event>, event: Event, key: Key, before: seq<Win>, admitted: seq<Admission>)
    requires Leads(ws, events, key, before, admitted) && Possible(event) && Sound(before)
    ensures Leads(ws, events + [event], key, Step(before, event), admitted + AdmittedBy(before, event, key))
  {
    AfterOneMore(ws, events, event, key);
  }

  /** The same with what the event does already worked out. */
  lemma {:induction false} LeadsTo(ws: seq<Win>, events: seq<Event>, event: Event, key: Key, before: seq<Win>, admitted: seq<Admission>,
                                   next: seq<Win>, more: seq<Admission>)
    requires Leads(ws, events, key, before, admitted) && Possible(event) && Sound(before)
    requires Step(before, event) == next && AdmittedBy(before, event, key) == more
    ensures Leads(ws, events + [event], key, next, admitted + more)
  {
    LeadsOn(ws, events, event, key, before, admitted);
  }

  lemma {:induction false} OneMoreTry(ws: seq<Win>, events: seq<Event>, now: int, weight: nat, w: Win, admitted: seq<Admission>, r: Win)
      returns (longer: seq<Event>)
    requires Leads(ws, events, w.key, [w], admitted)
    requires w.duration > 0 && w.key.kind.RequestWeight?
    requires r == Rolled(w, now) && Fits(r, weight)
    ensures longer == events + [Try(now, weight, false)]
    ensures Leads(ws, longer, w.key, [r.(used := r.used + weight)], admitted + [Admission(now, weight, r.used)])
  {
    var event, next, more := Try(now, weight, false), [r.(used := r.used + weight)], [Admission(now, weight, r.used)];
    longer := events + [event];
    assert Leads(ws, longer, w.key, next, admitted + more) by {
      OneTry(w, event, weight);
      LeadsTo(ws, events, event, w.key, [w], admitted, next, more);
    }
  }

  lemma {:induction false} OneMoreReseed(ws: seq<Win>, events: seq<Event>, now: int, rules: seq<Rule>, key: Key,
                                         before: seq<Win>, admitted: seq<Admission>) returns (longer: seq<Event>)
    requires Leads(ws, events, key, before, admitted) && Proper(rules) && Sound(before)
    ensures longer == events + [Reseed(now, rules)]
    ensures Leads(ws, longer, key, Reseeded(before, rules), admitted)
  {
    longer := events + [Reseed(now, rules)];
    LeadsOn(ws, events, Reseed(now, rules), key, before, admitted);
    assert admitted + [] == admitted;
  }

  lemma {:induction false} TotalOfOne(a: Admission, lo: int, hi: int)
    ensures Total([a], lo, hi) == if lo <= a.time < hi then a.amount else 0
  {
    var none: seq<Admission> := [];
    TotalOneMore(none, a, lo, hi);
    assert none + [a] == [a];
  }

  lemma {:induction false} FirstTryLeads(w: Win, now: int, weight: nat) returns (events: seq<Event>)
    requires w.duration > 0 && w.key.kind.RequestWeight? && w.used == 0 && w.start.None?
    ensures events == [Try(now, weight, false)]
    ensures Leads([w], events, w.key, [w.(used := weight, start := Some(now))], [Admission(now, weight, 0)])
  {
    LeadsNowhere([w], w.key);
    events := OneMoreTry([w], [], now, weight, w, [], w.(start := Some(now)));
    assert [] + [Admission(now, weight, 0)] == [Admission(now, weight, 0)];
  }

  /** A call heavier than the limit is admitted to an empty window, and its period over-admits. */
  lemma {:induction false} OversizedIsAdmitted(w: Win, weight: nat)
    requires weight > w.limit && w.duration > 0 && w.key.kind.RequestWeight? && w.used == 0 && w.start.None?
    ensures exists admitted :: Leads([w], [Try(0, weight, false)], w.key, [w.(used := weight, start := Some(0))], admitted)
                               && Total(admitted, 0, w.duration) == weight
  {
    var events := FirstTryLeads(w, 0, weight);
    TotalOfOne(Admission(0, weight, 0), 0, w.duration);
  }

  lemma {:induction false} TotalOfThree(a: Admission, b: Admission, c: Admission, lo: int, hi: int)
    ensures Total([a, b, c], lo, hi) == (if lo <= a.time < hi then a.amount else 0)
                                        + (if lo <= b.time < hi then b.amount else 0)
                                        + (if lo <= c.time < hi then c.amount else 0)
  {
    var none: seq<Admission> := [];
    TotalOneMore(none, a, lo, hi);
    TotalOneMore(none + [a], b, lo, hi);
    TotalOneMore(none + [a] + [b], c, lo, hi);
    assert none + [a] + [b] + [c] == [a, b, c];
  }

  lemma {:induction false} RolledInside(w: Win, now: int)
    requires w.duration > 0 && w.start.Some? && now < w.start.value + w.duration
    ensures Rolled(w, now) == w
  {
  }

  lemma {:induction false} RolledOnBoundary(w: Win, now: int)
    requires w.duration > 0 && w.start.Some? && now == w.start.value + w.duration
    ensures Rolled(w, now) == w.(start := Some(now), used := 0)
  {
    assert GridPoint(w.start.value, w.duration, now) == GridPoint(now, w.duration, now) == now;
  }

  /** A probe at 0, a burst just before the first boundary and another one at it are all admitted. */
  lemma {:induction false} BurstsAreAdmitted(w: Win, limit: nat) returns (events: seq<Event>)
    requires limit > 0 && w.duration > 1 && w == Win(w.key, limit, w.duration, 0, None) && w.key.kind.RequestWeight?
    ensures events == [Try(0, 0, false), Try(w.duration - 1, limit, false), Try(w.duration, limit, false)]
    ensures Leads([w], events, w.key, [w.(start := Some(w.duration), used := limit)],
                  [Admission(0, 0, 0), Admission(w.duration - 1, limit, 0), Admission(w.duration, limit, 0)])
  {
    var a0, a1, a2 := Admission(0, 0, 0), Admission(w.duration - 1, limit, 0), Admission(w.duration, limit, 0);
    var w1 := w.(start := Some(0));
    var w2 := w1.(used := limit);
    events := FirstTryLeads(w, 0, 0);
    RolledInside(w1, w.duration - 1);
    events := OneMoreTry([w], events, w.duration - 1, limit, w1, [a0], w1);
    RolledOnBoundary(w2, w.duration);
    events := OneMoreTry([w], events, w.duration, limit, w2, [a0] + [a1], w.(start := Some(w.duration)));
    assert [a0] + [a1] + [a2] == [a0, a1, a2];
  }

  /** The factor two is reached for every limit and every duration above one tick: a burst of `limit`
      just before a boundary and one at it. */
  lemma {:induction false} TwiceIsReached(w: Win, limit: nat)
    requires limit > 0 && w.duration > 1 && w == Win(w.key, limit, w.duration, 0, None) && w.key.kind.RequestWeight?
    ensures exists events, after, admitted ::
              Leads([w], events, w.key, after, admitted)
              && Total(admitted, w.duration - 1, w.duration - 1 + w.duration) == 2 * limit
  {
    var events := BurstsAreAdmitted(w, limit);
    TotalOfThree(Admission(0, 0, 0), Admission(w.duration - 1, limit, 0), Admission(w.duration, limit, 0),
                 w.duration - 1, w.duration - 1 + w.duration);
  }
}
