/** Fixed rate-limit windows, the multi-window admission step, and what every interleaving of
    tasks and header updates can admit. Time is an integer count of clock ticks. */
module RateLimit {
  import opened Prelude
  import opened Arithmetic

  datatype RateType = RequestWeight | RawRequests | Orders

  datatype Interval = Second | Minute | Hour | Day

  /** What identifies a window to usage headers and reseeds: the kind, and an interval times num. */
  datatype Key = Key(kind: RateType, interval: Interval, num: nat)

  datatype Rule = Rule(key: Key, limit: int)

  datatype Win = Win(key: Key, limit: int, duration: int, used: int, start: Option<int>)

  /** The resolution of the clock; nothing below depends on it. */
  const TICKS_PER_SECOND: nat := 1_000_000

  function Seconds(key: Key): nat {
    match key.interval
    case Second => key.num
    case Minute => 60 * key.num
    case Hour => 3600 * key.num
    case Day => 86400 * key.num
  }

  function Duration(key: Key): (d: int)
    ensures key.num > 0 ==> d > 0
  {
    TICKS_PER_SECOND * Seconds(key)
  }

  /** The start of the period that contains an instant, walking the grid period by period. */
  function GridPoint(start: int, duration: int, now: int): int
    requires duration > 0
    decreases now - start
  {
    if now - start < duration then start else GridPoint(start + duration, duration, now)
  }

  /** The window as a call finds it: its grid starts at the first call, and a period that is over
      takes its count with it. */
  function Rolled(w: Win, now: int): Win
    requires w.duration > 0
  {
    if w.start.None? then w.(start := Some(now))
    else if now - w.start.value >= w.duration
    then w.(start := Some(GridPoint(w.start.value, w.duration, now)), used := 0)
    else w
  }

  /** Ticks until the charge fits; zero if it fits now or the window is empty. */
  function WaitTime(w: Win, now: int, charge: int): int {
    if w.used == 0 || w.used + charge <= w.limit then 0
    else Max(0, (if w.start.Some? then w.start.value else now) + w.duration - now)
  }

  /** What a call charges a window with this key, if anything. */
  function ChargeOf(key: Key, weight: nat, mutating: bool): Option<nat> {
    match key.kind
    case RequestWeight => Some(weight)
    case RawRequests => Some(1)
    case Orders => if mutating then Some(1) else None
  }

  predicate Fits(w: Win, charge: int) { w.used == 0 || w.used + charge <= w.limit }

  // ----- the arithmetic of rolling -----

  lemma {:induction false} GridPointBounds(start: int, duration: int, now: int)
    requires duration > 0 && start <= now
    ensures start <= GridPoint(start, duration, now) <= now < GridPoint(start, duration, now) + duration
    ensures now - start >= duration ==> GridPoint(start, duration, now) >= start + duration
    decreases now - start
  {
    if now - start >= duration {
      GridPointBounds(start + duration, duration, now);
    }
  }

  lemma {:induction false} OneFewer(x: int, d: int)
    requires d > 0
    ensures d * (x / d) == d + d * ((x - d) / d)
  {
    var q, r := (x - d) / d, (x - d) % d;
    assert d * (q + 1) == d * q + d;
    assert x - d == d * q + r;
    QuotientUnique(x, d, q + 1, r);
  }

  /** The jump of the code lands where walking the grid does. */
  lemma {:induction false} JumpIsWalk(start: int, duration: int, now: int)
    requires duration > 0 && start <= now
    ensures GridPoint(start, duration, now) == start + duration * ((now - start) / duration)
    decreases now - start
  {
    if now - start >= duration {
      JumpIsWalk(start + duration, duration, now);
      OneFewer(now - start, duration);
    }
  }

  /** After a roll the clock is inside the window's period, so a positive wait is really needed
      and a zero wait really admits. */
  lemma {:induction false} RollLandsInPeriod(w: Win, now: int)
    requires w.duration > 0 && (w.start.Some? ==> w.start.value <= now)
    ensures var r := Rolled(w, now);
            r.start.Some? && r.start.value <= now < r.start.value + r.duration
  {
    if w.start.Some? {
      GridPointBounds(w.start.value, w.duration, now);
    }
  }

  lemma {:induction false} ZeroWaitIffFits(w: Win, now: int, charge: int)
    requires w.duration > 0
    ensures WaitTime(Rolled(w, now), now, charge) <= 0 <==> Fits(Rolled(w, now), charge)
  {
    if w.start.Some? && w.start.value <= now {
      GridPointBounds(w.start.value, w.duration, now);
    }
  }

  /** The wait is exact: at any later time the window admits the charge if and only if the wait is
      over. */
  lemma {:induction false} FitsOnceWaitIsOver(w: Win, now: int, later: int, charge: int)
    requires w.duration > 0 && (w.start.Some? ==> w.start.value <= now) && now <= later
    ensures Fits(Rolled(Rolled(w, now), later), charge) <==> later >= now + WaitTime(Rolled(w, now), now, charge)
  {
    RollLandsInPeriod(w, now);
  }

  // ----- one locked section of acquire -----

  /** The windows of a limiter: one per key, each with a positive duration. */
  ghost predicate Sound(ws: seq<Win>) {
    && (forall i :: 0 <= i < |ws| ==> ws[i].duration > 0)
    && (forall i, j :: 0 <= i < j < |ws| ==> ws[i].key != ws[j].key)
  }

  predicate Applies(w: Win, mutating: bool) { ChargeOf(w.key, 0, mutating).Some? }

  function RolledAll(ws: seq<Win>, now: int, mutating: bool): (rs: seq<Win>)
    requires Sound(ws)
    ensures |rs| == |ws|
  {
    seq(|ws|, i requires 0 <= i < |ws| => if Applies(ws[i], mutating) then Rolled(ws[i], now) else ws[i])
  }

  /** The longest wait over the windows the call charges. */
  function Wait(ws: seq<Win>, now: int, weight: nat, mutating: bool): (wait: int)
    ensures wait >= 0
  {
    if ws == [] then 0
    else
      var n := |ws| - 1;
      var charge := ChargeOf(ws[n].key, weight, mutating);
      var rest := Wait(ws[..n], now, weight, mutating);
      if charge.Some? then Max(rest, WaitTime(ws[n], now, charge.value)) else rest
  }

  function ChargedAll(ws: seq<Win>, weight: nat, mutating: bool): (cs: seq<Win>)
    ensures |cs| == |ws|
  {
    seq(|ws|, i requires 0 <= i < |ws| =>
      var charge := ChargeOf(ws[i].key, weight, mutating);
      if charge.Some? then ws[i].(used := ws[i].used + charge.value) else ws[i])
  }

  /** The windows after the locked section. */
  function Tried(ws: seq<Win>, now: int, weight: nat, mutating: bool): (ts: seq<Win>)
    requires Sound(ws)
    ensures |ts| == |ws|
  {
    var rolled := RolledAll(ws, now, mutating);
    if Wait(rolled, now, weight, mutating) <= 0 then ChargedAll(rolled, weight, mutating) else rolled
  }

  ghost predicate AllFit(ws: seq<Win>, weight: nat, mutating: bool) {
    forall i :: 0 <= i < |ws| && Applies(ws[i], mutating) ==> Fits(ws[i], ChargeOf(ws[i].key, weight, mutating).value)
  }

  lemma {:induction false} WaitCovers(ws: seq<Win>, now: int, weight: nat, mutating: bool, i: nat)
    requires i < |ws| && Applies(ws[i], mutating)
    ensures WaitTime(ws[i], now, ChargeOf(ws[i].key, weight, mutating).value) <= Wait(ws, now, weight, mutating)
  {
    if i < |ws| - 1 {
      WaitCovers(ws[..|ws| - 1], now, weight, mutating, i);
    }
  }

  lemma {:induction false} WaitOneMore(ws: seq<Win>, n: nat, now: int, weight: nat, mutating: bool)
    requires n < |ws|
    ensures var rest, charge := Wait(ws[..n], now, weight, mutating), ChargeOf(ws[n].key, weight, mutating);
            Wait(ws[..n + 1], now, weight, mutating)
            == if charge.Some? then Max(rest, WaitTime(ws[n], now, charge.value)) else rest
  {
    assert ws[..n + 1][..n] == ws[..n];
  }

  lemma {:induction false} WaitAtMost(ws: seq<Win>, now: int, weight: nat, mutating: bool, bound: nat)
    requires forall i :: 0 <= i < |ws| && Applies(ws[i], mutating) ==>
               WaitTime(ws[i], now, ChargeOf(ws[i].key, weight, mutating).value) <= bound
    ensures Wait(ws, now, weight, mutating) <= bound
  {
    if ws != [] {
      var init := ws[..|ws| - 1];
      forall i | 0 <= i < |init| && Applies(init[i], mutating)
        ensures WaitTime(init[i], now, ChargeOf(init[i].key, weight, mutating).value) <= bound
      {
        assert init[i] == ws[i];
      }
      WaitAtMost(init, now, weight, mutating, bound);
    }
  }

  /** The computed wait is zero exactly when every window the call charges really admits it. */
  lemma {:induction false} AdmitsIffAllFit(ws: seq<Win>, now: int, weight: nat, mutating: bool)
    requires Sound(ws)
    ensures Wait(RolledAll(ws, now, mutating), now, weight, mutating) <= 0
            <==> AllFit(RolledAll(ws, now, mutating), weight, mutating)
  {
    var rolled := RolledAll(ws, now, mutating);
    forall i | 0 <= i < |rolled| && Applies(rolled[i], mutating)
      ensures WaitTime(rolled[i], now, ChargeOf(rolled[i].key, weight, mutating).value) <= 0
              <==> Fits(rolled[i], ChargeOf(rolled[i].key, weight, mutating).value)
      ensures Wait(rolled, now, weight, mutating) >= WaitTime(rolled[i], now, ChargeOf(rolled[i].key, weight, mutating).value)
    {
      ZeroWaitIffFits(ws[i], now, ChargeOf(ws[i].key, weight, mutating).value);
      WaitCovers(rolled, now, weight, mutating, i);
    }
    if AllFit(rolled, weight, mutating) {
      WaitAtMost(rolled, now, weight, mutating, 0);
    }
  }

  /** A call charges all the windows it applies to, or none of them. */
  lemma {:induction false} AllOrNothing(ws: seq<Win>, now: int, weight: nat, mutating: bool)
    requires Sound(ws)
    ensures var rolled, after := RolledAll(ws, now, mutating), Tried(ws, now, weight, mutating);
            if AllFit(rolled, weight, mutating)
            then forall i :: 0 <= i < |ws| ==>
                   after[i] == if Applies(ws[i], mutating)
                               then rolled[i].(used := rolled[i].used + ChargeOf(ws[i].key, weight, mutating).value)
                               else ws[i]
            else forall i :: 0 <= i < |ws| ==> after[i] == rolled[i] && after[i].used <= Max(0, ws[i].used)
  {
    AdmitsIffAllFit(ws, now, weight, mutating);
  }

  /** What the locked section does to the i-th window. */
  lemma {:induction false} TriedAt(ws: seq<Win>, now: int, weight: nat, mutating: bool, i: nat)
    requires Sound(ws) && i < |ws|
    ensures var r, charge := Rolled(ws[i], now), ChargeOf(ws[i].key, weight, mutating);
            var admits := Wait(RolledAll(ws, now, mutating), now, weight, mutating) <= 0;
            && Tried(ws, now, weight, mutating)[i]
               == (if charge.None? then ws[i] else if admits then r.(used := r.used + charge.value) else r)
            && (admits && charge.Some? ==> Fits(r, charge.value))
  {
    AdmitsIffAllFit(ws, now, weight, mutating);
  }

  /** No window starts in the future. */
  ghost predicate Anchored(ws: seq<Win>, now: int) {
    forall i :: 0 <= i < |ws| && ws[i].start.Some? ==> ws[i].start.value <= now
  }

  /** The windows after an undisturbed acquire: charged at once, or after the one sleep. */
  ghost function Acquired(ws: seq<Win>, now: int, weight: nat, mutating: bool, late: nat): seq<Win>
    requires Sound(ws)
  {
    var rolled := RolledAll(ws, now, mutating);
    var wait := Wait(rolled, now, weight, mutating);
    if wait <= 0 then ChargedAll(rolled, weight, mutating)
    else ChargedAll(RolledAll(rolled, now + wait + late, mutating), weight, mutating)
  }

  /** The longest wait is over exactly when each one is. */
  lemma {:induction false} AllOverIff(ws: seq<Win>, now: int, later: int, weight: nat, mutating: bool)
    requires now <= later
    ensures later >= now + Wait(ws, now, weight, mutating)
            <==> forall i :: 0 <= i < |ws| && Applies(ws[i], mutating) ==>
                   later >= now + WaitTime(ws[i], now, ChargeOf(ws[i].key, weight, mutating).value)
  {
    forall i | 0 <= i < |ws| && Applies(ws[i], mutating)
      ensures WaitTime(ws[i], now, ChargeOf(ws[i].key, weight, mutating).value) <= Wait(ws, now, weight, mutating)
    {
      WaitCovers(ws, now, weight, mutating, i);
    }
    if forall i :: 0 <= i < |ws| && Applies(ws[i], mutating) ==>
         later >= now + WaitTime(ws[i], now, ChargeOf(ws[i].key, weight, mutating).value) {
      WaitAtMost(ws, now, weight, mutating, later - now);
    }
  }

  /** With nobody else charging, a call that has to wait is admitted at a later time exactly when
      it has slept for its wait: the one sleep it asks for suffices, and no shorter one would. */
  lemma {:induction false} OneSleepSuffices(ws: seq<Win>, now: int, later: int, weight: nat, mutating: bool)
    requires Sound(ws)
    requires Anchored(ws, now) && now <= later
    ensures var rolled := RolledAll(ws, now, mutating);
            Wait(RolledAll(rolled, later, mutating), later, weight, mutating) == 0
            <==> later >= now + Wait(rolled, now, weight, mutating)
  {
    var rolled := RolledAll(ws, now, mutating);
    var again := RolledAll(rolled, later, mutating);
    forall i | 0 <= i < |ws| && Applies(ws[i], mutating)
      ensures Fits(again[i], ChargeOf(again[i].key, weight, mutating).value)
              <==> later >= now + WaitTime(rolled[i], now, ChargeOf(rolled[i].key, weight, mutating).value)
    {
      FitsOnceWaitIsOver(ws[i], now, later, ChargeOf(ws[i].key, weight, mutating).value);
    }
    AdmitsIffAllFit(rolled, later, weight, mutating);
    AllOverIff(rolled, now, later, weight, mutating);
  }

  /** The first n windows are rolled where the call applies, the others are as before. */
  ghost predicate RolledUpTo(before: seq<Win>, current: seq<Win>, n: nat, now: int, mutating: bool)
    requires Sound(before)
  {
    && |current| == |before| && n <= |before|
    && (forall i :: 0 <= i < n ==> current[i] == if Applies(before[i], mutating) then Rolled(before[i], now) else before[i])
    && (forall i :: n <= i < |before| ==> current[i] == before[i])
  }

  lemma {:induction false} RollOneMore(before: seq<Win>, earlier: seq<Win>, current: seq<Win>, n: nat, now: int, mutating: bool)
    requires Sound(before) && n < |before| && RolledUpTo(before, earlier, n, now, mutating)
    requires current == if Applies(before[n], mutating) then earlier[n := Rolled(before[n], now)] else earlier
    ensures RolledUpTo(before, current, n + 1, now, mutating)
    ensures current[..n] == earlier[..n]
  {
  }

  /** An undisturbed acquire at the top of its loop: before its first try, or after its one sleep. */
  ghost predicate InProgress(before: seq<Win>, current: seq<Win>, now: int, clock: int, weight: nat, mutating: bool,
                             late: nat, sleeps: seq<int>)
    requires Sound(before)
  {
    var rolled := RolledAll(before, now, mutating);
    var needed := Wait(rolled, now, weight, mutating);
    if sleeps == [] then clock == now && current == before
    else sleeps == [needed] && needed > 0 && clock == now + needed + late && current == rolled
  }

  /** What the next try does there: it admits, or it is the first one and asks for the sleep. */
  lemma {:induction false} NextTry(before: seq<Win>, current: seq<Win>, now: int, clock: int, weight: nat, mutating: bool,
                                   late: nat, sleeps: seq<int>)
    requires Sound(before) && Sound(current) && Anchored(before, now)
    requires InProgress(before, current, now, clock, weight, mutating, late, sleeps)
    ensures var wait := Wait(RolledAll(current, clock, mutating), clock, weight, mutating);
            var needed := Wait(RolledAll(before, now, mutating), now, weight, mutating);
            if wait <= 0 then
              && Tried(current, clock, weight, mutating) == Acquired(before, now, weight, mutating, late)
              && sleeps == (if needed <= 0 then [] else [needed])
            else
              && |sleeps| == 0
              && InProgress(before, Tried(current, clock, weight, mutating), now, clock + wait + late, weight, mutating, late, [wait])
  {
    if sleeps != [] {
      AdmittedAfterSleep(before, now, weight, mutating, late);
    }
  }

  lemma {:induction false} AdmittedAfterSleep(ws: seq<Win>, now: int, weight: nat, mutating: bool, late: nat)
    requires Sound(ws) && Anchored(ws, now)
    requires Wait(RolledAll(ws, now, mutating), now, weight, mutating) > 0
    ensures var rolled := RolledAll(ws, now, mutating);
            var later := now + Wait(rolled, now, weight, mutating) + late;
            && Wait(RolledAll(rolled, later, mutating), later, weight, mutating) == 0
            && Tried(rolled, later, weight, mutating) == Acquired(ws, now, weight, mutating, late)
  {
    OneSleepSuffices(ws, now, now + Wait(RolledAll(ws, now, mutating), now, weight, mutating) + late, weight, mutating);
  }

  // ----- the locked section, kind by kind -----

  /** The window lets the call pass: it is not charged to it, or the window is empty, or the charge
      stays within its limit. The charge is the weight in a weight window, one request in a raw window
      and, for a mutating call only, one order in an order window. */
  predicate LetsPass(w: Win, weight: nat, mutating: bool) {
    || (w.key.kind.Orders? && !mutating)
    || w.used == 0
    || w.used + (if w.key.kind.RequestWeight? then weight else 1) <= w.limit
  }

  ghost predicate RoomForCall(rolled: seq<Win>, weight: nat, mutating: bool) {
    forall i :: 0 <= i < |rolled| ==> LetsPass(rolled[i], weight, mutating)
  }

  /** What the locked section does to each window. A call that does not mutate leaves order windows
      alone, not even anchoring them; every other window is rolled, and charged if there is room in all
      of them. */
  lemma {:induction false} TriedByKind(ws: seq<Win>, now: int, weight: nat, mutating: bool, i: nat)
    requires Sound(ws) && i < |ws|
    ensures var after, rolled := Tried(ws, now, weight, mutating)[i], Rolled(ws[i], now);
            var admitted := RoomForCall(RolledAll(ws, now, mutating), weight, mutating);
            match ws[i].key.kind
            case RequestWeight => after == rolled.(used := rolled.used + if admitted then weight else 0)
            case RawRequests => after == rolled.(used := rolled.used + if admitted then 1 else 0)
            case Orders => after == if mutating then rolled.(used := rolled.used + if admitted then 1 else 0) else ws[i]
  {
    AdmitsIffAllFit(ws, now, weight, mutating);
    RoomIsFit(RolledAll(ws, now, mutating), weight, mutating);
  }

  lemma {:induction false} RoomIsFit(ws: seq<Win>, weight: nat, mutating: bool)
    ensures AllFit(ws, weight, mutating) <==> RoomForCall(ws, weight, mutating)
  {
    forall i | 0 <= i < |ws|
      ensures LetsPass(ws[i], weight, mutating)
              <==> (Applies(ws[i], mutating) ==> Fits(ws[i], ChargeOf(ws[i].key, weight, mutating).value))
    {
    }
  }

  /** What rolling does, by the clock: a window never used is anchored; inside its period nothing
      changes; after it the count is zero and the start has moved by whole durations to the period of
      the clock. */
  lemma {:induction false} RolledByClock(w: Win, now: int)
    requires w.duration > 0
    ensures w.start.None? ==> Rolled(w, now) == w.(start := Some(now))
    ensures w.start.Some? && now < w.start.value + w.duration ==> Rolled(w, now) == w
    ensures w.start.Some? && now >= w.start.value + w.duration ==>
              Rolled(w, now) == w.(used := 0, start := Some(w.start.value + w.duration * ((now - w.start.value) / w.duration)))
  {
    if w.start.Some? && now >= w.start.value + w.duration {
      JumpIsWalk(w.start.value, w.duration, now);
    }
  }

  /** The durations of the keys, in each other's terms. */
  lemma {:induction false} DurationsInSeconds(kind: RateType, num: nat)
    ensures Duration(Key(kind, Second, num)) == num * TICKS_PER_SECOND
    ensures Duration(Key(kind, Minute, num)) == Duration(Key(kind, Second, 60 * num))
    ensures Duration(Key(kind, Hour, num)) == Duration(Key(kind, Minute, 60 * num))
    ensures Duration(Key(kind, Day, num)) == Duration(Key(kind, Hour, 24 * num))
  {
  }

  // ----- looking windows up, usage headers, reseeding -----

  function Find(ws: seq<Win>, key: Key): (i: Option<nat>)
    ensures i.Some? ==> i.value < |ws| && ws[i.value].key == key
    ensures i.None? ==> forall j :: 0 <= j < |ws| ==> ws[j].key != key
  {
    if ws == [] then None
    else if ws[|ws| - 1].key == key then Some(|ws| - 1)
    else Find(ws[..|ws| - 1], key)
  }

  function WindowOf(ws: seq<Win>, key: Key): Option<Win> {
    var i := Find(ws, key);
    if i.Some? then Some(ws[i.value]) else None
  }

  function Reported(w: Win, now: int, reported: int): Win
    requires w.duration > 0
  {
    var rolled := Rolled(w, now);
    rolled.(used := Max(rolled.used, reported))
  }

  /** The windows after one usage header; one that names no window changes nothing. */
  function ReportedAll(ws: seq<Win>, key: Key, now: int, reported: int): seq<Win>
    requires Sound(ws)
  {
    var i := Find(ws, key);
    if i.Some? then ws[i.value := Reported(ws[i.value], now, reported)] else ws
  }

  ghost predicate Proper(rules: seq<Rule>) {
    forall k :: 0 <= k < |rules| ==> rules[k].key.num > 0
  }

  /** The window a rule asks for: the old one under a new limit, or an unused one. */
  function Adopted(before: seq<Win>, rule: Rule): Win {
    var kept := WindowOf(before, rule.key);
    if kept.Some? then kept.value.(limit := rule.limit, duration := Duration(rule.key))
    else Win(rule.key, rule.limit, Duration(rule.key), 0, None)
  }

  function Placed(ws: seq<Win>, w: Win): seq<Win> {
    var i := Find(ws, w.key);
    if i.Some? then ws[i.value := w] else ws + [w]
  }

  function Reseeded(before: seq<Win>, rules: seq<Rule>): seq<Win> {
    if rules == [] then []
    else Placed(Reseeded(before, rules[..|rules| - 1]), Adopted(before, rules[|rules| - 1]))
  }

  /** The last rule for a key. */
  function RuleFor(rules: seq<Rule>, key: Key): Option<Rule> {
    if rules == [] then None
    else if rules[|rules| - 1].key == key then Some(rules[|rules| - 1])
    else RuleFor(rules[..|rules| - 1], key)
  }

  lemma {:induction false} SameKeys(a: seq<Win>, b: seq<Win>, key: Key)
    requires |a| == |b| && forall i :: 0 <= i < |a| ==> a[i].key == b[i].key
    ensures Find(a, key) == Find(b, key)
  {
    if a != [] {
      SameKeys(a[..|a| - 1], b[..|b| - 1], key);
    }
  }

  /** What a usage header does to the window it names: rolled, and then the larger of the two counts. */
  lemma {:induction false} ReportedRaises(ws: seq<Win>, key: Key, now: int, reported: int, i: nat)
    requires Sound(ws) && i < |ws|
    ensures |ReportedAll(ws, key, now, reported)| == |ws|
    ensures var after, rolled := ReportedAll(ws, key, now, reported)[i], Rolled(ws[i], now);
            if ws[i].key != key then after == ws[i]
            else after == rolled.(used := if reported > rolled.used then reported else rolled.used)
  {
    if ws[i].key == key {
      FindIs(ws, i);
    }
  }

  /** The rule for a key is the last one given for it. */
  lemma {:induction false} RuleForIsLast(rules: seq<Rule>, k: nat)
    requires k < |rules| && forall j :: k < j < |rules| ==> rules[j].key != rules[k].key
    ensures RuleFor(rules, rules[k].key) == Some(rules[k])
  {
    if k < |rules| - 1 {
      RuleForIsLast(rules[..|rules| - 1], k);
    }
  }

  lemma {:induction false} RuleForIsGiven(rules: seq<Rule>, key: Key)
    ensures RuleFor(rules, key).None? <==> forall k :: 0 <= k < |rules| ==> rules[k].key != key
  {
    if rules != [] {
      RuleForIsGiven(rules[..|rules| - 1], key);
      assert rules == rules[..|rules| - 1] + [rules[|rules| - 1]];
    }
  }

  /** With one window per key, looking up is finding the index. */
  lemma {:induction false} FindIs(ws: seq<Win>, i: nat)
    requires i < |ws| && forall j, k :: 0 <= j < k < |ws| ==> ws[j].key != ws[k].key
    ensures Find(ws, ws[i].key) == Some(i)
  {
  }

  lemma {:induction false} PlacedSound(ws: seq<Win>, w: Win)
    requires Sound(ws) && w.duration > 0
    ensures Sound(Placed(ws, w))
  {
    var at := Find(ws, w.key);
    if at.Some? {
      SameKeysSound(ws, Placed(ws, w));
    }
  }

  lemma {:induction false} SameKeysSound(a: seq<Win>, b: seq<Win>)
    requires Sound(a) && |a| == |b|
    requires forall i :: 0 <= i < |a| ==> a[i].key == b[i].key && b[i].duration > 0
    ensures Sound(b)
  {
  }

  lemma {:induction false} PlacedAt(ws: seq<Win>, w: Win, key: Key)
    requires Sound(ws) && w.duration > 0
    ensures WindowOf(Placed(ws, w), key) == if key == w.key then Some(w) else WindowOf(ws, key)
  {
    PlacedSound(ws, w);
    var after, at, i := Placed(ws, w), Find(ws, w.key), Find(ws, key);
    if at.Some? {
      SameKeys(after, ws, key);
    } else if key == w.key {
      FindIs(after, |ws|);
    } else if i.Some? {
      FindIs(after, i.value);
    } else {
      assert forall k :: 0 <= k < |after| ==> after[k].key != key;
    }
  }

  lemma {:induction false} ReseededSound(before: seq<Win>, rules: seq<Rule>)
    requires Proper(rules)
    ensures Sound(Reseeded(before, rules))
  {
    if rules != [] {
      var last := rules[|rules| - 1];
      ReseededSound(before, rules[..|rules| - 1]);
      PlacedSound(Reseeded(before, rules[..|rules| - 1]), Adopted(before, last));
    }
  }

  /** Reseeding, key by key: a key without a rule loses its window; otherwise the last rule gives
      the limit, and a kept window keeps its count and its grid. */
  lemma {:induction false} ReseededAt(before: seq<Win>, rules: seq<Rule>, key: Key)
    requires Proper(rules)
    ensures var rule, after := RuleFor(rules, key), WindowOf(Reseeded(before, rules), key);
            if rule.None? then after == None
            else
              var kept := WindowOf(before, key);
              && after.Some? && after.value.key == key
              && after.value.limit == rule.value.limit && after.value.duration == Duration(key)
              && after.value.used == (if kept.Some? then kept.value.used else 0)
              && after.value.start == (if kept.Some? then kept.value.start else None)
  {
    if rules != [] {
      var init, last := rules[..|rules| - 1], rules[|rules| - 1];
      ReseededAt(before, init, key);
      ReseededSound(before, init);
      PlacedAt(Reseeded(before, init), Adopted(before, last), key);
    }
  }

  // ----- the mutable limiter -----

  class Window {
    const key: Key
    var limit: int
    var duration: int
    var used: int
    var start: Option<int>

    function State(): Win
      reads this
    {
      Win(key, limit, duration, used, start)
    }

    constructor (key: Key, limit: int, duration: int)
      ensures State() == Win(key, limit, duration, 0, None)
    {
      this.key, this.limit, this.duration := key, limit, duration;
      used, start := 0, None;
    }

    method Roll(now: int)
      requires duration > 0
      modifies this`used, this`start
      ensures State() == Rolled(old(State()), now)
    {
      if start == None {
        start := Some(now);
        return;
      }
      var elapsed := now - start.value;
      if elapsed >= duration {
        JumpIsWalk(start.value, duration, now);
        start := Some(start.value + duration * (elapsed / duration));
        used := 0;
      }
    }
  }

  ghost function StatesOf(windows: seq<Window>): (ws: seq<Win>)
    reads windows
    ensures |ws| == |windows|
    ensures forall i :: 0 <= i < |windows| ==> ws[i] == windows[i].State()
  {
    seq(|windows|, i requires 0 <= i < |windows| reads windows => windows[i].State())
  }

  function Position(windows: seq<Window>, key: Key): Option<nat> {
    if windows == [] then None
    else if windows[|windows| - 1].key == key then Some(|windows| - 1)
    else Position(windows[..|windows| - 1], key)
  }

  lemma {:induction false} PositionFinds(windows: seq<Window>, key: Key)
    ensures Position(windows, key) == Find(StatesOf(windows), key)
  {
    if windows != [] {
      PositionFinds(windows[..|windows| - 1], key);
      assert StatesOf(windows)[..|windows| - 1] == StatesOf(windows[..|windows| - 1]);
    }
  }

  /** The window objects carry these keys, counts and anchors; their limits may have changed. */
  ghost predicate Carries(windows: seq<Window>, ws: seq<Win>)
    reads windows
  {
    && |windows| == |ws|
    && forall i :: 0 <= i < |windows| ==>
         windows[i].key == ws[i].key && windows[i].used == ws[i].used && windows[i].start == ws[i].start
  }

  function PlacedWindow(windows: seq<Window>, w: Window): seq<Window> {
    var i := Position(windows, w.key);
    if i.Some? && i.value < |windows| then windows[i.value := w] else windows + [w]
  }

  /** Placing the object of a window places its state. */
  lemma {:induction false} PlacedWindowIs(windows: seq<Window>, w: Window, ws: seq<Win>)
    requires |windows| == |ws| && Sound(ws)
    requires forall i :: 0 <= i < |windows| ==>
               windows[i].key == ws[i].key && (windows[i].key != w.key ==> windows[i].State() == ws[i])
    ensures StatesOf(PlacedWindow(windows, w)) == Placed(ws, w.State())
    ensures forall x :: x in PlacedWindow(windows, w) ==> x == w || (x in windows && x.key != w.key)
  {
    PositionFinds(windows, w.key);
    SameKeys(StatesOf(windows), ws, w.key);
    var i := Find(ws, w.key);
    if i.Some? {
      assert forall j :: 0 <= j < |ws| && j != i.value ==> ws[j].key != ws[i.value].key;
    }
  }

  /** A held window and an adopted one with the same key are the same object. */
  ghost predicate Shares(adopted: seq<Window>, held: seq<Window>) {
    forall x, i :: x in adopted && 0 <= i < |held| && x.key == held[i].key ==> x == held[i]
  }

  class DualWindowRateLimiter {
    /** The dictionary of windows, in its insertion order. */
    var windows: seq<Window>

    ghost predicate Valid()
      reads this, windows
    {
      Sound(States())
    }

    ghost function States(): (ws: seq<Win>)
      reads this, windows
    {
      StatesOf(windows)
    }

    constructor (rules: seq<Rule>)
      requires Proper(rules)
      ensures Valid() && States() == Reseeded([], rules)
      ensures forall w :: w in windows ==> fresh(w)
    {
      windows := [];
      new;
      assert windows == [] && States() == [];
      Reseed(rules);
    }

    method RollOne(n: nat, now: int)
      requires Valid() && n < |windows|
      modifies windows[n]
      ensures Valid()
      ensures States() == old(States())[n := Rolled(old(States())[n], now)]
    {
      ghost var before := States();
      assert forall i :: 0 <= i < |windows| && i != n ==> before[i].key != before[n].key;
      windows[n].Roll(now);
      assert States() == before[n := Rolled(before[n], now)];
    }

    /** One round of the first half: the window is rolled if the call charges it. */
    method RollCharged(n: nat, now: int, weight: nat, mutating: bool, sofar: int) returns (wait: int)
      requires Valid() && n < |windows|
      modifies windows[n]
      ensures Valid()
      ensures States() == if Applies(old(States())[n], mutating) then old(States())[n := Rolled(old(States())[n], now)] else old(States())
      ensures var charge := ChargeOf(States()[n].key, weight, mutating);
              wait == if charge.Some? then Max(sofar, WaitTime(States()[n], now, charge.value)) else sofar
    {
      wait := sofar;
      var charge := ChargeOf(windows[n].key, weight, mutating);
      if charge.Some? {
        RollOne(n, now);
        wait := Max(wait, WaitTime(windows[n].State(), now, charge.value));
      }
    }

    /** First half of the locked section: roll the charged windows and compute the wait. */
    method RollAndWait(now: int, weight: nat, mutating: bool) returns (wait: int)
      requires Valid()
      modifies windows
      ensures Valid()
      ensures States() == RolledAll(old(States()), now, mutating)
      ensures wait == Wait(States(), now, weight, mutating)
    {
      ghost var before := States();
      wait := 0;
      for n := 0 to |windows|
        invariant Valid()
        invariant RolledUpTo(before, States(), n, now, mutating)
        invariant wait == Wait(States()[..n], now, weight, mutating)
      {
        ghost var earlier := States();
        wait := RollCharged(n, now, weight, mutating, wait);
        RollOneMore(before, earlier, States(), n, now, mutating);
        WaitOneMore(States(), n, now, weight, mutating);
      }
      assert States()[..|windows|] == States();
    }

    /** Second half: charge every window the call applies to. */
    method Charge(weight: nat, mutating: bool)
      requires Valid()
      modifies windows
      ensures Valid()
      ensures States() == ChargedAll(old(States()), weight, mutating)
    {
      ghost var before := States();
      ghost var charged := ChargedAll(before, weight, mutating);
      for n := 0 to |windows|
        invariant forall i :: 0 <= i < n ==> windows[i].State() == charged[i]
        invariant forall i :: n <= i < |windows| ==> windows[i].State() == before[i]
      {
        assert forall i :: 0 <= i < |windows| && i != n ==> before[i].key != before[n].key;
        assert forall i :: 0 <= i < |windows| ==> windows[i].key == before[i].key;
        var charge := ChargeOf(windows[n].key, weight, mutating);
        if charge.Some? {
          windows[n].used := windows[n].used + charge.value;
        }
      }
      assert States() == charged;
    }

    /** The section of acquire under the lock: roll, compute the wait, and charge if it is zero. */
    method TryAcquire(now: int, weight: nat, mutating: bool) returns (wait: int)
      requires Valid()
      modifies windows
      ensures Valid()
      ensures wait == Wait(RolledAll(old(States()), now, mutating), now, weight, mutating)
      ensures States() == Tried(old(States()), now, weight, mutating)
    {
      wait := RollAndWait(now, weight, mutating);
      if wait <= 0 {
        Charge(weight, mutating);
      }
    }

    method RaiseOne(n: nat, reported: int)
      requires Valid() && n < |windows|
      modifies windows[n]
      ensures Valid()
      ensures States() == old(States())[n := old(States())[n].(used := Max(old(States())[n].used, reported))]
    {
      ghost var before := States();
      assert forall i :: 0 <= i < |windows| && i != n ==> before[i].key != before[n].key;
      windows[n].used := Max(windows[n].used, reported);
      assert States() == before[n := before[n].(used := Max(before[n].used, reported))];
    }

    /** One usage header: roll the window it names, then raise its count to the reported one. */
    method Report(key: Key, now: int, reported: int)
      requires Valid()
      modifies windows
      ensures Valid()
      ensures States() == ReportedAll(old(States()), key, now, reported)
    {
      PositionFinds(windows, key);
      var i := Position(windows, key);
      if i.Some? {
        RollOne(i.value, now);
        RaiseOne(i.value, reported);
      }
    }

    /** The object for one rule: the held one, updated in place, or a new one. */
    static method Adopt(held: seq<Window>, ghost before: seq<Win>, rule: Rule) returns (w: Window)
      requires Sound(before) && Carries(held, before)
      modifies held
      ensures Carries(held, before)
      ensures w.State() == Adopted(before, rule)
      ensures w in held || fresh(w)
      ensures forall i :: 0 <= i < |held| ==>
                if held[i].key == rule.key then held[i] == w else held[i].State() == old(held[i].State())
    {
      PositionFinds(held, rule.key);
      SameKeys(StatesOf(held), before, rule.key);
      var i := Position(held, rule.key);
      if i.Some? {
        w := held[i.value];
        w.limit, w.duration := rule.limit, Duration(rule.key);
        assert forall j :: 0 <= j < |held| && j != i.value ==> before[j].key != before[i.value].key;
      } else {
        w := new Window(rule.key, rule.limit, Duration(rule.key));
      }
    }

    /** One round of the reseeding loop. */
    static method AdoptInto(held: seq<Window>, ghost before: seq<Win>, adopted: seq<Window>, rule: Rule)
        returns (more: seq<Window>)
      requires Sound(before) && Carries(held, before) && rule.key.num > 0
      requires Sound(StatesOf(adopted)) && Shares(adopted, held)
      modifies held
      ensures Carries(held, before)
      ensures StatesOf(more) == Placed(old(StatesOf(adopted)), Adopted(before, rule)) && Sound(StatesOf(more))
      ensures Shares(more, held) && forall x :: x in more ==> x in adopted || x in held || fresh(x)
    {
      ghost var sofar := StatesOf(adopted);
      var w := Adopt(held, before, rule);
      forall i | 0 <= i < |adopted| && adopted[i].key != w.key ensures adopted[i].State() == sofar[i] {
        assert adopted[i] in adopted;
      }
      PlacedWindowIs(adopted, w, sofar);
      PlacedSound(sofar, w.State());
      more := PlacedWindow(adopted, w);
    }

    /** Adopt authoritative limits, carrying over the count and the grid of the kept keys. */
    method Reseed(rules: seq<Rule>)
      requires Valid() && Proper(rules)
      modifies this, windows
      ensures Valid()
      ensures States() == Reseeded(old(States()), rules)
      ensures forall w :: w in windows ==> w in old(windows) || fresh(w)
    {
      ghost var before := States();
      var held, adopted: seq<Window> := windows, [];
      for n := 0 to |rules|
        invariant windows == held == old(windows)
        invariant forall w :: w in adopted ==> w in held || fresh(w)
        invariant StatesOf(adopted) == Reseeded(before, rules[..n]) && Sound(StatesOf(adopted))
        invariant Carries(held, before) && Shares(adopted, held)
      {
        assert rules[..n + 1][..n] == rules[..n];
        adopted := AdoptInto(held, before, adopted, rules[n]);
      }
      assert rules[..|rules|] == rules;
      windows := adopted;
    }

    /** The whole acquire when no other task interferes: each sleep takes the requested ticks plus
        some `late` ones. It sleeps at most once. */
    method Acquire(weight: nat, mutating: bool, now: int, late: nat -> nat) returns (sleeps: seq<int>)
      requires Valid()
      requires Anchored(States(), now)
      modifies windows
      ensures Valid()
      ensures var needed := Wait(RolledAll(old(States()), now, mutating), now, weight, mutating);
              sleeps == if needed <= 0 then [] else [needed]
      ensures States() == Acquired(old(States()), now, weight, mutating, late(0))
    {
      ghost var before := States();
      ghost var needed := Wait(RolledAll(before, now, mutating), now, weight, mutating);
      sleeps := [];
      var clock := now;
      while true
        invariant Valid()
        invariant InProgress(before, States(), now, clock, weight, mutating, late(0), sleeps)
        decreases 1 - |sleeps|
      {
        ghost var current := States();
        NextTry(before, current, now, clock, weight, mutating, late(0), sleeps);
        var wait := TryAcquire(clock, weight, mutating);
        if wait <= 0 {
          return;
        }
        clock := clock + wait + late(|sleeps|);
        sleeps := sleeps + [wait];
      }
    }
  }
}
