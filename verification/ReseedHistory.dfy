/** What reseeds can do to a window's accounting: dropping a window forgets its usage, and exactly which
    sources of rules keep every run within the limit. */
module ReseedHistory {
  import opened Prelude
  import opened RateLimit
  import opened RateHistory

  // ----- windows that are as new -----

  ghost predicate AllUnused(ws: seq<Win>) {
    forall i :: 0 <= i < |ws| ==> ws[i].used == 0 && ws[i].start.None?
  }

  /** A reseed that keeps no used window leaves all windows unused. */
  lemma {:induction false} ReseededUnused(before: seq<Win>, rules: seq<Rule>)
    requires Proper(rules)
    requires forall i :: 0 <= i < |before| ==>
               (before[i].used == 0 && before[i].start.None?) || RuleFor(rules, before[i].key).None?
    ensures AllUnused(Reseeded(before, rules))
  {
    var after := Reseeded(before, rules);
    ReseededSound(before, rules);
    forall i | 0 <= i < |after| ensures after[i].used == 0 && after[i].start.None? {
      FindIs(after, i);
      ReseededAt(before, rules, after[i].key);
    }
  }

  /** Unused windows admit any call at all. */
  lemma {:induction false} UnusedAdmits(ws: seq<Win>, event: Event, key: Key, charge: nat)
    requires Sound(ws) && AllUnused(ws) && WindowOf(ws, key).Some?
    requires event.Try? && ChargeOf(key, event.weight, event.mutating) == Some(charge)
    ensures AdmittedBy(ws, event, key) == [Admission(event.now, charge, 0)]
    ensures WindowOf(Step(ws, event), key) == Some(WindowOf(ws, key).value.(used := charge, start := Some(event.now)))
  {
    AdmitsIffAllFit(ws, event.now, event.weight, event.mutating);
    assert AllFit(RolledAll(ws, event.now, event.mutating), event.weight, event.mutating);
    TryAt(ws, event.now, event.weight, event.mutating, key);
  }

  // ----- runs whose reseeds come from given lists -----

  /** The lists of rules that reseeds may bring: proper, and never above the limit for the key. */
  ghost predicate Feeds(feeds: seq<seq<Rule>>, key: Key, limit: int) {
    forall rules :: rules in feeds ==>
      Proper(rules) && (RuleFor(rules, key).Some? ==> RuleFor(rules, key).value.limit <= limit)
  }

  /** An event such a run may contain: a reseed from one of the lists, a call that charges the window
      at most the limit, or any usage header. */
  ghost predicate AllowedEvent(event: Event, key: Key, feeds: seq<seq<Rule>>, limit: int) {
    match event
    case Try(_, weight, mutating) =>
      var charge := ChargeOf(key, weight, mutating);
      charge.Some? ==> charge.value <= limit
    case Header(_, _, _) => true
    case Reseed(_, rules) => rules in feeds && Proper(rules)
  }

  ghost predicate Allowed(events: seq<Event>, key: Key, feeds: seq<seq<Rule>>, limit: int) {
    MonotoneClock(events) && forall k :: 0 <= k < |events| ==> AllowedEvent(events[k], key, feeds, limit)
  }

  lemma {:induction false} AllowedIsPossible(events: seq<Event>, key: Key, feeds: seq<seq<Rule>>, limit: int)
    requires Allowed(events, key, feeds, limit)
    ensures AllPossible(events)
  {
    forall k | 0 <= k < |events| ensures Possible(events[k]) {
      assert AllowedEvent(events[k], key, feeds, limit);
    }
  }

  /** After the run, what the window has admitted in its current period is within the limit. */
  ghost predicate CurrentWithin(ws: seq<Win>, events: seq<Event>, key: Key, limit: int) {
    Sound(ws) && AllPossible(events) ==>
      var w := WindowOf(After(ws, events), key);
      w.Some? && w.value.start.Some? ==>
        Total(Admitted(ws, events, key), w.value.start.value, w.value.start.value + w.value.duration) <= limit
  }

  // ----- the lists that keep every run within the limit -----

  lemma {:induction false} AmountsAllowed(ws: seq<Win>, events: seq<Event>, key: Key, feeds: seq<seq<Rule>>, limit: nat)
    requires Sound(ws) && AllPossible(events) && Allowed(events, key, feeds, limit)
    ensures AmountsAtMost(Admitted(ws, events, key), limit)
  {
    if events != [] {
      var init, last := events[..|events| - 1], events[|events| - 1];
      assert AllowedEvent(last, key, feeds, limit);
      assert Allowed(init, key, feeds, limit) by {
        assert forall k :: 0 <= k < |init| ==> init[k] == events[k];
      }
      AmountsAllowed(ws, init, key, feeds, limit);
    }
  }

  lemma {:induction false} NeverOverAdmitsIsWithin(w: Win, admitted: seq<Admission>, limit: nat)
    requires NeverOverAdmits(w, admitted, limit) && AmountsAtMost(admitted, limit) && w.start.Some?
    ensures Total(admitted, w.start.value, w.start.value + w.duration) <= limit
  {
    assert PeriodStart(w, 0) == w.start.value;
    assert PeriodBounded(admitted, PeriodStart(w, 0), PeriodStart(w, 0) + w.duration, limit);
  }

  /** A run that keeps the window throughout stays within the limit. */
  lemma {:induction false} KeptRunIsWithin(ws: seq<Win>, events: seq<Event>, key: Key, feeds: seq<seq<Rule>>, limit: nat)
    requires Fresh(ws, events, key, limit) && Allowed(events, key, feeds, limit)
    ensures CurrentWithin(ws, events, key, limit)
  {
    PeriodsNeverOverAdmit(ws, events, key, limit);
    AmountsAllowed(ws, events, key, feeds, limit);
    var w := WindowOf(After(ws, events), key).value;
    if w.start.Some? {
      NeverOverAdmitsIsWithin(w, Admitted(ws, events, key), limit);
    }
  }

  /** A window no list brings back is gone after the first reseed. */
  lemma {:induction false} GoneForGood(ws: seq<Win>, events: seq<Event>, key: Key, feeds: seq<seq<Rule>>, limit: int, at: nat)
    requires Sound(ws) && AllPossible(events) && Allowed(events, key, feeds, limit)
    requires forall rules :: rules in feeds ==> RuleFor(rules, key).None?
    requires at < |events| && events[at].Reseed?
    ensures WindowOf(After(ws, events), key).None?
  {
    var init, last := events[..|events| - 1], events[|events| - 1];
    assert AllowedEvent(last, key, feeds, limit);
    if last.Reseed? {
      ReseededAt(After(ws, init), last.rules, key);
    } else {
      assert Allowed(init, key, feeds, limit) && init[at] == events[at] by {
        assert forall k :: 0 <= k < |init| ==> init[k] == events[k];
      }
      GoneForGood(ws, init, key, feeds, limit, at);
      StepKeepsKeys(After(ws, init), last);
      SameKeys(Step(After(ws, init), last), After(ws, init), key);
    }
  }

  lemma {:induction false} StepKeepsKeys(ws: seq<Win>, event: Event)
    requires Sound(ws) && !event.Reseed?
    ensures |Step(ws, event)| == |ws| && forall i :: 0 <= i < |ws| ==> Step(ws, event)[i].key == ws[i].key
  {
    if event.Try? {
      TriedKeepsKeys(ws, event.now, event.weight, event.mutating);
    }
  }

  lemma {:induction false} AllKeepOrNoneIsWithin(w: Win, events: seq<Event>, feeds: seq<seq<Rule>>, limit: nat)
    requires w == Win(w.key, limit, Duration(w.key), 0, None) && w.key.num > 0
    requires Feeds(feeds, w.key, limit) && Allowed(events, w.key, feeds, limit)
    requires (forall rules :: rules in feeds ==> RuleFor(rules, w.key).Some?)
             || (forall rules :: rules in feeds ==> RuleFor(rules, w.key).None?)
    ensures CurrentWithin([w], events, w.key, limit)
  {
    AllowedIsPossible(events, w.key, feeds, limit);
    FindIs([w], 0);
    if at: nat :| at < |events| && events[at].Reseed? && RuleFor(events[at].rules, w.key).None? {
      assert AllowedEvent(events[at], w.key, feeds, limit);
      GoneForGood([w], events, w.key, feeds, limit, at);
    } else {
      forall k | 0 <= k < |events| && events[k].Reseed? ensures KeptBy(events[k].rules, w.key, w.duration, limit) {
        assert AllowedEvent(events[k], w.key, feeds, limit);
      }
      KeptRunIsWithin([w], events, w.key, feeds, limit);
    }
  }

  // ----- a run that drops the window and brings it back -----

  /** An allowed run that happens at one instant. */
  ghost predicate AllowedAtZero(events: seq<Event>, key: Key, feeds: seq<seq<Rule>>, limit: int) {
    Allowed(events, key, feeds, limit) && forall k :: 0 <= k < |events| ==> events[k].now == 0
  }

  lemma {:induction false} OneMoreAllowed(events: seq<Event>, event: Event, key: Key, feeds: seq<seq<Rule>>, limit: int)
    requires AllowedAtZero(events, key, feeds, limit) && AllowedEvent(event, key, feeds, limit) && event.now == 0
    ensures AllowedAtZero(events + [event], key, feeds, limit)
  {
    var longer := events + [event];
    forall k | 0 <= k < |longer| ensures AllowedEvent(longer[k], key, feeds, limit) && longer[k].now == 0 {
      assert k < |events| ==> longer[k] == events[k];
    }
  }

  /** The admissions of n calls that charge one each. */
  function Ones(n: nat): seq<Admission> {
    if n == 0 then [] else Ones(n - 1) + [Admission(0, 1, n - 1)]
  }

  lemma {:induction false} OnesTotal(n: nat, d: int)
    requires d > 0
    ensures Total(Ones(n), 0, d) == n
  {
    if n > 0 {
      OnesTotal(n - 1, d);
      TotalOneMore(Ones(n - 1), Admission(0, 1, n - 1), 0, d);
    }
  }

  function Filled(w: Win, n: nat): Win {
    if n == 0 then w else w.(used := n, start := Some(0))
  }

  lemma {:induction false} FilledOneMore(w: Win, n: nat)
    requires w.duration > 0 && w.used == 0 && w.start.None? && n < w.limit
    ensures Step([Filled(w, n)], Try(0, 1, true)) == [Filled(w, n + 1)]
    ensures AdmittedBy([Filled(w, n)], Try(0, 1, true), w.key) == [Admission(0, 1, n)]
  {
    var before := Filled(w, n);
    assert Rolled(before, 0) == w.(used := n, start := Some(0));
    OneTry(before, Try(0, 1, true), 1);
  }

  /** A window filled call by call: every kind of window is charged one by a mutating call of weight one. */
  lemma {:induction false} Filling(w: Win, n: nat, feeds: seq<seq<Rule>>, limit: nat) returns (events: seq<Event>)
    requires w.duration > 0 && w.limit == limit && w.used == 0 && w.start.None? && n <= limit && limit > 0
    ensures AllowedAtZero(events, w.key, feeds, limit)
    ensures Leads([w], events, w.key, [Filled(w, n)], Ones(n))
  {
    if n == 0 {
      events := [];
      LeadsNowhere([w], w.key);
    } else {
      var event := Try(0, 1, true);
      events := Filling(w, n - 1, feeds, limit);
      OneMoreAllowed(events, event, w.key, feeds, limit);
      FilledOneMore(w, n - 1);
      LeadsTo([w], events, event, w.key, [Filled(w, n - 1)], Ones(n - 1), [Filled(w, n)], [Admission(0, 1, n - 1)]);
      events := events + [event];
    }
  }

  /** Two reseeds, the first without the window's key and the second with it: all windows are unused
      again, and the key's is among them. */
  lemma {:induction false} DroppedAndBack(ws: seq<Win>, events: seq<Event>, w: Win, admitted: seq<Admission>, a: seq<Rule>, b: seq<Rule>)
      returns (longer: seq<Event>, after: seq<Win>)
    requires Leads(ws, events, w.key, [w], admitted) && w.duration > 0
    requires Proper(a) && Proper(b) && RuleFor(a, w.key).None? && RuleFor(b, w.key).Some?
    ensures longer == events + [Reseed(0, a)] + [Reseed(0, b)]
    ensures Leads(ws, longer, w.key, after, admitted) && Sound(after) && AllUnused(after)
    ensures WindowOf(after, w.key) == Some(Win(w.key, RuleFor(b, w.key).value.limit, Duration(w.key), 0, None))
  {
    var dropped := Reseeded([w], a);
    ReseededSound([w], a);
    ReseededUnused([w], a);
    ReseededAt([w], a, w.key);
    longer := OneMoreReseed(ws, events, 0, a, w.key, [w], admitted);
    after := Reseeded(dropped, b);
    ReseededSound(dropped, b);
    ReseededUnused(dropped, b);
    ReseededAt(dropped, b, w.key);
    longer := OneMoreReseed(ws, longer, 0, b, w.key, dropped, admitted);
  }

  /** The call after that is admitted on top of everything before. */
  lemma {:induction false} AdmittedAfresh(ws: seq<Win>, events: seq<Event>, before: seq<Win>, key: Key, admitted: seq<Admission>,
                                          event: Event, charge: nat) returns (after: seq<Win>)
    requires Leads(ws, events, key, before, admitted) && Sound(before) && AllUnused(before) && WindowOf(before, key).Some?
    requires event.Try? && ChargeOf(key, event.weight, event.mutating) == Some(charge)
    ensures Leads(ws, events + [event], key, after, admitted + [Admission(event.now, charge, 0)])
    ensures WindowOf(after, key) == Some(WindowOf(before, key).value.(used := charge, start := Some(event.now)))
  {
    UnusedAdmits(before, event, key, charge);
    after := Step(before, event);
    LeadsTo(ws, events, event, key, before, admitted, after, [Admission(event.now, charge, 0)]);
  }

  /** Dropping forgets: whatever other windows the lists bring, a reseed without the window's key and a
      later one with it let one period admit twice the limit, while `used` shows one. */
  lemma {:induction false} DroppedWindowForgets(w: Win, limit: nat, a: seq<Rule>, b: seq<Rule>)
      returns (events: seq<Event>, after: seq<Win>, admitted: seq<Admission>)
    requires limit > 0 && w.key.num > 0 && w.key.kind.RequestWeight? && w == Win(w.key, limit, Duration(w.key), 0, None)
    requires Proper(a) && Proper(b) && RuleFor(a, w.key).None? && RuleFor(b, w.key).Some?
    ensures Leads([w], events, w.key, after, admitted)
    ensures WindowOf(after, w.key) == Some(Win(w.key, RuleFor(b, w.key).value.limit, w.duration, limit, Some(0)))
    ensures Total(admitted, 0, w.duration) == 2 * limit
  {
    var a0 := Admission(0, limit, 0);
    events := FirstTryLeads(w, 0, limit);
    events, after := DroppedAndBack([w], events, w.(used := limit, start := Some(0)), [a0], a, b);
    after := AdmittedAfresh([w], events, after, w.key, [a0], Try(0, limit, false), limit);
    events, admitted := events + [Try(0, limit, false)], [a0] + [a0];
    TotalOfOne(a0, 0, w.duration);
    TotalOneMore([a0], a0, 0, w.duration);
  }

  /** For every kind of window: filled to the limit, dropped, brought back, and charged once more. */
  lemma {:induction false} OneTooMany(w: Win, limit: nat, feeds: seq<seq<Rule>>, a: seq<Rule>, b: seq<Rule>) returns (events: seq<Event>)
    requires limit > 0 && w.key.num > 0 && w == Win(w.key, limit, Duration(w.key), 0, None)
    requires Feeds(feeds, w.key, limit) && a in feeds && b in feeds
    requires RuleFor(a, w.key).None? && RuleFor(b, w.key).Some?
    ensures Allowed(events, w.key, feeds, limit) && !CurrentWithin([w], events, w.key, limit)
  {
    var last := Try(0, 1, true);
    var filled := Filling(w, limit, feeds, limit);
    var reseeded, before := DroppedAndBack([w], filled, Filled(w, limit), Ones(limit), a, b);
    OneMoreAllowed(filled, Reseed(0, a), w.key, feeds, limit);
    OneMoreAllowed(filled + [Reseed(0, a)], Reseed(0, b), w.key, feeds, limit);
    OneMoreAllowed(reseeded, last, w.key, feeds, limit);
    var after := AdmittedAfresh([w], reseeded, before, w.key, Ones(limit), last, 1);
    OnesTotal(limit, w.duration);
    TotalOneMore(Ones(limit), Admission(0, 1, 0), 0, w.duration);
    events := reseeded + [last];
  }

  /** Exactly which lists of rules keep a window from over-admitting: over all runs of calls that charge
      it at most the limit, of usage headers and of reseeds from the lists, the current period stays
      within the limit if and only if every list keeps the window, or none does. */
  lemma {:induction false} WithinIffKeptByAllOrNone(w: Win, limit: nat, feeds: seq<seq<Rule>>)
    requires limit > 0 && w.key.num > 0 && w == Win(w.key, limit, Duration(w.key), 0, None)
    requires Feeds(feeds, w.key, limit)
    ensures (forall events :: Allowed(events, w.key, feeds, limit) ==> CurrentWithin([w], events, w.key, limit))
            <==> (forall rules :: rules in feeds ==> RuleFor(rules, w.key).Some?)
                 || (forall rules :: rules in feeds ==> RuleFor(rules, w.key).None?)
  {
    if (forall rules :: rules in feeds ==> RuleFor(rules, w.key).Some?)
       || (forall rules :: rules in feeds ==> RuleFor(rules, w.key).None?) {
      forall events | Allowed(events, w.key, feeds, limit) ensures CurrentWithin([w], events, w.key, limit) {
        AllKeepOrNoneIsWithin(w, events, feeds, limit);
      }
    } else {
      var a :| a in feeds && RuleFor(a, w.key).None?;
      var b :| b in feeds && RuleFor(b, w.key).Some?;
      var events := OneTooMany(w, limit, feeds, a, b);
      assert Allowed(events, w.key, feeds, limit) && !CurrentWithin([w], events, w.key, limit);
    }
  }
}
