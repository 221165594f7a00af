/** One multiplexed market-stream connection: ref-counted subscriptions, the set of desired
    streams, and what the exchange believes is subscribed across reconnects. */
module Connection {
  /** A subscription object: its stream and its identity. */
  datatype Sub = Sub(stream: string, id: nat)

  datatype Frame = Frame(subscribe: bool, stream: string)

  /** The supervisor's socket. While connecting, the URL is already built and no frame can be
      sent; online, `server` is what the exchange has subscribed and `frames` is still in flight. */
  datatype Link =
    | Offline
    | Connecting(url: set<string>)
    | Online(server: set<string>, frames: seq<Frame>)

  datatype State = State(desired: set<string>, subs: map<string, seq<Sub>>, nextId: nat, link: Link)

  datatype Action =
    | Subscribe(stream: string)
    | Unsubscribe(sub: Sub)
    | BuildUrl
    | StoreSocket
    | ConnectFails
    | ServerReads
    | Lose

  // ----- the steps -----

  /** A change of interest goes out as a frame when a socket is live; otherwise nothing is sent, and
      the URL of the next connect will carry it. */
  function Pushed(link: Link, frame: Frame): Link {
    if link.Online? then link.(frames := link.frames + [frame]) else link
  }

  function Subscribed(s: State, stream: string): State {
    var sub := Sub(stream, s.nextId);
    var first := stream !in s.subs;
    State(s.desired + {stream},
          s.subs[stream := (if first then [] else s.subs[stream]) + [sub]],
          s.nextId + 1,
          if first then Pushed(s.link, Frame(true, stream)) else s.link)
  }

  function Without(subs: seq<Sub>, sub: Sub): seq<Sub> {
    if subs == [] then []
    else if subs[0] == sub then subs[1..]
    else [subs[0]] + Without(subs[1..], sub)
  }

  function Unsubscribed(s: State, sub: Sub): State {
    if sub.stream !in s.subs then s
    else
      var left := Without(s.subs[sub.stream], sub);
      if left != [] then s.(subs := s.subs[sub.stream := left])
      else State(s.desired - {sub.stream}, s.subs - {sub.stream}, s.nextId,
                 Pushed(s.link, Frame(false, sub.stream)))
  }

  function Handled(server: set<string>, frame: Frame): set<string> {
    if frame.subscribe then server + {frame.stream} else server - {frame.stream}
  }

  function Next(s: State, action: Action): State {
    match action
    case Subscribe(stream) => Subscribed(s, stream)
    case Unsubscribe(sub) => Unsubscribed(s, sub)
    case BuildUrl => if s.link.Offline? then s.(link := Connecting(s.desired)) else s
    case StoreSocket => if s.link.Connecting? then s.(link := Online(s.link.url, [])) else s
    case ConnectFails => if s.link.Connecting? then s.(link := Offline) else s
    case ServerReads =>
      if s.link.Online? && s.link.frames != []
      then s.(link := Online(Handled(s.link.server, s.link.frames[0]), s.link.frames[1..]))
      else s
    case Lose => if s.link.Online? then s.(link := Offline) else s
  }

  const FRESH: State := State({}, map[], 0, Offline)

  function After(actions: seq<Action>): State {
    if actions == [] then FRESH else Next(After(actions[..|actions| - 1]), actions[|actions| - 1])
  }

  // ----- ref counting -----

  /** The subscriptions taken out and not yet given back, from the history alone. */
  function Live(actions: seq<Action>): set<Sub> {
    if actions == [] then {}
    else
      var init := actions[..|actions| - 1];
      match actions[|actions| - 1]
      case Subscribe(stream) => Live(init) + {Sub(stream, After(init).nextId)}
      case Unsubscribe(sub) => Live(init) - {sub}
      case _ => Live(init)
  }

  ghost predicate Distinct(subs: seq<Sub>) {
    forall i, j :: 0 <= i < j < |subs| ==> subs[i] != subs[j]
  }

  /** Every stream listed has subscribers, all of them its own, each once. */
  ghost predicate Counted(s: State) {
    && s.desired == s.subs.Keys
    && (forall stream :: stream in s.subs ==>
          && s.subs[stream] != [] && Distinct(s.subs[stream])
          && forall sub :: sub in s.subs[stream] ==> sub.stream == stream && sub.id < s.nextId)
  }

  ghost predicate Lists(s: State, live: set<Sub>) {
    forall sub :: sub in live <==> sub.stream in s.subs && sub in s.subs[sub.stream]
  }

  lemma {:induction false} WithoutRemoves(subs: seq<Sub>, sub: Sub)
    requires Distinct(subs)
    ensures Distinct(Without(subs, sub))
    ensures forall x :: x in Without(subs, sub) <==> x in subs && x != sub
  {
    if subs != [] {
      assert subs == [subs[0]] + subs[1..];
      if subs[0] != sub {
        WithoutRemoves(subs[1..], sub);
        var rest := Without(subs[1..], sub);
        forall i, j | 0 <= i < j < |[subs[0]] + rest| ensures ([subs[0]] + rest)[i] != ([subs[0]] + rest)[j] {
          assert rest[j - 1] in rest;
        }
      }
    }
  }

  lemma {:induction false} SubscribeCounts(s: State, stream: string, live: set<Sub>)
    requires Counted(s) && Lists(s, live)
    ensures Counted(Subscribed(s, stream))
    ensures Lists(Subscribed(s, stream), live + {Sub(stream, s.nextId)})
  {
    var t := Subscribed(s, stream);
    assert t.desired == t.subs.Keys;
    var earlier := if stream in s.subs then s.subs[stream] else [];
    assert t.subs[stream] == earlier + [Sub(stream, s.nextId)];
  }

  lemma {:induction false} UnsubscribeCounts(s: State, sub: Sub, live: set<Sub>)
    requires Counted(s) && Lists(s, live)
    ensures Counted(Unsubscribed(s, sub))
    ensures Lists(Unsubscribed(s, sub), live - {sub})
  {
    if sub.stream in s.subs {
      var t := Unsubscribed(s, sub);
      WithoutRemoves(s.subs[sub.stream], sub);
      assert t.desired == t.subs.Keys;
    }
  }

  /** What goes out on a live socket: the first subscriber of a stream sends one subscribe frame, the
      last one to leave sends one unsubscribe frame, and nobody else sends anything. */
  lemma {:induction false} FramesSent(s: State, stream: string, sub: Sub)
    requires s.link.Online?
    ensures Subscribed(s, stream).link
            == if stream in s.subs then s.link else Online(s.link.server, s.link.frames + [Frame(true, stream)])
    ensures Unsubscribed(s, sub).link
            == if sub.stream in s.subs && (s.subs[sub.stream] == [] || s.subs[sub.stream] == [sub])
               then Online(s.link.server, s.link.frames + [Frame(false, sub.stream)]) else s.link
  {
    if sub.stream in s.subs {
      LeavesNone(s.subs[sub.stream], sub);
    }
  }

  lemma {:induction false} LeavesNone(subs: seq<Sub>, sub: Sub)
    ensures Without(subs, sub) == [] <==> subs == [] || subs == [sub]
  {
  }

  lemma {:induction false} RunCounts(actions: seq<Action>)
    ensures Counted(After(actions)) && Lists(After(actions), Live(actions))
  {
    if actions != [] {
      var init := actions[..|actions| - 1];
      RunCounts(init);
      match actions[|actions| - 1]
      case Subscribe(stream) => SubscribeCounts(After(init), stream, Live(init));
      case Unsubscribe(sub) => UnsubscribeCounts(After(init), sub, Live(init));
      case _ =>
    }
  }

  /** In every run `desired` is exactly the set of streams with at least one live subscriber,
      whatever was unsubscribed twice or never subscribed. */
  lemma {:induction false} DesiredIsSubscribed(actions: seq<Action>)
    ensures forall stream :: stream in After(actions).desired <==> exists sub :: sub in Live(actions) && sub.stream == stream
  {
    var s := After(actions);
    RunCounts(actions);
    forall stream ensures stream in s.desired <==> exists sub :: sub in Live(actions) && sub.stream == stream {
      if stream in s.desired {
        var sub := s.subs[stream][0];
        assert sub in s.subs[stream];
        assert sub in Live(actions) && sub.stream == stream;
      }
    }
  }

  // ----- what the exchange believes -----

  function HandledAll(server: set<string>, frames: seq<Frame>): set<string> {
    if frames == [] then server
    else Handled(HandledAll(server, frames[..|frames| - 1]), frames[|frames| - 1])
  }

  lemma {:induction false} HandledFirst(server: set<string>, frames: seq<Frame>)
    requires frames != []
    ensures HandledAll(Handled(server, frames[0]), frames[1..]) == HandledAll(server, frames)
    decreases |frames|
  {
    if |frames| == 1 {
      assert frames[..0] == [];
      assert HandledAll(server, frames) == Handled(HandledAll(server, []), frames[0]);
    } else {
      var init := frames[..|frames| - 1];
      assert frames[1..][..|frames| - 2] == init[1..];
      HandledFirst(server, init);
    }
  }

  /** The streams whose membership changed while a connect was in flight and for which no frame
      was sent since. */
  function Drift(actions: seq<Action>): set<string> {
    if actions == [] then {}
    else
      var init := actions[..|actions| - 1];
      var before, after := After(init), After(actions);
      if actions[|actions| - 1].StoreSocket? && before.link.Connecting? then
        (before.link.url - before.desired) + (before.desired - before.link.url)
      else if before.link.Online? && after.link.Online? && |after.link.frames| > |before.link.frames| then
        Drift(init) - {after.link.frames[|after.link.frames| - 1].stream}
      else Drift(init)
  }

  /** Once the frames in flight are handled, the exchange and the client differ on the drift. */
  ghost predicate DiffersOn(s: State, drift: set<string>) {
    s.link.Online? ==>
      forall x :: ((x in HandledAll(s.link.server, s.link.frames)) != (x in s.desired)) <==> x in drift
  }

  lemma {:induction false} PushDiffers(s: State, t: State, frame: Frame, drift: set<string>)
    requires DiffersOn(s, drift) && s.link.Online?
    requires t.link == s.link.(frames := s.link.frames + [frame])
    requires forall x :: x != frame.stream ==> (x in t.desired <==> x in s.desired)
    requires frame.subscribe <==> frame.stream in t.desired
    ensures DiffersOn(t, drift - {frame.stream})
  {
    assert t.link.frames[..|t.link.frames| - 1] == s.link.frames;
  }

  lemma {:induction false} RunDiffers(actions: seq<Action>)
    ensures DiffersOn(After(actions), Drift(actions))
  {
    if actions != [] {
      var init, last := actions[..|actions| - 1], actions[|actions| - 1];
      var s, t := After(init), After(actions);
      RunDiffers(init);
      RunCounts(init);
      if s.link.Online? {
        match last
        case Subscribe(stream) =>
          if stream !in s.subs {
            PushDiffers(s, t, Frame(true, stream), Drift(init));
          }
        case Unsubscribe(sub) =>
          if t.link != s.link {
            PushDiffers(s, t, Frame(false, sub.stream), Drift(init));
          }
        case ServerReads =>
          if s.link.frames != [] {
            HandledFirst(s.link.server, s.link.frames);
          }
        case _ =>
      }
    }
  }

  /** At each quiescent point while connected, the exchange's subscriptions equal `desired` exactly
      when no stream drifted while a connect was in flight. */
  lemma {:induction false} ServerFollowsIffNoDrift(actions: seq<Action>)
    requires After(actions).link.Online? && After(actions).link.frames == []
    ensures After(actions).link.server == After(actions).desired <==> Drift(actions) == {}
  {
    RunDiffers(actions);
    var s := After(actions);
    assert HandledAll(s.link.server, []) == s.link.server;
    if Drift(actions) == {} {
      assert forall x :: x in s.link.server <==> x in s.desired;
    } else {
      var x :| x in Drift(actions);
      assert (x in s.link.server) != (x in s.desired);
    }
  }

  /** Drift does occur: a stream first subscribed while a connect is in flight is desired but never
      asked for. */
  lemma {:induction false} SubscribeInFlightDrifts(a: string, b: string)
    requires a != b
    ensures var s := After([Subscribe(a), BuildUrl, Subscribe(b), StoreSocket]);
            s.link == Online({a}, []) && s.desired == {a, b}
  {
    var none: seq<Action> := [];
    AfterOneMore(none, Subscribe(a));
    AfterOneMore(none + [Subscribe(a)], BuildUrl);
    AfterOneMore(none + [Subscribe(a)] + [BuildUrl], Subscribe(b));
    AfterOneMore(none + [Subscribe(a)] + [BuildUrl] + [Subscribe(b)], StoreSocket);
    assert none + [Subscribe(a)] + [BuildUrl] + [Subscribe(b)] + [StoreSocket]
        == [Subscribe(a), BuildUrl, Subscribe(b), StoreSocket];
    assert {} + {a} == {a} && {a} + {b} == {a, b};
  }

  lemma {:induction false} AfterOneMore(actions: seq<Action>, action: Action)
    ensures After(actions + [action]) == Next(After(actions), action)
  {
    assert (actions + [action])[..|actions|] == actions;
  }

  /** Nobody subscribes or unsubscribes while a connect is in flight. */
  ghost predicate QuietConnects(actions: seq<Action>) {
    actions == [] ||
    var init, last := actions[..|actions| - 1], actions[|actions| - 1];
    QuietConnects(init) && (After(init).link.Connecting? ==> !last.Subscribe? && !last.Unsubscribe?)
  }

  lemma {:induction false} QuietUrlIsCurrent(actions: seq<Action>)
    requires QuietConnects(actions)
    ensures After(actions).link.Connecting? ==> After(actions).link.url == After(actions).desired
    ensures Drift(actions) == {}
  {
    if actions != [] {
      QuietUrlIsCurrent(actions[..|actions| - 1]);
    }
  }

  /** So with quiet connects the exchange's subscriptions equal `desired` at every quiescent point,
      over any number of reconnects. */
  lemma {:induction false} ServerFollowsDesired(actions: seq<Action>)
    requires QuietConnects(actions)
    requires After(actions).link.Online? && After(actions).link.frames == []
    ensures After(actions).link.server == After(actions).desired
  {
    QuietUrlIsCurrent(actions);
    ServerFollowsIffNoDrift(actions);
  }

  // ----- the connection object -----

  class MarketConnection {
    var desired: set<string>
    var subs: map<string, seq<Sub>>
    var nextId: nat
    var link: Link

    function Current(): State
      reads this
    {
      State(desired, subs, nextId, link)
    }

    constructor ()
      ensures Current() == FRESH
    {
      desired, subs, nextId, link := {}, map[], 0, Offline;
    }

    method Apply(stream: string, subscribe: bool)
      modifies this`link
      ensures link == Pushed(old(link), Frame(subscribe, stream))
    {
      if link.Online? {
        link := link.(frames := link.frames + [Frame(subscribe, stream)]);
      }
    }

    method Subscribe(stream: string) returns (sub: Sub)
      modifies this
      ensures Current() == Subscribed(old(Current()), stream)
      ensures sub == Sub(stream, old(nextId))
    {
      sub := Sub(stream, nextId);
      nextId := nextId + 1;
      var first := stream !in subs;
      if first {
        subs := subs[stream := []];
      }
      subs := subs[stream := subs[stream] + [sub]];
      desired := desired + {stream};
      if first {
        Apply(stream, true);
      }
    }

    method Unsubscribe(sub: Sub)
      modifies this
      ensures Current() == Unsubscribed(old(Current()), sub)
    {
      if sub.stream !in subs {
        return;
      }
      subs := subs[sub.stream := Without(subs[sub.stream], sub)];
      if subs[sub.stream] == [] {
        subs := subs - {sub.stream};
        desired := desired - {sub.stream};
        Apply(sub.stream, false);
      }
    }
  }
}
