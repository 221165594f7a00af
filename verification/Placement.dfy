/** Placing an order against an adversarial server: the signed POST, and reconciliation by query
    when its fate is unknown. */
module Placement {
  import opened Prelude
  import opened Transport

  // ----- the calls -----

  /** Parse an order out of a successful reply; anything else raises something foreign. */
  function ParsedOrder(result: Result<Body, Exn>): Result<string, Exn> {
    match result
    case Err(e) => Err(e)
    case Ok(OrderBody(clientId)) => Ok(clientId)
    case Ok(_) => Err(Foreign)
  }

  function Query(server: Server, policy: Policy, net: Net, clientId: string): Ran<string> {
    var ran := Requested(server, policy, net, OrderQuery(clientId));
    Ran(ran.net, ParsedOrder(ran.result))
  }

  function Reconcile(server: Server, policy: Policy, net: Net, clientId: string): Ran<string> {
    var ran := Query(server, policy, net, clientId);
    match ran.result
    case Ok(order) => ran
    case Err(e) =>
      if !e.Api? then ran
      else Ran(ran.net, Err(OrderUnknown(e.code == Some(ORDER_NOT_FOUND))))
  }

  /** The failures after which the fate of the order is unknown. */
  predicate IsUnknown(e: Exn) {
    e.Timeout? || e.Network? || (e.Api? && e.kind.ServerFault?)
  }

  /** `validation` is what local validation would raise, if anything; `clientId` is the caller's id
      or the minted one. */
  function Create(server: Server, policy: Policy, net: Net, clientId: string, canSign: bool, validation: Option<Exn>): Ran<string> {
    if !canSign then Ran(net, Err(NoCredentials))
    else if validation.Some? then Ran(net, Err(validation.value))
    else
      var posted := Requested(server, policy, net, OrderPost(clientId));
      if posted.result.Err? && IsUnknown(posted.result.error) then Reconcile(server, policy, posted.net, clientId)
      else Ran(posted.net, ParsedOrder(posted.result))
  }

  class OrdersClient {
    const transport: Client
    const canSign: bool

    constructor (transport: Client, canSign: bool)
      ensures this.transport == transport && this.canSign == canSign
    {
      this.transport, this.canSign := transport, canSign;
    }

    method QueryOrder(clientId: string) returns (result: Result<string, Exn>)
      modifies transport
      ensures Ran(transport.net, result) == Query(transport.server, transport.policy, old(transport.net), clientId)
    {
      var raw := transport.DoRequest(OrderQuery(clientId));
      result := ParsedOrder(raw);
    }

    method DoReconcile(clientId: string) returns (result: Result<string, Exn>)
      modifies transport
      ensures Ran(transport.net, result) == Reconcile(transport.server, transport.policy, old(transport.net), clientId)
    {
      result := QueryOrder(clientId);
      if result.Err? && result.error.Api? {
        result := Err(OrderUnknown(result.error.code == Some(ORDER_NOT_FOUND)));
      }
    }

    method CreateOrder(clientId: string, validation: Option<Exn>) returns (result: Result<string, Exn>)
      modifies transport
      ensures Ran(transport.net, result)
              == Create(transport.server, transport.policy, old(transport.net), clientId, canSign, validation)
    {
      if !canSign {
        return Err(NoCredentials);
      }
      if validation.Some? {
        return Err(validation.value);
      }
      var raw := transport.DoRequest(OrderPost(clientId));
      if raw.Err? && IsUnknown(raw.error) {
        result := DoReconcile(clientId);
      } else {
        result := ParsedOrder(raw);
      }
    }
  }

  // ----- what the call sends -----

  /** A mutating request is one attempt, never retried. */
  lemma {:induction false} PostIsOneAttempt(server: Server, policy: Policy, net: Net, clientId: string)
    ensures Requested(server, policy, net, OrderPost(clientId)) == Attempt(server, net, OrderPost(clientId))
  {
  }

  lemma {:induction false} SendOther(server: Server, net: Net, request: Request, other: Request)
    requires request != other && !other.TimeGet?
    ensures Carrying(Added(net, Send(server, net, request).net), other) == []
  {
    SendAdds(server, net, request);
  }

  lemma {:induction false} ExecuteOther(server: Server, net: Net, request: Request, other: Request)
    requires request != other && !other.TimeGet? && !request.TimeGet?
    ensures net.log <= Execute(server, net, request).net.log
    ensures Carrying(Added(net, Execute(server, net, request).net), other) == []
  {
    ExecuteSendsOnce(server, net, request);
    if net.synced {
      SendOther(server, net, request, other);
    } else {
      var sync := SyncTime(server, net);
      SyncAdds(server, net);
      if sync.result.Ok? {
        var sent := Send(server, sync.net, request);
        SendAdds(server, sync.net, request);
        SendOther(server, sync.net, request, other);
        AddedTwice(net, sync.net, sent.net);
        CarryingConcat(Added(net, sync.net), Added(sync.net, sent.net), other);
      }
    }
  }

  lemma {:induction false} AttemptOther(server: Server, net: Net, request: Request, other: Request)
    requires request != other && !other.TimeGet? && !request.TimeGet?
    ensures net.log <= Attempt(server, net, request).net.log
    ensures Carrying(Added(net, Attempt(server, net, request).net), other) == []
  {
    var first := Execute(server, net, request);
    ExecuteOther(server, net, request, other);
    if first.result.Err? && IsTimestampError(first.result.error) {
      var sync := SyncTime(server, first.net);
      SyncAdds(server, first.net);
      AddedTwice(net, first.net, sync.net);
      CarryingConcat(Added(net, first.net), Added(first.net, sync.net), other);
      if sync.result.Ok? {
        var second := Execute(server, sync.net, request);
        ExecuteOther(server, sync.net, request, other);
        AddedTwice(net, sync.net, second.net);
        CarryingConcat(Added(net, sync.net), Added(sync.net, second.net), other);
      }
    }
  }

  lemma {:induction false} RetryOther(server: Server, policy: Policy, net: Net, request: Request, other: Request, k: nat)
    requires request != other && !other.TimeGet? && !request.TimeGet? && k <= policy.maxRetries
    ensures net.log <= Retry(server, policy, net, request, k).net.log
    ensures Carrying(Added(net, Retry(server, policy, net, request, k).net), other) == []
    decreases policy.maxRetries - k
  {
    AttemptOther(server, net, request, other);
    RetryUnfolds(server, policy, net, request, k);
    if TriesAgain(server, policy, net, request, k) {
      var slept, ran := AfterSleep(server, policy, net, request, k), Retry(server, policy, net, request, k);
      RetryOther(server, policy, slept, request, other, k + 1);
      AddedTwice(net, slept, ran.net);
      CarryingConcat(Added(net, slept), Added(slept, ran.net), other);
    }
  }

  /** The order requests of one call are those of its POST phase. */
  lemma {:induction false} PostsOfCreate(server: Server, policy: Policy, net: Net, clientId: string, canSign: bool, validation: Option<Exn>)
    ensures var ran := Create(server, policy, net, clientId, canSign, validation);
            var posted := Attempt(server, net, OrderPost(clientId));
            && net.log <= ran.net.log && net.log <= posted.net.log
            && Carrying(Added(net, ran.net), OrderPost(clientId))
               == (if canSign && validation.None? then Carrying(Added(net, posted.net), OrderPost(clientId)) else [])
            && (canSign && validation.None? ==> posted.net.log <= ran.net.log)
  {
    PostIsOneAttempt(server, policy, net, clientId);
    AttemptSendsTwice(server, net, OrderPost(clientId));
    var ran := Create(server, policy, net, clientId, canSign, validation);
    var posted := Attempt(server, net, OrderPost(clientId));
    if !canSign || validation.Some? {
      assert Added(net, ran.net) == [];
    } else if posted.result.Err? && IsUnknown(posted.result.error) {
      RetryOther(server, policy, posted.net, OrderQuery(clientId), OrderPost(clientId), 0);
      AddedTwice(net, posted.net, ran.net);
      CarryingConcat(Added(net, posted.net), Added(posted.net, ran.net), OrderPost(clientId));
    }
  }

  /** Against any server one call sends the order at most twice. It does send it twice exactly when
      the first post got out, was rejected with code -1021 and the resync that follows succeeds:
      never after a timeout, a network error, a 429 or a server fault. */
  lemma {:induction false} AtMostTwoPosts(server: Server, policy: Policy, net: Net, clientId: string, canSign: bool, validation: Option<Exn>)
    ensures var ran := Create(server, policy, net, clientId, canSign, validation);
            && net.log <= ran.net.log
            && var posts := Carrying(Added(net, ran.net), OrderPost(clientId));
               && |posts| <= 2
               && (|posts| == 2 <==> canSign && validation.None? && Resends(server, net, OrderPost(clientId)))
               && (|posts| == 2 ==> RejectedForTime(posts[0].reply))
  {
    PostsOfCreate(server, policy, net, clientId, canSign, validation);
    AttemptSendsTwice(server, net, OrderPost(clientId));
  }

  /** A server whose clock check rejects the first post of an order and accepts the next one. */
  function ClockSkewed(): Server {
    (log: seq<Exchange>, request: Request) =>
      if request.TimeGet? then (Http(200, None, None, TimeBody), NotPlaced)
      else if request.OrderQuery? then (Http(200, None, None, OrderBody(request.clientId)), NotPlaced)
      else if Carrying(log, request) == [] then (Http(400, Some(-1021), None, OtherJson), NotPlaced)
      else (Http(200, None, None, OrderBody(request.clientId)), Placed)
  }

  lemma {:induction false} CarryingOfThree(x: Exchange, y: Exchange, z: Exchange, request: Request)
    requires x.request == request && y.request != request && z.request == request
    ensures Carrying([x, y, z], request) == [x, z]
  {
    CarryingOne(x, request);
    CarryingOne(y, request);
    CarryingOne(z, request);
    CarryingConcat([x], [y], request);
    CarryingConcat([x] + [y], [z], request);
    assert [x] + [y] + [z] == [x, y, z];
  }

  /** The server answers this request with this exchange. */
  ghost predicate Answers(server: Server, log: seq<Exchange>, x: Exchange) {
    server(log, x.request) == (x.reply, x.fate)
  }

  lemma {:induction false} SentIs(server: Server, net: Net, x: Exchange)
    requires Answers(server, net.log, x)
    ensures Send(server, net, x.request) == Ran(net.(log := net.log + [x]), Outcome(x.reply))
  {
  }

  /** An attempt that is rejected for its timestamp: the request, the resync, the request. */
  lemma {:induction false} ResentAttempt(server: Server, net: Net, x: Exchange, y: Exchange, z: Exchange)
    requires net.synced && !x.request.TimeGet? && z.request == x.request && y.request == TimeGet
    requires Answers(server, net.log, x) && Answers(server, net.log + [x], y) && Answers(server, net.log + [x] + [y], z)
    requires RejectedForTime(x.reply) && Outcome(y.reply) == Ok(TimeBody)
    ensures Attempt(server, net, x.request) == Ran(net.(log := net.log + [x] + [y] + [z]), Outcome(z.reply))
  {
    var first := net.(log := net.log + [x]);
    var synced := net.(log := net.log + [x] + [y]);
    SentIs(server, net, x);
    SentIs(server, first, y);
    SentIs(server, synced, z);
    assert SyncTime(server, first) == Ran(synced, Ok(()));
  }

  lemma {:induction false} SkewedAnswers(clientId: string, x: Exchange, y: Exchange, z: Exchange)
    requires x == Exchange(OrderPost(clientId), Http(400, Some(-1021), None, OtherJson), NotPlaced)
    requires y == Exchange(TimeGet, Http(200, None, None, TimeBody), NotPlaced)
    requires z == Exchange(OrderPost(clientId), Http(200, None, None, OrderBody(clientId)), Placed)
    ensures Answers(ClockSkewed(), [], x) && Answers(ClockSkewed(), [] + [x], y) && Answers(ClockSkewed(), [] + [x] + [y], z)
  {
    CarryingOne(x, OrderPost(clientId));
    CarryingOne(y, OrderPost(clientId));
    CarryingConcat([x], [y], OrderPost(clientId));
    assert [] + [x] == [x];
  }

  /** A second post does happen, and it is the one that places the order. */
  lemma {:induction false} SecondPostPlacesOrder(policy: Policy, clientId: string)
    ensures var net := Net([], true, []);
            var ran := Create(ClockSkewed(), policy, net, clientId, true, None);
            && net.log <= ran.net.log && ran.result == Ok(clientId)
            && var posts := Carrying(Added(net, ran.net), OrderPost(clientId));
               |posts| == 2 && posts[0].fate.NotPlaced? && posts[1].fate.Placed?
  {
    var net := Net([], true, []);
    var x := Exchange(OrderPost(clientId), Http(400, Some(-1021), None, OtherJson), NotPlaced);
    var y := Exchange(TimeGet, Http(200, None, None, TimeBody), NotPlaced);
    var z := Exchange(OrderPost(clientId), Http(200, None, None, OrderBody(clientId)), Placed);
    PostIsOneAttempt(ClockSkewed(), policy, net, clientId);
    SkewedAnswers(clientId, x, y, z);
    ResentAttempt(ClockSkewed(), net, x, y, z);
    CarryingOfThree(x, y, z, OrderPost(clientId));
    assert net.log + [x] + [y] + [z] == [x, y, z];
    assert Added(net, Net([x, y, z], true, [])) == [x, y, z];
  }

  // ----- what an honest server lets the caller conclude -----

  /** Orders in existence because of these posts once everything has settled, and those that are
      there before the call returns. */
  function Settled(posts: seq<Exchange>): nat {
    if posts == [] then 0
    else Settled(posts[..|posts| - 1]) + (if posts[|posts| - 1].fate.NotPlaced? then 0 else 1)
  }

  function PlacedSoFar(posts: seq<Exchange>): nat {
    if posts == [] then 0
    else PlacedSoFar(posts[..|posts| - 1]) + (if posts[|posts| - 1].fate.Placed? then 1 else 0)
  }

  /** -1021 means rejected, and a confirmed order exists. */
  ghost predicate HonestPost(x: Exchange) {
    && (RejectedForTime(x.reply) ==> x.fate.NotPlaced?)
    && (Outcome(x.reply).Ok? && Outcome(x.reply).value.OrderBody? ==> x.fate.Placed?)
  }

  /** A reply that shows an order means one exists by then, and code -2013, on whatever path it
      arrives, means none does. */
  ghost predicate HonestLater(x: Exchange, posts: seq<Exchange>) {
    && (x.request.OrderQuery? && Outcome(x.reply).Ok? && Outcome(x.reply).value.OrderBody? ==> PlacedSoFar(posts) > 0)
    && (x.reply.Http? && x.reply.code == Some(-2013) ==> PlacedSoFar(posts) == 0)
  }

  ghost predicate Honest(server: Server, net: Net, clientId: string, policy: Policy) {
    var posted := Attempt(server, net, OrderPost(clientId)).net;
    net.log <= posted.log &&
    var posts := Carrying(Added(net, posted), OrderPost(clientId));
    var after := Reconcile(server, policy, posted, clientId).net;
    && (forall x :: x in posts ==> HonestPost(x))
    && posted.log <= after.log
    && forall x :: x in Added(posted, after) ==> HonestLater(x, posts)
  }

  /** At most one order comes of one call, if -1021 means rejected. */
  lemma {:induction false} AtMostOneOrder(server: Server, policy: Policy, net: Net, clientId: string, canSign: bool, validation: Option<Exn>)
    requires net.log <= Create(server, policy, net, clientId, canSign, validation).net.log
    requires forall x :: x in Carrying(Added(net, Create(server, policy, net, clientId, canSign, validation).net), OrderPost(clientId)) ==>
               RejectedForTime(x.reply) ==> x.fate.NotPlaced?
    ensures Settled(Carrying(Added(net, Create(server, policy, net, clientId, canSign, validation).net), OrderPost(clientId))) <= 1
  {
    PostsOfCreate(server, policy, net, clientId, canSign, validation);
    AttemptSendsTwice(server, net, OrderPost(clientId));
    var posts := Carrying(Added(net, Create(server, policy, net, clientId, canSign, validation).net), OrderPost(clientId));
    SettledOfTwo(posts);
  }

  lemma {:induction false} SettledOfTwo(posts: seq<Exchange>)
    requires |posts| <= 2
    ensures Settled(posts) == (if |posts| > 0 && !posts[0].fate.NotPlaced? then 1 else 0)
                              + (if |posts| > 1 && !posts[1].fate.NotPlaced? then 1 else 0)
    ensures PlacedSoFar(posts) == (if |posts| > 0 && posts[0].fate.Placed? then 1 else 0)
                                  + (if |posts| > 1 && posts[1].fate.Placed? then 1 else 0)
  {
    if |posts| == 1 {
      assert posts[..0] == [];
    } else if |posts| == 2 {
      assert posts[..1][..0] == [];
      SettledOfTwo(posts[..1]);
    }
  }

  /** What the reconciling query says about the posts it follows. */
  lemma {:induction false} ReconcileIsTruthful(server: Server, policy: Policy, net: Net, clientId: string, posts: seq<Exchange>)
    requires net.log <= Reconcile(server, policy, net, clientId).net.log
    requires forall x :: x in Added(net, Reconcile(server, policy, net, clientId).net) ==> HonestLater(x, posts)
    ensures Reconcile(server, policy, net, clientId).result.Ok? ==> PlacedSoFar(posts) > 0
    ensures Reconcile(server, policy, net, clientId).result == Err(OrderUnknown(true)) ==> PlacedSoFar(posts) == 0
  {
    RetryEndsWithLast(server, policy, net, OrderQuery(clientId), 0);
    var after := Reconcile(server, policy, net, clientId).net;
    LastIsAdded(net, after);
    assert HonestLater(after.log[|after.log| - 1], posts);
  }

  /** Without a query: the posts of an attempt that succeeded left exactly one order. */
  lemma {:induction false} ConfirmedPostIsTheOrder(posts: seq<Exchange>)
    requires 0 < |posts| <= 2 && forall x :: x in posts ==> HonestPost(x)
    requires |posts| == 2 ==> RejectedForTime(posts[0].reply)
    requires ParsedOrder(Outcome(posts[|posts| - 1].reply)).Ok?
    ensures Settled(posts) == 1
  {
    SettledOfTwo(posts);
    assert posts[|posts| - 1] in posts && posts[0] in posts;
  }

  /** With a query: what the posts left, given how many orders the query could see. */
  lemma {:induction false} SettledAfterQuery(posts: seq<Exchange>)
    requires |posts| <= 2 && forall x :: x in posts ==> HonestPost(x)
    requires |posts| == 2 ==> RejectedForTime(posts[0].reply)
    ensures PlacedSoFar(posts) > 0 ==> Settled(posts) == 1
    ensures PlacedSoFar(posts) == 0 ==> (Settled(posts) == 0 <==> forall x :: x in posts ==> !x.fate.PlacedLate?)
  {
    SettledOfTwo(posts);
    if |posts| > 0 { assert posts[|posts| - 1] in posts && posts[0] in posts; }
  }

  /** What the outcome of a call promises about its posts. */
  ghost predicate Truthful(result: Result<string, Exn>, posts: seq<Exchange>) {
    && (result.Ok? ==> Settled(posts) == 1)
    && (result == Err(OrderUnknown(true)) ==> (Settled(posts) == 0 <==> forall x :: x in posts ==> !x.fate.PlacedLate?))
  }

  /** The posts of one attempt: at most two, the first rejected if there are two, all honest. */
  ghost predicate PostPhase(posts: seq<Exchange>) {
    && |posts| <= 2 && (forall x :: x in posts ==> HonestPost(x))
    && (|posts| == 2 ==> RejectedForTime(posts[0].reply))
  }

  lemma {:induction false} ReconciledIsTruthful(server: Server, policy: Policy, net: Net, clientId: string, posts: seq<Exchange>)
    requires PostPhase(posts) && net.log <= Reconcile(server, policy, net, clientId).net.log
    requires forall x :: x in Added(net, Reconcile(server, policy, net, clientId).net) ==> HonestLater(x, posts)
    ensures Truthful(Reconcile(server, policy, net, clientId).result, posts)
  {
    ReconcileIsTruthful(server, policy, net, clientId, posts);
    SettledAfterQuery(posts);
  }

  /** An order parsed from an attempt is that of its last post. */
  lemma {:induction false} OrderIsOfLastPost(server: Server, net: Net, clientId: string, posts: seq<Exchange>)
    requires net.log <= Attempt(server, net, OrderPost(clientId)).net.log
    requires posts == Carrying(Added(net, Attempt(server, net, OrderPost(clientId)).net), OrderPost(clientId))
    requires ParsedOrder(Attempt(server, net, OrderPost(clientId)).result).Ok?
    ensures posts != [] && ParsedOrder(Outcome(posts[|posts| - 1].reply)).Ok?
  {
    AttemptSendsTwice(server, net, OrderPost(clientId));
  }

  lemma {:induction false} PostedIsTruthful(server: Server, net: Net, clientId: string, posts: seq<Exchange>)
    requires net.log <= Attempt(server, net, OrderPost(clientId)).net.log && PostPhase(posts)
    requires posts == Carrying(Added(net, Attempt(server, net, OrderPost(clientId)).net), OrderPost(clientId))
    ensures Truthful(ParsedOrder(Attempt(server, net, OrderPost(clientId)).result), posts)
  {
    AttemptEndsWithLast(server, net, OrderPost(clientId));
    if ParsedOrder(Attempt(server, net, OrderPost(clientId)).result).Ok? {
      OrderIsOfLastPost(server, net, clientId, posts);
      ConfirmedPostIsTheOrder(posts);
    }
  }

  /** With an honest server: a returned order exists exactly once; and an error that says the order
      may be resubmitted means that nothing came of this call, exactly when no request of it takes
      effect after the call is over. */
  lemma {:induction false} OutcomeIsTruthful(server: Server, policy: Policy, net: Net, clientId: string)
    requires Honest(server, net, clientId, policy)
    ensures net.log <= Create(server, policy, net, clientId, true, None).net.log
    ensures var ran := Create(server, policy, net, clientId, true, None);
            Truthful(ran.result, Carrying(Added(net, ran.net), OrderPost(clientId)))
  {
    var posted := Attempt(server, net, OrderPost(clientId));
    AttemptSendsTwice(server, net, OrderPost(clientId));
    var posts := Carrying(Added(net, posted.net), OrderPost(clientId));
    PostsOfCreate(server, policy, net, clientId, true, None);
    PostIsOneAttempt(server, policy, net, clientId);
    if posted.result.Err? && IsUnknown(posted.result.error) {
      ReconciledIsTruthful(server, policy, posted.net, clientId, posts);
    } else {
      PostedIsTruthful(server, net, clientId, posts);
    }
  }

  // ----- exactly when the order is reconciled -----

  /** A timeout, a network error, or a status of 500 or more without a non-zero code in the body. */
  predicate UnknownReply(reply: Reply) {
    reply.TimedOut? || reply.Unreachable? || (reply.status >= 500 && (reply.code.None? || reply.code.value == 0))
  }

  /** The failures of one reply that leave the fate of the order unknown: a 5xx with a non-zero
      code in its body is not one of them. */
  lemma {:induction false} UnknownReplies(reply: Reply)
    ensures Outcome(reply).Err? && IsUnknown(Outcome(reply).error)
            <==> UnknownReply(reply)
  {
  }

  /** When the attempt ends with a reply to the post, the client queries exactly after a timeout, a
      network error, or a status of 500 or more whose body carries no non-zero code. A 5xx with a
      code is raised as that code's error without a query, although the order may exist. */
  lemma {:induction false} ReconcilesIff(server: Server, policy: Policy, net: Net, clientId: string, reply: Reply)
    requires Attempt(server, net, OrderPost(clientId)).result == Outcome(reply)
    ensures var posted := Attempt(server, net, OrderPost(clientId));
            var ran := Create(server, policy, net, clientId, true, None);
            && posted.net.log <= ran.net.log
            && (Added(posted.net, ran.net) != []
                <==> UnknownReply(reply))
            && (Added(posted.net, ran.net) == [] ==> ran.result == ParsedOrder(Outcome(reply)))
  {
    PostIsOneAttempt(server, policy, net, clientId);
    var posted := Attempt(server, net, OrderPost(clientId));
    RetryEndsWithLast(server, policy, posted.net, OrderQuery(clientId), 0);
    UnknownReplies(reply);
  }

  /** An exchange of a query that was answered with the order. */
  predicate ShowsOrder(x: Exchange, request: Request) {
    x.request == request && x.reply.Http? && x.reply.status < 400 && x.reply.body.OrderBody?
  }

  /** After a post whose fate is unknown, the last reply of the whole call alone decides: the call
      returns an order exactly when the query is answered with one, and raises OrderUnknown exactly
      when an HTTP error comes back, resubmittable exactly for code -2013. A timeout, a network error
      and a reply that cannot be read are raised as they are. */
  lemma {:induction false} ReconciledByLastReply(server: Server, policy: Policy, net: Net, clientId: string)
    requires var posted := Attempt(server, net, OrderPost(clientId)).net;
             posted.log != [] && UnknownReply(LastOf(posted).reply)
    ensures var posted := Attempt(server, net, OrderPost(clientId)).net;
            var ran := Create(server, policy, net, clientId, true, None);
            && posted.log <= ran.net.log && |posted.log| < |ran.net.log|
            && var last := LastOf(ran.net);
               && (ran.result.Ok? <==> ShowsOrder(last, OrderQuery(clientId)))
               && (ran.result.Ok? ==> ran.result.value == last.reply.body.clientId)
               && (ran.result.Err? && ran.result.error.OrderUnknown? <==> last.reply.Http? && last.reply.status >= 400)
               && (ran.result == Err(OrderUnknown(true)) <==>
                     last.reply.Http? && last.reply.status >= 400 && last.reply.code == Some(-2013))
               && (ran.result == Err(Timeout) <==> last.reply.TimedOut?)
               && (ran.result == Err(Network) <==> last.reply.Unreachable?)
               && (ran.result == Err(Foreign) <==>
                     last.reply.Http? && last.reply.status < 400 && !ShowsOrder(last, OrderQuery(clientId)))
  {
    var posted := Attempt(server, net, OrderPost(clientId));
    PostIsOneAttempt(server, policy, net, clientId);
    AttemptEndsWithLast(server, net, OrderPost(clientId));
    UnknownReplies(LastOf(posted.net).reply);
    RetryEndsWithLast(server, policy, posted.net, OrderQuery(clientId), 0);
  }

  /** Otherwise nothing more is sent and the last reply of the post decides, whatever became of the
      order. */
  lemma {:induction false} SettledByPostReply(server: Server, policy: Policy, net: Net, clientId: string)
    requires var posted := Attempt(server, net, OrderPost(clientId)).net;
             posted.log != [] && !UnknownReply(LastOf(posted).reply)
    ensures var posted := Attempt(server, net, OrderPost(clientId)).net;
            var ran := Create(server, policy, net, clientId, true, None);
            && ran.net == posted
            && var last := LastOf(posted);
               && (ran.result.Ok? <==> ShowsOrder(last, OrderPost(clientId)))
               && (ran.result.Ok? ==> ran.result.value == last.reply.body.clientId)
               && (ran.result.Err? && ran.result.error.Api? <==> last.reply.Http? && last.reply.status >= 400)
               && (ran.result == Err(Foreign) <==>
                     last.reply.Http? && last.reply.status < 400 && !ShowsOrder(last, OrderPost(clientId)))
  {
    var posted := Attempt(server, net, OrderPost(clientId));
    PostIsOneAttempt(server, policy, net, clientId);
    AttemptEndsWithLast(server, net, OrderPost(clientId));
    UnknownReplies(LastOf(posted.net).reply);
  }

  /** Nothing is sent without credentials, which are looked at first, or when validation fails; and then
      that is what is raised. Otherwise at least one request goes out. */
  lemma {:induction false} SentOnlyIfReady(server: Server, policy: Policy, net: Net, clientId: string, canSign: bool, validation: Option<Exn>)
    ensures var ran := Create(server, policy, net, clientId, canSign, validation);
            && (!canSign ==> ran == Ran(net, Err(NoCredentials)))
            && (canSign && validation.Some? ==> ran == Ran(net, Err(validation.value)))
            && (canSign && validation.None? ==> net.log <= ran.net.log && |net.log| < |ran.net.log|)
  {
    if canSign && validation.None? {
      var posted := Attempt(server, net, OrderPost(clientId)).net;
      AttemptEndsWithLast(server, net, OrderPost(clientId));
      if UnknownReply(LastOf(posted).reply) {
        ReconciledByLastReply(server, policy, net, clientId);
      } else {
        SettledByPostReply(server, policy, net, clientId);
      }
    }
  }

  predicate IsAmbiguous(e: Exn) { e.Timeout? || e.Network? }

  /** A timeout or network error that the call itself raises comes from looking up the exchange info
      before anything is sent, or it is the last reply of the reconciling query: then the order may
      or may not exist, and nothing says whether it may be resubmitted. */
  lemma {:induction false} RaisedTimeoutIsTheQuerys(server: Server, policy: Policy, net: Net, clientId: string,
                                                    canSign: bool, validation: Option<Exn>)
    ensures var posted := Attempt(server, net, OrderPost(clientId)).net;
            var ran := Create(server, policy, net, clientId, canSign, validation);
            (ran.result.Err? && IsAmbiguous(ran.result.error)) <==>
              && canSign
              && if validation.Some? then IsAmbiguous(validation.value)
                 else
                   && posted.log <= ran.net.log && |posted.log| < |ran.net.log|
                   && (LastOf(ran.net).reply.TimedOut? || LastOf(ran.net).reply.Unreachable?)
  {
    if canSign && validation.None? {
      var posted := Attempt(server, net, OrderPost(clientId)).net;
      AttemptEndsWithLast(server, net, OrderPost(clientId));
      if UnknownReply(LastOf(posted).reply) {
        ReconciledByLastReply(server, policy, net, clientId);
      } else {
        SettledByPostReply(server, policy, net, clientId);
      }
    }
  }

  // ----- the cases the conditions above single out do occur -----

  /** A server that answers every order request alike, having placed the post as told. */
  function Answering(post: Reply, query: Reply, fate: Fate): Server {
    (log: seq<Exchange>, request: Request) =>
      if request.TimeGet? then (Http(200, None, None, TimeBody), NotPlaced)
      else if request.OrderPost? then (post, fate)
      else (query, NotPlaced)
  }

  /** Its one post, with synchronised time, unless it answers -1021. */
  lemma {:induction false} PostedOnce(post: Reply, query: Reply, fate: Fate, clientId: string)
    requires !RejectedForTime(post)
    ensures Attempt(Answering(post, query, fate), Net([], true, []), OrderPost(clientId))
            == Ran(Net([Exchange(OrderPost(clientId), post, fate)], true, []), Outcome(post))
  {
  }

  lemma {:induction false} CreatedOnce(policy: Policy, post: Reply, query: Reply, fate: Fate, clientId: string)
    requires !RejectedForTime(post)
    ensures var net := Net([], true, []);
            var ran := Create(Answering(post, query, fate), policy, net, clientId, true, None);
            && net.log <= ran.net.log
            && Carrying(Added(net, ran.net), OrderPost(clientId)) == [Exchange(OrderPost(clientId), post, fate)]
  {
    PostedOnce(post, query, fate, clientId);
    PostsOfCreate(Answering(post, query, fate), policy, Net([], true, []), clientId, true, None);
    CarryingOne(Exchange(OrderPost(clientId), post, fate), OrderPost(clientId));
  }

  /** Its one answer to the query, with synchronised time, unless that is worth another try. */
  lemma {:induction false} QueriedOnce(policy: Policy, net: Net, post: Reply, query: Reply, fate: Fate, clientId: string)
    requires net.synced && !Transient(query) && !RejectedForTime(query)
    ensures Requested(Answering(post, query, fate), policy, net, OrderQuery(clientId))
            == Ran(net.(log := net.log + [Exchange(OrderQuery(clientId), query, NotPlaced)]), Outcome(query))
  {
    var server := Answering(post, query, fate);
    TimestampReplies(query);
    RetryByReply(server, policy, net, OrderQuery(clientId), 0);
  }

  /** A fault of 503 with a code in its body is raised without a query although the order exists. */
  lemma {:induction false} CodedFaultHidesOrder(policy: Policy, clientId: string)
    ensures var net := Net([], true, []);
            var fault := Http(503, Some(-1000), None, OtherJson);
            Create(Answering(fault, TimedOut, Placed), policy, net, clientId, true, None)
            == Ran(Net([Exchange(OrderPost(clientId), fault, Placed)], true, []), Err(Api(BadRequest, Some(-1000), None)))
  {
    PostedOnce(Http(503, Some(-1000), None, OtherJson), TimedOut, Placed, clientId);
    PostIsOneAttempt(Answering(Http(503, Some(-1000), None, OtherJson), TimedOut, Placed), policy, Net([], true, []), clientId);
  }

  /** A post answered 200 with a body that cannot be read is raised without a query although the
      order exists. */
  lemma {:induction false} UnreadablePostHidesOrder(policy: Policy, clientId: string)
    ensures var net := Net([], true, []);
            var unreadable := Http(200, None, None, NotJson);
            Create(Answering(unreadable, TimedOut, Placed), policy, net, clientId, true, None)
            == Ran(Net([Exchange(OrderPost(clientId), unreadable, Placed)], true, []), Err(Foreign))
  {
    PostedOnce(Http(200, None, None, NotJson), TimedOut, Placed, clientId);
    PostIsOneAttempt(Answering(Http(200, None, None, NotJson), TimedOut, Placed), policy, Net([], true, []), clientId);
  }

  /** A query answered 200 with a body that cannot be read is raised as it is, not as OrderUnknown,
      while the order exists. */
  lemma {:induction false} UnreadableQueryHidesOrder(policy: Policy, clientId: string)
    ensures var net := Net([], true, []);
            var unreadable := Http(200, None, None, NotJson);
            var ran := Create(Answering(TimedOut, unreadable, Placed), policy, net, clientId, true, None);
            && net.log <= ran.net.log && ran.result == Err(Foreign)
            && Settled(Carrying(Added(net, ran.net), OrderPost(clientId))) == 1
  {
    var unreadable := Http(200, None, None, NotJson);
    var server, net := Answering(TimedOut, unreadable, Placed), Net([], true, []);
    PostedOnce(TimedOut, unreadable, Placed, clientId);
    PostIsOneAttempt(server, policy, net, clientId);
    QueriedOnce(policy, Attempt(server, net, OrderPost(clientId)).net, TimedOut, unreadable, Placed, clientId);
    CreatedOnce(policy, TimedOut, unreadable, Placed, clientId);
    SettledOfTwo([Exchange(OrderPost(clientId), TimedOut, Placed)]);
  }

  lemma {:induction false} QueriesTimeOut(policy: Policy, net: Net, clientId: string, k: nat)
    requires net.synced && k <= policy.maxRetries
    ensures Retry(Answering(TimedOut, TimedOut, Placed), policy, net, OrderQuery(clientId), k).result == Err(Timeout)
    decreases policy.maxRetries - k
  {
    var server, request := Answering(TimedOut, TimedOut, Placed), OrderQuery(clientId);
    RetryUnfolds(server, policy, net, request, k);
    if TriesAgain(server, policy, net, request, k) {
      QueriesTimeOut(policy, AfterSleep(server, policy, net, request, k), clientId, k + 1);
    }
  }

  /** However often the query is retried, its timeout is raised as it is while the order exists. */
  lemma {:induction false} QueryTimeoutHidesOrder(policy: Policy, clientId: string)
    ensures var net := Net([], true, []);
            var ran := Create(Answering(TimedOut, TimedOut, Placed), policy, net, clientId, true, None);
            && net.log <= ran.net.log && ran.result == Err(Timeout)
            && Settled(Carrying(Added(net, ran.net), OrderPost(clientId))) == 1
  {
    var server, net := Answering(TimedOut, TimedOut, Placed), Net([], true, []);
    PostedOnce(TimedOut, TimedOut, Placed, clientId);
    PostIsOneAttempt(server, policy, net, clientId);
    QueriesTimeOut(policy, Attempt(server, net, OrderPost(clientId)).net, clientId, 0);
    CreatedOnce(policy, TimedOut, TimedOut, Placed, clientId);
    SettledOfTwo([Exchange(OrderPost(clientId), TimedOut, Placed)]);
  }

  /** A post that takes effect after the query saw nothing: the caller is told to resubmit, and the
      order comes. */
  lemma {:induction false} LateOrderIsResubmitted(policy: Policy, clientId: string)
    ensures var net := Net([], true, []);
            var unknown := Http(400, Some(-2013), None, OtherJson);
            var ran := Create(Answering(TimedOut, unknown, PlacedLate), policy, net, clientId, true, None);
            && net.log <= ran.net.log && ran.result == Err(OrderUnknown(true))
            && Settled(Carrying(Added(net, ran.net), OrderPost(clientId))) == 1
  {
    var unknown := Http(400, Some(-2013), None, OtherJson);
    var server, net := Answering(TimedOut, unknown, PlacedLate), Net([], true, []);
    PostedOnce(TimedOut, unknown, PlacedLate, clientId);
    PostIsOneAttempt(server, policy, net, clientId);
    QueriedOnce(policy, Attempt(server, net, OrderPost(clientId)).net, TimedOut, unknown, PlacedLate, clientId);
    CreatedOnce(policy, TimedOut, unknown, PlacedLate, clientId);
    SettledOfTwo([Exchange(OrderPost(clientId), TimedOut, PlacedLate)]);
  }
}
