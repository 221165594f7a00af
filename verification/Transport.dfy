/** One HTTP exchange, the time resync, and the retry loop, against a server that answers and acts
    as it likes. */
module Transport {
  import opened Prelude

  /** The requests this model distinguishes; the last two are signed. */
  datatype Request = TimeGet | OrderPost(clientId: string) | OrderQuery(clientId: string)

  datatype Body = OrderBody(clientId: string) | TimeBody | OtherJson | NotJson

  datatype Reply =
    | Http(status: int, code: Option<int>, retryAfter: Option<int>, body: Body)
    | TimedOut
    | Unreachable

  /** What the server did with an order request: nothing, placed it before the client saw the
      outcome of the exchange, or will place it only after the whole call is over. */
  datatype Fate = NotPlaced | Placed | PlacedLate

  datatype Exchange = Exchange(request: Request, reply: Reply, fate: Fate)

  /** Any server: its answer and its action may depend on everything that happened. */
  type Server = (seq<Exchange>, Request) -> (Reply, Fate)

  datatype ApiClass = Auth | BadRequest | Waf | IpBanned | RateLimited | ServerFault | Plain

  datatype Exn =
    | Api(kind: ApiClass, code: Option<int>, retryAfter: Option<int>)
    | Timeout
    | Network
    | Foreign
    | NoCredentials
    | Invalid
    | OrderUnknown(resubmittable: bool)

  /** The transport's state: the exchanges made, whether time is synchronised, the sleeps taken. */
  datatype Net = Net(log: seq<Exchange>, synced: bool, sleeps: seq<real>)

  datatype Ran<+T> = Ran(net: Net, result: Result<T, Exn>)

  /** The retry schedule; `jitter(n, ceiling)` is the delay drawn for the n-th sleep. */
  datatype Policy = Policy(maxRetries: nat, base: real, factor: real, cap: real, jitter: (nat, real) -> real)

  const TIMESTAMP_ERROR := -1021
  const ORDER_NOT_FOUND := -2013

  // ----- classification of replies -----

  function ClassForCode(code: int): ApiClass {
    if code in {-1021, -1022, -2014, -2015} then Auth
    else if code in {-1000, -1100, -1102, -1013, -1121, -2013} then BadRequest
    else Plain
  }

  function ClassForStatus(status: int): ApiClass {
    if status >= 500 then ServerFault
    else if status == 400 then BadRequest
    else if status == 401 then Auth
    else if status == 403 then Waf
    else if status == 418 then IpBanned
    else if status == 429 then RateLimited
    else Plain
  }

  /** A non-zero code in the body wins over the status. */
  function ClassFor(status: int, code: Option<int>): ApiClass {
    if code.Some? && code.value != 0 then ClassForCode(code.value) else ClassForStatus(status)
  }

  function Outcome(reply: Reply): Result<Body, Exn> {
    match reply
    case TimedOut => Err(Timeout)
    case Unreachable => Err(Network)
    case Http(status, code, retryAfter, body) =>
      if status >= 400 then
        var kind := ClassFor(status, code);
        Err(Api(kind, code, if kind.RateLimited? || kind.IpBanned? then retryAfter else None))
      else if body.NotJson? then Err(Foreign)
      else Ok(body)
  }

  /** What a reply means, by its status and code: a non-zero code decides through its table whatever
      the status; otherwise the status does. Only a 429 or 418 so decided keeps its Retry-After. */
  lemma {:induction false} OutcomeByReply(status: int, code: Option<int>, retryAfter: Option<int>, body: Body)
    ensures status < 400 ==> Outcome(Http(status, code, retryAfter, body)) == if body == NotJson then Err(Foreign) else Ok(body)
    ensures status >= 400 ==>
              var outcome := Outcome(Http(status, code, retryAfter, body));
              && outcome.Err? && outcome.error.Api? && outcome.error.code == code
              && (if code.Some? && code.value != 0 then
                    && outcome.error.retryAfter == None
                    && (outcome.error.kind == Auth <==>
                          code.value == -1021 || code.value == -1022 || code.value == -2014 || code.value == -2015)
                    && (outcome.error.kind == BadRequest <==>
                          code.value == -1000 || code.value == -1100 || code.value == -1102 || code.value == -1013
                          || code.value == -1121 || code.value == -2013)
                    && (outcome.error.kind == Auth || outcome.error.kind == BadRequest || outcome.error.kind == Plain)
                  else
                    && outcome.error.retryAfter == (if status == 429 || status == 418 then retryAfter else None)
                    && (outcome.error.kind == ServerFault <==> status >= 500)
                    && (outcome.error.kind == BadRequest <==> status == 400)
                    && (outcome.error.kind == Auth <==> status == 401)
                    && (outcome.error.kind == Waf <==> status == 403)
                    && (outcome.error.kind == IpBanned <==> status == 418)
                    && (outcome.error.kind == RateLimited <==> status == 429))
  {
  }

  // ----- one attempt -----

  function Send(server: Server, net: Net, request: Request): Ran<Body> {
    var (reply, fate) := server(net.log, request);
    Ran(net.(log := net.log + [Exchange(request, reply, fate)]), Outcome(reply))
  }

  function SyncTime(server: Server, net: Net): Ran<()> {
    var sent := Send(server, net, TimeGet);
    match sent.result
    case Err(e) => Ran(sent.net, Err(e))
    case Ok(TimeBody) => Ran(sent.net.(synced := true), Ok(()))
    case Ok(_) => Ran(sent.net, Err(Foreign))
  }

  /** A signed request first synchronises time, once. */
  function Execute(server: Server, net: Net, request: Request): Ran<Body> {
    if request.TimeGet? || net.synced then Send(server, net, request)
    else
      var sync := SyncTime(server, net);
      match sync.result
      case Err(e) => Ran(sync.net, Err(e))
      case Ok(_) => Send(server, sync.net, request)
  }

  predicate IsTimestampError(e: Exn) { e.Api? && e.kind.Auth? && e.code == Some(TIMESTAMP_ERROR) }

  /** An HTTP error with code -1021. */
  predicate RejectedForTime(reply: Reply) { reply.Http? && reply.status >= 400 && reply.code == Some(-1021) }

  lemma {:induction false} TimestampReplies(reply: Reply)
    ensures Outcome(reply).Err? && IsTimestampError(Outcome(reply).error) <==> RejectedForTime(reply)
  {
  }

  /** One resync and one resend after a timestamp error. */
  function Attempt(server: Server, net: Net, request: Request): Ran<Body> {
    var first := Execute(server, net, request);
    if first.result.Err? && IsTimestampError(first.result.error) && !request.TimeGet? then
      var sync := SyncTime(server, first.net);
      match sync.result
      case Err(e) => Ran(sync.net, Err(e))
      case Ok(_) => Execute(server, sync.net, request)
    else first
  }

  // ----- the retry loop -----

  predicate IsMutating(request: Request) { request.OrderPost? }

  predicate IsRetryable(e: Exn, mutating: bool) {
    !mutating && (e.Timeout? || e.Network?
                  || (e.Api? && (e.kind.ServerFault? || e.kind.RateLimited? || e.kind.IpBanned?)))
  }

  function Power(factor: real, k: nat): real {
    if k == 0 then 1.0 else factor * Power(factor, k - 1)
  }

  function Ceiling(policy: Policy, k: nat): real {
    var raw := policy.base * Power(policy.factor, k);
    if policy.cap <= raw then policy.cap else raw
  }

  function Delay(policy: Policy, e: Exn, k: nat, n: nat): real {
    if e.Api? && e.retryAfter.Some? then e.retryAfter.value as real
    else policy.jitter(n, Ceiling(policy, k))
  }

  function Retry(server: Server, policy: Policy, net: Net, request: Request, k: nat): Ran<Body>
    requires k <= policy.maxRetries
    decreases policy.maxRetries - k
  {
    var tried := Attempt(server, net, request);
    if tried.result.Ok? || k >= policy.maxRetries || !IsRetryable(tried.result.error, IsMutating(request)) then tried
    else
      var slept := tried.net.(sleeps := tried.net.sleeps + [Delay(policy, tried.result.error, k, |tried.net.sleeps|)]);
      Retry(server, policy, slept, request, k + 1)
  }

  function Requested(server: Server, policy: Policy, net: Net, request: Request): Ran<Body> {
    Retry(server, policy, net, request, 0)
  }

  // ----- the transport object -----

  class Client {
    const server: Server
    const policy: Policy
    var net: Net

    constructor (server: Server, policy: Policy)
      ensures net == Net([], false, []) && this.server == server && this.policy == policy
    {
      this.server, this.policy, net := server, policy, Net([], false, []);
    }

    method DoSend(request: Request) returns (result: Result<Body, Exn>)
      modifies this
      ensures Ran(net, result) == Send(server, old(net), request)
    {
      var (reply, fate) := server(net.log, request);
      net := net.(log := net.log + [Exchange(request, reply, fate)]);
      result := Outcome(reply);
    }

    method DoSyncTime() returns (result: Result<(), Exn>)
      modifies this
      ensures Ran(net, result) == SyncTime(server, old(net))
    {
      var sent := DoSend(TimeGet);
      if sent.Err? {
        return Err(sent.error);
      }
      if !sent.value.TimeBody? {
        return Err(Foreign);
      }
      net := net.(synced := true);
      result := Ok(());
    }

    method DoExecute(request: Request) returns (result: Result<Body, Exn>)
      modifies this
      ensures Ran(net, result) == Execute(server, old(net), request)
    {
      if !request.TimeGet? && !net.synced {
        var sync := DoSyncTime();
        if sync.Err? {
          return Err(sync.error);
        }
      }
      result := DoSend(request);
    }

    method DoAttempt(request: Request) returns (result: Result<Body, Exn>)
      modifies this
      ensures Ran(net, result) == Attempt(server, old(net), request)
    {
      result := DoExecute(request);
      if result.Err? && IsTimestampError(result.error) && !request.TimeGet? {
        var sync := DoSyncTime();
        if sync.Err? {
          return Err(sync.error);
        }
        result := DoExecute(request);
      }
    }

    method DoRequest(request: Request) returns (result: Result<Body, Exn>)
      modifies this
      ensures Ran(net, result) == Requested(server, policy, old(net), request)
    {
      var attempt := 0;
      while true
        invariant attempt <= policy.maxRetries
        invariant Retry(server, policy, net, request, attempt) == Requested(server, policy, old(net), request)
        decreases policy.maxRetries - attempt
      {
        result := DoAttempt(request);
        if result.Ok? || attempt >= policy.maxRetries || !IsRetryable(result.error, IsMutating(request)) {
          return;
        }
        net := net.(sleeps := net.sleeps + [Delay(policy, result.error, attempt, |net.sleeps|)]);
        attempt := attempt + 1;
      }
    }
  }

  // ----- what one call puts on the wire -----

  /** The exchanges of a log that carry a given kind of request. */
  function Carrying(log: seq<Exchange>, request: Request): seq<Exchange> {
    if log == [] then []
    else
      var init := Carrying(log[..|log| - 1], request);
      if log[|log| - 1].request == request then init + [log[|log| - 1]] else init
  }

  /** What a step added to the log. */
  function Added(before: Net, after: Net): seq<Exchange>
    requires before.log <= after.log
  {
    after.log[|before.log|..]
  }

  lemma {:induction false} CarryingConcat(a: seq<Exchange>, b: seq<Exchange>, request: Request)
    ensures Carrying(a + b, request) == Carrying(a, request) + Carrying(b, request)
    decreases |b|
  {
    if b == [] {
      assert a + b == a;
    } else {
      assert (a + b)[..|a + b| - 1] == a + b[..|b| - 1];
      CarryingConcat(a, b[..|b| - 1], request);
    }
  }

  lemma {:induction false} CarryingOne(x: Exchange, request: Request)
    ensures Carrying([x], request) == if x.request == request then [x] else []
  {
    assert [x][..0] == [];
  }

  lemma {:induction false} AddedTwice(a: Net, b: Net, c: Net)
    requires a.log <= b.log <= c.log
    ensures a.log <= c.log && Added(a, c) == Added(a, b) + Added(b, c)
  {
  }

  /** Sending adds exactly this exchange. */
  lemma {:induction false} SendAdds(server: Server, net: Net, request: Request)
    ensures net.log <= Send(server, net, request).net.log
    ensures |Added(net, Send(server, net, request).net)| == 1
    ensures var x := Added(net, Send(server, net, request).net)[0];
            x.request == request && Send(server, net, request).result == Outcome(x.reply)
    ensures Carrying(Added(net, Send(server, net, request).net), request) == Added(net, Send(server, net, request).net)
    ensures forall other :: other != request ==> Carrying(Added(net, Send(server, net, request).net), other) == []
  {
    var added := Added(net, Send(server, net, request).net);
    assert added == [added[0]];
    forall other ensures Carrying(added, other) == if other == request then added else [] {
      CarryingOne(added[0], other);
    }
  }

  lemma {:induction false} SyncAdds(server: Server, net: Net)
    ensures net.log <= SyncTime(server, net).net.log
    ensures forall request: Request :: !request.TimeGet? ==> Carrying(Added(net, SyncTime(server, net).net), request) == []
  {
    SendAdds(server, net, TimeGet);
  }

  /** Executing sends the request once, exactly when time is synchronised; then the result is that
      reply's outcome, and otherwise the time resync failed. */
  lemma {:induction false} ExecuteSendsOnce(server: Server, net: Net, request: Request)
    requires !request.TimeGet?
    ensures net.log <= Execute(server, net, request).net.log
    ensures var ran := Execute(server, net, request);
            var own := Carrying(Added(net, ran.net), request);
            && |own| <= 1
            && (|own| == 1 <==> Ready(server, net).result.Ok?)
            && (|own| == 1 ==> ran.result == Outcome(own[0].reply))
            && (|own| == 0 ==> ran.result.Err?)
  {
    if net.synced {
      SendAdds(server, net, request);
    } else {
      var sync := SyncTime(server, net);
      SyncAdds(server, net);
      if sync.result.Ok? {
        SendAdds(server, sync.net, request);
        var sent := Send(server, sync.net, request);
        AddedTwice(net, sync.net, sent.net);
        CarryingConcat(Added(net, sync.net), Added(sync.net, sent.net), request);
      }
    }
  }

  /** What the request needs before it goes out: time synchronised, now or already. */
  function Ready(server: Server, net: Net): Ran<()> {
    if net.synced then Ran(net, Ok(())) else SyncTime(server, net)
  }

  /** The request goes out, is rejected for its timestamp, and the resync that follows succeeds. */
  predicate Resends(server: Server, net: Net, request: Request) {
    var ready := Ready(server, net);
    && ready.result.Ok?
    && RejectedForTime(server(ready.net.log, request).0)
    && SyncTime(server, Send(server, ready.net, request).net).result.Ok?
  }

  /** The exchanges of an attempt that resynchronises. */
  lemma {:induction false} ResyncAdds(server: Server, net: Net, request: Request)
    requires !request.TimeGet?
    requires var first := Execute(server, net, request); first.result.Err? && IsTimestampError(first.result.error)
    ensures var first := Execute(server, net, request);
            var sync, ran := SyncTime(server, first.net), Attempt(server, net, request);
            && net.log <= first.net.log && net.log <= ran.net.log
            && if sync.result.Err? then
                 ran.result.Err? && Carrying(Added(net, ran.net), request) == Carrying(Added(net, first.net), request)
               else
                 var second := Execute(server, sync.net, request);
                 && sync.net.synced && sync.net.log <= second.net.log && ran == second
                 && Carrying(Added(net, ran.net), request)
                    == Carrying(Added(net, first.net), request) + Carrying(Added(sync.net, second.net), request)
  {
    var first := Execute(server, net, request);
    var sync := SyncTime(server, first.net);
    ExecuteSendsOnce(server, net, request);
    SyncAdds(server, first.net);
    AddedTwice(net, first.net, sync.net);
    CarryingConcat(Added(net, first.net), Added(first.net, sync.net), request);
    if sync.result.Ok? {
      var second := Execute(server, sync.net, request);
      ExecuteSendsOnce(server, sync.net, request);
      AddedTwice(net, sync.net, second.net);
      CarryingConcat(Added(net, sync.net), Added(sync.net, second.net), request);
    }
  }

  lemma {:induction false} ResendsByResult(server: Server, net: Net, request: Request)
    requires !request.TimeGet?
    ensures var first := Execute(server, net, request);
            Resends(server, net, request) <==>
              && Ready(server, net).result.Ok? && first.result.Err? && IsTimestampError(first.result.error)
              && SyncTime(server, first.net).result.Ok?
  {
    TimestampReplies(server(Ready(server, net).net.log, request).0);
  }

  /** An attempt sends the request at most twice, and twice exactly when it was sent, rejected with
      code -1021 and the resync succeeds; the result is the last reply's outcome unless that resync
      failed. */
  lemma {:induction false} AttemptSendsTwice(server: Server, net: Net, request: Request)
    requires !request.TimeGet?
    ensures net.log <= Attempt(server, net, request).net.log
    ensures var ran := Attempt(server, net, request);
            var own := Carrying(Added(net, ran.net), request);
            && |own| <= 2
            && (|own| == 2 <==> Resends(server, net, request))
            && (|own| == 2 ==> RejectedForTime(own[0].reply))
            && (|own| > 0 ==>
                  || ran.result == Outcome(own[|own| - 1].reply)
                  || (|own| == 1 && RejectedForTime(own[0].reply) && ran.result.Err?))
            && (|own| == 0 ==> ran.result.Err?)
  {
    var first := Execute(server, net, request);
    ExecuteSendsOnce(server, net, request);
    ResendsByResult(server, net, request);
    var own := Carrying(Added(net, first.net), request);
    if own != [] {
      TimestampReplies(own[0].reply);
    }
    if first.result.Err? && IsTimestampError(first.result.error) {
      ResyncAdds(server, net, request);
      var sync := SyncTime(server, first.net);
      if sync.result.Ok? {
        ExecuteSendsOnce(server, sync.net, request);
      }
    }
  }

  // ----- the last exchange of a call -----

  function LastOf(net: Net): Exchange
    requires net.log != []
  {
    net.log[|net.log| - 1]
  }

  /** Something was exchanged, and the last exchange decides: the result is what its reply means, or,
      when it was a time exchange that answered without the time, something foreign. */
  ghost predicate Decided(net: Net, ran: Ran<Body>, request: Request) {
    && net.log <= ran.net.log && |net.log| < |ran.net.log|
    && var last := LastOf(ran.net);
       || (ran.result == Outcome(last.reply) && (ran.result.Ok? ==> last.request == request))
       || (last.request.TimeGet? && Outcome(last.reply).Ok? && ran.result == Err(Foreign))
  }

  lemma {:induction false} LastIsAdded(before: Net, after: Net)
    requires before.log <= after.log && |before.log| < |after.log|
    ensures after.log[|after.log| - 1] in Added(before, after)
    ensures Added(before, after)[|Added(before, after)| - 1] == after.log[|after.log| - 1]
  {
  }

  lemma {:induction false} ExecuteEndsWithLast(server: Server, net: Net, request: Request)
    ensures Decided(net, Execute(server, net, request), request)
  {
  }

  lemma {:induction false} AttemptEndsWithLast(server: Server, net: Net, request: Request)
    ensures Decided(net, Attempt(server, net, request), request)
  {
    ExecuteEndsWithLast(server, net, request);
    var first := Execute(server, net, request);
    var sync := SyncTime(server, first.net);
    if sync.result.Ok? {
      ExecuteEndsWithLast(server, sync.net, request);
    }
  }

  lemma {:induction false} AttemptKeepsSleeps(server: Server, net: Net, request: Request)
    ensures Attempt(server, net, request).net.sleeps == net.sleeps
  {
  }

  /** The state after the k-th attempt failed and the client slept. */
  function AfterSleep(server: Server, policy: Policy, net: Net, request: Request, k: nat): Net
    requires Attempt(server, net, request).result.Err?
  {
    var tried := Attempt(server, net, request);
    tried.net.(sleeps := tried.net.sleeps + [Delay(policy, tried.result.error, k, |tried.net.sleeps|)])
  }

  predicate TriesAgain(server: Server, policy: Policy, net: Net, request: Request, k: nat) {
    var result := Attempt(server, net, request).result;
    result.Err? && k < policy.maxRetries && IsRetryable(result.error, IsMutating(request))
  }

  lemma {:induction false} RetryUnfolds(server: Server, policy: Policy, net: Net, request: Request, k: nat)
    requires k <= policy.maxRetries
    ensures Retry(server, policy, net, request, k)
            == if TriesAgain(server, policy, net, request, k)
               then Retry(server, policy, AfterSleep(server, policy, net, request, k), request, k + 1)
               else Attempt(server, net, request)
  {
  }

  /** The last exchange of the whole call decides. */
  lemma {:induction false} RetryEndsWithLast(server: Server, policy: Policy, net: Net, request: Request, k: nat)
    requires k <= policy.maxRetries
    ensures Decided(net, Retry(server, policy, net, request, k), request)
    decreases policy.maxRetries - k
  {
    AttemptEndsWithLast(server, net, request);
    RetryUnfolds(server, policy, net, request, k);
    if TriesAgain(server, policy, net, request, k) {
      RetryEndsWithLast(server, policy, AfterSleep(server, policy, net, request, k), request, k + 1);
    }
  }

  /** An unsigned request neither synchronises time first nor is resent, whatever the reply. */
  lemma {:induction false} UnsignedIsSentOnce(server: Server, net: Net)
    ensures Attempt(server, net, TimeGet) == Send(server, net, TimeGet)
  {
  }

  // ----- retries, reply by reply -----

  /** A reply that a read tries again after: a timeout, a network error, or a 5xx, 429 or 418 without a
      non-zero code in its body. */
  predicate Transient(reply: Reply) {
    || reply.TimedOut? || reply.Unreachable?
    || ((reply.status >= 500 || reply.status == 429 || reply.status == 418) && (reply.code.None? || reply.code.value == 0))
  }

  /** The sleep after such a reply: what a 429 or 418 asked for, or else a jitter below the capped
      exponential step. */
  function SleepAfter(policy: Policy, reply: Reply, k: nat, n: nat): real {
    if reply.Http? && (reply.status == 429 || reply.status == 418) && reply.retryAfter.Some? then reply.retryAfter.value as real
    else
      var step := policy.base * Power(policy.factor, k);
      policy.jitter(n, if step < policy.cap then step else policy.cap)
  }

  lemma {:induction false} TransientIsRetryable(reply: Reply, mutating: bool)
    ensures Outcome(reply).Err? && IsRetryable(Outcome(reply).error, mutating) <==> !mutating && Transient(reply)
  {
  }

  /** The loop by replies: a read sleeps and tries again exactly after a transient reply, as long as
      retries are left, and sleeps what that reply calls for. An order post is never tried again. */
  lemma {:induction false} RetryByReply(server: Server, policy: Policy, net: Net, request: Request, k: nat)
    requires k <= policy.maxRetries
    ensures var tried := Attempt(server, net, request);
            && tried.net.log != []
            && var reply := LastOf(tried.net).reply;
               Retry(server, policy, net, request, k)
               == if !request.OrderPost? && Transient(reply) && k < policy.maxRetries
                  then Retry(server, policy, tried.net.(sleeps := net.sleeps + [SleepAfter(policy, reply, k, |net.sleeps|)]), request, k + 1)
                  else tried
  {
    var tried := Attempt(server, net, request);
    AttemptEndsWithLast(server, net, request);
    AttemptKeepsSleeps(server, net, request);
    RetryUnfolds(server, policy, net, request, k);
    TransientIsRetryable(LastOf(tried.net).reply, IsMutating(request));
  }

  /** A read gives up on a transient reply only when all its retries are used up. */
  lemma {:induction false} GivesUpOnlyWhenExhausted(server: Server, policy: Policy, net: Net, request: Request, k: nat)
    requires k <= policy.maxRetries && !request.OrderPost?
    ensures var ran := Retry(server, policy, net, request, k).net;
            && ran.log != [] && net.sleeps <= ran.sleeps
            && (Transient(LastOf(ran).reply) ==> |ran.sleeps| - |net.sleeps| == policy.maxRetries - k)
    decreases policy.maxRetries - k
  {
    RetryByReply(server, policy, net, request, k);
    var tried := Attempt(server, net, request);
    AttemptKeepsSleeps(server, net, request);
    var reply := LastOf(tried.net).reply;
    if Transient(reply) && k < policy.maxRetries {
      var slept := tried.net.(sleeps := net.sleeps + [SleepAfter(policy, reply, k, |net.sleeps|)]);
      GivesUpOnlyWhenExhausted(server, policy, slept, request, k + 1);
    }
  }

  /** The steps of the default schedule: half a second, doubled up to eight seconds. */
  lemma {:induction false} DefaultSchedule(policy: Policy, k: nat)
    requires policy.base == 0.5 && policy.factor == 2.0 && policy.cap == 8.0
    ensures Ceiling(policy, k) == if k == 0 then 0.5 else if k == 1 then 1.0 else if k == 2 then 2.0 else if k == 3 then 4.0 else 8.0
  {
    assert Power(2.0, 1) == 2.0 * Power(2.0, 0) == 2.0;
    assert Power(2.0, 2) == 2.0 * Power(2.0, 1) == 4.0;
    assert Power(2.0, 3) == 2.0 * Power(2.0, 2) == 8.0;
    assert Power(2.0, 4) == 2.0 * Power(2.0, 3) == 16.0;
    if k >= 4 {
      PowerOfTwoGrows(k);
    }
  }

  lemma {:induction false} PowerOfTwoGrows(k: nat)
    requires k >= 4
    ensures Power(2.0, k) >= 16.0
  {
    if k > 4 {
      PowerOfTwoGrows(k - 1);
    } else {
      assert Power(2.0, 1) == 2.0 && Power(2.0, 2) == 4.0 && Power(2.0, 3) == 8.0;
    }
  }

  /** A 429 that says when to come back: the read sleeps that long and returns what it then gets. */
  lemma {:induction false} RetryAfterIsSlept(server: Server, policy: Policy, net: Net, clientId: string, seconds: int)
    requires net.synced && policy.maxRetries > 0
    requires server(net.log, OrderQuery(clientId)).0 == Http(429, None, Some(seconds), OtherJson)
    requires var (reply, fate) := server(net.log, OrderQuery(clientId));
             server(net.log + [Exchange(OrderQuery(clientId), reply, fate)], OrderQuery(clientId)).0
             == Http(200, None, None, OrderBody(clientId))
    ensures var ran := Requested(server, policy, net, OrderQuery(clientId));
            ran.result == Ok(OrderBody(clientId)) && ran.net.sleeps == net.sleeps + [seconds as real]
  {
    var request := OrderQuery(clientId);
    var tried := Attempt(server, net, request);
    RetryByReply(server, policy, net, request, 0);
    RetryByReply(server, policy, tried.net.(sleeps := net.sleeps + [seconds as real]), request, 1);
  }

  // ----- bounds on reads -----

  function CeilingSum(policy: Policy, from: nat, count: nat): real {
    if count == 0 then 0.0 else CeilingSum(policy, from, count - 1) + Ceiling(policy, from + count - 1)
  }

  function Sum(sleeps: seq<real>): real {
    if sleeps == [] then 0.0 else Sum(sleeps[..|sleeps| - 1]) + sleeps[|sleeps| - 1]
  }

  lemma {:induction false} SumFirst(sleeps: seq<real>)
    requires sleeps != []
    ensures Sum(sleeps) == sleeps[0] + Sum(sleeps[1..])
  {
    if |sleeps| == 1 {
      assert sleeps[..0] == [] && sleeps[1..] == [];
    } else {
      assert sleeps[1..][..|sleeps| - 2] == sleeps[..|sleeps| - 1][1..];
      SumFirst(sleeps[..|sleeps| - 1]);
    }
  }

  lemma {:induction false} CeilingSumFirst(policy: Policy, from: nat, count: nat)
    requires count > 0
    ensures CeilingSum(policy, from, count) == Ceiling(policy, from) + CeilingSum(policy, from + 1, count - 1)
  {
    if count > 1 {
      CeilingSumFirst(policy, from, count - 1);
    }
  }

  ghost predicate JitterWithinCeiling(policy: Policy) {
    forall n: nat, ceiling: real :: policy.jitter(n, ceiling) <= ceiling
  }

  /** From the k-th attempt on, a request sends its own path at most twice per remaining attempt
      and sleeps at most once between attempts. */
  lemma {:induction false} RetryCounts(server: Server, policy: Policy, net: Net, request: Request, k: nat)
    requires k <= policy.maxRetries && !request.TimeGet?
    ensures var ran := Retry(server, policy, net, request, k);
            && net.log <= ran.net.log && net.sleeps <= ran.net.sleeps
            && |Carrying(Added(net, ran.net), request)| <= 2 * (policy.maxRetries - k + 1)
            && |ran.net.sleeps| - |net.sleeps| <= policy.maxRetries - k
    decreases policy.maxRetries - k
  {
    AttemptSendsTwice(server, net, request);
    AttemptKeepsSleeps(server, net, request);
    RetryUnfolds(server, policy, net, request, k);
    if TriesAgain(server, policy, net, request, k) {
      var slept, ran := AfterSleep(server, policy, net, request, k), Retry(server, policy, net, request, k);
      RetryCounts(server, policy, slept, request, k + 1);
      AddedTwice(net, slept, ran.net);
      CarryingConcat(Added(net, slept), Added(slept, ran.net), request);
    }
  }

  /** No reply carries a Retry-After header. */
  ghost predicate NoRetryAfter(log: seq<Exchange>) {
    forall x :: x in log && x.reply.Http? ==> x.reply.retryAfter.None?
  }

  lemma {:induction false} AttemptErrorHasNoRetryAfter(server: Server, net: Net, request: Request)
    requires net.log <= Attempt(server, net, request).net.log
    requires NoRetryAfter(Added(net, Attempt(server, net, request).net))
    ensures var result := Attempt(server, net, request).result;
            result.Err? && result.error.Api? ==> result.error.retryAfter.None?
  {
    AttemptEndsWithLast(server, net, request);
    LastIsAdded(net, Attempt(server, net, request).net);
  }

  lemma {:induction false} DelayWithinCeiling(server: Server, policy: Policy, net: Net, request: Request, k: nat, n: nat)
    requires JitterWithinCeiling(policy)
    requires net.log <= Attempt(server, net, request).net.log
    requires NoRetryAfter(Added(net, Attempt(server, net, request).net))
    requires Attempt(server, net, request).result.Err?
    ensures Delay(policy, Attempt(server, net, request).result.error, k, n) <= Ceiling(policy, k)
  {
    AttemptErrorHasNoRetryAfter(server, net, request);
  }

  /** One more sleep, within its ceiling. */
  lemma {:induction false} SleepsOnce(server: Server, policy: Policy, net: Net, request: Request, k: nat)
    requires JitterWithinCeiling(policy) && TriesAgain(server, policy, net, request, k)
    requires net.log <= AfterSleep(server, policy, net, request, k).log
    requires NoRetryAfter(Added(net, AfterSleep(server, policy, net, request, k)))
    ensures var sleeps := AfterSleep(server, policy, net, request, k).sleeps;
            && |sleeps| == |net.sleeps| + 1 && net.sleeps <= sleeps
            && sleeps[|net.sleeps|] <= Ceiling(policy, k)
  {
    AttemptKeepsSleeps(server, net, request);
    DelayWithinCeiling(server, policy, net, request, k, |net.sleeps|);
  }

  /** The sleeps taken since `before` stay within the capped exponential schedule from step k on. */
  ghost predicate WithinSchedule(policy: Policy, before: seq<real>, all: seq<real>, k: nat) {
    before <= all && Sum(all[|before|..]) <= CeilingSum(policy, k, |all| - |before|)
  }

  /** Without Retry-After the sleeps stay within the capped exponential schedule. */
  lemma {:induction false} RetryBackoff(server: Server, policy: Policy, net: Net, request: Request, k: nat, ran: Net)
    requires k <= policy.maxRetries && !request.TimeGet? && JitterWithinCeiling(policy)
    requires ran == Retry(server, policy, net, request, k).net
    requires net.log <= ran.log && NoRetryAfter(Added(net, ran))
    ensures WithinSchedule(policy, net.sleeps, ran.sleeps, k)
    decreases policy.maxRetries - k
  {
    RetryUnfolds(server, policy, net, request, k);
    if TriesAgain(server, policy, net, request, k) {
      var slept := AfterSleep(server, policy, net, request, k);
      SplitLog(server, policy, net, request, k, ran);
      SleepsOnce(server, policy, net, request, k);
      RetryBackoff(server, policy, slept, request, k + 1, ran);
      BackoffStep(policy, net.sleeps, slept.sleeps, ran.sleeps, k);
    } else {
      AttemptKeepsSleeps(server, net, request);
      NoSleeps(policy, net.sleeps, k);
    }
  }

  /** Neither this attempt nor the ones after its sleep met a Retry-After. */
  lemma {:induction false} SplitLog(server: Server, policy: Policy, net: Net, request: Request, k: nat, ran: Net)
    requires TriesAgain(server, policy, net, request, k)
    requires ran == Retry(server, policy, AfterSleep(server, policy, net, request, k), request, k + 1).net
    requires net.log <= ran.log && NoRetryAfter(Added(net, ran))
    ensures var slept := AfterSleep(server, policy, net, request, k);
            && net.log <= slept.log <= ran.log
            && NoRetryAfter(Added(net, slept)) && NoRetryAfter(Added(slept, ran))
  {
    var slept := AfterSleep(server, policy, net, request, k);
    AttemptEndsWithLast(server, net, request);
    RetryEndsWithLast(server, policy, slept, request, k + 1);
    NoRetryAfterSplit(net, slept, ran);
  }

  lemma {:induction false} NoRetryAfterSplit(a: Net, b: Net, c: Net)
    requires a.log <= b.log <= c.log && NoRetryAfter(Added(a, c))
    ensures NoRetryAfter(Added(a, b)) && NoRetryAfter(Added(b, c))
  {
    AddedTwice(a, b, c);
    NoRetryAfterParts(Added(a, b), Added(b, c));
  }

  lemma {:induction false} NoSleeps(policy: Policy, sleeps: seq<real>, k: nat)
    ensures WithinSchedule(policy, sleeps, sleeps, k)
  {
    assert sleeps[|sleeps|..] == [];
  }

  lemma {:induction false} NoRetryAfterParts(a: seq<Exchange>, b: seq<Exchange>)
    requires NoRetryAfter(a + b)
    ensures NoRetryAfter(a) && NoRetryAfter(b)
  {
    assert forall x :: x in a || x in b ==> x in a + b;
  }

  /** One more sleep within its ceiling, then the rest within theirs. */
  lemma {:induction false} BackoffStep(policy: Policy, before: seq<real>, once: seq<real>, all: seq<real>, k: nat)
    requires |once| == |before| + 1 && before <= once && once[|before|] <= Ceiling(policy, k)
    requires WithinSchedule(policy, once, all, k + 1)
    ensures WithinSchedule(policy, before, all, k)
  {
    var sleeps := all[|before|..];
    assert sleeps[0] == once[|before|] && sleeps[1..] == all[|once|..];
    SumFirst(sleeps);
    CeilingSumFirst(policy, k, |sleeps|);
  }

  /** For any server: a read sends its own path at most 2 * (max_retries + 1) times and sleeps at
      most max_retries times; and when no reply carries Retry-After and the jitter stays within its
      ceiling, the total backoff is at most the capped exponential schedule. */
  lemma {:induction false} ReadIsBounded(server: Server, policy: Policy, net: Net, clientId: string)
    ensures var ran := Requested(server, policy, net, OrderQuery(clientId));
            && net.log <= ran.net.log && net.sleeps <= ran.net.sleeps
            && |Carrying(Added(net, ran.net), OrderQuery(clientId))| <= 2 * (policy.maxRetries + 1)
            && |ran.net.sleeps| - |net.sleeps| <= policy.maxRetries
            && (JitterWithinCeiling(policy) && NoRetryAfter(Added(net, ran.net)) ==>
                  WithinSchedule(policy, net.sleeps, ran.net.sleeps, 0))
  {
    var ran := Requested(server, policy, net, OrderQuery(clientId));
    RetryCounts(server, policy, net, OrderQuery(clientId), 0);
    if JitterWithinCeiling(policy) && NoRetryAfter(Added(net, ran.net)) {
      RetryBackoff(server, policy, net, OrderQuery(clientId), 0, ran.net);
    }
  }
}
