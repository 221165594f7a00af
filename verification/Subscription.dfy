/** The channel between a socket reader and one consumer. It holds a bounded number of items; when
    there is no room the reader sacrifices the oldest one, so the reader never has to wait. */
module Subscription {
  import opened Prelude

  /** What travels through the queue: a payload, or one of the two sentinels. */
  datatype Item<+T> = Payload(value: T) | Fault(exception: string) | Closed

  /** The queue together with an observer's history: everything offered so far, and the positions
      in that history of the items the consumer has taken. */
  datatype Channel<T> = Channel(queue: seq<T>, lagged: nat, offered: seq<T>, taken: seq<nat>)

  datatype Op<T> = Offer(item: T) | Get

  /** A bound of zero or less means no bound. */
  predicate IsFull(length: nat, maxsize: int) {
    maxsize > 0 && length >= maxsize
  }

  function Offered<T>(c: Channel<T>, item: T, maxsize: int): Channel<T> {
    if IsFull(|c.queue|, maxsize)
    then Channel(c.queue[1..] + [item], c.lagged + 1, c.offered + [item], c.taken)
    else Channel(c.queue + [item], c.lagged, c.offered + [item], c.taken)
  }

  /** Taking from an empty queue waits, so it changes nothing. */
  function Taken<T>(c: Channel<T>): Channel<T> {
    if c.queue == [] then c
    else Channel(c.queue[1..], c.lagged, c.offered, c.taken + [Max(0, |c.offered| - |c.queue|)])
  }

  function Step<T>(c: Channel<T>, op: Op<T>, maxsize: int): Channel<T> {
    match op
    case Offer(item) => Offered(c, item, maxsize)
    case Get => Taken(c)
  }

  /** The channel after any interleaving of offers and gets. */
  function Interleave<T>(ops: seq<Op<T>>, maxsize: int): Channel<T> {
    if ops == [] then Channel([], 0, [], [])
    else Step(Interleave(ops[..|ops| - 1], maxsize), ops[|ops| - 1], maxsize)
  }

  /** What the consumer received. */
  function Delivered<T>(c: Channel<T>): seq<T>
    requires forall k :: 0 <= k < |c.taken| ==> c.taken[k] < |c.offered|
  {
    seq(|c.taken|, k requires 0 <= k < |c.taken| => c.offered[c.taken[k]])
  }

  /** The queue is the newest part of everything offered; the consumer took an increasing list of
      older positions; and every item was taken, is queued, or is counted as lagged. */
  ghost predicate Faithful<T>(c: Channel<T>, maxsize: int) {
    && |c.queue| <= |c.offered|
    && c.queue == c.offered[|c.offered| - |c.queue|..]
    && (forall k :: 0 <= k < |c.taken| ==> c.taken[k] < |c.offered| - |c.queue|)
    && (forall i, j :: 0 <= i < j < |c.taken| ==> c.taken[i] < c.taken[j])
    && |c.offered| == |c.taken| + |c.queue| + c.lagged
    && (maxsize > 0 ==> |c.queue| <= maxsize)
  }

  lemma {:induction false} OfferedFaithful<T>(c: Channel<T>, item: T, maxsize: int)
    requires Faithful(c, maxsize)
    ensures Faithful(Offered(c, item, maxsize), maxsize)
  {
  }

  lemma {:induction false} TakenFaithful<T>(c: Channel<T>, maxsize: int)
    requires Faithful(c, maxsize)
    ensures Faithful(Taken(c), maxsize)
    ensures c.queue != [] ==> Delivered(Taken(c)) == Delivered(c) + [c.queue[0]]
  {
  }

  /** Over every interleaving: the queue is a suffix of what was offered, what was delivered is an
      ordered subsequence of it, and offered = delivered + queued + lagged. */
  lemma {:induction false} RingFaithful<T>(ops: seq<Op<T>>, maxsize: int)
    ensures Faithful(Interleave(ops, maxsize), maxsize)
  {
    if ops != [] {
      var before := Interleave(ops[..|ops| - 1], maxsize);
      RingFaithful(ops[..|ops| - 1], maxsize);
      match ops[|ops| - 1]
      case Offer(item) => OfferedFaithful(before, item, maxsize);
      case Get => TakenFaithful(before, maxsize);
    }
  }

  lemma {:induction false} TakenFromOffset<T>(c: Channel<T>, maxsize: int, k: nat)
    requires Faithful(c, maxsize) && k < |c.taken|
    ensures k <= c.taken[k] <= |c.offered| - |c.queue| - (|c.taken| - k)
  {
    if k > 0 {
      TakenLowerBound(c, maxsize, k);
    }
    TakenUpperBound(c, maxsize, k);
  }

  lemma {:induction false} TakenLowerBound<T>(c: Channel<T>, maxsize: int, k: nat)
    requires Faithful(c, maxsize) && k < |c.taken|
    ensures k <= c.taken[k]
  {
    if k > 0 {
      TakenLowerBound(c, maxsize, k - 1);
    }
  }

  lemma {:induction false} TakenUpperBound<T>(c: Channel<T>, maxsize: int, k: nat)
    requires Faithful(c, maxsize) && k < |c.taken|
    ensures c.taken[k] <= |c.offered| - |c.queue| - (|c.taken| - k)
    decreases |c.taken| - k
  {
    if k + 1 < |c.taken| {
      TakenUpperBound(c, maxsize, k + 1);
    }
  }

  /** Nothing is missing exactly when nothing lagged: delivered followed by queued is then all
      that was offered, in order. */
  lemma {:induction false} LosslessIffNeverLagged<T>(ops: seq<Op<T>>, maxsize: int)
    ensures Faithful(Interleave(ops, maxsize), maxsize)
    ensures var c := Interleave(ops, maxsize);
            c.lagged == 0 <==> Delivered(c) + c.queue == c.offered
  {
    RingFaithful(ops, maxsize);
    var c := Interleave(ops, maxsize);
    if c.lagged == 0 {
      forall k | 0 <= k < |c.taken| ensures c.taken[k] == k {
        TakenFromOffset(c, maxsize, k);
      }
      assert Delivered(c) == c.offered[..|c.taken|];
    }
  }

  /** Lagging never undoes itself: once an item is lost the counter stays positive. */
  lemma {:induction false} LaggedNeverFalls<T>(c: Channel<T>, op: Op<T>, maxsize: int)
    ensures c.lagged <= Step(c, op, maxsize).lagged
    ensures match op
            case Offer(item) =>
              var full := maxsize > 0 && |c.queue| >= maxsize;
              && Step(c, op, maxsize).lagged == (if full then c.lagged + 1 else c.lagged)
              && (!full ==> Step(c, op, maxsize).queue == c.queue + [item])
            case Get => Step(c, op, maxsize).lagged == c.lagged
  {
  }

  /** What the consumer's `anext` produces. */
  datatype Next<+T> = Yield(value: T) | Raise(exception: string) | Stop

  /** The subscription object. The ghost fields record its history. */
  class Subscription<T> {
    const maxsize: int
    var queue: seq<Item<T>>
    var lagged: nat
    ghost var offered: seq<Item<T>>
    ghost var taken: seq<nat>

    ghost function State(): Channel<Item<T>>
      reads this
    {
      Channel(queue, lagged, offered, taken)
    }

    ghost predicate Valid()
      reads this
    {
      Faithful(State(), maxsize)
    }

    constructor (maxsize: int)
      ensures Valid() && State() == Channel([], 0, [], []) && this.maxsize == maxsize
    {
      this.maxsize := maxsize;
      queue, lagged, offered, taken := [], 0, [], [];
    }

    method Offer(item: Item<T>)
      requires Valid()
      modifies this
      ensures Valid()
      ensures State() == Offered(old(State()), item, maxsize)
    {
      OfferedFaithful(State(), item, maxsize);
      if IsFull(|queue|, maxsize) {
        queue := queue[1..];
        queue := queue + [item];
        lagged := lagged + 1;
      } else {
        queue := queue + [item];
      }
      offered := offered + [item];
    }

    method Fault(exception: string)
      requires Valid()
      modifies this
      ensures Valid()
      ensures State() == Offered(old(State()), Item.Fault(exception), maxsize)
    {
      Offer(Item.Fault(exception));
    }

    method Close()
      requires Valid()
      modifies this
      ensures Valid()
      ensures State() == Offered(old(State()), Closed, maxsize)
    {
      Offer(Closed);
    }

    /** Runs once an item is available; the source waits until then. */
    method Next() returns (next: Next<T>)
      requires Valid() && queue != []
      modifies this
      ensures Valid()
      ensures State() == Taken(old(State()))
      ensures match old(queue[0])
              case Payload(value) => next == Yield(value)
              case Fault(exception) => next == Raise(exception)
              case Closed => next == Stop
    {
      TakenFaithful(State(), maxsize);
      var item := queue[0];
      taken := taken + [|offered| - |queue|];
      queue := queue[1..];
      match item
      case Payload(value) => next := Yield(value);
      case Fault(exception) => next := Raise(exception);
      case Closed => next := Stop;
    }
  }
}
