/** Small vocabulary shared by every module of the model. */
module Prelude {

  datatype Option<+T> = None | Some(value: T)

  datatype Result<+T, +E> = Ok(value: T) | Err(error: E)

  function Min(a: int, b: int): int { if a <= b then a else b }

  function Max(a: int, b: int): int { if a >= b then a else b }

  /** The slice xs[:n] of the source language: a negative n drops from the end. */
  function Prefix<T>(xs: seq<T>, n: int): seq<T> {
    if n >= 0 then xs[..Min(n, |xs|)] else xs[..Max(0, |xs| + n)]
  }

  lemma {:induction false} SubmapOfEqualSize<K, V>(a: map<K, V>, b: map<K, V>)
    requires forall k :: k in a ==> k in b && a[k] == b[k]
    requires |b| <= |a|
    ensures a == b
  {
    var extra := b.Keys - a.Keys;
    assert b.Keys == a.Keys + extra;
    assert |b.Keys| == |a.Keys| + |extra|;
    assert extra == {};
    assert a.Keys == b.Keys;
  }

  /** What an async generator yields, and whether it ended because its input did; it stops early
      when a provider it awaits raises. */
  datatype Trace<T> = Trace(events: seq<T>, ended: bool)

  /** What has been yielded so far, followed by what is still to come, is the whole run. */
  ghost predicate Completes<T>(events: seq<T>, rest: Trace<T>, total: Trace<T>) {
    events + rest.events == total.events && rest.ended == total.ended
  }

  lemma {:induction false} CompletesAfterYield<T>(events: seq<T>, e: T, rest: Trace<T>, total: Trace<T>)
    requires Completes(events, Trace([e] + rest.events, rest.ended), total)
    ensures Completes(events + [e], rest, total)
  {
    assert events + ([e] + rest.events) == events + [e] + rest.events;
  }
}
