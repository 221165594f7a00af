/** Time-window pagination: the generator, and how often it fetches whatever the server answers. */
module Pagination {
  import opened Prelude

  /** The arguments of the generator. `fetch(n, start, end)` is the server's answer to the n-th
      fetch; `key` is the ordering timestamp of a row and `identity` tells rows apart. */
  datatype Query<!T, !I> = Query(fetch: (nat, int, int) -> seq<T>, endTime: int, pageLimit: int,
                                 key: T -> int, identity: T -> I)

  /** The loop's variables: the window start and the boundary rows already yielded. */
  datatype Window<I> = Window(start: int, boundaryKey: Option<int>, boundaryIds: set<I>)

  /** Rows yielded and fetches made. */
  datatype Pages<T> = Pages(rows: seq<T>, fetches: nat)

  predicate IsBoundary<T, I(==)>(q: Query<T, I>, w: Window<I>, row: T) {
    Some(q.key(row)) == w.boundaryKey && q.identity(row) in w.boundaryIds
  }

  /** The rows of a page before the first one at or past the end time, without boundary rows. */
  function Unseen<T, I(==)>(q: Query<T, I>, w: Window<I>, page: seq<T>): seq<T> {
    if page == [] || q.key(page[0]) >= q.endTime then []
    else if IsBoundary(q, w, page[0]) then Unseen(q, w, page[1..])
    else [page[0]] + Unseen(q, w, page[1..])
  }

  predicate HitsEnd<T, I>(q: Query<T, I>, page: seq<T>) {
    exists k :: 0 <= k < |page| && q.key(page[k]) >= q.endTime
  }

  function IdsAt<T, I(==)>(q: Query<T, I>, page: seq<T>, at: int): set<I> {
    set k | 0 <= k < |page| && q.key(page[k]) == at :: q.identity(page[k])
  }

  /** A page that is empty, reaches the end time, is short, or does not move the window is the last. */
  predicate IsLast<T, I>(q: Query<T, I>, start: int, page: seq<T>) {
    page == [] || HitsEnd(q, page) || |page| < q.pageLimit || q.key(page[|page| - 1]) <= start
  }

  function NextWindow<T, I(==)>(q: Query<T, I>, page: seq<T>): Window<I>
    requires page != []
  {
    var lastKey := q.key(page[|page| - 1]);
    Window(lastKey, Some(lastKey), IdsAt(q, page, lastKey))
  }

  /** The whole iteration from its n-th fetch on. */
  function Iterate<T, I(==)>(q: Query<T, I>, n: nat, w: Window<I>): Pages<T>
    decreases q.endTime - w.start
  {
    if w.start >= q.endTime then Pages([], n)
    else
      var page := q.fetch(n, w.start, q.endTime);
      var unseen := Unseen(q, w, page);
      if IsLast(q, w.start, page) then Pages(unseen, n + 1)
      else
        var rest := Iterate(q, n + 1, NextWindow(q, page));
        Pages(unseen + rest.rows, rest.fetches)
  }

  /** The loop over one page. */
  method YieldPage<T, I(==)>(q: Query<T, I>, w: Window<I>, page: seq<T>) returns (rows: seq<T>, hitEnd: bool)
    ensures rows == Unseen(q, w, page)
    ensures hitEnd == HitsEnd(q, page)
  {
    rows := [];
    ghost var unseen := Unseen(q, w, page);
    assert page[0..] == page;
    for i := 0 to |page|
      invariant forall k :: 0 <= k < i ==> q.key(page[k]) < q.endTime
      invariant rows + Unseen(q, w, page[i..]) == unseen
    {
      assert page[i..][1..] == page[i + 1..];
      var row := page[i];
      if q.key(row) >= q.endTime {
        return rows, true;
      }
      if IsBoundary(q, w, row) {
        continue;
      }
      rows := rows + [row];
    }
    hitEnd := false;
  }

  lemma {:induction false} StopsAt<T, I>(q: Query<T, I>, n: nat, w: Window<I>, page: seq<T>)
    requires w.start < q.endTime && q.fetch(n, w.start, q.endTime) == page && IsLast(q, w.start, page)
    ensures Iterate(q, n, w) == Pages(Unseen(q, w, page), n + 1)
  {
  }

  lemma {:induction false} GoesOnAfter<T, I>(q: Query<T, I>, n: nat, w: Window<I>, page: seq<T>)
    requires w.start < q.endTime && q.fetch(n, w.start, q.endTime) == page && !IsLast(q, w.start, page)
    ensures var rest := Iterate(q, n + 1, NextWindow(q, page));
            Iterate(q, n, w) == Pages(Unseen(q, w, page) + rest.rows, rest.fetches)
  {
  }

  /** What was yielded, followed by what is still to come, is the whole iteration. */
  ghost predicate Continues<T>(rows: seq<T>, rest: Pages<T>, total: Pages<T>) {
    rows + rest.rows == total.rows && rest.fetches == total.fetches
  }

  lemma {:induction false} YieldMore<T>(rows: seq<T>, yielded: seq<T>, rest: Pages<T>, total: Pages<T>)
    requires Continues(rows, Pages(yielded + rest.rows, rest.fetches), total)
    ensures Continues(rows + yielded, rest, total)
  {
    assert rows + (yielded + rest.rows) == rows + yielded + rest.rows;
  }

  /** The generator: its rows and the number of its fetches. Whatever the server answers, it makes
      at most max(0, end - start) fetches. */
  method IterTimeWindows<T, I(==)>(q: Query<T, I>, startTime: int) returns (rows: seq<T>, fetches: nat)
    ensures Pages(rows, fetches) == Iterate(q, 0, Window(startTime, None, {}))
    ensures fetches <= Max(0, q.endTime - startTime)
  {
    var w: Window<I> := Window(startTime, None, {});
    ghost var total := Iterate(q, 0, w);
    rows, fetches := [], 0;
    while w.start < q.endTime
      invariant fetches <= w.start - startTime && w.start <= Max(startTime, q.endTime)
      invariant Continues(rows, Iterate(q, fetches, w), total)
      decreases q.endTime - w.start
    {
      var page := q.fetch(fetches, w.start, q.endTime);
      if page == [] {
        StopsAt(q, fetches, w, page);
        return rows, fetches + 1;
      }
      var yielded, hitEnd := YieldPage(q, w, page);
      var lastKey := q.key(page[|page| - 1]);
      if hitEnd || |page| < q.pageLimit || lastKey <= w.start {
        StopsAt(q, fetches, w, page);
        return rows + yielded, fetches + 1;
      }
      GoesOnAfter(q, fetches, w, page);
      LastBeforeEnd(q, page);
      YieldMore(rows, yielded, Iterate(q, fetches + 1, NextWindow(q, page)), total);
      rows, fetches := rows + yielded, fetches + 1;
      w := Window(lastKey, Some(lastKey), IdsAt(q, page, lastKey));
    }
  }

  lemma {:induction false} LastBeforeEnd<T, I>(q: Query<T, I>, page: seq<T>)
    requires page != [] && !HitsEnd(q, page)
    ensures q.key(page[|page| - 1]) < q.endTime
  {
    assert 0 <= |page| - 1 < |page|;
  }
}
