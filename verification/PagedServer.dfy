/** Pagination over a fixed server list: what is yielded is the wanted rows up to the first
    timestamp that fills a whole page. */
module PagedServer {
  import opened Prelude
  import opened Pagination

  ghost predicate SortedBy<T>(rows: seq<T>, key: T -> int) {
    forall i, j :: 0 <= i <= j < |rows| ==> key(rows[i]) <= key(rows[j])
  }

  /** Identities tell the rows of one timestamp apart. */
  ghost predicate Identified<T, I>(rows: seq<T>, key: T -> int, identity: T -> I) {
    forall i, j :: 0 <= i < j < |rows| && key(rows[i]) == key(rows[j]) ==> identity(rows[i]) != identity(rows[j])
  }

  /** The number of rows before the given time. */
  function From<T>(rows: seq<T>, time: int, key: T -> int): (n: nat)
    ensures n <= |rows|
  {
    if rows == [] || key(rows[0]) >= time then 0 else 1 + From(rows[1..], time, key)
  }

  lemma {:induction false} FromSplits<T>(rows: seq<T>, time: int, key: T -> int)
    requires SortedBy(rows, key)
    ensures forall i :: 0 <= i < |rows| ==> (key(rows[i]) < time <==> i < From(rows, time, key))
  {
    if rows != [] && key(rows[0]) < time {
      FromSplits(rows[1..], time, key);
      forall i | 0 < i < |rows| ensures key(rows[i]) < time <==> i < From(rows, time, key) {
        assert rows[1..][i - 1] == rows[i];
      }
    }
  }

  lemma {:induction false} FromMonotone<T>(rows: seq<T>, time: int, later: int, key: T -> int)
    requires time <= later
    ensures From(rows, time, key) <= From(rows, later, key)
  {
    if rows != [] {
      FromMonotone(rows[1..], time, later, key);
    }
  }

  /** The first `limit` rows of start <= time < serverEnd. */
  function PageOf<T>(rows: seq<T>, start: int, serverEnd: int, limit: nat, key: T -> int): seq<T> {
    var a := From(rows, start, key);
    var b := Max(a, Min(a + limit, From(rows, serverEnd, key)));
    if b <= |rows| then rows[a..b] else []
  }

  /** The server answers every fetch from one sorted list. It may cut at the end time, include it,
      or ignore it; its page size is the page limit. */
  ghost predicate Serves<T(!new), I>(q: Query<T, I>, rows: seq<T>, serverEnd: int) {
    && SortedBy(rows, q.key) && Identified(rows, q.key, q.identity)
    && q.pageLimit > 0 && serverEnd >= q.endTime
    && forall n: nat, s :: q.fetch(n, s, q.endTime) == PageOf(rows, s, serverEnd, q.pageLimit, q.key)
  }

  // ----- where the iteration stops -----

  /** From row i on, a whole page carries one timestamp. */
  predicate Stalls<T>(rows: seq<T>, limit: nat, key: T -> int, i: nat) {
    0 < limit && i + limit <= |rows| && key(rows[i]) == key(rows[i + limit - 1])
  }

  /** Where the iteration stops when it starts at row i of the wanted rows ..hi. */
  function Reach<T>(rows: seq<T>, limit: nat, key: T -> int, i: nat, hi: nat): (r: nat)
    requires i <= hi
    ensures Min(hi, i + limit) <= r <= hi
    decreases hi - i
  {
    if i == hi then hi
    else if Stalls(rows, limit, key, i) then Min(hi, i + limit)
    else Reach(rows, limit, key, i + 1, hi)
  }

  lemma {:induction false} ReachSkips<T>(rows: seq<T>, limit: nat, key: T -> int, i: nat, j: nat, hi: nat)
    requires i <= j <= hi
    requires forall k :: i <= k < j ==> !Stalls(rows, limit, key, k)
    ensures Reach(rows, limit, key, i, hi) == Reach(rows, limit, key, j, hi)
    decreases j - i
  {
    if i < j {
      assert !Stalls(rows, limit, key, i);
      ReachSkips(rows, limit, key, i + 1, j, hi);
    }
  }

  /** The iteration reaches row hi exactly when every page-filling timestamp before it starts
      within a page's length of it. */
  lemma {:induction false} ReachAllIff<T>(rows: seq<T>, limit: nat, key: T -> int, i: nat, hi: nat)
    requires i <= hi
    ensures Reach(rows, limit, key, i, hi) == hi
            <==> forall k :: i <= k < hi && Stalls(rows, limit, key, k) ==> k + limit >= hi
    decreases hi - i
  {
    if i < hi && !Stalls(rows, limit, key, i) {
      ReachAllIff(rows, limit, key, i + 1, hi);
    }
  }

  /** When fewer than a page of wanted rows is left, all of them are reached. */
  lemma {:induction false} LastPageReaches<T>(rows: seq<T>, f: nat, hi: nat, limit: nat, key: T -> int)
    requires limit > 0 && f <= hi < f + limit
    ensures Reach(rows, limit, key, f, hi) == hi
  {
    ReachAllIff(rows, limit, key, f, hi);
  }

  /** A full page of wanted rows: either its timestamp fills it, or the next window starts at its
      last timestamp and nothing stalls in between. */
  lemma {:induction false} ReachFromNext<T>(rows: seq<T>, limit: nat, start: int, endTime: int, key: T -> int)
    requires SortedBy(rows, key) && limit > 0
    requires From(rows, start, key) + limit <= From(rows, endTime, key)
    ensures var f, hi := From(rows, start, key), From(rows, endTime, key);
            var lastKey := key(rows[f + limit - 1]);
            var g := From(rows, lastKey, key);
            && lastKey < endTime && f <= g
            && (lastKey <= start ==> Reach(rows, limit, key, f, hi) == f + limit)
            && (lastKey > start ==> g <= hi && Reach(rows, limit, key, f, hi) == Reach(rows, limit, key, g, hi))
  {
    var f, hi := From(rows, start, key), From(rows, endTime, key);
    var lastKey := key(rows[f + limit - 1]);
    FromSplits(rows, start, key);
    FromSplits(rows, endTime, key);
    FromSplits(rows, lastKey, key);
    FromMonotone(rows, start, lastKey, key);
    if lastKey > start {
      ReachSkips(rows, limit, key, f, From(rows, lastKey, key), hi);
    } else {
      assert Stalls(rows, limit, key, f);
    }
  }

  // ----- one page -----

  /** Rows of a page that are in the boundary set are skipped. */
  lemma {:induction false} UnseenSkips<T, I>(q: Query<T, I>, w: Window<I>, rows: seq<T>, j: nat, p: nat, e: nat)
    requires j <= p <= e <= |rows|
    requires forall k :: j <= k < p ==> q.key(rows[k]) < q.endTime && IsBoundary(q, w, rows[k])
    ensures Unseen(q, w, rows[j..e]) == Unseen(q, w, rows[p..e])
    decreases p - j
  {
    if j < p {
      assert rows[j..e][1..] == rows[j + 1..e];
      UnseenSkips(q, w, rows, j + 1, p, e);
    }
  }

  /** Rows outside the boundary set are yielded, up to the end time. */
  lemma {:induction false} UnseenTakes<T, I>(q: Query<T, I>, w: Window<I>, rows: seq<T>, j: nat, e: nat, hi: nat)
    requires j <= e <= |rows|
    requires forall k :: j <= k < e ==> (q.key(rows[k]) < q.endTime <==> k < hi)
    requires forall k :: j <= k < e ==> !IsBoundary(q, w, rows[k])
    ensures Unseen(q, w, rows[j..e]) == rows[j..Max(j, Min(e, hi))]
    decreases e - j
  {
    if j < e && j < hi {
      assert rows[j..e][1..] == rows[j + 1..e];
      UnseenTakes(q, w, rows, j + 1, e, hi);
      assert [rows[j]] + rows[j + 1..Max(j + 1, Min(e, hi))] == rows[j..Max(j, Min(e, hi))];
    }
  }

  /** The boundary set names exactly the rows f..p. */
  ghost predicate BoundaryIs<T, I>(q: Query<T, I>, w: Window<I>, rows: seq<T>, f: nat, p: nat)
    requires p <= |rows|
  {
    && (forall k :: f <= k < p ==> IsBoundary(q, w, rows[k]))
    && (forall id :: id in w.boundaryIds ==> exists k :: f <= k < p && q.identity(rows[k]) == id)
  }

  /** Somewhere in the run: the window starts at row f, the rows up to p are yielded, and the
      boundary set names exactly the rows f..p. */
  ghost predicate Midway<T, I>(q: Query<T, I>, w: Window<I>, rows: seq<T>, f: nat, hi: nat, p: nat) {
    && w.start < q.endTime
    && f == From(rows, w.start, q.key) && hi == From(rows, q.endTime, q.key)
    && f <= p <= hi && p <= f + q.pageLimit
    && BoundaryIs(q, w, rows, f, p)
  }

  /** Of the rows f..e of a page, the generator yields those from p on, up to the end time. */
  lemma {:induction false} UnseenFrom<T(!new), I(!new)>(q: Query<T, I>, w: Window<I>, rows: seq<T>, serverEnd: int,
                                                        f: nat, hi: nat, p: nat, e: nat)
    requires Serves(q, rows, serverEnd) && Midway(q, w, rows, f, hi, p)
    requires p <= e <= |rows|
    ensures Unseen(q, w, rows[f..e]) == rows[p..Max(p, Min(e, hi))]
  {
    FromSplits(rows, q.endTime, q.key);
    UnseenSkips(q, w, rows, f, p, e);
    forall j | p <= j < e ensures !IsBoundary(q, w, rows[j]) {
      if q.identity(rows[j]) in w.boundaryIds {
        var k :| f <= k < p && q.identity(rows[k]) == q.identity(rows[j]);
        assert IsBoundary(q, w, rows[k]);
      }
    }
    UnseenTakes(q, w, rows, p, e, hi);
  }

  /** The answer to a fetch, as a slice of the list. */
  lemma {:induction false} FetchedSlice<T(!new), I(!new)>(q: Query<T, I>, rows: seq<T>, serverEnd: int, n: nat, start: int)
    requires Serves(q, rows, serverEnd) && start < q.endTime
    ensures var f, hi, b := From(rows, start, q.key), From(rows, q.endTime, q.key), From(rows, serverEnd, q.key);
            && f <= hi <= b <= |rows|
            && q.fetch(n, start, q.endTime) == rows[f..Min(f + q.pageLimit, b)]
            && (HitsEnd(q, rows[f..Min(f + q.pageLimit, b)]) <==> hi < Min(f + q.pageLimit, b))
  {
    FromMonotone(rows, start, q.endTime, q.key);
    FromMonotone(rows, q.endTime, serverEnd, q.key);
    FromSplits(rows, q.endTime, q.key);
    var f, hi, b := From(rows, start, q.key), From(rows, q.endTime, q.key), From(rows, serverEnd, q.key);
    var e := Min(f + q.pageLimit, b);
    if hi < e {
      assert rows[f..e][hi - f] == rows[hi];
    }
  }

  /** The boundary set of the page f..e names exactly the rows of its last timestamp. */
  lemma {:induction false} BoundaryNames<T, I>(q: Query<T, I>, rows: seq<T>, f: nat, e: nat)
    requires SortedBy(rows, q.key) && f < e <= |rows|
    requires f <= From(rows, q.key(rows[e - 1]), q.key)
    ensures var w := NextWindow(q, rows[f..e]);
            var g := From(rows, w.start, q.key);
            && g < e && w.start == q.key(rows[e - 1])
            && BoundaryIs(q, w, rows, g, e)
  {
    var page := rows[f..e];
    var w := NextWindow(q, page);
    var g := From(rows, w.start, q.key);
    assert page[|page| - 1] == rows[e - 1];
    FromSplits(rows, w.start, q.key);
    forall k | g <= k < e ensures IsBoundary(q, w, rows[k]) {
      assert page[k - f] == rows[k];
    }
    forall id | id in w.boundaryIds ensures exists k :: g <= k < e && q.identity(rows[k]) == id {
      var k :| 0 <= k < |page| && q.key(page[k]) == w.start && q.identity(page[k]) == id;
      assert rows[f + k] == page[k] && g <= f + k;
    }
  }

  // ----- the whole iteration -----

  /** A fetch after which fewer than a page of wanted rows is left, or that does not move the
      window, is the last one. */
  lemma {:induction false} LastPage<T(!new), I(!new)>(q: Query<T, I>, w: Window<I>, rows: seq<T>, serverEnd: int, n: nat, e: nat)
    requires Serves(q, rows, serverEnd) && w.start < q.endTime
    requires var f := From(rows, w.start, q.key); e == Min(f + q.pageLimit, From(rows, serverEnd, q.key)) && f <= e
    requires var f, hi := From(rows, w.start, q.key), From(rows, q.endTime, q.key);
             f + q.pageLimit <= hi ==> q.key(rows[f + q.pageLimit - 1]) <= w.start
    ensures q.fetch(n, w.start, q.endTime) == rows[From(rows, w.start, q.key)..e]
    ensures IsLast(q, w.start, rows[From(rows, w.start, q.key)..e])
  {
    FetchedSlice(q, rows, serverEnd, n, w.start);
  }

  /** The last fetch yields the rows from p to the end of the page or of the wanted rows. */
  lemma {:induction false} LastFetch<T(!new), I(!new)>(q: Query<T, I>, w: Window<I>, rows: seq<T>, serverEnd: int, n: nat,
                                                       f: nat, hi: nat, p: nat)
    requires Serves(q, rows, serverEnd) && Midway(q, w, rows, f, hi, p)
    requires f + q.pageLimit <= hi ==> q.key(rows[f + q.pageLimit - 1]) <= w.start
    ensures p <= Max(p, Min(f + q.pageLimit, hi)) <= |rows|
    ensures Iterate(q, n, w).rows == rows[p..Max(p, Min(f + q.pageLimit, hi))]
  {
    FromMonotone(rows, q.endTime, serverEnd, q.key);
    var e := Min(f + q.pageLimit, From(rows, serverEnd, q.key));
    LastPage(q, w, rows, serverEnd, n, e);
    StopsAt(q, n, w, rows[f..e]);
    UnseenFrom(q, w, rows, serverEnd, f, hi, p, e);
    assert Max(p, Min(e, hi)) == Max(p, Min(f + q.pageLimit, hi));
  }

  /** An earlier fetch yields the rows from p to the end of the page, and the iteration goes on. */
  lemma {:induction false} EarlierFetch<T(!new), I(!new)>(q: Query<T, I>, w: Window<I>, rows: seq<T>, serverEnd: int, n: nat,
                                                          f: nat, hi: nat, p: nat)
    requires Serves(q, rows, serverEnd) && Midway(q, w, rows, f, hi, p)
    requires f + q.pageLimit <= hi && q.key(rows[f + q.pageLimit - 1]) > w.start
    ensures Iterate(q, n, w).rows
            == rows[p..f + q.pageLimit] + Iterate(q, n + 1, NextWindow(q, rows[f..f + q.pageLimit])).rows
  {
    FetchedSlice(q, rows, serverEnd, n, w.start);
    UnseenFrom(q, w, rows, serverEnd, f, hi, p, f + q.pageLimit);
    GoesOnAfter(q, n, w, rows[f..f + q.pageLimit]);
  }

  /** From what the rest of the iteration yields to what all of it yields. */
  lemma {:induction false} SliceJoin<T>(rows: seq<T>, p: nat, e: nat, r: nat, rest: seq<T>, whole: seq<T>)
    requires p <= e <= r <= |rows| && rest == rows[e..r] && whole == rows[p..e] + rest
    ensures whole == rows[p..r]
  {
  }

  /** After a full page f..e that moves the window, the generator is midway again. */
  lemma {:induction false} MidwayAgain<T(!new), I(!new)>(q: Query<T, I>, rows: seq<T>, f: nat, e: nat, g: nat, hi: nat)
    requires SortedBy(rows, q.key) && f < e <= hi == From(rows, q.endTime, q.key) && e - f == q.pageLimit
    requires g == From(rows, q.key(rows[e - 1]), q.key) && f <= g && q.key(rows[e - 1]) < q.endTime
    ensures Midway(q, NextWindow(q, rows[f..e]), rows, g, hi, e)
    ensures NextWindow(q, rows[f..e]).start == q.key(rows[e - 1])
  {
    BoundaryNames(q, rows, f, e);
  }

  lemma {:induction false} IterateYields<T(!new), I(!new)>(q: Query<T, I>, w: Window<I>, rows: seq<T>, serverEnd: int, n: nat,
                                                           f: nat, hi: nat, p: nat)
    requires Serves(q, rows, serverEnd) && Midway(q, w, rows, f, hi, p)
    ensures p <= Max(p, Reach(rows, q.pageLimit, q.key, f, hi)) <= |rows|
    ensures Iterate(q, n, w).rows == rows[p..Max(p, Reach(rows, q.pageLimit, q.key, f, hi))]
    decreases q.endTime - w.start
  {
    var e := f + q.pageLimit;
    if e <= hi && q.key(rows[e - 1]) > w.start {
      var next := NextWindow(q, rows[f..e]);
      ReachFromNext(rows, q.pageLimit, w.start, q.endTime, q.key);
      var g := From(rows, q.key(rows[e - 1]), q.key);
      MidwayAgain(q, rows, f, e, g, hi);
      IterateYields(q, next, rows, serverEnd, n + 1, g, hi, e);
      EarlierFetch(q, w, rows, serverEnd, n, f, hi, p);
      SliceJoin(rows, p, e, Reach(rows, q.pageLimit, q.key, f, hi), Iterate(q, n + 1, next).rows, Iterate(q, n, w).rows);
    } else {
      LastReach(q, w, rows, f, hi);
      LastFetch(q, w, rows, serverEnd, n, f, hi, p);
    }
  }

  lemma {:induction false} LastReach<T, I>(q: Query<T, I>, w: Window<I>, rows: seq<T>, f: nat, hi: nat)
    requires SortedBy(rows, q.key) && q.pageLimit > 0 && f <= hi
    requires f == From(rows, w.start, q.key) && hi == From(rows, q.endTime, q.key)
    requires f + q.pageLimit <= hi ==> q.key(rows[f + q.pageLimit - 1]) <= w.start
    ensures Reach(rows, q.pageLimit, q.key, f, hi) == Min(f + q.pageLimit, hi)
  {
    if f + q.pageLimit > hi {
      LastPageReaches(rows, f, hi, q.pageLimit, q.key);
    } else {
      ReachFromNext(rows, q.pageLimit, w.start, q.endTime, q.key);
    }
  }

  /** What the generator yields from a start time. */
  function Yielded<T, I(==)>(q: Query<T, I>, startTime: int): seq<T> {
    Iterate(q, 0, Window(startTime, None, {})).rows
  }

  /** Over a fixed sorted list the rows yielded are exactly the wanted rows, start <= time < end, in
      order, up to the end of the first page filled by a single timestamp. */
  lemma {:induction false} YieldsUpToFirstStall<T(!new), I(!new)>(q: Query<T, I>, rows: seq<T>, serverEnd: int, startTime: int)
    requires Serves(q, rows, serverEnd) && startTime < q.endTime
    ensures From(rows, startTime, q.key) <= From(rows, q.endTime, q.key)
    ensures var lo, hi := From(rows, startTime, q.key), From(rows, q.endTime, q.key);
            Yielded(q, startTime) == rows[lo..Reach(rows, q.pageLimit, q.key, lo, hi)]
  {
    var lo, hi := From(rows, startTime, q.key), From(rows, q.endTime, q.key);
    FromMonotone(rows, startTime, q.endTime, q.key);
    var w: Window<I> := Window(startTime, None, {});
    IterateYields(q, w, rows, serverEnd, 0, lo, hi, lo);
  }

  /** The wanted rows, by their definition. */
  function Wanted<T>(rows: seq<T>, startTime: int, endTime: int, key: T -> int): seq<T> {
    if rows == [] then []
    else
      var init := Wanted(rows[..|rows| - 1], startTime, endTime, key);
      if startTime <= key(rows[|rows| - 1]) < endTime then init + [rows[|rows| - 1]] else init
  }

  lemma {:induction false} WantedIsSlice<T>(rows: seq<T>, startTime: int, endTime: int, key: T -> int, n: nat)
    requires SortedBy(rows, key) && startTime < endTime && n <= |rows|
    requires From(rows, startTime, key) <= From(rows, endTime, key)
    ensures var lo, hi := From(rows, startTime, key), From(rows, endTime, key);
            Wanted(rows[..n], startTime, endTime, key) == if lo <= Min(n, hi) then rows[lo..Min(n, hi)] else []
  {
    FromSplits(rows, startTime, key);
    FromSplits(rows, endTime, key);
    if n > 0 {
      assert rows[..n][..n - 1] == rows[..n - 1];
      WantedIsSlice(rows, startTime, endTime, key, n - 1);
    }
  }

  lemma {:induction false} WantedIsRange<T>(rows: seq<T>, startTime: int, endTime: int, key: T -> int)
    requires SortedBy(rows, key) && startTime < endTime
    ensures From(rows, startTime, key) <= From(rows, endTime, key)
    ensures Wanted(rows, startTime, endTime, key) == rows[From(rows, startTime, key)..From(rows, endTime, key)]
  {
    FromMonotone(rows, startTime, endTime, key);
    WantedIsSlice(rows, startTime, endTime, key, |rows|);
    assert rows[..|rows|] == rows;
  }

  lemma {:induction false} NothingWanted<T>(rows: seq<T>, startTime: int, endTime: int, key: T -> int)
    requires startTime >= endTime
    ensures Wanted(rows, startTime, endTime, key) == []
  {
    if rows != [] {
      NothingWanted(rows[..|rows| - 1], startTime, endTime, key);
    }
  }

  /** The yielded rows are always a prefix of the wanted rows. */
  lemma {:induction false} YieldsPrefixOfWanted<T(!new), I(!new)>(q: Query<T, I>, rows: seq<T>, serverEnd: int, startTime: int)
    requires Serves(q, rows, serverEnd)
    ensures Yielded(q, startTime) <= Wanted(rows, startTime, q.endTime, q.key)
  {
    if startTime < q.endTime {
      YieldsUpToFirstStall(q, rows, serverEnd, startTime);
      WantedIsRange(rows, startTime, q.endTime, q.key);
    }
  }

  lemma {:induction false} SliceIdentified<T, I>(rows: seq<T>, lo: nat, r: nat, key: T -> int, identity: T -> I)
    requires Identified(rows, key, identity) && lo <= r <= |rows|
    ensures Identified(rows[lo..r], key, identity)
  {
  }

  /** No row is yielded twice: two yielded rows of one time differ in identity. */
  lemma {:induction false} YieldsEachRowOnce<T(!new), I(!new)>(q: Query<T, I>, rows: seq<T>, serverEnd: int, startTime: int)
    requires Serves(q, rows, serverEnd)
    ensures Identified(Yielded(q, startTime), q.key, q.identity)
  {
    if startTime < q.endTime {
      YieldsUpToFirstStall(q, rows, serverEnd, startTime);
      var lo, hi := From(rows, startTime, q.key), From(rows, q.endTime, q.key);
      SliceIdentified(rows, lo, Reach(rows, q.pageLimit, q.key, lo, hi), q.key, q.identity);
    }
  }

  /** All the wanted rows are yielded exactly when no timestamp fills a page with wanted rows left
      beyond that page. */
  lemma {:induction false} CompleteIffNoEarlyStall<T(!new), I(!new)>(q: Query<T, I>, rows: seq<T>, serverEnd: int, startTime: int)
    requires Serves(q, rows, serverEnd) && startTime < q.endTime
    ensures var lo, hi := From(rows, startTime, q.key), From(rows, q.endTime, q.key);
            Yielded(q, startTime) == Wanted(rows, startTime, q.endTime, q.key)
            <==> forall k :: lo <= k < hi && Stalls(rows, q.pageLimit, q.key, k) ==> k + q.pageLimit >= hi
  {
    var lo, hi := From(rows, startTime, q.key), From(rows, q.endTime, q.key);
    YieldsUpToFirstStall(q, rows, serverEnd, startTime);
    WantedIsRange(rows, startTime, q.endTime, q.key);
    assert |rows[lo..Reach(rows, q.pageLimit, q.key, lo, hi)]| == Reach(rows, q.pageLimit, q.key, lo, hi) - lo;
    ReachAllIff(rows, q.pageLimit, q.key, lo, hi);
  }

  /** In particular when every timestamp has fewer rows than a page. */
  lemma {:induction false} CompleteWhenTimestampsAreSmall<T(!new), I(!new)>(q: Query<T, I>, rows: seq<T>, serverEnd: int, startTime: int)
    requires Serves(q, rows, serverEnd)
    requires forall i :: 0 <= i && i + q.pageLimit <= |rows| ==> q.key(rows[i]) != q.key(rows[i + q.pageLimit - 1])
    ensures Yielded(q, startTime) == Wanted(rows, startTime, q.endTime, q.key)
  {
    if startTime < q.endTime {
      assert forall k :: 0 <= k ==> !Stalls(rows, q.pageLimit, q.key, k);
      CompleteIffNoEarlyStall(q, rows, serverEnd, startTime);
    } else {
      NothingWanted(rows, startTime, q.endTime, q.key);
    }
  }

  /** A query for times 0 and 1 with pages of two, answered from the given rows; rows 0 and 1 are at
      time 0, the others at time 1. */
  function PairedTimes(): int -> int { (row: int) => if row < 2 then 0 else 1 }

  function PairedQuery(rows: seq<int>): Query<int, int> {
    Query((n: nat, start: int, end: int) => PageOf(rows, start, 2, 2, PairedTimes()), 2, 2, PairedTimes(), (row: int) => row)
  }

  lemma {:induction false} PairedServes(rows: seq<int>)
    requires rows == [0, 1, 2]
    ensures Serves(PairedQuery(rows), rows, 2)
    ensures From(rows, 0, PairedTimes()) == 0 && From(rows, 2, PairedTimes()) == 3
  {
    var key := PairedTimes();
    assert key(rows[0]) == 0 && key(rows[1]) == 0 && key(rows[2]) == 1;
    FromSplits(rows, 0, key);
    FromSplits(rows, 2, key);
  }

  lemma {:induction false} PairedReach(rows: seq<int>)
    requires rows == [0, 1, 2]
    ensures Reach(rows, 2, PairedTimes(), 0, 3) == 2
  {
    var key := PairedTimes();
    assert key(rows[0]) == 0 && key(rows[1]) == 0;
    assert Stalls(rows, 2, key, 0);
  }

  /** A timestamp that fills a page does lose rows: the last row is wanted and never comes. */
  lemma {:induction false} FullTimestampLosesRows(rows: seq<int>)
    requires rows == [0, 1, 2]
    ensures Serves(PairedQuery(rows), rows, 2)
    ensures Wanted(rows, 0, 2, PairedTimes()) == rows
    ensures Yielded(PairedQuery(rows), 0) == [0, 1]
  {
    PairedServes(rows);
    PairedReach(rows);
    YieldsUpToFirstStall(PairedQuery(rows), rows, 2, 0);
    WantedIsRange(rows, 0, 2, PairedTimes());
    assert rows[0..3] == rows && rows[0..2] == [0, 1];
  }
}
