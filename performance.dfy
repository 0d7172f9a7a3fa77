/** The performance panel (src/components/QueryPerformance.tsx): the three orders of the
    stats table, the fastest query, the totals and the speed colour of an entry. */
module Performance {
  import opened Text
  import opened Actions
  import opened Page

  datatype SortKey = ByTime | BySpeed | ByResults

  /** The comparator handed to `sort`: negative when `a` goes before `b`. */
  function Compare(key: SortKey, a: QueryStat, b: QueryStat): int {
    match key
    case BySpeed => a.executionTime - b.executionTime
    case ByResults => b.resultCount - a.resultCount
    case ByTime => b.timestamp - a.timestamp
  }

  /** The number each order sorts ascending by: the time taken, or the negated count or
      timestamp, since those two orders put the largest first. */
  function Rank(key: SortKey, s: QueryStat): int {
    match key
    case BySpeed => s.executionTime
    case ByResults => -(s.resultCount as int)
    case ByTime => -s.timestamp
  }

  /** Each comparator is the difference of ranks, so it is a consistent total preorder. */
  lemma CompareIsRankDifference(key: SortKey, a: QueryStat, b: QueryStat)
    ensures Compare(key, a, b) == Rank(key, a) - Rank(key, b)
  {
  }

  /** `x` put into the ordered `sorted` after every entry that does not compare greater. */
  function Insert(key: SortKey, x: QueryStat, sorted: seq<QueryStat>): (r: seq<QueryStat>)
    ensures multiset(r) == multiset(sorted) + multiset{x}
    decreases |sorted|
  {
    if sorted == [] then [x]
    else if Compare(key, x, sorted[0]) < 0 then [x] + sorted
    else
      assert sorted == [sorted[0]] + sorted[1..];
      [sorted[0]] + Insert(key, x, sorted[1..])
  }

  /** `[...queryStats].sort(comparator)`: a stable sort of a copy, as `Array.prototype.sort`
      is required to be. It takes the entries in list order and inserts each after those
      already placed that compare equal. */
  function Sorted(key: SortKey, stats: seq<QueryStat>): (r: seq<QueryStat>)
    decreases |stats|
  {
    if stats == [] then []
    else Insert(key, stats[|stats| - 1], Sorted(key, stats[..|stats| - 1]))
  }

  predicate Ordered(key: SortKey, xs: seq<QueryStat>) {
    forall i, j :: 0 <= i < j < |xs| ==> Rank(key, xs[i]) <= Rank(key, xs[j])
  }

  /** No entry ranks below `low`. */
  predicate AtLeast(key: SortKey, xs: seq<QueryStat>, low: int) {
    forall k :: 0 <= k < |xs| ==> low <= Rank(key, xs[k])
  }

  lemma OrderedTail(key: SortKey, sorted: seq<QueryStat>)
    requires sorted != [] && Ordered(key, sorted)
    ensures Ordered(key, sorted[1..]) && AtLeast(key, sorted[1..], Rank(key, sorted[0]))
  {
    forall i, j | 0 <= i < j < |sorted[1..]| ensures Rank(key, sorted[1..][i]) <= Rank(key, sorted[1..][j]) {
      assert sorted[1..][i] == sorted[i + 1] && sorted[1..][j] == sorted[j + 1];
    }
    forall k | 0 <= k < |sorted[1..]| ensures Rank(key, sorted[0]) <= Rank(key, sorted[1..][k]) {
      assert sorted[1..][k] == sorted[k + 1];
    }
  }

  lemma {:induction false} InsertAtLeast(key: SortKey, x: QueryStat, sorted: seq<QueryStat>, low: int)
    requires AtLeast(key, sorted, low) && low <= Rank(key, x)
    ensures AtLeast(key, Insert(key, x, sorted), low)
    decreases |sorted|
  {
    if sorted != [] && Compare(key, x, sorted[0]) >= 0 {
      assert AtLeast(key, sorted[1..], low) by {
        forall k | 0 <= k < |sorted[1..]| ensures low <= Rank(key, sorted[1..][k]) {
          assert sorted[1..][k] == sorted[k + 1];
        }
      }
      InsertAtLeast(key, x, sorted[1..], low);
    }
  }

  lemma {:induction false} InsertOrdered(key: SortKey, x: QueryStat, sorted: seq<QueryStat>)
    requires Ordered(key, sorted)
    ensures Ordered(key, Insert(key, x, sorted))
    decreases |sorted|
  {
    if sorted != [] {
      if Compare(key, x, sorted[0]) < 0 {
        assert AtLeast(key, sorted, Rank(key, x));
      } else {
        OrderedTail(key, sorted);
        InsertOrdered(key, x, sorted[1..]);
        InsertAtLeast(key, x, sorted[1..], Rank(key, sorted[0]));
      }
    }
  }

  /** The sorted copy holds exactly the entries of the stats, each as often. */
  lemma {:induction false} SortedIsPermutation(key: SortKey, stats: seq<QueryStat>)
    ensures multiset(Sorted(key, stats)) == multiset(stats)
    decreases |stats|
  {
    if stats != [] {
      var n := |stats| - 1;
      SortedIsPermutation(key, stats[..n]);
      assert stats == stats[..n] + [stats[n]];
    }
  }

  lemma {:induction false} SortedIsOrdered(key: SortKey, stats: seq<QueryStat>)
    ensures Ordered(key, Sorted(key, stats))
    decreases |stats|
  {
    if stats != [] {
      var n := |stats| - 1;
      SortedIsOrdered(key, stats[..n]);
      InsertOrdered(key, stats[n], Sorted(key, stats[..n]));
    }
  }

  /** `'speed'`: fastest first. */
  lemma BySpeedAscending(stats: seq<QueryStat>)
    ensures var r := Sorted(BySpeed, stats);
            forall i, j :: 0 <= i < j < |r| ==> r[i].executionTime <= r[j].executionTime
  {
    SortedIsOrdered(BySpeed, stats);
  }

  /** `'results'`: the largest result first. */
  lemma ByResultsDescending(stats: seq<QueryStat>)
    ensures var r := Sorted(ByResults, stats);
            forall i, j :: 0 <= i < j < |r| ==> r[i].resultCount >= r[j].resultCount
  {
    SortedIsOrdered(ByResults, stats);
  }

  /** `'time'`, the default: the latest first. */
  lemma ByTimeDescending(stats: seq<QueryStat>)
    ensures var r := Sorted(ByTime, stats);
            forall i, j :: 0 <= i < j < |r| ==> r[i].timestamp >= r[j].timestamp
  {
    SortedIsOrdered(ByTime, stats);
  }

  /** The entries that tie with `y` under `key`. */
  function Ties(key: SortKey, y: QueryStat): QueryStat -> bool {
    (x: QueryStat) => Rank(key, x) == Rank(key, y)
  }

  /** An entry put in front of an ordered list it ranks strictly below ties with none of it
      whenever it ties with `y`. */
  lemma FrontTies(key: SortKey, x: QueryStat, sorted: seq<QueryStat>, y: QueryStat)
    requires Ordered(key, sorted) && sorted != [] && Rank(key, x) < Rank(key, sorted[0])
    ensures Filter(Ties(key, y), [x] + sorted) == Filter(Ties(key, y), sorted) + Filter(Ties(key, y), [x])
  {
    var p := Ties(key, y);
    FilterAppend(p, [x], sorted);
    if p(x) {
      assert forall k :: 0 <= k < |sorted| ==> !p(sorted[k]);
      FilterNone(p, sorted);
    }
  }

  lemma {:induction false} InsertKeepsTies(key: SortKey, x: QueryStat, sorted: seq<QueryStat>, y: QueryStat)
    requires Ordered(key, sorted)
    ensures Filter(Ties(key, y), Insert(key, x, sorted)) == Filter(Ties(key, y), sorted) + Filter(Ties(key, y), [x])
    decreases |sorted|
  {
    var p := Ties(key, y);
    if sorted != [] {
      CompareIsRankDifference(key, x, sorted[0]);
    }
    if sorted == [] {
      assert Insert(key, x, sorted) == [x];
    } else if Compare(key, x, sorted[0]) < 0 {
      assert Insert(key, x, sorted) == [x] + sorted;
      FrontTies(key, x, sorted, y);
    } else {
      var rest := Insert(key, x, sorted[1..]);
      OrderedTail(key, sorted);
      InsertKeepsTies(key, x, sorted[1..], y);
      var a, b, c := Filter(p, [sorted[0]]), Filter(p, sorted[1..]), Filter(p, [x]);
      assert Insert(key, x, sorted) == [sorted[0]] + rest;
      FilterAppend(p, [sorted[0]], rest);
      assert Filter(p, rest) == b + c;
      assert sorted == [sorted[0]] + sorted[1..];
      FilterAppend(p, [sorted[0]], sorted[1..]);
      assert a + (b + c) == (a + b) + c;
    }
  }

  /** Stability: entries that tie keep their order in the list. */
  lemma {:induction false} SortedIsStable(key: SortKey, stats: seq<QueryStat>, y: QueryStat)
    ensures Filter(Ties(key, y), Sorted(key, stats)) == Filter(Ties(key, y), stats)
    decreases |stats|
  {
    if stats != [] {
      var n := |stats| - 1;
      SortedIsStable(key, stats[..n], y);
      SortedIsOrdered(key, stats[..n]);
      InsertKeepsTies(key, stats[n], Sorted(key, stats[..n]), y);
      FilterAppend(Ties(key, y), stats[..n], [stats[n]]);
      assert stats == stats[..n] + [stats[n]];
    }
  }

  /** The reducer: the current entry replaces the best so far only when strictly faster. */
  function Faster(fastest: QueryStat, current: QueryStat): QueryStat {
    if current.executionTime < fastest.executionTime then current else fastest
  }

  function Reduce(fastest: QueryStat, stats: seq<QueryStat>): QueryStat
    decreases |stats|
  {
    if stats == [] then fastest else Reduce(Faster(fastest, stats[0]), stats[1..])
  }

  /** `fastestQuery`: none for an empty list, where the source reduces to a placeholder of
      time 0. */
  function Fastest(stats: seq<QueryStat>): Option<QueryStat> {
    if stats == [] then None else Some(Reduce(stats[0], stats))
  }

  /** The time the panel shows as the fastest. */
  function FastestTime(stats: seq<QueryStat>): (t: int)
    ensures stats == [] ==> t == 0
  {
    match Fastest(stats)
    case None => 0
    case Some(s) => s.executionTime
  }

  /** `stats[k]` is strictly faster than `fastest`, and the first entry that is at least as
      fast as `stats[k]`. */
  predicate FirstFaster(stats: seq<QueryStat>, k: int, fastest: QueryStat) {
    && 0 <= k < |stats| && stats[k].executionTime < fastest.executionTime
    && forall j :: 0 <= j < k ==> stats[j].executionTime > stats[k].executionTime
  }

  /** Left to right with a strict `<`: the result is the start value unless a later entry is
      strictly faster, in which case it is the first entry of the least time. */
  lemma {:induction false} ReduceIsFirstMinimum(fastest: QueryStat, stats: seq<QueryStat>)
    ensures var r := Reduce(fastest, stats);
            && r.executionTime <= fastest.executionTime
            && (forall j :: 0 <= j < |stats| ==> r.executionTime <= stats[j].executionTime)
            && (r == fastest || exists k :: FirstFaster(stats, k, fastest) && r == stats[k])
    decreases |stats|
  {
    if stats != [] {
      var next := Faster(fastest, stats[0]);
      var tail := stats[1..];
      ReduceIsFirstMinimum(next, tail);
      var r := Reduce(fastest, stats);
      assert r == Reduce(next, tail);
      forall j | 0 <= j < |stats| ensures r.executionTime <= stats[j].executionTime {
        if j > 0 {
          assert stats[j] == tail[j - 1];
        }
      }
      if r != fastest {
        if r == next {
          assert r == stats[0];
        } else {
          var k :| FirstFaster(tail, k, next) && r == tail[k];
          assert r == stats[k + 1];
          forall j | 0 <= j < k + 1 ensures stats[j].executionTime > r.executionTime {
            if j > 0 {
              assert stats[j] == tail[j - 1];
            }
          }
          assert FirstFaster(stats, k + 1, fastest);
        }
      }
    }
  }

  /** The fastest entry is one of least time, and the first such in the list. */
  lemma FastestIsFirstMinimum(stats: seq<QueryStat>)
    requires stats != []
    ensures var r := Fastest(stats).value;
            exists k :: (0 <= k < |stats| && r == stats[k]
                         && (forall j :: 0 <= j < |stats| ==> r.executionTime <= stats[j].executionTime)
                         && (forall j :: 0 <= j < k ==> stats[j].executionTime > r.executionTime))
  {
    ReduceIsFirstMinimum(stats[0], stats);
  }

  /** `totalQueries`. */
  function TotalQueries(stats: seq<QueryStat>): (n: nat)
    ensures n == |stats|
  {
    |stats|
  }

  /** The "Total Queries" card shows the number of rows of the stats table, under every order. */
  lemma TotalIsTableRows(key: SortKey, stats: seq<QueryStat>)
    ensures TotalQueries(stats) == |Sorted(key, stats)|
  {
    SortedIsPermutation(key, stats);
    assert |multiset(Sorted(key, stats))| == |multiset(stats)|;
  }

  function TotalTime(stats: seq<QueryStat>): int
    decreases |stats|
  {
    if stats == [] then 0 else stats[0].executionTime + TotalTime(stats[1..])
  }

  /** `avgExecutionTime`, in exact arithmetic: 0 for an empty list. */
  function AverageTime(stats: seq<QueryStat>): (a: real)
    ensures stats == [] ==> a == 0.0
  {
    if stats == [] then 0.0 else TotalTime(stats) as real / |stats| as real
  }

  lemma {:induction false} TotalAtLeast(stats: seq<QueryStat>, low: int)
    requires forall j :: 0 <= j < |stats| ==> low <= stats[j].executionTime
    ensures TotalTime(stats) >= |stats| * low
    decreases |stats|
  {
    if stats != [] {
      assert forall j :: 0 <= j < |stats[1..]| ==> stats[1..][j] == stats[j + 1];
      TotalAtLeast(stats[1..], low);
    }
  }

  /** The fastest time shown is never above the average. */
  lemma FastestNotAboveAverage(stats: seq<QueryStat>)
    ensures FastestTime(stats) as real <= AverageTime(stats)
  {
    if stats != [] {
      FastestIsFirstMinimum(stats);
      var low := FastestTime(stats);
      TotalAtLeast(stats, low);
      var n := |stats| as real;
      assert TotalTime(stats) as real >= n * low as real;
      assert (TotalTime(stats) as real) / n >= low as real;
    }
  }

  /** The colour of an entry's time: green below one second, yellow below three. */
  datatype Band = Green | Yellow | Red

  function BandOf(executionTime: int): (b: Band)
    ensures b == Green <==> executionTime < 1000
    ensures b == Yellow <==> 1000 <= executionTime < 3000
    ensures b == Red <==> 3000 <= executionTime
  {
    if executionTime < 1000 then Green else if executionTime < 3000 then Yellow else Red
  }

  function Severity(b: Band): nat {
    match b
    case Green => 0
    case Yellow => 1
    case Red => 2
  }

  /** A slower entry never gets a milder colour. */
  lemma BandMonotone(t: int, u: int)
    requires t <= u
    ensures Severity(BandOf(t)) <= Severity(BandOf(u))
  {
  }
}
