/** Sorting, nearest-rank percentiles and the median, over exact reals (internal/analyze/analyze.go). */
module OrderStats {

  function Insert(x: real, s: seq<real>): seq<real> {
    if s == [] || x <= s[0] then [x] + s else [s[0]] + Insert(x, s[1..])
  }

  /** sort.Float64s on a copy. */
  function Sort(xs: seq<real>): seq<real> {
    if xs == [] then [] else Insert(xs[0], Sort(xs[1..]))
  }

  ghost predicate Ascending(s: seq<real>) {
    forall i, j | 0 <= i <= j < |s| :: s[i] <= s[j]
  }

  lemma {:induction false} InsertPermutes(x: real, s: seq<real>)
    ensures multiset(Insert(x, s)) == multiset(s) + multiset{x} && |Insert(x, s)| == |s| + 1
  {
    if s != [] && x > s[0] {
      InsertPermutes(x, s[1..]);
      assert s == [s[0]] + s[1..];
    }
  }

  lemma {:induction false} InsertBounded(x: real, s: seq<real>, lo: real)
    requires lo <= x && forall i | 0 <= i < |s| :: lo <= s[i]
    ensures forall i | 0 <= i < |Insert(x, s)| :: lo <= Insert(x, s)[i]
  {
    if s != [] && x > s[0] {
      InsertBounded(x, s[1..], lo);
    }
  }

  lemma {:induction false} InsertAscending(x: real, s: seq<real>)
    requires Ascending(s)
    ensures Ascending(Insert(x, s))
  {
    if s != [] && x > s[0] {
      InsertAscending(x, s[1..]);
      InsertBounded(x, s[1..], s[0]);
    }
  }

  /** The sort really sorts: ascending, and the same elements as often. */
  lemma {:induction false} SortSorts(xs: seq<real>)
    ensures Ascending(Sort(xs)) && multiset(Sort(xs)) == multiset(xs) && |Sort(xs)| == |xs|
  {
    if xs != [] {
      SortSorts(xs[1..]);
      InsertAscending(xs[0], Sort(xs[1..]));
      InsertPermutes(xs[0], Sort(xs[1..]));
      assert xs == [xs[0]] + xs[1..];
    }
  }

  // ----- counting

  function CountLE(xs: seq<real>, v: real): nat {
    if xs == [] then 0 else (if xs[0] <= v then 1 else 0) + CountLE(xs[1..], v)
  }

  function CountGE(xs: seq<real>, v: real): nat {
    if xs == [] then 0 else (if xs[0] >= v then 1 else 0) + CountGE(xs[1..], v)
  }

  /** They count positions. */
  lemma {:induction false} CountsMean(xs: seq<real>, v: real)
    ensures CountLE(xs, v) == |set i: nat | i < |xs| && xs[i] <= v|
    ensures CountGE(xs, v) == |set i: nat | i < |xs| && xs[i] >= v|
  {
    if xs != [] {
      var rest := xs[1..];
      CountsMean(rest, v);
      assert forall i: nat | i < |rest| :: rest[i] == xs[i + 1];
      ShiftSize((set i: nat | i < |rest| && rest[i] <= v), (set i: nat | i < |xs| && xs[i] <= v), xs[0] <= v);
      ShiftSize((set i: nat | i < |rest| && rest[i] >= v), (set i: nat | i < |xs| && xs[i] >= v), xs[0] >= v);
    }
  }

  /** `b` is `a` one further up, and 0 too if `first`. */
  lemma {:induction false} ShiftSize(a: set<nat>, b: set<nat>, first: bool)
    requires (0 in b <==> first) && (forall i | i in a :: i + 1 in b) && (forall i | i in b && i > 0 :: i - 1 in a)
    ensures |b| == |a| + (if first then 1 else 0)
  {
    if a != {} {
      var i :| i in a;
      ShiftSize(a - {i}, b - {i + 1}, first);
    } else if first {
      assert b == {0};
    } else {
      assert b == {};
    }
  }

  lemma {:induction false} CountInsert(x: real, s: seq<real>, v: real)
    ensures CountLE(Insert(x, s), v) == CountLE(s, v) + (if x <= v then 1 else 0)
    ensures CountGE(Insert(x, s), v) == CountGE(s, v) + (if x >= v then 1 else 0)
  {
    if s == [] || x <= s[0] {
      assert ([x] + s)[1..] == s;
    } else {
      CountInsert(x, s[1..], v);
      assert ([s[0]] + Insert(x, s[1..]))[1..] == Insert(x, s[1..]);
    }
  }

  lemma {:induction false} CountSort(xs: seq<real>, v: real)
    ensures CountLE(Sort(xs), v) == CountLE(xs, v) && CountGE(Sort(xs), v) == CountGE(xs, v)
  {
    if xs != [] {
      CountSort(xs[1..], v);
      CountInsert(xs[0], Sort(xs[1..]), v);
    }
  }

  /** In an ascending sequence, position k is at most v exactly when more than k elements are. */
  lemma {:induction false} RankLE(s: seq<real>, k: nat, v: real)
    requires Ascending(s) && k < |s|
    ensures s[k] <= v <==> CountLE(s, v) > k
  {
    if s[0] > v {
      NoneLE(s, v);
    } else if k > 0 {
      RankLE(s[1..], k - 1, v);
    }
  }

  lemma {:induction false} NoneLE(s: seq<real>, v: real)
    requires forall i | 0 <= i < |s| :: s[i] > v
    ensures CountLE(s, v) == 0
  {
    if s != [] { NoneLE(s[1..], v); }
  }

  lemma {:induction false} TailGE(s: seq<real>, k: nat)
    requires Ascending(s) && k < |s|
    ensures CountGE(s, s[k]) >= |s| - k
  {
    if k == 0 {
      AllGE(s, s[0]);
    } else {
      TailGE(s[1..], k - 1);
    }
  }

  lemma {:induction false} AllGE(s: seq<real>, v: real)
    requires forall i | 0 <= i < |s| :: s[i] >= v
    ensures CountGE(s, v) == |s|
  {
    if s != [] { AllGE(s[1..], v); }
  }

  // ----- order statistics

  /** Nearest rank ceil(p * n / 100), at least 1 and at most n. */
  function RankOf(p: nat, n: nat): (r: nat)
    requires n > 0 && p <= 100
    ensures 1 <= r <= n && (p > 0 ==> 100 * (r - 1) < p * n <= 100 * r)
  {
    ProductMonotone(p, 100, n);
    var idx: int := (p * n + 99) / 100 - 1;
    CeilingBounds(p, n, p * n);
    if idx < 0 then 1 else idx + 1
  }

  function Percentile(xs: seq<real>, p: nat): real
    requires xs != [] && p <= 100
  {
    SortSorts(xs);
    Sort(xs)[RankOf(p, |xs|) - 1]
  }

  /** medianF: the element at index n/2 of the sorted copy, 0 when there is none. */
  function Median(xs: seq<real>): real {
    SortSorts(xs);
    if xs == [] then 0.0 else Sort(xs)[|xs| / 2]
  }

  /** A percentile is a true nearest-rank value: enough samples on each side, and itself a sample. */
  lemma {:induction false} PercentileIsNearestRank(xs: seq<real>, p: nat)
    requires xs != [] && p <= 100
    ensures Percentile(xs, p) in xs
    ensures CountLE(xs, Percentile(xs, p)) >= RankOf(p, |xs|)
    ensures CountGE(xs, Percentile(xs, p)) >= |xs| - RankOf(p, |xs|) + 1
  {
    SortSorts(xs);
    var s, k := Sort(xs), RankOf(p, |xs|) - 1;
    RankLE(s, k, s[k]);
    TailGE(s, k);
    CountSort(xs, s[k]);
    assert s[k] in multiset(s);
  }

  /**
   `v` is the nearest-rank p-th percentile: a sample with at least p percent of the samples at or below it, and
   less than p percent strictly below it.
   */
  ghost predicate NearestRank(xs: seq<real>, p: nat, v: real) {
    v in xs && 100 * CountLE(xs, v) >= p * |xs| && 100 * (|xs| - CountGE(xs, v)) < p * |xs|
  }

  lemma {:induction false} PercentileShares(xs: seq<real>, p: nat)
    requires xs != [] && 0 < p <= 100
    ensures NearestRank(xs, p, Percentile(xs, p))
  {
    PercentileIsNearestRank(xs, p);
  }

  /** medianF takes the upper middle: more than half of the samples at or below it when halved downwards, the rest at or above. */
  lemma {:induction false} MedianIsMiddle(xs: seq<real>)
    ensures xs == [] ==> Median(xs) == 0.0
    ensures xs != [] ==> Median(xs) in xs && CountLE(xs, Median(xs)) > |xs| / 2 && CountGE(xs, Median(xs)) >= |xs| - |xs| / 2
  {
    if xs != [] {
      SortSorts(xs);
      var s, k := Sort(xs), |xs| / 2;
      RankLE(s, k, s[k]);
      TailGE(s, k);
      CountSort(xs, s[k]);
      assert s[k] in multiset(s);
    }
  }

  /** Pointwise domination carries over to every order statistic. */
  lemma {:induction false} DominationSorts(xs: seq<real>, ys: seq<real>, k: nat)
    requires |xs| == |ys| && (forall i | 0 <= i < |xs| :: xs[i] <= ys[i])
    requires k < |Sort(xs)| && k < |Sort(ys)|
    ensures Sort(xs)[k] <= Sort(ys)[k]
  {
    SortSorts(xs);
    SortSorts(ys);
    var v := Sort(ys)[k];
    RankLE(Sort(ys), k, v);
    CountSort(ys, v);
    FewerAbove(xs, ys, v);
    CountSort(xs, v);
    RankLE(Sort(xs), k, v);
  }

  lemma {:induction false} FewerAbove(xs: seq<real>, ys: seq<real>, v: real)
    requires |xs| == |ys| && (forall i | 0 <= i < |xs| :: xs[i] <= ys[i])
    ensures CountLE(xs, v) >= CountLE(ys, v)
  {
    if xs != [] {
      FewerAbove(xs[1..], ys[1..], v);
    }
  }

  lemma {:induction false} MedianMonotone(xs: seq<real>, ys: seq<real>)
    requires |xs| == |ys| && (forall i | 0 <= i < |xs| :: xs[i] <= ys[i])
    ensures Median(xs) <= Median(ys)
  {
    SortSorts(xs);
    SortSorts(ys);
    if xs != [] {
      DominationSorts(xs, ys, |xs| / 2);
    }
  }

  lemma {:induction false} PercentileMonotone(xs: seq<real>, p: nat, q: nat)
    requires xs != [] && p <= q <= 100
    ensures Percentile(xs, p) <= Percentile(xs, q)
  {
    SortSorts(xs);
    RankMonotone(p, q, |xs|);
  }

  lemma {:induction false} RankMonotone(p: nat, q: nat, n: nat)
    requires n > 0 && p <= q <= 100
    ensures RankOf(p, n) <= RankOf(q, n)
  {
    ProductMonotone(p, q, n);
    CeilingMonotone(p * n, q * n);
  }

  lemma ProductMonotone(p: nat, q: nat, n: nat)
    requires p <= q
    ensures p * n <= q * n
  {
  }

  lemma CeilingBounds(p: nat, n: nat, x: nat)
    requires n > 0 && x <= 100 * n && (p > 0 ==> x > 0)
    ensures var idx: int := (x + 99) / 100 - 1; idx < n && (x > 0 ==> 0 <= idx && 100 * idx < x <= 100 * (idx + 1))
  {
  }

  lemma CeilingMonotone(x: nat, y: nat)
    requires x <= y
    ensures (x + 99) / 100 <= (y + 99) / 100
  {
  }

  /** For odd n the median is P50; for even n it is the next order statistic, one place further up. */
  lemma {:induction false} MedianVersusP50(xs: seq<real>)
    requires xs != []
    ensures |xs| % 2 == 1 ==> Median(xs) == Percentile(xs, 50)
    ensures |xs| % 2 == 0 ==> RankOf(50, |xs|) < |Sort(xs)| && Median(xs) == Sort(xs)[RankOf(50, |xs|)] && Percentile(xs, 50) <= Median(xs)
  {
    SortSorts(xs);
  }

  /** Equal multisets sort to the same sequence, so every statistic ignores the order of the samples. */
  lemma {:induction false} SortIgnoresOrder(xs: seq<real>, ys: seq<real>)
    requires multiset(xs) == multiset(ys)
    ensures Sort(xs) == Sort(ys)
  {
    SortSorts(xs);
    SortSorts(ys);
    assert |multiset(xs)| == |xs| && |multiset(ys)| == |ys|;
    AscendingUnique(Sort(xs), Sort(ys));
  }

  lemma {:induction false} AscendingUnique(s: seq<real>, t: seq<real>)
    requires Ascending(s) && Ascending(t) && multiset(s) == multiset(t) && |s| == |t|
    ensures s == t
  {
    if s != [] {
      FirstIsLeast(s, t);
      FirstIsLeast(t, s);
      RestOf(s);
      RestOf(t);
      AscendingUnique(s[1..], t[1..]);
      assert s == [s[0]] + s[1..] && t == [t[0]] + t[1..];
    }
  }

  lemma {:induction false} FirstIsLeast(s: seq<real>, t: seq<real>)
    requires Ascending(s) && s != [] && t != [] && multiset(s) == multiset(t)
    ensures s[0] <= t[0]
  {
    assert t[0] in multiset(t);
    assert t[0] in s;
  }

  lemma {:induction false} RestOf(s: seq<real>)
    requires s != []
    ensures multiset(s[1..]) == multiset(s) - multiset{s[0]}
  {
    assert s == [s[0]] + s[1..];
  }

  // ----- summarize

  /** A five-number summary in milliseconds. */
  datatype LatencyStats = LatencyStats(count: nat, min: real, p50: real, p95: real, p99: real, max: real, mean: real)

  const NO_SAMPLES := LatencyStats(0, 0.0, 0.0, 0.0, 0.0, 0.0, 0.0)

  function Sum(xs: seq<real>): real {
    if xs == [] then 0.0 else Sum(xs[..|xs| - 1]) + xs[|xs| - 1]
  }

  function StatsOf(xs: seq<real>): LatencyStats {
    SortSorts(xs);
    if xs == [] then NO_SAMPLES
    else LatencyStats(|xs|, Sort(xs)[0], Percentile(xs, 50), Percentile(xs, 95), Percentile(xs, 99), Sort(xs)[|xs| - 1],
                      Sum(xs) / |xs| as real)
  }

  /** The samples' sum, added up from the left. */
  method AddUp(xs: seq<real>) returns (sum: real)
    ensures sum == Sum(xs)
  {
    sum := 0.0;
    for i := 0 to |xs|
      invariant sum == Sum(xs[..i])
    {
      assert xs[..i + 1][..i] == xs[..i];
      sum := sum + xs[i];
    }
    assert xs[..|xs|] == xs;
  }

  method Summarize(xs: seq<real>) returns (r: LatencyStats)
    ensures r == StatsOf(xs) && Summarizes(r, xs)
  {
    SummaryMeans(xs);
    if |xs| == 0 {
      return NO_SAMPLES;
    }
    var sorted := Sort(xs);
    SortSorts(xs);
    var sum := AddUp(xs);
    var p50 := Pick(sorted, 50);
    var p95 := Pick(sorted, 95);
    var p99 := Pick(sorted, 99);
    r := LatencyStats(|xs|, sorted[0], p50, p95, p99, sorted[|sorted| - 1], sum / |xs| as real);
  }

  /** The closure `pct`, with its two clamps. */
  method Pick(sorted: seq<real>, p: nat) returns (r: real)
    requires sorted != [] && p <= 100
    ensures r == sorted[RankOf(p, |sorted|) - 1]
  {
    var idx: int := (p * |sorted| + 99) / 100 - 1;
    assert idx + 1 == RankOf(p, |sorted|) || idx < 0;
    if idx < 0 {
      idx := 0;
    }
    if idx >= |sorted| {
      idx := |sorted| - 1;
    }
    r := sorted[idx];
  }

  predicate IsMean(m: real, sum: real, n: nat) { m * n as real == sum }

  /** What the fields of a summary say about the samples. */
  ghost predicate Summarizes(r: LatencyStats, xs: seq<real>) {
    && r.count == |xs| && IsMean(r.mean, Sum(xs), |xs|)
    && if xs == [] then r.min == r.p50 == r.p95 == r.p99 == r.max == r.mean == 0.0
       else
         && NearestRank(xs, 50, r.p50) && NearestRank(xs, 95, r.p95) && NearestRank(xs, 99, r.p99)
         && r.min in xs && r.max in xs && forall i | 0 <= i < |xs| :: r.min <= xs[i] <= r.max
  }

  lemma {:induction false} SummaryMeans(xs: seq<real>)
    ensures Summarizes(StatsOf(xs), xs)
  {
    var r := StatsOf(xs);
    if xs != [] {
      PercentileShares(xs, 50);
      PercentileShares(xs, 95);
      PercentileShares(xs, 99);
      ExtremesBound(xs);
      FieldsSummarize(xs, Sort(xs)[0], Percentile(xs, 50), Percentile(xs, 95), Percentile(xs, 99), Sort(xs)[|xs| - 1], Sum(xs));
    }
  }

  lemma FieldsSummarize(xs: seq<real>, min: real, p50: real, p95: real, p99: real, max: real, sum: real)
    requires xs != [] && NearestRank(xs, 50, p50) && NearestRank(xs, 95, p95) && NearestRank(xs, 99, p99)
    requires min in xs && max in xs && forall i | 0 <= i < |xs| :: min <= xs[i] <= max
    requires sum == Sum(xs)
    ensures Summarizes(LatencyStats(|xs|, min, p50, p95, p99, max, sum / |xs| as real), xs)
  {
    MeanTimesCount(sum, |xs|);
  }

  lemma MeanTimesCount(sum: real, n: nat)
    requires n > 0
    ensures IsMean(sum / n as real, sum, n)
  {
  }

  /** Min and Max are the extreme samples, the percentiles lie between them in order. */
  lemma {:induction false} StatsOrdered(xs: seq<real>)
    ensures var s := StatsOf(xs); s.min <= s.p50 <= s.p95 <= s.p99 <= s.max
    ensures forall i | 0 <= i < |xs| :: StatsOf(xs).min <= xs[i] <= StatsOf(xs).max
    ensures xs != [] ==> StatsOf(xs).min in xs && StatsOf(xs).max in xs
  {
    if xs != [] {
      SortSorts(xs);
      PercentileMonotone(xs, 50, 95);
      PercentileMonotone(xs, 95, 99);
      ExtremesBound(xs);
    }
  }

  lemma {:induction false} ExtremesBound(xs: seq<real>)
    requires xs != []
    ensures |Sort(xs)| == |xs| && Sort(xs)[0] in xs && Sort(xs)[|xs| - 1] in xs
    ensures forall i | 0 <= i < |xs| :: Sort(xs)[0] <= xs[i] <= Sort(xs)[|xs| - 1]
  {
    SortSorts(xs);
    var s := Sort(xs);
    assert s[0] in multiset(s) && s[|xs| - 1] in multiset(s);
    forall i | 0 <= i < |xs| ensures s[0] <= xs[i] <= s[|xs| - 1] {
      assert xs[i] in multiset(xs);
      assert xs[i] in multiset(s);
      var j :| 0 <= j < |s| && s[j] == xs[i];
    }
  }

  /** The mean lies between the extremes, in exact arithmetic. */
  lemma {:induction false} MeanBetween(xs: seq<real>)
    requires xs != []
    ensures StatsOf(xs).min <= StatsOf(xs).mean <= StatsOf(xs).max
  {
    ExtremesBound(xs);
    SortSorts(xs);
    MeanWithin(xs, Sort(xs)[0], Sort(xs)[|xs| - 1]);
  }

  lemma {:induction false} MeanWithin(xs: seq<real>, lo: real, hi: real)
    requires xs != [] && forall i | 0 <= i < |xs| :: lo <= xs[i] <= hi
    ensures lo <= Sum(xs) / |xs| as real <= hi
  {
    SumBetween(xs, lo, hi);
    DivideBounds(lo, Sum(xs), hi, |xs| as real);
  }

  lemma {:induction false} SumBetween(xs: seq<real>, lo: real, hi: real)
    requires forall i | 0 <= i < |xs| :: lo <= xs[i] <= hi
    ensures lo * |xs| as real <= Sum(xs) <= hi * |xs| as real
  {
    if xs != [] {
      SumBetween(xs[..|xs| - 1], lo, hi);
      var n := (|xs| - 1) as real;
      assert |xs| as real == n + 1.0;
      assert lo * (n + 1.0) == lo * n + lo && hi * (n + 1.0) == hi * n + hi;
    }
  }

  lemma {:induction false} DivideBounds(lo: real, sum: real, hi: real, n: real)
    requires n > 0.0 && lo * n <= sum <= hi * n
    ensures lo <= sum / n <= hi
  {
    assert sum / n * n == sum;
  }

  /** Permuting the samples changes nothing. */
  lemma {:induction false} StatsIgnoreOrder(xs: seq<real>, ys: seq<real>)
    requires multiset(xs) == multiset(ys)
    ensures StatsOf(xs) == StatsOf(ys)
  {
    SortIgnoresOrder(xs, ys);
    SortSorts(xs);
    SortSorts(ys);
    SumIgnoresOrder(xs, ys);
  }

  lemma {:induction false} SumAppend(a: seq<real>, b: seq<real>)
    ensures Sum(a + b) == Sum(a) + Sum(b) && forall x :: Sum([x]) == x
  {
    assert forall x: real :: [x][..0] == [];
    if b == [] {
      assert a + b == a;
    } else {
      SumAppend(a, b[..|b| - 1]);
      assert (a + b)[..|a + b| - 1] == a + b[..|b| - 1];
    }
  }

  lemma {:induction false} SumInsert(x: real, s: seq<real>)
    ensures Sum(Insert(x, s)) == x + Sum(s)
  {
    if s == [] || x <= s[0] {
      SumAppend([x], s);
      assert [x][..0] == [];
    } else {
      SumInsert(x, s[1..]);
      SumAppend([s[0]], Insert(x, s[1..]));
      SumAppend([s[0]], s[1..]);
      assert s == [s[0]] + s[1..];
    }
  }

  lemma {:induction false} SumSort(xs: seq<real>)
    ensures Sum(Sort(xs)) == Sum(xs)
  {
    if xs != [] {
      SumSort(xs[1..]);
      SumInsert(xs[0], Sort(xs[1..]));
      SumAppend([xs[0]], xs[1..]);
      assert xs == [xs[0]] + xs[1..];
      assert [xs[0]][..0] == [];
    }
  }

  lemma {:induction false} SumIgnoresOrder(xs: seq<real>, ys: seq<real>)
    requires multiset(xs) == multiset(ys)
    ensures Sum(xs) == Sum(ys) && |xs| == |ys|
  {
    SortIgnoresOrder(xs, ys);
    SumSort(xs);
    SumSort(ys);
    assert |multiset(xs)| == |xs| && |multiset(ys)| == |ys|;
  }
}
