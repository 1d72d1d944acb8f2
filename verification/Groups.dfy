/** GroupRuns and populateGroupStats: medians and spreads across runs of one (library, scenario). */
module Groups {
  import opened OrderStats
  import opened Analyzer
  import opened AnalyzerFacts
  import opened AnalyzerSpec
  import opened Events

  datatype GroupStats = GroupStats(
    medThroughput: real, medPickupP50: real, medPickupP95: real, medPickupP99: real, medWorkP50: real, medE2EP95: real,
    minThroughput: real, maxThroughput: real, minPickupP95: real, maxPickupP95: real,
    medMaxGoroutines: int, medMaxRSSMB: real,
    totalEnqueued: int, totalCompleted: int, totalFailed: int)

  datatype Group = Group(library: string, scenario: string, runs: seq<Summary>)

  function Column(runs: seq<Summary>, f: Summary -> real): (r: seq<real>)
    ensures |r| == |runs| && forall i | 0 <= i < |runs| :: r[i] == f(runs[i])
  {
    seq(|runs|, i requires 0 <= i < |runs| => f(runs[i]))
  }

  function Total(runs: seq<Summary>, f: Summary -> int): int {
    if runs == [] then 0 else Total(runs[..|runs| - 1], f) + f(runs[|runs| - 1])
  }

  // ----- minF, maxF

  ghost predicate IsMin(xs: seq<real>, m: real) {
    if xs == [] then m == 0.0 else m in xs && forall i | 0 <= i < |xs| :: m <= xs[i]
  }

  ghost predicate IsMax(xs: seq<real>, m: real) {
    if xs == [] then m == 0.0 else m in xs && forall i | 0 <= i < |xs| :: xs[i] <= m
  }

  method MinF(xs: seq<real>) returns (m: real)
    ensures IsMin(xs, m)
  {
    if |xs| == 0 { return 0.0; }
    m := xs[0];
    for i := 1 to |xs|
      invariant m in xs && forall j | 0 <= j < i :: m <= xs[j]
    {
      if xs[i] < m { m := xs[i]; }
    }
  }

  method MaxF(xs: seq<real>) returns (m: real)
    ensures IsMax(xs, m)
  {
    if |xs| == 0 { return 0.0; }
    m := xs[0];
    for i := 1 to |xs|
      invariant m in xs && forall j | 0 <= j < i :: xs[j] <= m
    {
      if xs[i] > m { m := xs[i]; }
    }
  }

  // ----- populateGroupStats

  /** Each aggregate is the median, extreme or total of the corresponding per-run value. */
  ghost predicate Aggregates(g: GroupStats, runs: seq<Summary>) {
    var thr := Column(runs, (r: Summary) => r.throughput);
    var p95 := Column(runs, (r: Summary) => r.pickup.p95);
    && g.medThroughput == Median(thr) && IsMin(thr, g.minThroughput) && IsMax(thr, g.maxThroughput)
    && g.medPickupP50 == Median(Column(runs, (r: Summary) => r.pickup.p50))
    && g.medPickupP95 == Median(p95) && IsMin(p95, g.minPickupP95) && IsMax(p95, g.maxPickupP95)
    && g.medPickupP99 == Median(Column(runs, (r: Summary) => r.pickup.p99))
    && g.medWorkP50 == Median(Column(runs, (r: Summary) => r.work.p50))
    && g.medE2EP95 == Median(Column(runs, (r: Summary) => r.e2e.p95))
    && g.medMaxGoroutines == Median(Column(runs, (r: Summary) => r.maxGoroutines as real)).Floor
    && g.medMaxRSSMB == Median(Column(runs, (r: Summary) => r.maxRSS as real / 1024.0 / 1024.0))
    && g.totalEnqueued == Total(runs, (r: Summary) => r.enqueued)
    && g.totalCompleted == Total(runs, (r: Summary) => r.completed)
    && g.totalFailed == Total(runs, (r: Summary) => r.failed)
  }

  method PopulateGroupStats(runs: seq<Summary>) returns (g: GroupStats)
    ensures Aggregates(g, runs)
  {
    var enq, comp, fail := SumTotals(runs);
    var thr := Column(runs, (r: Summary) => r.throughput);
    var p95 := Column(runs, (r: Summary) => r.pickup.p95);
    var minT := MinF(thr);
    var maxT := MaxF(thr);
    var minP := MinF(p95);
    var maxP := MaxF(p95);
    g := GroupStats(Median(thr), Median(Column(runs, (r: Summary) => r.pickup.p50)), Median(p95),
                    Median(Column(runs, (r: Summary) => r.pickup.p99)), Median(Column(runs, (r: Summary) => r.work.p50)),
                    Median(Column(runs, (r: Summary) => r.e2e.p95)), minT, maxT, minP, maxP,
                    Median(Column(runs, (r: Summary) => r.maxGoroutines as real)).Floor,
                    Median(Column(runs, (r: Summary) => r.maxRSS as real / 1024.0 / 1024.0)), enq, comp, fail);
  }

  method SumTotals(runs: seq<Summary>) returns (enq: int, comp: int, fail: int)
    ensures enq == Total(runs, (r: Summary) => r.enqueued)
    ensures comp == Total(runs, (r: Summary) => r.completed)
    ensures fail == Total(runs, (r: Summary) => r.failed)
  {
    enq, comp, fail := 0, 0, 0;
    for i := 0 to |runs|
      invariant enq == Total(runs[..i], (r: Summary) => r.enqueued)
      invariant comp == Total(runs[..i], (r: Summary) => r.completed)
      invariant fail == Total(runs[..i], (r: Summary) => r.failed)
    {
      assert runs[..i + 1][..i] == runs[..i];
      enq, comp, fail := enq + runs[i].enqueued, comp + runs[i].completed, fail + runs[i].failed;
    }
    assert runs[..|runs|] == runs;
  }

  /** Of a single run every median and spread is that run's own value, and every total its own count. */
  lemma {:induction false} SingleRun(g: GroupStats, r: Summary)
    requires Aggregates(g, [r])
    ensures g.medThroughput == g.minThroughput == g.maxThroughput == r.throughput
    ensures g.medPickupP50 == r.pickup.p50 && g.medPickupP95 == g.minPickupP95 == g.maxPickupP95 == r.pickup.p95 && g.medPickupP99 == r.pickup.p99
    ensures g.medWorkP50 == r.work.p50 && g.medE2EP95 == r.e2e.p95
    ensures g.medMaxGoroutines == r.maxGoroutines && g.medMaxRSSMB * 1_048_576.0 == r.maxRSS as real
    ensures g.totalEnqueued == r.enqueued && g.totalCompleted == r.completed && g.totalFailed == r.failed
  {
    OneRun(r, (r: Summary) => r.throughput);
    OneRun(r, (r: Summary) => r.pickup.p50);
    OneRun(r, (r: Summary) => r.pickup.p95);
    OneRun(r, (r: Summary) => r.pickup.p99);
    OneRun(r, (r: Summary) => r.work.p50);
    OneRun(r, (r: Summary) => r.e2e.p95);
    OneRun(r, (r: Summary) => r.maxGoroutines as real);
    OneRun(r, (r: Summary) => r.maxRSS as real / 1024.0 / 1024.0);
    OneTotal(r, (r: Summary) => r.enqueued);
    OneTotal(r, (r: Summary) => r.completed);
    OneTotal(r, (r: Summary) => r.failed);
  }

  lemma {:induction false} OneTotal(r: Summary, f: Summary -> int)
    ensures Total([r], f) == f(r)
  {
    assert [r][..0] == [];
    assert Total([r][..0], f) == 0;
  }

  lemma {:induction false} OneRun(r: Summary, f: Summary -> real)
    ensures Column([r], f) == [f(r)] && Median(Column([r], f)) == f(r)
  {
    assert Column([r], f) == [f(r)];
    MedianIsMiddle([f(r)]);
  }

  predicate Graded(r: Summary) {
    r.pickup.p50 <= r.pickup.p95 <= r.pickup.p99
  }

  /** Every run the analyzer reports has ordered percentiles, also when it has no samples. */
  lemma {:induction false} ReportsAreGraded(s: Summary, log: Log)
    requires IsSummaryOf(s, log)
    ensures Graded(s)
  {
    StatsOrdered(All(Pickups(log, |log|)));
  }

  /** Medians keep the order of the percentiles they are medians of, although each may come from a different run. */
  lemma {:induction false} MedianPercentilesOrdered(g: GroupStats, runs: seq<Summary>)
    requires Aggregates(g, runs) && forall i: nat | i < |runs| :: Graded(runs[i])
    ensures g.medPickupP50 <= g.medPickupP95 <= g.medPickupP99
  {
    var p50 := Column(runs, (r: Summary) => r.pickup.p50);
    var p95 := Column(runs, (r: Summary) => r.pickup.p95);
    var p99 := Column(runs, (r: Summary) => r.pickup.p99);
    MedianMonotone(p50, p95);
    MedianMonotone(p95, p99);
  }

  lemma {:induction false} MedianInSpread(xs: seq<real>, lo: real, hi: real)
    requires IsMin(xs, lo) && IsMax(xs, hi)
    ensures lo <= Median(xs) <= hi
  {
    if xs != [] {
      SortSorts(xs);
      var m := Sort(xs)[|xs| / 2];
      assert m in multiset(Sort(xs));
      assert m in multiset(xs);
    }
  }

  lemma {:induction false} SpreadsEncloseMedians(g: GroupStats, runs: seq<Summary>)
    requires Aggregates(g, runs)
    ensures g.minThroughput <= g.medThroughput <= g.maxThroughput
    ensures g.minPickupP95 <= g.medPickupP95 <= g.maxPickupP95
  {
    MedianInSpread(Column(runs, (r: Summary) => r.throughput), g.minThroughput, g.maxThroughput);
    MedianInSpread(Column(runs, (r: Summary) => r.pickup.p95), g.minPickupP95, g.maxPickupP95);
  }

  // ----- GroupRuns

  function Key(library: string, scenario: string): string {
    library + "|" + scenario
  }

  function KeyOf(r: Summary): string { Key(r.library, r.scenario) }

  function With(runs: seq<Summary>, key: string): seq<Summary> {
    if runs == [] then []
    else With(runs[..|runs| - 1], key) + (if KeyOf(runs[|runs| - 1]) == key then [runs[|runs| - 1]] else [])
  }

  /** Each bucket holds the runs of its key, in input order, and is labelled by the first of them. */
  ghost predicate Bucketed(byKey: map<string, Group>, runs: seq<Summary>) {
    && (forall k :: k in byKey <==> With(runs, k) != [])
    && (forall k | k in byKey :: byKey[k].runs == With(runs, k) && byKey[k].runs != []
                                 && byKey[k].library == byKey[k].runs[0].library && byKey[k].scenario == byKey[k].runs[0].scenario)
  }

  /** The loop of GroupRuns that fills the buckets. */
  method FillBuckets(runs: seq<Summary>) returns (byKey: map<string, Group>)
    ensures Bucketed(byKey, runs)
  {
    byKey := map[];
    for i := 0 to |runs|
      invariant Bucketed(byKey, runs[..i])
    {
      var r := runs[i];
      var key := KeyOf(r);
      var g := if key in byKey then byKey[key] else Group(r.library, r.scenario, []);
      assert runs[..i + 1][..i] == runs[..i];
      byKey := byKey[key := g.(runs := g.runs + [r])];
    }
    assert runs[..|runs|] == runs;
  }

  lemma {:induction false} WithMembers(runs: seq<Summary>, key: string)
    ensures forall r | r in With(runs, key) :: r in runs && KeyOf(r) == key
    ensures forall r | r in runs && KeyOf(r) == key :: r in With(runs, key)
  {
    if runs != [] {
      WithMembers(runs[..|runs| - 1], key);
      assert runs == runs[..|runs| - 1] + [runs[|runs| - 1]];
    }
  }

  /** No group mixes two (library, scenario) pairs. */
  ghost predicate Pure(byKey: map<string, Group>) {
    forall k, r | k in byKey && r in byKey[k].runs :: r.library == byKey[k].library && r.scenario == byKey[k].scenario
  }

  predicate Collide(a: Summary, b: Summary) {
    KeyOf(a) == KeyOf(b) && (a.library != b.library || a.scenario != b.scenario)
  }

  /** Grouping by (library, scenario) is right exactly when no two runs collide on the joined key. */
  lemma {:induction false} PureIffNoCollision(byKey: map<string, Group>, runs: seq<Summary>)
    requires Bucketed(byKey, runs)
    ensures Pure(byKey) <==> forall a, b | a in runs && b in runs :: !Collide(a, b)
  {
    if Pure(byKey) {
      forall a, b | a in runs && b in runs ensures !Collide(a, b) {
        WithMembers(runs, KeyOf(a));
        assert KeyOf(a) in byKey;
      }
    }
    if forall a, b | a in runs && b in runs :: !Collide(a, b) {
      forall k, r | k in byKey && r in byKey[k].runs
        ensures r.library == byKey[k].library && r.scenario == byKey[k].scenario
      {
        WithMembers(runs, k);
        assert !Collide(r, byKey[k].runs[0]);
      }
    }
  }

  /** Library names without the separator cannot collide. */
  lemma {:induction false} SeparatorFreeKeys(a: Summary, b: Summary)
    requires '|' !in a.library && '|' !in b.library
    ensures !Collide(a, b)
  {
    if KeyOf(a) == KeyOf(b) {
      var ka, kb := KeyOf(a), KeyOf(b);
      assert ka[|a.library|] == '|' && kb[|b.library|] == '|';
      assert |a.library| <= |b.library| ==> ka[..|a.library|] == b.library[..|a.library|];
      assert |b.library| <= |a.library| ==> kb[..|b.library|] == a.library[..|b.library|];
      assert |a.library| == |b.library|;
      assert ka[|a.library| + 1..] == a.scenario && kb[|b.library| + 1..] == b.scenario;
    }
  }

  /** With a separator inside a name they can: two different pairs, one key. */
  lemma {:induction false} KeysCanCollide()
    ensures Key("river|x", "steady") == Key("river", "x|steady")
  {
    assert "river|x" + "|" + "steady" == "river|x|steady";
    assert "river" + "|" + "x|steady" == "river|x|steady";
  }

  /** Every run is counted in exactly one group: group totals sum to the totals over all runs. */
  lemma {:induction false} TotalsConserved(runs: seq<Summary>, ks: seq<string>, f: Summary -> int)
    requires NoRepeats(ks) && forall i: nat | i < |runs| :: KeyOf(runs[i]) in ks
    ensures SumBy(ks, k => Total(With(runs, k), f)) == Total(runs, f)
  {
    if runs == [] {
      SumByZero(ks, k => Total(With(runs, k), f));
    } else {
      var rest, last := runs[..|runs| - 1], runs[|runs| - 1];
      TotalsConserved(rest, ks, f);
      var g, h := (k: string) => Total(With(rest, k), f), (k: string) => Total(With(runs, k), f);
      forall k ensures h(k) == g(k) + (if k == KeyOf(last) then f(last) else 0) {
        TotalOfBucket(runs, k, f);
      }
      SumByChange(ks, g, h, KeyOf(last), f(last));
    }
  }

  lemma {:induction false} TotalOfBucket(runs: seq<Summary>, k: string, f: Summary -> int)
    requires runs != []
    ensures var rest, last := runs[..|runs| - 1], runs[|runs| - 1];
            Total(With(runs, k), f) == Total(With(rest, k), f) + (if k == KeyOf(last) then f(last) else 0)
  {
    var rest, last := runs[..|runs| - 1], runs[|runs| - 1];
    if KeyOf(last) == k {
      var w := With(rest, k) + [last];
      assert w[..|w| - 1] == With(rest, k);
    } else {
      assert With(runs, k) == With(rest, k);
    }
  }
}
