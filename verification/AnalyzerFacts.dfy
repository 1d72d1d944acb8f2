/** Consequences of the analyzer's meaning: partition of samples, latency arithmetic, totals over tenants. */
module AnalyzerFacts {
  import opened Events
  import opened AnalyzerSpec
  import opened AnalyzerMeaning
  import opened OrderStats

  // ----- summing over tenants in any map-iteration order

  predicate NoRepeats(ts: seq<string>) {
    forall i, j | 0 <= i < j < |ts| :: ts[i] != ts[j]
  }

  function SumBy(ts: seq<string>, f: string -> int): int {
    if ts == [] then 0 else SumBy(ts[..|ts| - 1], f) + f(ts[|ts| - 1])
  }

  lemma {:induction false} SumByChange(ts: seq<string>, f: string -> int, g: string -> int, t: string, d: int)
    requires NoRepeats(ts) && forall x :: g(x) == f(x) + (if x == t then d else 0)
    ensures SumBy(ts, g) == SumBy(ts, f) + (if t in ts then d else 0)
  {
    if ts != [] {
      var rest := ts[..|ts| - 1];
      SumByChange(rest, f, g, t, d);
      assert ts == rest + [ts[|ts| - 1]];
    }
  }

  lemma {:induction false} SumBySame(ts: seq<string>, f: string -> int, g: string -> int)
    requires forall x | x in ts :: g(x) == f(x)
    ensures SumBy(ts, g) == SumBy(ts, f)
  {
    if ts != [] {
      SumBySame(ts[..|ts| - 1], f, g);
    }
  }

  lemma {:induction false} SumByZero(ts: seq<string>, f: string -> int)
    requires forall x :: f(x) == 0
    ensures SumBy(ts, f) == 0
  {
    if ts != [] { SumByZero(ts[..|ts| - 1], f); }
  }

  // ----- per-tenant pickup samples partition the overall samples

  ghost predicate Covers(ts: seq<string>, log: Log) {
    NoRepeats(ts) && forall t :: t in ts <==> Enqueues(log, |log|, t) > 0
  }

  lemma {:induction false} EnqueuesGrow(log: Log, j: nat, n: nat)
    requires j < n <= |log| && log[j].JobEnqueued?
    ensures Enqueues(log, n, log[j].tenant) > 0
  {
    if j < n - 1 { EnqueuesGrow(log, j, n - 1); }
  }

  /** Every sample belongs to a tenant that has an enqueue line. */
  lemma {:induction false} SampleHasTenant(log: Log, n: nat, i: nat)
    requires n <= |log| && i < |Pickups(log, n)|
    ensures Enqueues(log, |log|, Pickups(log, n)[i].tenant) > 0
  {
    if i < |Pickups(log, n - 1)| {
      SampleHasTenant(log, n - 1, i);
    } else {
      var e := LastEnqueue(log, n - 1, log[n - 1].job);
      EnqueuesGrow(log, e, |log|);
    }
  }

  function Gather(ts: seq<string>, ps: seq<Sample>): multiset<real> {
    if ts == [] then multiset{} else Gather(ts[..|ts| - 1], ps) + multiset(Of(ps, ts[|ts| - 1]))
  }

  lemma {:induction false} SplitLast(ts: seq<string>, x: string)
    requires ts != [] && NoRepeats(ts)
    ensures var rest, last := ts[..|ts| - 1], ts[|ts| - 1];
            NoRepeats(rest) && (x in ts <==> x in rest || x == last) && !(x in rest && x == last)
  {
    assert ts == ts[..|ts| - 1] + [ts[|ts| - 1]];
  }

  lemma {:induction false} GatherOne(ts: seq<string>, ps: seq<Sample>, s: Sample)
    requires NoRepeats(ts)
    ensures Gather(ts, ps + [s]) == Gather(ts, ps) + (if s.tenant in ts then multiset{s.ms} else multiset{})
  {
    if ts != [] {
      SplitLast(ts, s.tenant);
      GatherOne(ts[..|ts| - 1], ps, s);
      OfAppend(ps, s, ts[|ts| - 1]);
    }
  }

  lemma {:induction false} OfAppend(ps: seq<Sample>, s: Sample, t: string)
    ensures multiset(Of(ps + [s], t)) == multiset(Of(ps, t)) + (if s.tenant == t then multiset{s.ms} else multiset{})
  {
    assert (ps + [s])[..|ps + [s]| - 1] == ps;
    assert Of(ps + [s], t) == Of(ps, t) + (if s.tenant == t then [s.ms] else []);
  }

  lemma {:induction false} GatherNothing(ts: seq<string>)
    ensures Gather(ts, []) == multiset{}
  {
    if ts != [] { GatherNothing(ts[..|ts| - 1]); }
  }

  ghost predicate Known(ts: seq<string>, ps: seq<Sample>) {
    forall i: nat | i < |ps| :: ps[i].tenant in ts
  }

  lemma {:induction false} KnownSplit(ts: seq<string>, ps: seq<Sample>, s: Sample)
    requires Known(ts, ps + [s])
    ensures Known(ts, ps) && s.tenant in ts
  {
    assert (ps + [s])[|ps|] == s;
    assert forall i: nat | i < |ps| :: (ps + [s])[i] == ps[i];
  }

  lemma {:induction false} GatherAll(ts: seq<string>, ps: seq<Sample>)
    requires NoRepeats(ts) && Known(ts, ps)
    ensures Gather(ts, ps) == multiset(All(ps))
  {
    if ps == [] {
      GatherNothing(ts);
    } else {
      var rest, s := ps[..|ps| - 1], ps[|ps| - 1];
      assert ps == rest + [s];
      KnownSplit(ts, rest, s);
      GatherAll(ts, rest);
      GatherStep(ts, rest, s);
    }
  }

  lemma {:induction false} GatherStep(ts: seq<string>, ps: seq<Sample>, s: Sample)
    requires NoRepeats(ts) && s.tenant in ts && Gather(ts, ps) == multiset(All(ps))
    ensures Gather(ts, ps + [s]) == multiset(All(ps + [s]))
  {
    GatherOne(ts, ps, s);
    AllAppend(ps, s);
  }

  lemma {:induction false} AllAppend(ps: seq<Sample>, s: Sample)
    ensures multiset(All(ps + [s])) == multiset(All(ps)) + multiset{s.ms}
  {
    assert (ps + [s])[..|ps + [s]| - 1] == ps;
    assert All(ps + [s]) == All(ps) + [s.ms];
  }

  /** Whatever the map iteration order, the tenants' samples together are exactly the overall samples. */
  lemma {:induction false} SamplesPartition(log: Log, ts: seq<string>)
    requires Covers(ts, log)
    ensures Gather(ts, Pickups(log, |log|)) == multiset(All(Pickups(log, |log|)))
  {
    var ps := Pickups(log, |log|);
    forall i: nat | i < |ps| ensures ps[i].tenant in ts {
      SampleHasTenant(log, |log|, i);
    }
    GatherAll(ts, ps);
  }

  lemma {:induction false} GatherSize(ts: seq<string>, ps: seq<Sample>)
    ensures |Gather(ts, ps)| == SumBy(ts, t => |Of(ps, t)|)
  {
    if ts != [] { GatherSize(ts[..|ts| - 1], ps); }
  }

  /** Tenant sample counts sum to the total count. */
  lemma {:induction false} CountsSum(log: Log, ts: seq<string>)
    requires Covers(ts, log)
    ensures SumBy(ts, t => |Of(Pickups(log, |log|), t)|) == |All(Pickups(log, |log|))|
  {
    SamplesPartition(log, ts);
    GatherSize(ts, Pickups(log, |log|));
  }

  lemma {:induction false} SampleShared(ps: seq<Sample>, i: nat)
    requires i < |ps|
    ensures ps[i].ms in Of(ps, ps[i].tenant) && ps[i].ms in All(ps)
  {
    if i < |ps| - 1 { SampleShared(ps[..|ps| - 1], i); }
  }

  lemma {:induction false} SampleSource(ps: seq<Sample>, x: real) returns (i: nat)
    requires x in All(ps)
    ensures i < |ps| && ps[i].ms == x
  {
    if ps[|ps| - 1].ms == x { i := |ps| - 1; } else { i := SampleSource(ps[..|ps| - 1], x); }
  }

  lemma {:induction false} TenantSample(ps: seq<Sample>, t: string, x: real)
    requires x in Of(ps, t)
    ensures x in All(ps)
  {
    var rest := ps[..|ps| - 1];
    if x in Of(rest, t) { TenantSample(rest, t, x); }
  }

  /**
   The overall minimum is the least minimum, and the overall maximum the greatest maximum, of
   the tenants that have samples.  (A tenant without samples reports 0 for both.)
   */
  lemma {:induction false} ExtremesAcrossTenants(ps: seq<Sample>)
    requires ps != []
    ensures forall t | Of(ps, t) != [] ::
              StatsOf(All(ps)).min <= StatsOf(Of(ps, t)).min && StatsOf(Of(ps, t)).max <= StatsOf(All(ps)).max
    ensures exists t :: Of(ps, t) != [] && StatsOf(Of(ps, t)).min == StatsOf(All(ps)).min
    ensures exists t :: Of(ps, t) != [] && StatsOf(Of(ps, t)).max == StatsOf(All(ps)).max
  {
    var all := StatsOf(All(ps));
    SampleShared(ps, 0);
    StatsOrdered(All(ps));
    forall t | Of(ps, t) != []
      ensures all.min <= StatsOf(Of(ps, t)).min && StatsOf(Of(ps, t)).max <= all.max
    {
      TenantWithin(ps, t);
    }
    var i := SampleSource(ps, all.min);
    TenantReaches(ps, i);
    var j := SampleSource(ps, all.max);
    TenantReaches(ps, j);
    TenantWithin(ps, ps[i].tenant);
    TenantWithin(ps, ps[j].tenant);
  }

  lemma {:induction false} TenantWithin(ps: seq<Sample>, t: string)
    requires Of(ps, t) != []
    ensures StatsOf(All(ps)).min <= StatsOf(Of(ps, t)).min && StatsOf(Of(ps, t)).max <= StatsOf(All(ps)).max
  {
    StatsOrdered(Of(ps, t));
    StatsOrdered(All(ps));
    TenantSample(ps, t, StatsOf(Of(ps, t)).min);
    TenantSample(ps, t, StatsOf(Of(ps, t)).max);
  }

  lemma {:induction false} TenantReaches(ps: seq<Sample>, i: nat)
    requires i < |ps|
    ensures var t := ps[i].tenant; Of(ps, t) != [] && StatsOf(Of(ps, t)).min <= ps[i].ms <= StatsOf(Of(ps, t)).max
  {
    SampleShared(ps, i);
    StatsOrdered(Of(ps, ps[i].tenant));
  }

  // ----- latency arithmetic

  lemma {:induction false} TruncationLosesOne(a: int, b: int)
    requires a >= 0 && b >= 0
    ensures 0 <= Micros(a + b) - (Micros(a) + Micros(b)) <= 1
  {
  }

  /** With a nondecreasing clock no latency sample is negative. */
  lemma {:induction false} SamplesNonNegative(log: Log, n: nat)
    requires Monotone(log) && n <= |log|
    ensures forall i: nat | i < |Pickups(log, n)| :: Pickups(log, n)[i].ms >= 0.0
    ensures forall i: nat | i < |Works(log, n)| :: Works(log, n)[i] >= 0.0
    ensures forall i: nat | i < |E2Es(log, n)| :: E2Es(log, n)[i] >= 0.0
  {
    if n > 0 {
      SamplesNonNegative(log, n - 1);
      LineNonNegative(log, n - 1);
    }
  }

  lemma {:induction false} LineNonNegative(log: Log, k: nat)
    requires Monotone(log) && k < |log|
    ensures forall i: nat | i < |PickupAt(log, k)| :: PickupAt(log, k)[i].ms >= 0.0
    ensures forall i: nat | i < |WorkAt(log, k)| :: WorkAt(log, k)[i] >= 0.0
    ensures forall i: nat | i < |E2EAt(log, k)| :: E2EAt(log, k)[i] >= 0.0
  {
  }

  /**
   Line k completes a job last started by line b and enqueued by line e before that: if the completion and the start
   are past the warmup, end-to-end exceeds pickup plus work by 0 or 1 microsecond.
   */
  lemma EndToEndAddsUp(log: Log, k: nat, b: nat, e: nat) returns (pickup: real, work: real, e2e: real)
    requires Monotone(log) && k < |log| && log[k].JobCompleted?
    requires StartedBy(log, k, log[k].job, b) && EnqueuedBy(log, k, log[k].job, e) && e < b
    requires PastWarmup(log, k) && PastWarmup(log, b)
    ensures InMillis(log[b].ts - log[e].ts, pickup) && InMillis(log[k].ts - log[b].ts, work) && InMillis(log[k].ts - log[e].ts, e2e)
    ensures PickupAt(log, b) == [Sample(log[e].tenant, pickup)] && WorkAt(log, k) == [work] && E2EAt(log, k) == [e2e]
    ensures e2e - (pickup + work) == 0.0 || e2e - (pickup + work) == 0.001
  {
    var first, second := log[b].ts - log[e].ts, log[k].ts - log[b].ts;
    pickup, work, e2e := Millis(first), Millis(second), Millis(first + second);
    MillisMeans(first, pickup);
    MillisMeans(second, work);
    MillisMeans(first + second, e2e);
    assert IsPickup(log, b, e) && IsWork(log, k, b) && IsE2E(log, k, e);
    PickupMeans(log, b);
    WorkMeans(log, k);
    E2EMeans(log, k);
    TruncationLosesOne(first, second);
    MillisAdd(first, second);
  }

  lemma {:induction false} MillisAdd(a: int, b: int)
    requires 0 <= Micros(a + b) - (Micros(a) + Micros(b)) <= 1
    ensures var d := Millis(a + b) - (Millis(a) + Millis(b)); d == 0.0 || d == 0.001
  {
    Thousandths(Micros(a), Micros(b), Micros(a + b));
  }

  lemma Thousandths(x: int, y: int, z: int)
    requires x + y <= z <= x + y + 1
    ensures var d := z as real / 1000.0 - (x as real / 1000.0 + y as real / 1000.0); d == 0.0 || d == 0.001
  {
    var k := z - (x + y);
    assert z as real == x as real + y as real + k as real;
    assert k == 0 || k == 1;
  }

  // ----- totals

  function EnqueueLines(log: Log, n: nat): nat
    requires n <= |log|
  {
    if n == 0 then 0 else EnqueueLines(log, n - 1) + (if log[n - 1].JobEnqueued? then 1 else 0)
  }

  function CompletionLines(log: Log, n: nat): nat
    requires n <= |log|
  {
    if n == 0 then 0 else CompletionLines(log, n - 1) + (if log[n - 1].JobCompleted? then 1 else 0)
  }

  /** Completion lines with no earlier enqueue line of their tenant. */
  function Orphans(log: Log, n: nat): nat
    requires n <= |log|
  {
    if n == 0 then 0
    else Orphans(log, n - 1) + (if log[n - 1].JobCompleted? && Enqueues(log, n - 1, log[n - 1].tenant) == 0 then 1 else 0)
  }

  function FailureLines(log: Log, n: nat): nat
    requires n <= |log|
  {
    if n == 0 then 0 else FailureLines(log, n - 1) + (if log[n - 1].JobFailed? then 1 else 0)
  }

  lemma {:induction false} LinesMean(log: Log, n: nat)
    requires n <= |log|
    ensures EnqueueLines(log, n) == |set k: nat | k < n && log[k].JobEnqueued?|
    ensures CompletionLines(log, n) == |set k: nat | k < n && log[k].JobCompleted?|
    ensures FailureLines(log, n) == |set k: nat | k < n && log[k].JobFailed?|
  {
    if n > 0 {
      LinesMean(log, n - 1);
      SetGrows((set k: nat | k < n - 1 && log[k].JobEnqueued?), (set k: nat | k < n && log[k].JobEnqueued?), n - 1, log[n - 1].JobEnqueued?);
      SetGrows((set k: nat | k < n - 1 && log[k].JobCompleted?), (set k: nat | k < n && log[k].JobCompleted?), n - 1, log[n - 1].JobCompleted?);
      SetGrows((set k: nat | k < n - 1 && log[k].JobFailed?), (set k: nat | k < n && log[k].JobFailed?), n - 1, log[n - 1].JobFailed?);
    }
  }

  /** A completion line is an orphan if no earlier enqueue line names its tenant. */
  lemma {:induction false} OrphansMean(log: Log, n: nat)
    requires n <= |log|
    ensures Orphans(log, n) == |set k: nat | k < n && log[k].JobCompleted? && !SeenTenant(log, k, log[k].tenant)|
  {
    if n > 0 {
      OrphansMean(log, n - 1);
      if log[n - 1].JobCompleted? { EnqueuesPositive(log, n - 1, log[n - 1].tenant); }
      SetGrows((set k: nat | k < n - 1 && log[k].JobCompleted? && !SeenTenant(log, k, log[k].tenant)),
               (set k: nat | k < n && log[k].JobCompleted? && !SeenTenant(log, k, log[k].tenant)),
               n - 1, log[n - 1].JobCompleted? && !SeenTenant(log, n - 1, log[n - 1].tenant));
    }
  }

  lemma {:induction false} EnqueuedTotal(log: Log, n: nat, ts: seq<string>)
    requires n <= |log| && Covers(ts, log)
    ensures SumBy(ts, t => Enqueues(log, n, t)) == EnqueueLines(log, n)
  {
    if n == 0 {
      SumByZero(ts, t => Enqueues(log, 0, t));
    } else {
      EnqueuedTotal(log, n - 1, ts);
      var f, g := (t: string) => Enqueues(log, n - 1, t) as int, (t: string) => Enqueues(log, n, t) as int;
      if log[n - 1].JobEnqueued? {
        EnqueuesGrow(log, n - 1, |log|);
        SumByChange(ts, f, g, log[n - 1].tenant, 1);
      } else {
        SumBySame(ts, f, g);
      }
    }
  }

  lemma {:induction false} CompletedTotal(log: Log, n: nat, ts: seq<string>)
    requires n <= |log| && Covers(ts, log)
    ensures SumBy(ts, t => Completions(log, n, t)) == CompletionLines(log, n) - Orphans(log, n)
  {
    if n == 0 {
      SumByZero(ts, t => Completions(log, 0, t));
    } else {
      CompletedTotal(log, n - 1, ts);
      var f, g := (t: string) => Completions(log, n - 1, t) as int, (t: string) => Completions(log, n, t) as int;
      if log[n - 1].JobCompleted? && Enqueues(log, n - 1, log[n - 1].tenant) > 0 {
        EnqueuesMonotone(log, n - 1, |log|, log[n - 1].tenant);
        SumByChange(ts, f, g, log[n - 1].tenant, 1);
      } else {
        SumBySame(ts, f, g);
      }
    }
  }

  lemma {:induction false} EnqueuesMonotone(log: Log, m: nat, n: nat, t: string)
    requires m <= n <= |log|
    ensures Enqueues(log, m, t) <= Enqueues(log, n, t)
  {
    if m < n { EnqueuesMonotone(log, m, n - 1, t); }
  }

  /** The error breakdown sums to the number of failure lines, over any enumeration of the classes present. */
  lemma {:induction false} FailedTotal(log: Log, n: nat, cs: seq<string>)
    requires n <= |log| && NoRepeats(cs) && forall c :: c in cs <==> Failures(log, |log|, c) > 0
    ensures SumBy(cs, c => Failures(log, n, c)) == FailureLines(log, n)
  {
    if n == 0 {
      SumByZero(cs, c => Failures(log, 0, c));
    } else {
      FailedTotal(log, n - 1, cs);
      var f, g := (c: string) => Failures(log, n - 1, c) as int, (c: string) => Failures(log, n, c) as int;
      if log[n - 1].JobFailed? {
        FailuresMonotone(log, n, |log|, ClassOf(log[n - 1].cls));
        SumByChange(cs, f, g, ClassOf(log[n - 1].cls), 1);
      } else {
        SumBySame(cs, f, g);
      }
    }
  }

  lemma {:induction false} FailuresMonotone(log: Log, m: nat, n: nat, c: string)
    requires m <= n <= |log|
    ensures Failures(log, m, c) <= Failures(log, n, c)
  {
    if m < n { FailuresMonotone(log, m, n - 1, c); }
  }
}
