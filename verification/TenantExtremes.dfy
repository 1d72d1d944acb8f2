/**
 The tenants' Min and Max in a report against the overall Min and Max.  A tenant that was
 enqueued but has no counted start reports 0 for both.
 */
module TenantExtremes {
  import opened Options
  import opened Events
  import opened AnalyzerSpec
  import opened OrderStats
  import opened Analyzer
  import opened AnalyzerFacts

  /** The overall Min is the least of the tenants' Min. */
  ghost predicate MinIsLeast(s: Summary) {
    && (forall t | t in s.perTenant :: s.pickup.min <= s.perTenant[t].pickup.min)
    && (exists t :: t in s.perTenant && s.perTenant[t].pickup.min == s.pickup.min)
  }

  /** The overall Max is the greatest of the tenants' Max. */
  ghost predicate MaxIsGreatest(s: Summary) {
    && (forall t | t in s.perTenant :: s.perTenant[t].pickup.max <= s.pickup.max)
    && (exists t :: t in s.perTenant && s.perTenant[t].pickup.max == s.pickup.max)
  }

  /** A tenant with samples lies within the overall extremes; one without reports zeros. */
  lemma {:induction false} TenantReport(s: Summary, log: Log, t: string)
    requires IsSummaryOf(s, log) && t in s.perTenant
    ensures var p := s.perTenant[t].pickup;
            && p == StatsOf(Of(Pickups(log, |log|), t))
            && (p.count == 0 ==> p.min == 0.0 && p.max == 0.0)
            && (p.count > 0 ==> s.pickup.min <= p.min && p.max <= s.pickup.max)
  {
    assert TenantOk(s, log, t);
    var ps := Pickups(log, |log|);
    if Of(ps, t) != [] { TenantWithin(ps, t); }
  }

  lemma {:induction false} OverallNonNegative(s: Summary, log: Log)
    requires IsSummaryOf(s, log) && Monotone(log) && Pickups(log, |log|) != []
    ensures s.pickup.min >= 0.0 && s.pickup.max >= 0.0
  {
    var ps := Pickups(log, |log|);
    SamplesNonNegative(log, |log|);
    SampleShared(ps, 0);
    StatsOrdered(All(ps));
    var i := SampleSource(ps, StatsOf(All(ps)).min);
  }

  /** Some tenant attains each overall extreme. */
  lemma {:induction false} ExtremesAttained(s: Summary, log: Log) returns (lo: string, hi: string)
    requires IsSummaryOf(s, log) && Pickups(log, |log|) != []
    ensures lo in s.perTenant && s.perTenant[lo].pickup.min == s.pickup.min && s.perTenant[lo].pickup.count > 0
    ensures hi in s.perTenant && s.perTenant[hi].pickup.max == s.pickup.max && s.perTenant[hi].pickup.count > 0
  {
    var ps := Pickups(log, |log|);
    ExtremesAcrossTenants(ps);
    lo :| Of(ps, lo) != [] && StatsOf(Of(ps, lo)).min == StatsOf(All(ps)).min;
    hi :| Of(ps, hi) != [] && StatsOf(Of(ps, hi)).max == StatsOf(All(ps)).max;
    SampledTenantReported(s, log, lo);
    SampledTenantReported(s, log, hi);
  }

  lemma {:induction false} SampledTenantReported(s: Summary, log: Log, t: string)
    requires IsSummaryOf(s, log) && Of(Pickups(log, |log|), t) != []
    ensures t in s.perTenant && s.perTenant[t].pickup == StatsOf(Of(Pickups(log, |log|), t))
  {
    var ps := Pickups(log, |log|);
    var i := TenantSource(ps, t);
    SampleHasTenant(log, |log|, i);
    assert TenantOk(s, log, t);
  }

  lemma {:induction false} TenantSource(ps: seq<Sample>, t: string) returns (i: nat)
    requires Of(ps, t) != []
    ensures i < |ps| && ps[i].tenant == t
  {
    if ps[|ps| - 1].tenant == t { i := |ps| - 1; } else { i := TenantSource(ps[..|ps| - 1], t); }
  }

  /**
   With a nondecreasing clock and at least one sample, the report's overall Min is the least tenant Min exactly
   when it is 0 or every reported tenant has samples.  The overall Max is always the greatest tenant Max.
   */
  lemma {:induction false} ReportExtremes(s: Summary, log: Log)
    requires IsSummaryOf(s, log) && Monotone(log) && Pickups(log, |log|) != []
    ensures MinIsLeast(s) <==> s.pickup.min <= 0.0 || forall t | t in s.perTenant :: s.perTenant[t].pickup.count > 0
    ensures MaxIsGreatest(s)
  {
    OverallNonNegative(s, log);
    var lo, hi := ExtremesAttained(s, log);
    forall t | t in s.perTenant
      ensures var p := s.perTenant[t].pickup;
              && p.max <= s.pickup.max
              && (s.pickup.min <= p.min <==> s.pickup.min <= 0.0 || p.count > 0)
    {
      TenantReport(s, log, t);
    }
  }

  // ----- a log on which it fails

  /** Tenant "b" is enqueued and never starts; tenant "a" waits one millisecond. */
  const IDLE_TENANT: Log := [
    RunStart(1, Some("lib"), Some("sc")),
    JobEnqueued(3_000_000_000, "j1", "a"),
    JobEnqueued(3_000_000_000, "j2", "b"),
    JobStarted(3_001_000_000, "j1"),
    RunEnd(3_002_000_000, Some(0), Some(2), Some(0))]

  lemma IdleTenantPickups()
    ensures Pickups(IDLE_TENANT, 5) == [Sample("a", 1.0)] && Enqueues(IDLE_TENANT, 5, "b") == 1
  {
    var log := IDLE_TENANT;
    assert Pickups(log, 0) == [] && Pickups(log, 1) == [] && Pickups(log, 2) == [] && Pickups(log, 3) == [];
    assert LastEnqueue(log, 3, "j1") == 1 by { assert LastEnqueue(log, 2, "j1") == 1; }
    assert Cutoff(log, 1) == 2_000_000_001 && Cutoff(log, 2) == Cutoff(log, 1) && Cutoff(log, 3) == Cutoff(log, 2);
    assert PickupAt(log, 3) == [Sample("a", 1.0)];
    assert PickupAt(log, 4) == [];
    assert Enqueues(log, 1, "b") == 0 && Enqueues(log, 2, "b") == 0 && Enqueues(log, 3, "b") == 1 && Enqueues(log, 4, "b") == 1;
  }

  /** Every report of that log gives tenant "b" a Min of 0, below the overall Min of 1 ms. */
  lemma IdleTenantBreaksMin(s: Summary)
    requires IsSummaryOf(s, IDLE_TENANT)
    ensures "b" in s.perTenant && s.perTenant["b"].pickup.min == 0.0 && s.pickup.min == 1.0 && !MinIsLeast(s)
  {
    IdleTenantPickups();
    var ps := Pickups(IDLE_TENANT, 5);
    assert TenantOk(s, IDLE_TENANT, "b");
    assert Of(ps, "b") == [] by { assert ps[..0] == []; }
    assert All(ps) == [1.0] by { assert ps[..0] == []; }
    StatsOrdered(All(ps));
    assert StatsOf(All(ps)).min in All(ps);
  }
}
