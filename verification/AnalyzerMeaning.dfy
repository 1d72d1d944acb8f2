/**
 What each number of a report says about the lines of the log: which lines are paired with which,
 which lines are counted, and which line gives a field its value.
 */
module AnalyzerMeaning {
  import opened Options
  import opened Events
  import opened AnalyzerSpec
  import opened Analyzer
  import opened OrderStats

  // ----- which line is paired with which

  predicate IsEnqueue(e: Event, job: string) { e.JobEnqueued? && e.job == job }

  predicate IsStart(e: Event, job: string) { e.JobStarted? && e.job == job }

  /** Line e is the latest before line n that says `job` was enqueued. */
  ghost predicate EnqueuedBy(log: Log, n: nat, job: string, e: nat) {
    e < n <= |log| && IsEnqueue(log[e], job) && forall i: nat | e < i < n :: !IsEnqueue(log[i], job)
  }

  /** Line b is the latest before line n that says `job` was started. */
  ghost predicate StartedBy(log: Log, n: nat, job: string, b: nat) {
    b < n <= |log| && IsStart(log[b], job) && forall i: nat | b < i < n :: !IsStart(log[i], job)
  }

  lemma {:induction false} LastEnqueueMeans(log: Log, n: nat, job: string)
    requires n <= |log|
    ensures forall i: nat | LastEnqueue(log, n, job) < i < n :: !IsEnqueue(log[i], job)
    ensures forall e: nat :: EnqueuedBy(log, n, job, e) <==> LastEnqueue(log, n, job) == e
  {
    if n > 0 { LastEnqueueMeans(log, n - 1, job); }
    forall e: nat ensures EnqueuedBy(log, n, job, e) <==> LastEnqueue(log, n, job) == e {
    }
  }

  lemma {:induction false} LastStartMeans(log: Log, n: nat, job: string)
    requires n <= |log|
    ensures forall i: nat | LastStart(log, n, job) < i < n :: !IsStart(log[i], job)
    ensures forall b: nat :: StartedBy(log, n, job, b) <==> LastStart(log, n, job) == b
  {
    if n > 0 { LastStartMeans(log, n - 1, job); }
    forall b: nat ensures StartedBy(log, n, job, b) <==> LastStart(log, n, job) == b {
    }
  }

  /** Line r is the latest run_start before line n. */
  ghost predicate RunStartedBy(log: Log, n: nat, r: nat) {
    r < n <= |log| && log[r].RunStart? && forall i: nat | r < i < n :: !log[i].RunStart?
  }

  ghost predicate RunEndedBy(log: Log, n: nat, r: nat) {
    r < n <= |log| && log[r].RunEnd? && forall i: nat | r < i < n :: !log[i].RunEnd?
  }

  lemma {:induction false} LastRunStartMeans(log: Log, n: nat)
    requires n <= |log|
    ensures forall i: nat | LastRunStart(log, n) < i < n :: !log[i].RunStart?
    ensures forall r: nat :: RunStartedBy(log, n, r) <==> LastRunStart(log, n) == r
  {
    if n > 0 { LastRunStartMeans(log, n - 1); }
    forall r: nat ensures RunStartedBy(log, n, r) <==> LastRunStart(log, n) == r {
    }
  }

  lemma {:induction false} LastRunEndMeans(log: Log, n: nat)
    requires n <= |log|
    ensures forall i: nat | LastRunEnd(log, n) < i < n :: !log[i].RunEnd?
    ensures forall r: nat :: RunEndedBy(log, n, r) <==> LastRunEnd(log, n) == r
  {
    if n > 0 { LastRunEndMeans(log, n - 1); }
    forall r: nat ensures RunEndedBy(log, n, r) <==> LastRunEnd(log, n) == r {
    }
  }

  // ----- the warmup

  /**
   Line k is not in the two seconds after the latest run_start before it.  A cutoff that falls on Go's zero time
   counts as none.
   */
  ghost predicate PastWarmup(log: Log, k: nat)
    requires k < |log|
  {
    forall r: nat | RunStartedBy(log, k, r) :: log[k].ts >= log[r].ts + 2_000_000_000 || log[r].ts + 2_000_000_000 == 0
  }

  lemma {:induction false} CutoffMeans(log: Log, n: nat)
    requires n <= |log|
    ensures Cutoff(log, n) == if LastRunStart(log, n) < 0 then 0 else log[LastRunStart(log, n)].ts + 2_000_000_000
  {
    if n > 0 { CutoffMeans(log, n - 1); }
  }

  lemma {:induction false} CountedMeans(log: Log, k: nat)
    requires k < |log|
    ensures Counted(log, k) <==> PastWarmup(log, k)
  {
    CutoffMeans(log, k);
    LastRunStartMeans(log, k);
    var r := LastRunStart(log, k);
    if r >= 0 { assert RunStartedBy(log, k, r); }
  }

  // ----- durations

  /** `ms` is the duration `d` in milliseconds, cut off toward zero after the third decimal. */
  ghost predicate InMillis(d: int, ms: real) {
    exists u: int :: ms == u as real / 1000.0 && WholeMicros(d, u)
  }

  predicate WholeMicros(d: int, u: int) {
    if d >= 0 then 1000 * u <= d < 1000 * u + 1000 else 1000 * u - 1000 < d <= 1000 * u
  }

  lemma MillisMeans(d: int, ms: real)
    ensures Millis(d) == ms <==> InMillis(d, ms)
  {
    assert WholeMicros(d, Micros(d));
    forall u | WholeMicros(d, u) ensures u == Micros(d) {
    }
  }

  // ----- the samples, line by line

  /** Line k starts a job that line e enqueued, past the warmup. */
  ghost predicate IsPickup(log: Log, k: nat, e: nat) {
    k < |log| && log[k].JobStarted? && EnqueuedBy(log, k, log[k].job, e) && PastWarmup(log, k)
  }

  /** Line k completes a job that line b started for the last time, past the warmup. */
  ghost predicate IsWork(log: Log, k: nat, b: nat) {
    k < |log| && log[k].JobCompleted? && StartedBy(log, k, log[k].job, b) && PastWarmup(log, k)
  }

  /** Line k completes a job that line e enqueued, past the warmup. */
  ghost predicate IsE2E(log: Log, k: nat, e: nat) {
    k < |log| && log[k].JobCompleted? && EnqueuedBy(log, k, log[k].job, e) && PastWarmup(log, k)
  }

  lemma PickupMeans(log: Log, k: nat)
    requires k < |log|
    ensures forall e: nat, ms: real :: IsPickup(log, k, e) && InMillis(log[k].ts - log[e].ts, ms) ==> PickupAt(log, k) == [Sample(log[e].tenant, ms)]
    ensures (forall e: nat :: !IsPickup(log, k, e)) ==> PickupAt(log, k) == []
  {
    CountedMeans(log, k);
    if log[k].JobStarted? {
      var job := log[k].job;
      LastEnqueueMeans(log, k, job);
      var l := LastEnqueue(log, k, job);
      if l >= 0 {
        assert EnqueuedBy(log, k, job, l);
        assert PastWarmup(log, k) ==> IsPickup(log, k, l);
      }
      forall e: nat, ms: real | IsPickup(log, k, e) && InMillis(log[k].ts - log[e].ts, ms)
        ensures PickupAt(log, k) == [Sample(log[e].tenant, ms)]
      {
        MillisMeans(log[k].ts - log[e].ts, ms);
      }
    }
  }

  lemma WorkMeans(log: Log, k: nat)
    requires k < |log|
    ensures forall b: nat, ms: real :: IsWork(log, k, b) && InMillis(log[k].ts - log[b].ts, ms) ==> WorkAt(log, k) == [ms]
    ensures (forall b: nat :: !IsWork(log, k, b)) ==> WorkAt(log, k) == []
  {
    CountedMeans(log, k);
    if log[k].JobCompleted? {
      var job := log[k].job;
      LastStartMeans(log, k, job);
      var l := LastStart(log, k, job);
      if l >= 0 {
        assert StartedBy(log, k, job, l);
        assert PastWarmup(log, k) ==> IsWork(log, k, l);
      }
      forall b: nat, ms: real | IsWork(log, k, b) && InMillis(log[k].ts - log[b].ts, ms) ensures WorkAt(log, k) == [ms] {
        MillisMeans(log[k].ts - log[b].ts, ms);
      }
    }
  }

  lemma E2EMeans(log: Log, k: nat)
    requires k < |log|
    ensures forall e: nat, ms: real :: IsE2E(log, k, e) && InMillis(log[k].ts - log[e].ts, ms) ==> E2EAt(log, k) == [ms]
    ensures (forall e: nat :: !IsE2E(log, k, e)) ==> E2EAt(log, k) == []
  {
    CountedMeans(log, k);
    if log[k].JobCompleted? {
      var job := log[k].job;
      LastEnqueueMeans(log, k, job);
      var l := LastEnqueue(log, k, job);
      if l >= 0 {
        assert EnqueuedBy(log, k, job, l);
        assert PastWarmup(log, k) ==> IsE2E(log, k, l);
      }
      forall e: nat, ms: real | IsE2E(log, k, e) && InMillis(log[k].ts - log[e].ts, ms) ensures E2EAt(log, k) == [ms] {
        MillisMeans(log[k].ts - log[e].ts, ms);
      }
    }
  }

  // ----- the samples of a report

  /** A sample's line and the earlier line it is measured from. */
  datatype Pair = Pair(line: nat, from: nat)

  /** All pairs in `rel` whose line is before n, by line. */
  ghost predicate AllPairs(ps: seq<Pair>, n: nat, rel: (nat, nat) -> bool) {
    && (forall i, j | 0 <= i < j < |ps| :: ps[i].line < ps[j].line)
    && (forall i | 0 <= i < |ps| :: ps[i].line < n && rel(ps[i].line, ps[i].from))
    && (forall k: nat, f: nat | k < n && rel(k, f) :: Pair(k, f) in ps)
  }

  /** The durations of the pairs, in milliseconds. */
  ghost predicate Durations(log: Log, ps: seq<Pair>, ms: seq<real>) {
    && |ms| == |ps|
    && forall i | 0 <= i < |ps| :: ps[i].line < |log| && ps[i].from < |log| && InMillis(log[ps[i].line].ts - log[ps[i].from].ts, ms[i])
  }

  /** What the first n lines contribute. */
  function Collect(n: nat, at: nat -> seq<real>): seq<real> {
    if n == 0 then [] else Collect(n - 1, at) + at(n - 1)
  }

  ghost predicate Paired(rel: (nat, nat) -> bool, k: nat) { exists f: nat :: rel(k, f) }

  lemma {:induction false} LastPair(ps: seq<Pair>, n: nat, rel: (nat, nat) -> bool)
    requires n > 0 && AllPairs(ps, n, rel) && Paired(rel, n - 1)
    ensures ps != [] && ps[|ps| - 1].line == n - 1 && AllPairs(ps[..|ps| - 1], n - 1, rel)
  {
    var f: nat :| rel(n - 1, f);
    var i: nat :| i < |ps| && ps[i] == Pair(n - 1, f);
    var l := |ps| - 1;
    assert i == l;
    forall k: nat, f: nat | k < n - 1 && rel(k, f) ensures Pair(k, f) in ps[..l] {
      var j: nat :| j < |ps| && ps[j] == Pair(k, f);
    }
  }

  lemma {:induction false} NoLastPair(ps: seq<Pair>, n: nat, rel: (nat, nat) -> bool)
    requires n > 0 && AllPairs(ps, n, rel) && !Paired(rel, n - 1)
    ensures AllPairs(ps, n - 1, rel)
  {
  }

  /** Each pair's line contributes its element, every other line nothing. */
  ghost predicate Contributes(ps: seq<Pair>, xs: seq<real>, at: nat -> seq<real>) {
    |xs| == |ps| && forall i | 0 <= i < |ps| :: at(ps[i].line) == [xs[i]]
  }

  ghost predicate OthersNothing(n: nat, rel: (nat, nat) -> bool, at: nat -> seq<real>) {
    forall k: nat | k < n && !Paired(rel, k) :: at(k) == []
  }

  lemma ContributesInit(ps: seq<Pair>, xs: seq<real>, at: nat -> seq<real>)
    requires ps != [] && Contributes(ps, xs, at)
    ensures var l := |ps| - 1; |xs| == l + 1 && Contributes(ps[..l], xs[..l], at) && at(ps[l].line) == [xs[l]] && xs == xs[..l] + [xs[l]]
  {
  }

  lemma OthersFewer(n: nat, rel: (nat, nat) -> bool, at: nat -> seq<real>)
    requires n > 0 && OthersNothing(n, rel, at)
    ensures OthersNothing(n - 1, rel, at) && (!Paired(rel, n - 1) ==> at(n - 1) == [])
  {
  }

  ghost predicate Accounted(ps: seq<Pair>, xs: seq<real>, n: nat, rel: (nat, nat) -> bool, at: nat -> seq<real>) {
    AllPairs(ps, n, rel) && Contributes(ps, xs, at) && OthersNothing(n, rel, at)
  }

  lemma AccountedLess(ps: seq<Pair>, xs: seq<real>, n: nat, rel: (nat, nat) -> bool, at: nat -> seq<real>)
    requires n > 0 && Accounted(ps, xs, n, rel, at)
    ensures var l := |ps| - 1;
            if Paired(rel, n - 1) then
              l >= 0 && |xs| == l + 1 && Accounted(ps[..l], xs[..l], n - 1, rel, at) && xs == xs[..l] + at(n - 1)
            else Accounted(ps, xs, n - 1, rel, at) && at(n - 1) == []
  {
    OthersFewer(n, rel, at);
    if Paired(rel, n - 1) {
      LastPair(ps, n, rel);
      ContributesInit(ps, xs, at);
    } else {
      NoLastPair(ps, n, rel);
    }
  }

  lemma {:induction false} Listed(ps: seq<Pair>, xs: seq<real>, n: nat, rel: (nat, nat) -> bool, at: nat -> seq<real>)
    ensures Accounted(ps, xs, n, rel, at) ==> Collect(n, at) == xs
  {
    if Accounted(ps, xs, n, rel, at) {
      if n == 0 {
        assert |ps| > 0 ==> ps[0].line < 0;
      } else {
        AccountedLess(ps, xs, n, rel, at);
        if Paired(rel, n - 1) {
          Listed(ps[..|ps| - 1], xs[..|ps| - 1], n - 1, rel, at);
        } else {
          Listed(ps, xs, n - 1, rel, at);
        }
      }
    }
  }

  /** Every relation that pairs a line with at most one other has such a list. */
  lemma {:induction false} PairsExist(n: nat, rel: (nat, nat) -> bool) returns (ps: seq<Pair>)
    requires forall k: nat, f: nat, g: nat | rel(k, f) && rel(k, g) :: f == g
    ensures AllPairs(ps, n, rel)
  {
    ps := [];
    if n > 0 {
      ps := PairsExist(n - 1, rel);
      if Paired(rel, n - 1) {
        var f: nat :| rel(n - 1, f);
        ps := ps + [Pair(n - 1, f)];
      }
    }
  }

  /** What line k adds to the pickups, to those of one tenant if one is given, to the work durations and to the end-to-end ones. */
  function PickupFrom(log: Log, t: Option<string>): nat -> seq<real> {
    (k: nat) => if k < |log| then MsOf(PickupAt(log, k), t) else []
  }

  function WorkFrom(log: Log): nat -> seq<real> { (k: nat) => if k < |log| then WorkAt(log, k) else [] }

  function E2EFrom(log: Log): nat -> seq<real> { (k: nat) => if k < |log| then E2EAt(log, k) else [] }

  lemma {:induction false} PickupsCollect(log: Log, n: nat, t: Option<string>)
    requires n <= |log|
    ensures Collect(n, PickupFrom(log, t)) == MsOf(Pickups(log, n), t)
  {
    for k := 0 to n
      invariant Collect(k, PickupFrom(log, t)) == MsOf(Pickups(log, k), t)
    {
      NextPickup(log, k, t);
    }
  }

  lemma {:induction false} NextPickup(log: Log, k: nat, t: Option<string>)
    requires k < |log|
    ensures MsOf(Pickups(log, k + 1), t) == MsOf(Pickups(log, k), t) + PickupFrom(log, t)(k)
  {
    AtMostOne(log, k);
    PickOf(Pickups(log, k), PickupAt(log, k), t);
  }

  lemma {:induction false} AtMostOne(log: Log, k: nat)
    requires k < |log|
    ensures |PickupAt(log, k)| <= 1
  {
  }

  /** The durations of the samples, or of one tenant's. */
  function MsOf(ps: seq<Sample>, t: Option<string>): seq<real> {
    if t.None? then All(ps) else Of(ps, t.value)
  }

  lemma {:induction false} PickOf(ps: seq<Sample>, at: seq<Sample>, t: Option<string>)
    requires |at| <= 1
    ensures MsOf(ps + at, t) == MsOf(ps, t) + MsOf(at, t)
    ensures MsOf(at, t) == if at != [] && (t.None? || at[0].tenant == t.value) then [at[0].ms] else []
  {
    AppendSamples(ps, at);
    OneSample(at);
  }

  lemma {:induction false} OneSample(at: seq<Sample>)
    requires |at| <= 1
    ensures All(at) == if at == [] then [] else [at[0].ms]
    ensures forall t :: Of(at, t) == if at != [] && at[0].tenant == t then [at[0].ms] else []
  {
    if at != [] { assert at[..0] == []; }
  }

  lemma {:induction false} WorksCollect(log: Log, n: nat)
    requires n <= |log|
    ensures Collect(n, WorkFrom(log)) == Works(log, n)
  {
    if n > 0 { WorksCollect(log, n - 1); }
  }

  lemma {:induction false} E2EsCollect(log: Log, n: nat)
    requires n <= |log|
    ensures Collect(n, E2EFrom(log)) == E2Es(log, n)
  {
    if n > 0 { E2EsCollect(log, n - 1); }
  }

  // ----- the three relations, and the report's statistics

  /** The pickups of all tenants, or of the tenant that the enqueue line names. */
  ghost function PickupsOf(log: Log, t: Option<string>): (nat, nat) -> bool {
    (k: nat, e: nat) => IsPickup(log, k, e) && (t.None? || log[e].tenant == t.value)
  }

  ghost function WorksOf(log: Log): (nat, nat) -> bool { (k: nat, b: nat) => IsWork(log, k, b) }

  ghost function E2EsOf(log: Log): (nat, nat) -> bool { (k: nat, e: nat) => IsE2E(log, k, e) }

  lemma {:induction false} PickupsListed(log: Log, t: Option<string>, ps: seq<Pair>, ms: seq<real>)
    requires AllPairs(ps, |log|, PickupsOf(log, t)) && Durations(log, ps, ms)
    ensures ms == MsOf(Pickups(log, |log|), t)
  {
    var rel, at := PickupsOf(log, t), PickupFrom(log, t);
    forall i | 0 <= i < |ps| ensures at(ps[i].line) == [ms[i]] {
      var k, e := ps[i].line, ps[i].from;
      assert rel(k, e);
      PickupMeans(log, k);
      assert IsPickup(log, k, e) && InMillis(log[k].ts - log[e].ts, ms[i]);
      assert PickupAt(log, k) == [Sample(log[e].tenant, ms[i])];
      PickOf([], PickupAt(log, k), t);
    }
    forall k: nat | k < |log| && !Paired(rel, k) ensures at(k) == [] { NotPickedUp(log, k, t); }
    Listed(ps, ms, |log|, rel, at);
    PickupsCollect(log, |log|, t);
  }

  lemma {:induction false} NotPickedUp(log: Log, k: nat, t: Option<string>)
    requires k < |log| && !Paired(PickupsOf(log, t), k)
    ensures PickupFrom(log, t)(k) == []
  {
    PickupMeans(log, k);
    PickOf([], PickupAt(log, k), t);
    if e: nat :| IsPickup(log, k, e) {
      MillisMeans(log[k].ts - log[e].ts, Millis(log[k].ts - log[e].ts));
      assert PickupAt(log, k) == [Sample(log[e].tenant, Millis(log[k].ts - log[e].ts))];
      assert !PickupsOf(log, t)(k, e);
    }
  }

  lemma {:induction false} WorksListed(log: Log, ps: seq<Pair>, ms: seq<real>)
    requires AllPairs(ps, |log|, WorksOf(log)) && Durations(log, ps, ms)
    ensures ms == Works(log, |log|)
  {
    var rel, at := WorksOf(log), WorkFrom(log);
    forall i | 0 <= i < |ps| ensures at(ps[i].line) == [ms[i]] {
      assert rel(ps[i].line, ps[i].from);
      WorkMeans(log, ps[i].line);
    }
    forall k: nat | k < |log| && !Paired(rel, k) ensures at(k) == [] {
      forall b: nat ensures !IsWork(log, k, b) { assert !rel(k, b); }
      WorkMeans(log, k);
    }
    Listed(ps, ms, |log|, rel, at);
    WorksCollect(log, |log|);
  }

  lemma {:induction false} E2EsListed(log: Log, ps: seq<Pair>, ms: seq<real>)
    requires AllPairs(ps, |log|, E2EsOf(log)) && Durations(log, ps, ms)
    ensures ms == E2Es(log, |log|)
  {
    var rel, at := E2EsOf(log), E2EFrom(log);
    forall i | 0 <= i < |ps| ensures at(ps[i].line) == [ms[i]] {
      assert rel(ps[i].line, ps[i].from);
      E2EMeans(log, ps[i].line);
    }
    forall k: nat | k < |log| && !Paired(rel, k) ensures at(k) == [] {
      forall e: nat ensures !IsE2E(log, k, e) { assert !rel(k, e); }
      E2EMeans(log, k);
    }
    Listed(ps, ms, |log|, rel, at);
    E2EsCollect(log, |log|);
  }

  /** The pickup statistics are those of the times from a job's latest enqueue line to each of its counted start lines. */
  lemma PickupsOfReport(s: Summary, log: Log, ps: seq<Pair>, ms: seq<real>)
    requires IsSummaryOf(s, log) && AllPairs(ps, |log|, PickupsOf(log, None)) && Durations(log, ps, ms)
    ensures Summarizes(s.pickup, ms)
  {
    PickupsListed(log, None, ps, ms);
    SummaryMeans(ms);
  }

  /** The work statistics are those of the times from a job's latest start line to its counted completion lines. */
  lemma WorksOfReport(s: Summary, log: Log, ps: seq<Pair>, ms: seq<real>)
    requires IsSummaryOf(s, log) && AllPairs(ps, |log|, WorksOf(log)) && Durations(log, ps, ms)
    ensures Summarizes(s.work, ms)
  {
    WorksListed(log, ps, ms);
    SummaryMeans(ms);
  }

  /** The end-to-end statistics are those of the times from a job's latest enqueue line to its counted completion lines. */
  lemma E2EsOfReport(s: Summary, log: Log, ps: seq<Pair>, ms: seq<real>)
    requires IsSummaryOf(s, log) && AllPairs(ps, |log|, E2EsOf(log)) && Durations(log, ps, ms)
    ensures Summarizes(s.e2e, ms)
  {
    E2EsListed(log, ps, ms);
    SummaryMeans(ms);
  }

  /** Such lists of pairs exist for every log. */
  lemma PairsOfLog(log: Log, t: Option<string>) returns (pickups: seq<Pair>, works: seq<Pair>, e2es: seq<Pair>)
    ensures AllPairs(pickups, |log|, PickupsOf(log, t)) && AllPairs(works, |log|, WorksOf(log)) && AllPairs(e2es, |log|, E2EsOf(log))
  {
    pickups := PairsExist(|log|, PickupsOf(log, t));
    works := PairsExist(|log|, WorksOf(log));
    e2es := PairsExist(|log|, E2EsOf(log));
  }

  // ----- counts

  lemma {:induction false} SetGrows(a: set<nat>, b: set<nat>, n: nat, more: bool)
    requires (forall k | k in a :: k < n) && (forall k :: k in b <==> k in a || (k == n && more))
    ensures |b| == |a| + (if more then 1 else 0)
  {
    assert b == if more then a + {n} else a;
  }

  lemma {:induction false} EnqueuesMean(log: Log, n: nat, t: string)
    requires n <= |log|
    ensures Enqueues(log, n, t) == |set k: nat | k < n && log[k].JobEnqueued? && log[k].tenant == t|
  {
    if n > 0 {
      EnqueuesMean(log, n - 1, t);
      SetGrows((set k: nat | k < n - 1 && log[k].JobEnqueued? && log[k].tenant == t),
               (set k: nat | k < n && log[k].JobEnqueued? && log[k].tenant == t), n - 1, log[n - 1].JobEnqueued? && log[n - 1].tenant == t);
    }
  }

  /** Some line before n says that a job of `t` was enqueued. */
  predicate SeenTenant(log: Log, n: nat, t: string) {
    exists i: nat :: i < n && i < |log| && log[i].JobEnqueued? && log[i].tenant == t
  }

  lemma {:induction false} EnqueuesPositive(log: Log, n: nat, t: string)
    requires n <= |log|
    ensures Enqueues(log, n, t) > 0 <==> SeenTenant(log, n, t)
  {
    if n > 0 { EnqueuesPositive(log, n - 1, t); }
  }

  predicate CompletesFor(log: Log, k: nat, t: string) {
    k < |log| && log[k].JobCompleted? && log[k].tenant == t && SeenTenant(log, k, t)
  }

  lemma {:induction false} CompletionsMean(log: Log, n: nat, t: string)
    requires n <= |log|
    ensures Completions(log, n, t) == |set k: nat | k < n && CompletesFor(log, k, t)|
  {
    if n > 0 {
      CompletionsMean(log, n - 1, t);
      EnqueuesPositive(log, n - 1, t);
      SetGrows((set k: nat | k < n - 1 && CompletesFor(log, k, t)), (set k: nat | k < n && CompletesFor(log, k, t)),
               n - 1, CompletesFor(log, n - 1, t));
    }
  }

  predicate FailsWith(e: Event, c: string) {
    e.JobFailed? && if e.cls == "" then c == "unclassified" else e.cls == c
  }

  lemma {:induction false} FailuresMean(log: Log, n: nat, c: string)
    requires n <= |log|
    ensures Failures(log, n, c) == |set k: nat | k < n && FailsWith(log[k], c)|
  {
    if n > 0 {
      FailuresMean(log, n - 1, c);
      SetGrows((set k: nat | k < n - 1 && FailsWith(log[k], c)), (set k: nat | k < n && FailsWith(log[k], c)), n - 1, FailsWith(log[n - 1], c));
    }
  }

  /**
   A tenant is listed exactly if a line says that a job of it was enqueued; its counts are numbers of lines, and
   its statistics are those of the pickups whose enqueue line names it.
   */
  lemma TenantOfReport(s: Summary, log: Log, t: string, ps: seq<Pair>, ms: seq<real>)
    requires IsSummaryOf(s, log) && AllPairs(ps, |log|, PickupsOf(log, Some(t))) && Durations(log, ps, ms)
    ensures t in s.perTenant <==> SeenTenant(log, |log|, t)
    ensures t in s.perTenant ==>
              && s.perTenant[t].enqueued == |set k: nat | k < |log| && log[k].JobEnqueued? && log[k].tenant == t|
              && s.perTenant[t].completed == |set k: nat | k < |log| && CompletesFor(log, k, t)|
              && Summarizes(s.perTenant[t].pickup, ms)
  {
    assert TenantOk(s, log, t);
    EnqueuesPositive(log, |log|, t);
    EnqueuesMean(log, |log|, t);
    CompletionsMean(log, |log|, t);
    PickupsListed(log, Some(t), ps, ms);
    SummaryMeans(ms);
  }

  /** A class is counted once per failure line that names it; a line without a class counts as unclassified. */
  lemma ErrorsOfReport(s: Summary, log: Log, c: string)
    requires IsSummaryOf(s, log)
    ensures (if c in s.errors then s.errors[c] else 0) == |set k: nat | k < |log| && FailsWith(log[k], c)|
  {
    assert ErrorAgrees(s.errors, log, |log|, c);
    FailuresMean(log, |log|, c);
  }

  // ----- header fields

  /** Lines from k up to n do not carry the field. */
  ghost predicate CarriedByNone<T>(log: Log, k: nat, n: nat, f: Event -> Option<T>) {
    forall i: nat | k <= i < n && i < |log| :: f(log[i]).None?
  }

  lemma {:induction false} LatestMeans<T>(log: Log, n: nat, f: Event -> Option<T>, d: T, k: nat)
    requires k < n <= |log| && f(log[k]).Some? && CarriedByNone(log, k + 1, n, f)
    ensures Latest(log, n, f, d) == f(log[k]).value
  {
    if k < n - 1 {
      assert f(log[n - 1]).None?;
      LatestMeans(log, n - 1, f, d, k);
    }
  }

  lemma {:induction false} LatestOfNone<T>(log: Log, n: nat, f: Event -> Option<T>, d: T)
    requires n <= |log| && CarriedByNone(log, 0, n, f)
    ensures Latest(log, n, f, d) == d
  {
    if n > 0 {
      assert f(log[n - 1]).None?;
      LatestOfNone(log, n - 1, f, d);
    }
  }

  /** The run's bounds come from the last run_start and the last run_end line. */
  lemma BoundsOfReport(s: Summary, log: Log)
    requires IsSummaryOf(s, log)
    ensures forall r: nat | RunStartedBy(log, |log|, r) :: s.start == log[r].ts
    ensures forall r: nat | RunEndedBy(log, |log|, r) :: s.end == log[r].ts
    ensures (forall i: nat | i < |log| :: !log[i].RunStart?) ==> s.start == 0
    ensures (forall i: nat | i < |log| :: !log[i].RunEnd?) ==> s.end == 0
  {
    LastRunStartMeans(log, |log|);
    LastRunEndMeans(log, |log|);
  }

  /** A label comes from the last run_start line that carries it. */
  lemma LabelsOfReport(s: Summary, log: Log, k: nat)
    requires IsSummaryOf(s, log) && k < |log| && log[k].RunStart?
    ensures log[k].library.Some? && (forall i: nat | k < i < |log| && log[i].RunStart? :: log[i].library.None?) ==> s.library == log[k].library.value
    ensures log[k].scenario.Some? && (forall i: nat | k < i < |log| && log[i].RunStart? :: log[i].scenario.None?) ==> s.scenario == log[k].scenario.value
  {
    if LibraryOf(log[k]).Some? && CarriedByNone(log, k + 1, |log|, LibraryOf) { LatestMeans(log, |log|, LibraryOf, "", k); }
    if ScenarioOf(log[k]).Some? && CarriedByNone(log, k + 1, |log|, ScenarioOf) { LatestMeans(log, |log|, ScenarioOf, "", k); }
  }

  /** A total comes from the last run_end line that carries it. */
  lemma TotalsOfReport(s: Summary, log: Log, k: nat)
    requires IsSummaryOf(s, log) && k < |log| && log[k].RunEnd?
    ensures log[k].completed.Some? && (forall i: nat | k < i < |log| && log[i].RunEnd? :: log[i].completed.None?) ==> s.completed == log[k].completed.value
    ensures log[k].enqueued.Some? && (forall i: nat | k < i < |log| && log[i].RunEnd? :: log[i].enqueued.None?) ==> s.enqueued == log[k].enqueued.value
    ensures log[k].failed.Some? && (forall i: nat | k < i < |log| && log[i].RunEnd? :: log[i].failed.None?) ==> s.failed == log[k].failed.value
  {
    if CompletedOf(log[k]).Some? && CarriedByNone(log, k + 1, |log|, CompletedOf) { LatestMeans(log, |log|, CompletedOf, 0, k); }
    if EnqueuedOf(log[k]).Some? && CarriedByNone(log, k + 1, |log|, EnqueuedOf) { LatestMeans(log, |log|, EnqueuedOf, 0, k); }
    if FailedOf(log[k]).Some? && CarriedByNone(log, k + 1, |log|, FailedOf) { LatestMeans(log, |log|, FailedOf, 0, k); }
  }

  /** Fields that no line carries are empty. */
  lemma MissingFields(s: Summary, log: Log)
    requires IsSummaryOf(s, log)
    ensures (forall i: nat | i < |log| && log[i].RunStart? :: log[i].library.None?) ==> s.library == ""
    ensures (forall i: nat | i < |log| && log[i].RunStart? :: log[i].scenario.None?) ==> s.scenario == ""
    ensures (forall i: nat | i < |log| && log[i].RunEnd? :: log[i].completed.None?) ==> s.completed == 0
    ensures (forall i: nat | i < |log| && log[i].RunEnd? :: log[i].enqueued.None?) ==> s.enqueued == 0
    ensures (forall i: nat | i < |log| && log[i].RunEnd? :: log[i].failed.None?) ==> s.failed == 0
  {
    if CarriedByNone(log, 0, |log|, LibraryOf) { LatestOfNone(log, |log|, LibraryOf, ""); }
    if CarriedByNone(log, 0, |log|, ScenarioOf) { LatestOfNone(log, |log|, ScenarioOf, ""); }
    if CarriedByNone(log, 0, |log|, CompletedOf) { LatestOfNone(log, |log|, CompletedOf, 0); }
    if CarriedByNone(log, 0, |log|, EnqueuedOf) { LatestOfNone(log, |log|, EnqueuedOf, 0); }
    if CarriedByNone(log, 0, |log|, FailedOf) { LatestOfNone(log, |log|, FailedOf, 0); }
  }

  lemma {:induction false} PeakMeans(log: Log, n: nat, f: Event -> Option<int>)
    requires n <= |log|
    ensures Peak(log, n, f) >= 0 && forall k: nat | k < n && f(log[k]).Some? :: f(log[k]).value <= Peak(log, n, f)
    ensures Peak(log, n, f) > 0 ==> exists k: nat :: k < n && f(log[k]) == Some(Peak(log, n, f))
  {
    if n > 0 { PeakMeans(log, n - 1, f); }
  }

  /** The peaks are the greatest samples, and 0 if none is positive. */
  lemma PeaksOfReport(s: Summary, log: Log)
    requires IsSummaryOf(s, log)
    ensures s.maxGoroutines >= 0 && s.maxRSS >= 0
    ensures forall k: nat | k < |log| && log[k].ResourceSample? && log[k].goroutines.Some? :: log[k].goroutines.value <= s.maxGoroutines
    ensures forall k: nat | k < |log| && log[k].ResourceSample? && log[k].rss.Some? :: log[k].rss.value <= s.maxRSS
    ensures s.maxGoroutines > 0 ==> exists k: nat :: k < |log| && log[k].ResourceSample? && log[k].goroutines == Some(s.maxGoroutines)
    ensures s.maxRSS > 0 ==> exists k: nat :: k < |log| && log[k].ResourceSample? && log[k].rss == Some(s.maxRSS)
  {
    PeakMeans(log, |log|, GoroutinesOf);
    PeakMeans(log, |log|, RssOf);
    assert forall k: nat | k < |log| && log[k].ResourceSample? && log[k].goroutines.Some? :: GoroutinesOf(log[k]) == log[k].goroutines;
    assert forall k: nat | k < |log| && log[k].ResourceSample? && log[k].rss.Some? :: RssOf(log[k]) == log[k].rss;
  }

  /** Completed jobs per second over `d` nanoseconds, 0 if one of the two is not positive. */
  predicate IsRate(x: real, completed: int, d: int) {
    if d > 0 && completed > 0 then x * d as real == completed as real * 1_000_000_000.0 else x == 0.0
  }

  lemma ThroughputOfReport(s: Summary, log: Log)
    requires IsSummaryOf(s, log)
    ensures IsRate(s.throughput, s.completed, s.end - s.start)
  {
    ThroughputMeans(s.completed, s.end - s.start);
  }

  lemma ThroughputMeans(completed: int, duration: int)
    ensures IsRate(Throughput(completed, duration), completed, duration)
  {
    if duration > 0 && completed > 0 { PerSecond(completed as real, duration as real); }
  }

  lemma PerSecond(c: real, d: real)
    requires d > 0.0
    ensures c / (d / 1_000_000_000.0) * d == c * 1_000_000_000.0
  {
    var q := d / 1_000_000_000.0;
    assert q > 0.0 && d == q * 1_000_000_000.0;
    assert c / q * q == c;
  }
}
