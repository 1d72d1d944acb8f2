/** analyzeReader: one pass over the events with five maps, proved equal to AnalyzerSpec. */
module Analyzer {
  import opened Options
  import opened Events
  import opened AnalyzerSpec
  import opened OrderStats

  datatype Counts = Counts(enqueued: nat, completed: nat)

  datatype TenantStats = TenantStats(enqueued: nat, completed: nat, pickup: LatencyStats)

  datatype Summary = Summary(
    library: string, scenario: string, start: int, end: int,
    enqueued: int, completed: int, failed: int, throughput: real,
    pickup: LatencyStats, work: LatencyStats, e2e: LatencyStats,
    errors: map<string, nat>, perTenant: map<string, TenantStats>,
    maxGoroutines: int, maxRSS: int)

  // The local variables of the scan loop, in four groups.

  datatype Header = Header(library: string, scenario: string, start: int, end: int,
                           enqueued: int, completed: int, failed: int, warmupEnd: int)

  datatype JobMaps = JobMaps(enqueueTS: map<string, int>, startTS: map<string, int>, tenantByJob: map<string, string>)

  datatype Latencies = Latencies(pickups: seq<real>, works: seq<real>, e2es: seq<real>, byTenant: map<string, seq<real>>)

  datatype Tally = Tally(counts: map<string, Counts>, errors: map<string, nat>)

  datatype Peaks = Peaks(goroutines: int, rss: int)

  function Or<T>(o: Option<T>, d: T): T {
    if o.Some? then o.value else d
  }

  function SamplesOf(m: map<string, seq<real>>, t: string): seq<real> {
    if t in m then m[t] else []
  }

  function CountOf(m: map<string, nat>, k: string): nat {
    if k in m then m[k] else 0
  }

  // The switch on the event kind: what each kind of line does to each group.

  function ReadHeader(h: Header, ev: Event): Header {
    match ev
    case RunStart(ts, lib, sc) =>
      h.(start := ts, warmupEnd := ts + WARMUP, library := Or(lib, h.library), scenario := Or(sc, h.scenario))
    case RunEnd(ts, c, e, f) =>
      h.(end := ts, completed := Or(c, h.completed), enqueued := Or(e, h.enqueued), failed := Or(f, h.failed))
    case _ => h
  }

  function ReadJob(m: JobMaps, ev: Event): JobMaps {
    match ev
    case JobEnqueued(ts, job, tenant) => m.(enqueueTS := m.enqueueTS[job := ts], tenantByJob := m.tenantByJob[job := tenant])
    case JobStarted(ts, job) => m.(startTS := m.startTS[job := ts])
    case _ => m
  }

  predicate Warm(warmupEnd: int, ts: int) {
    warmupEnd != 0 && ts < warmupEnd
  }

  function AddPickup(l: Latencies, m: JobMaps, job: string, ms: real): Latencies {
    if job !in m.tenantByJob then l.(pickups := l.pickups + [ms])
    else
      var t := m.tenantByJob[job];
      l.(pickups := l.pickups + [ms], byTenant := l.byTenant[t := SamplesOf(l.byTenant, t) + [ms]])
  }

  function ReadLatency(l: Latencies, m: JobMaps, warmupEnd: int, ev: Event): Latencies {
    match ev
    case JobStarted(ts, job) =>
      if Warm(warmupEnd, ts) || job !in m.enqueueTS then l else AddPickup(l, m, job, Millis(ts - m.enqueueTS[job]))
    case JobCompleted(ts, job, _) =>
      if Warm(warmupEnd, ts) then l
      else l.(works := if job in m.startTS then l.works + [Millis(ts - m.startTS[job])] else l.works,
              e2es := if job in m.enqueueTS then l.e2es + [Millis(ts - m.enqueueTS[job])] else l.e2es)
    case _ => l
  }

  function ReadTally(t: Tally, ev: Event): Tally {
    match ev
    case JobEnqueued(_, _, tenant) =>
      var c := if tenant in t.counts then t.counts[tenant] else Counts(0, 0);
      t.(counts := t.counts[tenant := c.(enqueued := c.enqueued + 1)])
    case JobCompleted(_, _, tenant) =>
      if tenant !in t.counts then t
      else t.(counts := t.counts[tenant := t.counts[tenant].(completed := t.counts[tenant].completed + 1)])
    case JobFailed(_, cls) => t.(errors := t.errors[ClassOf(cls) := CountOf(t.errors, ClassOf(cls)) + 1])
    case _ => t
  }

  function Larger(a: int, b: Option<int>): int {
    if b.Some? && b.value > a then b.value else a
  }

  function ReadPeaks(p: Peaks, ev: Event): Peaks {
    if ev.ResourceSample? then Peaks(Larger(p.goroutines, ev.goroutines), Larger(p.rss, ev.rss)) else p
  }

  // ----- what the variables hold after `n` lines

  predicate JobAgrees(m: JobMaps, log: Log, n: nat, j: string)
    requires n <= |log|
  {
    var e, b := LastEnqueue(log, n, j), LastStart(log, n, j);
    && (j in m.enqueueTS <==> e >= 0) && (j in m.tenantByJob <==> e >= 0) && (j in m.startTS <==> b >= 0)
    && (e >= 0 ==> m.enqueueTS[j] == log[e].ts && m.tenantByJob[j] == log[e].tenant)
    && (b >= 0 ==> m.startTS[j] == log[b].ts)
  }

  ghost predicate JobsAgree(m: JobMaps, log: Log, n: nat)
    requires n <= |log|
  {
    forall j :: JobAgrees(m, log, n, j)
  }

  ghost predicate LatenciesAgree(l: Latencies, log: Log, n: nat)
    requires n <= |log|
  {
    && PickupsAgree(l, Pickups(log, n))
    && l.works == Works(log, n)
    && l.e2es == E2Es(log, n)
  }

  predicate TenantAgrees(counts: map<string, Counts>, log: Log, n: nat, t: string)
    requires n <= |log|
  {
    && (t in counts <==> Enqueues(log, n, t) > 0)
    && (if t in counts then counts[t] == Counts(Enqueues(log, n, t), Completions(log, n, t)) else Completions(log, n, t) == 0)
  }

  predicate ErrorAgrees(errors: map<string, nat>, log: Log, n: nat, c: string)
    requires n <= |log|
  {
    CountOf(errors, c) == Failures(log, n, c)
  }

  ghost predicate TallyAgrees(t: Tally, log: Log, n: nat)
    requires n <= |log|
  {
    && (forall x :: TenantAgrees(t.counts, log, n, x))
    && (forall c :: ErrorAgrees(t.errors, log, n, c))
  }

  ghost predicate HeaderAgrees(h: Header, log: Log, n: nat)
    requires n <= |log|
  {
    && h.warmupEnd == Cutoff(log, n)
    && h.start == (if LastRunStart(log, n) < 0 then 0 else log[LastRunStart(log, n)].ts)
    && h.end == (if LastRunEnd(log, n) < 0 then 0 else log[LastRunEnd(log, n)].ts)
    && h.completed == Latest(log, n, CompletedOf, 0)
    && h.enqueued == Latest(log, n, EnqueuedOf, 0)
    && h.failed == Latest(log, n, FailedOf, 0)
    && h.library == Latest(log, n, LibraryOf, "")
    && h.scenario == Latest(log, n, ScenarioOf, "")
  }


  lemma {:induction false} JobStep(m: JobMaps, log: Log, n: nat, n': nat, j: string)
    requires n < |log| && n' == n + 1 && JobAgrees(m, log, n, j)
    ensures JobAgrees(ReadJob(m, log[n]), log, n', j)
  {
  }

  lemma {:induction false} JobsStep(m: JobMaps, log: Log, n: nat)
    requires n < |log| && JobsAgree(m, log, n)
    ensures JobsAgree(ReadJob(m, log[n]), log, n + 1)
  {
    var m', n' := ReadJob(m, log[n]), n + 1;
    forall j ensures JobAgrees(m', log, n', j) {
      JobStep(m, log, n, n', j);
    }
  }

  /** What a list of at most one pickup sample does to the accumulators. */
  function Accumulate(l: Latencies, at: seq<Sample>): Latencies {
    if at == [] then l
    else l.(pickups := l.pickups + [at[0].ms], byTenant := l.byTenant[at[0].tenant := SamplesOf(l.byTenant, at[0].tenant) + [at[0].ms]])
  }

  lemma {:induction false} StartAccumulates(l: Latencies, m: JobMaps, warmupEnd: int, log: Log, n: nat)
    requires n < |log| && log[n].JobStarted? && warmupEnd == Cutoff(log, n) && JobAgrees(m, log, n, log[n].job)
    ensures ReadLatency(l, m, warmupEnd, log[n]) == Accumulate(l, PickupAt(log, n))
  {
  }

  ghost predicate PickupsAgree(l: Latencies, ps: seq<Sample>) {
    l.pickups == All(ps) && forall t :: SamplesOf(l.byTenant, t) == Of(ps, t)
  }

  lemma {:induction false} AccumulateAgrees(l: Latencies, ps: seq<Sample>, at: seq<Sample>)
    requires |at| <= 1 && PickupsAgree(l, ps)
    ensures PickupsAgree(Accumulate(l, at), ps + at)
  {
    AppendSamples(ps, at);
  }

  lemma {:induction false} CompletionAccumulates(l: Latencies, m: JobMaps, warmupEnd: int, log: Log, n: nat)
    requires n < |log| && log[n].JobCompleted? && warmupEnd == Cutoff(log, n) && JobAgrees(m, log, n, log[n].job)
    ensures ReadLatency(l, m, warmupEnd, log[n]) == l.(works := l.works + WorkAt(log, n), e2es := l.e2es + E2EAt(log, n))
  {
  }

  lemma {:induction false} LatencyStep(l: Latencies, m: JobMaps, warmupEnd: int, log: Log, n: nat)
    requires n < |log| && JobsAgree(m, log, n) && LatenciesAgree(l, log, n) && warmupEnd == Cutoff(log, n)
    ensures LatenciesAgree(ReadLatency(l, m, warmupEnd, log[n]), log, n + 1)
  {
    AccumulateAgrees(l, Pickups(log, n), PickupAt(log, n));
    if log[n].JobStarted? {
      assert JobAgrees(m, log, n, log[n].job);
      StartAccumulates(l, m, warmupEnd, log, n);
    } else if log[n].JobCompleted? {
      assert JobAgrees(m, log, n, log[n].job);
      CompletionAccumulates(l, m, warmupEnd, log, n);
    }
  }

  lemma {:induction false} AppendSamples(ps: seq<Sample>, at: seq<Sample>)
    requires |at| <= 1
    ensures All(ps + at) == All(ps) + (if at == [] then [] else [at[0].ms])
    ensures forall t :: Of(ps + at, t) == Of(ps, t) + (if at != [] && at[0].tenant == t then [at[0].ms] else [])
  {
    if at == [] {
      assert ps + at == ps;
    } else {
      assert (ps + at)[..|ps + at| - 1] == ps;
    }
  }

  lemma {:induction false} TenantStep(t: Tally, log: Log, n: nat, n': nat, x: string)
    requires n < |log| && n' == n + 1 && TenantAgrees(t.counts, log, n, x)
    ensures TenantAgrees(ReadTally(t, log[n]).counts, log, n', x)
  {
  }

  lemma {:induction false} TallyStep(t: Tally, log: Log, n: nat)
    requires n < |log| && TallyAgrees(t, log, n)
    ensures TallyAgrees(ReadTally(t, log[n]), log, n + 1)
  {
    var counts', n' := ReadTally(t, log[n]).counts, n + 1;
    forall x ensures TenantAgrees(counts', log, n', x) {
      TenantStep(t, log, n, n', x);
    }
    var errors' := ReadTally(t, log[n]).errors;
    forall c ensures ErrorAgrees(errors', log, n', c) {
      ErrorStep(t, log, n, n', c);
    }
  }

  lemma {:induction false} ErrorStep(t: Tally, log: Log, n: nat, n': nat, c: string)
    requires n < |log| && n' == n + 1 && ErrorAgrees(t.errors, log, n, c)
    ensures ErrorAgrees(ReadTally(t, log[n]).errors, log, n', c)
  {
  }

  lemma {:induction false} HeaderStep(h: Header, log: Log, n: nat)
    requires n < |log| && HeaderAgrees(h, log, n)
    ensures HeaderAgrees(ReadHeader(h, log[n]), log, n + 1)
  {
  }

  // ----- the scan

  datatype Report = Report(summary: Summary) | ParseError | RunEventsMissing

  predicate AllParsed(lines: seq<Option<Event>>) {
    forall i: nat | i < |lines| :: lines[i].Some?
  }

  function Parsed(lines: seq<Option<Event>>): (log: Log)
    requires AllParsed(lines)
    ensures |log| == |lines| && forall i: nat | i < |lines| :: log[i] == lines[i].value
  {
    seq(|lines|, i requires 0 <= i < |lines| => lines[i].value)
  }

  function StartOf(log: Log): int {
    if LastRunStart(log, |log|) < 0 then 0 else log[LastRunStart(log, |log|)].ts
  }

  function EndOf(log: Log): int {
    if LastRunEnd(log, |log|) < 0 then 0 else log[LastRunEnd(log, |log|)].ts
  }

  function Throughput(completed: int, duration: int): real {
    if duration > 0 && completed > 0 then completed as real / (duration as real / 1_000_000_000.0) else 0.0
  }

  predicate TenantOk(s: Summary, log: Log, t: string) {
    var n := |log|;
    && (t in s.perTenant <==> Enqueues(log, n, t) > 0)
    && (t in s.perTenant ==> s.perTenant[t] == TenantStats(Enqueues(log, n, t), Completions(log, n, t), StatsOf(Of(Pickups(log, n), t))))
  }

  /** The summary means what AnalyzerSpec says, tenant by tenant and class by class. */
  ghost predicate IsSummaryOf(s: Summary, log: Log) {
    var n := |log|;
    && s.start == StartOf(log) && s.end == EndOf(log)
    && s.library == Latest(log, n, LibraryOf, "") && s.scenario == Latest(log, n, ScenarioOf, "")
    && s.enqueued == Latest(log, n, EnqueuedOf, 0) && s.completed == Latest(log, n, CompletedOf, 0) && s.failed == Latest(log, n, FailedOf, 0)
    && s.maxGoroutines == Peak(log, n, GoroutinesOf) && s.maxRSS == Peak(log, n, RssOf)
    && s.throughput == Throughput(s.completed, s.end - s.start)
    && s.pickup == StatsOf(All(Pickups(log, n)))
    && s.work == StatsOf(Works(log, n))
    && s.e2e == StatsOf(E2Es(log, n))
    && (forall c :: ErrorAgrees(s.errors, log, n, c))
    && (forall t :: TenantOk(s, log, t))
  }

  method PerTenant(counts: map<string, Counts>, byTenant: map<string, seq<real>>) returns (r: map<string, TenantStats>)
    ensures r.Keys == counts.Keys
    ensures forall t | t in counts :: r[t] == TenantStats(counts[t].enqueued, counts[t].completed, StatsOf(SamplesOf(byTenant, t)))
  {
    r := map[];
    var todo := counts.Keys;
    while todo != {}
      invariant todo <= counts.Keys && r.Keys == counts.Keys - todo
      invariant forall t | t in r :: r[t] == TenantStats(counts[t].enqueued, counts[t].completed, StatsOf(SamplesOf(byTenant, t)))
      decreases |todo|
    {
      var t :| t in todo;
      var p := Summarize(SamplesOf(byTenant, t));
      r := r[t := TenantStats(counts[t].enqueued, counts[t].completed, p)];
      todo := todo - {t};
    }
  }

  /** The variables of the scan. */
  datatype Scan = Scan(header: Header, maps: JobMaps, lat: Latencies, tally: Tally, peaks: Peaks)

  ghost predicate ScanAgrees(s: Scan, log: Log, n: nat)
    requires n <= |log|
  {
    && HeaderAgrees(s.header, log, n) && JobsAgree(s.maps, log, n) && LatenciesAgree(s.lat, log, n) && TallyAgrees(s.tally, log, n)
    && s.peaks == Peaks(Peak(log, n, GoroutinesOf), Peak(log, n, RssOf))
  }

  lemma {:induction false} ScanStep(s: Scan, log: Log, n: nat)
    requires n < |log| && ScanAgrees(s, log, n)
    ensures ScanAgrees(Scan(ReadHeader(s.header, log[n]), ReadJob(s.maps, log[n]),
                            ReadLatency(s.lat, s.maps, s.header.warmupEnd, log[n]),
                            ReadTally(s.tally, log[n]), ReadPeaks(s.peaks, log[n])), log, n + 1)
  {
    HeaderStep(s.header, log, n);
    JobsStep(s.maps, log, n);
    LatencyStep(s.lat, s.maps, s.header.warmupEnd, log, n);
    TallyStep(s.tally, log, n);
  }

  /** The loop over the lines; None at the first line that does not parse. */
  method ReadLines(lines: seq<Option<Event>>) returns (r: Option<Scan>)
    ensures r.None? <==> !AllParsed(lines)
    ensures r.Some? ==> ScanAgrees(r.value, Parsed(lines), |lines|)
  {
    var header := Header("", "", 0, 0, 0, 0, 0, 0);
    var maps := JobMaps(map[], map[], map[]);
    var lat := Latencies([], [], [], map[]);
    var tally := Tally(map[], map[]);
    var peaks := Peaks(0, 0);
    for i := 0 to |lines|
      invariant AllParsed(lines[..i])
      invariant AllParsed(lines) ==> ScanAgrees(Scan(header, maps, lat, tally, peaks), Parsed(lines), i)
    {
      if lines[i].None? {
        return None;
      }
      var ev := lines[i].value;
      if AllParsed(lines) {
        ScanStep(Scan(header, maps, lat, tally, peaks), Parsed(lines), i);
      }
      lat := ReadLatency(lat, maps, header.warmupEnd, ev);
      maps := ReadJob(maps, ev);
      tally := ReadTally(tally, ev);
      peaks := ReadPeaks(peaks, ev);
      header := ReadHeader(header, ev);
    }
    assert lines[..|lines|] == lines;
    r := Some(Scan(header, maps, lat, tally, peaks));
  }

  method AnalyzeReader(lines: seq<Option<Event>>) returns (r: Report)
    ensures r.ParseError? <==> !AllParsed(lines)
    ensures AllParsed(lines) ==> (r.RunEventsMissing? <==> StartOf(Parsed(lines)) == 0 || EndOf(Parsed(lines)) == 0)
    ensures r.Report? ==> AllParsed(lines) && IsSummaryOf(r.summary, Parsed(lines))
  {
    var scan := ReadLines(lines);
    if scan.None? {
      return ParseError;
    }
    var header, tally, lat, peaks := scan.value.header, scan.value.tally, scan.value.lat, scan.value.peaks;
    if header.start == 0 || header.end == 0 {
      return RunEventsMissing;
    }
    var pickup := Summarize(lat.pickups);
    var work := Summarize(lat.works);
    var e2e := Summarize(lat.e2es);
    var per := PerTenant(tally.counts, lat.byTenant);
    r := Report(Summary(header.library, header.scenario, header.start, header.end,
                        header.enqueued, header.completed, header.failed,
                        Throughput(header.completed, header.end - header.start),
                        pickup, work, e2e, tally.errors, per, peaks.goroutines, peaks.rss));
    TenantsOk(r.summary, tally, lat, Parsed(lines));
  }

  lemma {:induction false} TenantsOk(s: Summary, tally: Tally, lat: Latencies, log: Log)
    requires TallyAgrees(tally, log, |log|) && LatenciesAgree(lat, log, |log|)
    requires s.perTenant.Keys == tally.counts.Keys
    requires forall t | t in tally.counts ::
               s.perTenant[t] == TenantStats(tally.counts[t].enqueued, tally.counts[t].completed, StatsOf(SamplesOf(lat.byTenant, t)))
    ensures forall t :: TenantOk(s, log, t)
  {
    forall t ensures TenantOk(s, log, t) {
      assert TenantAgrees(tally.counts, log, |log|, t);
    }
  }
}
