/** The analyzer recovers the runner's counters from the event log. */
module Agreement {
  import opened Options
  import opened Jobs
  import opened Retry
  import opened Events
  import opened Sums
  import opened Runner
  import opened AnalyzerSpec
  import opened AnalyzerFacts
  import opened Analyzer

  // ----- counts over an extended log

  lemma {:induction false} PrefixLines(log: Log, e: Event, n: nat)
    requires n <= |log|
    ensures EnqueueLines(log + [e], n) == EnqueueLines(log, n)
    ensures CompletionLines(log + [e], n) == CompletionLines(log, n)
    ensures FailureLines(log + [e], n) == FailureLines(log, n)
  {
    if n > 0 { PrefixLines(log, e, n - 1); }
  }

  lemma {:induction false} NoteLines(log: Log, e: Event)
    ensures var l := log + [e]; var n := |log|;
            && EnqueueLines(l, n + 1) == EnqueueLines(log, n) + (if e.JobEnqueued? then 1 else 0)
            && CompletionLines(l, n + 1) == CompletionLines(log, n) + (if e.JobCompleted? then 1 else 0)
            && FailureLines(l, n + 1) == FailureLines(log, n) + (if e.JobFailed? then 1 else 0)
  {
    PrefixLines(log, e, |log|);
  }

  // ----- what is counted but not yet recorded

  function AwaitsRecord(s: Submit): int { if s.Counted? then 1 else 0 }
  function WasRefused(s: Submit): int { if s == Recorded(false) then 1 else 0 }
  function JudgedOk(a: Attempt): int { if a.phase.Judged? && a.phase.result.Ok? then 1 else 0 }
  function JudgedFailed(a: Attempt): int { if a.phase.Judged? && a.phase.result.Failed? then 1 else 0 }

  /** Each counter equals its log lines plus the increments whose record is still to come. */
  ghost predicate Books(r: Run) {
    var n := |r.log|;
    && EnqueueLines(r.log, n) + Sum(r.submits, AwaitsRecord) == r.enqueued
    && CompletionLines(r.log, n) + Sum(r.h.attempts, JudgedOk) == r.completed
    && FailureLines(r.log, n) + Sum(r.h.attempts, JudgedFailed) == r.failed + Sum(r.submits, WasRefused)
  }

  ghost predicate Framed(r: Run) {
    && r.log != [] && r.log[0].RunStart? && r.log[|r.log| - 1].ts <= r.clock
    && Monotone(r.log)
    && (forall i: nat | 0 < i < |r.log| :: !r.log[i].RunStart?)
    && (forall i: nat | i < |r.log| - (if r.ended then 1 else 0) :: !r.log[i].RunEnd?)
    && (r.ended ==> r.log[|r.log| - 1] == RunEnd(r.clock, Some(r.completed), Some(r.enqueued), Some(r.failed)))
  }

  lemma {:induction false} AdapterFrame(cfg: Config, r: Run, m: Move)
    requires CanMove(r.h, m) && !m.Judge? && !m.Decide? && !m.Start?
    ensures Sum(MoveNext(cfg, r.h, m).attempts, JudgedOk) == Sum(r.h.attempts, JudgedOk)
    ensures Sum(MoveNext(cfg, r.h, m).attempts, JudgedFailed) == Sum(r.h.attempts, JudgedFailed)
  {
    AttemptsMoved(cfg, r.h, m);
    if m.PopReturn? || m.PopLost? {
      var call := r.h.sys.clients[m.c].call;
      SumAppend(r.h.attempts, Attempt(call.work, call.p, Popped), JudgedOk);
      SumAppend(r.h.attempts, Attempt(call.work, call.p, Popped), JudgedFailed);
    } else if m.Requeue? || m.RequeueFails? {
      PhaseSums(r.h.attempts, m.k, Returned);
    }
  }

  lemma {:induction false} AttemptsMoved(cfg: Config, h: Harness, m: Move)
    requires CanMove(h, m) && !m.Judge? && !m.Decide? && !m.Start?
    ensures MoveNext(cfg, h, m).attempts
            == if m.PopReturn? || m.PopLost? then h.attempts + [Attempt(h.sys.clients[m.c].call.work, h.sys.clients[m.c].call.p, Popped)]
               else if m.Requeue? || m.RequeueFails? then h.attempts[m.k := h.attempts[m.k].(phase := Returned)]
               else h.attempts
  {
  }

  lemma {:induction false} PhaseSums(runs: seq<Attempt>, k: nat, p: Phase)
    requires k < |runs|
    ensures var a := runs[k].(phase := p); var runs' := runs[k := a];
            && Sum(runs', JudgedOk) == Sum(runs, JudgedOk) - JudgedOk(runs[k]) + JudgedOk(a)
            && Sum(runs', JudgedFailed) == Sum(runs, JudgedFailed) - JudgedFailed(runs[k]) + JudgedFailed(a)
  {
    SumUpdate(runs, k, runs[k].(phase := p), JudgedOk);
    SumUpdate(runs, k, runs[k].(phase := p), JudgedFailed);
  }

  lemma {:induction false} SubmitSums(ss: seq<Submit>, i: nat, x: Submit)
    requires i < |ss|
    ensures Sum(ss[i := x], AwaitsRecord) == Sum(ss, AwaitsRecord) - AwaitsRecord(ss[i]) + AwaitsRecord(x)
    ensures Sum(ss[i := x], WasRefused) == Sum(ss, WasRefused) - WasRefused(ss[i]) + WasRefused(x)
  {
    SumUpdate(ss, i, x, AwaitsRecord);
    SumUpdate(ss, i, x, WasRefused);
  }

  lemma {:induction false} WorkerBooks(cfg: Config, r: Run, m: Move)
    requires Books(r) && CanMove(r.h, m) && !r.ended && (m.Judge? || m.Decide? || m.Start?)
    ensures Books(StepNext(cfg, r, Adapter(m)))
  {
    PhaseMoved(cfg, r.h, m);
    WorkerEffect(cfg, r, m);
    Balance(r, StepNext(cfg, r, Adapter(m)), m.k, PhaseAfter(cfg, r.h.attempts[m.k], m), if m.Judge? then [] else [WorkerLine(r, m)]);
  }

  /** One attempt changes phase and at most one line is written, with the counters moving accordingly. */
  lemma {:induction false} Balance(r: Run, n: Run, k: nat, p: Phase, line: seq<Event>)
    requires Books(r) && k < |r.h.attempts| && |line| <= 1
    requires n.h.attempts == r.h.attempts[k := r.h.attempts[k].(phase := p)] && n.log == r.log + line
    requires n.submits == r.submits && n.enqueued == r.enqueued && (line != [] ==> !line[0].JobEnqueued?)
    requires var a := r.h.attempts[k]; var a' := a.(phase := p);
             && n.completed == r.completed + JudgedOk(a') - JudgedOk(a) + (if line != [] && line[0].JobCompleted? then 1 else 0)
             && n.failed == r.failed + JudgedFailed(a') - JudgedFailed(a) + (if line != [] && line[0].JobFailed? then 1 else 0)
    ensures Books(n)
  {
    PhaseSums(r.h.attempts, k, p);
    if line == [] {
      assert n.log == r.log;
    } else {
      NoteLines(r.log, line[0]);
      assert line == [line[0]];
    }
  }

  /** The record a worker writes beside its move. */
  function WorkerLine(r: Run, m: Move): Event
    requires (m.Start? || m.Decide?) && m.k < |r.h.attempts| && (m.Decide? ==> r.h.attempts[m.k].phase.Judged?)
  {
    var a := r.h.attempts[m.k];
    if m.Start? then JobStarted(r.clock, JobName(a.work.workID))
    else if a.phase.result.Ok? then JobCompleted(r.clock, JobName(a.work.workID), a.work.tenant)
    else JobFailed(r.clock, a.phase.result.cls)
  }

  lemma {:induction false} WorkerEffect(cfg: Config, r: Run, m: Move)
    requires CanMove(r.h, m) && !r.ended && (m.Judge? || m.Decide? || m.Start?)
    ensures var n := StepNext(cfg, r, Adapter(m));
            && n.submits == r.submits && n.enqueued == r.enqueued && n.h.attempts == MoveNext(cfg, r.h, m).attempts
            && n.log == (if m.Judge? then r.log else r.log + [WorkerLine(r, m)])
            && n.completed == r.completed + (if m.Judge? && m.result.Ok? then 1 else 0)
            && n.failed == r.failed + (if m.Judge? && m.result.Failed? then 1 else 0)
  {
  }

  function PhaseAfter(cfg: Config, a: Attempt, m: Move): Phase
    requires m.Start? || m.Judge? || (m.Decide? && a.phase.Judged?)
  {
    match m
    case Start(_) => Running
    case Judge(_, r) => Judged(r)
    case Decide(_) =>
      var v := AfterWorker(cfg, a.work, a.phase.result);
      if v.Again? && !v.delayed then Retrying(v.next) else Returned
  }

  lemma {:induction false} PhaseMoved(cfg: Config, h: Harness, m: Move)
    requires CanMove(h, m) && (m.Judge? || m.Decide? || m.Start?)
    ensures MoveNext(cfg, h, m).attempts == h.attempts[m.k := h.attempts[m.k].(phase := PhaseAfter(cfg, h.attempts[m.k], m))]
  {
  }

  lemma {:induction false} EnqueueBooks(cfg: Config, r: Run, m: Move)
    requires Books(r) && CanMove(r.h, m) && !r.ended && !m.Judge? && !m.Decide? && !m.Start?
    ensures Books(StepNext(cfg, r, Adapter(m)))
  {
    AdapterFrame(cfg, r, m);
    if m.Enqueue? {
      SumAppend(r.submits, Accepted(r.h.nextID + 1, m.tenant), AwaitsRecord);
      SumAppend(r.submits, Accepted(r.h.nextID + 1, m.tenant), WasRefused);
    } else if m.EnqueueFailed? {
      SumAppend(r.submits, Refused, AwaitsRecord);
      SumAppend(r.submits, Refused, WasRefused);
    }
  }

  lemma {:induction false} OtherBooks(cfg: Config, r: Run, s: Step)
    requires Books(r) && CanStep(r, s) && !s.Adapter?
    ensures Books(StepNext(cfg, r, s))
  {
    var n := StepNext(cfg, r, s);
    if s.CountSubmit? || s.RecordSubmit? {
      SubmitSums(r.submits, s.i, n.submits[s.i]);
    }
    if |n.log| > |r.log| {
      NoteLines(r.log, n.log[|r.log|]);
      assert n.log == r.log + [n.log[|r.log|]];
    }
  }

  lemma {:induction false} StepFramed(cfg: Config, r: Run, s: Step)
    requires Framed(r) && CanStep(r, s)
    ensures Framed(StepNext(cfg, r, s))
  {
    var n := StepNext(cfg, r, s);
    LogGrows(cfg, r, s);
    if n.log != r.log { FramedAppend(r.log, n.log[|r.log|], r.clock); }
  }

  lemma {:induction false} LogGrows(cfg: Config, r: Run, s: Step)
    requires CanStep(r, s)
    ensures var n := StepNext(cfg, r, s);
            && (n.log == r.log || (|n.log| == |r.log| + 1 && n.log == r.log + [n.log[|r.log|]]
                                   && n.log[|r.log|].ts == r.clock && !n.log[|r.log|].RunStart?
                                   && (n.log[|r.log|].RunEnd? <==> s.End?)))
            && r.clock <= n.clock && n.ended == s.End?
            && (s.End? ==> n.clock == r.clock && |n.log| == |r.log| + 1
                           && n.log[|r.log|] == RunEnd(n.clock, Some(n.completed), Some(n.enqueued), Some(n.failed)))
  {
  }

  lemma {:induction false} FramedAppend(log: Log, e: Event, clock: int)
    requires log != [] && log[|log| - 1].ts <= clock == e.ts && Monotone(log)
    ensures Monotone(log + [e])
  {
  }

  lemma {:induction false} BenchmarkBooks(cfg: Config, rs: seq<Run>, ss: seq<Step>, k: nat)
    requires IsBenchmark(cfg, rs, ss) && k < |rs|
    ensures Books(rs[k]) && Framed(rs[k])
  {
    if k == 0 {
      OpeningBooks(rs[0]);
    } else {
      BenchmarkBooks(cfg, rs, ss, k - 1);
      var r, s := rs[k - 1], ss[k - 1];
      StepFramed(cfg, r, s);
      if !s.Adapter? {
        OtherBooks(cfg, r, s);
      } else if s.m.Judge? || s.m.Decide? || s.m.Start? {
        WorkerBooks(cfg, r, s.m);
      } else {
        EnqueueBooks(cfg, r, s.m);
      }
    }
  }

  lemma {:induction false} OpeningBooks(r: Run)
    requires exists lib, sc :: Begins(r, lib, sc)
    ensures Books(r) && Framed(r)
  {
    NoteLines([], r.log[0]);
    assert [] + [r.log[0]] == r.log;
  }

  // ----- the analyzer against the runner

  /** Every goroutine has written its record. */
  ghost predicate AllRecorded(r: Run) {
    && (forall i: nat | i < |r.submits| :: r.submits[i].Recorded?)
    && (forall k: nat | k < |r.h.attempts| :: !r.h.attempts[k].phase.Judged?)
  }

  function TenantEnqueued(s: Summary, t: string): int { if t in s.perTenant then s.perTenant[t].enqueued else 0 }
  function TenantCompleted(s: Summary, t: string): int { if t in s.perTenant then s.perTenant[t].completed else 0 }

  lemma {:induction false} LatestAtEnd(log: Log, f: Event -> Option<int>)
    requires log != [] && f(log[|log| - 1]).Some?
    ensures Latest(log, |log|, f, 0) == f(log[|log| - 1]).value
  {
  }

  /** The per-tenant numbers of any summary sum to the log's line counts. */
  lemma {:induction false} SummarySums(s: Summary, log: Log, ts: seq<string>, cs: seq<string>)
    requires IsSummaryOf(s, log) && Covers(ts, log)
    requires NoRepeats(cs) && forall c :: c in cs <==> Failures(log, |log|, c) > 0
    ensures SumBy(ts, t => TenantEnqueued(s, t)) == EnqueueLines(log, |log|)
    ensures SumBy(ts, t => TenantCompleted(s, t)) == CompletionLines(log, |log|) - Orphans(log, |log|)
    ensures SumBy(cs, c => CountOf(s.errors, c)) == FailureLines(log, |log|)
  {
    var n := |log|;
    forall t | t in ts
      ensures TenantEnqueued(s, t) == Enqueues(log, n, t) && TenantCompleted(s, t) == Completions(log, n, t)
    {
      assert TenantOk(s, log, t);
    }
    forall c | c in cs
      ensures CountOf(s.errors, c) == Failures(log, n, c)
    {
      assert ErrorAgrees(s.errors, log, n, c);
    }
    SumBySame(ts, t => Enqueues(log, n, t), t => TenantEnqueued(s, t));
    SumBySame(ts, t => Completions(log, n, t), t => TenantCompleted(s, t));
    SumBySame(cs, c => Failures(log, n, c), c => CountOf(s.errors, c));
    EnqueuedTotal(log, n, ts);
    CompletedTotal(log, n, ts);
    FailedTotal(log, n, cs);
  }

  lemma {:induction false} BooksClosed(r: Run)
    requires Books(r) && Framed(r) && r.ended && AllRecorded(r)
    ensures EnqueueLines(r.log, |r.log|) == r.enqueued
    ensures CompletionLines(r.log, |r.log|) == r.completed
    ensures FailureLines(r.log, |r.log|) == r.failed + Sum(r.submits, WasRefused)
  {
    SumZero(r.submits, AwaitsRecord);
    SumZero(r.h.attempts, JudgedOk);
    SumZero(r.h.attempts, JudgedFailed);
  }

  lemma {:induction false} CountersReported(r: Run, s: Summary)
    requires Framed(r) && r.ended && IsSummaryOf(s, r.log)
    ensures s.enqueued == r.enqueued && s.completed == r.completed && s.failed == r.failed
  {
    LatestAtEnd(r.log, EnqueuedOf);
    LatestAtEnd(r.log, CompletedOf);
    LatestAtEnd(r.log, FailedOf);
  }

  /**
   For a run that ended with every record written, in every interleaving: the analyzer reports
   the runner's counters; per-tenant enqueues sum to `enqueued`; the error breakdown sums to
   `failed` plus the refused enqueues; per-tenant completions sum to `completed` minus exactly
   the completions recorded before any enqueue line of their tenant.
   */
  lemma {:induction false} AnalyzerAgrees(cfg: Config, rs: seq<Run>, ss: seq<Step>, k: nat, s: Summary, ts: seq<string>, cs: seq<string>)
    requires IsBenchmark(cfg, rs, ss) && k < |rs| && rs[k].ended && AllRecorded(rs[k])
    requires IsSummaryOf(s, rs[k].log) && Covers(ts, rs[k].log)
    requires NoRepeats(cs) && forall c :: c in cs <==> Failures(rs[k].log, |rs[k].log|, c) > 0
    ensures s.enqueued == rs[k].enqueued && s.completed == rs[k].completed && s.failed == rs[k].failed
    ensures SumBy(ts, t => TenantEnqueued(s, t)) == rs[k].enqueued
    ensures SumBy(ts, t => TenantCompleted(s, t)) == rs[k].completed - Orphans(rs[k].log, |rs[k].log|)
    ensures SumBy(cs, c => CountOf(s.errors, c)) == rs[k].failed + Sum(rs[k].submits, WasRefused)
  {
    BenchmarkBooks(cfg, rs, ss, k);
    BooksClosed(rs[k]);
    SummarySums(s, rs[k].log, ts, cs);
    CountersReported(rs[k], s);
  }

  /** Latency samples of any recorded run are nonnegative. */
  lemma {:induction false} RunLatenciesNonNegative(cfg: Config, rs: seq<Run>, ss: seq<Step>, k: nat)
    requires IsBenchmark(cfg, rs, ss) && k < |rs|
    ensures var log := rs[k].log;
            && (forall i: nat | i < |Pickups(log, |log|)| :: Pickups(log, |log|)[i].ms >= 0.0)
            && (forall i: nat | i < |Works(log, |log|)| :: Works(log, |log|)[i] >= 0.0)
            && (forall i: nat | i < |E2Es(log, |log|)| :: E2Es(log, |log|)[i] >= 0.0)
  {
    BenchmarkBooks(cfg, rs, ss, k);
    SamplesNonNegative(rs[k].log, |rs[k].log|);
  }
}
