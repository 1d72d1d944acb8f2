/** From payloads to report: what the analyzer says about a drained run follows from the jobs alone. */
module EndToEnd {
  import opened Retry
  import opened Sums
  import opened Runner
  import opened Drained
  import opened AnalyzerSpec
  import opened AnalyzerFacts
  import opened Analyzer
  import opened Agreement

  /**
   An undisturbed run that drained, wrote all its records and ended: the report's completed count
   is the number of clean jobs, and its error breakdown sums to MaxAttempts per retryable job
   plus one per permanent job plus one per refused enqueue.
   */
  lemma {:induction false} PayloadsDetermineReport(cfg: Config, rs: seq<Run>, ss: seq<Step>, k: nat, s: Summary, ts: seq<string>, cs: seq<string>)
    requires IsBenchmark(cfg, rs, ss) && IsUndisturbed(rs, ss) && k < |rs|
    requires rs[k].ended && AllRecorded(rs[k]) && IsDrained(rs[k].h)
    requires IsSummaryOf(s, rs[k].log) && Covers(ts, rs[k].log)
    requires NoRepeats(cs) && forall c :: c in cs <==> Failures(rs[k].log, |rs[k].log|, c) > 0
    ensures var h := rs[k].h;
            && s.completed == |JobsFailing(h.cards, "")|
            && SumBy(cs, c => CountOf(s.errors, c))
               == cfg.maxAttempts * |JobsRetrying(h.cards)|
                  + |JobsFailing(h.cards, "permanent")|
                  + Sum(rs[k].submits, WasRefused)
  {
    AnalyzerAgrees(cfg, rs, ss, k, s, ts, cs);
    DrainedCounts(cfg, rs, ss, k);
  }
}
