/** Every line that a benchmark run writes about a job is true of a job that was accepted. */
module LogLines {
  import opened Options
  import opened Jobs
  import opened Retry
  import opened Events
  import opened Tokens
  import opened Runner

  /** An accepted job has this id and, if one is given, this tenant. */
  ghost predicate NamesJob(cards: Cards, job: string, tenant: Option<string>) {
    exists w :: w in cards && job == JobName(w) && (tenant.Some? ==> tenant.value == cards[w].job.tenant)
  }

  ghost predicate LineTrue(e: Event, cards: Cards) {
    && (e.JobEnqueued? ==> NamesJob(cards, e.job, Some(e.tenant)))
    && (e.JobStarted? ==> NamesJob(cards, e.job, None))
    && (e.JobCompleted? ==> NamesJob(cards, e.job, Some(e.tenant)))
  }

  predicate SubmitTrue(s: Submit, cards: Cards) {
    s.Accepted? || s.Counted? ==> s.w in cards && cards[s.w].job.tenant == s.tenant
  }

  ghost predicate Truthful(log: Log, submits: seq<Submit>, cards: Cards) {
    && (forall i: nat | i < |log| :: LineTrue(log[i], cards))
    && (forall i: nat | i < |submits| :: SubmitTrue(submits[i], cards))
  }

  /** The accepted jobs stay, whatever happens to them. */
  ghost predicate JobsStay(cards: Cards, cards': Cards) {
    forall w | w in cards :: w in cards' && cards'[w].job == cards[w].job
  }

  lemma {:induction false} MoveKeepsJobs(cfg: Config, h: Harness, m: Move)
    requires CanMove(h, m) && forall w | w in h.cards :: w <= h.nextID
    ensures JobsStay(h.cards, MoveNext(cfg, h, m).cards)
  {
    if m.PopReturn? || m.PopLost? {
      BeginKeepsJobs(cfg, h, m);
    } else if m.Decide? {
      DecideKeepsJobs(cfg, h, m);
    } else if m.Enqueue? || m.EnqueueFailed? {
      EnqueueKeepsJobs(cfg, h, m);
    } else {
      PlacesOnly(cfg, h, m);
    }
  }

  lemma {:induction false} BeginKeepsJobs(cfg: Config, h: Harness, m: Move)
    requires CanMove(h, m) && (m.PopReturn? || m.PopLost?)
    ensures JobsStay(h.cards, MoveNext(cfg, h, m).cards)
  {
  }

  lemma {:induction false} DecideKeepsJobs(cfg: Config, h: Harness, m: Move)
    requires CanMove(h, m) && m.Decide?
    ensures JobsStay(h.cards, MoveNext(cfg, h, m).cards)
  {
  }

  lemma {:induction false} EnqueueKeepsJobs(cfg: Config, h: Harness, m: Move)
    requires CanMove(h, m) && (m.Enqueue? || m.EnqueueFailed?) && forall w | w in h.cards :: w <= h.nextID
    ensures JobsStay(h.cards, MoveNext(cfg, h, m).cards)
  {
  }

  lemma {:induction false} PlacesOnly(cfg: Config, h: Harness, m: Move)
    requires CanMove(h, m) && !m.PopReturn? && !m.PopLost? && !m.Decide? && !m.Enqueue? && !m.EnqueueFailed?
    ensures JobsStay(h.cards, MoveNext(cfg, h, m).cards)
  {
  }

  lemma {:induction false} StillTrue(log: Log, submits: seq<Submit>, cards: Cards, cards': Cards)
    requires Truthful(log, submits, cards) && JobsStay(cards, cards')
    ensures Truthful(log, submits, cards')
  {
    forall i: nat | i < |log| ensures LineTrue(log[i], cards') { assert LineTrue(log[i], cards); }
    forall i: nat | i < |submits| ensures SubmitTrue(submits[i], cards') { assert SubmitTrue(submits[i], cards); }
  }

  lemma {:induction false} Written(log: Log, submits: seq<Submit>, cards: Cards, e: Event)
    requires Truthful(log, submits, cards) && LineTrue(e, cards)
    ensures Truthful(log + [e], submits, cards)
  {
  }

  /** A live attempt carries the job it was accepted as. */
  lemma {:induction false} AttemptIsJob(cfg: Config, h: Harness, k: nat)
    requires TokensOk(cfg, h) && k < |h.attempts| && Active(h.attempts[k])
    ensures var w := h.attempts[k].work; w.workID in h.cards && h.cards[w.workID].job.tenant == w.tenant
  {
    assert AttemptOk(h.attempts[k], k, h.cards, cfg.maxAttempts);
  }

  lemma {:induction false} IdsKnown(cfg: Config, h: Harness)
    requires TokensOk(cfg, h)
    ensures forall w | w in h.cards :: 1 <= w <= h.nextID
  {
  }

  lemma {:induction false} MoveTrue(cfg: Config, r: Run, m: Move)
    requires Good(cfg, r.h) && !r.h.lost && CanStep(r, Adapter(m)) && Truthful(r.log, r.submits, r.h.cards)
    ensures var n := StepNext(cfg, r, Adapter(m)); Truthful(n.log, n.submits, n.h.cards)
  {
    IdsKnown(cfg, r.h);
    MoveKeepsJobs(cfg, r.h, m);
    var cards := MoveNext(cfg, r.h, m).cards;
    StillTrue(r.log, r.submits, r.h.cards, cards);
    if m.Start? || m.Decide? {
      AttemptIsJob(cfg, r.h, m.k);
      var w := r.h.attempts[m.k].work;
      assert NamesJob(cards, JobName(w.workID), Some(w.tenant)) && NamesJob(cards, JobName(w.workID), None);
      WorkerLine(r, m, cards);
    } else {
      SubmitLine(cfg, r, m);
    }
  }

  lemma {:induction false} SubmitLine(cfg: Config, r: Run, m: Move)
    requires CanMove(r.h, m) && !m.Start? && !m.Decide? && Truthful(r.log, r.submits, MoveNext(cfg, r.h, m).cards)
    ensures Truthful(Beside(r, m).log, Beside(r, m).submits, MoveNext(cfg, r.h, m).cards)
  {
    if m.Enqueue? {
      assert MoveNext(cfg, r.h, m).cards[r.h.nextID + 1].job.tenant == m.tenant;
    }
  }

  lemma {:induction false} WorkerLine(r: Run, m: Move, cards: Cards)
    requires Truthful(r.log, r.submits, cards) && (m.Start? || m.Decide?) && m.k < |r.h.attempts|
    requires m.Decide? ==> r.h.attempts[m.k].phase.Judged?
    requires var w := r.h.attempts[m.k].work; NamesJob(cards, JobName(w.workID), Some(w.tenant)) && NamesJob(cards, JobName(w.workID), None)
    ensures Truthful(Beside(r, m).log, Beside(r, m).submits, cards)
  {
    var n := Beside(r, m);
    Written(r.log, r.submits, cards, n.log[|r.log|]);
    assert n.log == r.log + [n.log[|r.log|]];
  }

  lemma {:induction false} OtherTrue(cfg: Config, r: Run, s: Step)
    requires CanStep(r, s) && !s.Adapter? && Truthful(r.log, r.submits, r.h.cards)
    ensures var n := StepNext(cfg, r, s); Truthful(n.log, n.submits, n.h.cards)
  {
    if s.RecordSubmit? {
      assert SubmitTrue(r.submits[s.i], r.h.cards);
    }
  }

  lemma {:induction false} StepGood(cfg: Config, r: Run, s: Step)
    requires Good(cfg, r.h) && CanStep(r, s)
    ensures Good(cfg, StepNext(cfg, r, s).h) && (r.h.lost ==> StepNext(cfg, r, s).h.lost)
  {
    if s.Adapter? { MoveKeeps(cfg, r.h, s.m); }
  }

  /** In every state of every run, as long as no pop has lost its commit, every line names an accepted job and its tenant. */
  lemma {:induction false} LinesTrue(cfg: Config, rs: seq<Run>, ss: seq<Step>, k: nat)
    requires IsBenchmark(cfg, rs, ss) && k < |rs|
    ensures Good(cfg, rs[k].h)
    ensures !rs[k].h.lost ==> Truthful(rs[k].log, rs[k].submits, rs[k].h.cards)
  {
    if k > 0 {
      LinesTrue(cfg, rs, ss, k - 1);
      var r, s := rs[k - 1], ss[k - 1];
      StepGood(cfg, r, s);
      if !rs[k].h.lost {
        if s.Adapter? { MoveTrue(cfg, r, s.m); } else { OtherTrue(cfg, r, s); }
      }
    }
  }
}
