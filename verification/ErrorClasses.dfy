/**
 The error breakdown of a drained run, class by class: how often the report lists an injected error
 follows from the payloads, whatever the interleaving and however the retries were delayed.
 */
module ErrorClasses {
  import opened Options
  import opened Jobs
  import opened Retry
  import opened Events
  import opened Sums
  import opened Tokens
  import opened WorkLeft
  import opened Runner
  import opened Drained
  import opened AnalyzerSpec
  import opened Analyzer
  import opened Agreement

  /** A class that only a failing worker writes: a refused enqueue is listed as unclassified. */
  predicate Injected(c: string) { c != "" && c != "unclassified" }

  /** The attempt has failed with class `c`, and the line that says so is still to come. */
  function JudgedAs(c: string): Attempt -> int {
    (a: Attempt) => if a.phase == Judged(Failed(c)) then 1 else 0
  }

  /** How often job w has failed, if it asks for class `c`. */
  function FailuresOf(cards: Cards, runs: seq<Attempt>, c: string): nat -> int {
    (w: nat) => if w in cards && cards[w].job.payload.failWith == c then Judgements(cards[w], runs) else 0
  }

  ghost predicate Agrees(c: string, log: Log, runs: seq<Attempt>, cards: Cards, n: nat) {
    Failures(log, |log|, c) + Sum(runs, JudgedAs(c)) == SumTo(n, FailuresOf(cards, runs, c))
  }

  ghost predicate ClassLedger(r: Run, c: string) {
    Agrees(c, r.log, r.h.attempts, r.h.cards, r.h.nextID)
  }

  // ----- the lines of the class

  lemma {:induction false} PrefixFailures(log: Log, e: Event, n: nat, c: string)
    requires n <= |log|
    ensures Failures(log + [e], n, c) == Failures(log, n, c)
  {
    if n > 0 { PrefixFailures(log, e, n - 1, c); }
  }

  lemma {:induction false} NoteFailure(log: Log, e: Event, c: string)
    requires Injected(c)
    ensures Failures(log + [e], |log| + 1, c) == Failures(log, |log|, c) + (if e.JobFailed? && e.cls == c then 1 else 0)
  {
    PrefixFailures(log, e, |log|, c);
  }

  // ----- the counts of the other jobs

  lemma {:induction false} OthersFailed(cards: Cards, runs: seq<Attempt>, cards': Cards, runs': seq<Attempt>, max: int, w: nat, c: string)
    requires AttemptsOk(runs, cards, max) && Descends(cards, runs, cards', runs', max, w)
    ensures forall x: nat | x != w :: FailuresOf(cards', runs', c)(x) == FailuresOf(cards, runs, c)(x)
  {
  }

  /** A job move that adds `judged` failures of the class: lines and attempts awaiting a line grow by as many. */
  lemma {:induction false} ClassMoves(r: Run, n: Run, max: int, w: nat, c: string, judged: int)
    requires ClassLedger(r, c) && AttemptsOk(r.h.attempts, r.h.cards, max)
    requires Descends(r.h.cards, r.h.attempts, n.h.cards, n.h.attempts, max, w)
    requires n.h.nextID == r.h.nextID && 1 <= w <= r.h.nextID
    requires FailuresOf(n.h.cards, n.h.attempts, c)(w) == FailuresOf(r.h.cards, r.h.attempts, c)(w) + judged
    requires Failures(n.log, |n.log|, c) + Sum(n.h.attempts, JudgedAs(c)) == Failures(r.log, |r.log|, c) + Sum(r.h.attempts, JudgedAs(c)) + judged
    ensures ClassLedger(n, c)
  {
    OthersFailed(r.h.cards, r.h.attempts, n.h.cards, n.h.attempts, max, w, c);
    SumToChange(r.h.nextID, FailuresOf(r.h.cards, r.h.attempts, c), FailuresOf(n.h.cards, n.h.attempts, c), w);
  }

  // ----- the worker's steps

  /** What the step adds to the job's own count: one for the judgement of an attempt that fails with the class. */
  function Judging(r: Run, m: Move, c: string): int {
    if m.Judge? && m.k < |r.h.attempts| && r.h.attempts[m.k].work.payload.failWith == c then 1 else 0
  }

  lemma {:induction false} WorkerLines(cfg: Config, r: Run, m: Move, c: string)
    requires Injected(c) && CanMove(r.h, m) && !r.ended && (m.Judge? || m.Decide? || m.Start?) && Undisturbed(r.h, m)
    ensures var n := StepNext(cfg, r, Adapter(m));
            Failures(n.log, |n.log|, c) + Sum(n.h.attempts, JudgedAs(c)) == Failures(r.log, |r.log|, c) + Sum(r.h.attempts, JudgedAs(c)) + Judging(r, m, c)
  {
    WorkerEffect(cfg, r, m);
    JudgedChange(cfg, r.h, m, c);
    if !m.Judge? { NoteFailure(r.log, WorkerLine(r, m), c); }
  }

  lemma {:induction false} JudgedChange(cfg: Config, h: Harness, m: Move, c: string)
    requires CanMove(h, m) && (m.Judge? || m.Decide? || m.Start?)
    ensures Sum(MoveNext(cfg, h, m).attempts, JudgedAs(c))
            == Sum(h.attempts, JudgedAs(c))
               + (if m.Judge? && m.result == Failed(c) then 1 else 0)
               - (if m.Decide? && h.attempts[m.k].phase.result == Failed(c) then 1 else 0)
  {
    PhaseMoved(cfg, h, m);
    SumUpdate(h.attempts, m.k, h.attempts[m.k].(phase := PhaseAfter(cfg, h.attempts[m.k], m)), JudgedAs(c));
  }

  lemma {:induction false} OtherLines(cfg: Config, r: Run, m: Move, c: string)
    requires CanMove(r.h, m) && !r.ended && JobMove(m) && !m.Judge? && !m.Decide? && !m.Start?
    ensures var n := StepNext(cfg, r, Adapter(m)); n.log == r.log && Sum(n.h.attempts, JudgedAs(c)) == Sum(r.h.attempts, JudgedAs(c))
  {
    AttemptsMoved(cfg, r.h, m);
    if m.PopReturn? || m.PopLost? {
      var call := r.h.sys.clients[m.c].call;
      SumAppend(r.h.attempts, Attempt(call.work, call.p, Popped), JudgedAs(c));
    } else if m.Requeue? || m.RequeueFails? {
      SumUpdate(r.h.attempts, m.k, r.h.attempts[m.k].(phase := Returned), JudgedAs(c));
    }
  }

  lemma {:induction false} MoverCount(cfg: Config, r: Run, m: Move, c: string)
    requires CanMove(r.h, m) && JobMove(m) && Fine(cfg, r.h, m)
    requires m.Judge? ==> AttemptOk(r.h.attempts[m.k], m.k, r.h.cards, cfg.maxAttempts)
    ensures var n := MoveNext(cfg, r.h, m); var w := Mover(r.h, m);
            FailuresOf(n.cards, n.attempts, c)(w) == FailuresOf(r.h.cards, r.h.attempts, c)(w) + Judging(r, m, c)
  {
  }

  lemma {:induction false} JobClass(cfg: Config, r: Run, m: Move, c: string)
    requires Injected(c) && Expected(cfg, r) && CanStep(r, Adapter(m)) && JobMove(m) && Undisturbed(r.h, m) && ClassLedger(r, c)
    ensures ClassLedger(StepNext(cfg, r, Adapter(m)), c)
  {
    var n := StepNext(cfg, r, Adapter(m));
    JobMoveDescends(cfg, r.h, m);
    JobMoveFrame(cfg, r.h, m);
    MoverOnPlan(cfg, r.h, m);
    if m.Judge? { assert AttemptOk(r.h.attempts[m.k], m.k, r.h.cards, cfg.maxAttempts); }
    MoverCount(cfg, r, m, c);
    if m.Judge? || m.Decide? || m.Start? {
      WorkerLines(cfg, r, m, c);
    } else {
      OtherLines(cfg, r, m, c);
    }
    ClassMoves(r, n, cfg.maxAttempts, Mover(r.h, m), c, Judging(r, m, c));
  }

  // ----- the other steps

  lemma {:induction false} AcceptClass(r: Run, n: Run, card: Card, c: string)
    requires ClassLedger(r, c) && r.h.nextID + 1 !in r.h.cards && card.place.InQueue? && card.begun == 0
    requires n.h.nextID == r.h.nextID + 1 && n.h.attempts == r.h.attempts && n.log == r.log
    requires n.h.cards == r.h.cards || n.h.cards == r.h.cards[r.h.nextID + 1 := card]
    ensures ClassLedger(n, c)
  {
    SumToChange(r.h.nextID, FailuresOf(r.h.cards, r.h.attempts, c), FailuresOf(n.h.cards, n.h.attempts, c), r.h.nextID + 1);
  }

  lemma {:induction false} EnqueueClass(cfg: Config, r: Run, m: Move, c: string)
    requires CanStep(r, Adapter(m)) && (m.Enqueue? || m.EnqueueFailed?) && ClassLedger(r, c) && r.h.nextID + 1 !in r.h.cards
    ensures ClassLedger(StepNext(cfg, r, Adapter(m)), c)
  {
    var card := if m.Enqueue? then Card(BenchWork(r.h.nextID + 1, m.tenant, m.kind, 1, m.payload), InQueue(|r.h.sys.rows|), 0)
                else Card(BenchWork(0, "", [], 0, Payload(0, [], "")), InQueue(0), 0);
    Drained.EnqueueEffect(cfg, r, m, card);
    AcceptClass(r, StepNext(cfg, r, Adapter(m)), card, c);
  }

  lemma {:induction false} OtherClass(cfg: Config, r: Run, s: Step, c: string)
    requires Injected(c) && CanStep(r, s) && ClassLedger(r, c)
    requires s.Adapter? ==> !JobMove(s.m) && !s.m.Enqueue? && !s.m.EnqueueFailed?
    ensures ClassLedger(StepNext(cfg, r, s), c)
  {
    var n := StepNext(cfg, r, s);
    if |n.log| > |r.log| {
      NoteFailure(r.log, n.log[|r.log|], c);
      assert n.log == r.log + [n.log[|r.log|]];
    } else {
      assert n.log == r.log;
    }
  }

  lemma {:induction false} StepClass(cfg: Config, r: Run, s: Step, n: Run, c: string)
    requires Injected(c) && TryStep(cfg, r, s) == Some(n) && (s.Adapter? ==> Undisturbed(r.h, s.m))
    ensures Expected(cfg, r) && ClassLedger(r, c) ==> ClassLedger(n, c)
  {
    if Expected(cfg, r) && ClassLedger(r, c) {
      if s.Adapter? && JobMove(s.m) {
        JobClass(cfg, r, s.m, c);
      } else if s.Adapter? && (s.m.Enqueue? || s.m.EnqueueFailed?) {
        EnqueueClass(cfg, r, s.m, c);
      } else {
        OtherClass(cfg, r, s, c);
      }
    }
  }

  /** In every state of an undisturbed run, the lines of a class and those still to come are the failures of the jobs that ask for it. */
  lemma {:induction false} ClassAgrees(cfg: Config, rs: seq<Run>, ss: seq<Step>, k: nat, c: string)
    requires IsBenchmark(cfg, rs, ss) && IsUndisturbed(rs, ss) && k < |rs| && Injected(c)
    ensures ClassLedger(rs[k], c)
  {
    NothingFailed(rs[0], c);
    for j := 0 to k
      invariant ClassLedger(rs[j], c)
    {
      NextAgrees(cfg, rs, ss, j, c);
    }
  }

  lemma {:induction false} NextAgrees(cfg: Config, rs: seq<Run>, ss: seq<Step>, j: nat, c: string)
    requires IsBenchmark(cfg, rs, ss) && IsUndisturbed(rs, ss) && j < |ss| && Injected(c)
    ensures ClassLedger(rs[j], c) ==> ClassLedger(rs[j + 1], c)
  {
    RunsAsExpected(cfg, rs, ss, j);
    LinkOf(cfg, rs, ss, j);
    StepClass(cfg, rs[j], ss[j], rs[j + 1], c);
  }

  lemma {:induction false} LinkOf(cfg: Config, rs: seq<Run>, ss: seq<Step>, j: nat)
    requires IsBenchmark(cfg, rs, ss) && IsUndisturbed(rs, ss) && j < |ss|
    ensures TryStep(cfg, rs[j], ss[j]) == Some(rs[j + 1]) && (ss[j].Adapter? ==> Undisturbed(rs[j].h, ss[j].m))
  {
  }

  lemma {:induction false} NothingFailed(r: Run, c: string)
    requires exists lib, sc :: Begins(r, lib, sc)
    ensures ClassLedger(r, c)
  {
    SumToZero(r.h.nextID, FailuresOf(r.h.cards, r.h.attempts, c));
    SumZero(r.h.attempts, JudgedAs(c));
    assert Failures(r.log, 0, c) == 0;
  }

  // ----- the result

  /** All done: MaxAttempts failures for each job asking for a retryable class, one for each asking for the permanent one. */
  lemma {:induction false} DoneFailures(cfg: Config, r: Run, c: string)
    requires AllOnPlan(r.h.cards, r.h.attempts, cfg.maxAttempts) && c != ""
    requires forall w | w in r.h.cards :: r.h.cards[w].place.Done? && 1 <= w <= r.h.nextID
    ensures SumTo(r.h.nextID, FailuresOf(r.h.cards, r.h.attempts, c))
            == (if c == "permanent" then 1 else cfg.maxAttempts) * |JobsFailing(r.h.cards, c)|
  {
    var n, times, asks := r.h.nextID, if c == "permanent" then 1 else cfg.maxAttempts, (p: Payload) => p.failWith == c;
    forall w: nat | 1 <= w <= n
      ensures FailuresOf(r.h.cards, r.h.attempts, c)(w) == times * Has(r.h.cards, w, asks) + 0
    {
      if w in r.h.cards { assert OnPlan(r.h.cards[w], r.h.attempts, cfg.maxAttempts); }
    }
    SumToLinear(n, (w: nat) => Has(r.h.cards, w, asks), (w: nat) => 0, FailuresOf(r.h.cards, r.h.attempts, c), times);
    SumToZero(n, (w: nat) => 0);
    CountUpTo(r.h.cards, n, asks);
    assert JobsUpTo(r.h.cards, n, asks) == JobsFailing(r.h.cards, c);
  }

  /**
   The report on an undisturbed run that drained and wrote all its records lists a retryable class MaxAttempts times,
   and the permanent one once, for each job whose payload asks for it.
   */
  lemma {:induction false} BreakdownByClass(cfg: Config, rs: seq<Run>, ss: seq<Step>, k: nat, s: Summary, c: string)
    requires IsBenchmark(cfg, rs, ss) && IsUndisturbed(rs, ss) && k < |rs| && Injected(c)
    requires AllRecorded(rs[k]) && IsDrained(rs[k].h) && IsSummaryOf(s, rs[k].log)
    ensures (if c in s.errors then s.errors[c] else 0)
            == (if c == "permanent" then 1 else cfg.maxAttempts) * |JobsFailing(rs[k].h.cards, c)|
  {
    var r := rs[k];
    ClassAgrees(cfg, rs, ss, k, c);
    RunsAsExpected(cfg, rs, ss, k);
    DrainedIsDone(cfg, r.h);
    KnownIds(cfg, r.h);
    DoneFailures(cfg, r, c);
    SumZero(r.h.attempts, JudgedAs(c));
    assert ErrorAgrees(s.errors, r.log, |r.log|, c);
  }
}
