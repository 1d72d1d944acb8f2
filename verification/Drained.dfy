/**
 What a drained run must show: with no shutdown, cancellation or push failure, the failed and
 completed counters are determined by the payloads alone, whatever the interleaving and
 whether or not retries are delayed.
 */
module Drained {
  import opened Jobs
  import opened Retry
  import opened Sums
  import opened AtomicQueue
  import opened Tokens
  import opened WorkLeft
  import opened Runner

  /** queue.Simulate without context cancellation. */
  function Simulate(p: Payload): Result {
    if p.failWith != "" then Failed(p.failWith) else Ok
  }

  predicate Clean(p: Payload) { p.failWith == "" }
  predicate Permanent(p: Payload) { p.failWith == PERMANENT }
  predicate Retryable(p: Payload) { !Clean(p) && !Permanent(p) }

  /** No shutdown, no lost commit, no failed re-enqueue, and every worker function is Simulate. */
  predicate Undisturbed(h: Harness, m: Move) {
    && !m.Stop? && !m.Drop? && !m.PopLost? && !m.RequeueFails? && !m.FireFails?
    && (m.Judge? && m.k < |h.attempts| ==> m.result == Simulate(h.attempts[m.k].work.payload))
  }

  ghost predicate IsUndisturbed(rs: seq<Run>, ss: seq<Step>)
    requires |rs| == |ss| + 1
  {
    forall k: nat | k < |ss| && ss[k].Adapter? :: Undisturbed(rs[k].h, ss[k].m)
  }

  /** Where a job can be, given its payload: one attempt when clean or permanent, MaxAttempts otherwise. */
  predicate OnPlan(card: Card, runs: seq<Attempt>, max: int) {
    var p := card.job.payload;
    match card.place
    case InQueue(_) => !Retryable(p) ==> card.begun == 0
    case InTimer(_) => Retryable(p)
    case InAttempt(k) =>
      && (!Retryable(p) ==> card.begun == 1)
      && (k < |runs| && runs[k].phase.Judged? ==> runs[k].phase.result == Simulate(p))
      && (k < |runs| && runs[k].phase.Retrying? ==> Retryable(p))
    case Done(o) => if Retryable(p) then card.begun == max && o == Exhausted
                    else card.begun == 1 && o == (if Clean(p) then Succeeded else FailedPermanently)
  }

  ghost predicate AllOnPlan(cards: Cards, runs: seq<Attempt>, max: int) {
    forall w | w in cards :: OnPlan(cards[w], runs, max)
  }

  /** Attempts of the job whose worker function has returned. */
  function Judgements(card: Card, runs: seq<Attempt>): int {
    if card.place.InAttempt? && card.place.k < |runs| && (runs[card.place.k].phase.Popped? || runs[card.place.k].phase.Running?)
    then card.begun - 1 else card.begun
  }

  function CleanOf(cards: Cards, runs: seq<Attempt>, w: nat): int {
    if w in cards && Clean(cards[w].job.payload) then Judgements(cards[w], runs) else 0
  }

  function FailOf(cards: Cards, runs: seq<Attempt>, w: nat): int {
    if w in cards && !Clean(cards[w].job.payload) then Judgements(cards[w], runs) else 0
  }

  ghost predicate Ledger(r: Run) {
    && r.completed == SumTo(r.h.nextID, (w: nat) => CleanOf(r.h.cards, r.h.attempts, w))
    && r.failed == SumTo(r.h.nextID, (w: nat) => FailOf(r.h.cards, r.h.attempts, w))
  }

  ghost predicate Expected(cfg: Config, r: Run) {
    Good(cfg, r.h) && !r.h.lost && AllOnPlan(r.h.cards, r.h.attempts, cfg.maxAttempts) && Ledger(r)
  }

  // ----- one job moves, the others stay

  lemma {:induction false} OthersOnPlan(cards: Cards, runs: seq<Attempt>, cards': Cards, runs': seq<Attempt>, max: int, w: nat)
    requires AttemptsOk(runs, cards, max) && Descends(cards, runs, cards', runs', max, w) && AllOnPlan(cards, runs, max)
    requires w in cards' && OnPlan(cards'[w], runs', max)
    ensures AllOnPlan(cards', runs', max)
  {
    forall x | x in cards' ensures OnPlan(cards'[x], runs', max) {
      if x != w { assert OnPlan(cards[x], runs, max); }
    }
  }

  lemma {:induction false} OthersJudged(cards: Cards, runs: seq<Attempt>, cards': Cards, runs': seq<Attempt>, max: int, w: nat)
    requires AttemptsOk(runs, cards, max) && Descends(cards, runs, cards', runs', max, w)
    ensures forall x: nat | x != w :: CleanOf(cards', runs', x) == CleanOf(cards, runs, x) && FailOf(cards', runs', x) == FailOf(cards, runs, x)
  {
  }

  /** Judging an attempt adds one to its own kind of count; every other job move adds nothing. */
  lemma {:induction false} LedgerMoves(r: Run, n: Run, max: int, w: nat, judged: bool)
    requires Ledger(r) && AttemptsOk(r.h.attempts, r.h.cards, max)
    requires Descends(r.h.cards, r.h.attempts, n.h.cards, n.h.attempts, max, w)
    requires n.h.nextID == r.h.nextID && 1 <= w <= r.h.nextID && w in r.h.cards && w in n.h.cards
    requires n.h.cards[w].job == r.h.cards[w].job
    requires Judgements(n.h.cards[w], n.h.attempts) == Judgements(r.h.cards[w], r.h.attempts) + (if judged then 1 else 0)
    requires n.completed == r.completed + (if judged && Clean(r.h.cards[w].job.payload) then 1 else 0)
    requires n.failed == r.failed + (if judged && !Clean(r.h.cards[w].job.payload) then 1 else 0)
    ensures Ledger(n)
  {
    OthersJudged(r.h.cards, r.h.attempts, n.h.cards, n.h.attempts, max, w);
    SumToChange(r.h.nextID, (x: nat) => CleanOf(r.h.cards, r.h.attempts, x), (x: nat) => CleanOf(n.h.cards, n.h.attempts, x), w);
    SumToChange(r.h.nextID, (x: nat) => FailOf(r.h.cards, r.h.attempts, x), (x: nat) => FailOf(n.h.cards, n.h.attempts, x), w);
  }

  // ----- the moves

  /** After move `m` its job is still on plan, and has one more judgement if `m` was a judgement. */
  ghost predicate Fine(cfg: Config, h: Harness, m: Move)
    requires CanMove(h, m) && JobMove(m)
  {
    var n := MoveNext(cfg, h, m); var w := Mover(h, m);
    && w in h.cards && w in n.cards && n.cards[w].job == h.cards[w].job
    && OnPlan(n.cards[w], n.attempts, cfg.maxAttempts)
    && Judgements(n.cards[w], n.attempts) == Judgements(h.cards[w], h.attempts) + (if m.Judge? then 1 else 0)
  }

  lemma {:induction false} MoverOnPlan(cfg: Config, h: Harness, m: Move)
    requires Good(cfg, h) && !h.lost && CanMove(h, m) && JobMove(m) && Undisturbed(h, m)
    requires AllOnPlan(h.cards, h.attempts, cfg.maxAttempts)
    ensures Fine(cfg, h, m)
  {
    match m
    case PopReturn(c) => PopOnPlan(cfg, h, m);
    case Fire(t, c) => FireOnPlan(cfg, h, m);
    case Requeue(k, c) => RequeueOnPlan(cfg, h, m);
    case Decide(k) =>
      assert AttemptOk(h.attempts[k], k, h.cards, cfg.maxAttempts);
      DecideOnPlan(cfg, h, m);
    case _ => WorkerOnPlan(cfg, h, m);
  }

  lemma {:induction false} BeginOnPlan(card: Card, runs: seq<Attempt>, a: Attempt, max: int)
    requires OnPlan(card, runs, max) && card.place.InQueue? && a.phase.Popped?
    ensures var card' := card.(place := InAttempt(|runs|), begun := card.begun + 1); var runs' := runs + [a];
            OnPlan(card', runs', max) && Judgements(card', runs') == Judgements(card, runs)
  {
  }

  lemma {:induction false} PopOnPlan(cfg: Config, h: Harness, m: Move)
    requires Good(cfg, h) && !h.lost && CanMove(h, m) && m.PopReturn? && AllOnPlan(h.cards, h.attempts, cfg.maxAttempts)
    ensures Fine(cfg, h, m)
  {
    var call := h.sys.clients[m.c].call;
    PoppedFrom(cfg, h, m.c);
    BeginOnPlan(h.cards[call.work.workID], h.attempts, Attempt(call.work, call.p, Popped), cfg.maxAttempts);
  }

  lemma {:induction false} PoppedFrom(cfg: Config, h: Harness, c: nat)
    requires Good(cfg, h) && !h.lost && CanMove(h, PopReturn(c))
    ensures var call := h.sys.clients[c].call;
            call.work.workID in h.cards && h.cards[call.work.workID].place == InQueue(call.i)
  {
    CommitRemoves(h.sys, Sessions.Commit(c));
    var call := h.sys.clients[c].call;
    assert Upcoming(h.cards, cfg.maxAttempts, Waiting(h.sys.rows)[call.i], InQueue(call.i));
  }

  lemma {:induction false} FireOnPlan(cfg: Config, h: Harness, m: Move)
    requires TokensOk(cfg, h) && CanMove(h, m) && m.Fire? && AllOnPlan(h.cards, h.attempts, cfg.maxAttempts)
    ensures Fine(cfg, h, m)
  {
    assert Upcoming(h.cards, cfg.maxAttempts, h.timers[m.m].work, InTimer(m.m));
    assert OnPlan(h.cards[h.timers[m.m].work.workID], h.attempts, cfg.maxAttempts);
  }

  lemma {:induction false} RequeueOnPlan(cfg: Config, h: Harness, m: Move)
    requires TokensOk(cfg, h) && CanMove(h, m) && m.Requeue? && AllOnPlan(h.cards, h.attempts, cfg.maxAttempts)
    ensures Fine(cfg, h, m)
  {
    var a := h.attempts[m.k];
    assert AttemptOk(a, m.k, h.cards, cfg.maxAttempts);
    RequeueEffect(cfg, h, m);
    BackInQueue(h.cards[a.work.workID], h.attempts, MoveNext(cfg, h, m).attempts, m.k, |h.sys.rows|, cfg.maxAttempts);
  }

  lemma {:induction false} RequeueEffect(cfg: Config, h: Harness, m: Move)
    requires CanMove(h, m) && m.Requeue?
    ensures MoveNext(cfg, h, m).cards == Moved(h.cards, h.attempts[m.k].phase.next.workID, InQueue(|h.sys.rows|))
  {
  }

  /** A retry pushed by the attempt that decided on it. */
  lemma {:induction false} BackInQueue(card: Card, runs: seq<Attempt>, runs': seq<Attempt>, k: nat, i: nat, max: int)
    requires OnPlan(card, runs, max) && card.place == InAttempt(k) && k < |runs| && runs[k].phase.Retrying?
    ensures OnPlan(card.(place := InQueue(i)), runs', max)
    ensures Judgements(card.(place := InQueue(i)), runs') == Judgements(card, runs)
  {
  }

  /** The decision after a simulated result: what it can be for each kind of payload. */
  lemma {:induction false} VerdictOnPlan(cfg: Config, card: Card, a: Attempt, k: nat, runs: seq<Attempt>)
    requires k < |runs| && runs[k] == a && a.phase.Judged? && card.place == InAttempt(k)
    requires a.work == card.job.(attempt := card.begun) && card.begun <= cfg.maxAttempts
    requires OnPlan(card, runs, cfg.maxAttempts)
    ensures match AfterWorker(cfg, a.work, a.phase.result)
            case Finish(o) => forall runs' :: OnPlan(card.(place := Done(o)), runs', cfg.maxAttempts)
            case Again(_, _) => Retryable(card.job.payload)
  {
  }

  lemma {:induction false} DecideOnPlan(cfg: Config, h: Harness, m: Move)
    requires CanMove(h, m) && m.Decide? && AttemptOk(h.attempts[m.k], m.k, h.cards, cfg.maxAttempts)
    requires var card := h.cards[h.attempts[m.k].work.workID];
             card.begun <= cfg.maxAttempts && OnPlan(card, h.attempts, cfg.maxAttempts)
    ensures Fine(cfg, h, m)
  {
    var a := h.attempts[m.k];
    var card := h.cards[a.work.workID];
    VerdictOnPlan(cfg, card, a, m.k, h.attempts);
    match AfterWorker(cfg, a.work, a.phase.result)
    case Finish(o) => assert MoveNext(cfg, h, m).cards[a.work.workID] == card.(place := Done(o));
    case Again(next, delayed) =>
      assert MoveNext(cfg, h, m).cards[a.work.workID] == if delayed then card.(place := InTimer(|h.timers|)) else card;
  }

  lemma {:induction false} WorkerOnPlan(cfg: Config, h: Harness, m: Move)
    requires TokensOk(cfg, h) && CanMove(h, m) && (m.Start? || m.Judge?) && Undisturbed(h, m)
    requires AllOnPlan(h.cards, h.attempts, cfg.maxAttempts)
    ensures Fine(cfg, h, m)
  {
    var a, p := h.attempts[m.k], if m.Start? then Running else Judged(m.result);
    assert AttemptOk(a, m.k, h.cards, cfg.maxAttempts);
    assert MoveNext(cfg, h, m).cards == h.cards && MoveNext(cfg, h, m).attempts == h.attempts[m.k := a.(phase := p)];
    PhaseOnPlan(h.cards[a.work.workID], h.attempts, m.k, p, cfg.maxAttempts);
  }

  lemma {:induction false} PhaseOnPlan(card: Card, runs: seq<Attempt>, k: nat, p: Phase, max: int)
    requires OnPlan(card, runs, max) && card.place == InAttempt(k) && k < |runs|
    requires (runs[k].phase.Popped? && p.Running?) || (runs[k].phase.Running? && p == Judged(Simulate(card.job.payload)))
    ensures var runs' := runs[k := runs[k].(phase := p)];
            OnPlan(card, runs', max) && Judgements(card, runs') == Judgements(card, runs) + (if p.Judged? then 1 else 0)
  {
  }

  lemma {:induction false} JobMovePlan(cfg: Config, h: Harness, m: Move)
    requires Good(cfg, h) && !h.lost && CanMove(h, m) && JobMove(m) && Undisturbed(h, m)
    requires AllOnPlan(h.cards, h.attempts, cfg.maxAttempts)
    ensures var n := MoveNext(cfg, h, m); AllOnPlan(n.cards, n.attempts, cfg.maxAttempts)
  {
    var n := MoveNext(cfg, h, m);
    JobMoveDescends(cfg, h, m);
    MoverOnPlan(cfg, h, m);
    OthersOnPlan(h.cards, h.attempts, n.cards, n.attempts, cfg.maxAttempts, Mover(h, m));
  }

  lemma {:induction false} NotLost(cfg: Config, h: Harness, m: Move)
    requires CanMove(h, m) && !h.lost && !m.PopLost?
    ensures !MoveNext(cfg, h, m).lost
  {
  }

  lemma {:induction false} JobStep(cfg: Config, r: Run, m: Move)
    requires Expected(cfg, r) && CanStep(r, Adapter(m)) && JobMove(m) && Undisturbed(r.h, m)
    ensures Expected(cfg, StepNext(cfg, r, Adapter(m)))
  {
    assert StepNext(cfg, r, Adapter(m)).h == MoveNext(cfg, r.h, m);
    MoveKeeps(cfg, r.h, m);
    NotLost(cfg, r.h, m);
    JobMovePlan(cfg, r.h, m);
    JobMoveDescends(cfg, r.h, m);
    JobMoveFrame(cfg, r.h, m);
    MoverOnPlan(cfg, r.h, m);
    JobStepLedger(cfg, r, m);
  }

  lemma {:induction false} JobStepLedger(cfg: Config, r: Run, m: Move)
    requires TokensOk(cfg, r.h) && Ledger(r) && CanStep(r, Adapter(m)) && JobMove(m) && Undisturbed(r.h, m)
    requires Fine(cfg, r.h, m) && 1 <= Mover(r.h, m) <= r.h.nextID && MoveNext(cfg, r.h, m).nextID == r.h.nextID
    requires var n := MoveNext(cfg, r.h, m); Descends(r.h.cards, r.h.attempts, n.cards, n.attempts, cfg.maxAttempts, Mover(r.h, m))
    ensures Ledger(StepNext(cfg, r, Adapter(m)))
  {
    var n := StepNext(cfg, r, Adapter(m));
    if m.Judge? {
      assert AttemptOk(r.h.attempts[m.k], m.k, r.h.cards, cfg.maxAttempts);
    }
    LedgerMoves(r, n, cfg.maxAttempts, Mover(r.h, m), m.Judge?);
  }

  lemma {:induction false} AcceptLedger(r: Run, n: Run, card: Card)
    requires Ledger(r) && r.h.nextID + 1 !in r.h.cards && card.place.InQueue? && card.begun == 0
    requires n.h.nextID == r.h.nextID + 1 && n.h.attempts == r.h.attempts && n.completed == r.completed && n.failed == r.failed
    requires n.h.cards == r.h.cards || n.h.cards == r.h.cards[r.h.nextID + 1 := card]
    ensures Ledger(n)
  {
    var w := r.h.nextID + 1;
    SumToChange(r.h.nextID, (x: nat) => CleanOf(r.h.cards, r.h.attempts, x), (x: nat) => CleanOf(n.h.cards, n.h.attempts, x), w);
    SumToChange(r.h.nextID, (x: nat) => FailOf(r.h.cards, r.h.attempts, x), (x: nat) => FailOf(n.h.cards, n.h.attempts, x), w);
  }

  lemma {:induction false} EnqueueStep(cfg: Config, r: Run, m: Move)
    requires Expected(cfg, r) && CanStep(r, Adapter(m)) && (m.Enqueue? || m.EnqueueFailed?)
    ensures Expected(cfg, StepNext(cfg, r, Adapter(m)))
  {
    var n := StepNext(cfg, r, Adapter(m));
    MoveKeeps(cfg, r.h, m);
    assert r.h.nextID + 1 !in r.h.cards;
    var card := if m.Enqueue? then Card(BenchWork(r.h.nextID + 1, m.tenant, m.kind, 1, m.payload), InQueue(|r.h.sys.rows|), 0)
                else Card(BenchWork(0, "", [], 0, Payload(0, [], "")), InQueue(0), 0);
    EnqueueEffect(cfg, r, m, card);
    AcceptLedger(r, n, card);
    forall w | w in n.h.cards ensures OnPlan(n.h.cards[w], n.h.attempts, cfg.maxAttempts) {
      if w in r.h.cards { assert OnPlan(r.h.cards[w], r.h.attempts, cfg.maxAttempts); }
    }
  }

  lemma {:induction false} EnqueueEffect(cfg: Config, r: Run, m: Move, card: Card)
    requires CanStep(r, Adapter(m)) && (m.Enqueue? || m.EnqueueFailed?)
    requires m.Enqueue? ==> card == Card(BenchWork(r.h.nextID + 1, m.tenant, m.kind, 1, m.payload), InQueue(|r.h.sys.rows|), 0)
    ensures var n := StepNext(cfg, r, Adapter(m));
            && n.h.nextID == r.h.nextID + 1 && n.h.attempts == r.h.attempts && n.completed == r.completed && n.failed == r.failed
            && n.h.cards == (if m.Enqueue? then r.h.cards[r.h.nextID + 1 := card] else r.h.cards)
            && n.h.lost == r.h.lost
  {
  }

  lemma {:induction false} StoreStep(cfg: Config, r: Run, s: Step)
    requires Expected(cfg, r) && CanStep(r, s) && (s.Adapter? ==> s.m.Store?)
    ensures Expected(cfg, StepNext(cfg, r, s))
  {
    if s.Adapter? {
      MoveKeeps(cfg, r.h, s.m);
    }
  }

  lemma {:induction false} RunsAsExpected(cfg: Config, rs: seq<Run>, ss: seq<Step>, k: nat)
    requires IsBenchmark(cfg, rs, ss) && IsUndisturbed(rs, ss) && k < |rs|
    ensures Expected(cfg, rs[k])
  {
    if k == 0 {
      NothingYet(cfg, rs[0]);
    } else {
      RunsAsExpected(cfg, rs, ss, k - 1);
      AnyStep(cfg, rs[k - 1], ss[k - 1]);
    }
  }

  lemma {:induction false} AnyStep(cfg: Config, r: Run, s: Step)
    requires Expected(cfg, r) && CanStep(r, s) && (s.Adapter? ==> Undisturbed(r.h, s.m))
    ensures Expected(cfg, StepNext(cfg, r, s))
  {
    if s.Adapter? && JobMove(s.m) {
      JobStep(cfg, r, s.m);
    } else if s.Adapter? && (s.m.Enqueue? || s.m.EnqueueFailed?) {
      EnqueueStep(cfg, r, s.m);
    } else {
      StoreStep(cfg, r, s);
    }
  }

  lemma {:induction false} NothingYet(cfg: Config, r: Run)
    requires ValidConfig(cfg) && exists lib, sc :: Begins(r, lib, sc)
    ensures Expected(cfg, r)
  {
    SumToZero(r.h.nextID, (w: nat) => CleanOf(r.h.cards, r.h.attempts, w));
    SumToZero(r.h.nextID, (w: nat) => FailOf(r.h.cards, r.h.attempts, w));
  }

  // ----- the result

  /** Nothing waiting, nothing running, no timer. */
  ghost predicate IsDrained(h: Harness) {
    && Waiting(h.sys.rows) == map[]
    && (forall k: nat | k < |h.attempts| :: !Active(h.attempts[k]))
    && (forall m: nat | m < |h.timers| :: !h.timers[m].live)
  }

  /** Then every accepted job has its outcome. */
  lemma {:induction false} DrainedIsDone(cfg: Config, h: Harness)
    requires TokensOk(cfg, h) && IsDrained(h)
    ensures forall w | w in h.cards :: h.cards[w].place.Done?
  {
  }

  function CountCards(cards: Cards, n: nat, p: Payload -> bool): int {
    SumTo(n, (w: nat) => Has(cards, w, p))
  }

  /**
   A drained undisturbed run completed each clean job once, and failed MaxAttempts times per
   job with a retryable error and once per job with a permanent one.
   */
  lemma {:induction false} DrainedCounts(cfg: Config, rs: seq<Run>, ss: seq<Step>, k: nat)
    requires IsBenchmark(cfg, rs, ss) && IsUndisturbed(rs, ss) && k < |rs| && IsDrained(rs[k].h)
    ensures var h := rs[k].h;
            && rs[k].completed == |JobsFailing(h.cards, "")|
            && rs[k].failed == cfg.maxAttempts * |JobsRetrying(h.cards)| + |JobsFailing(h.cards, "permanent")|
  {
    RunsAsExpected(cfg, rs, ss, k);
    DrainedState(cfg, rs[k]);
  }

  lemma {:induction false} DrainedState(cfg: Config, r: Run)
    ensures Expected(cfg, r) && IsDrained(r.h) ==>
              && r.completed == |JobsFailing(r.h.cards, "")|
              && r.failed == cfg.maxAttempts * |JobsRetrying(r.h.cards)| + |JobsFailing(r.h.cards, "permanent")|
  {
    if Expected(cfg, r) && IsDrained(r.h) {
      DrainedIsDone(cfg, r.h);
      KnownIds(cfg, r.h);
      CountsWhenDone(cfg, r);
    }
  }

  lemma {:induction false} CountsWhenDone(cfg: Config, r: Run)
    requires AllOnPlan(r.h.cards, r.h.attempts, cfg.maxAttempts) && Ledger(r)
    requires forall w | w in r.h.cards :: r.h.cards[w].place.Done? && 1 <= w <= r.h.nextID
    ensures r.completed == |JobsFailing(r.h.cards, "")|
    ensures r.failed == cfg.maxAttempts * |JobsRetrying(r.h.cards)| + |JobsFailing(r.h.cards, "permanent")|
  {
    CountsFromPlan(cfg, r);
    CountsAreSizes(r.h.cards, r.h.nextID);
  }

  /** The accepted jobs whose payload asks for this failure; "" for none. */
  function JobsFailing(cards: Cards, cls: string): set<nat> {
    set w | w in cards && cards[w].job.payload.failWith == cls
  }

  /** Those whose payload asks for any other failure. */
  function JobsRetrying(cards: Cards): set<nat> {
    set w | w in cards && cards[w].job.payload.failWith != "" && cards[w].job.payload.failWith != "permanent"
  }

  lemma {:induction false} KnownIds(cfg: Config, h: Harness)
    requires TokensOk(cfg, h)
    ensures forall w | w in h.cards :: 1 <= w <= h.nextID
  {
  }

  lemma {:induction false} CountsAreSizes(cards: Cards, n: nat)
    requires forall w | w in cards :: 1 <= w <= n
    ensures CountCards(cards, n, Clean) == |JobsFailing(cards, "")|
    ensures CountCards(cards, n, Permanent) == |JobsFailing(cards, "permanent")|
    ensures CountCards(cards, n, Retryable) == |JobsRetrying(cards)|
  {
    CountUpTo(cards, n, Clean);
    CountUpTo(cards, n, Permanent);
    CountUpTo(cards, n, Retryable);
    assert JobsUpTo(cards, n, Clean) == JobsFailing(cards, "");
    assert JobsUpTo(cards, n, Permanent) == JobsFailing(cards, "permanent");
    assert JobsUpTo(cards, n, Retryable) == JobsRetrying(cards);
  }

  function JobsUpTo(cards: Cards, n: nat, p: Payload -> bool): set<nat> {
    set w: nat | 1 <= w <= n && w in cards && p(cards[w].job.payload)
  }

  lemma {:induction false} CountUpTo(cards: Cards, n: nat, p: Payload -> bool)
    ensures CountCards(cards, n, p) == |JobsUpTo(cards, n, p)|
  {
    if n > 0 {
      CountUpTo(cards, n - 1, p);
      SumToSame(n - 1, (w: nat) => Has(cards, w, p), (w: nat) => Has(cards, w, p));
      assert JobsUpTo(cards, n, p) == JobsUpTo(cards, n - 1, p) + (if Has(cards, n, p) == 1 then {n} else {});
    }
  }

  lemma {:induction false} CountsFromPlan(cfg: Config, r: Run)
    requires AllOnPlan(r.h.cards, r.h.attempts, cfg.maxAttempts) && Ledger(r)
    requires forall w | w in r.h.cards :: r.h.cards[w].place.Done?
    ensures r.completed == CountCards(r.h.cards, r.h.nextID, Clean)
    ensures r.failed == cfg.maxAttempts * CountCards(r.h.cards, r.h.nextID, Retryable) + CountCards(r.h.cards, r.h.nextID, Permanent)
  {
    var cards, runs, n := r.h.cards, r.h.attempts, r.h.nextID;
    forall w: nat | 1 <= w <= n
      ensures CleanOf(cards, runs, w) == Has(cards, w, Clean)
      ensures FailOf(cards, runs, w) == cfg.maxAttempts * Has(cards, w, Retryable) + Has(cards, w, Permanent)
    {
      if w in cards { assert OnPlan(cards[w], runs, cfg.maxAttempts); }
    }
    SumToSame(n, (w: nat) => CleanOf(cards, runs, w), (w: nat) => Has(cards, w, Clean));
    SumToLinear(n, (w: nat) => Has(cards, w, Retryable), (w: nat) => Has(cards, w, Permanent), (w: nat) => FailOf(cards, runs, w), cfg.maxAttempts);
  }

  function Has(cards: Cards, w: nat, p: Payload -> bool): int {
    if w in cards && p(cards[w].job.payload) then 1 else 0
  }
}
