/**
 The work left strictly decreases: whatever the worker functions return and however moves
 interleave, every move of a job uses up part of a budget of 8 * MaxAttempts per accepted job.
 */
module WorkLeft {
  import opened Jobs
  import opened Permits
  import opened AtomicQueue
  import opened Retry
  import opened Tokens

  function PhaseRank(p: Phase): nat {
    match p
    case Popped => 7
    case Running => 6
    case Judged(_) => 5
    case Retrying(_) => 4
    case Returned => 0
  }

  /** 8 units per attempt not yet begun, plus what is left of the current one. */
  function Rank(card: Card, runs: seq<Attempt>, max: int): int {
    match card.place
    case InQueue(_) => 8 * (max - card.begun)
    case InTimer(_) => 8 * (max - card.begun) + 3
    case InAttempt(k) => 8 * (max - card.begun) + (if k < |runs| then PhaseRank(runs[k].phase) else 0)
    case Done(_) => 0
  }

  function RankOf(cards: Cards, runs: seq<Attempt>, max: int, w: nat): int {
    if w in cards then Rank(cards[w], runs, max) else 0
  }

  function Total(cards: Cards, runs: seq<Attempt>, max: int, n: nat): int {
    if n == 0 then 0 else Total(cards, runs, max, n - 1) + RankOf(cards, runs, max, n)
  }

  function Left(cfg: Config, h: Harness): int {
    Total(h.cards, h.attempts, cfg.maxAttempts, h.nextID)
  }

  /** A move that advances one job. */
  predicate JobMove(m: Move) {
    !m.Store? && !m.Enqueue? && !m.EnqueueFailed? && !m.Stop?
  }

  lemma {:induction false} TotalChange(cards: Cards, runs: seq<Attempt>, cards': Cards, runs': seq<Attempt>, max: int, n: nat, w: nat)
    requires forall x: nat | x != w :: RankOf(cards', runs', max, x) == RankOf(cards, runs, max, x)
    ensures Total(cards', runs', max, n) - Total(cards, runs, max, n)
            == if 1 <= w <= n then RankOf(cards', runs', max, w) - RankOf(cards, runs, max, w) else 0
  {
    if n > 0 {
      TotalChange(cards, runs, cards', runs', max, n - 1, w);
    }
  }

  lemma {:induction false} TotalNonNegative(cards: Cards, runs: seq<Attempt>, max: int, n: nat)
    requires forall w | w in cards :: cards[w].begun <= max
    ensures Total(cards, runs, max, n) >= 0
  {
    if n > 0 {
      TotalNonNegative(cards, runs, max, n - 1);
    }
  }

  /** Replacing attempt `k`'s phase, or appending an attempt, does not change the rank of other jobs. */
  lemma {:induction false} OtherRanks(runs: seq<Attempt>, runs': seq<Attempt>, cards: Cards, cards': Cards, max: int, w: nat)
    requires AttemptsOk(runs, cards, max) && SameExcept(cards, cards', w) && |runs| <= |runs'|
    requires forall k: nat | k < |runs| && runs[k].work.workID != w :: runs'[k] == runs[k]
    ensures forall x: nat | x != w :: RankOf(cards', runs', max, x) == RankOf(cards, runs, max, x)
  {
  }

  /** The job that move `m` advances. */
  ghost function Mover(h: Harness, m: Move): nat
    requires CanMove(h, m) && JobMove(m)
  {
    match m
    case PopReturn(c) => h.sys.clients[c].call.work.workID
    case PopLost(c) => h.sys.clients[c].call.work.workID
    case Start(k) => h.attempts[k].work.workID
    case Judge(k, _) => h.attempts[k].work.workID
    case Decide(k) => h.attempts[k].work.workID
    case Requeue(k, _) => h.attempts[k].work.workID
    case RequeueFails(k, _) => h.attempts[k].work.workID
    case Fire(t, _) => h.timers[t].work.workID
    case FireFails(t, _) => h.timers[t].work.workID
    case Drop(t) => h.timers[t].work.workID
  }

  /** Only the mover's card and attempts change, and its rank drops. */
  ghost predicate Descends(cards: Cards, runs: seq<Attempt>, cards': Cards, runs': seq<Attempt>, max: int, w: nat) {
    && w in cards && w in cards' && SameExcept(cards, cards', w) && |runs| <= |runs'|
    && (forall k: nat | k < |runs| && runs[k].work.workID != w :: runs'[k] == runs[k])
    && Rank(cards'[w], runs', max) < Rank(cards[w], runs, max)
  }

  lemma {:induction false} PhaseDescends(runs: seq<Attempt>, k: nat, p: Phase, cards: Cards, max: int)
    requires AttemptsOk(runs, cards, max) && k < |runs| && Active(runs[k]) && PhaseRank(p) < PhaseRank(runs[k].phase)
    ensures Descends(cards, runs, cards, runs[k := runs[k].(phase := p)], max, runs[k].work.workID)
  {
    assert AttemptOk(runs[k], k, cards, max);
  }

  lemma {:induction false} LeaveDescends(runs: seq<Attempt>, k: nat, cards: Cards, max: int, to: Place)
    requires AttemptsOk(runs, cards, max) && k < |runs| && Active(runs[k]) && !to.InAttempt?
    requires forall w | w in cards :: cards[w].begun <= max
    ensures Descends(cards, runs, Moved(cards, runs[k].work.workID, to), runs[k := runs[k].(phase := Returned)], max, runs[k].work.workID)
  {
    assert AttemptOk(runs[k], k, cards, max);
  }

  lemma {:induction false} BeginDescends(q: map<nat, BenchWork>, r: nat, runs: seq<Attempt>, a: Attempt, cards: Cards, max: int)
    requires QueueOk(q, cards, max) && r in q && a.work == q[r] && a.phase.Popped?
    ensures q[r].workID in cards && Descends(cards, runs, BegunCards(cards, q[r].workID, |runs|), runs + [a], max, q[r].workID)
  {
    assert Upcoming(cards, max, q[r], InQueue(r));
  }

  lemma {:induction false} TimerDescends(ts: seq<Timer>, t: nat, runs: seq<Attempt>, cards: Cards, max: int, to: Place)
    requires TimersOk(ts, cards, max) && t < |ts| && ts[t].live && (to.InQueue? || to.Done?)
    ensures Descends(cards, runs, Moved(cards, ts[t].work.workID, to), runs, max, ts[t].work.workID)
  {
    assert Upcoming(cards, max, ts[t].work, InTimer(t));
  }

  lemma {:induction false} AttemptMoveDescends(cfg: Config, h: Harness, m: Move)
    requires TokensOk(cfg, h) && CanMove(h, m) && (m.Start? || m.Judge? || m.Decide?)
    ensures var n := MoveNext(cfg, h, m); Descends(h.cards, h.attempts, n.cards, n.attempts, cfg.maxAttempts, Mover(h, m))
  {
    if m.Decide? {
      DecideDescends(cfg, h, m.k);
    } else {
      var p := if m.Start? then Running else Judged(m.result);
      PhaseMoves(cfg, h, m, p);
      PhaseDescends(h.attempts, m.k, p, h.cards, cfg.maxAttempts);
    }
  }

  lemma {:induction false} PhaseMoves(cfg: Config, h: Harness, m: Move, p: Phase)
    requires CanMove(h, m) && (m.Start? || m.Judge?) && p == (if m.Start? then Running else Judged(m.result))
    ensures var n := MoveNext(cfg, h, m); n.cards == h.cards && n.attempts == h.attempts[m.k := h.attempts[m.k].(phase := p)]
  {
  }

  lemma {:induction false} DecideDescends(cfg: Config, h: Harness, k: nat)
    requires TokensOk(cfg, h) && CanMove(h, Decide(k))
    ensures var n := MoveNext(cfg, h, Decide(k)); Descends(h.cards, h.attempts, n.cards, n.attempts, cfg.maxAttempts, Mover(h, Decide(k)))
  {
    match AfterWorker(cfg, h.attempts[k].work, h.attempts[k].phase.result)
    case Finish(o) => LeaveDescends(h.attempts, k, h.cards, cfg.maxAttempts, Done(o));
    case Again(next, delayed) =>
      if delayed {
        LeaveDescends(h.attempts, k, h.cards, cfg.maxAttempts, InTimer(|h.timers|));
      } else {
        PhaseDescends(h.attempts, k, Retrying(next), h.cards, cfg.maxAttempts);
      }
  }

  lemma {:induction false} PushMoveDescends(cfg: Config, h: Harness, m: Move)
    requires TokensOk(cfg, h) && CanMove(h, m) && (m.Requeue? || m.RequeueFails? || m.Fire? || m.FireFails? || m.Drop?)
    ensures var n := MoveNext(cfg, h, m); Descends(h.cards, h.attempts, n.cards, n.attempts, cfg.maxAttempts, Mover(h, m))
  {
    match m
    case Requeue(k, _) =>
      assert AttemptOk(h.attempts[k], k, h.cards, cfg.maxAttempts);
      LeaveDescends(h.attempts, k, h.cards, cfg.maxAttempts, InQueue(|h.sys.rows|));
    case RequeueFails(k, _) => LeaveDescends(h.attempts, k, h.cards, cfg.maxAttempts, Done(RequeueFailed));
    case Fire(t, _) => TimerDescends(h.timers, t, h.attempts, h.cards, cfg.maxAttempts, InQueue(|h.sys.rows|));
    case FireFails(t, _) => TimerDescends(h.timers, t, h.attempts, h.cards, cfg.maxAttempts, Done(RequeueFailed));
    case Drop(t) => TimerDescends(h.timers, t, h.attempts, h.cards, cfg.maxAttempts, Done(DroppedAtShutdown));
  }

  lemma {:induction false} PopMoveDescends(cfg: Config, h: Harness, m: Move)
    requires Inv(h.sys) && OnlyPops(h.sys) && TokensOk(cfg, h) && CanMove(h, m) && m.PopReturn?
    ensures var n := MoveNext(cfg, h, m); Descends(h.cards, h.attempts, n.cards, n.attempts, cfg.maxAttempts, Mover(h, m))
  {
    CommitRemoves(h.sys, Sessions.Commit(m.c));
    var call := h.sys.clients[m.c].call;
    BeginDescends(Waiting(h.sys.rows), call.i, h.attempts, Attempt(call.work, call.p, Popped), h.cards, cfg.maxAttempts);
  }

  lemma {:induction false} DescentUsesWork(cards: Cards, runs: seq<Attempt>, cards': Cards, runs': seq<Attempt>, max: int, w: nat, n: nat)
    requires AttemptsOk(runs, cards, max) && Descends(cards, runs, cards', runs', max, w) && 1 <= w <= n
    ensures Total(cards', runs', max, n) < Total(cards, runs, max, n)
  {
    OtherRanks(runs, runs', cards, cards', max, w);
    TotalChange(cards, runs, cards', runs', max, n, w);
  }

  lemma {:induction false} JobMoveDescends(cfg: Config, h: Harness, m: Move)
    requires Good(cfg, h) && !h.lost && CanMove(h, m) && JobMove(m) && !m.PopLost?
    ensures var n := MoveNext(cfg, h, m); Descends(h.cards, h.attempts, n.cards, n.attempts, cfg.maxAttempts, Mover(h, m))
    ensures 1 <= Mover(h, m) <= h.nextID
  {
    if m.PopReturn? {
      PopMoveDescends(cfg, h, m);
    } else if m.Start? || m.Judge? || m.Decide? {
      AttemptMoveDescends(cfg, h, m);
    } else {
      PushMoveDescends(cfg, h, m);
    }
  }

  /** Every move of a job uses up work. */
  lemma {:induction false} JobMoveUsesWork(cfg: Config, h: Harness, m: Move)
    requires Good(cfg, h) && !h.lost && CanMove(h, m) && JobMove(m) && !m.PopLost?
    ensures Left(cfg, MoveNext(cfg, h, m)) < Left(cfg, h)
    ensures |MoveNext(cfg, h, m).cards| == |h.cards|
  {
    var n, w := MoveNext(cfg, h, m), Mover(h, m);
    JobMoveDescends(cfg, h, m);
    JobMoveFrame(cfg, h, m);
    DescentUsesWork(h.cards, h.attempts, n.cards, n.attempts, cfg.maxAttempts, w, h.nextID);
  }

  lemma {:induction false} JobMoveFrame(cfg: Config, h: Harness, m: Move)
    requires CanMove(h, m) && JobMove(m)
    ensures MoveNext(cfg, h, m).cards.Keys == h.cards.Keys && MoveNext(cfg, h, m).nextID == h.nextID
  {
  }

  lemma {:induction false} AcceptAddsWork(cards: Cards, runs: seq<Attempt>, max: int, n: nat, card: Card)
    requires AttemptsOk(runs, cards, max) && JobsOk(cards, max, n) && card.place.InQueue? && card.begun == 0
    ensures Total(cards[n + 1 := card], runs, max, n + 1) == Total(cards, runs, max, n) + 8 * max
    ensures |cards[n + 1 := card]| == |cards| + 1
  {
    assert n + 1 !in cards;
    var cards' := cards[n + 1 := card];
    OtherRanks(runs, runs, cards, cards', max, n + 1);
    TotalChange(cards, runs, cards', runs, max, n, n + 1);
  }

  lemma {:induction false} EnqueueAddsWork(cfg: Config, h: Harness, m: Move)
    requires AttemptsOk(h.attempts, h.cards, cfg.maxAttempts) && JobsOk(h.cards, cfg.maxAttempts, h.nextID)
    requires CanMove(h, m) && m.Enqueue?
    ensures var n := MoveNext(cfg, h, m); Left(cfg, n) == Left(cfg, h) + 8 * cfg.maxAttempts && |n.cards| == |h.cards| + 1
  {
    var card := Card(BenchWork(h.nextID + 1, m.tenant, m.kind, 1, m.payload), InQueue(|h.sys.rows|), 0);
    AcceptAddsWork(h.cards, h.attempts, cfg.maxAttempts, h.nextID, card);
    EnqueueFrame(cfg, h, m, card);
  }

  lemma {:induction false} EnqueueFrame(cfg: Config, h: Harness, m: Move, card: Card)
    requires CanMove(h, m) && m.Enqueue?
    requires card == Card(BenchWork(h.nextID + 1, m.tenant, m.kind, 1, m.payload), InQueue(|h.sys.rows|), 0)
    ensures var n := MoveNext(cfg, h, m);
            n.cards == h.cards[h.nextID + 1 := card] && n.attempts == h.attempts && n.nextID == h.nextID + 1
  {
  }

  lemma {:induction false} NoJobMoveNoWork(cfg: Config, h: Harness, m: Move)
    requires TokensOk(cfg, h) && CanMove(h, m) && (m.Store? || m.Stop? || m.EnqueueFailed?)
    ensures var n := MoveNext(cfg, h, m); Left(cfg, n) == Left(cfg, h) && |n.cards| == |h.cards|
  {
    assert h.nextID + 1 !in h.cards;
    var n := MoveNext(cfg, h, m);
    assert n.cards == h.cards && n.attempts == h.attempts && (n.nextID == h.nextID || n.nextID == h.nextID + 1);
  }

  function JobMoves(ms: seq<Move>): nat {
    if ms == [] then 0 else JobMoves(ms[..|ms| - 1]) + (if JobMove(ms[|ms| - 1]) then 1 else 0)
  }

  lemma {:induction false} MovesPaidFor(cfg: Config, hs: seq<Harness>, ms: seq<Move>, k: nat)
    requires IsHistory(cfg, hs, ms) && k < |hs| && LossFree(hs)
    ensures JobMoves(ms[..k]) + Left(cfg, hs[k]) <= 8 * cfg.maxAttempts * |hs[k].cards|
  {
    if k == 0 {
      NoWorkYet(cfg, hs[0], hs[0].nextID);
    } else {
      MovesPaidFor(cfg, hs, ms, k - 1);
      HistoryKeeps(cfg, hs, ms, k - 1);
      assert ms[..k][..k - 1] == ms[..k - 1];
      assert !hs[k].lost && !hs[k - 1].lost;
      MovePaidFor(cfg, hs[k - 1], ms[k - 1]);
    }
  }

  lemma {:induction false} MovePaidFor(cfg: Config, h: Harness, m: Move)
    requires Good(cfg, h) && !h.lost && CanMove(h, m) && !MoveNext(cfg, h, m).lost
    ensures var n := MoveNext(cfg, h, m);
            (if JobMove(m) then 1 else 0) + Left(cfg, n) - Left(cfg, h) <= 8 * cfg.maxAttempts * |n.cards| - 8 * cfg.maxAttempts * |h.cards|
  {
    var n := MoveNext(cfg, h, m);
    if JobMove(m) {
      JobMoveUsesWork(cfg, h, m);
    } else if m.Enqueue? {
      EnqueueAddsWork(cfg, h, m);
    } else {
      NoJobMoveNoWork(cfg, h, m);
    }
    Affordable(cfg.maxAttempts, |h.cards|, |n.cards|, Left(cfg, h), Left(cfg, n), if JobMove(m) then 1 else 0);
  }

  lemma Affordable(max: int, c: nat, c': nat, left: int, left': int, used: nat)
    requires (c' == c && used + left' <= left) || (c' == c + 1 && used == 0 && left' <= left + 8 * max)
    ensures used + left' - left <= 8 * max * c' - 8 * max * c
  {
    assert 8 * max * (c + 1) == 8 * max * c + 8 * max;
  }

  lemma {:induction false} NoWorkYet(cfg: Config, h: Harness, n: nat)
    requires h.cards == map[]
    ensures Total(h.cards, h.attempts, cfg.maxAttempts, n) == 0
  {
    if n > 0 { NoWorkYet(cfg, h, n - 1); }
  }

  /** However long the run, its job moves number at most 8 * MaxAttempts per accepted job. */
  lemma {:induction false} RunsOutOfWork(cfg: Config, hs: seq<Harness>, ms: seq<Move>)
    requires IsHistory(cfg, hs, ms) && LossFree(hs)
    ensures JobMoves(ms) <= 8 * cfg.maxAttempts * |hs[|ms|].cards|
  {
    MovesPaidFor(cfg, hs, ms, |ms|);
    HistoryKeeps(cfg, hs, ms, |ms|);
    assert ms[..|ms|] == ms;
    TotalNonNegative(hs[|ms|].cards, hs[|ms|].attempts, cfg.maxAttempts, hs[|ms|].nextID);
  }
}
