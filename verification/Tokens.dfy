/**
 Job conservation: in every interleaving each accepted job is in exactly one place, and its
 attempts are numbered 1, 2, 3, ... without gap or repetition, never past MaxAttempts.
 */
module Tokens {
  import opened Options
  import opened Jobs
  import opened Tables
  import opened Sessions
  import opened Permits
  import opened AtomicQueue
  import opened Retry

  /** An attempt the runner has not returned from still holds its job. */
  predicate Active(a: Attempt) { !a.phase.Returned? }

  type Cards = map<nat, Card>

  /** `x` is an accepted job about to make its next attempt, and it is at place `p`. */
  predicate Upcoming(cards: Cards, max: int, x: BenchWork, p: Place) {
    && x.workID in cards
    && var card := cards[x.workID];
    && x == card.job.(attempt := card.begun + 1) && card.begun < max && card.place == p
  }

  ghost predicate QueueOk(q: map<nat, BenchWork>, cards: Cards, max: int) {
    && (forall i | i in q :: Upcoming(cards, max, q[i], InQueue(i)))
    && (forall w | w in cards && cards[w].place.InQueue? :: cards[w].place.row in q && q[cards[w].place.row].workID == w)
  }

  predicate AttemptOk(a: Attempt, k: nat, cards: Cards, max: int) {
    && a.work.workID in cards
    && (Active(a) ==>
          && var card := cards[a.work.workID];
          && card.place == InAttempt(k)
          && a.work == card.job.(attempt := card.begun)
          && (a.phase.Retrying? ==> a.phase.next.workID == a.work.workID && Upcoming(cards, max, a.phase.next, InAttempt(k))))
  }

  ghost predicate AttemptsOk(runs: seq<Attempt>, cards: Cards, max: int) {
    && (forall k: nat | k < |runs| :: AttemptOk(runs[k], k, cards, max))
    && (forall w | w in cards && cards[w].place.InAttempt? ::
          cards[w].place.k < |runs| && Active(runs[cards[w].place.k]) && runs[cards[w].place.k].work.workID == w)
  }

  ghost predicate TimersOk(ts: seq<Timer>, cards: Cards, max: int) {
    && (forall m: nat | m < |ts| && ts[m].live :: Upcoming(cards, max, ts[m].work, InTimer(m)))
    && (forall w | w in cards && cards[w].place.InTimer? ::
          cards[w].place.m < |ts| && ts[cards[w].place.m].live && ts[cards[w].place.m].work.workID == w)
  }

  ghost predicate JobsOk(cards: Cards, max: int, nextID: nat) {
    forall w | w in cards :: cards[w].job.workID == w && 1 <= w <= nextID && cards[w].job.attempt == 1 && cards[w].begun <= max
  }

  /** The attempt numbers job `w` has run under, in order. */
  function AttemptsOf(attempts: seq<Attempt>, w: nat): seq<int> {
    if attempts == [] then []
    else
      var last := attempts[|attempts| - 1];
      AttemptsOf(attempts[..|attempts| - 1], w) + (if last.work.workID == w then [last.work.attempt] else [])
  }

  function Upto(n: nat): (r: seq<int>)
    ensures |r| == n && forall i: nat | i < n :: r[i] == i + 1
  {
    seq(n, i requires 0 <= i < n => i + 1)
  }

  ghost predicate HistoryOk(runs: seq<Attempt>, cards: Cards) {
    forall w: nat :: AttemptsOf(runs, w) == if w in cards then Upto(cards[w].begun) else []
  }

  ghost predicate AllOk(q: map<nat, BenchWork>, runs: seq<Attempt>, ts: seq<Timer>, cards: Cards, max: int) {
    QueueOk(q, cards, max) && AttemptsOk(runs, cards, max) && TimersOk(ts, cards, max)
  }

  ghost predicate TokensOk(cfg: Config, h: Harness) {
    && AllOk(Waiting(h.sys.rows), h.attempts, h.timers, h.cards, cfg.maxAttempts)
    && JobsOk(h.cards, cfg.maxAttempts, h.nextID)
    && HistoryOk(h.attempts, h.cards)
  }

  /** Everything that holds in a reachable state in which no pop has lost its commit. */
  ghost predicate Good(cfg: Config, h: Harness) {
    ValidConfig(cfg) && Inv(h.sys) && OnlyPops(h.sys) && (!h.lost ==> TokensOk(cfg, h))
  }

  lemma {:induction false} SameWorkSameHistory(a: seq<Attempt>, b: seq<Attempt>, w: nat)
    requires |a| == |b| && forall k: nat | k < |a| :: a[k].work == b[k].work
    ensures AttemptsOf(a, w) == AttemptsOf(b, w)
  {
    if a != [] {
      SameWorkSameHistory(a[..|a| - 1], b[..|b| - 1], w);
    }
  }

  lemma {:induction false} SetPhaseKeepsHistory(runs: seq<Attempt>, k: nat, p: Phase, cards: Cards)
    requires k < |runs| && HistoryOk(runs, cards)
    ensures HistoryOk(runs[k := runs[k].(phase := p)], cards)
  {
    forall w: nat
      ensures AttemptsOf(runs[k := runs[k].(phase := p)], w) == AttemptsOf(runs, w)
    {
      SameWorkSameHistory(runs[k := runs[k].(phase := p)], runs, w);
    }
  }

  // ----- the store underneath

  lemma StoreKeeps(cfg: Config, h: Harness, m: Move)
    requires Good(cfg, h) && CanMove(h, m) && m.Store?
    ensures Good(cfg, MoveNext(cfg, h, m))
  {
    StepKeeps(h.sys, m.a);
    OthersStutter(h.sys, m.a);
  }

  lemma PushErrorKeeps(sys: Sys, c: Id)
    requires Inv(sys) && OnlyPops(sys) && c < |sys.clients| && Usable(sys.clients[c])
    ensures var n := Next(sys, PushFailed(c)); Inv(n) && OnlyPops(n) && Waiting(n.rows) == Waiting(sys.rows)
  {
    StepKeeps(sys, PushFailed(c));
    OthersStutter(sys, PushFailed(c));
  }

  lemma PushRowKeeps(sys: Sys, c: Id, row: Row)
    requires Inv(sys) && OnlyPops(sys) && c < |sys.clients| && Usable(sys.clients[c]) && row.permit == 0
    ensures var n := Next(sys, Push(c, row));
            && Inv(n) && OnlyPops(n)
            && |sys.rows| !in Waiting(sys.rows)
            && Waiting(n.rows) == Waiting(sys.rows)[|sys.rows| := row.item]
  {
    StepKeeps(sys, Push(c, row));
    PushAdds(sys, Push(c, row));
  }

  // ----- moves of one token: everything about other jobs stays

  ghost predicate SameExcept(cards: Cards, cards': Cards, w: nat) {
    && (forall x | x != w :: x in cards' <==> x in cards)
    && (forall x | x != w && x in cards :: cards'[x] == cards[x])
  }

  lemma QueueMove(q: map<nat, BenchWork>, q': map<nat, BenchWork>, cards: Cards, cards': Cards, max: int, w: nat)
    requires QueueOk(q, cards, max) && SameExcept(cards, cards', w)
    requires forall i | i in q' && q'[i].workID == w :: Upcoming(cards', max, q'[i], InQueue(i))
    requires forall i | i in q' && q'[i].workID != w :: i in q && q[i] == q'[i]
    requires forall i | i in q && q[i].workID != w :: i in q' && q'[i] == q[i]
    requires w in cards' && cards'[w].place.InQueue? ==> cards'[w].place.row in q' && q'[cards'[w].place.row].workID == w
    ensures QueueOk(q', cards', max)
  {
  }

  lemma AttemptsMove(runs: seq<Attempt>, runs': seq<Attempt>, cards: Cards, cards': Cards, max: int, w: nat)
    requires AttemptsOk(runs, cards, max) && SameExcept(cards, cards', w) && |runs| <= |runs'|
    requires forall k: nat | k < |runs'| && runs'[k].work.workID == w :: AttemptOk(runs'[k], k, cards', max)
    requires forall k: nat | k < |runs'| && runs'[k].work.workID != w :: k < |runs| && runs'[k] == runs[k]
    requires forall k: nat | k < |runs| && runs[k].work.workID != w :: runs'[k] == runs[k]
    requires w in cards' && cards'[w].place.InAttempt? ==>
               cards'[w].place.k < |runs'| && Active(runs'[cards'[w].place.k]) && runs'[cards'[w].place.k].work.workID == w
    ensures AttemptsOk(runs', cards', max)
  {
    forall k: nat | k < |runs'|
      ensures AttemptOk(runs'[k], k, cards', max)
    {
      if runs'[k].work.workID != w { assert AttemptOk(runs[k], k, cards, max); }
    }
  }

  lemma TimersMove(ts: seq<Timer>, ts': seq<Timer>, cards: Cards, cards': Cards, max: int, w: nat)
    requires TimersOk(ts, cards, max) && SameExcept(cards, cards', w) && |ts| <= |ts'|
    requires forall m: nat | m < |ts'| && ts'[m].live && ts'[m].work.workID == w :: Upcoming(cards', max, ts'[m].work, InTimer(m))
    requires forall m: nat | m < |ts'| && ts'[m].live && ts'[m].work.workID != w :: m < |ts| && ts'[m] == ts[m]
    requires forall m: nat | m < |ts| && ts[m].live && ts[m].work.workID != w :: ts'[m] == ts[m]
    requires w in cards' && cards'[w].place.InTimer? ==>
               cards'[w].place.m < |ts'| && ts'[cards'[w].place.m].live && ts'[cards'[w].place.m].work.workID == w
    ensures TimersOk(ts', cards', max)
  {
  }

  /** A job has no token but the one its card names; an unknown id has none at all. */
  lemma OnlyHere(q: map<nat, BenchWork>, runs: seq<Attempt>, ts: seq<Timer>, cards: Cards, max: int, w: nat)
    requires AllOk(q, runs, ts, cards, max)
    ensures forall i | i in q && q[i].workID == w :: w in cards && cards[w].place == InQueue(i)
    ensures forall k: nat | k < |runs| && runs[k].work.workID == w :: w in cards && (Active(runs[k]) ==> cards[w].place == InAttempt(k))
    ensures forall m: nat | m < |ts| && ts[m].live && ts[m].work.workID == w :: w in cards && cards[w].place == InTimer(m)
  {
    forall k: nat | k < |runs| && runs[k].work.workID == w
      ensures w in cards && (Active(runs[k]) ==> cards[w].place == InAttempt(k))
    {
      assert AttemptOk(runs[k], k, cards, max);
    }
  }

  /** A new job enters the queue. */
  lemma Accept(q: map<nat, BenchWork>, runs: seq<Attempt>, ts: seq<Timer>, cards: Cards, max: int, nextID: nat, w: BenchWork, r: nat)
    requires AllOk(q, runs, ts, cards, max) && JobsOk(cards, max, nextID) && HistoryOk(runs, cards)
    requires w.workID == nextID + 1 && w.attempt == 1 && r !in q && max >= 1
    ensures var cards' := cards[w.workID := Card(w, InQueue(r), 0)];
            AllOk(q[r := w], runs, ts, cards', max) && JobsOk(cards', max, nextID + 1) && HistoryOk(runs, cards')
  {
    var cards' := cards[w.workID := Card(w, InQueue(r), 0)];
    assert w.workID !in cards;
    OnlyHere(q, runs, ts, cards, max, w.workID);
    QueueMove(q, q[r := w], cards, cards', max, w.workID);
    AttemptsMove(runs, runs, cards, cards', max, w.workID);
    TimersMove(ts, ts, cards, cards', max, w.workID);
  }

  lemma EnqueueTokens(cfg: Config, h: Harness, n: Harness, w: BenchWork)
    requires ValidConfig(cfg) && TokensOk(cfg, h) && w.workID == h.nextID + 1 && w.attempt == 1
    requires |h.sys.rows| !in Waiting(h.sys.rows) && Waiting(n.sys.rows) == Waiting(h.sys.rows)[|h.sys.rows| := w]
    requires n.attempts == h.attempts && n.timers == h.timers && n.nextID == h.nextID + 1
    requires n.cards == h.cards[w.workID := Card(w, InQueue(|h.sys.rows|), 0)]
    ensures TokensOk(cfg, n)
  {
    Accept(Waiting(h.sys.rows), h.attempts, h.timers, h.cards, cfg.maxAttempts, h.nextID, w, |h.sys.rows|);
  }

  lemma EnqueueKeeps(cfg: Config, h: Harness, m: Move)
    requires Good(cfg, h) && CanMove(h, m) && m.Enqueue?
    ensures Good(cfg, MoveNext(cfg, h, m))
  {
    var w := BenchWork(h.nextID + 1, m.tenant, m.kind, 1, m.payload);
    EnqueueEffect(cfg, h, m, w);
    PushRowKeeps(h.sys, m.c, FirstRow(cfg, w));
    if !h.lost {
      EnqueueTokens(cfg, h, MoveNext(cfg, h, m), w);
    }
  }

  lemma EnqueueEffect(cfg: Config, h: Harness, m: Move, w: BenchWork)
    requires CanMove(h, m) && m.Enqueue? && w == BenchWork(h.nextID + 1, m.tenant, m.kind, 1, m.payload)
    ensures var n := MoveNext(cfg, h, m);
            && n.sys == Next(h.sys, Push(m.c, FirstRow(cfg, w))) && n.lost == h.lost
            && n.attempts == h.attempts && n.timers == h.timers && n.nextID == h.nextID + 1
            && n.cards == h.cards[w.workID := Card(w, InQueue(|h.sys.rows|), 0)]
  {
  }

  lemma EnqueueFailedKeeps(cfg: Config, h: Harness, m: Move)
    requires Good(cfg, h) && CanMove(h, m) && m.EnqueueFailed?
    ensures Good(cfg, MoveNext(cfg, h, m))
  {
    PushErrorKeeps(h.sys, m.c);
  }

  function BegunCards(cards: Cards, w: nat, k: nat): Cards
    requires w in cards
  {
    cards[w := cards[w].(place := InAttempt(k), begun := cards[w].begun + 1)]
  }

  /** A popped row becomes an attempt. */
  lemma PopMoves(q: map<nat, BenchWork>, runs: seq<Attempt>, ts: seq<Timer>, cards: Cards, max: int, r: nat, p: Permit)
    requires AllOk(q, runs, ts, cards, max) && r in q
    ensures q[r].workID in cards
    ensures AllOk(q - {r}, runs + [Attempt(q[r], p, Popped)], ts, BegunCards(cards, q[r].workID, |runs|), max)
  {
    var w := q[r];
    assert Upcoming(cards, max, w, InQueue(r));
    var cards' := BegunCards(cards, w.workID, |runs|);
    OnlyHere(q, runs, ts, cards, max, w.workID);
    QueueMove(q, q - {r}, cards, cards', max, w.workID);
    AttemptsMove(runs, runs + [Attempt(w, p, Popped)], cards, cards', max, w.workID);
    TimersMove(ts, ts, cards, cards', max, w.workID);
  }

  lemma {:induction false} BeginHistory(runs: seq<Attempt>, cards: Cards, a: Attempt)
    requires HistoryOk(runs, cards) && a.work.workID in cards && a.work.attempt == cards[a.work.workID].begun + 1
    ensures HistoryOk(runs + [a], BegunCards(cards, a.work.workID, |runs|))
  {
    forall w: nat
      ensures AttemptsOf(runs + [a], w) == if w in cards then Upto(BegunCards(cards, a.work.workID, |runs|)[w].begun) else []
    {
      BeginHistoryOf(runs, cards, a, w);
    }
  }

  lemma {:induction false} BeginHistoryOf(runs: seq<Attempt>, cards: Cards, a: Attempt, w: nat)
    requires a.work.workID in cards && a.work.attempt == cards[a.work.workID].begun + 1
    requires AttemptsOf(runs, w) == if w in cards then Upto(cards[w].begun) else []
    ensures AttemptsOf(runs + [a], w) == if w in cards then Upto(BegunCards(cards, a.work.workID, |runs|)[w].begun) else []
  {
    var runs' := runs + [a];
    assert runs'[..|runs'| - 1] == runs;
    if w == a.work.workID {
      assert Upto(cards[w].begun) + [cards[w].begun + 1] == Upto(cards[w].begun + 1);
    }
  }

  lemma PopTokens(cfg: Config, h: Harness, n: Harness, i: nat, p: Permit)
    requires TokensOk(cfg, h) && i in Waiting(h.sys.rows) && Waiting(n.sys.rows) == Waiting(h.sys.rows) - {i}
    requires n.timers == h.timers && n.nextID == h.nextID
    requires n.attempts == h.attempts + [Attempt(Waiting(h.sys.rows)[i], p, Popped)]
    requires var w := Waiting(h.sys.rows)[i].workID; w in h.cards ==> n.cards == BegunCards(h.cards, w, |h.attempts|)
    ensures TokensOk(cfg, n)
  {
    var q := Waiting(h.sys.rows);
    PopMoves(q, h.attempts, h.timers, h.cards, cfg.maxAttempts, i, p);
    assert Upcoming(h.cards, cfg.maxAttempts, q[i], InQueue(i));
    BeginHistory(h.attempts, h.cards, Attempt(q[i], p, Popped));
  }

  lemma PopReturnKeeps(cfg: Config, h: Harness, m: Move)
    requires Good(cfg, h) && CanMove(h, m) && m.PopReturn?
    ensures Good(cfg, MoveNext(cfg, h, m))
  {
    var a := Sessions.Commit(m.c);
    StepKeeps(h.sys, a);
    CommitRemoves(h.sys, a);
    if !h.lost {
      PopTokens(cfg, h, MoveNext(cfg, h, m), h.sys.clients[m.c].call.i, h.sys.clients[m.c].call.p);
    }
  }

  lemma PopLostKeeps(cfg: Config, h: Harness, m: Move)
    requires Good(cfg, h) && CanMove(h, m) && m.PopLost?
    ensures Good(cfg, MoveNext(cfg, h, m))
  {
    StepKeeps(h.sys, Rollback(m.c));
    OthersStutter(h.sys, Rollback(m.c));
  }

  // ----- inside an attempt

  /** A phase change that keeps the job where it is. */
  lemma StayInAttempt(runs: seq<Attempt>, k: nat, p: Phase, cards: Cards, max: int)
    requires AttemptsOk(runs, cards, max) && k < |runs| && Active(runs[k]) && !p.Returned?
    requires p.Retrying? ==> p.next.workID == runs[k].work.workID && Upcoming(cards, max, p.next, InAttempt(k))
    ensures AttemptsOk(runs[k := runs[k].(phase := p)], cards, max)
  {
    assert AttemptOk(runs[k], k, cards, max);
    var runs' := runs[k := runs[k].(phase := p)];
    forall j: nat | j < |runs'|
      ensures AttemptOk(runs'[j], j, cards, max)
    {
      assert AttemptOk(runs[j], j, cards, max);
    }
  }

  lemma StartKeeps(cfg: Config, h: Harness, m: Move)
    requires Good(cfg, h) && CanMove(h, m) && (m.Start? || m.Judge?)
    ensures Good(cfg, MoveNext(cfg, h, m))
  {
    if !h.lost {
      var p := if m.Start? then Running else Judged(m.result);
      StayInAttempt(h.attempts, m.k, p, h.cards, cfg.maxAttempts);
      SetPhaseKeepsHistory(h.attempts, m.k, p, h.cards);
    }
  }

  /** The job leaves attempt `k`: to the queue (row `r` of `q'`), to timer slot |ts|, or for good. */
  lemma LeaveAttempt(q: map<nat, BenchWork>, q': map<nat, BenchWork>, runs: seq<Attempt>, ts: seq<Timer>, ts': seq<Timer>,
                     cards: Cards, max: int, k: nat, to: Place)
    requires AllOk(q, runs, ts, cards, max) && k < |runs| && Active(runs[k])
    requires match to
             case InQueue(r) => ts' == ts && r !in q && r in q' && q' == q[r := q'[r]] && NextOf(runs[k], cards, max) == Some(q'[r])
             case InTimer(t) => q' == q && t == |ts| && |ts'| == t + 1 && ts' == ts + [ts'[t]] && ts'[t].live
                                && NextOf(runs[k], cards, max) == Some(ts'[t].work)
             case Done(_) => q' == q && ts' == ts
             case InAttempt(_) => false
    ensures AllOk(q', runs[k := runs[k].(phase := Returned)], ts', Moved(cards, runs[k].work.workID, to), max)
  {
    var w := runs[k].work.workID;
    assert AttemptOk(runs[k], k, cards, max);
    var cards' := Moved(cards, w, to);
    OnlyHere(q, runs, ts, cards, max, w);
    QueueMove(q, q', cards, cards', max, w);
    AttemptsMove(runs, runs[k := runs[k].(phase := Returned)], cards, cards', max, w);
    TimersMove(ts, ts', cards, cards', max, w);
  }

  /** The attempt after this one, when there may be one. */
  function NextOf(a: Attempt, cards: Cards, max: int): Option<BenchWork> {
    if a.work.workID in cards && cards[a.work.workID].begun < max
    then Some(cards[a.work.workID].job.(attempt := cards[a.work.workID].begun + 1))
    else None
  }

  lemma DecideFinishes(cfg: Config, h: Harness, m: Move)
    requires TokensOk(cfg, h) && CanMove(h, m) && m.Decide?
    requires AfterWorker(cfg, h.attempts[m.k].work, h.attempts[m.k].phase.result).Finish?
    ensures TokensOk(cfg, MoveNext(cfg, h, m))
  {
    var q := Waiting(h.sys.rows);
    var o := AfterWorker(cfg, h.attempts[m.k].work, h.attempts[m.k].phase.result).outcome;
    LeaveAttempt(q, q, h.attempts, h.timers, h.timers, h.cards, cfg.maxAttempts, m.k, Done(o));
    SetPhaseKeepsHistory(h.attempts, m.k, Returned, h.cards);
  }

  lemma DelayTokens(cfg: Config, h: Harness, n: Harness, k: nat, next: BenchWork)
    requires TokensOk(cfg, h) && k < |h.attempts| && Active(h.attempts[k])
    requires NextOf(h.attempts[k], h.cards, cfg.maxAttempts) == Some(next)
    requires n.sys == h.sys && n.nextID == h.nextID && n.attempts == h.attempts[k := h.attempts[k].(phase := Returned)]
    requires n.timers == h.timers + [Timer(next, true)]
    requires n.cards == Moved(h.cards, h.attempts[k].work.workID, InTimer(|h.timers|))
    ensures TokensOk(cfg, n)
  {
    var q := Waiting(h.sys.rows);
    LeaveAttempt(q, q, h.attempts, h.timers, n.timers, h.cards, cfg.maxAttempts, k, InTimer(|h.timers|));
    SetPhaseKeepsHistory(h.attempts, k, Returned, h.cards);
  }

  lemma DecideRetries(cfg: Config, h: Harness, m: Move)
    requires TokensOk(cfg, h) && CanMove(h, m) && m.Decide?
    requires AfterWorker(cfg, h.attempts[m.k].work, h.attempts[m.k].phase.result).Again?
    ensures TokensOk(cfg, MoveNext(cfg, h, m))
  {
    var v := AfterWorker(cfg, h.attempts[m.k].work, h.attempts[m.k].phase.result);
    assert AttemptOk(h.attempts[m.k], m.k, h.cards, cfg.maxAttempts);
    assert NextOf(h.attempts[m.k], h.cards, cfg.maxAttempts) == Some(v.next);
    if v.delayed {
      DelayTokens(cfg, h, MoveNext(cfg, h, m), m.k, v.next);
    } else {
      StayInAttempt(h.attempts, m.k, Retrying(v.next), h.cards, cfg.maxAttempts);
      SetPhaseKeepsHistory(h.attempts, m.k, Retrying(v.next), h.cards);
    }
  }

  lemma DecideKeeps(cfg: Config, h: Harness, m: Move)
    requires Good(cfg, h) && CanMove(h, m) && m.Decide?
    ensures Good(cfg, MoveNext(cfg, h, m))
  {
    if !h.lost {
      if AfterWorker(cfg, h.attempts[m.k].work, h.attempts[m.k].phase.result).Finish? {
        DecideFinishes(cfg, h, m);
      } else {
        DecideRetries(cfg, h, m);
      }
    }
  }

  lemma RequeueTokens(cfg: Config, h: Harness, n: Harness, k: nat)
    requires TokensOk(cfg, h) && k < |h.attempts| && h.attempts[k].phase.Retrying?
    requires |h.sys.rows| !in Waiting(h.sys.rows)
    requires Waiting(n.sys.rows) == Waiting(h.sys.rows)[|h.sys.rows| := h.attempts[k].phase.next]
    requires n.timers == h.timers && n.nextID == h.nextID && n.attempts == h.attempts[k := h.attempts[k].(phase := Returned)]
    requires n.cards == Moved(h.cards, h.attempts[k].phase.next.workID, InQueue(|h.sys.rows|))
    ensures TokensOk(cfg, n)
  {
    assert AttemptOk(h.attempts[k], k, h.cards, cfg.maxAttempts);
    LeaveAttempt(Waiting(h.sys.rows), Waiting(n.sys.rows), h.attempts, h.timers, h.timers, h.cards, cfg.maxAttempts, k, InQueue(|h.sys.rows|));
    SetPhaseKeepsHistory(h.attempts, k, Returned, h.cards);
  }

  lemma RequeueKeeps(cfg: Config, h: Harness, m: Move)
    requires Good(cfg, h) && CanMove(h, m) && m.Requeue?
    ensures Good(cfg, MoveNext(cfg, h, m))
  {
    PushRowKeeps(h.sys, m.c, RowFor(cfg, h.attempts[m.k].phase.next));
    if !h.lost {
      RequeueTokens(cfg, h, MoveNext(cfg, h, m), m.k);
    }
  }

  lemma RequeueFailsTokens(cfg: Config, h: Harness, n: Harness, k: nat)
    requires TokensOk(cfg, h) && k < |h.attempts| && h.attempts[k].phase.Retrying?
    requires Waiting(n.sys.rows) == Waiting(h.sys.rows)
    requires n.timers == h.timers && n.nextID == h.nextID && n.attempts == h.attempts[k := h.attempts[k].(phase := Returned)]
    requires n.cards == Moved(h.cards, h.attempts[k].work.workID, Done(RequeueFailed))
    ensures TokensOk(cfg, n)
  {
    var q := Waiting(h.sys.rows);
    LeaveAttempt(q, q, h.attempts, h.timers, h.timers, h.cards, cfg.maxAttempts, k, Done(RequeueFailed));
    SetPhaseKeepsHistory(h.attempts, k, Returned, h.cards);
  }

  lemma RequeueFailsKeeps(cfg: Config, h: Harness, m: Move)
    requires Good(cfg, h) && CanMove(h, m) && m.RequeueFails?
    ensures Good(cfg, MoveNext(cfg, h, m))
  {
    PushErrorKeeps(h.sys, m.c);
    if !h.lost {
      RequeueFailsTokens(cfg, h, MoveNext(cfg, h, m), m.k);
    }
  }

  // ----- timers

  /** The job leaves timer `t`: to the queue, or for good. */
  lemma LeaveTimer(q: map<nat, BenchWork>, q': map<nat, BenchWork>, runs: seq<Attempt>, ts: seq<Timer>, cards: Cards, max: int, t: nat, to: Place)
    requires AllOk(q, runs, ts, cards, max) && t < |ts| && ts[t].live
    requires match to
             case InQueue(r) => r !in q && q' == q[r := ts[t].work]
             case Done(_) => q' == q
             case _ => false
    ensures AllOk(q', runs, ts[t := ts[t].(live := false)], Moved(cards, ts[t].work.workID, to), max)
  {
    var w := ts[t].work.workID;
    assert Upcoming(cards, max, ts[t].work, InTimer(t));
    var cards' := Moved(cards, w, to);
    OnlyHere(q, runs, ts, cards, max, w);
    QueueMove(q, q', cards, cards', max, w);
    AttemptsMove(runs, runs, cards, cards', max, w);
    TimersMove(ts, ts[t := ts[t].(live := false)], cards, cards', max, w);
  }

  lemma TimerTokens(cfg: Config, h: Harness, n: Harness, t: nat, to: Place)
    requires TokensOk(cfg, h) && t < |h.timers| && h.timers[t].live
    requires match to
             case InQueue(r) => r !in Waiting(h.sys.rows) && Waiting(n.sys.rows) == Waiting(h.sys.rows)[r := h.timers[t].work]
             case Done(_) => Waiting(n.sys.rows) == Waiting(h.sys.rows)
             case _ => false
    requires n.attempts == h.attempts && n.nextID == h.nextID && n.timers == h.timers[t := h.timers[t].(live := false)]
    requires n.cards == Moved(h.cards, h.timers[t].work.workID, to)
    ensures TokensOk(cfg, n)
  {
    LeaveTimer(Waiting(h.sys.rows), Waiting(n.sys.rows), h.attempts, h.timers, h.cards, cfg.maxAttempts, t, to);
  }

  lemma TimerKeeps(cfg: Config, h: Harness, m: Move)
    requires Good(cfg, h) && CanMove(h, m) && (m.Fire? || m.FireFails? || m.Drop?)
    ensures Good(cfg, MoveNext(cfg, h, m))
  {
    var n := MoveNext(cfg, h, m);
    if m.Fire? {
      PushRowKeeps(h.sys, m.c, RowFor(cfg, h.timers[m.m].work));
      if !h.lost { TimerTokens(cfg, h, n, m.m, InQueue(|h.sys.rows|)); }
    } else if m.FireFails? {
      PushErrorKeeps(h.sys, m.c);
      if !h.lost { TimerTokens(cfg, h, n, m.m, Done(RequeueFailed)); }
    } else {
      if !h.lost { TimerTokens(cfg, h, n, m.m, Done(DroppedAtShutdown)); }
    }
  }

  lemma MoveKeeps(cfg: Config, h: Harness, m: Move)
    requires Good(cfg, h) && CanMove(h, m)
    ensures Good(cfg, MoveNext(cfg, h, m))
  {
    match m
    case Store(_) => StoreKeeps(cfg, h, m);
    case Enqueue(_, _, _, _) => EnqueueKeeps(cfg, h, m);
    case EnqueueFailed(_) => EnqueueFailedKeeps(cfg, h, m);
    case PopReturn(_) => PopReturnKeeps(cfg, h, m);
    case PopLost(_) => PopLostKeeps(cfg, h, m);
    case Start(_) => StartKeeps(cfg, h, m);
    case Judge(_, _) => StartKeeps(cfg, h, m);
    case Decide(_) => DecideKeeps(cfg, h, m);
    case Requeue(_, _) => RequeueKeeps(cfg, h, m);
    case RequeueFails(_, _) => RequeueFailsKeeps(cfg, h, m);
    case Fire(_, _) => TimerKeeps(cfg, h, m);
    case FireFails(_, _) => TimerKeeps(cfg, h, m);
    case Drop(_) => TimerKeeps(cfg, h, m);
    case Stop =>
  }

  /** A run of the adapter: states, and the moves between them. */
  ghost predicate IsHistory(cfg: Config, hs: seq<Harness>, ms: seq<Move>) {
    && ValidConfig(cfg) && |hs| == |ms| + 1 && IsFresh(hs[0])
    && forall k: nat {:trigger ms[k]} | k < |ms| :: TryMove(cfg, hs[k], ms[k]) == Some(hs[k + 1])
  }

  lemma {:induction false} HistoryKeeps(cfg: Config, hs: seq<Harness>, ms: seq<Move>, k: nat)
    requires IsHistory(cfg, hs, ms) && k < |hs|
    ensures Good(cfg, hs[k])
  {
    if k > 0 {
      HistoryKeeps(cfg, hs, ms, k - 1);
      MoveKeeps(cfg, hs[k - 1], ms[k - 1]);
    }
  }

  /** No pop has handed out work although its commit failed. */
  ghost predicate LossFree(hs: seq<Harness>) {
    forall k: nat | k < |hs| :: !hs[k].lost
  }
}
