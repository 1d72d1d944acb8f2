/** What the token invariant means: one place per job, each attempt once, and work that runs out. */
module Conservation {
  import opened Jobs
  import opened Sessions
  import opened Permits
  import opened AtomicQueue
  import opened Retry
  import opened Tokens

  // ----- exactly one place

  /** Every place where job `w` can be found: unclaimed rows, attempts, timers, and its recorded outcome. */
  ghost function Places(h: Harness, w: nat): set<Place> {
    var q := Waiting(h.sys.rows);
    (set i | i in q && q[i].workID == w :: InQueue(i))
    + (set k: nat | k < |h.attempts| && Active(h.attempts[k]) && h.attempts[k].work.workID == w :: InAttempt(k))
    + (set m: nat | m < |h.timers| && h.timers[m].live && h.timers[m].work.workID == w :: InTimer(m))
    + (if w in h.cards && h.cards[w].place.Done? then {h.cards[w].place} else {})
  }

  /** In every reachable state in which no commit was lost, an accepted job is in exactly one place, and no other id is anywhere. */
  lemma OnePlace(cfg: Config, hs: seq<Harness>, ms: seq<Move>, k: nat, w: nat)
    requires IsHistory(cfg, hs, ms) && k < |hs| && !hs[k].lost
    ensures |Places(hs[k], w)| == if w in hs[k].cards then 1 else 0
  {
    HistoryKeeps(cfg, hs, ms, k);
    OnePlaceNow(cfg, hs[k], w);
  }

  lemma OnePlaceNow(cfg: Config, h: Harness, w: nat)
    requires TokensOk(cfg, h)
    ensures Places(h, w) == if w in h.cards then {h.cards[w].place} else {}
  {
    OnlyHere(Waiting(h.sys.rows), h.attempts, h.timers, h.cards, cfg.maxAttempts, w);
    if w in h.cards {
      assert h.cards[w].place in Places(h, w);
    }
  }

  /** A pop that returns its work although its commit failed leaves the job in two places at once. */
  lemma LostCommitDuplicates(cfg: Config, h: Harness, c: Id)
    requires Good(cfg, h) && !h.lost && CanMove(h, PopLost(c))
    ensures var n := MoveNext(cfg, h, PopLost(c)); var call := h.sys.clients[c].call;
            {InQueue(call.i), InAttempt(|h.attempts|)} <= Places(n, call.work.workID)
  {
    var n := MoveNext(cfg, h, PopLost(c));
    var call := h.sys.clients[c].call;
    assert InCall(h.sys.clients[c], c, h.sys.rows, h.sys.permits);
    OthersStutter(h.sys, Rollback(c));
    var q := Waiting(h.sys.rows);
    assert call.i in q && q[call.i] == call.work;
    assert n.attempts[|h.attempts|].work == call.work;
  }

  /** Each accepted job is in exactly one place, and no other id is anywhere. */
  ghost predicate Conserved(h: Harness) {
    forall w: nat :: |Places(h, w)| == if w in h.cards then 1 else 0
  }

  /** The first lost commit of a history. */
  lemma {:induction false} FirstLoss(cfg: Config, hs: seq<Harness>, ms: seq<Move>, k: nat) returns (j: nat)
    requires IsHistory(cfg, hs, ms) && k < |hs| && hs[k].lost
    ensures j < k && !hs[j].lost && ms[j].PopLost?
  {
    if !hs[k - 1].lost {
      j := k - 1;
      OnlyLossLoses(cfg, hs[j], ms[j]);
    } else {
      j := FirstLoss(cfg, hs, ms, k - 1);
    }
  }

  lemma OnlyLossLoses(cfg: Config, h: Harness, m: Move)
    requires CanMove(h, m) && !h.lost && MoveNext(cfg, h, m).lost
    ensures m.PopLost?
  {
  }

  /** A job that is in two places is not in one. */
  lemma TwoPlaces(h: Harness, w: nat, x: Place, y: Place)
    requires x != y && {x, y} <= Places(h, w)
    ensures |Places(h, w)| >= 2
  {
    var rest := Places(h, w) - {x, y};
    assert Places(h, w) == rest + {x, y};
    assert |{x, y}| == 2;
  }

  /** A history conserves jobs in all its states if and only if no pop's commit was lost. */
  lemma ConservedIff(cfg: Config, hs: seq<Harness>, ms: seq<Move>)
    requires IsHistory(cfg, hs, ms)
    ensures (forall k: nat | k < |hs| :: Conserved(hs[k])) <==> LossFree(hs)
  {
    if LossFree(hs) {
      forall k: nat | k < |hs| ensures Conserved(hs[k]) { ConservedWithoutLoss(cfg, hs, ms, k); }
    } else {
      var k: nat :| k < |hs| && hs[k].lost;
      var j := FirstLoss(cfg, hs, ms, k);
      HistoryKeeps(cfg, hs, ms, j);
      LossBreaks(cfg, hs[j], ms[j].c);
    }
  }

  lemma ConservedWithoutLoss(cfg: Config, hs: seq<Harness>, ms: seq<Move>, k: nat)
    requires IsHistory(cfg, hs, ms) && k < |hs| && !hs[k].lost
    ensures Conserved(hs[k])
  {
    forall w: nat ensures |Places(hs[k], w)| == if w in hs[k].cards then 1 else 0 {
      OnePlace(cfg, hs, ms, k, w);
    }
  }

  lemma LossBreaks(cfg: Config, h: Harness, c: Id)
    requires Good(cfg, h) && !h.lost && CanMove(h, PopLost(c))
    ensures !Conserved(MoveNext(cfg, h, PopLost(c)))
  {
    LostCommitDuplicates(cfg, h, c);
    var call := h.sys.clients[c].call;
    TwoPlaces(MoveNext(cfg, h, PopLost(c)), call.work.workID, InQueue(call.i), InAttempt(|h.attempts|));
  }

  lemma {:induction false} SameSize<A, B>(f: map<A, B>)
    requires forall x, y | x in f && y in f && f[x] == f[y] :: x == y
    ensures |f.Keys| == |f.Values|
  {
    if f.Keys != {} {
      var x :| x in f.Keys;
      var g := f - {x};
      SameSize(g);
      assert g.Keys == f.Keys - {x};
      forall v | v in f.Values - {f[x]} ensures v in g.Values {
        var y :| y in f && f[y] == v;
        assert g[y] == v;
      }
      assert g.Values == f.Values - {f[x]};
    }
  }

  function InQueueJobs(cards: Cards): set<nat> { set w | w in cards && cards[w].place.InQueue? }
  function InAttemptJobs(cards: Cards): set<nat> { set w | w in cards && cards[w].place.InAttempt? }
  function InTimerJobs(cards: Cards): set<nat> { set w | w in cards && cards[w].place.InTimer? }
  function DoneJobs(cards: Cards): set<nat> { set w | w in cards && cards[w].place.Done? }

  function ActiveAttempts(runs: seq<Attempt>): set<nat> { set k: nat | k < |runs| && Active(runs[k]) }
  function LiveTimers(ts: seq<Timer>): set<nat> { set m: nat | m < |ts| && ts[m].live }

  lemma QueueCount(q: map<nat, BenchWork>, cards: Cards, max: int)
    requires QueueOk(q, cards, max)
    ensures |q| == |InQueueJobs(cards)|
  {
    var f := map i | i in q :: q[i].workID;
    forall i, j | i in f && j in f && f[i] == f[j] ensures i == j {
      assert Upcoming(cards, max, q[i], InQueue(i)) && Upcoming(cards, max, q[j], InQueue(j));
    }
    SameSize(f);
    assert f.Keys == q.Keys;
    forall w | w in InQueueJobs(cards) ensures w in f.Values {
      assert f[cards[w].place.row] == w;
    }
    assert f.Values == InQueueJobs(cards);
  }

  lemma AttemptCount(runs: seq<Attempt>, cards: Cards, max: int)
    requires AttemptsOk(runs, cards, max)
    ensures |ActiveAttempts(runs)| == |InAttemptJobs(cards)|
  {
    var f := map k | k in ActiveAttempts(runs) :: runs[k].work.workID;
    forall i, j | i in f && j in f && f[i] == f[j] ensures i == j {
      assert AttemptOk(runs[i], i, cards, max) && AttemptOk(runs[j], j, cards, max);
    }
    SameSize(f);
    assert f.Keys == ActiveAttempts(runs);
    forall w | w in InAttemptJobs(cards) ensures w in f.Values {
      assert f[cards[w].place.k] == w;
    }
    forall k | k in f ensures f[k] in InAttemptJobs(cards) {
      assert AttemptOk(runs[k], k, cards, max);
    }
    assert f.Values == InAttemptJobs(cards);
  }

  lemma TimerCount(ts: seq<Timer>, cards: Cards, max: int)
    requires TimersOk(ts, cards, max)
    ensures |LiveTimers(ts)| == |InTimerJobs(cards)|
  {
    var f := map m | m in LiveTimers(ts) :: ts[m].work.workID;
    forall i, j | i in f && j in f && f[i] == f[j] ensures i == j {
      assert Upcoming(cards, max, ts[i].work, InTimer(i)) && Upcoming(cards, max, ts[j].work, InTimer(j));
    }
    SameSize(f);
    assert f.Keys == LiveTimers(ts);
    forall w | w in InTimerJobs(cards) ensures w in f.Values {
      assert f[cards[w].place.m] == w;
    }
    assert f.Values == InTimerJobs(cards);
  }

  lemma SplitByPlace(cards: Cards)
    ensures |cards| == |InQueueJobs(cards)| + |InAttemptJobs(cards)| + |InTimerJobs(cards)| + |DoneJobs(cards)|
  {
    assert cards.Keys == InQueueJobs(cards) + InAttemptJobs(cards) + InTimerJobs(cards) + DoneJobs(cards);
  }

  /** Live plus final equals accepted: unclaimed rows, attempts in progress, live timers and finished jobs add up to the jobs accepted. */
  lemma LivePlusFinal(cfg: Config, hs: seq<Harness>, ms: seq<Move>, k: nat)
    requires IsHistory(cfg, hs, ms) && k < |hs| && !hs[k].lost
    ensures var h := hs[k];
            |Waiting(h.sys.rows)| + |ActiveAttempts(h.attempts)| + |LiveTimers(h.timers)| + |DoneJobs(h.cards)| == |h.cards|
  {
    var h := hs[k];
    HistoryKeeps(cfg, hs, ms, k);
    QueueCount(Waiting(h.sys.rows), h.cards, cfg.maxAttempts);
    AttemptCount(h.attempts, h.cards, cfg.maxAttempts);
    TimerCount(h.timers, h.cards, cfg.maxAttempts);
    SplitByPlace(h.cards);
  }

  // ----- each attempt at most once, numbered from 1

  lemma {:induction false} PrefixHistory(runs: seq<Attempt>, k: nat, w: nat)
    requires k <= |runs|
    ensures AttemptsOf(runs[..k], w) <= AttemptsOf(runs, w)
  {
    if k == |runs| {
      assert runs[..k] == runs;
    } else {
      PrefixHistory(runs[..|runs| - 1], k, w);
      assert runs[..|runs| - 1][..k] == runs[..k];
    }
  }

  lemma {:induction false} NumberedBy(runs: seq<Attempt>, n: nat, k: nat)
    requires k < |runs| && AttemptsOf(runs, runs[k].work.workID) == Upto(n)
    ensures runs[k].work.attempt == |AttemptsOf(runs[..k], runs[k].work.workID)| + 1 <= n
  {
    var w := runs[k].work.workID;
    PrefixHistory(runs, k + 1, w);
    assert runs[..k + 1][..k] == runs[..k];
    var before := AttemptsOf(runs[..k], w);
    assert AttemptsOf(runs[..k + 1], w) == before + [runs[k].work.attempt];
    assert AttemptsOf(runs[..k + 1], w)[|before|] == Upto(n)[|before|];
  }

  /** The j-th execution of a job carries attempt number j, and j never exceeds MaxAttempts. */
  lemma AttemptsConsecutive(cfg: Config, hs: seq<Harness>, ms: seq<Move>, n: nat, k: nat)
    requires IsHistory(cfg, hs, ms) && n < |hs| && !hs[n].lost && k < |hs[n].attempts|
    ensures var runs := hs[n].attempts; var w := runs[k].work.workID;
            && w in hs[n].cards
            && runs[k].work.attempt == |AttemptsOf(runs[..k], w)| + 1 <= cfg.maxAttempts
  {
    HistoryKeeps(cfg, hs, ms, n);
    var h := hs[n];
    assert AttemptOk(h.attempts[k], k, h.cards, cfg.maxAttempts);
    NumberedBy(h.attempts, h.cards[h.attempts[k].work.workID].begun, k);
  }

  /** Every (work id, attempt) pair runs at most once, even while the predecessor's row is still claimed. */
  lemma AttemptRunsOnce(cfg: Config, hs: seq<Harness>, ms: seq<Move>, n: nat, k: nat, l: nat)
    requires IsHistory(cfg, hs, ms) && n < |hs| && !hs[n].lost && k < l < |hs[n].attempts|
    requires hs[n].attempts[k].work.workID == hs[n].attempts[l].work.workID
    ensures hs[n].attempts[k].work.attempt < hs[n].attempts[l].work.attempt
  {
    AttemptsConsecutive(cfg, hs, ms, n, k);
    AttemptsConsecutive(cfg, hs, ms, n, l);
    var runs := hs[n].attempts;
    var w := runs[k].work.workID;
    PrefixHistory(runs[..l], k + 1, w);
    assert runs[..l][..k + 1] == runs[..k + 1];
    assert runs[..k + 1][..k] == runs[..k];
    assert AttemptsOf(runs[..k + 1], w) == AttemptsOf(runs[..k], w) + [runs[k].work.attempt];
  }
}
