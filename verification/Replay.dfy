/**
 Reproducibility of the generated workload: in lossless mode with whole-number multipliers the
 k-th request sent depends only on the spec and the seed, up to renaming tenants.
 */
module Replay {
  import opened Options
  import opened Jobs
  import opened Channel
  import opened Workload

  /** A multiplier for which a tick draws nothing to decide its count. */
  predicate Whole(m: real) { m - Trunc(m) as real <= 0.0 }

  ghost predicate WholeAt(spec: Spec, ticks: seq<int>) {
    forall i: nat | i < |ticks| :: Whole(Multiplier(spec, ticks[i]))
  }

  function CountAt(spec: Spec, elapsed: int): nat {
    var c := Trunc(Multiplier(spec, elapsed));
    if c > 0 then c else 0
  }

  /** How many requests the ticks ask for. */
  function Scheduled(spec: Spec, ticks: seq<int>): nat {
    if ticks == [] then 0 else Scheduled(spec, ticks[..|ticks| - 1]) + CountAt(spec, ticks[|ticks| - 1])
  }

  lemma {:induction false} DrawsSplit(spec: Spec, g: Rng, s: nat, a: nat, b: nat)
    ensures var first := Draws(spec, g, s, a); var second := Draws(spec, g, first.1, b);
            Draws(spec, g, s, a + b) == (first.0 + second.0, second.1)
  {
    var first := Draws(spec, g, s, a);
    if b == 0 {
      assert first.0 + [] == first.0;
    } else {
      DrawsSplit(spec, g, s, a, b - 1);
      var some := Draws(spec, g, first.1, b - 1);
      var d := NextDraw(spec, g, some.1).0;
      assert (first.0 + some.0) + [d] == first.0 + (some.0 + [d]);
    }
  }

  lemma {:induction false} RequestsSplit(tenants: seq<string>, spec: Spec, g: Rng, s: nat, a: nat, b: nat)
    ensures var mid := Draws(spec, g, s, a).1;
            && Requests(tenants, spec, g, s, a + b) == Requests(tenants, spec, g, s, a) + Requests(tenants, spec, g, mid, b)
            && Draws(spec, g, s, a + b).1 == Draws(spec, g, mid, b).1
  {
    DrawsSplit(spec, g, s, a, b);
  }

  lemma WholeTick(tenants: seq<string>, spec: Spec, g: Rng, s: nat, elapsed: int)
    requires Whole(Multiplier(spec, elapsed))
    ensures var n := CountAt(spec, elapsed);
            TickRequests(tenants, spec, g, s, elapsed) == (Requests(tenants, spec, g, s, n), Draws(spec, g, s, n).1)
  {
  }

  function Segment(tenants: seq<string>, spec: Spec, g: Rng, s: nat, n: nat): (seq<Request>, nat) {
    (Requests(tenants, spec, g, s, n), Draws(spec, g, s, n).1)
  }

  lemma {:induction false} WholeChunks(tenants: seq<string>, spec: Spec, g: Rng, s: nat, live: seq<int>,
                                       chunk: (nat, int) -> (seq<Request>, nat))
    requires forall st: nat, i: nat | i < |live| :: chunk(st, live[i]) == Segment(tenants, spec, g, st, CountAt(spec, live[i]))
    ensures Chunks(chunk, s, live) == Segment(tenants, spec, g, s, Scheduled(spec, live))
  {
    if live == [] {
      assert Requests(tenants, spec, g, s, 0) == [];
    } else {
      var rest, last := live[..|live| - 1], live[|live| - 1];
      WholeChunks(tenants, spec, g, s, rest, chunk);
      var n, c := Scheduled(spec, rest), CountAt(spec, last);
      RequestsSplit(tenants, spec, g, s, n, c);
      assert chunk(Draws(spec, g, s, n).1, last) == Segment(tenants, spec, g, Draws(spec, g, s, n).1, c);
    }
  }

  lemma WholeChunk(tenants: seq<string>, spec: Spec, g: Rng, st: nat, elapsed: int)
    requires Whole(Multiplier(spec, elapsed))
    ensures TickChunk(tenants, spec, g)(st, elapsed) == Segment(tenants, spec, g, st, CountAt(spec, elapsed))
  {
    WholeTick(tenants, spec, g, st, elapsed);
  }

  /** With whole multipliers, a run generates the first so many requests of the seed's own sequence. */
  lemma WholeStream(tenants: seq<string>, spec: Spec, g: Rng, s: nat, ticks: seq<int>)
    requires WholeAt(spec, Live(spec, ticks))
    ensures Stream(tenants, spec, g, s, ticks).0 == Requests(tenants, spec, g, s, Scheduled(spec, Live(spec, ticks)))
  {
    var live, chunk := Live(spec, ticks), TickChunk(tenants, spec, g);
    forall st: nat, i: nat | i < |live| ensures chunk(st, live[i]) == Segment(tenants, spec, g, st, CountAt(spec, live[i])) {
      WholeChunk(tenants, spec, g, st, live[i]);
    }
    WholeChunks(tenants, spec, g, s, live, chunk);
  }

  /** What a lossless run sends. */
  function Sends(tenants: seq<string>, spec: Spec, g: Rng, s: nat, ticks: seq<int>, room: seq<bool>): seq<Request> {
    Offered(Flow([], 0, true), Stream(tenants, spec, g, s, ticks).0, 0, false, room).out
  }

  /** The k-th request of the seed's own sequence. */
  function Nth(spec: Spec, g: Rng, s: nat, k: nat): Draw { NextDraw(spec, g, Draws(spec, g, s, k).1).0 }

  lemma {:induction false} RequestsAt(tenants: seq<string>, spec: Spec, g: Rng, s: nat, n: nat, k: nat)
    requires k < n
    ensures |Requests(tenants, spec, g, s, n)| == n && Requests(tenants, spec, g, s, n)[k] == Named(tenants, Nth(spec, g, s, k))
  {
    RequestsPrefix(tenants, spec, g, s, k + 1, n);
    RequestsStep(tenants, spec, g, s, k);
    assert Requests(tenants, spec, g, s, n)[..k + 1][k] == Requests(tenants, spec, g, s, k + 1)[k];
  }

  /** The k-th request sent is the k-th of the seed's sequence, whatever the ticks, the blocking and the tenant names. */
  lemma {:induction false} SentIsDetermined(tenants: seq<string>, spec: Spec, g: Rng, s: nat, ticks: seq<int>, room: seq<bool>, k: nat)
    requires WholeAt(spec, Live(spec, ticks)) && k < |Sends(tenants, spec, g, s, ticks, room)|
    ensures Sends(tenants, spec, g, s, ticks, room)[k] == Named(tenants, Nth(spec, g, s, k))
  {
    WholeStream(tenants, spec, g, s, ticks);
    LosslessIsPrefix(Stream(tenants, spec, g, s, ticks).0, room);
    RequestsAt(tenants, spec, g, s, |Stream(tenants, spec, g, s, ticks).0|, k);
  }

  /** If the channel never stays full, everything scheduled before the duration is sent. */
  lemma {:induction false} AllScheduledSent(tenants: seq<string>, spec: Spec, g: Rng, s: nat, ticks: seq<int>, room: seq<bool>)
    requires WholeAt(spec, Live(spec, ticks))
    ensures var n := Scheduled(spec, Live(spec, ticks));
            |Sends(tenants, spec, g, s, ticks, room)| == n <==> RoomUpTo(room, n)
  {
    WholeStream(tenants, spec, g, s, ticks);
    LosslessIsPrefix(Stream(tenants, spec, g, s, ticks).0, room);
  }

  // ----- Burst

  function Burst(start: int, window: int, multiplier: real): int -> real {
    (t: int) => if t >= start && t < start + window then multiplier else 1.0
  }

  /** A burst with a whole multiplier keeps the workload reproducible at every tick. */
  lemma BurstIsWhole(spec: Spec, start: int, window: int, m: nat, ticks: seq<int>)
    requires spec.rateCurve == Some(Burst(start, window, m as real))
    ensures WholeAt(spec, ticks)
  {
    assert Trunc(1.0) == 1;
    assert Trunc(m as real) == m;
    forall i: nat | i < |ticks| ensures Whole(Multiplier(spec, ticks[i])) {
      assert Multiplier(spec, ticks[i]) == m as real || Multiplier(spec, ticks[i]) == 1.0;
    }
  }

  predicate InWindow(start: int, window: int, t: int) { start <= t < start + window }

  function Inside(start: int, window: int, ticks: seq<int>): set<nat> {
    set i: nat | i < |ticks| && InWindow(start, window, ticks[i])
  }

  function Outside(start: int, window: int, ticks: seq<int>): set<nat> {
    set i: nat | i < |ticks| && !InWindow(start, window, ticks[i])
  }

  lemma {:induction false} OneMoreTick(start: int, window: int, ticks: seq<int>)
    requires ticks != []
    ensures var n := |ticks| - 1; var d := if InWindow(start, window, ticks[n]) then 1 else 0;
            && |Inside(start, window, ticks)| == |Inside(start, window, ticks[..n])| + d
            && |Outside(start, window, ticks)| == |Outside(start, window, ticks[..n])| + 1 - d
  {
    var n := |ticks| - 1;
    var inside, outside := Inside(start, window, ticks[..n]), Outside(start, window, ticks[..n]);
    if InWindow(start, window, ticks[n]) {
      assert Inside(start, window, ticks) == inside + {n} && Outside(start, window, ticks) == outside;
    } else {
      assert Inside(start, window, ticks) == inside && Outside(start, window, ticks) == outside + {n};
    }
  }

  lemma BurstCount(spec: Spec, start: int, window: int, m: nat, t: int)
    requires spec.rateCurve == Some(Burst(start, window, m as real))
    ensures CountAt(spec, t) == if InWindow(start, window, t) then m else 1
  {
    assert Trunc(1.0) == 1 && Trunc(m as real) == m;
  }

  /** Under a whole burst each tick inside the window asks for m requests and each tick outside it for one. */
  lemma {:induction false} BurstScheduled(spec: Spec, start: int, window: int, m: nat, ticks: seq<int>)
    requires spec.rateCurve == Some(Burst(start, window, m as real))
    ensures Scheduled(spec, ticks) == m * |Inside(start, window, ticks)| + |Outside(start, window, ticks)|
  {
    if ticks != [] {
      var n := |ticks| - 1;
      BurstScheduled(spec, start, window, m, ticks[..n]);
      BurstCount(spec, start, window, m, ticks[n]);
      OneMoreTick(start, window, ticks);
      assert m * (|Inside(start, window, ticks[..n])| + 1) == m * |Inside(start, window, ticks[..n])| + m;
    }
  }

  // ----- a fractional multiplier draws once before the requests of its tick

  const FRACTIONAL := Spec(100, 0, 0.0, 1, Some((t: int) => if t < 10 then 1.5 else 1.0), [], map[RATE_LIMIT := 0.5])

  const COIN := Rng((n: nat) => (if n == 0 then 0.9 else 0.1, n + 1), (n: nat, m: nat) => (0, n + 1))

  /** The same spec and seed, with the first tick early or late: the first requests sent differ. */
  lemma FractionShiftsTheDraws()
    ensures ValidRng(COIN)
    ensures var early, late := Sends([], FRACTIONAL, COIN, 0, [5], []), Sends([], FRACTIONAL, COIN, 0, [20], []);
            |early| == |late| == 1 && early[0].payload.failWith == RATE_LIMIT && late[0].payload.failWith == ""
  {
    OneTick([5], 1);
    OneTick([20], 0);
  }

  lemma OneTick(ticks: seq<int>, s1: nat)
    requires |ticks| == 1 && ticks[0] < 100 && (if s1 == 1 then ticks[0] < 10 else ticks[0] >= 10 && s1 == 0)
    ensures Sends([], FRACTIONAL, COIN, 0, ticks, []) == [Named([], NextDraw(FRACTIONAL, COIN, s1).0)]
    ensures NextDraw(FRACTIONAL, COIN, s1).0.payload.failWith == (if s1 == 1 then RATE_LIMIT else "")
  {
    TossAt(s1);
    assert Live(FRACTIONAL, ticks) == ticks by { assert ticks[1..] == []; }
    assert Trunc(1.5) == 1 && Trunc(1.0) == 1;
    assert TickCount(COIN, Multiplier(FRACTIONAL, ticks[0]), 0) == (1, s1);
    assert Draws(FRACTIONAL, COIN, s1, 0).0 == [];
    assert Requests([], FRACTIONAL, COIN, s1, 1) == [Named([], NextDraw(FRACTIONAL, COIN, s1).0)];
    var chunk := TickChunk([], FRACTIONAL, COIN);
    assert Chunks(chunk, 0, ticks).0 == [Named([], NextDraw(FRACTIONAL, COIN, s1).0)] by {
      assert ticks[..0] == [] && Chunks(chunk, 0, []) == ([], 0);
    }
    LosslessIsPrefix(Stream([], FRACTIONAL, COIN, 0, ticks).0, []);
  }

  lemma TossAt(s: nat)
    ensures NextDraw(FRACTIONAL, COIN, s).0.payload.failWith == (if s == 0 then "" else RATE_LIMIT)
  {
    assert |TRANSIENT| == |PERMANENT| == 9 && |RATE_LIMIT| == 10;
    assert Probability(FRACTIONAL, TRANSIENT) == 0.0 && Probability(FRACTIONAL, PERMANENT) == 0.0;
    NothingInjected(s + 1, [TRANSIENT, PERMANENT]);
    assert ERROR_CLASSES[1..] == [TRANSIENT, PERMANENT];
  }

  lemma {:induction false} NothingInjected(s: nat, classes: seq<string>)
    requires forall i: nat | i < |classes| :: Probability(FRACTIONAL, classes[i]) <= 0.0
    ensures Inject(FRACTIONAL, COIN, s, classes) == ("", s)
  {
    if classes != [] { NothingInjected(s, classes[1..]); }
  }
}
