/**
 Exactly when the workload can be replayed.  For a spec that injects errors at random and has a
 time with a whole, positive multiplier, the k-th request sent is the same for all timings and
 random sources if and only if no multiplier before the duration has a fraction.
 */
module ReplayExact {
  import opened Options
  import opened Jobs
  import opened Channel
  import opened Workload
  import opened WorkloadFacts
  import opened Replay

  /** A source of zeros, except for the value v at state `pos`. */
  function Flat(pos: nat, v: real): Rng {
    Rng((n: nat) => (if n == pos then v else 0.0, n + 1), (n: nat, m: nat) => (0, n + 1))
  }

  lemma FlatValid(pos: nat, v: real)
    requires 0.0 <= v < 1.0
    ensures ValidRng(Flat(pos, v))
  {
  }

  // ----- how many numbers a request draws before it decides on an error

  function KindStates(mix: seq<JobClass>): nat {
    if mix == [] || Cumulative(mix, |mix|) <= 0.0 then 0 else 1
  }

  /** The class a source of zeros picks. */
  function ZeroClass(mix: seq<JobClass>): JobClass {
    if mix == [] then NO_CLASS else if Cumulative(mix, |mix|) <= 0.0 then mix[0] else mix[FirstAbove(mix, 0.0, 0)]
  }

  function PayloadStates(c: JobClass): nat {
    (if c.workMax > c.workMin then 1 else 0) + (if c.bytesMax > c.bytesMin then 1 else 0) + Size(c.bytesMin)
  }

  function Before(spec: Spec): nat {
    TenantStates(spec) + 2 * KindStates(spec.jobMix) + PayloadStates(ZeroClass(spec.jobMix))
  }

  lemma TenantDraws(spec: Spec, pos: nat, v: real, s: nat)
    requires s + TenantStates(spec) <= pos
    ensures PickTenant(spec, Flat(pos, v), s).1 == s + TenantStates(spec)
  {
  }

  lemma KindDraws(mix: seq<JobClass>, pos: nat, v: real, s: nat)
    requires s + KindStates(mix) <= pos
    ensures PickClass(mix, Flat(pos, v), s) == (ZeroClass(mix), s + KindStates(mix))
  {
    if mix != [] && Cumulative(mix, |mix|) > 0.0 { assert Scaled(0.0, Cumulative(mix, |mix|)) == 0.0; }
  }

  lemma {:induction false} ByteDraws(pos: nat, v: real, s: nat, n: nat)
    ensures DrawBytes(Flat(pos, v), s, n).1 == s + n
  {
    if n > 0 { ByteDraws(pos, v, s, n - 1); }
  }

  lemma PayloadDraws(spec: Spec, c: JobClass, pos: nat, v: real, s: nat)
    ensures BuildPayload(spec, c, Flat(pos, v), s).0.failWith == Inject(spec, Flat(pos, v), s + PayloadStates(c), ERROR_CLASSES).0
  {
    var g := Flat(pos, v);
    var ms := Between(c.workMin, c.workMax, g, s);
    var len := Between(c.bytesMin, c.bytesMax, g, ms.1);
    assert len.0 == c.bytesMin;
    ByteDraws(pos, v, len.1, Size(c.bytesMin));
  }

  /** The error of a request drawn from state s is decided at state s + Before(spec). */
  lemma RequestDraws(spec: Spec, pos: nat, v: real, s: nat)
    requires s + Before(spec) <= pos
    ensures NextDraw(spec, Flat(pos, v), s).0.payload.failWith == Inject(spec, Flat(pos, v), s + Before(spec), ERROR_CLASSES).0
  {
    var mix, k := spec.jobMix, KindStates(spec.jobMix);
    var s1 := s + TenantStates(spec);
    TenantDraws(spec, pos, v, s);
    KindDraws(mix, pos, v, s1);
    KindDraws(mix, pos, v, s1 + k);
    PayloadDraws(spec, ZeroClass(mix), pos, v, s1 + 2 * k);
  }

  // ----- random errors

  /** The first error class that is tried at all. */
  function FirstTried(spec: Spec): Option<string> {
    if Probability(spec, RATE_LIMIT) > 0.0 then Some(RATE_LIMIT)
    else if Probability(spec, TRANSIENT) > 0.0 then Some(TRANSIENT)
    else if Probability(spec, PERMANENT) > 0.0 then Some(PERMANENT)
    else None
  }

  /** It is tried with a probability strictly between 0 and 1. */
  predicate InjectsAtRandom(spec: Spec) {
    FirstTried(spec).Some? && Probability(spec, FirstTried(spec).value) < 1.0
  }

  lemma ClassesDiffer()
    ensures RATE_LIMIT != TRANSIENT && TRANSIENT != PERMANENT && PERMANENT != RATE_LIMIT
    ensures RATE_LIMIT != "" && TRANSIENT != "" && PERMANENT != ""
  {
    assert |RATE_LIMIT| == 10 && |TRANSIENT| == 9 && |PERMANENT| == 9;
    assert TRANSIENT[0] == 't' && PERMANENT[0] == 'p';
  }

  /** The first class tried is injected exactly if the draw is below its probability. */
  lemma {:induction false} FirstDecides(spec: Spec, g: Rng, s: nat)
    requires FirstTried(spec).Some?
    ensures Inject(spec, g, s, ERROR_CLASSES).0 == FirstTried(spec).value <==> g.unit(s).0 < Probability(spec, FirstTried(spec).value)
  {
    ClassesDiffer();
    var two, one := [TRANSIENT, PERMANENT], [PERMANENT];
    assert ERROR_CLASSES[1..] == two && two[1..] == one && one[1..] == [];
    var t := g.unit(s).1;
    InjectedHasProbability(spec, g, t, two);
    InjectedHasProbability(spec, g, t, one);
    assert Inject(spec, g, t, []) == ("", t);
    assert Probability(spec, RATE_LIMIT) <= 0.0 ==> Inject(spec, g, s, ERROR_CLASSES) == Inject(spec, g, s, two);
    assert Probability(spec, TRANSIENT) <= 0.0 ==> Inject(spec, g, s, two) == Inject(spec, g, s, one);
  }

  /** A source that is zero but for the draw that decides on the first error of a request drawn from state 1. */
  function Decisive(spec: Spec): Rng
    requires FirstTried(spec).Some?
  {
    Flat(Before(spec) + 1, Probability(spec, FirstTried(spec).value))
  }

  lemma DecisiveValid(spec: Spec)
    requires InjectsAtRandom(spec)
    ensures ValidRng(Decisive(spec)) && Decisive(spec).unit(0) == (0.0, 1)
  {
    var v := Probability(spec, FirstTried(spec).value);
    FlatValid(Before(spec) + 1, v);
    FlatAt(Before(spec) + 1, v, 0);
  }

  /** Drawn from state 0 a request has the first error, drawn from state 1 it has not. */
  lemma StartMatters(spec: Spec, s: nat)
    requires InjectsAtRandom(spec) && s <= 1
    ensures HasFirstError(spec, Decisive(spec), s) <==> s == 0
  {
    ErrorFrom(spec, Before(spec) + 1, Probability(spec, FirstTried(spec).value), s);
  }

  /** The request drawn from state s fails with the first error class that is tried. */
  predicate HasFirstError(spec: Spec, g: Rng, s: nat)
    requires FirstTried(spec).Some?
  {
    NextDraw(spec, g, s).0.payload.failWith == FirstTried(spec).value
  }

  lemma FlatAt(pos: nat, v: real, n: nat)
    ensures Flat(pos, v).unit(n) == (if n == pos then v else 0.0, n + 1)
  {
  }

  /** Drawn from state s, the request has the first error exactly if the decisive draw is not the one value v. */
  lemma ErrorFrom(spec: Spec, pos: nat, v: real, s: nat)
    requires InjectsAtRandom(spec) && v == Probability(spec, FirstTried(spec).value) && s + Before(spec) <= pos
    ensures HasFirstError(spec, Flat(pos, v), s) <==> s + Before(spec) != pos
  {
    RequestDraws(spec, pos, v, s);
    FirstDecides(spec, Flat(pos, v), s + Before(spec));
    FlatAt(pos, v, s + Before(spec));
  }

  // ----- runs of one tick

  lemma {:induction false} OneTickSends(tenants: seq<string>, spec: Spec, g: Rng, s: nat, t: int)
    requires t < spec.duration && TickCount(g, Multiplier(spec, t), s).0 > 0
    ensures var sent := Sends(tenants, spec, g, s, [t], []);
            |sent| > 0 && sent[0] == Named(tenants, NextDraw(spec, g, TickCount(g, Multiplier(spec, t), s).1).0)
  {
    var n := TickCount(g, Multiplier(spec, t), s);
    assert Live(spec, [t]) == [t] by { assert [t][1..] == []; }
    OneChunk(TickChunk(tenants, spec, g), s, t);
    var stream := Stream(tenants, spec, g, s, [t]).0;
    assert stream == Requests(tenants, spec, g, n.1, n.0);
    LosslessIsPrefix(stream, []);
    RequestsAt(tenants, spec, g, n.1, n.0, 0);
  }

  lemma OneChunk<R>(chunk: (nat, int) -> (seq<R>, nat), s: nat, t: int)
    ensures Chunks(chunk, s, [t]).0 == chunk(s, t).0
  {
    assert [t][..0] == [] && Chunks(chunk, s, []) == ([], s);
    assert [] + chunk(s, t).0 == chunk(s, t).0;
  }

  // ----- the exact condition

  /** Times since the start: from 0 on, and never going back. */
  ghost predicate IsClock(ticks: seq<int>) {
    && (forall i: nat | i < |ticks| :: 0 <= ticks[i])
    && (forall i: nat, j: nat | i < j < |ticks| :: ticks[i] <= ticks[j])
  }

  /** Any two lossless runs from the same seed agree on every request that both send. */
  ghost predicate Replayable(tenants: seq<string>, spec: Spec) {
    forall g: Rng, s: nat, ticks1: seq<int>, ticks2: seq<int>, room1: seq<bool>, room2: seq<bool>
      | ValidRng(g) && IsClock(ticks1) && IsClock(ticks2) ::
      Agree(Sends(tenants, spec, g, s, ticks1, room1), Sends(tenants, spec, g, s, ticks2, room2))
  }

  ghost predicate Agree(a: seq<Request>, b: seq<Request>) {
    forall k: nat | k < |a| && k < |b| :: a[k] == b[k]
  }

  lemma {:induction false} LiveBefore(spec: Spec, ticks: seq<int>)
    ensures forall i: nat | i < |Live(spec, ticks)| :: Live(spec, ticks)[i] < spec.duration && Live(spec, ticks)[i] in ticks
  {
    if ticks != [] { LiveBefore(spec, ticks[1..]); }
  }

  lemma WholeReplays(tenants: seq<string>, spec: Spec)
    requires forall t: int | 0 <= t < spec.duration :: Whole(Multiplier(spec, t))
    ensures Replayable(tenants, spec)
  {
    forall g: Rng, s: nat, ticks1: seq<int>, ticks2: seq<int>, room1: seq<bool>, room2: seq<bool>
      | ValidRng(g) && IsClock(ticks1) && IsClock(ticks2)
      ensures Agree(Sends(tenants, spec, g, s, ticks1, room1), Sends(tenants, spec, g, s, ticks2, room2))
    {
      LiveBefore(spec, ticks1);
      LiveBefore(spec, ticks2);
      forall k: nat | k < |Sends(tenants, spec, g, s, ticks1, room1)| && k < |Sends(tenants, spec, g, s, ticks2, room2)|
        ensures Sends(tenants, spec, g, s, ticks1, room1)[k] == Sends(tenants, spec, g, s, ticks2, room2)[k]
      {
        SentIsDetermined(tenants, spec, g, s, ticks1, room1, k);
        SentIsDetermined(tenants, spec, g, s, ticks2, room2, k);
      }
    }
  }

  lemma FractionBreaks(tenants: seq<string>, spec: Spec, t1: int, t2: int)
    requires InjectsAtRandom(spec) && 0 <= t1 < spec.duration && 0 <= t2 < spec.duration
    requires !Whole(Multiplier(spec, t1)) && Whole(Multiplier(spec, t2)) && CountAt(spec, t2) > 0
    ensures !Replayable(tenants, spec)
  {
    var g := Decisive(spec);
    DecisiveValid(spec);
    StartMatters(spec, 0);
    StartMatters(spec, 1);
    assert TickCount(g, Multiplier(spec, t1), 0).1 == 1 && TickCount(g, Multiplier(spec, t1), 0).0 > 0;
    assert TickCount(g, Multiplier(spec, t2), 0) == (CountAt(spec, t2), 0);
    OneTickSends(tenants, spec, g, 0, t1);
    OneTickSends(tenants, spec, g, 0, t2);
    ErrorsDiffer(tenants, spec, g);
    assert IsClock([t1]) && IsClock([t2]);
    assert !Agree(Sends(tenants, spec, g, 0, [t1], []), Sends(tenants, spec, g, 0, [t2], []));
  }

  lemma ErrorsDiffer(tenants: seq<string>, spec: Spec, g: Rng)
    requires FirstTried(spec).Some? && HasFirstError(spec, g, 0) && !HasFirstError(spec, g, 1)
    ensures Named(tenants, NextDraw(spec, g, 0).0) != Named(tenants, NextDraw(spec, g, 1).0)
  {
  }

  /** Some tick before the duration asks for requests without drawing. */
  ghost predicate HasWholeTick(spec: Spec) {
    exists t: int :: 0 <= t < spec.duration && Whole(Multiplier(spec, t)) && CountAt(spec, t) > 0
  }

  lemma ReplayIff(tenants: seq<string>, spec: Spec)
    requires InjectsAtRandom(spec) && HasWholeTick(spec)
    ensures Replayable(tenants, spec) <==> forall t: int | 0 <= t < spec.duration :: Whole(Multiplier(spec, t))
  {
    if forall t: int | 0 <= t < spec.duration :: Whole(Multiplier(spec, t)) {
      WholeReplays(tenants, spec);
    } else {
      var t1: int :| 0 <= t1 < spec.duration && !Whole(Multiplier(spec, t1));
      var t2: int :| 0 <= t2 < spec.duration && Whole(Multiplier(spec, t2)) && CountAt(spec, t2) > 0;
      FractionBreaks(tenants, spec, t1, t2);
    }
  }
}
