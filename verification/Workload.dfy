/**
 The workload generator (internal/workload/workload.go) over an arbitrary deterministic
 random source, in exact arithmetic.  The functions say what is drawn from which state of the
 source; the class is the generator itself, and its methods are proved to draw just that.
 */
module Workload {
  import opened Options
  import opened Jobs
  import opened Channel

  /** math/rand/v2: a state, Float64 in [0, 1), and IntN(n) in [0, n). */
  datatype Rng = Rng(unit: nat -> (real, nat), below: (nat, nat) -> (nat, nat))

  ghost predicate ValidRng(g: Rng) {
    && (forall s: nat :: 0.0 <= g.unit(s).0 < 1.0)
    && (forall s: nat, n: nat | n > 0 :: g.below(s, n).0 < n)
  }

  datatype JobClass = JobClass(kind: Kind, weight: real, workMin: int, workMax: int, bytesMin: int, bytesMax: int)

  datatype Spec = Spec(
    duration: int, tenants: nat, tenantSkew: real, enqueueRate: int,
    rateCurve: Option<int -> real>, jobMix: seq<JobClass>, errorInjection: map<string, real>)

  const NO_CLASS := JobClass([], 0.0, 0, 0, 0, 0)

  /** The order in which injected errors are tried. */
  const ERROR_CLASSES := [RATE_LIMIT, TRANSIENT, PERMANENT]

  /** A request with its tenant given by position in the pool; None is the nil tenant of an empty pool. */
  datatype Draw = Draw(tenant: Option<nat>, kind: Kind, payload: Payload)

  datatype Request = Request(tenant: string, kind: Kind, payload: Payload)

  // ----- what is drawn

  function PickTenant(spec: Spec, g: Rng, s: nat): (Option<nat>, nat) {
    if spec.tenants == 0 then (None, s)
    else if spec.tenantSkew > 0.0 && g.unit(s).0 < spec.tenantSkew then (Some(0), g.unit(s).1)
    else
      var s1 := if spec.tenantSkew > 0.0 then g.unit(s).1 else s;
      var start := if spec.tenantSkew > 0.0 && spec.tenants > 1 then 1 else 0;
      var d := g.below(s1, spec.tenants - start);
      (Some(start + d.0), d.1)
  }

  /** The summed weight of the first n classes. */
  function Cumulative(mix: seq<JobClass>, n: nat): real
    requires n <= |mix|
  {
    if n == 0 then 0.0 else Cumulative(mix, n - 1) + mix[n - 1].weight
  }

  /** The first class, from position i on, whose cumulative weight exceeds r; the last class if there is none. */
  function FirstAbove(mix: seq<JobClass>, r: real, i: nat): (k: nat)
    requires i < |mix|
    ensures i <= k < |mix|
    decreases |mix| - i
  {
    if r < Cumulative(mix, i + 1) || i + 1 == |mix| then i else FirstAbove(mix, r, i + 1)
  }

  function Scaled(u: real, total: real): real { u * total }

  /** The position of the class drawn, in a nonempty mix. */
  function PickIndex(mix: seq<JobClass>, g: Rng, s: nat): (r: (nat, nat))
    requires mix != []
    ensures r.0 < |mix|
  {
    var total := Cumulative(mix, |mix|);
    if total <= 0.0 then (0, s) else (FirstAbove(mix, Scaled(g.unit(s).0, total), 0), g.unit(s).1)
  }

  function PickClass(mix: seq<JobClass>, g: Rng, s: nat): (JobClass, nat) {
    if mix == [] then (NO_CLASS, s) else (mix[PickIndex(mix, g, s).0], PickIndex(mix, g, s).1)
  }

  function Between(lo: int, hi: int, g: Rng, s: nat): (int, nat) {
    if hi > lo then (lo + g.below(s, hi - lo + 1).0, g.below(s, hi - lo + 1).1) else (lo, s)
  }

  function DrawBytes(g: Rng, s: nat, n: nat): (seq<Byte>, nat) {
    if n == 0 then ([], s)
    else
      var rest := DrawBytes(g, s, n - 1);
      var d := g.below(rest.1, 256);
      (rest.0 + [d.0 % 256], d.1)
  }

  function Probability(spec: Spec, cls: string): real {
    if cls in spec.errorInjection then spec.errorInjection[cls] else 0.0
  }

  function Inject(spec: Spec, g: Rng, s: nat, classes: seq<string>): (string, nat)
    decreases |classes|
  {
    if classes == [] then ("", s)
    else if Probability(spec, classes[0]) <= 0.0 then Inject(spec, g, s, classes[1..])
    else if g.unit(s).0 < Probability(spec, classes[0]) then (classes[0], g.unit(s).1)
    else Inject(spec, g, g.unit(s).1, classes[1..])
  }

  function BuildPayload(spec: Spec, c: JobClass, g: Rng, s: nat): (Payload, nat) {
    var ms := Between(c.workMin, c.workMax, g, s);
    var len := Between(c.bytesMin, c.bytesMax, g, ms.1);
    var bytes := DrawBytes(g, len.1, if len.0 > 0 then len.0 else 0);
    var fail := Inject(spec, g, bytes.1, ERROR_CLASSES);
    (Payload(ms.0, bytes.0, fail.0), fail.1)
  }

  /** Tenant, then the class that gives the kind, then a second class that gives the payload. */
  function NextDraw(spec: Spec, g: Rng, s: nat): (Draw, nat) {
    var t := PickTenant(spec, g, s);
    var k := PickClass(spec.jobMix, g, t.1);
    var c := PickClass(spec.jobMix, g, k.1);
    var p := BuildPayload(spec, c.0, g, c.1);
    (Draw(t.0, k.0.kind, p.0), p.1)
  }

  /** The first n requests drawn from state s, and the state they leave. */
  function Draws(spec: Spec, g: Rng, s: nat, n: nat): (r: (seq<Draw>, nat))
    ensures |r.0| == n
  {
    if n == 0 then ([], s)
    else
      var rest := Draws(spec, g, s, n - 1);
      var d := NextDraw(spec, g, rest.1);
      (rest.0 + [d.0], d.1)
  }

  // ----- the schedule

  /** int(m) truncates toward zero. */
  function Trunc(m: real): int { if m >= 0.0 then m.Floor else -((-m).Floor) }

  function Multiplier(spec: Spec, elapsed: int): real {
    match spec.rateCurve
    case None => 1.0
    case Some(curve) => curve(elapsed)
  }

  /** How many requests a tick asks for: a fraction rounds up with that probability. */
  function TickCount(g: Rng, m: real, s: nat): (nat, nat) {
    var whole, frac := Trunc(m), m - Trunc(m) as real;
    var s1 := if frac > 0.0 then g.unit(s).1 else s;
    var count := if frac > 0.0 && g.unit(s).0 < frac then whole + 1 else whole;
    (if count > 0 then count else 0, s1)
  }

  /** The ticks before the first one at or past the duration. */
  function Live(spec: Spec, ticks: seq<int>): (r: seq<int>)
    ensures |r| <= |ticks|
  {
    if ticks == [] || ticks[0] >= spec.duration then [] else [ticks[0]] + Live(spec, ticks[1..])
  }

  /** uuid.Nil. */
  const NIL := "00000000-0000-0000-0000-000000000000"

  function Named(tenants: seq<string>, d: Draw): Request {
    Request(if d.tenant.Some? && d.tenant.value < |tenants| then tenants[d.tenant.value] else NIL, d.kind, d.payload)
  }

  function AllNamed(tenants: seq<string>, ds: seq<Draw>): (r: seq<Request>)
    ensures |r| == |ds| && forall i: nat | i < |ds| :: r[i] == Named(tenants, ds[i])
  {
    seq(|ds|, i requires 0 <= i < |ds| => Named(tenants, ds[i]))
  }

  function Requests(tenants: seq<string>, spec: Spec, g: Rng, s: nat, n: nat): seq<Request> {
    AllNamed(tenants, Draws(spec, g, s, n).0)
  }

  /** The requests of one tick. */
  function TickRequests(tenants: seq<string>, spec: Spec, g: Rng, s: nat, elapsed: int): (seq<Request>, nat) {
    var n := TickCount(g, Multiplier(spec, elapsed), s);
    (Requests(tenants, spec, g, n.1, n.0), Draws(spec, g, n.1, n.0).1)
  }

  function TickChunk(tenants: seq<string>, spec: Spec, g: Rng): (nat, int) -> (seq<Request>, nat) {
    (st: nat, elapsed: int) => TickRequests(tenants, spec, g, st, elapsed)
  }

  /** Everything a run with these ticks generates, and the state it leaves. */
  function Stream(tenants: seq<string>, spec: Spec, g: Rng, s: nat, ticks: seq<int>): (seq<Request>, nat) {
    Chunks(TickChunk(tenants, spec, g), s, Live(spec, ticks))
  }

  // ----- prefixes

  lemma {:induction false} DrawsPrefix(spec: Spec, g: Rng, s: nat, i: nat, n: nat)
    requires i <= n
    ensures Draws(spec, g, s, n).0[..i] == Draws(spec, g, s, i).0
  {
    if i < n { DrawsPrefix(spec, g, s, i, n - 1); }
  }

  lemma {:induction false} RequestsStep(tenants: seq<string>, spec: Spec, g: Rng, s: nat, i: nat)
    ensures var d := NextDraw(spec, g, Draws(spec, g, s, i).1);
            && Requests(tenants, spec, g, s, i + 1) == Requests(tenants, spec, g, s, i) + [Named(tenants, d.0)]
            && Draws(spec, g, s, i + 1).1 == d.1
  {
  }

  lemma {:induction false} RequestsPrefix(tenants: seq<string>, spec: Spec, g: Rng, s: nat, i: nat, n: nat)
    requires i <= n
    ensures Requests(tenants, spec, g, s, n)[..i] == Requests(tenants, spec, g, s, i) && |Requests(tenants, spec, g, s, n)| == n
  {
    DrawsPrefix(spec, g, s, i, n);
  }

  /** Having passed the first i ticks, the next one is live exactly if it is before the duration. */
  lemma {:induction false} LiveNext(spec: Spec, ticks: seq<int>, i: nat)
    requires i < |ticks| && i <= |Live(spec, ticks)| && Live(spec, ticks)[..i] == ticks[..i]
    ensures var live := Live(spec, ticks);
            if ticks[i] < spec.duration then i < |live| && live[..i + 1] == ticks[..i + 1] else |live| == i
  {
    if i > 0 {
      var live := Live(spec, ticks);
      assert live[0] == ticks[0] by { assert live[..i][0] == ticks[..i][0]; }
      assert Live(spec, ticks[1..])[..i - 1] == live[..i][1..] == ticks[..i][1..] == ticks[1..][..i - 1];
      LiveNext(spec, ticks[1..], i - 1);
      if ticks[i] < spec.duration {
        assert live[..i + 1] == [ticks[0]] + live[1..][..i];
        assert ticks[..i + 1] == [ticks[0]] + ticks[1..][..i];
      }
    }
  }
}
