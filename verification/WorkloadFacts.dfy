/** What the generator's draws satisfy, whatever the random source. */
module WorkloadFacts {
  import opened Options
  import opened Jobs
  import opened Workload

  // ----- pickKind: each class owns its slice of the cumulative weight

  ghost predicate NonNegative(mix: seq<JobClass>) {
    forall i: nat | i < |mix| :: mix[i].weight >= 0.0
  }

  lemma {:induction false} CumulativeMonotone(mix: seq<JobClass>, i: nat, j: nat)
    requires NonNegative(mix) && i <= j <= |mix|
    ensures Cumulative(mix, i) <= Cumulative(mix, j)
  {
    if i < j { CumulativeMonotone(mix, i, j - 1); }
  }

  lemma {:induction false} FirstAboveIsFirst(mix: seq<JobClass>, r: real, i: nat)
    requires i < |mix| && r < Cumulative(mix, |mix|) && Cumulative(mix, i) <= r
    ensures var k := FirstAbove(mix, r, i); Cumulative(mix, k) <= r < Cumulative(mix, k + 1)
    decreases |mix| - i
  {
    if r >= Cumulative(mix, i + 1) { FirstAboveIsFirst(mix, r, i + 1); }
  }

  /** Class i is chosen exactly when u times the total lies in its slice, and u in [0, 1) never misses every slice. */
  lemma {:induction false} SliceExact(mix: seq<JobClass>, u: real, i: nat)
    requires NonNegative(mix) && i < |mix| && Cumulative(mix, |mix|) > 0.0 && 0.0 <= u < 1.0
    ensures var r := Scaled(u, Cumulative(mix, |mix|));
            && (FirstAbove(mix, r, 0) == i <==> Cumulative(mix, i) <= r < Cumulative(mix, i + 1))
            && r < Cumulative(mix, |mix|)
    ensures Cumulative(mix, 0) == 0.0 && Cumulative(mix, i + 1) == Cumulative(mix, i) + mix[i].weight
  {
    var total := Cumulative(mix, |mix|);
    var r := Scaled(u, total);
    ScaledBelow(u, total, r);
    FirstAboveIsFirst(mix, r, 0);
    var k := FirstAbove(mix, r, 0);
    if k < i { CumulativeMonotone(mix, k + 1, i); }
    if i < k { CumulativeMonotone(mix, i + 1, k); }
  }

  lemma ScaledBelow(u: real, t: real, r: real)
    requires 0.0 <= u < 1.0 && t > 0.0 && r == u * t
    ensures 0.0 <= r < t
  {
    assert (1.0 - u) * t > 0.0;
  }

  /** Only classes of positive weight are ever drawn. */
  lemma {:induction false} DrawnHasWeight(mix: seq<JobClass>, g: Rng, s: nat)
    requires NonNegative(mix) && mix != [] && Cumulative(mix, |mix|) > 0.0 && ValidRng(g)
    ensures mix[PickIndex(mix, g, s).0].weight > 0.0
  {
    SliceExact(mix, g.unit(s).0, PickIndex(mix, g, s).0);
  }

  // ----- pickTenant

  /** With a skew and at least two tenants, the noisy tenant gets exactly the draws below the skew. */
  lemma SkewExact(spec: Spec, g: Rng, s: nat)
    requires ValidRng(g) && spec.tenantSkew > 0.0 && spec.tenants > 1
    ensures PickTenant(spec, g, s).0 == Some(0) <==> g.unit(s).0 < spec.tenantSkew
    ensures PickTenant(spec, g, s).0.Some? && PickTenant(spec, g, s).0.value < spec.tenants
  {
    assert g.below(g.unit(s).1, spec.tenants - 1).0 < spec.tenants - 1;
  }

  /** Some source draws tenant t first: with a skew of 1 or more that is only the noisy one, otherwise each of the pool. */
  lemma TenantReachable(spec: Spec, t: nat)
    ensures (exists g: Rng :: ValidRng(g) && PickTenant(spec, g, 0).0 == Some(t))
            <==> t < spec.tenants && (t == 0 || spec.tenantSkew < 1.0)
  {
    if t < spec.tenants && (t == 0 || spec.tenantSkew < 1.0) {
      var g := DrawsTenant(spec, t);
    }
    if g: Rng :| ValidRng(g) && PickTenant(spec, g, 0).0 == Some(t) {
      var start := if spec.tenantSkew > 0.0 && spec.tenants > 1 then 1 else 0;
      assert spec.tenants > 0;
      var n := spec.tenants - start;
      assert forall s: nat :: g.below(s, n).0 < n;
      assert 0.0 <= g.unit(0).0 < 1.0;
    }
  }

  lemma DrawsTenant(spec: Spec, t: nat) returns (g: Rng)
    requires t < spec.tenants && (t == 0 || spec.tenantSkew < 1.0)
    ensures ValidRng(g) && PickTenant(spec, g, 0).0 == Some(t)
  {
    var u := if t == 0 || spec.tenantSkew < 0.0 then 0.0 else spec.tenantSkew;
    var start := if spec.tenantSkew > 0.0 && spec.tenants > 1 then 1 else 0;
    var k: nat := if t < start then 0 else t - start;
    g := Rng((n: nat) => (u, n + 1), (n: nat, m: nat) => (if k < m then k else 0, n + 1));
  }

  // ----- the count of a tick

  /**
   A negative multiplier asks for nothing and a whole one for that many; a fraction is rounded up exactly if the draw
   is below it, and down otherwise.
   */
  lemma RoundingExact(g: Rng, m: real, s: nat)
    ensures m < 0.0 ==> TickCount(g, m, s) == (0, s)
    ensures m >= 0.0 && m == m.Floor as real ==> TickCount(g, m, s).0 as real == m && TickCount(g, m, s).1 == s
    ensures m > m.Floor as real >= 0.0 ==>
              var (count, s1) := TickCount(g, m, s);
              && m - 1.0 < count as real < m + 1.0 && s1 == g.unit(s).1
              && (count as real > m <==> g.unit(s).0 < m - m.Floor as real)
  {
  }

  /** The ticks up to the first at or past the duration. */
  lemma {:induction false} LiveMeans(spec: Spec, ticks: seq<int>)
    ensures var live := Live(spec, ticks);
            && live == ticks[..|live|] && (forall i: nat | i < |live| :: ticks[i] < spec.duration)
            && (|live| < |ticks| ==> ticks[|live|] >= spec.duration)
  {
    if ticks != [] { LiveMeans(spec, ticks[1..]); }
  }

  // ----- buildPayload

  /** Byte k of a payload is the k-th draw below 256. */
  lemma {:induction false} ByteAt(g: Rng, s: nat, n: nat, k: nat)
    requires k < n && ValidRng(g)
    ensures |DrawBytes(g, s, n).0| == n && DrawBytes(g, s, n).0[k] == g.below(DrawBytes(g, s, k).1, 256).0
    ensures DrawBytes(g, s, k + 1).1 == g.below(DrawBytes(g, s, k).1, 256).1 && DrawBytes(g, s, 0).1 == s
  {
    DrawBytesLength(g, s, n);
    DrawBytesLength(g, s, n - 1);
    if k < n - 1 { ByteAt(g, s, n - 1, k); }
  }

  /** The state in which class k of the list is tried, if none before it was injected: one draw for each earlier class with a probability. */
  function StateAt(spec: Spec, g: Rng, s: nat, classes: seq<string>, k: nat): nat
    requires k <= |classes|
  {
    if k == 0 then s
    else
      var before := StateAt(spec, g, s, classes, k - 1);
      if Probability(spec, classes[k - 1]) > 0.0 then g.unit(before).1 else before
  }

  /** Class k has a probability and its draw is below it. */
  predicate Hits(spec: Spec, g: Rng, s: nat, classes: seq<string>, k: nat)
    requires k < |classes|
  {
    Probability(spec, classes[k]) > 0.0 && g.unit(StateAt(spec, g, s, classes, k)).0 < Probability(spec, classes[k])
  }

  /** The first class that hits is injected, and the draws end there; nothing is if none hits. */
  lemma {:induction false} FirstHitInjected(spec: Spec, g: Rng, s: nat, classes: seq<string>, k: nat)
    requires k <= |classes| && (forall i: nat | i < k :: !Hits(spec, g, s, classes, i)) && (k < |classes| ==> Hits(spec, g, s, classes, k))
    ensures Inject(spec, g, s, classes)
            == if k < |classes| then (classes[k], g.unit(StateAt(spec, g, s, classes, k)).1) else ("", StateAt(spec, g, s, classes, k))
  {
    InjectFrom(spec, g, s, classes, 0, k);
    assert classes[0..] == classes;
  }

  lemma {:induction false} InjectFrom(spec: Spec, g: Rng, s: nat, classes: seq<string>, j: nat, k: nat)
    requires j <= k <= |classes| && (forall i: nat | i < k :: !Hits(spec, g, s, classes, i)) && (k < |classes| ==> Hits(spec, g, s, classes, k))
    ensures Inject(spec, g, StateAt(spec, g, s, classes, j), classes[j..])
            == if k < |classes| then (classes[k], g.unit(StateAt(spec, g, s, classes, k)).1) else ("", StateAt(spec, g, s, classes, k))
    decreases k - j
  {
    if j < k {
      assert !Hits(spec, g, s, classes, j);
      assert classes[j..][1..] == classes[j + 1..];
      InjectFrom(spec, g, s, classes, j + 1, k);
    }
  }

  function High(lo: int, hi: int): int { if hi > lo then hi else lo }

  function Size(n: int): nat { if n > 0 then n else 0 }

  predicate InBounds(c: JobClass, p: Payload) {
    && c.workMin <= p.workMillis <= High(c.workMin, c.workMax)
    && Size(c.bytesMin) <= |p.bytes| <= Size(High(c.bytesMin, c.bytesMax))
  }

  lemma {:induction false} DrawBytesLength(g: Rng, s: nat, n: nat)
    ensures |DrawBytes(g, s, n).0| == n
  {
    if n > 0 { DrawBytesLength(g, s, n - 1); }
  }

  lemma BetweenBounds(lo: int, hi: int, g: Rng, s: nat)
    requires ValidRng(g)
    ensures lo <= Between(lo, hi, g, s).0 <= High(lo, hi)
  {
    if hi > lo {
      var n: nat := hi - lo + 1;
      assert g.below(s, n).0 < n;
    }
  }

  /** A payload obeys the bounds of the class it was built for. */
  lemma PayloadInBounds(spec: Spec, c: JobClass, g: Rng, s: nat)
    requires ValidRng(g)
    ensures InBounds(c, BuildPayload(spec, c, g, s).0)
  {
    var ms := Between(c.workMin, c.workMax, g, s);
    BetweenBounds(c.workMin, c.workMax, g, s);
    BetweenBounds(c.bytesMin, c.bytesMax, g, ms.1);
    var len := Between(c.bytesMin, c.bytesMax, g, ms.1);
    DrawBytesLength(g, len.1, if len.0 > 0 then len.0 else 0);
  }

  /** Work time, size, bytes and failure are drawn in this order, a range without width not at all. */
  lemma PayloadDrawn(spec: Spec, c: JobClass, g: Rng, s: nat)
    ensures var (p, end) := BuildPayload(spec, c, g, s);
            var timed := c.workMax > c.workMin; var sized := c.bytesMax > c.bytesMin;
            var s1 := if timed then g.below(s, c.workMax - c.workMin + 1).1 else s;
            var s2 := if sized then g.below(s1, c.bytesMax - c.bytesMin + 1).1 else s1;
            && p.workMillis == (if timed then c.workMin + g.below(s, c.workMax - c.workMin + 1).0 else c.workMin)
            && |p.bytes| == Size(if sized then c.bytesMin + g.below(s1, c.bytesMax - c.bytesMin + 1).0 else c.bytesMin)
            && p.bytes == DrawBytes(g, s2, |p.bytes|).0
            && (p.failWith, end) == Inject(spec, g, DrawBytes(g, s2, |p.bytes|).1, ["rate_limit", "transient", "permanent"])
  {
    var ms := Between(c.workMin, c.workMax, g, s);
    var len := Between(c.bytesMin, c.bytesMax, g, ms.1);
    DrawBytesLength(g, len.1, if len.0 > 0 then len.0 else 0);
  }

  /** Only classes with positive probability are injected. */
  lemma {:induction false} InjectedHasProbability(spec: Spec, g: Rng, s: nat, classes: seq<string>)
    ensures var f := Inject(spec, g, s, classes).0; f == "" || (f in classes && Probability(spec, f) > 0.0)
    decreases |classes|
  {
    if classes != [] {
      InjectedHasProbability(spec, g, s, classes[1..]);
      InjectedHasProbability(spec, g, g.unit(s).1, classes[1..]);
    }
  }

  // ----- nextRequest draws the class twice

  function KindDraw(spec: Spec, g: Rng, s: nat): (nat, nat)
    requires spec.jobMix != []
  {
    PickIndex(spec.jobMix, g, PickTenant(spec, g, s).1)
  }

  function PayloadDraw(spec: Spec, g: Rng, s: nat): (nat, nat)
    requires spec.jobMix != []
  {
    PickIndex(spec.jobMix, g, KindDraw(spec, g, s).1)
  }

  lemma DrawParts(spec: Spec, g: Rng, s: nat)
    requires spec.jobMix != []
    ensures var mix := spec.jobMix;
            && KindDraw(spec, g, s).0 < |mix| && PayloadDraw(spec, g, s).0 < |mix|
            && NextDraw(spec, g, s).0.kind == mix[KindDraw(spec, g, s).0].kind
            && NextDraw(spec, g, s).0.payload == BuildPayload(spec, mix[PayloadDraw(spec, g, s).0], g, PayloadDraw(spec, g, s).1).0
  {
  }

  ghost predicate SameRange(c: JobClass, d: JobClass) {
    && c.workMin == d.workMin && High(c.workMin, c.workMax) == High(d.workMin, d.workMax)
    && Size(c.bytesMin) == Size(d.bytesMin) && Size(High(c.bytesMin, c.bytesMax)) == Size(High(d.bytesMin, d.bytesMax))
  }

  /** All classes that can be drawn have the same ranges. */
  ghost predicate SameRanges(mix: seq<JobClass>) {
    forall i: nat, j: nat | i < |mix| && j < |mix| && mix[i].weight > 0.0 && mix[j].weight > 0.0 :: SameRange(mix[i], mix[j])
  }

  /** The payload obeys the bounds of the class that gave the request its kind. */
  ghost predicate OwnBounds(spec: Spec, g: Rng, s: nat)
    requires spec.jobMix != []
  {
    InBounds(spec.jobMix[KindDraw(spec, g, s).0], NextDraw(spec, g, s).0.payload)
  }

  lemma OwnBoundsHold(spec: Spec, g: Rng, s: nat)
    requires NonNegative(spec.jobMix) && spec.jobMix != [] && Cumulative(spec.jobMix, |spec.jobMix|) > 0.0
    requires SameRanges(spec.jobMix) && ValidRng(g)
    ensures OwnBounds(spec, g, s)
  {
    var mix := spec.jobMix;
    DrawParts(spec, g, s);
    DrawnHasWeight(mix, g, PickTenant(spec, g, s).1);
    DrawnHasWeight(mix, g, KindDraw(spec, g, s).1);
    var c, d := mix[KindDraw(spec, g, s).0], mix[PayloadDraw(spec, g, s).0];
    PayloadInBounds(spec, d, g, PayloadDraw(spec, g, s).1);
    assert SameRange(c, d);
  }

  /** A source that answers u and then v at states k and k + 1, and always the least or always the greatest integer. */
  function Scripted(k: nat, u: real, v: real, top: bool): Rng {
    Rng((n: nat) => (if n == k then u else if n == k + 1 then v else 0.0, n + 1),
        (n: nat, m: nat) => (if top && m > 0 then m - 1 else 0, n + 1))
  }

  /** Where in the weight line class i begins, as a number in [0, 1). */
  function StartOf(mix: seq<JobClass>, i: nat): real
    requires i < |mix| && Cumulative(mix, |mix|) > 0.0
  {
    Cumulative(mix, i) / Cumulative(mix, |mix|)
  }

  lemma {:induction false} StartHits(mix: seq<JobClass>, i: nat)
    requires NonNegative(mix) && i < |mix| && mix[i].weight > 0.0 && Cumulative(mix, |mix|) > 0.0
    ensures 0.0 <= StartOf(mix, i) < 1.0
    ensures FirstAbove(mix, Scaled(StartOf(mix, i), Cumulative(mix, |mix|)), 0) == i
  {
    var total := Cumulative(mix, |mix|);
    CumulativeMonotone(mix, 0, i);
    CumulativeMonotone(mix, i + 1, |mix|);
    QuotientBelowOne(Cumulative(mix, i), total);
    SliceExact(mix, StartOf(mix, i), i);
  }

  lemma QuotientBelowOne(a: real, b: real)
    requires 0.0 <= a < b
    ensures 0.0 <= a / b < 1.0 && Scaled(a / b, b) == a
  {
  }

  /** The state after the tenant draw. */
  function TenantStates(spec: Spec): nat { if spec.tenants == 0 then 0 else 1 }

  /** Class i for the kind and class j for the payload is a possible pair of draws. */
  lemma {:induction false} AnyPairDrawn(spec: Spec, i: nat, j: nat, top: bool)
    requires NonNegative(spec.jobMix) && i < |spec.jobMix| && j < |spec.jobMix| && Cumulative(spec.jobMix, |spec.jobMix|) > 0.0
    requires spec.jobMix[i].weight > 0.0 && spec.jobMix[j].weight > 0.0
    ensures var g := Scripted(TenantStates(spec), StartOf(spec.jobMix, i), StartOf(spec.jobMix, j), top);
            ValidRng(g) && KindDraw(spec, g, 0).0 == i && PayloadDraw(spec, g, 0).0 == j
  {
    var mix, k := spec.jobMix, TenantStates(spec);
    StartHits(mix, i);
    StartHits(mix, j);
    var g := Scripted(k, StartOf(mix, i), StartOf(mix, j), top);
    assert ValidRng(g);
    assert PickTenant(spec, g, 0).1 == k;
    assert g.unit(k).0 == StartOf(mix, i) && g.unit(k).1 == k + 1;
    assert g.unit(k + 1).0 == StartOf(mix, j);
  }

  /** The extreme payloads of a class. */
  lemma ExtremePayload(spec: Spec, c: JobClass, k: nat, u: real, v: real, top: bool, s: nat)
    ensures var p := BuildPayload(spec, c, Scripted(k, u, v, top), s).0;
            && p.workMillis == (if top then High(c.workMin, c.workMax) else c.workMin)
            && |p.bytes| == Size(if top then High(c.bytesMin, c.bytesMax) else c.bytesMin)
  {
    var g := Scripted(k, u, v, top);
    var ms := Between(c.workMin, c.workMax, g, s);
    var len := Between(c.bytesMin, c.bytesMax, g, ms.1);
    DrawBytesLength(g, len.1, if len.0 > 0 then len.0 else 0);
  }

  lemma OwnBoundsFail(spec: Spec, i: nat, j: nat) returns (g: Rng)
    requires NonNegative(spec.jobMix) && i < |spec.jobMix| && j < |spec.jobMix| && Cumulative(spec.jobMix, |spec.jobMix|) > 0.0
    requires spec.jobMix[i].weight > 0.0 && spec.jobMix[j].weight > 0.0 && !SameRange(spec.jobMix[i], spec.jobMix[j])
    ensures ValidRng(g) && !OwnBounds(spec, g, 0)
  {
    var c, d := spec.jobMix[i], spec.jobMix[j];
    if d.workMin < c.workMin || Size(d.bytesMin) < Size(c.bytesMin) {
      g := PairPayload(spec, i, j, false);
    } else if c.workMin < d.workMin || Size(c.bytesMin) < Size(d.bytesMin) {
      g := PairPayload(spec, j, i, false);
    } else if High(d.workMin, d.workMax) > High(c.workMin, c.workMax)
              || Size(High(d.bytesMin, d.bytesMax)) > Size(High(c.bytesMin, c.bytesMax)) {
      g := PairPayload(spec, i, j, true);
    } else {
      g := PairPayload(spec, j, i, true);
    }
  }

  lemma PairPayload(spec: Spec, i: nat, j: nat, top: bool) returns (g: Rng)
    requires NonNegative(spec.jobMix) && i < |spec.jobMix| && j < |spec.jobMix| && Cumulative(spec.jobMix, |spec.jobMix|) > 0.0
    requires spec.jobMix[i].weight > 0.0 && spec.jobMix[j].weight > 0.0
    ensures ValidRng(g) && KindDraw(spec, g, 0).0 == i
    ensures var p, d := NextDraw(spec, g, 0).0.payload, spec.jobMix[j];
            && p.workMillis == (if top then High(d.workMin, d.workMax) else d.workMin)
            && |p.bytes| == Size(if top then High(d.bytesMin, d.bytesMax) else d.bytesMin)
  {
    var mix, k := spec.jobMix, TenantStates(spec);
    g := Scripted(k, StartOf(mix, i), StartOf(mix, j), top);
    AnyPairDrawn(spec, i, j, top);
    DrawParts(spec, g, 0);
    ExtremePayload(spec, mix[j], k, StartOf(mix, i), StartOf(mix, j), top, PayloadDraw(spec, g, 0).1);
  }

  /**
   Because nextRequest draws the class twice, payloads obey the bounds of their own request's class, for every
   random source, exactly when all classes that can be drawn have the same ranges.
   */
  lemma OwnBoundsIff(spec: Spec)
    requires NonNegative(spec.jobMix) && spec.jobMix != [] && Cumulative(spec.jobMix, |spec.jobMix|) > 0.0
    ensures (forall g: Rng, s: nat | ValidRng(g) :: OwnBounds(spec, g, s)) <==> SameRanges(spec.jobMix)
  {
    if SameRanges(spec.jobMix) {
      forall g: Rng, s: nat | ValidRng(g) ensures OwnBounds(spec, g, s) { OwnBoundsHold(spec, g, s); }
    } else {
      var mix := spec.jobMix;
      var i: nat, j: nat :| i < |mix| && j < |mix| && mix[i].weight > 0.0 && mix[j].weight > 0.0 && !SameRange(mix[i], mix[j]);
      var g := OwnBoundsFail(spec, i, j);
    }
  }
}
