/** The Generator object: its loops, drawing from and advancing its random source. */
module Generator {
  import opened Options
  import opened Jobs
  import opened Workload
  import opened WorkloadFacts
  import opened Channel

  /** The next request in the list of all. */
  lemma {:induction false} RequestsNext(tenants: seq<string>, spec: Spec, g: Rng, s: nat, i: nat, count: nat) returns (d: (Draw, nat))
    requires i < count
    ensures d == NextDraw(spec, g, Draws(spec, g, s, i).1) && Draws(spec, g, s, i + 1).1 == d.1
    ensures |Requests(tenants, spec, g, s, i)| == i && |Requests(tenants, spec, g, s, count)| == count
    ensures Requests(tenants, spec, g, s, i + 1) == Requests(tenants, spec, g, s, i) + [Named(tenants, d.0)]
    ensures Requests(tenants, spec, g, s, count)[..i + 1] == Requests(tenants, spec, g, s, i) + [Named(tenants, d.0)]
  {
    RequestsStep(tenants, spec, g, s, i);
    RequestsPrefix(tenants, spec, g, s, i + 1, count);
    d := NextDraw(spec, g, Draws(spec, g, s, i).1);
  }

  /** One more request of a tick. */
  lemma {:induction false} SendStep(tenants: seq<string>, spec: Spec, g: Rng, s: nat, i: nat, count: nat,
                                    f0: Flow<Request>, f: Flow<Request>, k: nat, lossy: bool, room: seq<bool>)
    requires i < count && f == Offered(f0, Requests(tenants, spec, g, s, i), k, lossy, room)
    ensures var d := NextDraw(spec, g, Draws(spec, g, s, i).1);
            var f1 := Offer(f, Named(tenants, d.0), lossy, HasRoom(room, k + i));
            && f1 == Offered(f0, Requests(tenants, spec, g, s, i + 1), k, lossy, room)
            && (!f1.open ==> f1 == Offered(f0, Requests(tenants, spec, g, s, count), k, lossy, room))
            && Draws(spec, g, s, i + 1).1 == d.1
  {
    var d := RequestsNext(tenants, spec, g, s, i, count);
    OfferNext(f0, Requests(tenants, spec, g, s, i), Named(tenants, d.0), Requests(tenants, spec, g, s, count), k, lossy, room);
  }

  class Generator {
    const spec: Spec
    const g: Rng
    const tenants: seq<string>   // fresh UUIDs, not derived from the seed
    const totalWeight: real
    var state: nat

    ghost predicate Valid() {
      ValidRng(g) && |tenants| == spec.tenants && totalWeight == Cumulative(spec.jobMix, |spec.jobMix|)
    }

    constructor (spec: Spec, g: Rng, seed: nat, tenants: seq<string>)
      requires ValidRng(g) && |tenants| == spec.tenants
      ensures Valid() && this.spec == spec && this.g == g && this.tenants == tenants && state == seed
    {
      var total := 0.0;
      for i := 0 to |spec.jobMix|
        invariant total == Cumulative(spec.jobMix, i)
      {
        total := total + spec.jobMix[i].weight;
      }
      this.spec, this.g, this.tenants, this.totalWeight, this.state := spec, g, tenants, total, seed;
    }

    method Float64() returns (u: real)
      requires Valid()
      modifies this
      ensures 0.0 <= u < 1.0 && (u, state) == g.unit(old(state))
    {
      var d := g.unit(state);
      u, state := d.0, d.1;
    }

    method IntN(n: nat) returns (k: nat)
      requires Valid() && n > 0
      modifies this
      ensures k < n && (k, state) == g.below(old(state), n)
    {
      var d := g.below(state, n);
      k, state := d.0, d.1;
    }

    /** The tenant's position in the pool. */
    method DrawTenant() returns (t: Option<nat>)
      requires Valid()
      modifies this
      ensures (t, state) == PickTenant(spec, g, old(state))
      ensures t.None? <==> spec.tenants == 0
      ensures spec.tenantSkew <= 0.0 && spec.tenants > 0 ==> (t, state) == (Some(g.below(old(state), spec.tenants).0), g.below(old(state), spec.tenants).1)
      ensures t.Some? ==> t.value < spec.tenants
    {
      if |tenants| == 0 {
        return None;
      }
      if spec.tenantSkew > 0.0 {
        var u := Float64();
        if u < spec.tenantSkew {
          return Some(0);
        }
      }
      var start := 0;
      if spec.tenantSkew > 0.0 && |tenants| > 1 {
        start := 1;
      }
      var k := IntN(|tenants| - start);
      t := Some(start + k);
    }

    method DrawKind() returns (c: JobClass)
      requires Valid()
      modifies this
      ensures (c, state) == PickClass(spec.jobMix, g, old(state))
      ensures spec.jobMix != [] ==> c in spec.jobMix
      ensures spec.jobMix != [] && Cumulative(spec.jobMix, |spec.jobMix|) <= 0.0 ==> c == spec.jobMix[0] && state == old(state)
    {
      if |spec.jobMix| == 0 {
        return NO_CLASS;
      }
      if totalWeight <= 0.0 {
        return spec.jobMix[0];
      }
      var u := Float64();
      var r := Scaled(u, totalWeight);
      var acc := 0.0;
      for i := 0 to |spec.jobMix|
        invariant acc == Cumulative(spec.jobMix, i) && (u, state) == g.unit(old(state))
        invariant i < |spec.jobMix| ==> FirstAbove(spec.jobMix, r, 0) == FirstAbove(spec.jobMix, r, i)
        invariant i == |spec.jobMix| ==> FirstAbove(spec.jobMix, r, 0) == i - 1
      {
        acc := acc + spec.jobMix[i].weight;
        if r < acc {
          return spec.jobMix[i];
        }
      }
      c := spec.jobMix[|spec.jobMix| - 1];
    }

    method DrawBetween(lo: int, hi: int) returns (v: int)
      requires Valid()
      modifies this
      ensures (v, state) == Between(lo, hi, g, old(state))
      ensures lo <= v && (v <= hi || v == lo)
    {
      if hi > lo {
        var k := IntN(hi - lo + 1);
        v := lo + k;
      } else {
        v := lo;
      }
    }

    method FillBytes(n: nat) returns (bytes: seq<Byte>)
      requires Valid()
      modifies this
      ensures |bytes| == n && (bytes, state) == DrawBytes(g, old(state), n)
    {
      bytes := [];
      for i := 0 to n
        invariant |bytes| == i && (bytes, state) == DrawBytes(g, old(state), i)
      {
        var b := IntN(256);
        bytes := bytes + [b];
      }
    }

    method InjectError() returns (fail: string)
      requires Valid()
      modifies this
      ensures (fail, state) == Inject(spec, g, old(state), ["rate_limit", "transient", "permanent"])
    {
      fail := "";
      for i := 0 to |ERROR_CLASSES|
        invariant Inject(spec, g, old(state), ERROR_CLASSES) == Inject(spec, g, state, ERROR_CLASSES[i..])
      {
        var p := Probability(spec, ERROR_CLASSES[i]);
        assert ERROR_CLASSES[i..][1..] == ERROR_CLASSES[i + 1..];
        if p <= 0.0 {
          continue;
        }
        var u := Float64();
        if u < p {
          return ERROR_CLASSES[i];
        }
      }
    }

    /** The payload obeys the bounds of its class, and fails only with an error class that has a probability. */
    method DrawPayload(c: JobClass) returns (p: Payload)
      requires Valid()
      modifies this
      ensures InBounds(c, p)
      ensures p.failWith == "" || (p.failWith in ERROR_CLASSES && Probability(spec, p.failWith) > 0.0)
      ensures (p, state) == BuildPayload(spec, c, g, old(state))
    {
      PayloadInBounds(spec, c, g, state);
      var ms := DrawBetween(c.workMin, c.workMax);
      var len := DrawBetween(c.bytesMin, c.bytesMax);
      var bytes := FillBytes(if len > 0 then len else 0);
      InjectedHasProbability(spec, g, state, ERROR_CLASSES);
      var fail := InjectError();
      p := Payload(ms, bytes, fail);
    }

    /** A tenant of the pool, a kind of the mix, and a payload within the bounds of some class of the mix. */
    method NextRequest() returns (r: Request)
      requires Valid()
      modifies this
      ensures tenants == [] ==> r.tenant == "00000000-0000-0000-0000-000000000000"
      ensures tenants != [] ==> var t := PickTenant(spec, g, old(state)).0; t.Some? && t.value < |tenants| && r.tenant == tenants[t.value]
      ensures spec.jobMix != [] ==>
                && r.kind == spec.jobMix[KindDraw(spec, g, old(state)).0].kind
                && (exists c: JobClass :: c in spec.jobMix && InBounds(c, r.payload))
      ensures r == Named(tenants, NextDraw(spec, g, old(state)).0) && state == NextDraw(spec, g, old(state)).1
    {
      var t := DrawTenant();
      var k := DrawKind();
      var c := DrawKind();
      var p := DrawPayload(c);
      r := Request(if t.Some? then tenants[t.value] else NIL, k.kind, p);
    }

    /** The inner loop of one tick: `count` requests, the first of them numbered k. */
    method SendAll(f0: Flow<Request>, count: nat, k: nat, lossy: bool, room: seq<bool>) returns (f: Flow<Request>)
      requires Valid() && f0.open
      modifies this
      ensures f == Offered(f0, Requests(tenants, spec, g, old(state), count), k, lossy, room)
      ensures f.open ==> state == Draws(spec, g, old(state), count).1
    {
      f := f0;
      for i := 0 to count
        invariant f.open && state == Draws(spec, g, old(state), i).1
        invariant f == Offered(f0, Requests(tenants, spec, g, old(state), i), k, lossy, room)
      {
        SendStep(tenants, spec, g, old(state), i, count, f0, f, k, lossy, room);
        var req := NextRequest();
        f := Select(f, req, lossy, HasRoom(room, k + i));
        if !f.open {
          return;
        }
      }
    }

    /** The multiplier rounded down or, only if it has a fraction, up, and never below 0; without a fraction nothing is drawn. */
    method DrawCount(m: real) returns (count: nat)
      requires Valid()
      modifies this
      ensures count == Size(Trunc(m)) || (count == Size(Trunc(m) + 1) && m - Trunc(m) as real > 0.0)
      ensures m >= 0.0 ==> m - 1.0 < count as real < m + 1.0
      ensures m - Trunc(m) as real <= 0.0 ==> state == old(state)
      ensures (count, state) == TickCount(g, m, old(state))
    {
      var c := Trunc(m);
      var frac := m - c as real;
      if frac > 0.0 {
        var u := Float64();
        if u < frac {
          c := c + 1;
        }
      }
      count := if c > 0 then c else 0;
    }

    /** One tick; `n` numbers its first request. */
    method Tick(f0: Flow<Request>, elapsed: int, n: nat, lossy: bool, room: seq<bool>) returns (f: Flow<Request>, n1: nat)
      requires Valid() && f0.open
      modifies this
      ensures var now := TickRequests(tenants, spec, g, old(state), elapsed);
              && f == Offered(f0, now.0, n, lossy, room) && n1 == n + |now.0|
              && (f.open ==> state == now.1)
    {
      var count := DrawCount(Multiplier(spec, elapsed));
      f := SendAll(f0, count, n, lossy, room);
      n1 := n + count;
    }

    /**
     Run: ticks carry the time since the start, and the script ends where the context is cancelled.  `room`
     says whether the channel takes request n; without a dropped callback the generator waits, so false means it
     was cancelled while waiting.
     */
    method Run(ticks: seq<int>, lossy: bool, room: seq<bool>) returns (f: Flow<Request>)
      requires Valid()
      modifies this
      ensures f == if spec.enqueueRate <= 0 then Flow([], 0, true)
                   else Offered(Flow([], 0, true), Stream(tenants, spec, g, old(state), ticks).0, 0, lossy, room)
      ensures f.open && spec.enqueueRate > 0 ==> state == Stream(tenants, spec, g, old(state), ticks).1
    {
      f := Flow([], 0, true);
      if spec.enqueueRate <= 0 {
        return;
      }
      ghost var live := Live(spec, ticks);
      ghost var chunk := TickChunk(tenants, spec, g);
      var n := 0;
      for i := 0 to |ticks|
        invariant i <= |live| && live[..i] == ticks[..i]
        invariant state == Chunks(chunk, old(state), live[..i]).1 && n == |Chunks(chunk, old(state), live[..i]).0|
        invariant f.open && f == Offered(Flow([], 0, true), Chunks(chunk, old(state), live[..i]).0, 0, lossy, room)
      {
        LiveNext(spec, ticks, i);
        if ticks[i] >= spec.duration {
          assert live[..i] == live;
          return;
        }
        assert live[i] == live[..i + 1][i] == ticks[i];
        OfferChunk(chunk, old(state), live, i, f, lossy, room);
        f, n := Tick(f, ticks[i], n, lossy, room);
        if !f.open {
          return;
        }
      }
      assert live[..|ticks|] == live;
    }
  }
}
