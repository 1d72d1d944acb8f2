/**
 A pop that comes back with sql.ErrNoRows leaves no trace, whether it owns its transaction
 (rollback) or borrows one (explicit permit delete, whose error is ignored), and its answer was
 true at some instant.
 */
module MissedPop {
  import opened Options
  import opened Mvcc
  import opened Tables
  import opened Sessions
  import opened Permits

  function SeenPermit(permits: PermitTable, s: Option<TxId>, p: Permit): bool {
    1 <= p <= |permits| && Seen(permits[p - 1], s).Some?
  }

  /** Only client `c` itself can tell the two states apart, and not by looking at the queue table. */
  ghost predicate Invisible(before: Sys, after: Sys, c: Id) {
    && after.rows == before.rows
    && forall s: Option<TxId>, p: Permit | s != Some(c) :: SeenPermit(after.permits, s, p) == SeenPermit(before.permits, s, p)
  }

  /** Nobody sees a row for permit `p`. */
  ghost predicate Gone(permits: PermitTable, p: Permit) {
    forall s: Option<TxId> :: !SeenPermit(permits, s, p)
  }

  /** The permit row exists, if at all, only inside transaction `c`. */
  predicate Hidden(permits: PermitTable, p: Permit, c: Id) {
    1 <= p <= |permits| && permits[p - 1].base.None? && permits[p - 1].pend.Write? && permits[p - 1].pend.tx == c
  }

  /** The statements of one QueuePop that does not win: after the precount, no commit.  The permit delete may fail. */
  predicate PopStatement(sys: Sys, a: Action)
    requires a.c < |sys.clients|
  {
    || a.BeginPop? || a.Reserve? || a.Claim? || a.Release?
    || (a.Rollback? && sys.clients[a.c].call.Failing?)
    || (a.Fault? && sys.clients[a.c].call.Missed?)
  }

  /** A statement of a pop that has not claimed anything is invisible to everyone else. */
  lemma PopStatementInvisible(sys: Sys, a: Action)
    requires Enabled(sys, a) && InCall(sys.clients[a.c], a.c, sys.rows, sys.permits)
    requires a.Count? || PopStatement(sys, a)
    requires a.Claim? ==> Next(sys, a).clients[a.c].call.Missed?
    ensures Invisible(sys, Next(sys, a), a.c)
  {
    var n := Next(sys, a);
    if a.Rollback? {
      assert forall i: nat | i < |sys.rows| :: n.rows[i] == sys.rows[i];
      assert n.rows == sys.rows;
    }
  }

  /** Client `c` runs one QueuePop(q) between states `a` and `b`, and it returns no rows. */
  ghost predicate IsMissedPop(states: seq<Sys>, acts: seq<Action>, a: nat, b: nat, c: Id, q: Query) {
    && IsRun(states, acts) && a < b < |states| && c < |states[a].clients| && |states[b].clients| == |states[a].clients|
    && acts[a] == Count(c, q)
    && (forall k: nat {:trigger acts[k]} | a < k < b :: DuringCall(states[k], acts[k], states[k + 1], c))
    && states[b].clients[c].call.Idle?
  }

  /** An action while the call of client `c` is under way; the client's own are statements of the call, and its claim misses. */
  predicate DuringCall(sys: Sys, act: Action, n: Sys, c: Id) {
    && c < |sys.clients| && c < |n.clients| && !sys.clients[c].call.Idle?
    && (act.c == c ==> PopStatement(sys, act))
    && (act == Claim(c) ==> n.clients[c].call.Missed?)
  }

  /** At this instant no matching row is both unclaimed and unlocked for the popping session. */
  ghost predicate EmptyFor(sys: Sys, c: Id, q: Query) {
    c < |sys.clients| && (q.types == [] || NoneEligible(sys.rows, Session(sys, c), q))
  }

  /** What holds while the call is in progress; `p` is the permit it has reserved so far. */
  ghost predicate Midway(sys: Sys, c: Id, q: Query, p: Option<Permit>, empty: bool) {
    && c < |sys.clients|
    && var cl := sys.clients[c];
    && (cl.call == Counted(q) || cl.call == Begun(q) ==> p.None?)
    && (cl.call.Counted? ==> cl.call.q == q)
    && (cl.call.Begun? ==> cl.call.q == q)
    && (cl.call.Reserved? ==> cl.call.q == q && p == Some(cl.call.p))
    && (cl.call.Missed? ==> p == Some(cl.call.p) && empty)
    && (cl.call.Failing? ==> p.Some? && empty && Hidden(sys.permits, p.value, c))
    && (cl.call.Counted? || cl.call.Begun? || cl.call.Reserved? || cl.call.Missed? || cl.call.Failing?)
  }

  ghost predicate EmptyBetween(states: seq<Sys>, a: nat, k: nat, c: Id, q: Query)
    requires k <= |states|
  {
    exists j: nat :: a <= j < k && EmptyFor(states[j], c, q)
  }

  /** The same by recursion. */
  ghost predicate EverEmpty(states: seq<Sys>, a: nat, k: nat, c: Id, q: Query)
    requires k <= |states|
  {
    a < k && (EmptyFor(states[k - 1], c, q) || EverEmpty(states, a, k - 1, c, q))
  }

  lemma {:induction false} EverEmptyMeans(states: seq<Sys>, a: nat, k: nat, c: Id, q: Query)
    requires k <= |states| && EverEmpty(states, a, k, c, q)
    ensures EmptyBetween(states, a, k, c, q)
  {
    if !EmptyFor(states[k - 1], c, q) {
      EverEmptyMeans(states, a, k - 1, c, q);
      var j: nat :| a <= j < k - 1 && EmptyFor(states[j], c, q);
      assert EmptyFor(states[j], c, q);
    }
  }

  lemma OthersKeepMidway(sys: Sys, a: Action, c: Id, q: Query, p: Option<Permit>, empty: bool)
    requires Enabled(sys, a) && a.c != c && Midway(sys, c, q, p, empty)
    ensures Midway(Next(sys, a), c, q, p, empty)
  {
    OthersKeepClient(sys, a, c);
    if sys.clients[c].call.Failing? {
      OthersKeepHidden(sys, a, c, p.value);
    }
  }

  lemma OthersKeepClient(sys: Sys, a: Action, c: Id)
    requires Enabled(sys, a) && a.c != c && c < |sys.clients|
    ensures c < |Next(sys, a).clients| && Next(sys, a).clients[c] == sys.clients[c]
  {
  }

  lemma OthersKeepHidden(sys: Sys, a: Action, c: Id, p: Permit)
    requires Enabled(sys, a) && a.c != c && Hidden(sys.permits, p, c)
    ensures Hidden(Next(sys, a).permits, p, c)
  {
  }

  /** The permit is gone, or it is locked up in a broken transaction of client `c`. */
  ghost predicate Cleared(sys: Sys, c: Id, p: Permit) {
    && c < |sys.clients| && 1 <= p <= |sys.permits|
    && (Gone(sys.permits, p) || (sys.clients[c] == Client(Tx(false, true), Idle) && Hidden(sys.permits, p, c)))
  }

  /** The precount: either it answers at once, truthfully, or the call is under way. */
  lemma CountStarts(sys: Sys, c: Id, q: Query)
    requires Enabled(sys, Count(c, q))
    ensures var n := Next(sys, Count(c, q));
            if n.clients[c].call.Idle? then EmptyFor(sys, c, q) && n.permits == sys.permits else Midway(n, c, q, None, false)
  {
  }

  lemma OwnStepMidway(sys: Sys, a: Action, q: Query, p: Option<Permit>, empty: bool) returns (p': Option<Permit>, empty': bool)
    requires Enabled(sys, a) && InCall(sys.clients[a.c], a.c, sys.rows, sys.permits) && PopStatement(sys, a) && Midway(sys, a.c, q, p, empty)
    requires a.Claim? ==> Next(sys, a).clients[a.c].call.Missed?
    ensures Invisible(sys, Next(sys, a), a.c)
    ensures p.Some? ==> p' == p
    ensures a.Reserve? ==> p' == Some(|sys.permits| + 1)
    ensures !a.Reserve? ==> p' == p
    ensures empty' ==> empty || EmptyFor(sys, a.c, q)
    ensures var n := Next(sys, a);
            if n.clients[a.c].call.Idle? then empty' && p'.Some? && Cleared(n, a.c, p'.value) else Midway(n, a.c, q, p', empty')
  {
    PopStatementInvisible(sys, a);
    p' := if a.Reserve? then Some(|sys.permits| + 1) else p;
    empty' := empty || a.Claim?;
  }

  /** The state of the call after the action before `k`. */
  ghost predicate Progress(states: seq<Sys>, acts: seq<Action>, a: nat, b: nat, c: Id, q: Query, k: nat, p: Option<Permit>, empty: bool)
    requires k < |states| && k <= |acts|
  {
    && ReservedAs(states, acts, a, k, c, p)
    && (empty ==> EverEmpty(states, a, k, c, q))
    && (k < b ==> Midway(states[k], c, q, p, empty))
    && (k == b ==> empty && (p.Some? ==> Cleared(states[k], c, p.value)))
  }

  /** What the run says about the action at `j`, while the call is under way. */
  ghost predicate FactAt(states: seq<Sys>, acts: seq<Action>, b: nat, c: Id, j: nat) {
    && j < |acts| && j + 1 < |states| && c < |states[j].clients|
    && Try(states[j], acts[j]) == Some(states[j + 1])
    && DuringCall(states[j], acts[j], states[j + 1], c) && InCall(states[j].clients[c], c, states[j].rows, states[j].permits)
    && (states[j + 1].clients[c].call.Idle? <==> j + 1 == b)
  }

  lemma FactHolds(states: seq<Sys>, acts: seq<Action>, a: nat, b: nat, c: Id, q: Query, j: nat)
    requires IsMissedPop(states, acts, a, b, c, q) && a < j < b
    ensures FactAt(states, acts, b, c, j)
  {
    var act := acts[j];
    RunKeeps(states, acts, j);
    IdleOnlyAtEnd(states, acts, a, b, c, q, j + 1);
  }

  lemma {:induction false} ProgressTo(states: seq<Sys>, acts: seq<Action>, a: nat, b: nat, c: Id, q: Query, k: nat, p0: Option<Permit>, e0: bool)
    returns (p: Option<Permit>, empty: bool)
    requires a < k <= b < |states| && b <= |acts| && forall j: nat | a < j < b :: FactAt(states, acts, b, c, j)
    requires Progress(states, acts, a, b, c, q, a + 1, p0, e0)
    ensures Progress(states, acts, a, b, c, q, k, p, empty)
  {
    p, empty := p0, e0;
    if k > a + 1 {
      p, empty := ProgressTo(states, acts, a, b, c, q, k - 1, p0, e0);
      assert FactAt(states, acts, b, c, k - 1);
      p, empty := MidwayStep(states, acts, a, b, c, q, k - 1, p, empty);
    }
  }

  lemma MissedPopProgress(states: seq<Sys>, acts: seq<Action>, a: nat, b: nat, c: Id, q: Query, k: nat)
    returns (p: Option<Permit>, empty: bool)
    requires IsMissedPop(states, acts, a, b, c, q) && a < k <= b
    ensures Progress(states, acts, a, b, c, q, k, p, empty)
  {
    p, empty := MissedPopStart(states, acts, a, b, c, q);
    forall j: nat | a < j < b ensures FactAt(states, acts, b, c, j) { FactHolds(states, acts, a, b, c, q, j); }
    p, empty := ProgressTo(states, acts, a, b, c, q, k, p, empty);
  }

  /** If the call has reserved a permit so far, it is `p`. */
  ghost predicate ReservedAs(states: seq<Sys>, acts: seq<Action>, a: nat, k: nat, c: Id, p: Option<Permit>)
    requires k <= |acts| && k <= |states|
  {
    k > a ==>
      && (acts[k - 1] == Reserve(c) ==> p == Some(|states[k - 1].permits| + 1))
      && ReservedAs(states, acts, a, k - 1, c, p)
  }

  lemma {:induction false} ReservedIs(states: seq<Sys>, acts: seq<Action>, a: nat, k: nat, c: Id, p: Option<Permit>, j: nat)
    requires k <= |acts| && k <= |states| && ReservedAs(states, acts, a, k, c, p) && a <= j < k && acts[j] == Reserve(c)
    ensures p == Some(|states[j].permits| + 1)
  {
    if j < k - 1 { ReservedIs(states, acts, a, k - 1, c, p, j); }
  }

  /** Reserving happens once: before it there is no permit. */
  lemma {:induction false} NothingReserved(states: seq<Sys>, acts: seq<Action>, a: nat, k: nat, c: Id, p: Option<Permit>)
    requires k <= |acts| && k <= |states| && ReservedAs(states, acts, a, k, c, None)
    ensures ReservedAs(states, acts, a, k, c, p)
  {
    if k > a { NothingReserved(states, acts, a, k - 1, c, p); }
  }

  lemma {:induction false} ReservedStep(states: seq<Sys>, acts: seq<Action>, a: nat, k: nat, c: Id, p0: Option<Permit>, p: Option<Permit>)
    requires a < k <= |acts| && k <= |states| && ReservedAs(states, acts, a, k - 1, c, p0)
    requires p0.Some? ==> p == p0
    requires acts[k - 1] == Reserve(c) ==> p0.None? && p == Some(|states[k - 1].permits| + 1)
    ensures ReservedAs(states, acts, a, k, c, p)
  {
    if p0.None? { NothingReserved(states, acts, a, k - 1, c, p); }
  }

  lemma MissedPopStart(states: seq<Sys>, acts: seq<Action>, a: nat, b: nat, c: Id, q: Query) returns (p: Option<Permit>, empty: bool)
    requires IsMissedPop(states, acts, a, b, c, q)
    ensures Progress(states, acts, a, b, c, q, a + 1, p, empty)
  {
    RunKeeps(states, acts, a);
    var act := acts[a];
    CountStarts(states[a], c, q);
    IdleOnlyAtEnd(states, acts, a, b, c, q, a + 1);
    p, empty := None, states[a + 1].clients[c].call.Idle?;
    assert empty ==> EmptyFor(states[a], c, q);
  }

  lemma IdleOnlyAtEnd(states: seq<Sys>, acts: seq<Action>, a: nat, b: nat, c: Id, q: Query, k: nat)
    requires IsMissedPop(states, acts, a, b, c, q) && a < k <= b
    ensures c < |states[k].clients| && (states[k].clients[c].call.Idle? <==> k == b)
  {
    if k < b { var act := acts[k]; }
  }

  lemma MidwayStep(states: seq<Sys>, acts: seq<Action>, a: nat, b: nat, c: Id, q: Query, j: nat, p0: Option<Permit>, e0: bool)
    returns (p: Option<Permit>, empty: bool)
    requires a < j < b && FactAt(states, acts, b, c, j)
    requires Progress(states, acts, a, b, c, q, j, p0, e0)
    ensures Progress(states, acts, a, b, c, q, j + 1, p, empty)
  {
    p, empty := StepOn(states[j], acts[j], states[j + 1], c, q, p0, e0);
    ReservedStep(states, acts, a, j + 1, c, p0, p);
  }

  /** One action of anybody while the call is under way. */
  lemma StepOn(sys: Sys, act: Action, n: Sys, c: Id, q: Query, p0: Option<Permit>, e0: bool) returns (p: Option<Permit>, empty: bool)
    requires Try(sys, act) == Some(n) && Midway(sys, c, q, p0, e0)
    requires InCall(sys.clients[c], c, sys.rows, sys.permits)
    requires act.c == c ==> PopStatement(sys, act) && (act.Claim? ==> n.clients[c].call.Missed?)
    ensures p0.Some? ==> p == p0
    ensures act == Reserve(c) ==> p0.None? && p == Some(|sys.permits| + 1)
    ensures empty ==> e0 || EmptyFor(sys, c, q)
    ensures c < |n.clients|
    ensures if n.clients[c].call.Idle? then empty && p.Some? && Cleared(n, c, p.value) else Midway(n, c, q, p, empty)
  {
    if act.c == c {
      p, empty := OwnStepMidway(sys, act, q, p0, e0);
    } else {
      OthersKeepMidway(sys, act, c, q, p0, e0);
      OthersKeepClient(sys, act, c);
      p, empty := p0, e0;
    }
  }

  lemma OwnStatementInvisible(states: seq<Sys>, acts: seq<Action>, a: nat, b: nat, c: Id, q: Query, j: nat)
    requires IsMissedPop(states, acts, a, b, c, q) && a <= j < b && acts[j].c == c
    ensures Invisible(states[j], states[j + 1], c)
  {
    RunKeeps(states, acts, j);
    if j > a {
      var p, empty := MissedPopProgress(states, acts, a, b, c, q, j);
    }
    PopStatementInvisible(states[j], acts[j]);
  }

  // ----- what becomes of a permit whose release failed inside a borrowed transaction

  /** In a broken transaction nothing but a rollback is left, and it removes the permit for everybody. */
  lemma OnlyRollbackLeft(sys: Sys, a: Action, c: Id, p: Permit)
    requires Enabled(sys, a) && Cleared(sys, c, p)
    ensures Cleared(Next(sys, a), c, p)
    ensures a.c == c && !Gone(sys.permits, p) ==> a.Fault? || (a.Rollback? && Gone(Next(sys, a).permits, p))
  {
    if Gone(sys.permits, p) {
      StaysGone(sys, a, p);
    } else if a.c != c {
      OthersKeepHidden(sys, a, c, p);
    } else {
      BrokenOnlyRollsBack(sys, a, p);
    }
  }

  lemma BrokenOnlyRollsBack(sys: Sys, a: Action, p: Permit)
    requires Enabled(sys, a) && sys.clients[a.c] == Client(Tx(false, true), Idle) && Hidden(sys.permits, p, a.c)
    ensures a.Fault? ==> Next(sys, a).clients[a.c] == sys.clients[a.c] && Next(sys, a).permits == sys.permits
    ensures !a.Fault? ==> a.Rollback? && Gone(Next(sys, a).permits, p)
  {
    if !a.Fault? { GoneIff(Next(sys, a).permits, p); }
  }

  lemma StaysGone(sys: Sys, a: Action, p: Permit)
    requires Enabled(sys, a) && Gone(sys.permits, p) && 1 <= p <= |sys.permits|
    ensures Gone(Next(sys, a).permits, p)
  {
    GoneIff(sys.permits, p);
    GoneIff(Next(sys, a).permits, p);
  }

  lemma GoneIff(permits: PermitTable, p: Permit)
    requires 1 <= p <= |permits|
    ensures var k := permits[p - 1]; Gone(permits, p) <==> k.base.None? && (k.pend.Write? ==> k.pend.value.None?)
  {
    var k := permits[p - 1];
    assert SeenPermit(permits, None, p) <==> k.base.Some?;
    if k.pend.Write? { assert SeenPermit(permits, Some(k.pend.tx), p) <==> k.pend.value.Some?; }
  }

  lemma {:induction false} ClearedForGood(states: seq<Sys>, acts: seq<Action>, b: nat, k: nat, c: Id, p: Permit)
    requires IsRun(states, acts) && b <= k < |states| && Cleared(states[b], c, p)
    ensures Cleared(states[k], c, p)
  {
    if b < k {
      ClearedForGood(states, acts, b, k - 1, c, p);
      OnlyRollbackLeft(states[k - 1], acts[k - 1], c, p);
    }
  }

  /**
   The whole call: none of its statements changed the queue table or what anyone else sees in queue_permits; the
   permit it reserved, if it got that far, is from then on seen by nobody else, and by its own client only inside
   a transaction that a failed permit delete has broken and that can only roll back; and there was an instant
   when no matching row was free.
   */
  lemma MissedPopLeavesNoTrace(states: seq<Sys>, acts: seq<Action>, a: nat, b: nat, c: Id, q: Query)
    requires IsMissedPop(states, acts, a, b, c, q)
    ensures forall j: nat | a <= j < b && acts[j].c == c :: Invisible(states[j], states[j + 1], c)
    ensures forall j: nat, k: nat | a <= j < b <= k < |states| && acts[j] == Reserve(c) :: Cleared(states[k], c, |states[j].permits| + 1)
    ensures EmptyBetween(states, a, b, c, q)
  {
    var p, empty := MissedPopProgress(states, acts, a, b, c, q, b);
    EverEmptyMeans(states, a, b, c, q);
    forall j: nat | a <= j < b && acts[j].c == c
      ensures Invisible(states[j], states[j + 1], c)
    {
      OwnStatementInvisible(states, acts, a, b, c, q, j);
    }
    forall j: nat, k: nat | a <= j < b <= k < |states| && acts[j] == Reserve(c)
      ensures Cleared(states[k], c, |states[j].permits| + 1)
    {
      ReservedIs(states, acts, a, b, c, p, j);
      ClearedForGood(states, acts, b, k, c, |states[j].permits| + 1);
    }
  }
}
