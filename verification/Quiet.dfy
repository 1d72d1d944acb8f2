/**
 No permit row is stranded: every row of queue_permits is backed by a claimed queue row, is
 about to be deleted, or was leaked by a QueueDelete whose second statement failed.
 In quiet states claimed rows and permits are therefore in bijection exactly when nothing leaked.
 */
module Quiet {
  import opened Options
  import opened Mvcc
  import opened Tables
  import opened Sessions
  import opened Permits

  predicate ClaimedUnder(c: Cell<Row>, p: Permit) {
    c.base.Some? && c.base.value.permit == p
  }

  predicate ClaimPending(c: Cell<Row>, t: TxId, p: Permit) {
    c.pend.Write? && c.pend.tx == t && c.pend.value.Some? && c.pend.value.value.permit == p
  }

  ghost predicate HasRow(rows: Rows, p: Permit) {
    exists i: nat :: i < |rows| && ClaimedUnder(rows[i], p)
  }

  ghost predicate HasPendingClaim(rows: Rows, t: TxId, p: Permit) {
    exists i: nat :: i < |rows| && ClaimPending(rows[i], t, p)
  }

  predicate Dropping(cl: Client, p: Permit) {
    cl.call == Dropped(p)
  }

  ghost predicate BeingDropped(clients: seq<Client>, p: Permit) {
    exists c: nat :: c < |clients| && Dropping(clients[c], p) && clients[c].mode.Auto?
  }

  /** A transaction that can no longer commit, or a client in the middle of a call on `p`. */
  predicate Busy(clients: seq<Client>, t: TxId, p: Permit) {
    && t < |clients| && clients[t].mode.Tx?
    && (|| clients[t].mode.broken
        || clients[t].call.Failing?
        || Dropping(clients[t], p)
        || (clients[t].call.Reserved? && clients[t].call.p == p)
        || (clients[t].call.Missed? && clients[t].call.p == p))
  }

  ghost predicate PermitExplained(sys: Sys, p: Permit)
    requires 1 <= p <= |sys.permits|
  {
    var k := sys.permits[p - 1];
    && (k.base.Some? ==> HasRow(sys.rows, p) || p in sys.leaked || BeingDropped(sys.clients, p))
    && (k.pend.Write? && k.pend.value.Some? ==> k.base.None?)
    && (k.pend.Write? && k.pend.value.Some? ==> HasPendingClaim(sys.rows, k.pend.tx, p) || Busy(sys.clients, k.pend.tx, p))
  }

  /** A pending deletion of a claimed row comes with the pending deletion of its permit. */
  ghost predicate DropPaired(sys: Sys, i: nat)
    requires i < |sys.rows|
  {
    var c := sys.rows[i];
    c.base.Some? && c.base.value.permit != 0 && c.pend.Write? ==>
      var p := c.base.value.permit;
      && p <= |sys.permits|
      && (sys.permits[p - 1].pend == Write(c.pend.tx, None) || Busy(sys.clients, c.pend.tx, p))
  }

  ghost predicate Explained(sys: Sys) {
    && (forall p: nat | 1 <= p <= |sys.permits| :: PermitExplained(sys, p))
    && (forall i: nat | i < |sys.rows| :: DropPaired(sys, i))
  }

  /** Whatever explained permit `p` before still does, if each kind of explanation survives. */
  lemma Carry(sys: Sys, n: Sys, p: Permit)
    requires 1 <= p <= |sys.permits| && |n.permits| >= |sys.permits| && |n.rows| >= |sys.rows|
    requires n.permits[p - 1] == sys.permits[p - 1] && sys.leaked <= n.leaked
    requires forall i: nat | i < |sys.rows| && ClaimedUnder(sys.rows[i], p) :: ClaimedUnder(n.rows[i], p)
    requires forall i: nat, t: TxId | i < |sys.rows| && ClaimPending(sys.rows[i], t, p) :: ClaimPending(n.rows[i], t, p)
    requires |n.clients| == |sys.clients|
    requires p in n.leaked || forall c: nat | c < |sys.clients| && Dropping(sys.clients[c], p) && sys.clients[c].mode.Auto? ::
               Dropping(n.clients[c], p) && n.clients[c].mode.Auto?
    requires sys.permits[p - 1].pend.Write? && Busy(sys.clients, sys.permits[p - 1].pend.tx, p) ==>
               Busy(n.clients, sys.permits[p - 1].pend.tx, p)
    requires PermitExplained(sys, p)
    ensures PermitExplained(n, p)
  {
    if HasRow(sys.rows, p) {
      var i: nat :| i < |sys.rows| && ClaimedUnder(sys.rows[i], p);
      assert ClaimedUnder(n.rows[i], p);
    }
    if BeingDropped(sys.clients, p) && p !in n.leaked {
      var c: nat :| c < |sys.clients| && Dropping(sys.clients[c], p) && sys.clients[c].mode.Auto?;
      assert Dropping(n.clients[c], p) && n.clients[c].mode.Auto?;
    }
    var k := sys.permits[p - 1];
    if k.pend.Write? && HasPendingClaim(sys.rows, k.pend.tx, p) {
      var i: nat :| i < |sys.rows| && ClaimPending(sys.rows[i], k.pend.tx, p);
      assert ClaimPending(n.rows[i], k.pend.tx, p);
    }
  }

  /** Actions that leave existing slots alone keep every explanation. */
  lemma LocalExplained(sys: Sys, a: Action)
    requires Inv(sys) && Explained(sys) && Enabled(sys, a)
    requires a.Push? || a.PushFailed? || a.Begin? || a.Count? || a.BeginPop? || a.Fault?
    ensures Explained(Next(sys, a))
  {
    var n := Next(sys, a);
    LocalKeepsBusy(sys, a);
    forall p: nat | 1 <= p <= |n.permits|
      ensures PermitExplained(n, p)
    {
      assert PermitExplained(sys, p);
      Carry(sys, n, p);
    }
    forall i: nat | i < |n.rows|
      ensures DropPaired(n, i)
    {
      if i < |sys.rows| { assert DropPaired(sys, i); }
    }
  }

  lemma LocalKeepsBusy(sys: Sys, a: Action)
    requires Inv(sys) && Enabled(sys, a)
    requires a.Push? || a.PushFailed? || a.Begin? || a.Count? || a.BeginPop? || a.Fault?
    ensures var n := Next(sys, a);
            && |n.rows| >= |sys.rows| && n.permits == sys.permits && |n.clients| == |sys.clients| && sys.leaked <= n.leaked
            && (forall i: nat | i < |sys.rows| :: n.rows[i] == sys.rows[i])
            && (|n.rows| > |sys.rows| ==> |n.rows| == |sys.rows| + 1 && (n.rows[|sys.rows|].base.Some? ==> n.rows[|sys.rows|].base.value.permit == 0))
            && (forall t: TxId, p: Permit | Busy(sys.clients, t, p) :: Busy(n.clients, t, p))
            && (forall c: nat, p: Permit | c < |sys.clients| && Dropping(sys.clients[c], p) && sys.clients[c].mode.Auto? ::
                  p in n.leaked || (Dropping(n.clients[c], p) && n.clients[c].mode.Auto?))
  {
    assert InCall(sys.clients[a.c], a.c, sys.rows, sys.permits);
  }

  lemma PopExplained(sys: Sys, a: Action)
    requires Inv(sys) && Explained(sys) && Enabled(sys, a)
    requires a.Reserve? || a.Release?
    ensures Explained(Next(sys, a))
  {
    var n := Next(sys, a);
    assert InCall(sys.clients[a.c], a.c, sys.rows, sys.permits);
    forall p: nat | 1 <= p <= |n.permits|
      ensures PermitExplained(n, p)
    {
      if p <= |sys.permits| {
        assert PermitExplained(sys, p);
        if BeingDropped(sys.clients, p) {
          var c: nat :| c < |sys.clients| && Dropping(sys.clients[c], p) && sys.clients[c].mode.Auto?;
          assert Dropping(n.clients[c], p);
        }
      }
    }
    forall i: nat | i < |n.rows|
      ensures DropPaired(n, i)
    {
      assert DropPaired(sys, i);
      assert Backed(sys.rows[i], sys.permits);
    }
  }

  lemma ClaimExplained(sys: Sys, a: Action)
    requires Inv(sys) && Explained(sys) && Enabled(sys, a) && a.Claim?
    ensures Explained(Next(sys, a))
  {
    var n := Next(sys, a);
    var own := sys.clients[a.c].call.p;
    forall p: nat | 1 <= p <= |n.permits|
      ensures PermitExplained(n, p)
    {
      if p == own { ClaimExplainsOwn(sys, a); } else { ClaimKeepsOthers(sys, a, p); }
    }
    ClaimKeepsPairs(sys, a);
  }

  lemma ClaimKeepsPairs(sys: Sys, a: Action)
    requires Inv(sys) && Explained(sys) && Enabled(sys, a) && a.Claim?
    ensures forall i: nat | i < |Next(sys, a).rows| :: DropPaired(Next(sys, a), i)
  {
    var n := Next(sys, a);
    forall i: nat | i < |n.rows|
      ensures DropPaired(n, i)
    {
      ClaimKeepsPair(sys, a, i);
    }
  }

  lemma ClaimKeepsPair(sys: Sys, a: Action, i: nat)
    requires Inv(sys) && Enabled(sys, a) && a.Claim? && i < |sys.rows| && DropPaired(sys, i)
    ensures DropPaired(Next(sys, a), i)
  {
    assert Backed(sys.rows[i], sys.permits);
    assert InCall(sys.clients[a.c], a.c, sys.rows, sys.permits);
  }

  lemma ClaimExplainsOwn(sys: Sys, a: Action)
    requires Inv(sys) && Explained(sys) && Enabled(sys, a) && a.Claim?
    requires 1 <= sys.clients[a.c].call.p <= |sys.permits|
    ensures PermitExplained(Next(sys, a), sys.clients[a.c].call.p)
  {
    var n := Next(sys, a);
    assert InCall(sys.clients[a.c], a.c, sys.rows, sys.permits);
    var t := FindLeast(sys.rows, Some(a.c), sys.clients[a.c].call.q);
    if t.Some? {
      assert ClaimPending(n.rows[t.value], a.c, sys.clients[a.c].call.p);
    }
  }

  lemma ClaimKeepsOthers(sys: Sys, a: Action, p: Permit)
    requires Inv(sys) && Explained(sys) && Enabled(sys, a) && a.Claim?
    requires 1 <= p <= |sys.permits| && p != sys.clients[a.c].call.p
    ensures PermitExplained(Next(sys, a), p)
  {
    var n := Next(sys, a);
    var t := FindLeast(sys.rows, Some(a.c), sys.clients[a.c].call.q);
    if t.Some? {
      assert Backed(sys.rows[t.value], sys.permits);
    }
    assert PermitExplained(sys, p);
    Carry(sys, n, p);
  }

  lemma EndExplained(sys: Sys, a: Action)
    requires Inv(sys) && Explained(sys) && Enabled(sys, a)
    requires a.Commit? || a.Rollback?
    ensures Explained(Next(sys, a))
  {
    var n := Next(sys, a);
    var commit := a.Commit?;
    assert InCall(sys.clients[a.c], a.c, sys.rows, sys.permits);
    forall p: nat | 1 <= p <= |n.permits|
      ensures PermitExplained(n, p)
    {
      EndExplainsPermit(sys, a, p);
    }
    forall i: nat | i < |n.rows|
      ensures DropPaired(n, i)
    {
      assert DropPaired(sys, i);
      assert Backed(sys.rows[i], sys.permits);
      assert n.rows[i] == Settle(sys.rows[i], a.c, commit);
    }
  }

  lemma EndExplainsPermit(sys: Sys, a: Action, p: Permit)
    requires Inv(sys) && Explained(sys) && Enabled(sys, a)
    requires a.Commit? || a.Rollback?
    requires 1 <= p <= |sys.permits|
    ensures PermitExplained(Next(sys, a), p)
  {
    var n := Next(sys, a);
    var k := sys.permits[p - 1];
    assert PermitExplained(sys, p);
    assert InCall(sys.clients[a.c], a.c, sys.rows, sys.permits);
    if k.pend.Write? && k.pend.tx == a.c {
      EndExplainsOwn(sys, a, p);
    } else {
      EndKeepsClaims(sys, a, p);
      Carry(sys, n, p);
    }
  }

  lemma EndKeepsClaims(sys: Sys, a: Action, p: Permit)
    requires Inv(sys) && Explained(sys) && Enabled(sys, a)
    requires a.Commit? || a.Rollback?
    requires 1 <= p <= |sys.permits| && (sys.permits[p - 1].pend.Write? ==> sys.permits[p - 1].pend.tx != a.c)
    ensures var n := Next(sys, a);
            && (forall i: nat | i < |sys.rows| && ClaimedUnder(sys.rows[i], p) :: ClaimedUnder(n.rows[i], p))
            && (forall i: nat, t: TxId | i < |sys.rows| && ClaimPending(sys.rows[i], t, p) :: ClaimPending(n.rows[i], t, p))
  {
    var n := Next(sys, a);
    assert InCall(sys.clients[a.c], a.c, sys.rows, sys.permits);
    forall i: nat | i < |sys.rows| && ClaimedUnder(sys.rows[i], p)
      ensures ClaimedUnder(n.rows[i], p)
    {
      assert DropPaired(sys, i) && Backed(sys.rows[i], sys.permits);
    }
    forall i: nat, t: TxId | i < |sys.rows| && ClaimPending(sys.rows[i], t, p)
      ensures ClaimPending(n.rows[i], t, p)
    {
      assert Backed(sys.rows[i], sys.permits);
    }
  }

  /** A permit this transaction itself wrote: reserved and claimed, or deleted with its row. */
  lemma EndExplainsOwn(sys: Sys, a: Action, p: Permit)
    requires Inv(sys) && Explained(sys) && Enabled(sys, a)
    requires a.Commit? || a.Rollback?
    requires 1 <= p <= |sys.permits| && sys.permits[p - 1].pend.Write? && sys.permits[p - 1].pend.tx == a.c
    ensures PermitExplained(Next(sys, a), p)
  {
    var n := Next(sys, a);
    var k := sys.permits[p - 1];
    assert PermitExplained(sys, p);
    assert n.permits[p - 1] == Settle(k, a.c, a.Commit?);
    if a.Rollback? {
      RollbackKeepsBase(sys, a, p);
    } else if k.pend.value.Some? {
      var i: nat :| i < |sys.rows| && ClaimPending(sys.rows[i], a.c, p);
      assert ClaimedUnder(n.rows[i], p);
    }
  }

  lemma RollbackKeepsBase(sys: Sys, a: Action, p: Permit)
    requires Enabled(sys, a) && a.Rollback?
    ensures var n := Next(sys, a);
            && (HasRow(sys.rows, p) ==> HasRow(n.rows, p))
            && (BeingDropped(sys.clients, p) ==> BeingDropped(n.clients, p))
  {
    var n := Next(sys, a);
    if HasRow(sys.rows, p) {
      var i: nat :| i < |sys.rows| && ClaimedUnder(sys.rows[i], p);
      assert ClaimedUnder(n.rows[i], p);
    }
    if BeingDropped(sys.clients, p) {
      var c: nat :| c < |sys.clients| && Dropping(sys.clients[c], p) && sys.clients[c].mode.Auto?;
      assert Dropping(n.clients[c], p) && n.clients[c].mode.Auto?;
    }
  }

  lemma DropRowKeepsOthers(sys: Sys, a: Action, p: Permit)
    requires Inv(sys) && Enabled(sys, a) && a.DropRow?
    requires p != 0 && p != a.p
    ensures var n := Next(sys, a);
            && (forall i: nat | i < |sys.rows| && ClaimedUnder(sys.rows[i], p) :: ClaimedUnder(n.rows[i], p))
            && (forall i: nat, t: TxId | i < |sys.rows| && ClaimPending(sys.rows[i], t, p) :: ClaimPending(n.rows[i], t, p))
  {
    var n := Next(sys, a);
    forall i: nat | i < |sys.rows| && ClaimedUnder(sys.rows[i], p)
      ensures ClaimedUnder(n.rows[i], p)
    {
      assert Backed(sys.rows[i], sys.permits);
    }
    forall i: nat, t: TxId | i < |sys.rows| && ClaimPending(sys.rows[i], t, p)
      ensures ClaimPending(n.rows[i], t, p)
    {
      assert Backed(sys.rows[i], sys.permits);
    }
  }

  lemma DropRowExplainsOwn(sys: Sys, a: Action)
    requires Inv(sys) && Explained(sys) && Enabled(sys, a) && a.DropRow?
    ensures PermitExplained(Next(sys, a), a.p)
  {
    var n := Next(sys, a);
    assert PermitExplained(sys, a.p);
    assert Dropping(n.clients[a.c], a.p);
    if sys.clients[a.c].mode.Tx? {
      TxDropKeepsBase(sys, a);
    }
  }

  lemma TxDropKeepsBase(sys: Sys, a: Action)
    requires Enabled(sys, a) && a.DropRow? && sys.clients[a.c].mode.Tx?
    ensures var n := Next(sys, a);
            && (HasRow(sys.rows, a.p) ==> HasRow(n.rows, a.p))
            && (BeingDropped(sys.clients, a.p) ==> BeingDropped(n.clients, a.p))
  {
    var n := Next(sys, a);
    if HasRow(sys.rows, a.p) {
      var i: nat :| i < |sys.rows| && ClaimedUnder(sys.rows[i], a.p);
      assert ClaimedUnder(n.rows[i], a.p);
    }
    if BeingDropped(sys.clients, a.p) {
      var c: nat :| c < |sys.clients| && Dropping(sys.clients[c], a.p) && sys.clients[c].mode.Auto?;
      assert Dropping(n.clients[c], a.p) && n.clients[c].mode.Auto?;
    }
  }

  lemma DropRowExplained(sys: Sys, a: Action)
    requires Inv(sys) && Explained(sys) && Enabled(sys, a) && a.DropRow?
    ensures Explained(Next(sys, a))
  {
    var n := Next(sys, a);
    assert Dropping(n.clients[a.c], a.p);
    forall p: nat | 1 <= p <= |n.permits|
      ensures PermitExplained(n, p)
    {
      assert PermitExplained(sys, p);
      if p != a.p {
        DropRowKeepsOthers(sys, a, p);
        Carry(sys, n, p);
      } else {
        DropRowExplainsOwn(sys, a);
      }
    }
    forall i: nat | i < |n.rows|
      ensures DropPaired(n, i)
    {
      assert DropPaired(sys, i);
      assert Backed(sys.rows[i], sys.permits);
    }
  }

  lemma DropPermitExplained(sys: Sys, a: Action)
    requires Inv(sys) && Explained(sys) && Enabled(sys, a) && a.DropPermit?
    ensures Explained(Next(sys, a))
  {
    var n := Next(sys, a);
    forall p: nat | 1 <= p <= |n.permits|
      ensures PermitExplained(n, p)
    {
      DropPermitKeepsPermit(sys, a, p);
    }
    DropPermitKeepsPairs(sys, a);
  }

  lemma DropPermitKeepsPermit(sys: Sys, a: Action, p: nat)
    requires Inv(sys) && Explained(sys) && Enabled(sys, a) && a.DropPermit? && 1 <= p <= |sys.permits|
    ensures PermitExplained(Next(sys, a), p)
  {
    var n := Next(sys, a);
    assert PermitExplained(sys, p);
    if BeingDropped(sys.clients, p) {
      var c: nat :| c < |sys.clients| && Dropping(sys.clients[c], p) && sys.clients[c].mode.Auto?;
      assert c != a.c ==> Dropping(n.clients[c], p);
    }
  }

  lemma DropPermitKeepsPairs(sys: Sys, a: Action)
    requires Inv(sys) && Explained(sys) && Enabled(sys, a) && a.DropPermit?
    ensures forall i: nat | i < |Next(sys, a).rows| :: DropPaired(Next(sys, a), i)
  {
    var n := Next(sys, a);
    assert InCall(sys.clients[a.c], a.c, sys.rows, sys.permits);
    forall i: nat | i < |n.rows|
      ensures DropPaired(n, i)
    {
      assert DropPaired(sys, i);
      assert Backed(sys.rows[i], sys.permits);
    }
  }

  lemma {:induction false} RunExplained(states: seq<Sys>, acts: seq<Action>, k: nat)
    requires IsRun(states, acts) && k < |states|
    ensures Inv(states[k]) && Explained(states[k])
  {
    RunKeeps(states, acts, k);
    if k > 0 {
      RunExplained(states, acts, k - 1);
      var sys, a := states[k - 1], acts[k - 1];
      match a {
        case Reserve(_) => PopExplained(sys, a);
        case Release(_) => PopExplained(sys, a);
        case Claim(_) => ClaimExplained(sys, a);
        case Commit(_) => EndExplained(sys, a);
        case Rollback(_) => EndExplained(sys, a);
        case DropRow(_, _) => DropRowExplained(sys, a);
        case DropPermit(_) => DropPermitExplained(sys, a);
        case _ => LocalExplained(sys, a);
      }
    }
  }

  // ----- what this means for callers

  /** No call in progress and no transaction open. */
  ghost predicate IsQuiet(sys: Sys) {
    forall c: nat | c < |sys.clients| :: sys.clients[c] == Client(Auto, Idle)
  }

  function ClaimedPermits(rows: Rows): set<Permit> {
    set i: nat | i < |rows| && rows[i].base.Some? && rows[i].base.value.permit != 0 :: rows[i].base.value.permit
  }

  predicate Present(permits: PermitTable, p: Permit) {
    1 <= p <= |permits| && permits[p - 1].base.Some?
  }

  function PresentPermits(permits: PermitTable): set<Permit> {
    set p: nat | p <= |permits| && Present(permits, p)
  }

  /** A leaked permit: no row carries it in any version, and nobody is about to use it. */
  ghost predicate Dead(sys: Sys, p: Permit) {
    && 1 <= p <= |sys.permits|
    && !(sys.permits[p - 1].pend.Write? && sys.permits[p - 1].pend.value.Some?)
    && Nowhere(sys.rows, p)
  }

  ghost predicate LeaksDead(sys: Sys) {
    forall p | p in sys.leaked :: Dead(sys, p)
  }

  /** Permit numbers are never drawn again, so a dead permit stays dead. */
  lemma DeadStays(sys: Sys, a: Action, p: Permit)
    requires Inv(sys) && Enabled(sys, a) && Dead(sys, p)
    ensures Dead(Next(sys, a), p)
  {
    var n := Next(sys, a);
    assert InCall(sys.clients[a.c], a.c, sys.rows, sys.permits);
    forall i: nat | i < |n.rows| ensures !Carries(n.rows[i], p) {
      if i < |sys.rows| { assert !Carries(sys.rows[i], p); }
    }
  }

  lemma LeaksDeadStep(sys: Sys, a: Action)
    requires Inv(sys) && Explained(sys) && Enabled(sys, a) && LeaksDead(sys)
    ensures LeaksDead(Next(sys, a))
  {
    var n := Next(sys, a);
    forall p | p in n.leaked ensures Dead(n, p) {
      if p in sys.leaked {
        DeadStays(sys, a, p);
      } else {
        LeakIsDead(sys, a, p);
      }
    }
  }

  /** When QueueDelete fails between its statements, its permit is on no row. */
  lemma LeakIsDead(sys: Sys, a: Action, p: Permit)
    requires Inv(sys) && Explained(sys) && Enabled(sys, a) && p !in sys.leaked && p in Next(sys, a).leaked
    ensures Dead(Next(sys, a), p)
  {
    assert InCall(sys.clients[a.c], a.c, sys.rows, sys.permits);
    assert PermitExplained(sys, p);
  }

  lemma {:induction false} RunLeaksDead(states: seq<Sys>, acts: seq<Action>, k: nat)
    requires IsRun(states, acts) && k < |states|
    ensures LeaksDead(states[k])
  {
    if k > 0 {
      RunLeaksDead(states, acts, k - 1);
      RunExplained(states, acts, k - 1);
      LeaksDeadStep(states[k - 1], acts[k - 1]);
    }
  }

  /**
   In every reachable quiet state nothing is pending, distinct claimed rows hold distinct permits, and
   queue_permits holds the claimed permits plus leaked ones that nobody has deleted since.  The permits are
   exactly the claimed ones if and only if none of the leaked ones is still there.
   */
  lemma QuietBijection(states: seq<Sys>, acts: seq<Action>, k: nat)
    requires IsRun(states, acts) && k < |states| && IsQuiet(states[k])
    ensures forall i: nat | i < |states[k].rows| :: states[k].rows[i].pend.NoWrite?
    ensures forall i: nat, j: nat | i < |states[k].rows| && j < |states[k].rows|
              && states[k].rows[i].base.Some? && states[k].rows[j].base.Some?
              && states[k].rows[i].base.value.permit == states[k].rows[j].base.value.permit != 0 :: i == j
    ensures ClaimedPermits(states[k].rows) <= PresentPermits(states[k].permits)
    ensures PresentPermits(states[k].permits) <= ClaimedPermits(states[k].rows) + states[k].leaked
    ensures ClaimedPermits(states[k].rows) !! states[k].leaked
    ensures PresentPermits(states[k].permits) == ClaimedPermits(states[k].rows) <==> PresentPermits(states[k].permits) !! states[k].leaked
  {
    RunExplained(states, acts, k);
    RunLeaksDead(states, acts, k);
    QuietSets(states[k]);
    QuietDistinct(states[k]);
  }

  lemma QuietDistinct(sys: Sys)
    requires Inv(sys) && IsQuiet(sys)
    ensures forall i: nat | i < |sys.rows| :: sys.rows[i].pend.NoWrite?
    ensures forall i: nat, j: nat | i < |sys.rows| && j < |sys.rows| && sys.rows[i].base.Some? && sys.rows[j].base.Some?
              && sys.rows[i].base.value.permit == sys.rows[j].base.value.permit != 0 :: i == j
  {
    forall i: nat, j: nat | i < |sys.rows| && j < |sys.rows| && sys.rows[i].base.Some? && sys.rows[j].base.Some?
                            && sys.rows[i].base.value.permit == sys.rows[j].base.value.permit != 0
      ensures i == j
    {
      assert Carries(sys.rows[i], sys.rows[i].base.value.permit) && Carries(sys.rows[j], sys.rows[i].base.value.permit);
    }
  }

  lemma QuietSets(sys: Sys)
    requires Inv(sys) && Explained(sys) && LeaksDead(sys) && IsQuiet(sys)
    ensures ClaimedPermits(sys.rows) <= PresentPermits(sys.permits) <= ClaimedPermits(sys.rows) + sys.leaked
    ensures ClaimedPermits(sys.rows) !! sys.leaked
  {
    forall i: nat | i < |sys.rows| && sys.rows[i].base.Some? && sys.rows[i].base.value.permit != 0
      ensures sys.rows[i].base.value.permit in PresentPermits(sys.permits) - sys.leaked
    {
      assert Backed(sys.rows[i], sys.permits);
      assert Carries(sys.rows[i], sys.rows[i].base.value.permit);
    }
    forall p | p in PresentPermits(sys.permits)
      ensures p in ClaimedPermits(sys.rows) + sys.leaked
    {
      assert PermitExplained(sys, p);
    }
  }

  /** QueueDelete's first statement, for a permit a committed claim holds, removes that row and no other. */
  lemma DeleteRemovesExactlyOne(sys: Sys, a: Action, i: nat)
    requires Inv(sys) && Enabled(sys, a) && a.DropRow?
    requires i < |sys.rows| && ShowsPermit(sys.rows[i], Session(sys, a.c), a.p)
    ensures var n := Next(sys, a); var s := Session(sys, a.c);
            && Seen(n.rows[i], s).None?
            && forall j: nat | j < |sys.rows| && j != i :: n.rows[j] == sys.rows[j]
  {
    assert Carries(sys.rows[i], a.p);
    assert forall j: nat | j < |sys.rows| && ShowsPermit(sys.rows[j], Session(sys, a.c), a.p) :: Carries(sys.rows[j], a.p);
  }

  /** In every reachable state, between any two statements, claimed rows hold distinct permits that exist. */
  lemma ClaimsAlwaysBacked(states: seq<Sys>, acts: seq<Action>, k: nat, i: nat, j: nat)
    requires IsRun(states, acts) && k < |states| && i < |states[k].rows| && j < |states[k].rows|
    requires states[k].rows[i].base.Some? && states[k].rows[i].base.value.permit != 0
    ensures var p := states[k].rows[i].base.value.permit;
            && p <= |states[k].permits| && states[k].permits[p - 1].base.Some?
            && (states[k].rows[j].base.Some? && states[k].rows[j].base.value.permit == p ==> i == j)
  {
    RunKeeps(states, acts, k);
    assert Backed(states[k].rows[i], states[k].permits);
    assert Carries(states[k].rows[i], states[k].rows[i].base.value.permit);
    assert states[k].rows[j].base.Some? ==> Carries(states[k].rows[j], states[k].rows[j].base.value.permit);
  }
}
