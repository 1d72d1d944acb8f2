/**
 What every statement of every interleaving keeps about claims and permits:
 claimed rows carry pairwise distinct nonzero permits, each backed by a queue_permits row.
 */
module Permits {
  import opened Options
  import opened Mvcc
  import opened Tables
  import opened Sessions

  /** Some version of the slot, committed or pending, is claimed under `p`. */
  predicate Carries(c: Cell<Row>, p: Permit) {
    (c.base.Some? && c.base.value.permit == p) || (c.pend.Write? && c.pend.value.Some? && c.pend.value.value.permit == p)
  }

  ghost predicate Nowhere(rows: Rows, p: Permit) {
    forall i: nat | i < |rows| :: !Carries(rows[i], p)
  }

  /** The row's deletion is pending in transaction `t`. */
  predicate Doomed(c: Cell<Row>, t: TxId) {
    c.pend == Write(t, None)
  }

  /** The permit is an uncommitted reservation of transaction `t`. */
  predicate ReservedBy(k: Cell<()>, t: TxId) {
    k == Cell(None, Write(t, Some(())))
  }

  /** Pending writes belong to clients that are inside a transaction. */
  ghost predicate Owned<V>(cells: seq<Cell<V>>, clients: seq<Client>) {
    forall i: nat | i < |cells| && cells[i].pend.Write? ::
      cells[i].pend.tx < |clients| && clients[cells[i].pend.tx].mode.Tx?
  }

  ghost predicate Distinct(rows: Rows) {
    forall i: nat, j: nat, p: Permit | i < |rows| && j < |rows| && Carries(rows[i], p) && Carries(rows[j], p) && p != 0 :: i == j
  }

  /** What a single row slot owes to the permit table. */
  ghost predicate Backed(c: Cell<Row>, permits: PermitTable) {
    && (c.base.Some? && c.base.value.permit != 0 ==>
          && var p := c.base.value.permit;
          && p <= |permits|
          && permits[p - 1].base.Some?
          && (c.pend.Write? ==> c.pend.value.None?)
          && (permits[p - 1].pend.Write? && permits[p - 1].pend.value.None? ==> Doomed(c, permits[p - 1].pend.tx)))
    && (c.pend.Write? && c.pend.value.Some? && c.pend.value.value.permit != 0 ==>
          && var p := c.pend.value.value.permit;
          && p <= |permits|
          && ReservedBy(permits[p - 1], c.pend.tx))
  }

  ghost predicate AllBacked(rows: Rows, permits: PermitTable) {
    forall i: nat | i < |rows| :: Backed(rows[i], permits)
  }

  /** What a client's position inside a call says about the tables. */
  ghost predicate InCall(cl: Client, c: Id, rows: Rows, permits: PermitTable) {
    && (cl.mode.Tx? && cl.mode.own && !cl.call.Won? ==> Untouched(rows, c))
    && match cl.call
    case Idle => cl.mode.Tx? ==> !cl.mode.own
    case Counted(_) => cl.mode.Auto?
    case Begun(_) => cl.mode.Tx?
    case Failing => cl.mode.Tx? && cl.mode.own
    case Reserved(_, p) => cl.mode.Tx? && 1 <= p <= |permits| && ReservedBy(permits[p - 1], c) && Nowhere(rows, p)
    case Missed(p) => cl.mode.Tx? && 1 <= p <= |permits| && ReservedBy(permits[p - 1], c) && Nowhere(rows, p)
    case Won(p, i, work) =>
      && cl.mode.Tx? && cl.mode.own && p != 0 && i < |rows|
      && rows[i].base.Some? && rows[i].base.value.permit == 0 && rows[i].base.value.item == work
      && rows[i].pend == Write(c, Some(rows[i].base.value.(permit := p)))
      && (forall j: nat | j < |rows| && rows[j].pend.Write? && rows[j].pend.tx == c :: j == i)
    case Dropped(p) =>
      && 1 <= p <= |permits| && !Foreign(permits[p - 1], c)
      && (cl.mode.Tx? ==> !cl.mode.own)
      && forall i: nat | i < |rows| && Carries(rows[i], p) :: cl.mode.Tx? && Doomed(rows[i], c)
  }

  ghost predicate CallsOk(sys: Sys) {
    forall c: nat | c < |sys.clients| :: InCall(sys.clients[c], c, sys.rows, sys.permits)
  }

  ghost predicate Inv(sys: Sys) {
    && Owned(sys.rows, sys.clients)
    && Owned(sys.permits, sys.clients)
    && Distinct(sys.rows)
    && AllBacked(sys.rows, sys.permits)
    && CallsOk(sys)
  }

  // ----- what another client's statement means for a client in the middle of a call

  lemma InCallAppend(cl: Client, c: Id, rows: Rows, k: Cell<Row>, permits: PermitTable)
    requires InCall(cl, c, rows, permits)
    requires forall p: Permit | p != 0 :: !Carries(k, p)
    requires k.pend.Write? && k.pend.tx == c ==> cl.mode.Tx? && !cl.mode.own
    ensures InCall(cl, c, rows + [k], permits)
  {
    var rows' := rows + [k];
    assert forall i: nat | i < |rows| :: rows'[i] == rows[i];
  }

  lemma InCallSettle(cl: Client, c: Id, rows: Rows, permits: PermitTable, t: TxId, commit: bool)
    requires InCall(cl, c, rows, permits) && t != c
    ensures InCall(cl, c, SettleAll(rows, t, commit), SettleAll(permits, t, commit))
  {
    var rows' := SettleAll(rows, t, commit);
    assert forall i: nat, p: Permit | i < |rows| && Carries(rows'[i], p) :: Carries(rows[i], p);
  }

  lemma InCallDelete(cl: Client, c: Id, rows: Rows, permits: PermitTable, s: Option<TxId>, p: Permit)
    requires InCall(cl, c, rows, permits) && s != Some(c) && p != 0
    requires forall i: nat | i < |rows| :: Backed(rows[i], permits)
    ensures InCall(cl, c, DeleteClaimed(rows, s, p), permits)
  {
    var rows' := DeleteClaimed(rows, s, p);
    assert forall i: nat, x: Permit | i < |rows| && Carries(rows'[i], x) :: Carries(rows[i], x);
  }

  /** A write by another transaction that introduces no permit but `own`. */
  predicate ForeignWrite(before: Cell<Row>, after: Cell<Row>, c: Id, own: Permit) {
    && after.base == before.base
    && (before.pend.Write? ==> before.pend.tx != c)
    && after.pend.Write? && after.pend.tx != c && after.pend.value.Some? && after.pend.value.value.permit == own
  }

  lemma InCallClaim(cl: Client, c: Id, rows: Rows, rows': Rows, permits: PermitTable, own: Permit)
    requires InCall(cl, c, rows, permits) && |rows| == |rows'| && own != 0
    requires forall i: nat | i < |rows| :: rows'[i] == rows[i] || ForeignWrite(rows[i], rows'[i], c, own)
    requires cl.call.Reserved? || cl.call.Missed? || cl.call.Dropped? ==> cl.call.p != own
    requires forall i: nat | i < |rows| && rows'[i] != rows[i] :: !rows[i].pend.Write? || rows[i].pend.value.Some?
    ensures InCall(cl, c, rows', permits)
  {
    assert forall i: nat, p: Permit | i < |rows| && Carries(rows'[i], p) && p != own :: Carries(rows[i], p);
  }

  // ----- one lemma per statement that changes a table

  lemma PushKeeps(sys: Sys, a: Action)
    requires Inv(sys) && Enabled(sys, a) && (a.Push? || a.PushFailed?)
    ensures Inv(Next(sys, a))
  {
    var n := Next(sys, a);
    var k := n.rows[|sys.rows|];
    assert n.rows == sys.rows + [k];
    assert forall p: Permit | p != 0 :: !Carries(k, p);
    forall c: nat | c < |n.clients|
      ensures InCall(n.clients[c], c, n.rows, n.permits)
    {
      assert InCall(sys.clients[c], c, sys.rows, sys.permits);
      InCallAppend(sys.clients[c], c, sys.rows, k, sys.permits);
    }
    AppendKeepsTables(sys, k, n.clients);
  }

  lemma AppendKeepsTables(sys: Sys, k: Cell<Row>, clients: seq<Client>)
    requires Inv(sys) && |clients| == |sys.clients|
    requires forall c: nat | c < |clients| :: clients[c].mode.Tx? == sys.clients[c].mode.Tx?
    requires forall p: Permit | p != 0 :: !Carries(k, p)
    requires k.pend.Write? ==> k.pend.tx < |clients| && clients[k.pend.tx].mode.Tx?
    ensures Owned(sys.rows + [k], clients) && Owned(sys.permits, clients)
    ensures Distinct(sys.rows + [k]) && AllBacked(sys.rows + [k], sys.permits)
  {
    var rows' := sys.rows + [k];
    assert forall i: nat | i < |sys.rows| :: rows'[i] == sys.rows[i];
    assert k.base.Some? ==> Carries(k, k.base.value.permit);
    assert k.pend.Write? && k.pend.value.Some? ==> Carries(k, k.pend.value.value.permit);
  }

  lemma LocalKeeps(sys: Sys, a: Action)
    requires Inv(sys) && Enabled(sys, a) && (a.Begin? || a.Count? || a.BeginPop? || a.Fault?)
    ensures Inv(Next(sys, a))
  {
    var n := Next(sys, a);
    LocalKeepsOwnCall(sys, a);
    forall c: nat | c < |n.clients| && c != a.c
      ensures InCall(n.clients[c], c, n.rows, n.permits)
    {
      assert InCall(sys.clients[c], c, sys.rows, sys.permits);
    }
    if a.Begin? || a.BeginPop? {
      assert n.clients[a.c].mode.Tx?;
    }
  }

  lemma LocalKeepsOwnCall(sys: Sys, a: Action)
    requires Inv(sys) && Enabled(sys, a) && (a.Begin? || a.Count? || a.BeginPop? || a.Fault?)
    ensures var n := Next(sys, a);
            && InCall(n.clients[a.c], a.c, n.rows, n.permits)
            && (sys.clients[a.c].mode.Tx? ==> n.clients[a.c].mode.Tx?)
            && n.rows == sys.rows && n.permits == sys.permits && |n.clients| == |sys.clients|
            && forall c: nat | c < |sys.clients| && c != a.c :: n.clients[c] == sys.clients[c]
  {
    assert InCall(sys.clients[a.c], a.c, sys.rows, sys.permits);
  }

  lemma ReserveKeeps(sys: Sys, a: Action)
    requires Inv(sys) && Enabled(sys, a) && a.Reserve?
    ensures Inv(Next(sys, a))
  {
    var n := Next(sys, a);
    assert forall i: nat | i < |sys.permits| :: n.permits[i] == sys.permits[i];
    assert forall i: nat | i < |sys.rows| :: Backed(sys.rows[i], sys.permits);
    assert Nowhere(sys.rows, |sys.permits| + 1);
    forall c: nat | c < |n.clients|
      ensures InCall(n.clients[c], c, n.rows, n.permits)
    {
      assert InCall(sys.clients[c], c, sys.rows, sys.permits);
    }
  }

  /** One row is claimed under a permit that nothing carried before. */
  lemma ClaimKeepsTables(sys: Sys, c: Id, j: nat, p: Permit)
    requires Inv(sys) && c < |sys.clients| && sys.clients[c].mode.Tx? && j < |sys.rows|
    requires Seen(sys.rows[j], Some(c)).Some? && Seen(sys.rows[j], Some(c)).value.permit == 0 && !LockedFor(sys.rows[j], Some(c))
    requires 1 <= p <= |sys.permits| && ReservedBy(sys.permits[p - 1], c) && Nowhere(sys.rows, p)
    ensures var rows' := sys.rows[j := ClaimSlot(sys.rows[j], Some(c), p)]; Distinct(rows') && AllBacked(rows', sys.permits)
  {
    var was, now := sys.rows[j], ClaimSlot(sys.rows[j], Some(c), p);
    assert Backed(was, sys.permits);
    assert forall x: Permit :: Carries(now, x) && x != 0 && x != p ==> Carries(was, x);
  }

  lemma ClaimKeepsCall(sys: Sys, a: Action, c: Id)
    requires Inv(sys) && Enabled(sys, a) && a.Claim? && c < |sys.clients| && c != a.c
    ensures var n := Next(sys, a); InCall(n.clients[c], c, n.rows, n.permits)
  {
    var n := Next(sys, a);
    assert InCall(sys.clients[a.c], a.c, sys.rows, sys.permits);
    assert InCall(sys.clients[c], c, sys.rows, sys.permits);
    InCallClaim(sys.clients[c], c, sys.rows, n.rows, sys.permits, sys.clients[a.c].call.p);
  }

  lemma ClaimKeepsOwnCall(sys: Sys, a: Action)
    requires Inv(sys) && Enabled(sys, a) && a.Claim?
    ensures var n := Next(sys, a); InCall(n.clients[a.c], a.c, n.rows, n.permits)
  {
    assert InCall(sys.clients[a.c], a.c, sys.rows, sys.permits);
  }

  lemma ClaimKeeps(sys: Sys, a: Action)
    requires Inv(sys) && Enabled(sys, a) && a.Claim?
    ensures Inv(Next(sys, a))
  {
    var n := Next(sys, a);
    assert InCall(sys.clients[a.c], a.c, sys.rows, sys.permits);
    var t := FindLeast(sys.rows, Some(a.c), sys.clients[a.c].call.q);
    if t.Some? {
      ClaimKeepsTables(sys, a.c, t.value, sys.clients[a.c].call.p);
    }
    forall c: nat | c < |n.clients|
      ensures InCall(n.clients[c], c, n.rows, n.permits)
    {
      if c == a.c { ClaimKeepsOwnCall(sys, a); } else { ClaimKeepsCall(sys, a, c); }
    }
  }

  lemma ReleaseKeeps(sys: Sys, a: Action)
    requires Inv(sys) && Enabled(sys, a) && a.Release?
    ensures Inv(Next(sys, a))
  {
    var n := Next(sys, a);
    var p := sys.clients[a.c].call.p;
    assert InCall(sys.clients[a.c], a.c, sys.rows, sys.permits);
    forall i: nat | i < |n.rows|
      ensures Backed(n.rows[i], n.permits)
    {
      assert Backed(sys.rows[i], sys.permits);
      assert !Carries(sys.rows[i], p);
    }
    forall c: nat | c < |n.clients|
      ensures InCall(n.clients[c], c, n.rows, n.permits)
    {
      assert InCall(sys.clients[c], c, sys.rows, sys.permits);
    }
  }

  lemma SettleKeepsDistinct(rows: Rows, t: TxId, commit: bool)
    requires Distinct(rows)
    ensures Distinct(SettleAll(rows, t, commit))
  {
    var rows' := SettleAll(rows, t, commit);
    assert forall i: nat, p: Permit | i < |rows| && Carries(rows'[i], p) :: Carries(rows[i], p);
  }

  lemma SettleKeepsBacked(c: Cell<Row>, permits: PermitTable, t: TxId, commit: bool)
    requires Backed(c, permits)
    ensures Backed(Settle(c, t, commit), SettleAll(permits, t, commit))
  {
  }

  lemma EndKeeps(sys: Sys, a: Action)
    requires Inv(sys) && Enabled(sys, a) && (a.Commit? || a.Rollback?)
    ensures Inv(Next(sys, a))
  {
    var n := Next(sys, a);
    SettleKeepsDistinct(sys.rows, a.c, a.Commit?);
    forall i: nat | i < |n.rows|
      ensures Backed(n.rows[i], n.permits)
    {
      SettleKeepsBacked(sys.rows[i], sys.permits, a.c, a.Commit?);
    }
    forall c: nat | c < |n.clients|
      ensures InCall(n.clients[c], c, n.rows, n.permits)
    {
      if c != a.c { InCallSettle(sys.clients[c], c, sys.rows, sys.permits, a.c, a.Commit?); }
    }
  }

  lemma DropRowKeepsTables(sys: Sys, s: Option<TxId>, p: Permit)
    requires Inv(sys) && p != 0
    requires s.Some? ==> s.value < |sys.clients| && sys.clients[s.value].mode.Tx?
    ensures var rows' := DeleteClaimed(sys.rows, s, p); Owned(rows', sys.clients) && Distinct(rows') && AllBacked(rows', sys.permits)
  {
    var rows' := DeleteClaimed(sys.rows, s, p);
    assert forall i: nat, x: Permit | i < |rows'| && Carries(rows'[i], x) :: Carries(sys.rows[i], x);
    forall i: nat | i < |rows'|
      ensures Backed(rows'[i], sys.permits)
    {
      assert Backed(sys.rows[i], sys.permits);
    }
  }

  /** After DELETE FROM queue WHERE permit = p nothing carries p, except the row this transaction is deleting. */
  lemma DropRowClears(sys: Sys, a: Action)
    requires Inv(sys) && Enabled(sys, a) && a.DropRow?
    ensures var n := Next(sys, a); InCall(n.clients[a.c], a.c, n.rows, n.permits)
  {
    var n := Next(sys, a);
    var s := Session(sys, a.c);
    forall i: nat | i < |n.rows| && Carries(n.rows[i], a.p)
      ensures s.Some? && Doomed(n.rows[i], a.c)
    {
      assert Backed(sys.rows[i], sys.permits);
    }
  }

  lemma DropRowKeeps(sys: Sys, a: Action)
    requires Inv(sys) && Enabled(sys, a) && a.DropRow?
    ensures Inv(Next(sys, a))
  {
    var n := Next(sys, a);
    DropRowKeepsTables(sys, Session(sys, a.c), a.p);
    DropRowClears(sys, a);
    forall c: nat | c < |n.clients| && c != a.c
      ensures InCall(n.clients[c], c, n.rows, n.permits)
    {
      InCallDelete(sys.clients[c], c, sys.rows, sys.permits, Session(sys, a.c), a.p);
    }
  }

  lemma DropPermitKeeps(sys: Sys, a: Action)
    requires Inv(sys) && Enabled(sys, a) && a.DropPermit?
    ensures Inv(Next(sys, a))
  {
    var n := Next(sys, a);
    var p := sys.clients[a.c].call.p;
    assert InCall(sys.clients[a.c], a.c, sys.rows, sys.permits);
    forall i: nat | i < |n.rows|
      ensures Backed(n.rows[i], n.permits)
    {
      assert Backed(sys.rows[i], sys.permits);
      assert Carries(sys.rows[i], p) ==> Doomed(sys.rows[i], a.c);
    }
    forall c: nat | c < |n.clients|
      ensures InCall(n.clients[c], c, n.rows, n.permits)
    {
      assert InCall(sys.clients[c], c, sys.rows, sys.permits);
    }
  }

  lemma StepKeeps(sys: Sys, a: Action)
    requires Inv(sys) && Enabled(sys, a)
    ensures Inv(Next(sys, a))
  {
    match a
    case Push(_, _) => PushKeeps(sys, a);
    case PushFailed(_) => PushKeeps(sys, a);
    case Begin(_) => LocalKeeps(sys, a);
    case Count(_, _) => LocalKeeps(sys, a);
    case BeginPop(_) => LocalKeeps(sys, a);
    case Fault(_) => LocalKeeps(sys, a);
    case Reserve(_) => ReserveKeeps(sys, a);
    case Claim(_) => ClaimKeeps(sys, a);
    case Release(_) => ReleaseKeeps(sys, a);
    case Commit(_) => EndKeeps(sys, a);
    case Rollback(_) => EndKeeps(sys, a);
    case DropRow(_, _) => DropRowKeeps(sys, a);
    case DropPermit(_) => DropPermitKeeps(sys, a);
  }

  lemma {:induction false} RunKeeps(states: seq<Sys>, acts: seq<Action>, k: nat)
    requires IsRun(states, acts) && k < |states|
    ensures Inv(states[k])
  {
    if k > 0 {
      RunKeeps(states, acts, k - 1);
      StepKeeps(states[k - 1], acts[k - 1]);
    }
  }
}
