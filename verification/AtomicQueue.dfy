/**
 What the statement-level store looks like to the adapter: an atomic bag of waiting rows.
 A push adds one row, the commit of a winning pop removes exactly the row it claimed, and
 every other statement of every client, in any interleaving, leaves the bag alone.
 */
module AtomicQueue {
  import opened Options
  import opened Mvcc
  import opened Jobs
  import opened Tables
  import opened Sessions
  import opened Permits

  /** Committed and unclaimed; a claim still in flight does not count yet. */
  predicate Unclaimed(c: Cell<Row>) {
    c.base.Some? && c.base.value.permit == 0
  }

  function Waiting(rows: Rows): map<nat, BenchWork> {
    map i: nat | i < |rows| && Unclaimed(rows[i]) :: rows[i].base.value.item
  }

  /** The adapter never calls BeginTransactionQueue itself: the only transactions are those of pops. */
  ghost predicate OnlyPops(sys: Sys) {
    forall c: nat | c < |sys.clients| && sys.clients[c].mode.Tx? :: sys.clients[c].mode.own
  }

  lemma PushAdds(sys: Sys, a: Action)
    requires Inv(sys) && OnlyPops(sys) && Enabled(sys, a) && a.Push?
    ensures |sys.rows| !in Waiting(sys.rows)
    ensures Waiting(Next(sys, a).rows) == Waiting(sys.rows)[|sys.rows| := a.row.item]
    ensures OnlyPops(Next(sys, a))
  {
    var n := Next(sys, a);
    assert sys.clients[a.c].mode.Auto?;
    assert forall i: nat | i < |sys.rows| :: n.rows[i] == sys.rows[i];
  }

  lemma CommitRemoves(sys: Sys, a: Action)
    requires Inv(sys) && OnlyPops(sys) && Enabled(sys, a) && a.Commit?
    ensures sys.clients[a.c].call.Won?
    ensures var i := sys.clients[a.c].call.i;
            && i in Waiting(sys.rows) && Waiting(sys.rows)[i] == sys.clients[a.c].call.work
            && Waiting(Next(sys, a).rows) == Waiting(sys.rows) - {i}
    ensures OnlyPops(Next(sys, a))
  {
    var call := sys.clients[a.c].call;
    assert InCall(sys.clients[a.c], a.c, sys.rows, sys.permits);
    CommitOne(sys.rows, a.c, call.i, call.p);
    assert Next(sys, a).rows == SettleAll(sys.rows, a.c, true);
  }

  /** Committing a transaction whose one write claims row i. */
  lemma CommitOne(rows: Rows, t: TxId, i: nat, p: Permit)
    requires i < |rows| && Unclaimed(rows[i]) && p != 0
    requires rows[i].pend == Write(t, Some(rows[i].base.value.(permit := p)))
    requires forall j: nat | j < |rows| && rows[j].pend.Write? && rows[j].pend.tx == t :: j == i
    ensures Waiting(SettleAll(rows, t, true)) == Waiting(rows) - {i}
  {
    var n := SettleAll(rows, t, true);
    assert forall j: nat | j < |rows| && j != i :: n[j] == rows[j];
  }

  lemma DropStutters(sys: Sys, a: Action)
    requires Inv(sys) && OnlyPops(sys) && Enabled(sys, a) && (a.DropRow? || a.Rollback?)
    ensures Waiting(Next(sys, a).rows) == Waiting(sys.rows)
    ensures OnlyPops(Next(sys, a))
  {
    var n := Next(sys, a);
    assert forall i: nat | i < |sys.rows| && Unclaimed(sys.rows[i]) :: n.rows[i].base == sys.rows[i].base;
    assert forall i: nat | i < |sys.rows| && Unclaimed(n.rows[i]) :: n.rows[i].base == sys.rows[i].base;
  }

  lemma OthersStutter(sys: Sys, a: Action)
    requires Inv(sys) && OnlyPops(sys) && Enabled(sys, a) && !a.Push? && !a.Commit? && !a.Begin?
    ensures Waiting(Next(sys, a).rows) == Waiting(sys.rows)
    ensures OnlyPops(Next(sys, a))
  {
    var n := Next(sys, a);
    if a.DropRow? || a.Rollback? {
      DropStutters(sys, a);
    } else if a.Claim? {
      ClaimStutters(sys, a);
    } else {
      assert forall i: nat | i < |sys.rows| :: n.rows[i] == sys.rows[i];
    }
  }

  lemma ClaimStutters(sys: Sys, a: Action)
    requires Inv(sys) && OnlyPops(sys) && Enabled(sys, a) && a.Claim?
    ensures Waiting(Next(sys, a).rows) == Waiting(sys.rows)
    ensures OnlyPops(Next(sys, a))
  {
    var n := Next(sys, a);
    assert forall i: nat | i < |sys.rows| :: n.rows[i].base == sys.rows[i].base;
  }
}
