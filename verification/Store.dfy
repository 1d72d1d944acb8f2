/** pgStore (internal/queue/platlib/store.go) with its mutable fields, statement by statement. */
module Store {
  import opened Options
  import opened Mvcc
  import opened Jobs
  import opened Tables
  import opened Addresses

  datatype Note = Note(channel: string, notifyType: nat)

  /** queueReadyChannel and notifyTypeQueue. */
  const READY := Note("messages", 1)

  datatype Error = DbError | DuplicateAddressedPush | NestedTransaction | CommitError | AddressFailed(message: string)

  /** int64(x) of a uint64, and back. */
  function ToInt64(u: UInt64): int {
    if u < 0x8000_0000_0000_0000 then u else u - 0x1_0000_0000_0000_0000
  }

  /** The cast keeps the 64 bits: it fits, and back it gives the same uint64. */
  lemma CastFits(u: UInt64)
    ensures -0x8000_0000_0000_0000 <= ToInt64(u) < 0x8000_0000_0000_0000 && ToInt64(u) % 0x1_0000_0000_0000_0000 == u
  {
  }

  /** Priorities keep their order through the cast exactly when they are on the same side of 2^63. */
  lemma CastKeepsOrder(a: UInt64, b: UInt64)
    requires a < b
    ensures ToInt64(a) < ToInt64(b) <==> (a < 0x8000_0000_0000_0000 <==> b < 0x8000_0000_0000_0000)
  {
  }

  class Notifier {
    var sent: seq<Note>

    constructor ()
      ensures sent == []
    {
      sent := [];
    }

    method Notify(n: Note)
      modifies this
      ensures sent == old(sent) + [n]
    {
      sent := sent + [n];
    }
  }

  /** The database server: tables, a transaction counter, and the transactions in which a statement failed. */
  class Database {
    var rows: Rows
    var permits: PermitTable
    var failures: Failures
    var nextTx: TxId
    var broken: set<TxId>

    constructor ()
      ensures Valid() && rows == [] && permits == [] && failures == [] && broken == {}
    {
      rows, permits, failures, nextTx, broken := [], [], [], 0, {};
    }

    /** Row locks are held, and statements have failed, in transactions that have been started. */
    ghost predicate Valid()
      reads this
    {
      Started(rows, nextTx) && Started(permits, nextTx) && Started(failures, nextTx) && forall t | t in broken :: t < nextTx
    }

    method EndTx(t: TxId, commit: bool)
      requires Valid()
      modifies this
      ensures Valid() && nextTx == old(nextTx) && broken == old(broken) - {t}
      ensures rows == SettleAll(old(rows), t, commit)
      ensures permits == SettleAll(old(permits), t, commit)
      ensures failures == SettleAll(old(failures), t, commit)
    {
      rows := SettleAll(rows, t, commit);
      permits := SettleAll(permits, t, commit);
      failures := SettleAll(failures, t, commit);
      broken := broken - {t};
    }
  }

  ghost predicate Started<V>(cells: seq<Cell<V>>, n: nat) {
    forall i: nat | i < |cells| && cells[i].pend.Write? :: cells[i].pend.tx < n
  }

  /** Nothing is pending in a transaction that has not written. */
  lemma SettleNothing<V>(cells: seq<Cell<V>>, t: TxId, commit: bool)
    requires Untouched(cells, t)
    ensures SettleAll(cells, t, commit) == cells
  {
  }

  datatype PopFaults = PopFaults(count: bool, begin: bool, reserve: bool, claim: bool, release: bool, commit: bool)

  datatype PopResult = Popped(permit: Permit, address: string, typ: Code, work: BenchWork) | NoRows | PopError

  ghost predicate AllFresh<V(!new)>(cells: seq<Cell<V>>) {
    forall i: nat | i < |cells| :: cells[i] == Fresh()
  }

  ghost predicate NobodySees(cells: PermitTable) {
    forall i: nat, s: Option<TxId> | i < |cells| :: Seen(cells[i], s).None?
  }

  /** The pop hands out the least eligible row of `q` as session `s` sees it. */
  ghost predicate HandsOut(r: PopResult, rows: Rows, s: Option<TxId>, q: Query) {
    && r.Popped?
    && var i := FindLeast(rows, s, q);
    && i.Some? && IsLeast(rows, s, q, i.value)
    && var row := Seen(rows[i.value], s).value;
    && r.typ == row.typ && r.work == row.item && r.address == (if row.address.Some? then row.address.value else "")
  }

  /** A transaction that has not started sees exactly what an autocommitted statement sees. */
  lemma NothingVisible(rows: Rows, s: Option<TxId>, u: Option<TxId>, n: nat, q: Query)
    requires Started(rows, n) && CountVisible(rows, s, q) == 0 && (u == s || (s.None? && u == Some(n)))
    ensures NoneEligible(rows, u, q)
  {
    forall j: nat | j < |rows| ensures !Eligible(rows[j], u, q) {
      assert !Visible(rows[j], s, q);
      assert Seen(rows[j], u) == Seen(rows[j], s);
    }
  }

  /** Rows that exist only inside transaction `t`. */
  ghost predicate OnlyIn<V(!new)>(cells: seq<Cell<V>>, t: TxId) {
    forall i: nat | i < |cells| :: cells[i].base.None? && cells[i].pend.Write? && cells[i].pend.tx == t
  }

  /**
   A pop without work leaves every row and permit as it was.  Its own permit slot stays behind empty, or, in a
   borrowed transaction, with nothing that anyone outside sees.
   */
  ghost predicate PopLeft(borrowed: Option<TxId>, rows0: Rows, rows: Rows, permits0: PermitTable, permits: PermitTable) {
    && rows == rows0
    && |permits0| <= |permits| <= |permits0| + 1
    && permits[..|permits0|] == permits0
    && match borrowed
       case None => AllFresh(permits[|permits0|..])
       case Some(t) => OnlyIn(permits[|permits0|..], t)
  }

  /**
   What a pop that returns work wrote: the claim and the permit row, pending in the borrowed transaction or
   committed in its own.  When its own commit fails, nothing, although the work is handed out all the same.
   */
  ghost predicate PopWrote(p: Permit, borrowed: Option<TxId>, f: PopFaults, s: Option<TxId>, q: Query, rows0: Rows, rows: Rows,
                           permits0: PermitTable, permits: PermitTable)
  {
    && FindLeast(rows0, s, q).Some?
    && var i := FindLeast(rows0, s, q).value;
    var claimed := Some(Seen(rows0[i], s).value.(permit := p));
    if borrowed.Some? then
      && rows == rows0[i := Cell(rows0[i].base, Write(borrowed.value, claimed))]
      && permits == permits0 + [Cell(None, Write(borrowed.value, Some(())))]
    else if f.commit then
      rows == rows0 && permits == permits0 + [Fresh()]
    else
      && rows == rows0[i := Cell(claimed, NoWrite)]
      && permits == permits0 + [Cell(Some(()), NoWrite)]
  }

  /** The work handed out is that of the most urgent free row. */
  ghost predicate PoppedMostUrgent(r: PopResult, rows: Rows, s: Option<TxId>, name: string, maxPriority: int, types: seq<Code>)
    requires r.Popped?
  {
    exists i: nat :: MostUrgent(rows, s, name, maxPriority, types, i)
                     && var row := Seen(rows[i], s).value;
                     r.work == row.item && r.typ == row.typ && r.address == (if row.address.Some? then row.address.value else "")
  }

  lemma HandsOutMostUrgent(r: PopResult, rows: Rows, s: Option<TxId>, q: Query)
    requires HandsOut(r, rows, s, q)
    ensures PoppedMostUrgent(r, rows, s, q.name, q.maxPriority, q.types)
  {
    LeastIsMostUrgent(rows, s, q, FindLeast(rows, s, q).value);
  }

  lemma NothingFree(rows: Rows, s: Option<TxId>, q: Query)
    requires q.types == [] || NoneEligible(rows, s, q)
    ensures forall i: nat :: !Free(rows, s, q.name, q.maxPriority, q.types, i)
  {
    forall i: nat ensures !Free(rows, s, q.name, q.maxPriority, q.types, i) {
      if i < |rows| { FreeIffEligible(rows, s, q, i); }
    }
  }

  /** What the two statements mean for the caller, in terms of the rows' columns. */
  lemma PopMeans(r: PopResult, borrowed: Option<TxId>, f: PopFaults, s: Option<TxId>, q: Query, rows0: Rows, rows: Rows,
                 permits0: PermitTable, permits: PermitTable)
    requires PopDoes(r, borrowed, f, s, q, rows0, rows, permits0, permits)
    ensures r.Popped? ==> PoppedMostUrgent(r, rows0, s, q.name, q.maxPriority, q.types)
    ensures r.NoRows? ==> forall i: nat :: !Free(rows0, s, q.name, q.maxPriority, q.types, i)
  {
    if r.Popped? { HandsOutMostUrgent(r, rows0, s, q); }
    if r.NoRows? { NothingFree(rows0, s, q); }
  }

  /** Everything a pop does to the two tables. */
  ghost predicate PopDoes(r: PopResult, borrowed: Option<TxId>, f: PopFaults, s: Option<TxId>, q: Query, rows0: Rows, rows: Rows,
                          permits0: PermitTable, permits: PermitTable)
  {
    match r
    case Popped(p, _, _, _) =>
      && HandsOut(r, rows0, s, q) && p == |permits0| + 1
      && PopWrote(p, borrowed, f, s, q, rows0, rows, permits0, permits)
    case NoRows =>
      && (q.types == [] || NoneEligible(rows0, s, q))
      && PopLeft(borrowed, rows0, rows, permits0, permits)
      && (!f.release ==> NobodySees(permits[|permits0|..]))
    case PopError => PopLeft(borrowed, rows0, rows, permits0, permits)
  }

  /** Ending the transaction a pop opened for itself turns what it did inside into what it did for good. */
  lemma SettleClaim(r: PopResult, f: PopFaults, t: TxId, q: Query, rows0: Rows, rows: Rows, permits0: PermitTable, permits: PermitTable)
    requires Untouched(rows0, t) && Untouched(permits0, t) && q.types != []
    requires PopDoes(r, Some(t), f, Some(t), q, rows0, rows, permits0, permits)
    ensures var commit := r.Popped? && !f.commit;
            PopDoes(r, None, f, Some(t), q, rows0, SettleAll(rows, t, commit), permits0, SettleAll(permits, t, commit))
  {
    var commit := r.Popped? && !f.commit;
    SettleNothing(rows0, t, commit);
    SettleTail(permits0, permits, t, commit);
    if r.Popped? { SettleRow(rows0, rows, t, FindLeast(rows0, Some(t), q).value, commit); }
  }

  lemma SettleTail(permits0: PermitTable, permits: PermitTable, t: TxId, commit: bool)
    requires Untouched(permits0, t) && |permits0| <= |permits| && permits[..|permits0|] == permits0
    requires OnlyIn(permits[|permits0|..], t)
    ensures var n := SettleAll(permits, t, commit);
            && n[..|permits0|] == permits0
            && forall i: nat | |permits0| <= i < |permits| :: n[i] == if commit then Cell(permits[i].pend.value, NoWrite) else Fresh()
  {
    var n := SettleAll(permits, t, commit);
    forall i: nat | i < |permits0| ensures n[i] == permits0[i] { assert permits[..|permits0|][i] == permits0[i]; }
    forall i: nat | |permits0| <= i < |permits| ensures n[i] == if commit then Cell(permits[i].pend.value, NoWrite) else Fresh() {
      assert permits[i] == permits[|permits0|..][i - |permits0|];
    }
  }

  lemma SettleRow(rows0: Rows, rows: Rows, t: TxId, i: nat, commit: bool)
    requires i < |rows0| && Untouched(rows0, t) && rows0[i].pend.NoWrite?
    requires exists v :: rows == rows0[i := Cell(rows0[i].base, Write(t, v))]
    ensures SettleAll(rows, t, commit) == if commit then rows0[i := Cell(rows[i].pend.value, NoWrite)] else rows0
  {
  }

  /** The session no longer sees a row with permit p, and every other slot is untouched. */
  ghost predicate RowsWithout(rows0: Rows, rows: Rows, s: Option<TxId>, p: Permit) {
    && |rows| == |rows0|
    && forall i: nat | i < |rows0| ::
         if Seen(rows0[i], s).Some? && Seen(rows0[i], s).value.permit == p then Seen(rows[i], s).None? else rows[i] == rows0[i]
  }

  /** DELETE FROM queue_permits WHERE id = p. */
  function DropPermitRow(permits: PermitTable, s: Option<TxId>, p: Permit): PermitTable {
    if 1 <= p <= |permits| then permits[p - 1 := DropSlot(permits[p - 1], s)] else permits
  }

  class PgStore {
    const db: Database
    const notifier: Notifier?
    var tx: Option<TxId>
    var pending: seq<Note>

    ghost predicate Valid()
      reads this, db
    {
      db.Valid() && (tx.Some? ==> tx.value < db.nextTx)
    }

    /** newPgStore. */
    constructor (db: Database, notifier: Notifier?)
      requires db.Valid()
      ensures Valid() && this.db == db && this.notifier == notifier && tx.None? && pending == []
    {
      this.db, this.notifier, this.tx, this.pending := db, notifier, None, [];
    }

    /** The store view that BeginTransactionQueue returns. */
    constructor InTx(db: Database, notifier: Notifier?, t: TxId)
      requires db.Valid() && t < db.nextTx
      ensures Valid() && this.db == db && this.notifier == notifier && tx == Some(t) && pending == []
    {
      this.db, this.notifier, this.tx, this.pending := db, notifier, Some(t), [];
    }

    predicate InBrokenTx()
      reads this, db
    {
      tx.Some? && tx.value in db.broken
    }

    /** What a failing statement adds to the broken transactions. */
    function Breaks(failed: bool): set<TxId>
      reads this
    {
      if failed && tx.Some? then {tx.value} else {}
    }

    /** A statement of this store fails; inside a transaction nothing but a rollback can follow. */
    method StatementFails()
      requires Valid()
      modifies db`broken
      ensures Valid()
      ensures db.broken == old(db.broken) + Breaks(true)
    {
      if tx.Some? {
        db.broken := db.broken + {tx.value};
      }
    }

    method QueueNotify(n: Note)
      modifies this`pending, notifier
      ensures pending == old(pending) + (if tx.Some? then [n] else [])
      ensures notifier != null ==> notifier.sent == old(notifier.sent) + (if tx.None? then [n] else [])
    {
      if tx.Some? {
        pending := pending + [n];
        return;
      }
      if notifier != null {
        notifier.Notify(n);
      }
    }

    method BeginTransactionQueue(fails: bool) returns (s: PgStore?, err: Option<Error>)
      requires Valid()
      modifies db`nextTx
      ensures Valid() && (s == null <==> err.Some?)
      ensures tx.Some? ==> err == Some(NestedTransaction) && db.nextTx == old(db.nextTx)
      ensures tx.None? ==> err == (if fails then Some(DbError) else None)
      ensures s != null ==> fresh(s) && s.Valid() && s.db == db && s.notifier == notifier && s.pending == []
                            && s.tx == Some(old(db.nextTx)) && db.nextTx == old(db.nextTx) + 1
    {
      s := null;
      if tx.Some? {
        return null, Some(NestedTransaction);
      }
      if fails {
        return null, Some(DbError);
      }
      var t := db.nextTx;
      db.nextTx := t + 1;
      s := new PgStore.InTx(db, notifier, t);
      err := None;
    }

    method CompleteTransaction(err: Option<Error>, commitFails: bool) returns (out: Option<Error>)
      requires Valid()
      modifies this`tx, this`pending, db, notifier
      ensures Valid()
      ensures old(tx).None? ==> tx.None? && out == err && pending == old(pending) && unchanged(db)
                                && (notifier != null ==> notifier.sent == old(notifier.sent))
      ensures old(tx).Some? ==>
                && tx.None? && pending == []
                && var commit := err.None? && !commitFails && old(tx).value !in old(db.broken);
                && db.rows == SettleAll(old(db.rows), old(tx).value, commit)
                && db.permits == SettleAll(old(db.permits), old(tx).value, commit)
                && db.failures == SettleAll(old(db.failures), old(tx).value, commit)
                && (notifier != null ==> notifier.sent == old(notifier.sent) + (if commit then old(pending) else []))
                && out == (if err.Some? then err else if commit then None else Some(CommitError))
                && db.broken == old(db.broken) - {old(tx).value} && db.nextTx == old(db.nextTx)
    {
      if tx.None? {
        return err;
      }
      if err.Some? {
        db.EndTx(tx.value, false);
        tx, pending := None, [];
        return err;
      }
      if commitFails || tx.value in db.broken {
        db.EndTx(tx.value, false);
        tx, pending := None, [];
        return Some(CommitError);
      }
      db.EndTx(tx.value, true);
      tx := None;
      Flush();
      pending := [];
      out := None;
    }

    /** The flush loop: every pending notification, in order. */
    method Flush()
      modifies notifier
      ensures notifier != null ==> notifier.sent == old(notifier.sent) + pending
    {
      if notifier != null {
        for i := 0 to |pending|
          invariant notifier.sent == old(notifier.sent) + pending[..i]
        {
          notifier.Notify(pending[i]);
          assert pending[..i + 1] == pending[..i] + [pending[i]];
        }
        assert pending[..|pending|] == pending;
      }
    }

    method QueuePush(name: string, priority: UInt64, workType: Code, work: BenchWork, fails: bool) returns (err: Option<Error>)
      requires Valid()
      modifies this`pending, db`rows, db`broken, notifier
      ensures Valid() && err == (if fails || old(InBrokenTx()) then Some(DbError) else None)
      ensures db.rows == old(db.rows) + [if err.Some? then Fresh() else Put(Fresh(), tx, Some(Row(name, ToInt64(priority), 0, workType, None, work)))]
      ensures pending == old(pending) + (if err.None? && tx.Some? then [Note("messages", 1)] else [])
      ensures notifier != null ==> notifier.sent == old(notifier.sent) + (if err.None? && tx.None? then [Note("messages", 1)] else [])
      ensures db.broken == old(db.broken) + Breaks(err.Some?)
    {
      if fails || InBrokenTx() {
        db.rows := db.rows + [Fresh()];
        StatementFails();
        return Some(DbError);
      }
      db.rows := db.rows + [Put(Fresh(), tx, Some(Row(name, ToInt64(priority), 0, workType, None, work)))];
      QueueNotify(READY);
      err := None;
    }

    method QueuePushAddressed(name: string, priority: UInt64, workType: Code, address: string, work: BenchWork, fails: bool)
      returns (err: Option<Error>)
      requires Valid() && AddressFree(db.rows, tx, address)
      modifies this`pending, db`rows, db`broken, notifier
      ensures Valid()
      ensures err == if fails || old(InBrokenTx()) then Some(DbError)
                     else if exists i: nat :: i < |old(db.rows)| && Seen(old(db.rows)[i], tx).Some? && Seen(old(db.rows)[i], tx).value.address == Some(address)
                       then Some(DuplicateAddressedPush)
                     else None
      ensures db.rows == old(db.rows) + [if err.Some? then Fresh()
                                         else Put(Fresh(), tx, Some(Row(name, ToInt64(priority), 0, workType, Some(address), work)))]
      ensures pending == old(pending) + (if err.None? && tx.Some? then [Note("messages", 1)] else [])
      ensures notifier != null ==> notifier.sent == old(notifier.sent) + (if err.None? && tx.None? then [Note("messages", 1)] else [])
      ensures db.broken == old(db.broken) + Breaks(err.Some?)
    {
      if fails || InBrokenTx() {
        db.rows := db.rows + [Fresh()];
        StatementFails();
        return Some(DbError);
      }
      if CountAddress(db.rows, tx, address) > 0 {
        db.rows := db.rows + [Fresh()];
        StatementFails();
        return Some(DuplicateAddressedPush);
      }
      db.rows := db.rows + [Put(Fresh(), tx, Some(Row(name, ToInt64(priority), 0, workType, Some(address), work)))];
      QueueNotify(READY);
      err := None;
    }

    /** The session a pop claims in: the borrowed transaction, or the one it is about to open. */
    function PopSession(): Option<TxId>
      reads this, db
    {
      if tx.Some? then tx else Some(db.nextTx)
    }

    /** Reserve a permit, then claim under it, in transaction `t`. */
    method ReserveAndClaim(t: TxId, q: Query, f: PopFaults) returns (r: PopResult)
      requires Valid() && t < db.nextTx
      modifies db`rows, db`permits, db`broken
      ensures Valid()
      ensures PopDoes(r, Some(t), f, Some(t), q, old(db.rows), db.rows, old(db.permits), db.permits)
      ensures r.PopError? <==> f.reserve || f.claim
      ensures r.Popped? ==> PoppedMostUrgent(r, old(db.rows), Some(t), q.name, q.maxPriority, q.types)
      ensures db.broken == old(db.broken) + (if r.PopError? || (r.NoRows? && f.release) then {t} else {})
    {
      if f.reserve {
        db.broken := db.broken + {t};
        return PopError;
      }
      db.permits := db.permits + [Put(Fresh(), Some(t), Some(()))];
      var p: Permit := |db.permits|;
      if f.claim {
        db.broken := db.broken + {t};
        return PopError;
      }
      var least := FindLeast(db.rows, Some(t), q);
      if least.None? {
        if f.release {
          db.broken := db.broken + {t};
        } else {
          db.permits := db.permits[p - 1 := DropSlot(db.permits[p - 1], Some(t))];
        }
        return NoRows;
      }
      var row := Seen(db.rows[least.value], Some(t)).value;
      LeastIsMostUrgent(db.rows, Some(t), q, least.value);
      db.rows := db.rows[least.value := ClaimSlot(db.rows[least.value], Some(t), p)];
      r := Popped(p, if row.address.Some? then row.address.value else "", row.typ, row.item);
    }

    /** The deferred closer of a pop that opened its own transaction.  A failing commit goes unnoticed. */
    method CloseOwn(t: TxId, r: PopResult, commitFails: bool)
      requires Valid() && tx.None?
      modifies db
      ensures Valid() && db.nextTx == old(db.nextTx)
      ensures var commit := r.Popped? && !commitFails;
              && db.rows == SettleAll(old(db.rows), t, commit)
              && db.permits == SettleAll(old(db.permits), t, commit)
              && db.failures == SettleAll(old(db.failures), t, commit)
              && db.broken == old(db.broken) - {t}
    {
      if !r.Popped? {
        db.EndTx(t, false);
        return;
      }
      db.EndTx(t, !commitFails);
    }

    /** The part of a pop that opens its own transaction. */
    method PopInOwn(q: Query, f: PopFaults) returns (r: PopResult)
      requires Valid() && tx.None? && q.types != []
      modifies db
      ensures Valid() && db.failures == old(db.failures)
      ensures PopDoes(r, None, f, Some(old(db.nextTx)), q, old(db.rows), db.rows, old(db.permits), db.permits)
      ensures r.PopError? <==> f.begin || f.reserve || f.claim
      ensures db.broken == old(db.broken)
    {
      if f.begin {
        return PopError;
      }
      var t := db.nextTx;
      db.nextTx := t + 1;
      r := ReserveAndClaim(t, q, f);
      SettleClaim(r, f, t, q, old(db.rows), db.rows, old(db.permits), db.permits);
      CloseOwn(t, r, f.commit);
      SettleNothing(old(db.failures), t, r.Popped? && !f.commit);
    }

    /** The pop finds something to try for. */
    predicate ReachesClaim(q: Query)
      reads this, db
    {
      q.types != [] && CountVisible(db.rows, tx, q) != 0
    }

    method QueuePop(name: string, maxPriority: UInt64, types: seq<Code>, f: PopFaults) returns (r: PopResult)
      requires Valid()
      modifies db
      ensures Valid() && db.failures == old(db.failures)
      ensures PopDoes(r, tx, f, old(PopSession()), Query(name, ToInt64(maxPriority), types),
                      old(db.rows), db.rows, old(db.permits), db.permits)
      ensures r.Popped? ==> PoppedMostUrgent(r, old(db.rows), old(PopSession()), name, ToInt64(maxPriority), types)
      ensures r.NoRows? ==> forall i: nat :: !Free(old(db.rows), old(PopSession()), name, ToInt64(maxPriority), types, i)
      ensures r.PopError? ==> f.count || old(InBrokenTx()) || f.begin || f.reserve || f.claim
      ensures db.broken == old(db.broken)
                           + Breaks(r.PopError? || (r.NoRows? && f.release && old(ReachesClaim(Query(name, ToInt64(maxPriority), types)))))
    {
      r := PopStatements(Query(name, ToInt64(maxPriority), types), f);
      PopMeans(r, tx, f, old(PopSession()), Query(name, ToInt64(maxPriority), types), old(db.rows), db.rows, old(db.permits), db.permits);
    }

    method PopStatements(q: Query, f: PopFaults) returns (r: PopResult)
      requires Valid()
      modifies db
      ensures Valid() && db.failures == old(db.failures)
      ensures PopDoes(r, tx, f, old(PopSession()), q, old(db.rows), db.rows, old(db.permits), db.permits)
      ensures r.PopError? ==> f.count || old(InBrokenTx()) || f.begin || f.reserve || f.claim
      ensures db.broken == old(db.broken) + Breaks(r.PopError? || (r.NoRows? && f.release && old(ReachesClaim(q))))
    {
      if q.types == [] {
        return NoRows;
      }
      if f.count || InBrokenTx() {
        StatementFails();
        return PopError;
      }
      if CountVisible(db.rows, tx, q) == 0 {
        NothingVisible(db.rows, tx, PopSession(), db.nextTx, q);
        return NoRows;
      }
      if tx.None? {
        r := PopInOwn(q, f);
        return;
      }
      r := ReserveAndClaim(tx.value, q, f);
    }

    method QueueDelete(p: Permit, rowFails: bool, permitFails: bool) returns (err: Option<Error>)
      requires Valid() && CanDelete(db.rows, tx, p) && (1 <= p <= |db.permits| ==> CanDrop(db.permits[p - 1], tx))
      modifies this`pending, db`rows, db`permits, db`broken, notifier
      ensures Valid() && err == (if rowFails || permitFails || old(InBrokenTx()) then Some(DbError) else None)
      ensures db.rows == if rowFails || old(InBrokenTx()) then old(db.rows) else DeleteClaimed(old(db.rows), tx, p)
      ensures db.permits == if err.Some? then old(db.permits) else DropPermitRow(old(db.permits), tx, p)
      ensures !rowFails && !old(InBrokenTx()) ==> RowsWithout(old(db.rows), db.rows, tx, p)
      ensures err.None? && 1 <= p <= |old(db.permits)| ==>
                Seen(db.permits[p - 1], tx).None? && db.permits == old(db.permits)[p - 1 := db.permits[p - 1]]
      ensures pending == old(pending) + (if err.None? && tx.Some? then [Note("messages", 1)] else [])
      ensures notifier != null ==> notifier.sent == old(notifier.sent) + (if err.None? && tx.None? then [Note("messages", 1)] else [])
      ensures db.broken == old(db.broken) + Breaks(err.Some?)
    {
      if rowFails || InBrokenTx() {
        StatementFails();
        return Some(DbError);
      }
      db.rows := DeleteClaimed(db.rows, tx, p);
      if permitFails {
        StatementFails();
        return Some(DbError);
      }
      db.permits := DropPermitRow(db.permits, tx, p);
      QueueNotify(READY);
      err := None;
    }

    method IsQueueAddressComplete(a: string, failureFails: bool, countFails: bool) returns (done: bool, err: Option<Error>)
      requires Valid()
      modifies db`broken
      ensures Valid() && (err == Some(DbError) ==> !done)
      ensures !failureFails && !countFails && !old(InBrokenTx()) ==>
                && (done && err.None? <==>
                      && (forall i: nat | i < |db.rows| && Seen(db.rows[i], tx).Some? :: Seen(db.rows[i], tx).value.address != Some(a))
                      && (forall i: nat | i < |db.failures| && Seen(db.failures[i], tx).Some? :: Seen(db.failures[i], tx).value.address != a))
                && (err.Some? <==> exists i: nat :: i < |db.failures| && Seen(db.failures[i], tx).Some? && Seen(db.failures[i], tx).value.address == a)
                && (err.Some? ==> done && err.value.AddressFailed?
                                  && exists i: nat :: i < |db.failures| && Seen(db.failures[i], tx) == Some(Failure(a, err.value.message)))
      ensures failureFails || old(InBrokenTx()) ==> err == Some(DbError)
      ensures db.broken == old(db.broken) + Breaks(err == Some(DbError))
    {
      if failureFails || InBrokenTx() {
        StatementFails();
        return false, Some(DbError);
      }
      var failure := FirstFailure(db.failures, tx, a);
      if failure.Some? {
        return true, Some(AddressFailed(failure.value));
      }
      if countFails {
        StatementFails();
        return false, Some(DbError);
      }
      return CountAddress(db.rows, tx, a) == 0, None;
    }

    method IsQueueAddressInProgress(a: string, fails: bool) returns (r: bool, err: Option<Error>)
      requires Valid()
      modifies db`broken
      ensures Valid() && err == (if fails || old(InBrokenTx()) then Some(DbError) else None)
      ensures r <==> err.None? && exists i: nat :: i < |db.rows| && Seen(db.rows[i], tx).Some? && Seen(db.rows[i], tx).value.address == Some(a)
      ensures db.broken == old(db.broken) + Breaks(err.Some?)
    {
      if fails || InBrokenTx() {
        StatementFails();
        return false, Some(DbError);
      }
      return CountAddress(db.rows, tx, a) > 0, None;
    }

    method QueueAddressedComplete(a: string, failure: Option<string>, clearFails: bool, insertFails: bool) returns (err: Option<Error>)
      requires Valid() && CanClear(db.failures, tx, a)
      modifies db`failures, db`broken
      ensures Valid()
      ensures err == if clearFails || old(InBrokenTx()) || (failure.Some? && insertFails) then Some(DbError) else None
      ensures db.failures == if clearFails || old(InBrokenTx()) then old(db.failures)
                             else RecordCompletion(old(db.failures), tx, a, if insertFails then None else failure)
      ensures !clearFails && !old(InBrokenTx()) ==> OnlyFailure(db.failures, tx, a, if insertFails then None else failure)
      ensures db.broken == old(db.broken) + Breaks(err.Some?)
    {
      if clearFails || InBrokenTx() {
        StatementFails();
        return Some(DbError);
      }
      RecordOwn(db.failures, tx, a, if insertFails then None else failure);
      db.failures := ClearFailures(db.failures, tx, a);
      if failure.None? {
        return None;
      }
      if insertFails {
        StatementFails();
        return Some(DbError);
      }
      db.failures := db.failures + [Put(Fresh(), tx, Some(Failure(a, failure.value)))];
      err := None;
    }
  }

  /** Begin, push, commit without a fault: every session sees the row, and one notification goes out. */
  method PushInTransaction(s: PgStore, name: string, priority: UInt64, workType: Code, work: BenchWork) returns (out: Option<Error>)
    requires s.Valid() && s.tx.None? && s.notifier != null
    modifies s.db, s.notifier
    ensures s.Valid() && out.None? && s.db.permits == old(s.db.permits) && s.db.failures == old(s.db.failures)
    ensures var row := Row(name, ToInt64(priority), 0, workType, None, work); var k := Cell(Some(row), NoWrite);
            s.db.rows == old(s.db.rows) + [k] && forall u: Option<TxId> :: Seen(k, u) == Some(row)
    ensures s.notifier.sent == old(s.notifier.sent) + [Note("messages", 1)] && s.db.broken == old(s.db.broken)
  {
    var view, err := s.BeginTransactionQueue(false);
    ghost var t := view.tx.value;
    err := view.QueuePush(name, priority, workType, work, false);
    out := view.CompleteTransaction(err, false);
    PushSettles(old(s.db.rows), t, Row(name, ToInt64(priority), 0, workType, None, work));
    SettleNothing(old(s.db.permits), t, true);
    SettleNothing(old(s.db.failures), t, true);
  }

  lemma PushSettles(rows: Rows, t: TxId, row: Row)
    requires Untouched(rows, t)
    ensures SettleAll(rows + [Put(Fresh(), Some(t), Some(row))], t, true) == rows + [Cell(Some(row), NoWrite)]
  {
  }

  /** Completing a transaction twice is the same as once: nothing is settled, discarded or sent again. */
  method CompleteTwice(s: PgStore, err: Option<Error>, commitFails: bool, again: Option<Error>, againFails: bool)
    returns (first: Option<Error>, second: Option<Error>)
    requires s.Valid() && s.tx.Some?
    modifies s, s.db, s.notifier
    ensures var t := old(s.tx).value; var commit := err.None? && !commitFails && t !in old(s.db.broken);
            && s.Valid() && s.tx.None? && s.pending == [] && second == again
            && first == (if err.Some? then err else if commit then None else Some(CommitError))
            && s.db.rows == SettleAll(old(s.db.rows), t, commit)
            && s.db.permits == SettleAll(old(s.db.permits), t, commit)
            && s.db.failures == SettleAll(old(s.db.failures), t, commit)
            && (s.notifier != null ==> s.notifier.sent == old(s.notifier.sent) + (if commit then old(s.pending) else []))
  {
    first := s.CompleteTransaction(err, commitFails);
    second := s.CompleteTransaction(again, againFails);
  }
}
