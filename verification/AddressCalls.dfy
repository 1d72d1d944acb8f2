/**
 The store's calls as a caller of addressed work sees them: any number of open transactions,
 calls of all of them and of autocommit in any order, each with the statements of it that fail.
 A call runs when the locks it waits for are gone, and the next one after it.
 */
module AddressCalls {
  import opened Options
  import opened Mvcc
  import opened Jobs
  import opened Tables
  import opened Addresses

  /** `s` is the session of the call: a transaction, or None for autocommit. */
  datatype Call =
    | PushAddressed(s: Option<TxId>, a: string, row: Row, fails: bool)
    | PushPlain(s: Option<TxId>, row: Row, fails: bool)
    | Pop(s: Option<TxId>, q: Query, p: Permit)
    | Delete(s: Option<TxId>, p: Permit, rowFails: bool, permitFails: bool)
    | Completed(s: Option<TxId>, a: string, failure: Option<string>, clearFails: bool, insertFails: bool)
    | Ask(s: Option<TxId>, a: string)
    | Begin(t: TxId)
    | End(t: TxId, commit: bool)

  datatype Store = Store(rows: Rows, failures: Failures, open: set<TxId>, broken: set<TxId>)

  predicate InBroken(st: Store, s: Option<TxId>) {
    s.Some? && s.value in st.broken
  }

  predicate Duplicate(rows: Rows, s: Option<TxId>, a: string) {
    CountAddress(rows, s, a) > 0
  }

  /** A failing statement breaks the transaction it runs in. */
  function Fails(st: Store, s: Option<TxId>): Store {
    if s.Some? then st.(broken := st.broken + {s.value}) else st
  }

  /** What one call leaves behind.  A refused insert has still drawn an id; in a broken transaction nothing works but its end. */
  function Apply(st: Store, c: Call): Store {
    match c
    case Begin(t) => if t in st.open then st else st.(open := st.open + {t}, broken := st.broken - {t})
    case End(t, commit) =>
      if t !in st.open then st
      else
        var ok := commit && t !in st.broken;
        Store(SettleAll(st.rows, t, ok), SettleAll(st.failures, t, ok), st.open - {t}, st.broken - {t})
    case _ => if InBroken(st, c.s) then st else ApplyIn(st, c)
  }

  function ApplyIn(st: Store, c: Call): Store
    requires !c.Begin? && !c.End?
  {
    match c
    case PushAddressed(s, a, row, fails) =>
      if fails || Duplicate(st.rows, s, a) then Fails(st.(rows := st.rows + [Fresh()]), s)
      else st.(rows := st.rows + [Put(Fresh(), s, Some(row.(address := Some(a))))])
    case PushPlain(s, row, fails) =>
      if fails then Fails(st.(rows := st.rows + [Fresh()]), s)
      else st.(rows := st.rows + [Put(Fresh(), s, Some(row.(address := None)))])
    case Pop(s, q, p) =>
      (match FindLeast(st.rows, s, q)
       case None => st
       case Some(i) => st.(rows := st.rows[i := ClaimSlot(st.rows[i], s, p)]))
    case Delete(s, p, rowFails, permitFails) =>
      if rowFails then Fails(st, s)
      else
        var n := st.(rows := DeleteClaimed(st.rows, s, p));
        if permitFails then Fails(n, s) else n
    case Completed(s, a, failure, clearFails, insertFails) =>
      if clearFails then Fails(st, s)
      else if insertFails && failure.Some? then Fails(st.(failures := ClearFailures(st.failures, s, a)), s)
      else st.(failures := RecordCompletion(st.failures, s, a, failure))
    case Ask(_, _) => st
  }

  /** The session exists, and nothing the call waits for is locked. */
  ghost predicate Can(st: Store, c: Call) {
    match c
    case Begin(t) => t !in st.open
    case End(t, _) => t in st.open
    case _ =>
      && (c.s.Some? ==> c.s.value in st.open)
      && (c.PushAddressed? ==> AddressFree(st.rows, c.s, c.a))
      && (c.Delete? ==> CanDelete(st.rows, c.s, c.p))
      && (c.Completed? ==> CanClear(st.failures, c.s, c.a))
  }

  const EMPTY := Store([], [], {}, {})

  function After(calls: seq<Call>): Store {
    if calls == [] then EMPTY else Apply(After(calls[..|calls| - 1]), calls[|calls| - 1])
  }

  /** Each call runs when it can. */
  ghost predicate IsSequence(calls: seq<Call>) {
    calls == [] || (IsSequence(calls[..|calls| - 1]) && Can(After(calls[..|calls| - 1]), calls[|calls| - 1]))
  }

  // ----- what the caller is told

  datatype Reply = Done | Refused | Error | Nothing | Handed(work: BenchWork) | Status(complete: bool, failure: Option<string>)

  /** IsQueueAddressComplete: a persisted failure answers (true, error); otherwise the row decides. */
  function IsComplete(st: Store, s: Option<TxId>, a: string): Reply {
    if InBroken(st, s) then Error
    else
      var f := FirstFailure(st.failures, s, a);
      if f.Some? then Status(true, f) else Status(CountAddress(st.rows, s, a) == 0, None)
  }

  function ReplyTo(st: Store, c: Call): Reply {
    match c
    case Begin(t) => if t in st.open then Error else Done
    case End(t, commit) => if t !in st.open then Done else if commit && t in st.broken then Error else Done
    case _ => if InBroken(st, c.s) then Error else ReplyIn(st, c)
  }

  function ReplyIn(st: Store, c: Call): Reply
    requires !c.Begin? && !c.End?
  {
    match c
    case PushAddressed(s, a, _, fails) => if fails then Error else if Duplicate(st.rows, s, a) then Refused else Done
    case PushPlain(_, _, fails) => if fails then Error else Done
    case Pop(s, q, _) =>
      var i := FindLeast(st.rows, s, q);
      if i.Some? then Handed(Seen(st.rows[i.value], s).value.item) else Nothing
    case Delete(_, _, rowFails, permitFails) => if rowFails || permitFails then Error else Done
    case Completed(_, _, failure, clearFails, insertFails) =>
      if clearFails || (insertFails && failure.Some?) then Error else Done
    case Ask(s, a) => IsComplete(st, s, a)
  }

  // ----- pending writes belong to open transactions

  ghost predicate Owned<V>(cells: seq<Cell<V>>, open: set<TxId>) {
    forall i: nat | i < |cells| && cells[i].pend.Write? :: cells[i].pend.tx in open
  }

  ghost predicate StoreOk(st: Store) {
    Owned(st.rows, st.open) && Owned(st.failures, st.open) && st.broken <= st.open
  }

  lemma ApplyOwned(st: Store, c: Call)
    requires StoreOk(st) && Can(st, c)
    ensures StoreOk(Apply(st, c))
  {
  }

  // ----- one row per address, whoever looks

  predicate VersionHas(c: Cell<Row>, a: string) {
    || (c.base.Some? && c.base.value.address == Some(a))
    || (c.pend.Write? && c.pend.value.Some? && c.pend.value.value.address == Some(a))
  }

  ghost predicate UniqueAddress(rows: Rows, s: Option<TxId>) {
    forall i: nat, j: nat, a: string | i < |rows| && j < |rows| && HasAddress(rows[i], s, a) && HasAddress(rows[j], s, a) :: i == j
  }

  /** Two slots that both know an address are being written by one transaction. */
  predicate Allied(c: Cell<Row>, d: Cell<Row>) {
    c.pend.Write? && d.pend.Write? && c.pend.tx == d.pend.tx
  }

  ghost predicate SoleWriter(rows: Rows) {
    forall i: nat, j: nat, a: string | i < |rows| && j < |rows| && i != j && VersionHas(rows[i], a) && VersionHas(rows[j], a) :: Allied(rows[i], rows[j])
  }

  ghost predicate AddressesOk(rows: Rows) {
    SoleWriter(rows) && forall s: Option<TxId> :: UniqueAddress(rows, s)
  }

  lemma SeenIsVersion(c: Cell<Row>, s: Option<TxId>, a: string)
    requires HasAddress(c, s, a)
    ensures VersionHas(c, a)
  {
  }

  /** A slot that knows no address is added. */
  lemma PlainPushOk(rows: Rows, k: Cell<Row>)
    requires AddressesOk(rows) && forall a: string :: !VersionHas(k, a)
    ensures AddressesOk(rows + [k])
  {
    var n := rows + [k];
    forall s: Option<TxId> ensures UniqueAddress(n, s) {
      assert UniqueAddress(rows, s);
      assert forall a: string | HasAddress(k, s, a) :: VersionHas(k, a);
    }
  }

  /** Whoever else knows the address of a row being pushed is the pusher's own transaction. */
  lemma PushRivals(rows: Rows, s: Option<TxId>, a: string, i: nat)
    requires AddressFree(rows, s, a) && CountAddress(rows, s, a) == 0 && i < |rows| && VersionHas(rows[i], a)
    ensures s.Some? && rows[i].pend.Write? && rows[i].pend.tx == s.value && !HasAddress(rows[i], s, a)
  {
    var k := rows[i];
    var t := if k.pend.Write? then Some(k.pend.tx) else None;
    assert !HasAddress(k, s, a);
    assert LockedFor(k, s) ==> !HasAddress(k, None, a) && !HasAddress(k, t, a);
  }

  lemma PushOk(rows: Rows, s: Option<TxId>, a: string, row: Row)
    requires AddressesOk(rows) && AddressFree(rows, s, a) && CountAddress(rows, s, a) == 0 && row.address == Some(a)
    ensures AddressesOk(rows + [Put(Fresh(), s, Some(row))])
  {
    var k := Put(Fresh(), s, Some(row));
    var n := rows + [k];
    forall i: nat | i < |rows| && VersionHas(rows[i], a) ensures Allied(rows[i], k) {
      PushRivals(rows, s, a, i);
    }
    forall u: Option<TxId> ensures UniqueAddress(n, u) {
      assert UniqueAddress(rows, u);
      forall i: nat | i < |rows| && HasAddress(rows[i], u, a) ensures !HasAddress(k, u, a) {
        SeenIsVersion(rows[i], u, a);
        PushRivals(rows, s, a, i);
      }
    }
  }

  /** A slot is left alone or rewritten, by whoever holds it, without learning an address. */
  ghost predicate Forgets(c: Cell<Row>, d: Cell<Row>) {
    && (forall a: string | VersionHas(d, a) :: VersionHas(c, a))
    && (forall u: Option<TxId>, a: string | HasAddress(d, u, a) :: HasAddress(c, u, a))
    && (c.pend.Write? ==> d.pend.Write? && d.pend.tx == c.pend.tx)
  }

  lemma RewriteOk(rows: Rows, n: Rows)
    requires AddressesOk(rows) && |n| == |rows| && forall i: nat | i < |rows| :: Forgets(rows[i], n[i])
    ensures AddressesOk(n)
  {
    forall i: nat, j: nat, a: string | i < |n| && j < |n| && i != j && VersionHas(n[i], a) && VersionHas(n[j], a) ensures Allied(n[i], n[j]) {
      assert Forgets(rows[i], n[i]) && Forgets(rows[j], n[j]);
      assert Allied(rows[i], rows[j]);
    }
    forall s: Option<TxId> ensures UniqueAddress(n, s) {
      assert UniqueAddress(rows, s);
      forall i: nat, j: nat, a: string | i < |n| && j < |n| && HasAddress(n[i], s, a) && HasAddress(n[j], s, a) ensures i == j {
        assert Forgets(rows[i], n[i]) && Forgets(rows[j], n[j]);
      }
    }
  }

  lemma ClaimForgets(c: Cell<Row>, s: Option<TxId>, p: Permit)
    requires Seen(c, s).Some? && !LockedFor(c, s)
    ensures Forgets(c, ClaimSlot(c, s, p))
  {
  }

  lemma DeleteForgets(c: Cell<Row>, s: Option<TxId>, p: Permit)
    ensures Forgets(c, DeleteSlot(c, s, p))
  {
  }

  /** At the end of a transaction everybody else sees what it saw, or what was there before. */
  lemma SettleOk(rows: Rows, t: TxId, commit: bool)
    requires AddressesOk(rows)
    ensures AddressesOk(SettleAll(rows, t, commit))
  {
    var n := SettleAll(rows, t, commit);
    forall i: nat, j: nat, a: string | i < |n| && j < |n| && i != j && VersionHas(n[i], a) && VersionHas(n[j], a) ensures Allied(n[i], n[j]) {
      SettleVersion(rows[i], t, commit, a);
      SettleVersion(rows[j], t, commit, a);
      assert Allied(rows[i], rows[j]);
      SettleRivals(rows, t, commit, i, j, a);
    }
    forall s: Option<TxId> ensures UniqueAddress(n, s) {
      forall i: nat, j: nat, a: string | i < |n| && j < |n| && HasAddress(n[i], s, a) && HasAddress(n[j], s, a) ensures i == j {
        if i != j {
          SeenIsVersion(n[i], s, a);
          SeenIsVersion(n[j], s, a);
          SettleVersion(rows[i], t, commit, a);
          SettleVersion(rows[j], t, commit, a);
          assert Allied(rows[i], rows[j]);
          SettleSeen(rows, t, commit, s, i, j, a);
        }
      }
    }
  }

  lemma SettleVersion(c: Cell<Row>, t: TxId, commit: bool, a: string)
    requires VersionHas(Settle(c, t, commit), a)
    ensures VersionHas(c, a)
  {
  }

  lemma SettleRivals(rows: Rows, t: TxId, commit: bool, i: nat, j: nat, a: string)
    requires AddressesOk(rows) && i < |rows| && j < |rows| && i != j && Allied(rows[i], rows[j])
    requires VersionHas(Settle(rows[i], t, commit), a) && VersionHas(Settle(rows[j], t, commit), a)
    ensures Allied(Settle(rows[i], t, commit), Settle(rows[j], t, commit))
  {
    var u: Option<TxId> := if commit then Some(t) else None;
    assert UniqueAddress(rows, u);
    assert rows[i].pend.tx == t ==> HasAddress(rows[i], u, a) && HasAddress(rows[j], u, a);
  }

  lemma SettleSeen(rows: Rows, t: TxId, commit: bool, s: Option<TxId>, i: nat, j: nat, a: string)
    requires AddressesOk(rows) && i < |rows| && j < |rows| && Allied(rows[i], rows[j])
    requires HasAddress(Settle(rows[i], t, commit), s, a) && HasAddress(Settle(rows[j], t, commit), s, a)
    ensures i == j
  {
    var u: Option<TxId> := if rows[i].pend.tx == t then (if commit then Some(t) else None) else s;
    assert UniqueAddress(rows, u);
    assert HasAddress(rows[i], u, a) && HasAddress(rows[j], u, a);
  }

  lemma ApplyRows(st: Store, c: Call)
    requires AddressesOk(st.rows) && Can(st, c)
    ensures AddressesOk(Apply(st, c).rows)
  {
    match c
    case Begin(_) =>
    case End(t, commit) => if t in st.open { SettleOk(st.rows, t, commit && t !in st.broken); }
    case _ => if !InBroken(st, c.s) { ApplyRowsIn(st, c); }
  }

  lemma ApplyRowsIn(st: Store, c: Call)
    requires AddressesOk(st.rows) && Can(st, c) && !c.Begin? && !c.End?
    ensures AddressesOk(ApplyIn(st, c).rows)
  {
    match c
    case PushAddressed(s, a, row, fails) =>
      if fails || Duplicate(st.rows, s, a) { PlainPushOk(st.rows, Fresh()); } else { PushOk(st.rows, s, a, row.(address := Some(a))); }
    case PushPlain(s, row, fails) =>
      PlainPushOk(st.rows, if fails then Fresh() else Put(Fresh(), s, Some(row.(address := None))));
    case Pop(s, q, p) =>
      var i := FindLeast(st.rows, s, q);
      if i.Some? {
        ClaimForgets(st.rows[i.value], s, p);
        RewriteOk(st.rows, st.rows[i.value := ClaimSlot(st.rows[i.value], s, p)]);
      }
    case Delete(s, p, _, _) =>
      forall i: nat | i < |st.rows| ensures Forgets(st.rows[i], DeleteSlot(st.rows[i], s, p)) { DeleteForgets(st.rows[i], s, p); }
      RewriteOk(st.rows, DeleteClaimed(st.rows, s, p));
    case _ =>
  }

  /**
   After any sequence of calls, with any number of transactions open and any statements failing, every session
   sees at most one queue row per address.
   */
  lemma {:induction false} OneRowPerAddress(calls: seq<Call>, s: Option<TxId>)
    requires IsSequence(calls)
    ensures StoreOk(After(calls)) && AddressesOk(After(calls).rows) && UniqueAddress(After(calls).rows, s)
  {
    if calls != [] {
      var rest, last := calls[..|calls| - 1], calls[|calls| - 1];
      OneRowPerAddress(rest, s);
      ApplyOwned(After(rest), last);
      ApplyRows(After(rest), last);
    }
  }
}
