/**
 The tables of schema.sql and the SQL statements that store.go sends, each as one atomic
 function on values.  `queue` and `queue_permits` have BIGSERIAL keys that only grow, so a
 table is a sequence of slots: queue row `i` has id i + 1, permit `p` sits in slot p - 1.
 A slot stays behind, empty, when its row is deleted or its insert rolled back.
 */
module Tables {
  import opened Options
  import opened Mvcc
  import opened Jobs

  type Permit = nat

  /** Permit 0 marks an unclaimed row. */
  datatype Row = Row(name: string, priority: int, permit: Permit, typ: Code, address: Option<string>, item: BenchWork)

  datatype Query = Query(name: string, maxPriority: int, types: seq<Code>)

  type Rows = seq<Cell<Row>>
  type PermitTable = seq<Cell<()>>

  predicate Matches(q: Query, r: Row) {
    r.name == q.name && r.priority <= q.maxPriority && r.permit == 0 && r.typ in q.types
  }

  /** The rows the precount of QueuePop counts: locked ones included. */
  predicate Visible(c: Cell<Row>, s: Option<TxId>, q: Query) {
    Seen(c, s).Some? && Matches(q, Seen(c, s).value)
  }

  /** The rows FOR UPDATE SKIP LOCKED may return. */
  predicate Eligible(c: Cell<Row>, s: Option<TxId>, q: Query) {
    Visible(c, s, q) && !LockedFor(c, s)
  }

  function PriorityOf(c: Cell<Row>, s: Option<TxId>): int {
    if Seen(c, s).Some? then Seen(c, s).value.priority else 0
  }

  /** ORDER BY priority ASC, id ASC. */
  predicate Ahead(rows: Rows, s: Option<TxId>, i: nat, j: nat)
    requires i < |rows| && j < |rows|
  {
    PriorityOf(rows[i], s) < PriorityOf(rows[j], s)
    || (PriorityOf(rows[i], s) == PriorityOf(rows[j], s) && i <= j)
  }

  ghost predicate IsLeast(rows: Rows, s: Option<TxId>, q: Query, i: nat) {
    && i < |rows|
    && Eligible(rows[i], s, q)
    && forall j: nat | j < |rows| && Eligible(rows[j], s, q) :: Ahead(rows, s, i, j)
  }

  ghost predicate NoneEligible(rows: Rows, s: Option<TxId>, q: Query) {
    forall j: nat | j < |rows| :: !Eligible(rows[j], s, q)
  }

  /** The sub-select of the claim: the least (priority, id) among visible, unclaimed, unlocked, matching rows. */
  function FindLeast(rows: Rows, s: Option<TxId>, q: Query): (r: Option<nat>)
    ensures r.Some? ==> IsLeast(rows, s, q, r.value)
    ensures r.None? ==> NoneEligible(rows, s, q)
  {
    FindLeastIn(rows, s, q, |rows|)
  }

  function FindLeastIn(rows: Rows, s: Option<TxId>, q: Query, n: nat): (r: Option<nat>)
    requires n <= |rows|
    ensures r.Some? ==> r.value < n && Eligible(rows[r.value], s, q)
    ensures r.Some? ==> forall j: nat | j < n && Eligible(rows[j], s, q) :: Ahead(rows, s, r.value, j)
    ensures r.None? ==> forall j: nat | j < n :: !Eligible(rows[j], s, q)
  {
    if n == 0 then None
    else
      var best := FindLeastIn(rows, s, q, n - 1);
      if !Eligible(rows[n - 1], s, q) then best
      else if best.None? || !Ahead(rows, s, best.value, n - 1) then Some(n - 1)
      else best
  }

  /** What the claim's WHERE clause asks of a row, read off the row's columns: name, priority, permit, type, and no lock. */
  ghost predicate Free(rows: Rows, s: Option<TxId>, name: string, maxPriority: int, types: seq<Code>, i: nat) {
    && i < |rows| && Seen(rows[i], s).Some?
    && (rows[i].pend.NoWrite? || Some(rows[i].pend.tx) == s)
    && var r := Seen(rows[i], s).value;
    r.name == name && r.priority <= maxPriority && r.permit == 0 && exists k: nat :: k < |types| && r.typ == types[k]
  }

  /** Row i is the free row with the smallest priority number, and of several such rows the one with the smallest id. */
  ghost predicate MostUrgent(rows: Rows, s: Option<TxId>, name: string, maxPriority: int, types: seq<Code>, i: nat) {
    && Free(rows, s, name, maxPriority, types, i)
    && forall j: nat | Free(rows, s, name, maxPriority, types, j) ::
         && Seen(rows[i], s).value.priority <= Seen(rows[j], s).value.priority
         && (Seen(rows[i], s).value.priority == Seen(rows[j], s).value.priority ==> i <= j)
  }

  lemma FreeIffEligible(rows: Rows, s: Option<TxId>, q: Query, i: nat)
    requires i < |rows|
    ensures Free(rows, s, q.name, q.maxPriority, q.types, i) <==> Eligible(rows[i], s, q)
  {
  }

  /** The sub-select finds a row if and only if that row is the most urgent free one. */
  lemma LeastIsMostUrgent(rows: Rows, s: Option<TxId>, q: Query, i: nat)
    ensures FindLeast(rows, s, q) == Some(i) <==> MostUrgent(rows, s, q.name, q.maxPriority, q.types, i)
  {
    forall j: nat | j < |rows| ensures Free(rows, s, q.name, q.maxPriority, q.types, j) <==> Eligible(rows[j], s, q) {
      FreeIffEligible(rows, s, q, j);
    }
    var r := FindLeast(rows, s, q);
    if r.Some? { LeastIsFirst(rows, s, q, r.value); }
    if r.Some? && MostUrgent(rows, s, q.name, q.maxPriority, q.types, i) {
      assert Free(rows, s, q.name, q.maxPriority, q.types, r.value);
      assert Free(rows, s, q.name, q.maxPriority, q.types, i);
    }
  }

  lemma LeastIsFirst(rows: Rows, s: Option<TxId>, q: Query, i: nat)
    requires IsLeast(rows, s, q, i)
    ensures MostUrgent(rows, s, q.name, q.maxPriority, q.types, i)
  {
    FreeIffEligible(rows, s, q, i);
    forall j: nat | Free(rows, s, q.name, q.maxPriority, q.types, j)
      ensures Seen(rows[i], s).value.priority <= Seen(rows[j], s).value.priority
      ensures Seen(rows[i], s).value.priority == Seen(rows[j], s).value.priority ==> i <= j
    {
      FreeIffEligible(rows, s, q, j);
      assert Ahead(rows, s, i, j);
    }
  }

  function CountVisible(rows: Rows, s: Option<TxId>, q: Query): (n: nat)
    ensures n == 0 <==> forall j: nat | j < |rows| :: !Visible(rows[j], s, q)
  {
    if |rows| == 0 then 0
    else CountVisible(rows[..|rows| - 1], s, q) + (if Visible(rows[|rows| - 1], s, q) then 1 else 0)
  }

  /** The slot currently shows a row claimed under `p`. */
  predicate ShowsPermit(c: Cell<Row>, s: Option<TxId>, p: Permit) {
    Seen(c, s).Some? && Seen(c, s).value.permit == p
  }

  /** DELETE FROM queue WHERE permit = p waits while a matching row is locked by someone else. */
  ghost predicate CanDelete(rows: Rows, s: Option<TxId>, p: Permit) {
    forall i: nat | i < |rows| && ShowsPermit(rows[i], s, p) :: !LockedFor(rows[i], s)
  }

  function DeleteSlot(c: Cell<Row>, s: Option<TxId>, p: Permit): Cell<Row> {
    if ShowsPermit(c, s, p) && !LockedFor(c, s) then Put(c, s, None) else c
  }

  function DeleteClaimed(rows: Rows, s: Option<TxId>, p: Permit): (r: Rows)
    ensures |r| == |rows|
    ensures forall i | 0 <= i < |rows| :: r[i] == DeleteSlot(rows[i], s, p)
  {
    seq(|rows|, i requires 0 <= i < |rows| => DeleteSlot(rows[i], s, p))
  }

  function ClaimSlot(c: Cell<Row>, s: Option<TxId>, p: Permit): Cell<Row>
    requires Seen(c, s).Some? && !LockedFor(c, s)
  {
    Put(c, s, Some(Seen(c, s).value.(permit := p)))
  }

  /** DELETE FROM queue_permits WHERE id = p, on the slot of p: touches nothing when the row is not there. */
  function DropSlot(k: Cell<()>, s: Option<TxId>): Cell<()> {
    if Seen(k, s).Some? && !LockedFor(k, s) then Put(k, s, None) else k
  }

  /** ... and waits while a visible row is locked by someone else. */
  predicate CanDrop(k: Cell<()>, s: Option<TxId>) {
    Seen(k, s).Some? ==> !LockedFor(k, s)
  }
}
