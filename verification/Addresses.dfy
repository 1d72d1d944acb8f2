/**
 Addressed work: the UNIQUE address column, the queue_failure table, and the two questions
 IsQueueAddressComplete and IsQueueAddressInProgress ask of them.
 */
module Addresses {
  import opened Options
  import opened Mvcc
  import opened Tables

  datatype Failure = Failure(address: string, message: string)

  type Failures = seq<Cell<Failure>>

  predicate HasAddress(c: Cell<Row>, s: Option<TxId>, a: string) {
    Seen(c, s).Some? && Seen(c, s).value.address == Some(a)
  }

  predicate FailsAt(f: Cell<Failure>, s: Option<TxId>, a: string) {
    Seen(f, s).Some? && Seen(f, s).value.address == a
  }

  /** SELECT COUNT(*) FROM queue WHERE address = a. */
  function CountAddress(rows: Rows, s: Option<TxId>, a: string): (n: nat)
    ensures n == 0 <==> forall i: nat | i < |rows| :: !HasAddress(rows[i], s, a)
  {
    if rows == [] then 0
    else CountAddress(rows[..|rows| - 1], s, a) + (if HasAddress(rows[|rows| - 1], s, a) then 1 else 0)
  }

  /** SELECT error FROM queue_failure WHERE address = a LIMIT 1. */
  function FirstFailure(fs: Failures, s: Option<TxId>, a: string): (r: Option<string>)
    ensures r.None? <==> forall i: nat | i < |fs| :: !FailsAt(fs[i], s, a)
    ensures r.Some? ==> exists i: nat :: i < |fs| && FailsAt(fs[i], s, a) && Seen(fs[i], s).value.message == r.value
  {
    if fs == [] then None
    else if FailsAt(fs[0], s, a) then Some(Seen(fs[0], s).value.message)
    else
      var r := FirstFailure(fs[1..], s, a);
      assert r.Some? ==> forall i: nat | i < |fs[1..]| :: fs[1..][i] == fs[i + 1];
      r
  }

  function ClearSlot(f: Cell<Failure>, s: Option<TxId>, a: string): Cell<Failure> {
    if FailsAt(f, s, a) && !LockedFor(f, s) then Put(f, s, None) else f
  }

  /** DELETE FROM queue_failure WHERE address = a. */
  function ClearFailures(fs: Failures, s: Option<TxId>, a: string): (r: Failures)
    ensures |r| == |fs| && forall i | 0 <= i < |fs| :: r[i] == ClearSlot(fs[i], s, a)
  {
    seq(|fs|, i requires 0 <= i < |fs| => ClearSlot(fs[i], s, a))
  }

  /** QueueAddressedComplete: clear, then record unless the runner succeeded. */
  function RecordCompletion(fs: Failures, s: Option<TxId>, a: string, failure: Option<string>): Failures {
    var cleared := ClearFailures(fs, s, a);
    if failure.None? then cleared else cleared + [Put(Fresh(), s, Some(Failure(a, failure.value)))]
  }

  /** The DELETE waits while a row it would remove is locked by someone else. */
  ghost predicate CanClear(fs: Failures, s: Option<TxId>, a: string) {
    forall i: nat | i < |fs| && FailsAt(fs[i], s, a) :: !LockedFor(fs[i], s)
  }

  /** Session `s` sees at most one failure row for `a`, and it carries the message `m`. */
  ghost predicate OnlyFailure(fs: Failures, s: Option<TxId>, a: string, m: Option<string>) {
    && (forall i: nat, j: nat | i < |fs| && j < |fs| && FailsAt(fs[i], s, a) && FailsAt(fs[j], s, a) :: i == j)
    && (forall i: nat | i < |fs| && FailsAt(fs[i], s, a) :: m == Some(Seen(fs[i], s).value.message))
    && (m.Some? ==> exists i: nat :: i < |fs| && FailsAt(fs[i], s, a))
  }

  lemma {:induction false} RecordOwn(fs: Failures, s: Option<TxId>, a: string, failure: Option<string>)
    requires CanClear(fs, s, a)
    ensures OnlyFailure(RecordCompletion(fs, s, a, failure), s, a, failure)
  {
    var n := RecordCompletion(fs, s, a, failure);
    assert forall i: nat | i < |fs| :: !FailsAt(n[i], s, a);
    if failure.Some? { assert FailsAt(n[|fs|], s, a); }
  }

  /** No open transaction other than the session's own has touched a row with the address. */
  ghost predicate AddressFree(rows: Rows, s: Option<TxId>, a: string) {
    forall i: nat, u: Option<TxId> | i < |rows| && LockedFor(rows[i], s) :: !HasAddress(rows[i], u, a)
  }
}
