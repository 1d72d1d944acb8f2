/**
 One versioned slot of a Postgres table under READ COMMITTED.

 A slot holds the committed version (if any) and at most one uncommitted write, made by
 the one transaction that holds the row lock.  A transaction is identified by the client
 that opened it: a store never has two transactions open at once.
 */
module Mvcc {
  import opened Options

  type TxId = nat

  datatype Write<+V> = NoWrite | Write(tx: TxId, value: Option<V>)

  datatype Cell<+V> = Cell(base: Option<V>, pend: Write<V>)

  /** What a session reads: its own uncommitted write, else the committed version. `None` is autocommit. */
  function Seen<V>(c: Cell<V>, s: Option<TxId>): Option<V> {
    if c.pend.Write? && s == Some(c.pend.tx) then c.pend.value else c.base
  }

  /** Another transaction holds the row lock. */
  predicate LockedFor<V>(c: Cell<V>, s: Option<TxId>) {
    c.pend.Write? && s != Some(c.pend.tx)
  }

  /** Write a new version (`None` deletes): at once when autocommitted, else pending in the transaction. */
  function Put<V>(c: Cell<V>, s: Option<TxId>, v: Option<V>): Cell<V>
    requires !LockedFor(c, s)
  {
    match s
    case None => Cell(v, NoWrite)
    case Some(t) => Cell(c.base, Write(t, v))
  }

  /** A slot whose identifier has been drawn but holds nothing. */
  function Fresh<V>(): Cell<V> { Cell(None, NoWrite) }

  /** End of transaction `t`: its pending write becomes the base, or vanishes. */
  function Settle<V>(c: Cell<V>, t: TxId, commit: bool): Cell<V> {
    if c.pend.Write? && c.pend.tx == t
    then Cell(if commit then c.pend.value else c.base, NoWrite)
    else c
  }

  function SettleAll<V>(cs: seq<Cell<V>>, t: TxId, commit: bool): (r: seq<Cell<V>>)
    ensures |r| == |cs|
    ensures forall i | 0 <= i < |cs| :: r[i] == Settle(cs[i], t, commit)
  {
    seq(|cs|, i requires 0 <= i < |cs| => Settle(cs[i], t, commit))
  }

  /** Transaction `t` has no pending write among the slots. */
  ghost predicate Untouched<V>(cells: seq<Cell<V>>, t: TxId) {
    forall i: nat | i < |cells| && cells[i].pend.Write? :: cells[i].pend.tx != t
  }
}
