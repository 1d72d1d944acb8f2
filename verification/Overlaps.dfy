/**
 Completions of one address that overlap, statement by statement: each call sends a DELETE and an
 INSERT, and commits if it runs in a transaction.  What matters for another call's row is whether
 a DELETE runs after that row has become visible.
 */
module Overlaps {
  import opened Options
  import opened Mvcc
  import opened Addresses

  /** The statements of the failing completion number `w`. */
  datatype Stmt = Clear(w: nat) | Insert(w: nat) | Commit(w: nat)

  /** The calls in `tx` run in a transaction of their own, the others in autocommit. */
  function SessionOf(tx: set<nat>, w: nat): Option<TxId> { if w in tx then Some(w) else None }

  function RowOf(a: string, m: seq<string>, w: nat): Failure { Failure(a, if w < |m| then m[w] else "") }

  function Effect(fs: Failures, a: string, m: seq<string>, tx: set<nat>, st: Stmt): Failures {
    match st
    case Clear(w) => ClearFailures(fs, SessionOf(tx, w), a)
    case Insert(w) => fs + [Put(Fresh(), SessionOf(tx, w), Some(RowOf(a, m, w)))]
    case Commit(w) => SettleAll(fs, w, true)
  }

  function Execute(fs: Failures, a: string, m: seq<string>, tx: set<nat>, o: seq<Stmt>, n: nat): Failures
    requires n <= |o|
  {
    if n == 0 then fs else Effect(Execute(fs, a, m, tx, o, n - 1), a, m, tx, o[n - 1])
  }

  // ----- which orders of statements are possible

  /** Each call in its own order, once, and to its end. */
  ghost predicate WellFormed(o: seq<Stmt>, tx: set<nat>) {
    && (forall i: nat, j: nat | i < j < |o| :: Differ(o, i, j))
    && (forall j: nat | j < |o| :: InPlace(o, tx, j))
  }

  predicate Differ(o: seq<Stmt>, i: nat, j: nat)
    requires i < |o| && j < |o|
  {
    o[i] != o[j]
  }

  predicate InPlace(o: seq<Stmt>, tx: set<nat>, j: nat)
    requires j < |o|
  {
    match o[j]
    case Clear(w) => Insert(w) in o && (w in tx ==> Commit(w) in o)
    case Insert(w) => Clear(w) in o[..j]
    case Commit(w) => w in tx && Insert(w) in o[..j]
  }

  lemma SamePlace(o: seq<Stmt>, tx: set<nat>, i: nat, j: nat)
    requires WellFormed(o, tx) && i < |o| && j < |o| && o[i] == o[j]
    ensures i == j
  {
    assert i < j ==> Differ(o, i, j);
    assert j < i ==> Differ(o, j, i);
  }

  /** Every DELETE runs when the rows it removes are not locked. */
  ghost predicate Possible(fs: Failures, a: string, m: seq<string>, tx: set<nat>, o: seq<Stmt>) {
    WellFormed(o, tx) && forall j: nat | j < |o| :: Unblocked(fs, a, m, tx, o, j)
  }

  ghost predicate Unblocked(fs: Failures, a: string, m: seq<string>, tx: set<nat>, o: seq<Stmt>, j: nat)
    requires j < |o|
  {
    o[j].Clear? ==> CanClear(Execute(fs, a, m, tx, o, j), SessionOf(tx, o[j].w), a)
  }

  ghost predicate NothingPending(fs: Failures) {
    forall i: nat | i < |fs| :: fs[i].pend.NoWrite?
  }

  /** The statement that makes the row of `w` visible. */
  function Publish(tx: set<nat>, w: nat): Stmt { if w in tx then Commit(w) else Insert(w) }

  /** A DELETE between positions lo and n. */
  ghost predicate ClearedSince(o: seq<Stmt>, lo: int, n: nat)
    requires n <= |o|
  {
    exists j: nat :: lo < j < n && o[j].Clear?
  }

  // ----- the fate of one row

  /** A visible row before statement n: there, being deleted by an open transaction, or gone. */
  ghost predicate Visible(k: Cell<Failure>, f: Failure, o: seq<Stmt>, tx: set<nat>, n: nat, cleared: bool)
    requires n <= |o|
  {
    if !cleared then k == Cell(Some(f), NoWrite)
    else
      || k == Fresh()
      || (k.pend.Write? && k == Cell(Some(f), Write(k.pend.tx, None)) && k.pend.tx in tx
          && Clear(k.pend.tx) in o[..n] && Commit(k.pend.tx) !in o[..n])
  }

  function EffectOn(k: Cell<Failure>, a: string, tx: set<nat>, st: Stmt): Cell<Failure> {
    match st
    case Clear(w) => ClearSlot(k, SessionOf(tx, w), a)
    case Insert(_) => k
    case Commit(w) => Settle(k, w, true)
  }

  lemma SlotByItself(fs: Failures, a: string, m: seq<string>, tx: set<nat>, st: Stmt, i: nat)
    requires i < |fs|
    ensures var n := Effect(fs, a, m, tx, st); i < |n| && n[i] == EffectOn(fs[i], a, tx, st)
  {
  }

  lemma PrefixGrows(o: seq<Stmt>, n: nat)
    requires n < |o|
    ensures o[..n + 1] == o[..n] + [o[n]]
  {
  }

  /** A call's DELETE comes once, and before its commit. */
  predicate FirstOfCall(o: seq<Stmt>, n: nat)
    requires n < |o|
  {
    o[n].Clear? ==> Clear(o[n].w) !in o[..n] && Commit(o[n].w) !in o[..n]
  }

  /** Statement n finds nothing in its way and is not out of turn. */
  ghost predicate InTurn(fs: Failures, a: string, m: seq<string>, tx: set<nat>, o: seq<Stmt>, n: nat)
    requires n < |o|
  {
    FirstOfCall(o, n) && Unblocked(fs, a, m, tx, o, n)
  }

  lemma ClearFirst(o: seq<Stmt>, tx: set<nat>, j: nat) returns (h: nat)
    requires j < |o| && WellFormed(o, tx) && o[j].Commit?
    ensures h < j && o[h] == Clear(o[j].w)
  {
    var i := InsertPlace(o, tx, j);
    h := ClearPlace(o, tx, i);
  }

  lemma EachInTurn(fs: Failures, a: string, m: seq<string>, tx: set<nat>, o: seq<Stmt>, n: nat)
    requires Possible(fs, a, m, tx, o) && n < |o|
    ensures InTurn(fs, a, m, tx, o, n)
  {
    assert Unblocked(fs, a, m, tx, o, n);
    if o[n].Clear? {
      forall j: nat | j < n ensures o[j] != o[n] && o[j] != Commit(o[n].w) {
        assert Differ(o, j, n);
        if o[j].Commit? {
          var h := ClearFirst(o, tx, j);
          assert Differ(o, h, n);
        }
      }
    }
    assert forall j: nat | j < n :: o[..n][j] == o[j];
  }

  /** One statement on a visible row. */
  lemma VisibleStep(k: Cell<Failure>, f: Failure, o: seq<Stmt>, tx: set<nat>, n: nat, cleared: bool, a: string)
    requires n < |o| && FirstOfCall(o, n) && f.address == a && Visible(k, f, o, tx, n, cleared)
    requires o[n].Clear? && FailsAt(k, SessionOf(tx, o[n].w), a) ==> !LockedFor(k, SessionOf(tx, o[n].w))
    ensures Visible(EffectOn(k, a, tx, o[n]), f, o, tx, n + 1, cleared || o[n].Clear?)
  {
    PrefixGrows(o, n);
  }

  lemma RowStep(fs: Failures, a: string, m: seq<string>, tx: set<nat>, o: seq<Stmt>, i: nat, f: Failure, n: nat, cleared: bool)
    requires n < |o| && InTurn(fs, a, m, tx, o, n) && f.address == a
    requires i < |Execute(fs, a, m, tx, o, n)| && Visible(Execute(fs, a, m, tx, o, n)[i], f, o, tx, n, cleared)
    ensures i < |Execute(fs, a, m, tx, o, n + 1)| && Visible(Execute(fs, a, m, tx, o, n + 1)[i], f, o, tx, n + 1, cleared || o[n].Clear?)
  {
    var before := Execute(fs, a, m, tx, o, n);
    SlotByItself(before, a, m, tx, o[n], i);
    VisibleStep(before[i], f, o, tx, n, cleared, a);
  }

  /** From the moment a row is visible, at statement lo, up to statement n. */
  lemma {:induction false} VisibleRow(fs: Failures, a: string, m: seq<string>, tx: set<nat>, o: seq<Stmt>, i: nat, f: Failure, lo: nat, n: nat)
    requires lo <= n <= |o| && f.address == a && forall j: nat | j < |o| :: InTurn(fs, a, m, tx, o, j)
    requires i < |Execute(fs, a, m, tx, o, lo)| && Execute(fs, a, m, tx, o, lo)[i] == Cell(Some(f), NoWrite)
    ensures i < |Execute(fs, a, m, tx, o, n)| && Visible(Execute(fs, a, m, tx, o, n)[i], f, o, tx, n, ClearedSince(o, lo - 1, n))
  {
    if lo == n {
      assert !ClearedSince(o, lo - 1, n);
    } else {
      VisibleRow(fs, a, m, tx, o, i, f, lo, n - 1);
      assert InTurn(fs, a, m, tx, o, n - 1);
      RowStep(fs, a, m, tx, o, i, f, n - 1, ClearedSince(o, lo - 1, n - 1));
      ClearedGrows(o, lo - 1, n - 1);
    }
  }

  lemma ClearedGrows(o: seq<Stmt>, lo: int, n: nat)
    requires n < |o| && lo < n
    ensures ClearedSince(o, lo, n + 1) <==> ClearedSince(o, lo, n) || o[n].Clear?
  {
    if ClearedSince(o, lo, n) {
      var j: nat :| lo < j < n && o[j].Clear?;
      assert lo < j < n + 1;
    }
  }

  /** At the end every transaction has committed, so the row is there exactly if no DELETE ran since it became visible. */
  lemma VisibleAtEnd(fs: Failures, a: string, m: seq<string>, tx: set<nat>, o: seq<Stmt>, i: nat, f: Failure, lo: nat)
    requires Possible(fs, a, m, tx, o) && lo <= |o| && f.address == a
    requires i < |Execute(fs, a, m, tx, o, lo)| && Execute(fs, a, m, tx, o, lo)[i] == Cell(Some(f), NoWrite)
    ensures i < |Execute(fs, a, m, tx, o, |o|)|
    ensures FailsAt(Execute(fs, a, m, tx, o, |o|)[i], None, a) <==> !ClearedSince(o, lo - 1, |o|)
  {
    forall j: nat | j < |o| ensures InTurn(fs, a, m, tx, o, j) { EachInTurn(fs, a, m, tx, o, j); }
    VisibleRow(fs, a, m, tx, o, i, f, lo, |o|);
    AllCommitted(o, tx);
    assert o[..|o|] == o;
  }

  lemma AllCommitted(o: seq<Stmt>, tx: set<nat>)
    requires WellFormed(o, tx)
    ensures forall x: nat | x in tx && Clear(x) in o :: Commit(x) in o
  {
    forall x: nat | x in tx && Clear(x) in o ensures Commit(x) in o {
      var j: nat :| j < |o| && o[j] == Clear(x);
      assert InPlace(o, tx, j);
    }
  }

  // ----- a row before it is visible

  lemma {:induction false} HiddenRow(fs: Failures, a: string, m: seq<string>, tx: set<nat>, o: seq<Stmt>, i: nat, f: Failure, w: nat, lo: nat, n: nat)
    requires lo <= n <= |o| && w in tx && forall j: nat | lo <= j < n :: o[j] != Commit(w) && o[j] != Clear(w)
    requires i < |Execute(fs, a, m, tx, o, lo)| && Execute(fs, a, m, tx, o, lo)[i] == Cell(None, Write(w, Some(f)))
    ensures i < |Execute(fs, a, m, tx, o, n)| && Execute(fs, a, m, tx, o, n)[i] == Cell(None, Write(w, Some(f)))
  {
    if lo < n {
      HiddenRow(fs, a, m, tx, o, i, f, w, lo, n - 1);
      SlotByItself(Execute(fs, a, m, tx, o, n - 1), a, m, tx, o[n - 1], i);
    }
  }

  /** The slot of the row that statement k inserts. */
  function SlotOf(fs: Failures, a: string, m: seq<string>, tx: set<nat>, o: seq<Stmt>, k: nat): nat
    requires k < |o|
  {
    |Execute(fs, a, m, tx, o, k)|
  }

  lemma InsertedRow(fs: Failures, a: string, m: seq<string>, tx: set<nat>, o: seq<Stmt>, k: nat)
    requires k < |o| && o[k].Insert?
    ensures var i := SlotOf(fs, a, m, tx, o, k); var after := Execute(fs, a, m, tx, o, k + 1);
            i < |after| && after[i] == Put(Fresh(), SessionOf(tx, o[k].w), Some(RowOf(a, m, o[k].w)))
  {
  }

  lemma Positions(o: seq<Stmt>, tx: set<nat>, k: nat) returns (p: nat)
    requires WellFormed(o, tx) && k < |o| && o[k].Insert?
    ensures k <= p < |o| && o[p] == Publish(tx, o[k].w)
    ensures forall j: nat | k < j < |o| :: o[j] != Clear(o[k].w)
    ensures forall j: nat | j < p :: o[j] != Publish(tx, o[k].w)
  {
    var w := o[k].w;
    var h := ClearPlace(o, tx, k);
    p := k;
    if w in tx {
      assert InPlace(o, tx, h);
      p :| p < |o| && o[p] == Commit(w);
      var q := InsertPlace(o, tx, p);
      SamePlace(o, tx, q, k);
    }
    forall j: nat | k < j < |o| ensures o[j] != Clear(w) { assert Differ(o, h, j); }
    forall j: nat | j < p ensures o[j] != Publish(tx, w) { assert Differ(o, j, p); }
  }

  lemma ClearPlace(o: seq<Stmt>, tx: set<nat>, k: nat) returns (h: nat)
    requires WellFormed(o, tx) && k < |o| && o[k].Insert?
    ensures h < k && o[h] == Clear(o[k].w)
  {
    assert InPlace(o, tx, k);
    h :| h < k && o[..k][h] == Clear(o[k].w);
    assert o[h] == Clear(o[k].w);
  }

  lemma InsertPlace(o: seq<Stmt>, tx: set<nat>, p: nat) returns (q: nat)
    requires WellFormed(o, tx) && p < |o| && o[p].Commit?
    ensures q < p && o[q] == Insert(o[p].w)
  {
    assert InPlace(o, tx, p);
    q :| q < p && o[..p][q] == Insert(o[p].w);
    assert o[q] == Insert(o[p].w);
  }

  /** The row of a call, from the statement that makes it visible. */
  lemma PublishedRow(fs: Failures, a: string, m: seq<string>, tx: set<nat>, o: seq<Stmt>, k: nat) returns (p: nat)
    requires WellFormed(o, tx) && k < |o| && o[k].Insert?
    ensures k <= p < |o| && o[p] == Publish(tx, o[k].w)
    ensures var i, after := SlotOf(fs, a, m, tx, o, k), Execute(fs, a, m, tx, o, p + 1);
            i < |after| && after[i] == Cell(Some(RowOf(a, m, o[k].w)), NoWrite)
  {
    p := Positions(o, tx, k);
    InsertedRow(fs, a, m, tx, o, k);
    if o[k].w in tx { CommittedRow(fs, a, m, tx, o, k, p); }
  }

  lemma CommittedRow(fs: Failures, a: string, m: seq<string>, tx: set<nat>, o: seq<Stmt>, k: nat, p: nat)
    requires k < p < |o| && o[k].Insert? && o[k].w in tx && o[p] == Commit(o[k].w)
    requires forall j: nat | k < j < p :: o[j] != Commit(o[k].w) && o[j] != Clear(o[k].w)
    ensures var i, after := SlotOf(fs, a, m, tx, o, k), Execute(fs, a, m, tx, o, p + 1);
            i < |after| && after[i] == Cell(Some(RowOf(a, m, o[k].w)), NoWrite)
  {
    var w, i := o[k].w, SlotOf(fs, a, m, tx, o, k);
    InsertedRow(fs, a, m, tx, o, k);
    HiddenRow(fs, a, m, tx, o, i, RowOf(a, m, w), w, k + 1, p);
    SlotByItself(Execute(fs, a, m, tx, o, p), a, m, tx, o[p], i);
  }

  /** A DELETE ran after the row of `w` had become visible. */
  ghost predicate Overtaken(o: seq<Stmt>, tx: set<nat>, w: nat) {
    exists p: nat, j: nat :: p < j < |o| && o[p] == Publish(tx, w) && o[j].Clear?
  }

  /** The row of a call is left at the end if and only if no DELETE ran after it had become visible. */
  lemma RowLeftIff(fs: Failures, a: string, m: seq<string>, tx: set<nat>, o: seq<Stmt>, k: nat)
    requires Possible(fs, a, m, tx, o) && k < |o| && o[k].Insert?
    ensures var i, end := SlotOf(fs, a, m, tx, o, k), Execute(fs, a, m, tx, o, |o|);
            i < |end| && (FailsAt(end[i], None, a) <==> !Overtaken(o, tx, o[k].w))
  {
    var p := PublishedRow(fs, a, m, tx, o, k);
    VisibleAtEnd(fs, a, m, tx, o, SlotOf(fs, a, m, tx, o, k), RowOf(a, m, o[k].w), p + 1);
    OvertakenAt(o, tx, o[k].w, p);
  }

  lemma OvertakenAt(o: seq<Stmt>, tx: set<nat>, w: nat, p: nat)
    requires WellFormed(o, tx) && p < |o| && o[p] == Publish(tx, w)
    ensures Overtaken(o, tx, w) <==> ClearedSince(o, p, |o|)
  {
    if Overtaken(o, tx, w) {
      var q: nat, j: nat :| q < j < |o| && o[q] == Publish(tx, w) && o[j].Clear?;
      SamePlace(o, tx, q, p);
    }
  }

  // ----- all rows together

  /** A slot that held no failure of `a` never will. */
  lemma {:induction false} Unrelated(fs: Failures, a: string, m: seq<string>, tx: set<nat>, o: seq<Stmt>, i: nat, n: nat)
    requires n <= |o| && i < |fs| && fs[i].pend.NoWrite? && !FailsAt(fs[i], None, a)
    ensures i < |Execute(fs, a, m, tx, o, n)| && Execute(fs, a, m, tx, o, n)[i] == fs[i]
  {
    if n > 0 {
      Unrelated(fs, a, m, tx, o, i, n - 1);
      SlotByItself(Execute(fs, a, m, tx, o, n - 1), a, m, tx, o[n - 1], i);
    }
  }

  /** The rows that were there before are gone after any completion. */
  lemma EarlierRowsGone(fs: Failures, a: string, m: seq<string>, tx: set<nat>, o: seq<Stmt>, i: nat, j: nat)
    requires Possible(fs, a, m, tx, o) && NothingPending(fs) && i < |fs| && j < |o| && o[j].Clear?
    ensures var end := Execute(fs, a, m, tx, o, |o|); i < |end| && !FailsAt(end[i], None, a)
  {
    if FailsAt(fs[i], None, a) {
      VisibleAtEnd(fs, a, m, tx, o, i, fs[i].base.value, 0);
      assert ClearedSince(o, -1, |o|);
    } else {
      Unrelated(fs, a, m, tx, o, i, |o|);
    }
  }

  /** Every new slot belongs to one INSERT. */
  lemma {:induction false} SlotHasInsert(fs: Failures, a: string, m: seq<string>, tx: set<nat>, o: seq<Stmt>, i: nat, n: nat) returns (k: nat)
    requires n <= |o| && |fs| <= i < |Execute(fs, a, m, tx, o, n)|
    ensures k < n && o[k].Insert? && i == SlotOf(fs, a, m, tx, o, k)
  {
    if i < |Execute(fs, a, m, tx, o, n - 1)| {
      k := SlotHasInsert(fs, a, m, tx, o, i, n - 1);
    } else {
      k := n - 1;
    }
  }

  lemma {:induction false} SlotsGrow(fs: Failures, a: string, m: seq<string>, tx: set<nat>, o: seq<Stmt>, k: nat, n: nat)
    requires k <= n <= |o|
    ensures |Execute(fs, a, m, tx, o, k)| <= |Execute(fs, a, m, tx, o, n)|
  {
    if k < n { SlotsGrow(fs, a, m, tx, o, k, n - 1); }
  }

  ghost predicate AtMostOne(fs: Failures, a: string) {
    forall i: nat, j: nat | i < |fs| && j < |fs| && FailsAt(fs[i], None, a) && FailsAt(fs[j], None, a) :: i == j
  }

  /** Of any two calls, at least one has had a DELETE run after its row was visible. */
  ghost predicate OneLasts(o: seq<Stmt>, tx: set<nat>) {
    forall k: nat, l: nat | k < l < |o| && o[k].Insert? && o[l].Insert? :: Overtaken(o, tx, o[k].w) || Overtaken(o, tx, o[l].w)
  }

  /**
   However the statements of any number of failing completions of one address interleave, in autocommit or in
   transactions that all commit: at most one failure row is left if and only if of any two calls at least one has
   had a DELETE run after its row had become visible, at its INSERT in autocommit and at its commit otherwise.
   */
  lemma AtMostOneIff(fs: Failures, a: string, m: seq<string>, tx: set<nat>, o: seq<Stmt>)
    requires Possible(fs, a, m, tx, o) && NothingPending(fs) && o != []
    ensures AtMostOne(Execute(fs, a, m, tx, o, |o|), a) <==> OneLasts(o, tx)
  {
    if OneLasts(o, tx) { OneLeft(fs, a, m, tx, o); }
    if AtMostOne(Execute(fs, a, m, tx, o, |o|), a) {
      forall k: nat, l: nat | k < l < |o| && o[k].Insert? && o[l].Insert?
        ensures Overtaken(o, tx, o[k].w) || Overtaken(o, tx, o[l].w)
      {
        RowLeftIff(fs, a, m, tx, o, k);
        RowLeftIff(fs, a, m, tx, o, l);
        SlotsGrow(fs, a, m, tx, o, k + 1, l);
        InsertedRow(fs, a, m, tx, o, k);
      }
    }
  }

  lemma OneLeft(fs: Failures, a: string, m: seq<string>, tx: set<nat>, o: seq<Stmt>)
    requires Possible(fs, a, m, tx, o) && NothingPending(fs) && o != [] && OneLasts(o, tx)
    ensures AtMostOne(Execute(fs, a, m, tx, o, |o|), a)
  {
    var end := Execute(fs, a, m, tx, o, |o|);
    var c := SomeClear(o, tx);
    forall i: nat, j: nat | i < j < |end| ensures !(FailsAt(end[i], None, a) && FailsAt(end[j], None, a)) {
      if i < |fs| {
        EarlierRowsGone(fs, a, m, tx, o, i, c);
      } else {
        TwoSlots(fs, a, m, tx, o, i, j);
      }
    }
  }

  lemma SomeClear(o: seq<Stmt>, tx: set<nat>) returns (c: nat)
    requires WellFormed(o, tx) && o != []
    ensures c < |o| && o[c].Clear?
  {
    c := 0;
    assert InPlace(o, tx, 0);
  }

  lemma TwoSlots(fs: Failures, a: string, m: seq<string>, tx: set<nat>, o: seq<Stmt>, i: nat, j: nat)
    requires Possible(fs, a, m, tx, o) && OneLasts(o, tx) && |fs| <= i < j < |Execute(fs, a, m, tx, o, |o|)|
    ensures var end := Execute(fs, a, m, tx, o, |o|); !(FailsAt(end[i], None, a) && FailsAt(end[j], None, a))
  {
    var k := SlotHasInsert(fs, a, m, tx, o, i, |o|);
    var l := SlotHasInsert(fs, a, m, tx, o, j, |o|);
    if l <= k { SlotsGrow(fs, a, m, tx, o, l, k); }
    RowLeftIff(fs, a, m, tx, o, k);
    RowLeftIff(fs, a, m, tx, o, l);
  }

  /** For two calls the condition is that one's DELETE follows the publication of the other's row. */
  lemma TwoCalls(o: seq<Stmt>, tx: set<nat>, w: nat, x: nat, k: nat, l: nat)
    requires WellFormed(o, tx) && w != x && k < l < |o| && o[k] == Insert(w) && o[l] == Insert(x)
    requires forall j: nat | j < |o| :: o[j].w == w || o[j].w == x
    ensures OneLasts(o, tx) <==> Follows(o, Publish(tx, w), Clear(x)) || Follows(o, Publish(tx, x), Clear(w))
  {
    var p := Positions(o, tx, k);
    var q := Positions(o, tx, l);
    OtherClear(o, tx, w, x, k, p);
    OtherClear(o, tx, x, w, l, q);
    forall i: nat, j: nat | i < j < |o| && o[i].Insert? && o[j].Insert? ensures {o[i].w, o[j].w} == {w, x} {
      assert Differ(o, i, j);
    }
  }

  ghost predicate Follows(o: seq<Stmt>, s: Stmt, t: Stmt) {
    exists i: nat, j: nat :: i < j < |o| && o[i] == s && o[j] == t
  }

  lemma OtherClear(o: seq<Stmt>, tx: set<nat>, w: nat, x: nat, k: nat, p: nat)
    requires WellFormed(o, tx) && k <= p < |o| && o[k] == Insert(w) && o[p] == Publish(tx, w)
    requires (forall j: nat | j < |o| :: o[j].w == w || o[j].w == x) && forall j: nat | k < j < |o| :: o[j] != Clear(w)
    ensures Overtaken(o, tx, w) <==> Follows(o, Publish(tx, w), Clear(x))
  {
    if Overtaken(o, tx, w) {
      var q: nat, j: nat :| q < j < |o| && o[q] == Publish(tx, w) && o[j].Clear?;
      SamePlace(o, tx, q, p);
      assert o[j] == Clear(x);
    }
    if Follows(o, Publish(tx, w), Clear(x)) {
      var i: nat, j: nat :| i < j < |o| && o[i] == Publish(tx, w) && o[j] == Clear(x);
      assert o[j].Clear?;
    }
  }
}
