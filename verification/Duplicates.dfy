/**
 A duplicate addressed push.  Outside a transaction nothing that anybody can ever ask tells it
 from no push at all; inside one it breaks the transaction.
 */
module Duplicates {
  import opened Options
  import opened Mvcc
  import opened Tables
  import opened Addresses
  import opened AddressCalls

  // ----- an empty slot in the middle of the table

  /** Where row i is once an empty slot has been put in at n. */
  function Skip(n: nat, i: nat): nat { if i < n then i else i + 1 }

  ghost predicate SameButOne(rows: Rows, wide: Rows, n: nat) {
    && n <= |rows| && |wide| == |rows| + 1 && wide[n] == Fresh()
    && forall i: nat | i < |rows| :: wide[Skip(n, i)] == rows[i]
  }

  /** The same store but for an empty slot. */
  ghost predicate Alike(st: Store, wide: Store, n: nat) {
    SameButOne(st.rows, wide.rows, n) && wide.failures == st.failures && wide.open == st.open && wide.broken == st.broken
  }

  /** Every slot of the wide table is the empty one or one of the others. */
  lemma Unskip(rows: Rows, wide: Rows, n: nat, j: nat) returns (i: nat)
    requires SameButOne(rows, wide, n) && j < |wide| && j != n
    ensures i < |rows| && Skip(n, i) == j && wide[j] == rows[i]
  {
    i := if j < n then j else j - 1;
    assert wide[Skip(n, i)] == rows[i];
  }

  lemma LeastUnique(rows: Rows, s: Option<TxId>, q: Query, i: nat, j: nat)
    requires IsLeast(rows, s, q, i) && IsLeast(rows, s, q, j)
    ensures i == j
  {
    assert Ahead(rows, s, i, j) && Ahead(rows, s, j, i);
  }

  lemma LeastMoves(rows: Rows, wide: Rows, n: nat, s: Option<TxId>, q: Query, i: nat)
    requires SameButOne(rows, wide, n) && IsLeast(rows, s, q, i)
    ensures IsLeast(wide, s, q, Skip(n, i))
  {
    assert wide[Skip(n, i)] == rows[i];
    forall j: nat | j < |wide| && Eligible(wide[j], s, q) ensures Ahead(wide, s, Skip(n, i), j) {
      assert j != n;
      var k := Unskip(rows, wide, n, j);
      assert Ahead(rows, s, i, k);
    }
  }

  lemma SameLeast(rows: Rows, wide: Rows, n: nat, s: Option<TxId>, q: Query)
    requires SameButOne(rows, wide, n)
    ensures FindLeast(wide, s, q) == match FindLeast(rows, s, q) case None => None case Some(i) => Some(Skip(n, i))
  {
    var r, w := FindLeast(rows, s, q), FindLeast(wide, s, q);
    if r.Some? {
      LeastMoves(rows, wide, n, s, q, r.value);
      assert Eligible(wide[Skip(n, r.value)], s, q);
      LeastUnique(wide, s, q, w.value, Skip(n, r.value));
    } else if w.Some? {
      NoneMoves(rows, wide, n, s, q);
    }
  }

  lemma NoneMoves(rows: Rows, wide: Rows, n: nat, s: Option<TxId>, q: Query)
    requires SameButOne(rows, wide, n) && NoneEligible(rows, s, q)
    ensures NoneEligible(wide, s, q)
  {
    forall j: nat | j < |wide| ensures !Eligible(wide[j], s, q) {
      if j != n { var i := Unskip(rows, wide, n, j); }
    }
  }

  lemma SameDuplicates(rows: Rows, wide: Rows, n: nat, s: Option<TxId>, a: string)
    requires SameButOne(rows, wide, n)
    ensures CountAddress(wide, s, a) == 0 <==> CountAddress(rows, s, a) == 0
  {
    if CountAddress(rows, s, a) == 0 {
      forall j: nat | j < |wide| ensures !HasAddress(wide[j], s, a) {
        if j != n { var i := Unskip(rows, wide, n, j); }
      }
    }
    if CountAddress(wide, s, a) == 0 {
      forall i: nat | i < |rows| ensures !HasAddress(rows[i], s, a) { assert wide[Skip(n, i)] == rows[i]; }
    }
  }

  // ----- the slot stays unnoticed

  lemma AppendAlike(rows: Rows, wide: Rows, n: nat, k: Cell<Row>)
    requires SameButOne(rows, wide, n)
    ensures SameButOne(rows + [k], wide + [k], n)
  {
    var r, w := rows + [k], wide + [k];
    forall i: nat | i < |r| ensures w[Skip(n, i)] == r[i] {
      if i < |rows| { assert wide[Skip(n, i)] == rows[i]; }
    }
  }

  lemma ClaimAlike(rows: Rows, wide: Rows, n: nat, i: nat, k: Cell<Row>)
    requires SameButOne(rows, wide, n) && i < |rows|
    ensures SameButOne(rows[i := k], wide[Skip(n, i) := k], n)
  {
    var r, w := rows[i := k], wide[Skip(n, i) := k];
    forall j: nat | j < |r| ensures w[Skip(n, j)] == r[j] { assert wide[Skip(n, j)] == rows[j]; }
  }

  lemma DeleteAlike(rows: Rows, wide: Rows, n: nat, s: Option<TxId>, p: Permit)
    requires SameButOne(rows, wide, n)
    ensures SameButOne(DeleteClaimed(rows, s, p), DeleteClaimed(wide, s, p), n)
  {
  }

  lemma SettleAlike(rows: Rows, wide: Rows, n: nat, t: TxId, commit: bool)
    requires SameButOne(rows, wide, n)
    ensures SameButOne(SettleAll(rows, t, commit), SettleAll(wide, t, commit), n)
  {
  }

  /** One call is answered alike and leaves alike stores. */
  lemma CallAlike(st: Store, wide: Store, n: nat, c: Call)
    requires Alike(st, wide, n)
    ensures ReplyTo(wide, c) == ReplyTo(st, c) && Alike(Apply(st, c), Apply(wide, c), n)
  {
    match c
    case Begin(_) =>
    case End(t, commit) => SettleAlike(st.rows, wide.rows, n, t, commit && t !in st.broken);
    case _ => if !InBroken(st, c.s) { CallAlikeIn(st, wide, n, c); }
  }

  lemma CallAlikeIn(st: Store, wide: Store, n: nat, c: Call)
    requires Alike(st, wide, n) && !c.Begin? && !c.End? && !InBroken(st, c.s)
    ensures ReplyIn(wide, c) == ReplyIn(st, c) && Alike(ApplyIn(st, c), ApplyIn(wide, c), n)
  {
    match c
    case PushAddressed(s, a, row, fails) =>
      SameDuplicates(st.rows, wide.rows, n, s, a);
      AppendAlike(st.rows, wide.rows, n, Fresh());
      AppendAlike(st.rows, wide.rows, n, Put(Fresh(), s, Some(row.(address := Some(a)))));
    case PushPlain(s, row, fails) =>
      AppendAlike(st.rows, wide.rows, n, if fails then Fresh() else Put(Fresh(), s, Some(row.(address := None))));
    case Pop(s, q, p) => PopAlike(st, wide, n, s, q, p);
    case Delete(s, p, _, _) => DeleteAlike(st.rows, wide.rows, n, s, p);
    case Completed(_, _, _, _, _) =>
    case Ask(s, a) => SameDuplicates(st.rows, wide.rows, n, s, a);
  }

  lemma PopAlike(st: Store, wide: Store, n: nat, s: Option<TxId>, q: Query, p: Permit)
    requires Alike(st, wide, n)
    ensures var c := Pop(s, q, p); ReplyIn(wide, c) == ReplyIn(st, c) && Alike(ApplyIn(st, c), ApplyIn(wide, c), n)
  {
    SameLeast(st.rows, wide.rows, n, s, q);
    var i := FindLeast(st.rows, s, q);
    if i.Some? {
      assert wide.rows[Skip(n, i.value)] == st.rows[i.value];
      ClaimAlike(st.rows, wide.rows, n, i.value, ClaimSlot(st.rows[i.value], s, p));
    }
  }

  // ----- continuations

  /** The replies to a sequence of calls. */
  function Replies(st: Store, calls: seq<Call>): seq<Reply>
    decreases |calls|
  {
    if calls == [] then [] else [ReplyTo(st, calls[0])] + Replies(Apply(st, calls[0]), calls[1..])
  }

  lemma {:induction false} RepliesAlike(st: Store, wide: Store, n: nat, calls: seq<Call>)
    requires Alike(st, wide, n)
    ensures Replies(wide, calls) == Replies(st, calls)
    decreases |calls|
  {
    if calls != [] {
      CallAlike(st, wide, n, calls[0]);
      RepliesAlike(Apply(st, calls[0]), Apply(wide, calls[0]), n, calls[1..]);
    }
  }

  /** No continuation of calls, by whomever, gets a reply that tells the two stores apart. */
  ghost predicate Indistinguishable(st: Store, other: Store) {
    forall calls: seq<Call> :: Replies(other, calls) == Replies(st, calls)
  }

  /** A push that is refused as a duplicate leaves no trace for any continuation if and only if it was made outside a transaction. */
  lemma DuplicateUnobservableIff(st: Store, s: Option<TxId>, a: string, row: Row)
    requires ReplyTo(st, PushAddressed(s, a, row, false)) == Refused
    ensures Indistinguishable(st, Apply(st, PushAddressed(s, a, row, false))) <==> s.None?
  {
    var after := Apply(st, PushAddressed(s, a, row, false));
    if s.None? {
      forall calls: seq<Call> ensures Replies(after, calls) == Replies(st, calls) {
        assert Alike(st, after, |st.rows|);
        RepliesAlike(st, after, |st.rows|, calls);
      }
    } else {
      var calls := [Ask(s, a)];
      assert Replies(after, calls)[0] == Error && Replies(st, calls)[0] != Error;
    }
  }

  /** Inside a transaction the refused push also costs everything the transaction wrote: its commit is an error, and nobody sees its rows. */
  lemma DuplicateDiscards(st: Store, t: TxId, a: string, row: Row, i: nat, u: Option<TxId>)
    requires ReplyTo(st, PushAddressed(Some(t), a, row, false)) == Refused && t in st.open
    requires i < |st.rows| && st.rows[i].base.None? && st.rows[i].pend.Write? && st.rows[i].pend.tx == t && st.rows[i].pend.value.Some?
    ensures var kept := Apply(st, End(t, true));
            i < |kept.rows| && Seen(kept.rows[i], u).Some?
    ensures var after := Apply(st, PushAddressed(Some(t), a, row, false)); var lost := Apply(after, End(t, true));
            ReplyTo(after, End(t, true)) == Error && i < |lost.rows| && Seen(lost.rows[i], u).None?
  {
  }
}
