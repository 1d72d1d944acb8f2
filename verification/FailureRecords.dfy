/**
 The queue_failure table under any interleaving of transactions: as long as every completion of
 an address runs while no other open transaction holds an uncommitted write for it, every session
 finds at most one failure row, that of the latest completion it can see.
 */
module FailureRecords {
  import opened Options
  import opened Mvcc
  import opened Addresses
  import opened AddressCalls

  // ----- what should be on record

  /** A completion that took effect: by whom (None: for good), and the failure it left on record. */
  datatype Entry = Entry(owner: Option<TxId>, value: Option<string>)

  /** A commit makes a transaction's completions good. */
  function Publish(es: seq<Entry>, t: TxId): seq<Entry> {
    if es == [] then []
    else
      var e := es[|es| - 1];
      Publish(es[..|es| - 1], t) + [if e.owner == Some(t) then e.(owner := None) else e]
  }

  /** A rollback takes them back. */
  function Retract(es: seq<Entry>, t: TxId): seq<Entry> {
    if es == [] then []
    else
      var e := es[|es| - 1];
      Retract(es[..|es| - 1], t) + (if e.owner == Some(t) then [] else [e])
  }

  /** The effect of one call on the completions of address `a`. */
  function Log(es: seq<Entry>, st: Store, c: Call, a: string): seq<Entry> {
    match c
    case Completed(s, b, failure, clearFails, insertFails) =>
      if b != a || clearFails || InBroken(st, s) then es else es + [Entry(s, if insertFails then None else failure)]
    case End(t, commit) =>
      if t !in st.open then es else if commit && t !in st.broken then Publish(es, t) else Retract(es, t)
    case _ => es
  }

  /** The completions of `a` that took effect and were not rolled back, in the order of the calls. */
  function Entries(calls: seq<Call>, a: string): seq<Entry> {
    if calls == [] then []
    else Log(Entries(calls[..|calls| - 1], a), After(calls[..|calls| - 1]), calls[|calls| - 1], a)
  }

  /** The latest of them among those made good and those of the transactions `v`. */
  function Latest(es: seq<Entry>, v: set<TxId>): Option<string> {
    if es == [] then None
    else
      var e := es[|es| - 1];
      if e.owner.None? || e.owner.value in v then e.value else Latest(es[..|es| - 1], v)
  }

  function Eyes(s: Option<TxId>): set<TxId> { if s.Some? then {s.value} else {} }

  /** What session `s` should find on record for `a`. */
  function Recorded(calls: seq<Call>, a: string, s: Option<TxId>): Option<string> {
    Latest(Entries(calls, a), Eyes(s))
  }

  lemma {:induction false} LatestPublish(es: seq<Entry>, t: TxId, v: set<TxId>)
    ensures Latest(Publish(es, t), v) == Latest(es, v + {t})
  {
    if es != [] {
      LatestPublish(es[..|es| - 1], t, v);
      var p := Publish(es, t);
      assert p[..|p| - 1] == Publish(es[..|es| - 1], t);
    }
  }

  lemma {:induction false} LatestRetract(es: seq<Entry>, t: TxId, v: set<TxId>)
    ensures Latest(Retract(es, t), v) == Latest(es, v - {t})
  {
    if es != [] {
      LatestRetract(es[..|es| - 1], t, v);
      var p, e := Retract(es, t), es[|es| - 1];
      if e.owner != Some(t) {
        assert p[..|p| - 1] == Retract(es[..|es| - 1], t);
      } else {
        assert p == Retract(es[..|es| - 1], t);
      }
    }
  }

  lemma LatestAppend(es: seq<Entry>, e: Entry, v: set<TxId>)
    ensures Latest(es + [e], v) == if e.owner.None? || e.owner.value in v then e.value else Latest(es, v)
  {
    assert (es + [e])[..|es|] == es;
  }

  // ----- what is on record

  predicate VersionFails(f: Cell<Failure>, a: string) {
    || (f.base.Some? && f.base.value.address == a)
    || (f.pend.Write? && f.pend.value.Some? && f.pend.value.value.address == a)
  }

  /** Only `holder` has an uncommitted write for `a`. */
  ghost predicate HeldBy(fs: Failures, a: string, holder: Option<TxId>) {
    forall i: nat | i < |fs| && fs[i].pend.Write? && VersionFails(fs[i], a) :: Some(fs[i].pend.tx) == holder
  }

  /** A completion of `a` by `s` may run: no other open transaction has an uncommitted write for `a`. */
  ghost predicate QuietFor(fs: Failures, s: Option<TxId>, a: string) {
    HeldBy(fs, a, s)
  }

  /** Among the transactions, only the holder's completions make a difference. */
  ghost predicate OnlyHolderCounts(es: seq<Entry>, holder: Option<TxId>) {
    forall v: set<TxId> :: Latest(es, v) == if holder.Some? && holder.value in v then Latest(es, {holder.value}) else Latest(es, {})
  }

  ghost predicate OnRecord(fs: Failures, a: string, es: seq<Entry>, holder: Option<TxId>) {
    && HeldBy(fs, a, holder) && OnlyHolderCounts(es, holder)
    && OnlyFailure(fs, None, a, Latest(es, {}))
    && (holder.Some? ==> OnlyFailure(fs, holder, a, Latest(es, {holder.value})))
  }

  /** The two tables show the two sessions the same about `a`. */
  ghost predicate SameFailures(fs: Failures, n: Failures, s: Option<TxId>, u: Option<TxId>, a: string) {
    && |n| >= |fs|
    && (forall i: nat | i < |fs| :: FailsAt(fs[i], s, a) <==> FailsAt(n[i], u, a))
    && (forall i: nat | i < |fs| && FailsAt(fs[i], s, a) :: Seen(n[i], u) == Seen(fs[i], s))
    && (forall i: nat | |fs| <= i < |n| :: !FailsAt(n[i], u, a))
  }

  lemma KeepsFailure(fs: Failures, n: Failures, s: Option<TxId>, u: Option<TxId>, a: string, m: Option<string>)
    requires SameFailures(fs, n, s, u, a) && OnlyFailure(fs, s, a, m)
    ensures OnlyFailure(n, u, a, m)
  {
    if m.Some? {
      var i: nat :| i < |fs| && FailsAt(fs[i], s, a);
      assert FailsAt(n[i], u, a);
    }
  }

  /** Every session finds what it should. */
  lemma EverySession(fs: Failures, a: string, es: seq<Entry>, holder: Option<TxId>, s: Option<TxId>)
    requires OnRecord(fs, a, es, holder)
    ensures OnlyFailure(fs, s, a, Latest(es, Eyes(s)))
  {
    if s.Some? && s != holder {
      assert SameFailures(fs, fs, None, s, a);
      KeepsFailure(fs, fs, None, s, a, Latest(es, {}));
    }
  }

  // ----- completions

  lemma RecordElsewhere(fs: Failures, t: Option<TxId>, b: string, failure: Option<string>, s: Option<TxId>, a: string)
    requires a != b || (t.Some? && s != t)
    ensures SameFailures(fs, RecordCompletion(fs, t, b, failure), s, s, a)
  {
  }

  lemma RecordHeld(fs: Failures, t: Option<TxId>, b: string, failure: Option<string>, a: string, holder: Option<TxId>)
    requires HeldBy(fs, a, holder) && (a == b ==> HeldBy(fs, a, t))
    ensures HeldBy(RecordCompletion(fs, t, b, failure), a, if a == b then t else holder)
  {
  }

  /** A completion of another address. */
  lemma OtherAddress(fs: Failures, t: Option<TxId>, b: string, failure: Option<string>, a: string, es: seq<Entry>, holder: Option<TxId>)
    requires a != b && OnRecord(fs, a, es, holder)
    ensures OnRecord(RecordCompletion(fs, t, b, failure), a, es, holder)
  {
    var n := RecordCompletion(fs, t, b, failure);
    RecordHeld(fs, t, b, failure, a, holder);
    RecordElsewhere(fs, t, b, failure, None, a);
    KeepsFailure(fs, n, None, None, a, Latest(es, {}));
    if holder.Some? {
      RecordElsewhere(fs, t, b, failure, holder, a);
      KeepsFailure(fs, n, holder, holder, a, Latest(es, {holder.value}));
    }
  }

  lemma DirectCompletion(fs: Failures, failure: Option<string>, a: string, es: seq<Entry>, holder: Option<TxId>)
    requires OnRecord(fs, a, es, holder) && QuietFor(fs, None, a)
    ensures OnRecord(RecordCompletion(fs, None, a, failure), a, es + [Entry(None, failure)], None)
  {
    RecordOwn(fs, None, a, failure);
    RecordHeld(fs, None, a, failure, a, holder);
    forall v: set<TxId> ensures Latest(es + [Entry(None, failure)], v) == failure { LatestAppend(es, Entry(None, failure), v); }
  }

  lemma TxCompletion(fs: Failures, t: TxId, failure: Option<string>, a: string, es: seq<Entry>, holder: Option<TxId>)
    requires OnRecord(fs, a, es, holder) && QuietFor(fs, Some(t), a)
    ensures OnRecord(RecordCompletion(fs, Some(t), a, failure), a, es + [Entry(Some(t), failure)], Some(t))
  {
    var n, e := RecordCompletion(fs, Some(t), a, failure), Entry(Some(t), failure);
    RecordOwn(fs, Some(t), a, failure);
    RecordHeld(fs, Some(t), a, failure, a, holder);
    RecordElsewhere(fs, Some(t), a, failure, None, a);
    KeepsFailure(fs, n, None, None, a, Latest(es, {}));
    NoRival(fs, t, a, es, holder);
    forall v: set<TxId> ensures Latest(es + [e], v) == if t in v then failure else Latest(es, {}) {
      LatestAppend(es, e, v);
    }
  }

  /** While `t` may complete `a`, nobody else's completions make a difference. */
  lemma NoRival(fs: Failures, t: TxId, a: string, es: seq<Entry>, holder: Option<TxId>)
    requires OnRecord(fs, a, es, holder) && HeldBy(fs, a, Some(t))
    ensures forall v: set<TxId> | t !in v :: Latest(es, v) == Latest(es, {})
  {
    if holder.Some? && holder.value != t {
      EverySession(fs, a, es, holder, holder);
      assert SameFailures(fs, fs, None, holder, a);
      SameRecord(fs, a, holder, Latest(es, {}), Latest(es, {holder.value}));
    }
  }

  /** A session that sees what everybody sees has the same failure on record. */
  lemma SameRecord(fs: Failures, a: string, s: Option<TxId>, m: Option<string>, k: Option<string>)
    requires SameFailures(fs, fs, None, s, a) && OnlyFailure(fs, None, a, m) && OnlyFailure(fs, s, a, k)
    ensures m == k
  {
    if m.Some? {
      var i: nat :| i < |fs| && FailsAt(fs[i], None, a);
      assert FailsAt(fs[i], s, a);
    }
    if k.Some? {
      var i: nat :| i < |fs| && FailsAt(fs[i], s, a);
      assert FailsAt(fs[i], None, a);
    }
  }

  // ----- the end of a transaction

  lemma EndHolder(fs: Failures, t: TxId, commit: bool, a: string, es: seq<Entry>)
    requires OnRecord(fs, a, es, Some(t))
    ensures OnRecord(SettleAll(fs, t, commit), a, if commit then Publish(es, t) else Retract(es, t), None)
  {
    var n := SettleAll(fs, t, commit);
    var es' := if commit then Publish(es, t) else Retract(es, t);
    var seen: Option<TxId> := if commit then Some(t) else None;
    var m := Latest(es, Eyes(seen));
    forall v: set<TxId> ensures Latest(es', v) == m {
      if commit { LatestPublish(es, t, v); } else { LatestRetract(es, t, v); }
    }
    assert SameFailures(fs, n, seen, None, a);
    KeepsFailure(fs, n, seen, None, a, m);
  }

  lemma EndOther(fs: Failures, t: TxId, commit: bool, a: string, es: seq<Entry>, holder: Option<TxId>)
    requires OnRecord(fs, a, es, holder) && holder != Some(t)
    ensures OnRecord(SettleAll(fs, t, commit), a, if commit then Publish(es, t) else Retract(es, t), holder)
  {
    var n := SettleAll(fs, t, commit);
    var es' := if commit then Publish(es, t) else Retract(es, t);
    forall v: set<TxId> ensures Latest(es', v) == Latest(es, v) {
      if commit { LatestPublish(es, t, v); } else { LatestRetract(es, t, v); }
    }
    assert SameFailures(fs, n, None, None, a);
    KeepsFailure(fs, n, None, None, a, Latest(es, {}));
    if holder.Some? {
      assert SameFailures(fs, n, holder, holder, a);
      KeepsFailure(fs, n, holder, holder, a, Latest(es, {holder.value}));
    }
  }

  // ----- whole sequences of calls

  /** Whenever a completion of `a` takes effect, no other open transaction has an uncommitted write for `a`. */
  ghost predicate Orderly(calls: seq<Call>, a: string) {
    calls == [] ||
      (&& Orderly(calls[..|calls| - 1], a)
       && var c, st := calls[|calls| - 1], After(calls[..|calls| - 1]);
       c.Completed? && c.a == a && !c.clearFails && !InBroken(st, c.s) ==> QuietFor(st.failures, c.s, a))
  }

  lemma ApplyRecord(st: Store, c: Call, a: string, es: seq<Entry>, holder: Option<TxId>) returns (next: Option<TxId>)
    requires OnRecord(st.failures, a, es, holder)
    requires c.Completed? && c.a == a && !c.clearFails && !InBroken(st, c.s) ==> QuietFor(st.failures, c.s, a)
    ensures OnRecord(Apply(st, c).failures, a, Log(es, st, c, a), next)
  {
    next := holder;
    match c
    case Completed(s, b, failure, clearFails, insertFails) =>
      if !clearFails && !InBroken(st, s) {
        var now := if insertFails then None else failure;
        assert Apply(st, c).failures == RecordCompletion(st.failures, s, b, now);
        if b != a {
          OtherAddress(st.failures, s, b, now, a, es, holder);
        } else if s.None? {
          DirectCompletion(st.failures, now, a, es, holder);
          next := None;
        } else {
          TxCompletion(st.failures, s.value, now, a, es, holder);
          next := s;
        }
      }
    case End(t, commit) =>
      if t in st.open {
        if holder == Some(t) {
          EndHolder(st.failures, t, commit && t !in st.broken, a, es);
          next := None;
        } else {
          EndOther(st.failures, t, commit && t !in st.broken, a, es, holder);
        }
      }
    case _ =>
  }

  lemma {:induction false} RecordKept(calls: seq<Call>, a: string) returns (holder: Option<TxId>)
    requires Orderly(calls, a)
    ensures OnRecord(After(calls).failures, a, Entries(calls, a), holder)
  {
    holder := None;
    if calls != [] {
      var rest := calls[..|calls| - 1];
      var before := RecordKept(rest, a);
      holder := ApplyRecord(After(rest), calls[|calls| - 1], a, Entries(rest, a), before);
    }
  }

  /**
   After any orderly sequence of calls, with any number of transactions and any statements failing, every session
   finds exactly the failure row of the latest completion it can see: nothing if that reported success, or if its
   insert failed.
   */
  lemma LatestOnRecord(calls: seq<Call>, a: string, s: Option<TxId>)
    requires Orderly(calls, a)
    ensures OnlyFailure(After(calls).failures, s, a, Recorded(calls, a, s))
  {
    var holder := RecordKept(calls, a);
    EverySession(After(calls).failures, a, Entries(calls, a), holder, s);
  }

  /** The answer of IsQueueAddressComplete in terms of the calls made; in a broken transaction it is an error. */
  lemma CompleteMeansNeither(calls: seq<Call>, a: string, s: Option<TxId>)
    requires Orderly(calls, a)
    ensures var st := After(calls); var r := IsComplete(st, s, a);
            && (r == Error <==> InBroken(st, s))
            && (r.Status? ==> r.failure == Recorded(calls, a, s))
            && (r == Status(true, None) <==>
                  !InBroken(st, s) && (forall i: nat | i < |st.rows| :: !HasAddress(st.rows[i], s, a)) && Recorded(calls, a, s).None?)
  {
    LatestOnRecord(calls, a, s);
    var st := After(calls);
    var f := FirstFailure(st.failures, s, a);
    if f.Some? {
      var i: nat :| i < |st.failures| && FailsAt(st.failures[i], s, a) && Seen(st.failures[i], s).value.message == f.value;
    }
  }

  /** A completion whose INSERT fails after its DELETE loses the failure it reports. */
  lemma LostFailureReadsComplete(a: string, m: string)
    ensures var calls := [Completed(None, a, Some(m), false, true)];
            IsSequence(calls) && IsComplete(After(calls), None, a) == Status(true, None)
  {
    var calls := [Completed(None, a, Some(m), false, true)];
    assert calls[..0] == [] && IsSequence([]) && After([]) == EMPTY;
    assert Can(EMPTY, calls[0]);
    assert After(calls) == EMPTY;
  }

  // ----- why completions must be orderly

  /** Call by call: what each leaves, one after another. */
  function Run(st: Store, calls: seq<Call>): Store
    decreases |calls|
  {
    if calls == [] then st else Run(Apply(st, calls[0]), calls[1..])
  }

  ghost predicate Runs(st: Store, calls: seq<Call>)
    decreases |calls|
  {
    calls == [] || (Can(st, calls[0]) && Runs(Apply(st, calls[0]), calls[1..]))
  }

  lemma {:induction false} RunAppend(st: Store, calls: seq<Call>, c: Call)
    ensures Run(st, calls + [c]) == Apply(Run(st, calls), c)
    ensures Runs(st, calls + [c]) <==> Runs(st, calls) && Can(Run(st, calls), c)
    decreases |calls|
  {
    if calls == [] {
      assert ([] + [c])[1..] == [];
    } else {
      RunAppend(Apply(st, calls[0]), calls[1..], c);
      assert (calls + [c])[1..] == calls[1..] + [c];
    }
  }

  lemma {:induction false} RunIsAfter(calls: seq<Call>)
    ensures Run(EMPTY, calls) == After(calls) && (Runs(EMPTY, calls) <==> IsSequence(calls))
  {
    if calls != [] {
      var rest, last := calls[..|calls| - 1], calls[|calls| - 1];
      RunIsAfter(rest);
      RunAppend(EMPTY, rest, last);
      assert calls == rest + [last];
    }
  }

  /** Transaction 1 completes `a`, then transaction 2 or autocommit does before 1 has committed. */
  function Disorderly(a: string, m1: string, m2: string, direct: bool): seq<Call> {
    [Begin(1), Begin(2), Completed(Some(1), a, Some(m1), false, false),
     Completed(if direct then None else Some(2), a, Some(m2), false, false), End(1, true), End(2, true)]
  }

  /** No two calls overlap and every statement succeeds, and yet two failure rows for `a` are left. */
  lemma DisorderlyLeavesTwo(a: string, m1: string, m2: string, direct: bool)
    ensures var calls := Disorderly(a, m1, m2, direct); var fs := After(calls).failures;
            && IsSequence(calls) && |fs| == 2 && FailsAt(fs[0], None, a) && FailsAt(fs[1], None, a)
  {
    var calls := Disorderly(a, m1, m2, direct);
    RunIsAfter(calls);
    var f1, f2 := Failure(a, m1), Failure(a, m2);
    var s2 := Store([], [], {1, 2}, {});
    var s3 := Store([], [Cell(None, Write(1, Some(f1)))], {1, 2}, {});
    var second: Cell<Failure> := if direct then Cell(Some(f2), NoWrite) else Cell(None, Write(2, Some(f2)));
    var s4 := Store([], [Cell(None, Write(1, Some(f1))), second], {1, 2}, {});
    var s5 := Store([], [Cell(Some(f1), NoWrite), second], {2}, {});
    var s6 := Store([], [Cell(Some(f1), NoWrite), Cell(Some(f2), NoWrite)], {}, {});
    assert Apply(Apply(EMPTY, calls[0]), calls[1]) == s2;
    assert Apply(s2, calls[2]) == s3 by { assert RecordCompletion([], Some(1), a, Some(m1)) == s3.failures; }
    assert Apply(s3, calls[3]) == s4 by { assert RecordCompletion(s3.failures, calls[3].s, a, Some(m2)) == s4.failures; }
    assert Apply(s4, calls[4]) == s5 by { assert SettleAll(s4.failures, 1, true) == s5.failures && SettleAll(s4.rows, 1, true) == []; }
    assert Apply(s5, calls[5]) == s6 by { assert SettleAll(s5.failures, 2, true) == s6.failures && SettleAll(s5.rows, 2, true) == []; }
    Unroll(calls);
  }

  lemma {:induction false} Unroll(c: seq<Call>)
    requires |c| == 6
    ensures var s1 := Apply(EMPTY, c[0]); var s2 := Apply(s1, c[1]); var s3 := Apply(s2, c[2]);
            var s4 := Apply(s3, c[3]); var s5 := Apply(s4, c[4]);
            && Run(EMPTY, c) == Apply(s5, c[5])
            && (Can(EMPTY, c[0]) && Can(s1, c[1]) && Can(s2, c[2]) && Can(s3, c[3]) && Can(s4, c[4]) && Can(s5, c[5]) ==> Runs(EMPTY, c))
  {
    var s1 := Apply(EMPTY, c[0]);
    var s2 := Apply(s1, c[1]);
    var s3 := Apply(s2, c[2]);
    var s4 := Apply(s3, c[3]);
    var s5 := Apply(s4, c[4]);
    RunFirst(EMPTY, c);
    RunFirst(s1, c[1..]);
    RunFirst(s2, c[2..]);
    RunFirst(s3, c[3..]);
    RunFirst(s4, c[4..]);
    RunFirst(s5, c[5..]);
    assert c[6..] == [];
  }

  lemma {:induction false} RunFirst(st: Store, c: seq<Call>)
    requires c != []
    ensures Run(st, c) == Run(Apply(st, c[0]), c[1..]) && (Runs(st, c) <==> Can(st, c[0]) && Runs(Apply(st, c[0]), c[1..]))
  {
  }
}
