/**
 The two views of the store agree: the statements of a pop, a delete or a push that run without
 another client in between do to the tables what the method of PgStore promises, for every
 combination of failing statements, in the pop's own transaction or in a borrowed one.
 */
module Sequential {
  import opened Options
  import opened Mvcc
  import opened Tables
  import opened Sessions
  import S = Store

  // ----- from the reservation to the claim, inside a transaction

  /** The statements a pop sends once it is inside a transaction. */
  function ClaimScript(rows: Rows, c: Id, q: Query, f: S.PopFaults): seq<Action> {
    if f.reserve then [Fault(c)]
    else if f.claim then [Reserve(c), Fault(c)]
    else if FindLeast(rows, Some(c), q).Some? then [Reserve(c), Claim(c)]
    else if f.release then [Reserve(c), Claim(c), Fault(c)]
    else [Reserve(c), Claim(c), Release(c)]
  }

  /** The same state with client `c` elsewhere. */
  function At(sys: Sys, c: Id, cl: Client): Sys
    requires c < |sys.clients|
  {
    sys.(clients := sys.clients[c := cl])
  }

  lemma {:induction false} PerformTwo(sys: Sys, a: Action, b: Action)
    requires Enabled(sys, a) && Enabled(Next(sys, a), b)
    ensures Perform(sys, [a, b]) == Some(Next(Next(sys, a), b))
  {
    PerformOne(sys, a, [b]);
    PerformOne(Next(sys, a), b, []);
    assert [a] + [b] == [a, b] && [b] + [] == [b];
  }

  lemma {:induction false} PerformThree(sys: Sys, a: Action, b: Action, d: Action)
    requires Enabled(sys, a) && Enabled(Next(sys, a), b) && Enabled(Next(Next(sys, a), b), d)
    ensures Perform(sys, [a, b, d]) == Some(Next(Next(Next(sys, a), b), d))
  {
    PerformOne(sys, a, [b, d]);
    PerformTwo(Next(sys, a), b, d);
    assert [a] + [b, d] == [a, b, d];
  }

  /** The tables and the client after the claim script. */
  ghost predicate Claimed(sys: Sys, end: Sys, c: Id, own: bool, q: Query, f: S.PopFaults, r: S.PopResult)
    requires c < |sys.clients|
  {
    && S.PopDoes(r, Some(c), f, Some(c), q, sys.rows, end.rows, sys.permits, end.permits)
    && |end.clients| == |sys.clients| && end.clients[c].mode.Tx? && end.clients[c].mode.own == own
    && end.clients == sys.clients[c := end.clients[c]]
    && (end.clients[c].mode.broken <==> r.PopError? || (r.NoRows? && f.release))
    && if own then (if r.Popped? then end.clients[c].call.Won? else end.clients[c].call.Failing?) else end.clients[c].call.Idle?
  }

  lemma ReserveState(sys: Sys, c: Id, own: bool, q: Query)
    requires c < |sys.clients| && sys.clients[c] == Client(Tx(own, false), Begun(q))
    ensures Enabled(sys, Reserve(c))
    ensures Next(sys, Reserve(c)) == At(sys.(permits := sys.permits + [Cell(None, Write(c, Some(())))]), c,
                                        Client(Tx(own, false), Reserved(q, |sys.permits| + 1)))
  {
  }

  lemma ClaimPhase(sys: Sys, c: Id, own: bool, q: Query, f: S.PopFaults) returns (end: Sys, r: S.PopResult)
    requires c < |sys.clients| && sys.clients[c] == Client(Tx(own, false), Begun(q))
    ensures Perform(sys, ClaimScript(sys.rows, c, q, f)) == Some(end) && Claimed(sys, end, c, own, q, f, r)
    ensures r.PopError? <==> f.reserve || f.claim
  {
    ReserveState(sys, c, own, q);
    var s1 := Next(sys, Reserve(c));
    if f.reserve {
      end, r := ReserveFails(sys, c, own, q, f);
    } else if f.claim {
      end, r := ClaimFails(sys, s1, c, own, q, f);
    } else if FindLeast(sys.rows, Some(c), q).Some? {
      PerformTwo(sys, Reserve(c), Claim(c));
      end, r := ClaimWins(sys, s1, c, own, q, f);
    } else {
      end, r := ClaimMisses(sys, s1, c, own, q, f);
    }
  }

  lemma ReserveFails(sys: Sys, c: Id, own: bool, q: Query, f: S.PopFaults) returns (end: Sys, r: S.PopResult)
    requires c < |sys.clients| && sys.clients[c] == Client(Tx(own, false), Begun(q)) && f.reserve
    ensures Perform(sys, [Fault(c)]) == Some(end) && r == S.PopError && Claimed(sys, end, c, own, q, f, r)
  {
    PerformOne(sys, Fault(c), []);
    assert [Fault(c)] + [] == [Fault(c)];
    end, r := Next(sys, Fault(c)), S.PopError;
  }

  lemma ClaimFails(sys: Sys, s1: Sys, c: Id, own: bool, q: Query, f: S.PopFaults) returns (end: Sys, r: S.PopResult)
    requires c < |sys.clients| && Enabled(sys, Reserve(c)) && s1 == Next(sys, Reserve(c))
    requires s1 == At(sys.(permits := sys.permits + [Cell(None, Write(c, Some(())))]), c, Client(Tx(own, false), Reserved(q, |sys.permits| + 1)))
    ensures Perform(sys, [Reserve(c), Fault(c)]) == Some(end) && r == S.PopError && Claimed(sys, end, c, own, q, f, r)
  {
    PerformTwo(sys, Reserve(c), Fault(c));
    end, r := Next(s1, Fault(c)), S.PopError;
  }

  lemma ClaimMisses(sys: Sys, s1: Sys, c: Id, own: bool, q: Query, f: S.PopFaults) returns (end: Sys, r: S.PopResult)
    requires c < |sys.clients| && Enabled(sys, Reserve(c)) && s1 == Next(sys, Reserve(c)) && FindLeast(sys.rows, Some(c), q).None?
    requires s1 == At(sys.(permits := sys.permits + [Cell(None, Write(c, Some(())))]), c, Client(Tx(own, false), Reserved(q, |sys.permits| + 1)))
    ensures Perform(sys, [Reserve(c), Claim(c), if f.release then Fault(c) else Release(c)]) == Some(end)
    ensures r == S.NoRows && Claimed(sys, end, c, own, q, f, r)
  {
    ReleaseAfterMiss(s1, c, own, q, sys.permits);
    var last := if f.release then Fault(c) else Release(c);
    PerformThree(sys, Reserve(c), Claim(c), last);
    end, r := Next(Next(s1, Claim(c)), last), S.NoRows;
  }

  lemma ClaimWins(sys: Sys, s1: Sys, c: Id, own: bool, q: Query, f: S.PopFaults) returns (end: Sys, r: S.PopResult)
    requires c < |sys.clients| && FindLeast(sys.rows, Some(c), q).Some?
    requires s1 == At(sys.(permits := sys.permits + [Cell(None, Write(c, Some(())))]), c, Client(Tx(own, false), Reserved(q, |sys.permits| + 1)))
    ensures Enabled(s1, Claim(c)) && end == Next(s1, Claim(c)) && r.Popped? && Claimed(sys, end, c, own, q, f, r)
  {
    end := Next(s1, Claim(c));
    var i := FindLeast(sys.rows, Some(c), q).value;
    var row := Seen(sys.rows[i], Some(c)).value;
    r := S.Popped(|sys.permits| + 1, if row.address.Some? then row.address.value else "", row.typ, row.item);
  }

  lemma ReleaseAfterMiss(s1: Sys, c: Id, own: bool, q: Query, permits0: PermitTable)
    requires c < |s1.clients| && s1.clients[c] == Client(Tx(own, false), Reserved(q, |permits0| + 1))
    requires s1.permits == permits0 + [Cell(None, Write(c, Some(())))] && FindLeast(s1.rows, Some(c), q).None?
    ensures Enabled(s1, Claim(c))
    ensures var s2 := Next(s1, Claim(c));
            && Enabled(s2, Release(c))
            && Next(s2, Release(c)) == At(s1.(permits := permits0 + [Cell(None, Write(c, None))]), c,
                                          Client(Tx(own, false), if own then Failing else Idle))
  {
  }

  // ----- whole pops

  /** The statements of a whole QueuePop by client `c`. */
  function PopScript(sys: Sys, c: Id, q: Query, f: S.PopFaults): seq<Action>
    requires c < |sys.clients|
  {
    var borrowed := sys.clients[c].mode.Tx?;
    if q.types == [] then []
    else if f.count then (if borrowed then [Fault(c)] else [])
    else if CountVisible(sys.rows, Session(sys, c), q) == 0 then [Count(c, q)]
    else if borrowed then [Count(c, q)] + ClaimScript(sys.rows, c, q, f)
    else if f.begin then [Count(c, q), Fault(c)]
    else [Count(c, q), BeginPop(c)] + ClaimScript(sys.rows, c, q, f) + [OwnEnd(sys.rows, c, q, f)]
  }

  /** A pop that won commits, unless the commit fails; every other pop rolls back. */
  function OwnEnd(rows: Rows, c: Id, q: Query, f: S.PopFaults): Action {
    if f.reserve || f.claim || f.commit || FindLeast(rows, Some(c), q).None? then Rollback(c) else Commit(c)
  }

  lemma {:induction false} BorrowedPop(sys: Sys, c: Id, q: Query, f: S.PopFaults) returns (end: Sys, r: S.PopResult)
    requires c < |sys.clients| && sys.clients[c] == Client(Tx(false, false), Idle) && q.types != [] && !f.count
    requires CountVisible(sys.rows, Some(c), q) != 0
    ensures Perform(sys, PopScript(sys, c, q, f)) == Some(end) && Claimed(sys, end, c, false, q, f, r)
    ensures r.PopError? <==> f.reserve || f.claim
  {
    var s1 := Next(sys, Count(c, q));
    PerformOne(sys, Count(c, q), ClaimScript(sys.rows, c, q, f));
    assert s1 == At(sys, c, Client(Tx(false, false), Begun(q)));
    end, r := ClaimPhase(s1, c, false, q, f);
    assert s1.clients[c := end.clients[c]] == sys.clients[c := end.clients[c]];
  }

  /** The end of a pop's own transaction. */
  lemma EndOwn(sys: Sys, end: Sys, c: Id, q: Query, f: S.PopFaults, r: S.PopResult)
    requires c < |sys.clients| && Claimed(sys, end, c, true, q, f, r) && Untouched(sys.rows, c) && Untouched(sys.permits, c) && q.types != []
    requires r.Popped? <==> !f.reserve && !f.claim && FindLeast(sys.rows, Some(c), q).Some?
    ensures var a := OwnEnd(sys.rows, c, q, f);
            && Enabled(end, a)
            && Next(end, a).clients == sys.clients[c := Client(Auto, Idle)]
            && S.PopDoes(r, None, f, Some(c), q, sys.rows, Next(end, a).rows, sys.permits, Next(end, a).permits)
  {
    S.SettleClaim(r, f, c, q, sys.rows, end.rows, sys.permits, end.permits);
  }

  lemma {:induction false} OwnPop(sys: Sys, c: Id, q: Query, f: S.PopFaults) returns (end: Sys, r: S.PopResult)
    requires c < |sys.clients| && sys.clients[c] == Client(Auto, Idle) && q.types != [] && !f.count && !f.begin
    requires CountVisible(sys.rows, None, q) != 0 && Untouched(sys.rows, c) && Untouched(sys.permits, c)
    ensures Perform(sys, PopScript(sys, c, q, f)) == Some(end) && end.clients == sys.clients
    ensures S.PopDoes(r, None, f, Some(c), q, sys.rows, end.rows, sys.permits, end.permits)
  {
    PerformTwo(sys, Count(c, q), BeginPop(c));
    var s2 := At(sys, c, Client(Tx(true, false), Begun(q)));
    assert Next(Next(sys, Count(c, q)), BeginPop(c)) == s2;
    var s3: Sys;
    s3, r := ClaimPhase(s2, c, true, q, f);
    ClaimedElsewhere(sys, s2, s3, c, q, f, r);
    EndOwn(sys, s3, c, q, f, r);
    var script, last := ClaimScript(sys.rows, c, q, f), OwnEnd(sys.rows, c, q, f);
    PerformAppend(sys, [Count(c, q), BeginPop(c)], script);
    PerformAppend(sys, [Count(c, q), BeginPop(c)] + script, [last]);
    PerformOne(s3, last, []);
    assert [last] + [] == [last];
    end := Next(s3, last);
    assert sys.clients[c := Client(Auto, Idle)] == sys.clients;
  }

  lemma ClaimedElsewhere(sys: Sys, s2: Sys, s3: Sys, c: Id, q: Query, f: S.PopFaults, r: S.PopResult)
    requires c < |sys.clients| && s2.rows == sys.rows && s2.permits == sys.permits
    requires |s2.clients| == |sys.clients| && s2.clients == sys.clients[c := s2.clients[c]]
    requires Claimed(s2, s3, c, true, q, f, r) && (r.PopError? <==> f.reserve || f.claim)
    ensures Claimed(sys, s3, c, true, q, f, r)
    ensures r.Popped? ==> FindLeast(sys.rows, Some(c), q).Some?
    ensures r.NoRows? ==> q.types == [] || FindLeast(sys.rows, Some(c), q).None?
  {
    assert s2.clients[c := s3.clients[c]] == sys.clients[c := s3.clients[c]];
  }

  /**
   A QueuePop that nobody interrupts, from any idle client, in autocommit or inside a transaction, whatever
   statements fail: its actions are possible one after another, the client is idle again, in autocommit as
   before or inside its transaction, and the tables are as Store.PgStore.QueuePop promises.
   */
  lemma PopAlone(sys: Sys, c: Id, q: Query, f: S.PopFaults) returns (end: Sys, r: S.PopResult)
    requires c < |sys.clients| && Usable(sys.clients[c])
    requires sys.clients[c].mode.Auto? ==> Untouched(sys.rows, c) && Untouched(sys.permits, c)
    ensures Perform(sys, PopScript(sys, c, q, f)) == Some(end)
    ensures |end.clients| == |sys.clients| && end.clients == sys.clients[c := end.clients[c]] && end.clients[c].call.Idle?
    ensures sys.clients[c].mode.Auto? ==> end.clients[c] == sys.clients[c]
    ensures sys.clients[c].mode.Tx? ==> end.clients[c].mode.Tx? && !end.clients[c].mode.own && (r.PopError? ==> end.clients[c].mode.broken)
    ensures S.PopDoes(r, Session(sys, c), f, Some(c), q, sys.rows, end.rows, sys.permits, end.permits)
  {
    if q.types == [] {
      end, r := sys, S.NoRows;
    } else if f.count {
      end, r := PrecountFails(sys, c, q, f);
    } else if CountVisible(sys.rows, Session(sys, c), q) == 0 {
      end, r := PrecountEmpty(sys, c, q, f);
    } else if sys.clients[c].mode.Tx? {
      end, r := BorrowedPop(sys, c, q, f);
    } else if f.begin {
      PerformTwo(sys, Count(c, q), Fault(c));
      end, r := Next(Next(sys, Count(c, q)), Fault(c)), S.PopError;
      assert end.clients == sys.clients;
    } else {
      end, r := OwnPop(sys, c, q, f);
    }
  }

  lemma PrecountFails(sys: Sys, c: Id, q: Query, f: S.PopFaults) returns (end: Sys, r: S.PopResult)
    requires c < |sys.clients| && Usable(sys.clients[c]) && q.types != [] && f.count
    ensures Perform(sys, PopScript(sys, c, q, f)) == Some(end) && r == S.PopError
    ensures end.rows == sys.rows && end.permits == sys.permits
    ensures end.clients == sys.clients[c := if sys.clients[c].mode.Tx? then Client(Tx(false, true), Idle) else sys.clients[c]]
  {
    end, r := sys, S.PopError;
    if sys.clients[c].mode.Tx? {
      PerformOne(sys, Fault(c), []);
      assert [Fault(c)] + [] == [Fault(c)];
      end := Next(sys, Fault(c));
    }
  }

  lemma PrecountEmpty(sys: Sys, c: Id, q: Query, f: S.PopFaults) returns (end: Sys, r: S.PopResult)
    requires c < |sys.clients| && Usable(sys.clients[c]) && q.types != [] && !f.count && CountVisible(sys.rows, Session(sys, c), q) == 0
    requires sys.clients[c].mode.Auto? ==> Untouched(sys.rows, c)
    ensures Perform(sys, PopScript(sys, c, q, f)) == Some(end) && end == sys && r == S.NoRows
    ensures NoneEligible(sys.rows, Some(c), q)
  {
    PerformOne(sys, Count(c, q), []);
    assert [Count(c, q)] + [] == [Count(c, q)];
    end, r := sys, S.NoRows;
    assert forall j: nat | j < |sys.rows| :: Seen(sys.rows[j], Some(c)) == Seen(sys.rows[j], Session(sys, c));
  }

  // ----- deletes and pushes

  /** QueueDelete: the row statement, then the permit statement, which may fail. */
  lemma {:induction false} DeleteAlone(sys: Sys, c: Id, p: Permit, permitFails: bool) returns (end: Sys)
    requires c < |sys.clients| && Usable(sys.clients[c]) && 1 <= p <= |sys.permits| && !Foreign(sys.permits[p - 1], c)
    requires CanDelete(sys.rows, Session(sys, c), p) && CanDrop(sys.permits[p - 1], Session(sys, c))
    ensures Perform(sys, [DropRow(c, p), if permitFails then Fault(c) else DropPermit(c)]) == Some(end)
    ensures end.rows == DeleteClaimed(sys.rows, Session(sys, c), p)
    ensures end.permits == if permitFails then sys.permits else S.DropPermitRow(sys.permits, Session(sys, c), p)
    ensures end.clients == sys.clients[c := if permitFails then Client(Broken(sys.clients[c].mode), Idle) else sys.clients[c]]
    ensures end.leaked == sys.leaked + (if permitFails && sys.clients[c].mode.Auto? then {p} else {})
  {
    var last := if permitFails then Fault(c) else DropPermit(c);
    PerformTwo(sys, DropRow(c, p), last);
    end := Next(Next(sys, DropRow(c, p)), last);
  }

  /** QueuePush, plain or addressed. */
  lemma {:induction false} PushAlone(sys: Sys, c: Id, row: Row, fails: bool) returns (end: Sys)
    requires c < |sys.clients| && Usable(sys.clients[c]) && row.permit == 0
    ensures Perform(sys, [if fails then PushFailed(c) else Push(c, row)]) == Some(end)
    ensures end.rows == sys.rows + [if fails then Fresh() else Put(Fresh(), Session(sys, c), Some(row))]
    ensures end.permits == sys.permits
    ensures end.clients == sys.clients[c := if fails then Client(Broken(sys.clients[c].mode), Idle) else sys.clients[c]]
  {
    var a := if fails then PushFailed(c) else Push(c, row);
    PerformOne(sys, a, []);
    assert [a] + [] == [a];
    end := Next(sys, a);
  }
}
