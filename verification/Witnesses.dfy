/** Concrete runs that show why the conditions of the main theorems are there. */
module Witnesses {
  import opened Options
  import opened Mvcc
  import opened Jobs
  import opened Tables
  import opened Sessions
  import opened Sequential
  import opened Quiet
  import opened Ordering
  import opened Retry
  import opened Tokens

  // ----- one client, one row

  const IDLE := Client(Auto, Idle)

  /** An empty store with `n` clients. */
  function Empty(n: nat): Sys {
    Sys([], [], seq(n, i => IDLE), [], [], false, false, {})
  }

  /** The first four statements of a pop by client `c`. */
  function PopActions(c: Id, q: Query): seq<Action> {
    [Count(c, q), BeginPop(c)] + [Reserve(c), Claim(c)]
  }

  /** Row `j` is the only one there is for `q`. */
  ghost predicate OnlyRow(sys: Sys, c: Id, q: Query, j: nat, row: Row) {
    && j < |sys.rows| && sys.rows[j] == Cell(Some(row), NoWrite) && Matches(q, row)
    && forall i: nat | i < |sys.rows| && i != j :: !Visible(sys.rows[i], None, q) && !Visible(sys.rows[i], Some(c), q)
  }

  /** The state of a pop that has won row `j` and is about to commit. */
  function WonState(sys: Sys, c: Id, j: nat, row: Row): Sys
    requires c < |sys.clients| && j < |sys.rows|
  {
    var p := |sys.permits| + 1;
    sys.(rows := sys.rows[j := Cell(Some(row), Write(c, Some(row.(permit := p))))],
         permits := sys.permits + [Cell(None, Write(c, Some(())))],
         clients := sys.clients[c := Client(Tx(true, false), Won(p, j, row.item))],
         claims := sys.claims + [j])
  }

  lemma OnlyIsLeast(sys: Sys, c: Id, q: Query, j: nat, row: Row)
    requires OnlyRow(sys, c, q, j, row)
    ensures FindLeast(sys.rows, Some(c), q) == Some(j)
  {
    assert Eligible(sys.rows[j], Some(c), q);
  }

  lemma {:induction false} PopWins(sys: Sys, c: Id, q: Query, j: nat, row: Row)
    requires c < |sys.clients| && sys.clients[c] == IDLE && j < |sys.rows| && sys.rows[j] == Cell(Some(row), NoWrite) && Matches(q, row)
    requires FindLeast(sys.rows, Some(c), q) == Some(j)
    ensures Perform(sys, PopActions(c, q)) == Some(WonState(sys, c, j, row))
  {
    assert Visible(sys.rows[j], None, q);
    PerformTwo(sys, Count(c, q), BeginPop(c));
    var s2 := At(sys, c, Client(Tx(true, false), Begun(q)));
    assert Next(Next(sys, Count(c, q)), BeginPop(c)) == s2;
    PerformTwo(s2, Reserve(c), Claim(c));
    assert Next(Next(s2, Reserve(c)), Claim(c)) == WonState(sys, c, j, row);
    PerformAppend(sys, [Count(c, q), BeginPop(c)], [Reserve(c), Claim(c)]);
  }

  lemma {:induction false} PushFirst(n: nat, row: Row)
    requires n > 0 && row.permit == 0
    ensures Perform(Empty(n), [Push(0, row)]) == Some(Empty(n).(rows := [Cell(Some(row), NoWrite)], born := [Some(row)]))
  {
    PerformOne(Empty(n), Push(0, row), []);
    assert [Push(0, row)] + [] == [Push(0, row)];
    var s1 := Next(Empty(n), Push(0, row));
    assert s1.rows == [Cell(Some(row), NoWrite)] && s1.born == [Some(row)];
  }

  // ----- a leaked permit

  /** A quiet state in which permit 1 is present, claimed by no row, and leaked. */
  function LeakedState(row: Row): Sys {
    Empty(1).(rows := [Cell(None, NoWrite)], permits := [Cell(Some(()), NoWrite)], born := [Some(row)], claims := [0], leaked := {1})
  }

  lemma {:induction false} CommitThenDelete(row: Row)
    requires row.permit == 0
    ensures var s1 := Empty(1).(rows := [Cell(Some(row), NoWrite)], born := [Some(row)]);
            Perform(WonState(s1, 0, 0, row), [Commit(0), DropRow(0, 1), Fault(0)]) == Some(LeakedState(row))
  {
    var s1 := Empty(1).(rows := [Cell(Some(row), NoWrite)], born := [Some(row)]);
    var won := WonState(s1, 0, 0, row);
    var s3 := Next(won, Commit(0));
    assert s3.rows == [Cell(Some(row.(permit := 1)), NoWrite)] && s3.permits == [Cell(Some(()), NoWrite)];
    assert s3.clients == [IDLE];
    var s4 := Next(s3, DropRow(0, 1));
    assert s4.rows == [Cell(None, NoWrite)];
    var s5 := Next(s4, Fault(0));
    assert s5.clients == [IDLE] && Empty(1).clients == [IDLE];
    assert s5.claims == [0] && s5.leaked == {1} && !s5.undone;
    assert s5 == LeakedState(row);
    PerformThree(won, Commit(0), DropRow(0, 1), Fault(0));
  }

  /** A run that ends quiet with a leak: QueueDelete's second statement fails. */
  lemma {:induction false} LeakReachable(row: Row) returns (states: seq<Sys>, acts: seq<Action>)
    requires row.permit == 0
    ensures IsRun(states, acts) && states[|acts|] == LeakedState(row) && IsQuiet(states[|acts|])
    ensures 1 in PresentPermits(states[|acts|].permits) && 1 in states[|acts|].leaked && ClaimedPermits(states[|acts|].rows) == {}
  {
    var q := Query(row.name, row.priority, [row.typ]);
    var s1 := Empty(1).(rows := [Cell(Some(row), NoWrite)], born := [Some(row)]);
    PushFirst(1, row);
    OnlyIsLeast(s1, 0, q, 0, row);
    PopWins(s1, 0, q, 0, row);
    CommitThenDelete(row);
    var tail := [Commit(0), DropRow(0, 1), Fault(0)];
    PerformAppend(s1, PopActions(0, q), tail);
    PerformAppend(Empty(1), [Push(0, row)], PopActions(0, q) + tail);
    acts := [Push(0, row)] + (PopActions(0, q) + tail);
    states := PerformIsRun(Empty(1), acts);
    assert states[|acts|] == LeakedState(row);
    assert Present(LeakedState(row).permits, 1);
  }

  /** A leak is not for ever: a later QueueDelete of the same permit removes it. */
  lemma {:induction false} LeakCanBeDeleted(row: Row)
    ensures var end := Perform(LeakedState(row), [DropRow(0, 1), DropPermit(0)]);
            end.Some? && PresentPermits(end.value.permits) == {}
  {
    var sys := LeakedState(row);
    var end := DeleteAlone(sys, 0, 1, false);
    assert end.permits == [Cell(None, NoWrite)];
  }

  // ----- overtaking when rows are inserted inside transactions

  lemma {:induction false} TwoInserts(row: Row)
    requires row.permit == 0
    ensures Perform(Empty(2), [Begin(0), Push(0, row), Push(1, row)])
            == Some(Empty(2).(rows := [Cell(None, Write(0, Some(row))), Cell(Some(row), NoWrite)],
                              born := [Some(row), Some(row)], late := true,
                              clients := [Client(Tx(false, false), Idle), IDLE]))
  {
    PerformThree(Empty(2), Begin(0), Push(0, row), Push(1, row));
    var s1 := Next(Empty(2), Begin(0));
    assert s1.clients == [Client(Tx(false, false), Idle), IDLE];
    var s2 := Next(s1, Push(0, row));
    assert s2.rows == [Cell(None, Write(0, Some(row)))];
    var s3 := Next(s2, Push(1, row));
    assert s3.rows == [Cell(None, Write(0, Some(row))), Cell(Some(row), NoWrite)];
    assert s3.born == [Some(row), Some(row)] && s3.clients == s1.clients;
  }

  /**
   Why inserts must not be transactional: row 0 is inserted first but becomes visible last, and the equal row 1
   is claimed before it, without any rollback.
   */
  lemma {:induction false} LateInsertOvertaken(row: Row) returns (states: seq<Sys>, acts: seq<Action>)
    requires row.permit == 0
    ensures IsRun(states, acts)
    ensures var end := states[|acts|];
            && !end.undone && end.late && end.claims == [1] && |end.born| == 2
            && forall qs: set<Query> :: Before(qs, end.born[0], end.born[1])
  {
    var q := Query(row.name, row.priority, [row.typ]);
    TwoInserts(row);
    var first := [Begin(0), Push(0, row), Push(1, row)];
    var s3 := Perform(Empty(2), first).value;
    OnlyIsLeast(s3, 1, q, 1, row);
    PopWins(s3, 1, q, 1, row);
    PerformAppend(Empty(2), first, PopActions(1, q));
    acts := first + PopActions(1, q);
    states := PerformIsRun(Empty(2), acts);
  }

  // ----- overtaking when a claim is rolled back

  /** Two equal rows, pushed one after the other. */
  function TwoRows(row: Row): Sys {
    Empty(2).(rows := [Cell(Some(row), NoWrite), Cell(Some(row), NoWrite)], born := [Some(row), Some(row)])
  }

  lemma {:induction false} PushTwo(row: Row)
    requires row.permit == 0
    ensures Perform(Empty(2), [Push(0, row), Push(0, row)]) == Some(TwoRows(row))
  {
    PerformTwo(Empty(2), Push(0, row), Push(0, row));
    var s1 := Next(Empty(2), Push(0, row));
    assert s1.rows == [Cell(Some(row), NoWrite)] && s1.born == [Some(row)];
    var s2 := Next(s1, Push(0, row));
    assert s2.rows == TwoRows(row).rows && s2.born == TwoRows(row).born;
  }

  /** The first row goes to client 0; client 1 skips it, since it is locked, and takes the second. */
  lemma LockedIsSkipped(row: Row, q: Query)
    requires row.permit == 0 && Matches(q, row)
    ensures FindLeast(TwoRows(row).rows, Some(0), q) == Some(0)
    ensures FindLeast(WonState(TwoRows(row), 0, 0, row).rows, Some(1), q) == Some(1)
  {
    var two := TwoRows(row).rows;
    assert Eligible(two[0], Some(0), q) && Eligible(two[1], Some(0), q);
    var won := WonState(TwoRows(row), 0, 0, row).rows;
    assert !Eligible(won[0], Some(1), q) && Eligible(won[1], Some(1), q);
  }

  /**
   Why claims must not be rolled back: client 0 claims row 0, client 1 skips it and claims the equal row 1, and
   client 0's commit is lost.  The later row is claimed for good while the earlier one waits again.
   */
  lemma {:induction false} RolledBackClaimOvertaken(row: Row) returns (states: seq<Sys>, acts: seq<Action>)
    requires row.permit == 0
    ensures IsRun(states, acts)
    ensures var end := states[|acts|];
            && end.undone && !end.late && end.claims == [0, 1] && end.rows == [Cell(Some(row), NoWrite), Cell(Some(row.(permit := 2)), NoWrite)]
  {
    var q := Query(row.name, row.priority, [row.typ]);
    var s1 := TwoRows(row);
    PushTwo(row);
    LockedIsSkipped(row, q);
    PopWins(s1, 0, q, 0, row);
    var s2 := WonState(s1, 0, 0, row);
    PopWins(s2, 1, q, 1, row);
    var s3 := WonState(s2, 1, 1, row);
    var tail := [Sessions.Commit(1), Rollback(0)];
    EndBoth(row);
    PerformAppend(s2, PopActions(1, q), tail);
    PerformAppend(s1, PopActions(0, q), PopActions(1, q) + tail);
    PerformAppend(Empty(2), [Push(0, row), Push(0, row)], PopActions(0, q) + (PopActions(1, q) + tail));
    acts := [Push(0, row), Push(0, row)] + (PopActions(0, q) + (PopActions(1, q) + tail));
    states := PerformIsRun(Empty(2), acts);
  }

  lemma {:induction false} EndBoth(row: Row)
    requires row.permit == 0
    ensures var s3 := WonState(WonState(TwoRows(row), 0, 0, row), 1, 1, row);
            var end := Perform(s3, [Sessions.Commit(1), Rollback(0)]);
            && end.Some? && end.value.undone && !end.value.late && end.value.claims == [0, 1]
            && end.value.rows == [Cell(Some(row), NoWrite), Cell(Some(row.(permit := 2)), NoWrite)]
  {
    var s3 := WonState(WonState(TwoRows(row), 0, 0, row), 1, 1, row);
    var s4 := Next(s3, Sessions.Commit(1));
    assert s4.rows == [Cell(Some(row), Write(0, Some(row.(permit := 1)))), Cell(Some(row.(permit := 2)), NoWrite)];
    var s5 := Next(s4, Rollback(0));
    assert s5.rows == [Cell(Some(row), NoWrite), Cell(Some(row.(permit := 2)), NoWrite)];
    assert s4.rows[0].pend.Write? && s4.rows[0].base.value.permit == 0;
    PerformTwo(s3, Sessions.Commit(1), Rollback(0));
  }

  // ----- the same attempt twice after a lost commit

  /** Moves one after another, if each is possible. */
  ghost function Play(cfg: Config, h: Harness, ms: seq<Move>): Option<Harness>
    decreases |ms|
  {
    if ms == [] then Some(h)
    else match TryMove(cfg, h, ms[0])
         case None => None
         case Some(n) => Play(cfg, n, ms[1..])
  }

  lemma {:induction false} PlayOne(cfg: Config, h: Harness, m: Move, ms: seq<Move>)
    requires CanMove(h, m)
    ensures Play(cfg, h, [m] + ms) == Play(cfg, MoveNext(cfg, h, m), ms)
  {
    assert ([m] + ms)[1..] == ms;
  }

  ghost predicate Played(cfg: Config, hs: seq<Harness>, ms: seq<Move>) {
    && |hs| == |ms| + 1
    && forall k: nat {:trigger ms[k]} | k < |ms| :: TryMove(cfg, hs[k], ms[k]) == Some(hs[k + 1])
  }

  lemma {:induction false} PlayStates(cfg: Config, h: Harness, ms: seq<Move>) returns (hs: seq<Harness>)
    requires Play(cfg, h, ms).Some?
    ensures Played(cfg, hs, ms) && hs[0] == h && hs[|ms|] == Play(cfg, h, ms).value
    decreases |ms|
  {
    if ms == [] {
      hs := [h];
    } else {
      var n := TryMove(cfg, h, ms[0]);
      var rest := PlayStates(cfg, n.value, ms[1..]);
      hs := [h] + rest;
      PlayedFirst(cfg, h, ms[0], rest, ms[1..], n);
      assert [ms[0]] + ms[1..] == ms;
    }
  }

  /** One more move at the front; `n` is what it leads to. */
  lemma {:induction false} PlayedFirst(cfg: Config, h: Harness, m: Move, rest: seq<Harness>, ms: seq<Move>, n: Option<Harness>)
    requires Played(cfg, rest, ms) && n == TryMove(cfg, h, m) && n == Some(rest[0])
    ensures Played(cfg, [h] + rest, [m] + ms)
  {
    var hs, all := [h] + rest, [m] + ms;
    forall k: nat | k < |all| ensures TryMove(cfg, hs[k], all[k]) == Some(hs[k + 1]) {
      if k > 0 { assert all[k] == ms[k - 1]; }
    }
  }

  /** The statements of a pop up to its claim, as moves, and what follows. */
  function PopThen(c: Id, q: Query, rest: seq<Move>): seq<Move> {
    [Move.Store(Count(c, q))] + ([Move.Store(BeginPop(c))] + ([Move.Store(Reserve(c))] + ([Move.Store(Claim(c))] + rest)))
  }

  lemma {:induction false} PlayPop(cfg: Config, h: Harness, q: Query, row: Row, rest: seq<Move>)
    requires h.sys.clients == [IDLE] && h.sys.rows == [Cell(Some(row), NoWrite)] && Matches(q, row)
    ensures Play(cfg, h, PopThen(0, q, rest)) == Play(cfg, h.(sys := WonState(h.sys, 0, 0, row)), rest)
  {
    PopStates(h.sys, q, row);
    var s1 := Next(h.sys, Count(0, q));
    var s2 := Next(s1, BeginPop(0));
    var s3 := Next(s2, Reserve(0));
    PlayStore(cfg, h, Count(0, q), [Move.Store(BeginPop(0))] + ([Move.Store(Reserve(0))] + ([Move.Store(Claim(0))] + rest)));
    PlayStore(cfg, h.(sys := s1), BeginPop(0), [Move.Store(Reserve(0))] + ([Move.Store(Claim(0))] + rest));
    PlayStore(cfg, h.(sys := s2), Reserve(0), [Move.Store(Claim(0))] + rest);
    PlayStore(cfg, h.(sys := s3), Claim(0), rest);
  }

  lemma {:induction false} PlayStore(cfg: Config, h: Harness, a: Action, rest: seq<Move>)
    requires Enabled(h.sys, a) && StoreOnly(h.sys, a)
    ensures Play(cfg, h, [Move.Store(a)] + rest) == Play(cfg, h.(sys := Next(h.sys, a)), rest)
  {
    PlayOne(cfg, h, Move.Store(a), rest);
  }

  /** The four statements one by one. */
  lemma {:induction false} PopStates(sys: Sys, q: Query, row: Row)
    requires sys.clients == [IDLE] && sys.rows == [Cell(Some(row), NoWrite)] && Matches(q, row)
    ensures Enabled(sys, Count(0, q))
    ensures var s1 := Next(sys, Count(0, q)); Enabled(s1, BeginPop(0))
    ensures var s2 := Next(Next(sys, Count(0, q)), BeginPop(0)); Enabled(s2, Reserve(0))
    ensures var s3 := Next(Next(Next(sys, Count(0, q)), BeginPop(0)), Reserve(0));
            Enabled(s3, Claim(0)) && Next(s3, Claim(0)) == WonState(sys, 0, 0, row)
  {
    assert Visible(sys.rows[0], None, q) && Eligible(sys.rows[0], Some(0), q);
    assert FindLeast(sys.rows, Some(0), q) == Some(0);
    var s2 := Next(Next(sys, Count(0, q)), BeginPop(0));
    assert s2 == At(sys, 0, Client(Tx(true, false), Begun(q)));
    assert Next(Next(s2, Reserve(0)), Claim(0)) == WonState(sys, 0, 0, row);
  }

  /** A pop that has won hands over its work, with its commit lost or not. */
  lemma {:induction false} PlayEnd(cfg: Config, h: Harness, row: Row, lost: bool)
    requires h.sys.clients == [IDLE] && h.sys.rows == [Cell(Some(row), NoWrite)] && row.permit == 0
    ensures var won := h.(sys := WonState(h.sys, 0, 0, row));
            var m := if lost then PopLost(0) else PopReturn(0);
            && CanMove(won, m)
            && var n := MoveNext(cfg, won, m);
            && n.attempts == h.attempts + [Attempt(row.item, |h.sys.permits| + 1, Popped)]
            && |n.sys.permits| == |h.sys.permits| + 1
            && n.sys.clients == [IDLE] && n.lost == (lost || h.lost) && (lost ==> n.sys.rows == h.sys.rows)
  {
    var won := h.(sys := WonState(h.sys, 0, 0, row));
    var n := MoveNext(cfg, won, if lost then PopLost(0) else PopReturn(0));
    assert n.sys.clients == [IDLE];
    assert lost ==> n.sys.rows == [Cell(Some(row), NoWrite)];
  }

  lemma {:induction false} PlayPopEnd(cfg: Config, h: Harness, q: Query, row: Row, lost: bool, rest: seq<Move>) returns (n: Harness)
    requires h.sys.clients == [IDLE] && h.sys.rows == [Cell(Some(row), NoWrite)] && Matches(q, row)
    ensures Play(cfg, h, PopThen(0, q, [if lost then PopLost(0) else PopReturn(0)] + rest)) == Play(cfg, n, rest)
    ensures n.attempts == h.attempts + [Attempt(row.item, |h.sys.permits| + 1, Popped)] && |n.sys.permits| == |h.sys.permits| + 1
    ensures n.sys.clients == [IDLE] && n.lost == (lost || h.lost) && (lost ==> n.sys.rows == h.sys.rows)
  {
    var won, m := h.(sys := WonState(h.sys, 0, 0, row)), if lost then PopLost(0) else PopReturn(0);
    PlayPop(cfg, h, q, row, [m] + rest);
    PlayEnd(cfg, h, row, lost);
    PlayOne(cfg, won, m, rest);
    n := MoveNext(cfg, won, m);
  }

  const FRESH := Harness(Empty(1), 0, [], [], false, false, map[])

  lemma {:induction false} PlayEnqueue(cfg: Config, tenant: string, kind: Kind, payload: Payload, rest: seq<Move>)
    returns (h: Harness, w: BenchWork)
    ensures w == BenchWork(1, tenant, kind, 1, payload)
    ensures Play(cfg, FRESH, [Enqueue(0, tenant, kind, payload)] + rest) == Play(cfg, h, rest)
    ensures h.sys.clients == [IDLE] && h.sys.rows == [Cell(Some(FirstRow(cfg, w)), NoWrite)] && h.attempts == []
  {
    w := BenchWork(1, tenant, kind, 1, payload);
    EnqueueFirst(cfg, tenant, kind, payload, w);
    PlayOne(cfg, FRESH, Enqueue(0, tenant, kind, payload), rest);
    h := MoveNext(cfg, FRESH, Enqueue(0, tenant, kind, payload));
  }

  lemma {:induction false} EnqueueFirst(cfg: Config, tenant: string, kind: Kind, payload: Payload, w: BenchWork)
    requires w == BenchWork(1, tenant, kind, 1, payload)
    ensures var m := Enqueue(0, tenant, kind, payload);
            && CanMove(FRESH, m)
            && var h := MoveNext(cfg, FRESH, m);
            && h.sys.clients == [IDLE] && h.sys.rows == [Cell(Some(FirstRow(cfg, w)), NoWrite)] && h.attempts == []
  {
    var sys := Next(FRESH.sys, Push(0, FirstRow(cfg, w)));
    assert sys.rows == [Cell(Some(FirstRow(cfg, w)), NoWrite)] && sys.clients == [IDLE];
  }

  /** Enqueue, a pop whose commit is lost, and a second pop. */
  function TwiceMoves(tenant: string, kind: Kind, payload: Payload, q: Query): seq<Move> {
    [Enqueue(0, tenant, kind, payload)] + PopThen(0, q, [PopLost(0)] + PopThen(0, q, [PopReturn(0)] + []))
  }

  lemma {:induction false} PlayTwice(cfg: Config, tenant: string, kind: Kind, payload: Payload, q: Query) returns (h: Harness)
    requires q == Query(cfg.queue, cfg.priority, [cfg.code(kind)])
    ensures Play(cfg, FRESH, TwiceMoves(tenant, kind, payload, q)) == Some(h)
    ensures h.lost && |h.attempts| == 2 && h.attempts[0].work == h.attempts[1].work && h.attempts[0].permit != h.attempts[1].permit
  {
    var last: seq<Move> := [];
    var second := PopThen(0, q, [PopReturn(0)] + last);
    var h1, w := PlayEnqueue(cfg, tenant, kind, payload, PopThen(0, q, [PopLost(0)] + second));
    var row := FirstRow(cfg, w);
    var h2 := PlayPopEnd(cfg, h1, q, row, true, second);
    h := PlayPopEnd(cfg, h2, q, row, false, last);
  }

  /** A history, for every configuration and job, in which a lost commit makes the same attempt of the same job run twice. */
  lemma {:induction false} LostCommitRunsTwice(cfg: Config, tenant: string, kind: Kind, payload: Payload)
    returns (hs: seq<Harness>, ms: seq<Move>)
    requires ValidConfig(cfg)
    ensures IsHistory(cfg, hs, ms) && hs[|ms|].lost
    ensures var runs := hs[|ms|].attempts; |runs| == 2 && runs[0].work == runs[1].work && runs[0].permit != runs[1].permit
  {
    var q := Query(cfg.queue, cfg.priority, [cfg.code(kind)]);
    ms := TwiceMoves(tenant, kind, payload, q);
    var h := PlayTwice(cfg, tenant, kind, payload, q);
    hs := PlayStates(cfg, FRESH, ms);
  }
}
