/**
 No overtaking under SKIP LOCKED.  As long as no claim is rolled back and rows are inserted
 outside transactions, a row is claimed only after every earlier row of at most its priority
 number that the poppers could have taken instead: a row that a popper skips because it is
 locked has already been claimed.
 */
module Ordering {
  import opened Options
  import opened Mvcc
  import opened Tables
  import opened Sessions
  import opened Permits

  /** Whoever asks with one of the queries `qs` and may take `b` may take `a`, and `a` is at least as urgent. */
  ghost predicate Before(qs: set<Query>, a: Option<Row>, b: Option<Row>) {
    && a.Some? && b.Some? && a.value.priority <= b.value.priority
    && forall q | q in qs && Matches(q, b.value) :: Matches(q, a.value)
  }

  /** The queries of pops in progress are among `qs`. */
  ghost predicate Asked(sys: Sys, qs: set<Query>) {
    forall c: nat | c < |sys.clients| && (sys.clients[c].call.Counted? || sys.clients[c].call.Begun? || sys.clients[c].call.Reserved?) ::
      sys.clients[c].call.q in qs
  }

  /** No session can still claim the row. */
  predicate Taken(c: Cell<Row>) {
    && (c.base.Some? && c.base.value.permit == 0 ==> c.pend.Write?)
    && (c.pend.Write? && c.pend.value.Some? ==> c.pend.value.value.permit != 0)
  }

  predicate Waiting(c: Cell<Row>, b: Option<Row>) {
    && (b.Some? ==> b.value.permit == 0)
    && c == Cell(b, NoWrite)
  }

  ghost predicate Well(sys: Sys) {
    && |sys.born| == |sys.rows|
    && forall x: nat | x < |sys.claims| :: sys.claims[x] < |sys.rows|
  }

  ghost predicate Sorted(sys: Sys, qs: set<Query>)
    requires Well(sys)
  {
    && (forall i: nat | i < |sys.rows| :: if i in sys.claims then Taken(sys.rows[i]) else Waiting(sys.rows[i], sys.born[i]))
    && (forall x: nat, i: nat | x < |sys.claims| && i < sys.claims[x] && Before(qs, sys.born[i], sys.born[sys.claims[x]]) ::
          i in sys.claims[..x])
    && (forall x: nat, y: nat | x < y < |sys.claims| :: sys.claims[x] != sys.claims[y])
  }

  ghost predicate InOrder(sys: Sys, qs: set<Query>) {
    Well(sys) && (!sys.undone && !sys.late ==> Sorted(sys, qs))
  }

  /** The claimed row was still waiting, and every earlier row that comes before it is taken. */
  lemma ClaimTakesNext(sys: Sys, qs: set<Query>, a: Action, j: nat, i: nat)
    requires Inv(sys) && Enabled(sys, a) && a.Claim? && Well(sys) && Sorted(sys, qs) && Asked(sys, qs)
    requires IsLeast(sys.rows, Some(a.c), sys.clients[a.c].call.q, j)
    ensures j !in sys.claims
    ensures i < j && Before(qs, sys.born[i], sys.born[j]) ==> i in sys.claims
  {
    assert if j in sys.claims then Taken(sys.rows[j]) else Waiting(sys.rows[j], sys.born[j]);
    assert if i < |sys.rows| && i !in sys.claims then Waiting(sys.rows[i], sys.born[i]) else true;
  }

  lemma ClaimInOrder(sys: Sys, qs: set<Query>, a: Action)
    requires Inv(sys) && Enabled(sys, a) && a.Claim? && InOrder(sys, qs) && Asked(sys, qs)
    ensures InOrder(Next(sys, a), qs)
  {
    var n := Next(sys, a);
    var t := FindLeast(sys.rows, Some(a.c), sys.clients[a.c].call.q);
    assert InCall(sys.clients[a.c], a.c, sys.rows, sys.permits);
    if t.Some? && !sys.undone && !sys.late {
      var j := t.value;
      ClaimTakesNext(sys, qs, a, j, j);
      assert Waiting(sys.rows[j], sys.born[j]);
      forall i: nat | i < j && Before(qs, sys.born[i], sys.born[j])
        ensures i in sys.claims
      {
        ClaimTakesNext(sys, qs, a, j, i);
      }
      ClaimLogged(sys.claims, j, sys.born, qs);
      assert forall i: nat | i < |sys.rows| :: i in n.claims <==> i == j || i in sys.claims;
    }
  }

  /** Appending `j` to the log keeps it in order. */
  lemma ClaimLogged(claims: seq<nat>, j: nat, born: seq<Option<Row>>, qs: set<Query>)
    requires j < |born| && j !in claims
    requires forall x: nat | x < |claims| :: claims[x] < |born|
    requires forall x: nat, i: nat | x < |claims| && i < claims[x] && Before(qs, born[i], born[claims[x]]) :: i in claims[..x]
    requires forall x: nat, y: nat | x < y < |claims| :: claims[x] != claims[y]
    requires forall i: nat | i < j && Before(qs, born[i], born[j]) :: i in claims
    ensures var l := claims + [j];
            && (forall x: nat, i: nat | x < |l| && i < l[x] && Before(qs, born[i], born[l[x]]) :: i in l[..x])
            && (forall x: nat, y: nat | x < y < |l| :: l[x] != l[y])
  {
    var l := claims + [j];
    forall x: nat, i: nat | x < |l| && i < l[x] && Before(qs, born[i], born[l[x]])
      ensures i in l[..x]
    {
      if x < |claims| {
        assert l[..x] == claims[..x];
      } else {
        assert l[..x] == claims;
      }
    }
  }

  lemma EndInOrder(sys: Sys, qs: set<Query>, a: Action)
    requires Inv(sys) && Enabled(sys, a) && (a.Commit? || a.Rollback?) && InOrder(sys, qs)
    ensures InOrder(Next(sys, a), qs)
  {
    var n := Next(sys, a);
    if !n.undone && !n.late {
      forall i: nat | i < |n.rows|
        ensures if i in n.claims then Taken(n.rows[i]) else Waiting(n.rows[i], n.born[i])
      {
        assert n.rows[i] == Settle(sys.rows[i], a.c, a.Commit?);
        assert if i in sys.claims then Taken(sys.rows[i]) else Waiting(sys.rows[i], sys.born[i]);
        assert Backed(sys.rows[i], sys.permits);
      }
    }
  }

  lemma PushInOrder(sys: Sys, qs: set<Query>, a: Action)
    requires Inv(sys) && Enabled(sys, a) && (a.Push? || a.PushFailed?) && InOrder(sys, qs)
    ensures InOrder(Next(sys, a), qs)
  {
    var n := Next(sys, a);
    if !n.undone && !n.late {
      assert forall i: nat | i < |sys.rows| :: n.rows[i] == sys.rows[i] && n.born[i] == sys.born[i];
      assert |sys.rows| !in n.claims;
    }
  }

  lemma DropRowInOrder(sys: Sys, qs: set<Query>, a: Action)
    requires Inv(sys) && Enabled(sys, a) && a.DropRow? && InOrder(sys, qs)
    ensures InOrder(Next(sys, a), qs)
  {
    var n := Next(sys, a);
    if !n.undone && !n.late {
      forall i: nat | i < |n.rows|
        ensures if i in n.claims then Taken(n.rows[i]) else Waiting(n.rows[i], n.born[i])
      {
        assert if i in sys.claims then Taken(sys.rows[i]) else Waiting(sys.rows[i], sys.born[i]);
      }
    }
  }

  lemma StepInOrder(sys: Sys, qs: set<Query>, a: Action)
    requires Inv(sys) && Enabled(sys, a) && InOrder(sys, qs) && Asked(sys, qs)
    ensures InOrder(Next(sys, a), qs)
  {
    match a
    case Push(_, _) => PushInOrder(sys, qs, a);
    case PushFailed(_) => PushInOrder(sys, qs, a);
    case Claim(_) => ClaimInOrder(sys, qs, a);
    case Commit(_) => EndInOrder(sys, qs, a);
    case Rollback(_) => EndInOrder(sys, qs, a);
    case DropRow(_, _) => DropRowInOrder(sys, qs, a);
    case _ =>
  }

  lemma StepAsked(sys: Sys, qs: set<Query>, a: Action)
    requires Enabled(sys, a) && Asked(sys, qs) && (a.Count? ==> a.q in qs)
    ensures Asked(Next(sys, a), qs)
  {
  }

  /** Every pop of the run asks with one of the queries `qs`. */
  ghost predicate PopsAsk(acts: seq<Action>, qs: set<Query>) {
    forall k: nat | k < |acts| && acts[k].Count? :: acts[k].q in qs
  }

  lemma {:induction false} RunInOrder(states: seq<Sys>, acts: seq<Action>, qs: set<Query>, k: nat)
    requires IsRun(states, acts) && PopsAsk(acts, qs) && k < |states|
    ensures InOrder(states[k], qs) && Asked(states[k], qs)
  {
    if k > 0 {
      RunInOrder(states, acts, qs, k - 1);
      RunKeeps(states, acts, k - 1);
      StepInOrder(states[k - 1], qs, acts[k - 1]);
      StepAsked(states[k - 1], qs, acts[k - 1]);
    }
  }

  /**
   In any run without a rolled-back claim and without transactional inserts no row is claimed twice, and when a
   row has been claimed, every row inserted before it that is at least as urgent and open to the same pops has
   been claimed earlier.  So rows of equal priority that are open to every popper are claimed in id order.
   */
  lemma NoOvertaking(states: seq<Sys>, acts: seq<Action>, qs: set<Query>, k: nat, y: nat, i: nat)
    requires IsRun(states, acts) && PopsAsk(acts, qs) && k < |states| && !states[k].undone && !states[k].late
    requires y < |states[k].claims| && i < states[k].claims[y] < |states[k].born|
    requires Before(qs, states[k].born[i], states[k].born[states[k].claims[y]])
    ensures exists x: nat :: x < y && states[k].claims[x] == i
    ensures forall x: nat | x < |states[k].claims| && states[k].claims[x] == i :: x < y
  {
    RunInOrder(states, acts, qs, k);
    var claims := states[k].claims;
    assert i in claims[..y];
    var x: nat :| x < y && claims[..y][x] == i;
    assert claims[x] == i;
  }

  /**
   In every run a claim takes the most urgent of the rows that are visible, unclaimed, unlocked and matching at that
   moment, whatever their ids: no free row has a smaller priority number, or the same one and a smaller id.
   */
  lemma NeverLessUrgent(states: seq<Sys>, acts: seq<Action>, k: nat, i: nat, j: nat)
    requires IsRun(states, acts) && k < |acts| && acts[k].Claim? && states[k + 1].claims == states[k].claims + [i]
    ensures var sys, c := states[k], acts[k].c;
            && c < |sys.clients| && sys.clients[c].call.Reserved?
            && var q := sys.clients[c].call.q;
            && Free(sys.rows, Some(c), q.name, q.maxPriority, q.types, i)
            && (Free(sys.rows, Some(c), q.name, q.maxPriority, q.types, j) ==>
                  var mine, other := Seen(sys.rows[i], Some(c)).value.priority, Seen(sys.rows[j], Some(c)).value.priority;
                  mine <= other && (mine == other ==> i <= j))
  {
    ClaimOfRun(states[k], acts[k], states[k + 1], i);
    LeastIsMostUrgent(states[k].rows, Some(acts[k].c), states[k].clients[acts[k].c].call.q, i);
  }

  lemma ClaimOfRun(sys: Sys, a: Action, n: Sys, i: nat)
    requires Try(sys, a) == Some(n) && a.Claim? && n.claims == sys.claims + [i]
    ensures a.c < |sys.clients| && sys.clients[a.c].call.Reserved? && FindLeast(sys.rows, Some(a.c), sys.clients[a.c].call.q) == Some(i)
  {
    var t := FindLeast(sys.rows, Some(a.c), sys.clients[a.c].call.q);
    assert |n.claims| == |sys.claims| + 1 && n.claims[|sys.claims|] == i;
  }

  /** Why claims must not be rolled back: a pop that loses its commit puts its row back in line. */
  lemma RollbackReopens(sys: Sys, c: Id)
    requires Inv(sys) && c < |sys.clients| && sys.clients[c].call.Won?
    ensures Enabled(sys, Rollback(c))
    ensures var n := Next(sys, Rollback(c)); var i := sys.clients[c].call.i;
            && n.undone && i < |n.rows|
            && n.rows[i].pend.NoWrite? && n.rows[i].base.Some? && n.rows[i].base.value.permit == 0
  {
    assert InCall(sys.clients[c], c, sys.rows, sys.permits);
  }
}
