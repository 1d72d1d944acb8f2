/**
 Many clients of pgStore, interleaved one SQL statement at a time.

 A client is a goroutine that uses a store: outside a transaction, inside one begun with
 BeginTransactionQueue, or inside the one QueuePop opens for itself.  Every action is one
 statement (or one failing statement), so the states below include every state between the
 statements of QueuePop and QueueDelete.
 */
module Sessions {
  import opened Options
  import opened Mvcc
  import opened Jobs
  import opened Tables

  type Id = nat

  /** `own`: opened by QueuePop itself.  `broken`: a statement failed, so only a rollback can follow. */
  datatype Mode = Auto | Tx(own: bool, broken: bool)

  /** Where a client stands inside a store call. */
  datatype Call =
    | Idle
    | Counted(q: Query)                // the precount found something
    | Begun(q: Query)                  // inside the pop's transaction
    | Reserved(q: Query, p: Permit)    // permit row inserted
    | Missed(p: Permit)                // the claim returned no rows
    | Failing                          // own transaction about to roll back
    | Won(p: Permit, i: nat, work: BenchWork)  // own transaction about to commit its claim on row i
    | Dropped(p: Permit)               // between the two statements of QueueDelete

  datatype Client = Client(mode: Mode, call: Call)

  /** `born`, `claims`, `undone`, `late` and `leaked` record history and never influence a step. */
  datatype Sys = Sys(
    rows: Rows,
    permits: PermitTable,
    clients: seq<Client>,
    born: seq<Option<Row>>, // each row as it was inserted; None where the insert failed
    claims: seq<nat>,       // rows in the order their claims were executed
    undone: bool,           // some claim was rolled back
    late: bool,             // some row was inserted inside a transaction
    leaked: set<Permit>)    // permits whose QueueDelete failed between its statements

  datatype Action =
    | Push(c: Id, row: Row)
    | PushFailed(c: Id)
    | Begin(c: Id)
    | Count(c: Id, q: Query)
    | BeginPop(c: Id)
    | Reserve(c: Id)
    | Claim(c: Id)
    | Release(c: Id)
    | Commit(c: Id)
    | Rollback(c: Id)
    | DropRow(c: Id, p: Permit)
    | DropPermit(c: Id)
    | Fault(c: Id)

  function Session(sys: Sys, c: Id): Option<TxId>
    requires c < |sys.clients|
  {
    if sys.clients[c].mode.Tx? then Some(c) else None
  }

  predicate Usable(cl: Client) {
    cl.call.Idle? && (cl.mode.Tx? ==> !cl.mode.own && !cl.mode.broken)
  }

  /** An uncommitted reservation of somebody else: no caller has been handed such a permit. */
  predicate Foreign(k: Cell<()>, c: Id) {
    k.base.None? && k.pend.Write? && k.pend.tx != c
  }

  ghost predicate Enabled(sys: Sys, a: Action) {
    && a.c < |sys.clients|
    && var cl := sys.clients[a.c];
    match a
    case Push(_, row) => Usable(cl) && row.permit == 0
    case PushFailed(_) => Usable(cl)
    case Begin(_) => cl == Client(Auto, Idle)
    case Count(_, _) => Usable(cl)
    case BeginPop(_) => cl.mode.Auto? && cl.call.Counted?
    case Reserve(_) => cl.mode.Tx? && !cl.mode.broken && cl.call.Begun?
    case Claim(_) => cl.mode.Tx? && !cl.mode.broken && cl.call.Reserved?
    case Release(_) => cl.mode.Tx? && !cl.mode.broken && cl.call.Missed? && 1 <= cl.call.p <= |sys.permits|
                       && CanDrop(sys.permits[cl.call.p - 1], Some(a.c))
    case Commit(_) => cl.mode.Tx? && !cl.mode.broken && (if cl.mode.own then cl.call.Won? else cl.call.Idle?)
    case Rollback(_) => cl.mode.Tx? && (if cl.mode.own then cl.call.Won? || cl.call.Failing? else cl.call.Idle?)
    case DropRow(_, p) => && Usable(cl) && 1 <= p <= |sys.permits|
                          && !Foreign(sys.permits[p - 1], a.c)
                          && CanDelete(sys.rows, Session(sys, a.c), p)
    case DropPermit(_) => && cl.call.Dropped? && 1 <= cl.call.p <= |sys.permits|
                          && (cl.mode.Tx? ==> !cl.mode.broken)
                          && CanDrop(sys.permits[cl.call.p - 1], Session(sys, a.c))
    case Fault(_) => !cl.call.Won? && !cl.call.Failing? && cl != Client(Auto, Idle)
  }

  function SetClient(sys: Sys, c: Id, cl: Client): Sys
    requires c < |sys.clients|
  {
    sys.(clients := sys.clients[c := cl])
  }

  function Broken(m: Mode): Mode {
    if m.Tx? then m.(broken := true) else m
  }

  /** The client after QueuePop's transaction-side work is over: an own transaction still has to end. */
  function AfterPop(cl: Client, pending: Call): Client {
    if cl.mode.Tx? && cl.mode.own then cl.(call := pending) else cl.(call := Idle)
  }

  function FaultClient(cl: Client): Client {
    if cl.mode.Tx? && cl.mode.own then Client(Broken(cl.mode), Failing) else Client(Broken(cl.mode), Idle)
  }

  /** Transaction `t` has claimed a row (and perhaps deleted it since). */
  ghost predicate HoldsClaim(rows: Rows, t: TxId) {
    exists i: nat :: i < |rows| && rows[i].pend.Write? && rows[i].pend.tx == t && rows[i].base.Some? && rows[i].base.value.permit == 0
  }

  ghost function EndTx(sys: Sys, c: Id, commit: bool): Sys
    requires c < |sys.clients|
  {
    sys.(rows := SettleAll(sys.rows, c, commit),
         permits := SettleAll(sys.permits, c, commit),
         clients := sys.clients[c := Client(Auto, Idle)],
         undone := sys.undone || (!commit && HoldsClaim(sys.rows, c)))
  }

  ghost function Next(sys: Sys, a: Action): Sys
    requires Enabled(sys, a)
  {
    var c := a.c;
    var cl := sys.clients[c];
    var s := Session(sys, c);
    match a
    case Push(_, row) =>
      sys.(rows := sys.rows + [Put(Fresh(), s, Some(row))], born := sys.born + [Some(row)], late := sys.late || s.Some?)
    case PushFailed(_) =>
      SetClient(sys.(rows := sys.rows + [Fresh()], born := sys.born + [None]), c, cl.(mode := Broken(cl.mode)))
    case Begin(_) =>
      SetClient(sys, c, Client(Tx(false, false), Idle))
    case Count(_, q) =>
      if q.types == [] || CountVisible(sys.rows, s, q) == 0 then sys
      else SetClient(sys, c, cl.(call := if cl.mode.Auto? then Counted(q) else Begun(q)))
    case BeginPop(_) =>
      SetClient(sys, c, Client(Tx(true, false), Begun(cl.call.q)))
    case Reserve(_) =>
      SetClient(sys.(permits := sys.permits + [Put(Fresh(), s, Some(()))]), c,
                cl.(call := Reserved(cl.call.q, |sys.permits| + 1)))
    case Claim(_) =>
      var t := FindLeast(sys.rows, s, cl.call.q);
      if t.None? then SetClient(sys, c, cl.(call := Missed(cl.call.p)))
      else SetClient(sys.(rows := sys.rows[t.value := ClaimSlot(sys.rows[t.value], s, cl.call.p)],
                          claims := sys.claims + [t.value]), c,
                     AfterPop(cl, Won(cl.call.p, t.value, Seen(sys.rows[t.value], s).value.item)))
    case Release(_) =>
      SetClient(sys.(permits := sys.permits[cl.call.p - 1 := DropSlot(sys.permits[cl.call.p - 1], s)]), c,
                AfterPop(cl, Failing))
    case Commit(_) => EndTx(sys, c, true)
    case Rollback(_) => EndTx(sys, c, false)
    case DropRow(_, p) =>
      SetClient(sys.(rows := DeleteClaimed(sys.rows, s, p)), c, cl.(call := Dropped(p)))
    case DropPermit(_) =>
      SetClient(sys.(permits := sys.permits[cl.call.p - 1 := DropSlot(sys.permits[cl.call.p - 1], s)]), c,
                cl.(call := Idle))
    case Fault(_) =>
      SetClient(sys.(leaked := if cl.call.Dropped? && cl.mode.Auto? then sys.leaked + {cl.call.p} else sys.leaked),
                c, FaultClient(cl))
  }

  /** The state after the action, if it is possible. */
  ghost function Try(sys: Sys, a: Action): Option<Sys> {
    if Enabled(sys, a) then Some(Next(sys, a)) else None
  }

  predicate Initial(sys: Sys) {
    && sys.rows == [] && sys.permits == [] && sys.born == [] && sys.claims == []
    && !sys.undone && !sys.late && sys.leaked == {}
    && forall c: nat | c < |sys.clients| :: sys.clients[c] == Client(Auto, Idle)
  }

  /** A run: states and the actions between them. */
  ghost predicate IsRun(states: seq<Sys>, acts: seq<Action>) {
    && |states| == |acts| + 1
    && Initial(states[0])
    && forall k: nat {:trigger acts[k]} | k < |acts| :: Try(states[k], acts[k]) == Some(states[k + 1])
  }

  // ----- runs written as a list of actions

  /** The actions one after another, if each is possible. */
  ghost function Perform(sys: Sys, acts: seq<Action>): Option<Sys>
    decreases |acts|
  {
    if acts == [] then Some(sys)
    else if !Enabled(sys, acts[0]) then None
    else Perform(Next(sys, acts[0]), acts[1..])
  }

  lemma {:induction false} PerformOne(sys: Sys, a: Action, acts: seq<Action>)
    requires Enabled(sys, a)
    ensures Perform(sys, [a] + acts) == Perform(Next(sys, a), acts)
  {
    assert ([a] + acts)[1..] == acts;
  }

  lemma {:induction false} PerformAppend(sys: Sys, a: seq<Action>, b: seq<Action>)
    requires Perform(sys, a).Some?
    ensures Perform(sys, a + b) == Perform(Perform(sys, a).value, b)
    decreases |a|
  {
    if a == [] {
      assert a + b == b;
    } else {
      PerformAppend(Next(sys, a[0]), a[1..], b);
      assert (a + b)[1..] == a[1..] + b;
    }
  }

  /** States linked by the actions, from any state on. */
  ghost predicate Linked(states: seq<Sys>, acts: seq<Action>) {
    && |states| == |acts| + 1
    && forall k: nat {:trigger acts[k]} | k < |acts| :: Try(states[k], acts[k]) == Some(states[k + 1])
  }

  lemma {:induction false} PerformLinks(sys: Sys, acts: seq<Action>) returns (states: seq<Sys>)
    requires Perform(sys, acts).Some?
    ensures Linked(states, acts) && states[0] == sys && states[|acts|] == Perform(sys, acts).value
    decreases |acts|
  {
    if acts == [] {
      states := [sys];
    } else {
      var rest := PerformLinks(Next(sys, acts[0]), acts[1..]);
      states := [sys] + rest;
      forall k: nat | k < |acts| ensures Try(states[k], acts[k]) == Some(states[k + 1]) {
        if k > 0 { assert acts[1..][k - 1] == acts[k] && states[k] == rest[k - 1]; }
      }
    }
  }

  /** Actions performed from an initial state are a run. */
  lemma {:induction false} PerformIsRun(sys: Sys, acts: seq<Action>) returns (states: seq<Sys>)
    requires Initial(sys) && Perform(sys, acts).Some?
    ensures IsRun(states, acts) && states[0] == sys && states[|acts|] == Perform(sys, acts).value
  {
    states := PerformLinks(sys, acts);
  }
}
