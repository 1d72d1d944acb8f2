/**
 When "work ready" notifications go out.  The statement that makes a change, the queueNotify
 after it, the commit, and every turn of the flush loop are separate steps, interleaved over any
 number of callers with every statement of the store.  Callers outside a transaction share the
 one top-level store; a transaction's store belongs to its caller.
 */
module Notifications {
  import opened Options
  import opened Mvcc
  import opened Tables
  import opened Sessions
  import opened Permits

  /** A push of row `i` or a delete under permit `p`; `tx` numbers the caller's transactions, None is a direct call. */
  datatype Change = Pushed(who: Id, tx: Option<nat>, i: nat) | Deleted(who: Id, tx: Option<nat>, p: Permit)

  /** A caller's side: notification about to be queued, pendingNotifications, rest of the flush loop, and how its transactions ended. */
  datatype Desk = Desk(owed: Option<nat>, held: seq<nat>, flush: seq<nat>, ended: seq<bool>)

  /** `sent` is what the notifier has been given: the numbers of the changes announced. */
  datatype Net = Net(sys: Sys, desks: seq<Desk>, changes: seq<Change>, sent: seq<nat>)

  datatype Step = Store(a: Action) | Announce(c: Id) | Flush(c: Id)

  function Caller(st: Step): Id {
    match st
    case Store(a) => a.c
    case Announce(c) => c
    case Flush(c) => c
  }

  ghost predicate CanDo(net: Net, st: Step) {
    && Caller(st) < |net.desks| && |net.desks| == |net.sys.clients|
    && var d := net.desks[Caller(st)];
    match st
    case Store(a) => Enabled(net.sys, a) && d.owed.None? && d.flush == []
    case Announce(c) => d.owed.Some?
    case Flush(c) => d.flush != []
  }

  /** The number of the caller's open transaction. */
  function TxNo(net: Net, c: Id): Option<nat>
    requires c < |net.desks| && c < |net.sys.clients|
  {
    if net.sys.clients[c].mode.Tx? then Some(|net.desks[c].ended|) else None
  }

  /** The change a statement completes, if any. */
  ghost function ChangeOf(net: Net, a: Action): Option<Change>
    requires a.c < |net.desks| && a.c < |net.sys.clients|
  {
    match a
    case Push(c, _) => Some(Pushed(c, TxNo(net, c), |net.sys.rows|))
    case DropPermit(c) => if net.sys.clients[c].call.Dropped? then Some(Deleted(c, TxNo(net, c), net.sys.clients[c].call.p)) else None
    case _ => None
  }

  /** The caller's desk after a statement. */
  ghost function DeskAfter(net: Net, a: Action): Desk
    requires a.c < |net.desks| && a.c < |net.sys.clients|
  {
    var d := net.desks[a.c];
    if a.Commit? then Desk(None, [], d.held, d.ended + [true])
    else if a.Rollback? then Desk(None, [], [], d.ended + [false])
    else if ChangeOf(net, a).Some? then d.(owed := Some(|net.changes|))
    else d
  }

  ghost function Do(net: Net, st: Step): Net
    requires CanDo(net, st)
  {
    var c := Caller(st);
    var d := net.desks[c];
    match st
    case Store(a) =>
      Net(Next(net.sys, a), net.desks[c := DeskAfter(net, a)],
          net.changes + (if ChangeOf(net, a).Some? then [ChangeOf(net, a).value] else []), net.sent)
    case Announce(_) =>
      if net.sys.clients[c].mode.Tx? then net.(desks := net.desks[c := d.(owed := None, held := d.held + [d.owed.value])])
      else net.(desks := net.desks[c := d.(owed := None)], sent := net.sent + [d.owed.value])
    case Flush(_) => net.(desks := net.desks[c := d.(flush := d.flush[1..])], sent := net.sent + [d.flush[0]])
  }

  ghost function TryDo(net: Net, st: Step): Option<Net> {
    if CanDo(net, st) then Some(Do(net, st)) else None
  }

  ghost predicate Opening(net: Net) {
    && Initial(net.sys) && |net.desks| == |net.sys.clients| && net.changes == [] && net.sent == []
    && forall c: nat | c < |net.desks| :: net.desks[c] == Desk(None, [], [], [])
  }

  ghost predicate IsNetRun(nets: seq<Net>, steps: seq<Step>) {
    && |nets| == |steps| + 1 && Opening(nets[0])
    && forall k: nat {:trigger steps[k]} | k < |steps| :: TryDo(nets[k], steps[k]) == Some(nets[k + 1])
  }

  // ----- where the notification of a change is

  /** The change took effect for everybody: it was direct, or its transaction ended with a commit. */
  predicate PublicIn(d: Desk, ch: Change) {
    ch.tx.None? || (ch.tx.value < |d.ended| && d.ended[ch.tx.value])
  }

  /** Its transaction is still open. */
  predicate OpenIn(d: Desk, ch: Change) {
    ch.tx == Some(|d.ended|)
  }

  /** A public change has been announced unless its caller is just about to; an open one is held. */
  ghost predicate Placed(d: Desk, cl: Client, sent: seq<nat>, k: nat, ch: Change) {
    && (k in sent <==> PublicIn(d, ch) && k !in d.flush && d.owed != Some(k))
    && (k in d.held <==> OpenIn(d, ch) && d.owed != Some(k))
    && (k in d.flush ==> ch.tx.Some? && ch.tx.value + 1 == |d.ended| && d.ended[ch.tx.value])
    && (ch.tx.Some? ==> ch.tx.value <= |d.ended|)
    && (OpenIn(d, ch) ==> cl.mode.Tx? && !cl.mode.own)
    && (d.owed == Some(k) ==> ch.tx == if cl.mode.Tx? then Some(|d.ended|) else None)
  }

  predicate Ascending(s: seq<nat>) {
    forall x: nat, y: nat | x < y < |s| :: s[x] < s[y]
  }

  predicate NoRepeats(s: seq<nat>) {
    forall x: nat, y: nat | x < y < |s| :: s[x] != s[y]
  }

  /** The desk of caller `c` is about changes of `c`, in the order they were made. */
  predicate DeskOk(d: Desk, c: Id, changes: seq<Change>) {
    && (forall x: nat | x < |d.held| :: d.held[x] < |changes| && changes[d.held[x]].who == c)
    && (forall x: nat | x < |d.flush| :: d.flush[x] < |changes| && changes[d.flush[x]].who == c)
    && (d.owed.Some? ==> d.owed.value < |changes| && changes[d.owed.value].who == c)
    && (d.owed.Some? ==> forall x: nat | x < |d.held| :: d.held[x] < d.owed.value)
    && Ascending(d.held) && Ascending(d.flush)
    && (d.flush != [] ==> d.owed.None? && d.held == [])
  }

  ghost predicate PlacedAt(net: Net, k: nat)
    requires k < |net.changes|
  {
    var ch := net.changes[k];
    ch.who < |net.desks| && ch.who < |net.sys.clients| && Placed(net.desks[ch.who], net.sys.clients[ch.who], net.sent, k, ch)
  }

  ghost predicate Tidy(net: Net) {
    && |net.desks| == |net.sys.clients|
    && (forall c: nat | c < |net.desks| :: DeskOk(net.desks[c], c, net.changes))
    && (forall k: nat | k < |net.changes| :: PlacedAt(net, k))
    && (forall x: nat | x < |net.sent| :: net.sent[x] < |net.changes|)
    && NoRepeats(net.sent)
  }

  lemma OtherDesks(net: Net, st: Step, k: nat)
    requires Tidy(net) && CanDo(net, st) && k < |net.changes| && net.changes[k].who != Caller(st)
    ensures PlacedAt(Do(net, st), k)
  {
    assert PlacedAt(net, k);
    assert DeskOk(net.desks[Caller(st)], Caller(st), net.changes);
  }

  // ----- each step on the caller's own desk

  lemma AnnounceHeld(d: Desk, c: Id, changes: seq<Change>, cl: Client, sent: seq<nat>, k: nat, ch: Change)
    requires DeskOk(d, c, changes) && d.owed.Some? && cl.mode.Tx? && Placed(d, cl, sent, k, ch)
    ensures var d' := d.(owed := None, held := d.held + [d.owed.value]); DeskOk(d', c, changes) && Placed(d', cl, sent, k, ch)
  {
    var held := d.held + [d.owed.value];
    assert forall x: nat | x < |held| :: held[x] == if x < |d.held| then d.held[x] else d.owed.value;
  }

  lemma AnnounceSent(d: Desk, c: Id, changes: seq<Change>, cl: Client, sent: seq<nat>, k: nat, ch: Change)
    requires DeskOk(d, c, changes) && d.owed.Some? && !cl.mode.Tx? && Placed(d, cl, sent, k, ch)
    ensures Placed(d.(owed := None), cl, sent + [d.owed.value], k, ch)
  {
  }

  lemma FlushPlaced(d: Desk, c: Id, changes: seq<Change>, cl: Client, sent: seq<nat>, k: nat, ch: Change)
    requires DeskOk(d, c, changes) && d.flush != [] && Placed(d, cl, sent, k, ch)
    ensures Placed(d.(flush := d.flush[1..]), cl, sent + [d.flush[0]], k, ch)
  {
    assert d.flush == [d.flush[0]] + d.flush[1..];
    assert forall x: nat | x < |d.flush[1..]| :: d.flush[1..][x] == d.flush[x + 1];
  }

  lemma FlushDesk(d: Desk, c: Id, changes: seq<Change>)
    requires DeskOk(d, c, changes) && d.flush != []
    ensures DeskOk(d.(flush := d.flush[1..]), c, changes)
  {
    assert forall x: nat | x < |d.flush[1..]| :: d.flush[1..][x] == d.flush[x + 1];
  }

  lemma EndPlaced(d: Desk, cl: Client, sent: seq<nat>, k: nat, ch: Change, commit: bool)
    requires d.owed.None? && d.flush == [] && Placed(d, cl, sent, k, ch)
    ensures Placed(Desk(None, [], if commit then d.held else [], d.ended + [commit]), Client(Auto, Idle), sent, k, ch)
  {
    var ended := d.ended + [commit];
    assert forall x: nat | x < |d.ended| :: ended[x] == d.ended[x];
  }

  /** Statements that neither end a transaction nor complete a change. */
  lemma PlainPlaced(d: Desk, cl: Client, cl': Client, sent: seq<nat>, k: nat, ch: Change)
    requires d.owed.None? && Placed(d, cl, sent, k, ch)
    requires cl.mode.Tx? && !cl.mode.own ==> cl'.mode.Tx? && !cl'.mode.own
    ensures Placed(d, cl', sent, k, ch)
  {
  }

  lemma OwnDesk(net: Net, st: Step, k: nat)
    requires Tidy(net) && CanDo(net, st) && k < |net.changes| && net.changes[k].who == Caller(st)
    ensures PlacedAt(Do(net, st), k)
  {
    var c := Caller(st);
    var d, cl, ch := net.desks[c], net.sys.clients[c], net.changes[k];
    assert PlacedAt(net, k);
    assert DeskOk(d, c, net.changes);
    match st
    case Announce(_) =>
      if cl.mode.Tx? { AnnounceHeld(d, c, net.changes, cl, net.sent, k, ch); } else { AnnounceSent(d, c, net.changes, cl, net.sent, k, ch); }
    case Flush(_) => FlushPlaced(d, c, net.changes, cl, net.sent, k, ch);
    case Store(a) =>
      if a.Commit? || a.Rollback? {
        EndPlaced(d, cl, net.sent, k, ch, a.Commit?);
      } else {
        KeepsTx(net.sys, a);
        PlainPlaced(d, cl, Next(net.sys, a).clients[c], net.sent, k, ch);
      }
  }

  lemma KeepsTx(sys: Sys, a: Action)
    requires Enabled(sys, a) && !a.Commit? && !a.Rollback?
    ensures |Next(sys, a).clients| == |sys.clients|
    ensures sys.clients[a.c].mode.Tx? && !sys.clients[a.c].mode.own ==> Next(sys, a).clients[a.c].mode.Tx? && !Next(sys, a).clients[a.c].mode.own
  {
  }

  /** The change a statement has just completed: its notification is owed. */
  lemma NewChange(net: Net, a: Action)
    requires Tidy(net) && Inv(net.sys) && CanDo(net, Store(a)) && ChangeOf(net, a).Some?
    ensures PlacedAt(Do(net, Store(a)), |net.changes|)
  {
    var n, k, c := Do(net, Store(a)), |net.changes|, a.c;
    assert InCall(net.sys.clients[c], c, net.sys.rows, net.sys.permits);
    assert DeskOk(net.desks[c], c, net.changes);
    assert n.changes[k] == ChangeOf(net, a).value && k !in net.sent;
  }

  lemma StepDesks(net: Net, st: Step, c: nat)
    requires Tidy(net) && CanDo(net, st) && c < |net.desks|
    ensures var n := Do(net, st); c < |n.desks| && DeskOk(n.desks[c], c, n.changes)
  {
    var d := net.desks[c];
    var n := Do(net, st);
    assert DeskOk(d, c, net.changes);
    assert forall k: nat | k < |net.changes| :: n.changes[k] == net.changes[k];
    if c == Caller(st) {
      if st.Flush? {
        FlushDesk(d, c, net.changes);
      } else if st.Announce? && net.sys.clients[c].mode.Tx? {
        AnnounceDesk(d, c, net.changes);
      } else if st.Store? {
        StatementDesk(net, st.a);
      }
    }
  }

  lemma AnnounceDesk(d: Desk, c: Id, changes: seq<Change>)
    requires DeskOk(d, c, changes) && d.owed.Some?
    ensures DeskOk(d.(owed := None, held := d.held + [d.owed.value]), c, changes)
  {
    var held := d.held + [d.owed.value];
    assert forall x: nat | x < |held| :: held[x] == if x < |d.held| then d.held[x] else d.owed.value;
  }

  lemma StatementDesk(net: Net, a: Action)
    requires CanDo(net, Store(a)) && DeskOk(net.desks[a.c], a.c, net.changes)
    ensures DeskOk(DeskAfter(net, a), a.c, net.changes + (if ChangeOf(net, a).Some? then [ChangeOf(net, a).value] else []))
  {
    var d := net.desks[a.c];
    var changes := net.changes + (if ChangeOf(net, a).Some? then [ChangeOf(net, a).value] else []);
    assert forall k: nat | k < |net.changes| :: changes[k] == net.changes[k];
    assert ChangeOf(net, a).Some? ==> changes[|net.changes|].who == a.c;
  }

  /** What is sent is a change, and not for the second time. */
  lemma StepSent(net: Net, st: Step)
    requires Tidy(net) && CanDo(net, st)
    ensures var n := Do(net, st); NoRepeats(n.sent) && (forall x: nat | x < |n.sent| :: n.sent[x] < |n.changes|) && net.sent <= n.sent
  {
    var c := Caller(st);
    var d := net.desks[c];
    assert DeskOk(d, c, net.changes);
    if st.Flush? {
      assert PlacedAt(net, d.flush[0]);
      assert d.flush[0] in d.flush;
    } else if st.Announce? {
      assert PlacedAt(net, d.owed.value);
    }
  }

  lemma StepTidy(net: Net, st: Step)
    requires Tidy(net) && Inv(net.sys) && CanDo(net, st)
    ensures Tidy(Do(net, st))
  {
    var n := Do(net, st);
    StepSent(net, st);
    forall c: nat | c < |n.desks| ensures DeskOk(n.desks[c], c, n.changes) { StepDesks(net, st, c); }
    forall k: nat | k < |n.changes| ensures PlacedAt(n, k) {
      if k == |net.changes| {
        NewChange(net, st.a);
      } else if net.changes[k].who == Caller(st) {
        OwnDesk(net, st, k);
      } else {
        OtherDesks(net, st, k);
      }
    }
  }

  // ----- order

  /** Made by one caller in one transaction, or by one caller directly. */
  predicate SameCalls(a: Change, b: Change) {
    a.who == b.who && a.tx == b.tx
  }

  /** Change `k`, sent before change `l`, came first if they belong together. */
  predicate Follows(changes: seq<Change>, k: nat, l: nat) {
    k < |changes| && l < |changes| && SameCalls(changes[k], changes[l]) ==> k < l
  }

  predicate SentOrdered(sent: seq<nat>, changes: seq<Change>) {
    forall x: nat, y: nat | x < y < |sent| :: Follows(changes, sent[x], sent[y])
  }

  predicate FlushAfter(sent: seq<nat>, changes: seq<Change>, flush: seq<nat>) {
    forall x: nat, y: nat | x < |sent| && y < |flush| :: Follows(changes, sent[x], flush[y])
  }

  predicate OwedNewest(d: Desk, c: Id, changes: seq<Change>) {
    d.owed.Some? ==> forall k: nat | k < |changes| && changes[k].who == c :: k <= d.owed.value
  }

  /** What is sent, and what is about to be, is in the order of the changes for each caller and transaction. */
  ghost predicate Ordered(net: Net) {
    && SentOrdered(net.sent, net.changes)
    && forall c: nat | c < |net.desks| :: FlushAfter(net.sent, net.changes, net.desks[c].flush) && OwedNewest(net.desks[c], c, net.changes)
  }

  /** Sending one more change. */
  lemma SendOrdered(sent: seq<nat>, changes: seq<Change>, o: nat)
    requires SentOrdered(sent, changes) && forall x: nat | x < |sent| :: Follows(changes, sent[x], o)
    ensures SentOrdered(sent + [o], changes)
  {
  }

  lemma SendBeforeFlush(sent: seq<nat>, changes: seq<Change>, flush: seq<nat>, o: nat)
    requires FlushAfter(sent, changes, flush) && forall y: nat | y < |flush| :: Follows(changes, o, flush[y])
    ensures FlushAfter(sent + [o], changes, flush)
  {
  }

  /** More changes, none of them sent or waiting to be. */
  lemma MoreChanges(sent: seq<nat>, changes: seq<Change>, more: seq<Change>, flush: seq<nat>)
    requires (forall x: nat | x < |sent| :: sent[x] < |changes|) && (forall y: nat | y < |flush| :: flush[y] < |changes|)
    requires SentOrdered(sent, changes) && FlushAfter(sent, changes, flush)
    ensures SentOrdered(sent, changes + more) && FlushAfter(sent, changes + more, flush)
  {
    assert forall x: nat | x < |sent| :: (changes + more)[sent[x]] == changes[sent[x]];
    assert forall y: nat | y < |flush| :: (changes + more)[flush[y]] == changes[flush[y]];
    assert forall x: nat, y: nat | x < y < |sent| && Follows(changes, sent[x], sent[y]) :: Follows(changes + more, sent[x], sent[y]);
    assert forall x: nat, y: nat | x < |sent| && y < |flush| && Follows(changes, sent[x], flush[y]) :: Follows(changes + more, sent[x], flush[y]);
  }

  /** Different callers' changes never belong together. */
  lemma OtherFlush(net: Net, c: Id, e: nat, o: nat)
    requires Tidy(net) && c < |net.desks| && e < |net.desks| && e != c && o < |net.changes| && net.changes[o].who == c
    ensures forall y: nat | y < |net.desks[e].flush| :: Follows(net.changes, o, net.desks[e].flush[y])
  {
    assert DeskOk(net.desks[e], e, net.changes);
  }

  lemma FlushOrdered(net: Net, c: Id)
    requires Tidy(net) && Ordered(net) && CanDo(net, Flush(c))
    ensures Ordered(Do(net, Flush(c)))
  {
    var d := net.desks[c];
    var n, o, rest := Do(net, Flush(c)), d.flush[0], d.flush[1..];
    assert DeskOk(d, c, net.changes);
    assert forall y: nat | y < |rest| :: rest[y] == d.flush[y + 1];
    SendOrdered(net.sent, net.changes, o);
    forall e: nat | e < |n.desks| ensures FlushAfter(n.sent, n.changes, n.desks[e].flush) && OwedNewest(n.desks[e], e, n.changes) {
      if e == c {
        SendBeforeFlush(net.sent, net.changes, rest, o);
      } else {
        OtherFlush(net, c, e, o);
        SendBeforeFlush(net.sent, net.changes, net.desks[e].flush, o);
      }
    }
  }

  /** A direct change is the newest of its caller when it is sent. */
  lemma DirectFollows(net: Net, c: Id, o: nat)
    requires Tidy(net) && c < |net.desks| && net.desks[c].owed == Some(o) && OwedNewest(net.desks[c], c, net.changes)
    ensures o < |net.changes| && net.changes[o].who == c
    ensures forall x: nat | x < |net.sent| :: Follows(net.changes, net.sent[x], o)
    ensures net.changes[o].tx.None? ==> net.desks[c].flush == []
  {
    assert DeskOk(net.desks[c], c, net.changes);
    assert PlacedAt(net, o);
    forall x: nat | x < |net.sent| ensures Follows(net.changes, net.sent[x], o) {
      assert net.sent[x] in net.sent;
      assert net.sent[x] != o;
    }
  }

  lemma AnnounceOrdered(net: Net, c: Id)
    requires Tidy(net) && Ordered(net) && CanDo(net, Announce(c))
    ensures Ordered(Do(net, Announce(c)))
  {
    var n, o := Do(net, Announce(c)), net.desks[c].owed.value;
    if !net.sys.clients[c].mode.Tx? {
      assert DeskOk(net.desks[c], c, net.changes);
      assert PlacedAt(net, o);
      DirectFollows(net, c, o);
      SendOrdered(net.sent, net.changes, o);
      forall e: nat | e < |n.desks| ensures FlushAfter(n.sent, n.changes, n.desks[e].flush) && OwedNewest(n.desks[e], e, n.changes) {
        if e != c { OtherFlush(net, c, e, o); }
        SendBeforeFlush(net.sent, net.changes, net.desks[e].flush, o);
      }
    }
  }

  lemma StatementOrdered(net: Net, a: Action)
    requires Tidy(net) && Ordered(net) && CanDo(net, Store(a))
    ensures Ordered(Do(net, Store(a)))
  {
    var n := Do(net, Store(a));
    var more := if ChangeOf(net, a).Some? then [ChangeOf(net, a).value] else [];
    forall c: nat | c < |n.desks| ensures SentOrdered(n.sent, n.changes) && FlushAfter(n.sent, n.changes, n.desks[c].flush) && OwedNewest(n.desks[c], c, n.changes) {
      assert DeskOk(net.desks[c], c, net.changes);
      MoreChanges(net.sent, net.changes, more, net.desks[c].flush);
      if c == a.c && a.Commit? {
        forall x: nat, y: nat | x < |n.sent| && y < |n.desks[c].flush| ensures Follows(n.changes, n.sent[x], n.desks[c].flush[y]) {
          HeldUnsent(net, c, x, y);
        }
      }
    }
    assert DeskOk(net.desks[a.c], a.c, net.changes);
    MoreChanges(net.sent, net.changes, more, net.desks[a.c].flush);
  }

  /** Nothing of the transaction that is ending has been sent. */
  lemma HeldUnsent(net: Net, c: Id, x: nat, y: nat)
    requires Tidy(net) && c < |net.desks| && x < |net.sent| && y < |net.desks[c].held|
    ensures net.sent[x] < |net.changes| && net.desks[c].held[y] < |net.changes|
    ensures !SameCalls(net.changes[net.sent[x]], net.changes[net.desks[c].held[y]])
  {
    var k, h := net.sent[x], net.desks[c].held[y];
    assert DeskOk(net.desks[c], c, net.changes);
    assert PlacedAt(net, k) && PlacedAt(net, h);
    assert k in net.sent && h in net.desks[c].held;
  }

  lemma StepOrdered(net: Net, st: Step)
    requires Tidy(net) && Ordered(net) && CanDo(net, st)
    ensures Ordered(Do(net, st))
  {
    match st
    case Store(a) => StatementOrdered(net, a);
    case Announce(c) => AnnounceOrdered(net, c);
    case Flush(c) => FlushOrdered(net, c);
  }

  // ----- what an open change looks like in the tables

  /** The row pushed by `c` exists only inside its transaction. */
  predicate PushedOpen(sys: Sys, c: Id, i: nat) {
    i < |sys.rows| && sys.rows[i].base.None? && sys.rows[i].pend.Write? && sys.rows[i].pend.tx == c
  }

  /** For `c`, and for everybody once `c` commits, permit `p` and its row are gone. */
  ghost predicate GoneFor(sys: Sys, c: Id, p: Permit) {
    && 1 <= p <= |sys.permits|
    && var k := sys.permits[p - 1];
    && (k.base.Some? || k.pend.Write? ==> k.pend == Write(c, None))
    && forall i: nat | i < |sys.rows| && Carries(sys.rows[i], p) :: Doomed(sys.rows[i], c)
  }

  ghost predicate EffectOk(sys: Sys, d: Desk, ch: Change) {
    OpenIn(d, ch) ==>
      match ch
      case Pushed(c, _, i) => PushedOpen(sys, c, i)
      case Deleted(c, _, p) => GoneFor(sys, c, p)
  }

  ghost predicate Effects(net: Net) {
    forall k: nat | k < |net.changes| && net.changes[k].who < |net.desks| :: EffectOk(net.sys, net.desks[net.changes[k].who], net.changes[k])
  }

  predicate EndsTx(a: Action, c: Id) {
    a.c == c && (a.Commit? || a.Rollback?)
  }

  lemma PushStays(sys: Sys, a: Action, c: Id, i: nat)
    requires Inv(sys) && Enabled(sys, a) && PushedOpen(sys, c, i) && !EndsTx(a, c)
    ensures PushedOpen(Next(sys, a), c, i)
  {
    if a.Claim? {
      var t := FindLeast(sys.rows, Some(a.c), sys.clients[a.c].call.q);
    }
  }

  lemma GoneStays(sys: Sys, a: Action, c: Id, p: Permit)
    requires Inv(sys) && Enabled(sys, a) && GoneFor(sys, c, p) && !EndsTx(a, c)
    ensures GoneFor(Next(sys, a), c, p)
  {
    var n := Next(sys, a);
    assert InCall(sys.clients[a.c], a.c, sys.rows, sys.permits);
    forall i: nat | i < |n.rows| && Carries(n.rows[i], p) ensures Doomed(n.rows[i], c) {
      GoneRow(sys, a, c, p, i);
    }
  }

  lemma GoneRow(sys: Sys, a: Action, c: Id, p: Permit, i: nat)
    requires Inv(sys) && Enabled(sys, a) && GoneFor(sys, c, p) && !EndsTx(a, c) && i < |Next(sys, a).rows| && Carries(Next(sys, a).rows[i], p)
    ensures Doomed(Next(sys, a).rows[i], c)
  {
    if a.Claim? {
      GoneClaim(sys, a, c, p, i);
    } else if i < |sys.rows| {
      assert Carries(sys.rows[i], p) ==> Doomed(sys.rows[i], c);
    }
  }

  /** A claim is under a permit of its own, never under one that is gone. */
  lemma GoneClaim(sys: Sys, a: Action, c: Id, p: Permit, i: nat)
    requires Inv(sys) && Enabled(sys, a) && a.Claim? && GoneFor(sys, c, p) && i < |Next(sys, a).rows| && Carries(Next(sys, a).rows[i], p)
    ensures Doomed(Next(sys, a).rows[i], c)
  {
    assert InCall(sys.clients[a.c], a.c, sys.rows, sys.permits);
    assert Carries(sys.rows[i], p) ==> Doomed(sys.rows[i], c);
  }

  /** The statement that completes a change leaves it open, or done, in the tables. */
  lemma FreshDelete(sys: Sys, a: Action)
    requires Inv(sys) && Enabled(sys, a) && a.DropPermit?
    ensures var n := Next(sys, a); var p := sys.clients[a.c].call.p;
            && (sys.clients[a.c].mode.Tx? ==> GoneFor(n, a.c, p))
            && (sys.clients[a.c].mode.Auto? ==> 1 <= p <= |n.permits| && n.permits[p - 1] == Fresh() && Nowhere(n.rows, p))
  {
    assert InCall(sys.clients[a.c], a.c, sys.rows, sys.permits);
  }

  lemma StepEffect(net: Net, st: Step, k: nat)
    requires Tidy(net) && Inv(net.sys) && Effects(net) && CanDo(net, st) && k < |Do(net, st).changes|
    ensures var n := Do(net, st); n.changes[k].who < |n.desks| && EffectOk(n.sys, n.desks[n.changes[k].who], n.changes[k])
  {
    var n := Do(net, st);
    if k < |net.changes| {
      var ch := net.changes[k];
      assert PlacedAt(net, k);
      assert n.changes[k] == ch;
      if st.Store? && OpenIn(n.desks[ch.who], ch) {
        StillOpen(net, st.a, ch);
        if ch.Pushed? { PushStays(net.sys, st.a, ch.who, ch.i); } else { GoneStays(net.sys, st.a, ch.who, ch.p); }
      }
    } else {
      if st.a.DropPermit? { FreshDelete(net.sys, st.a); }
    }
  }

  /** An open change was open before, and the statement was not the end of its transaction. */
  lemma StillOpen(net: Net, a: Action, ch: Change)
    requires CanDo(net, Store(a)) && ch.who < |net.desks| && OpenIn(Do(net, Store(a)).desks[ch.who], ch)
    requires ch.tx.Some? && ch.tx.value <= |net.desks[ch.who].ended|
    ensures OpenIn(net.desks[ch.who], ch) && !EndsTx(a, ch.who)
  {
  }

  // ----- runs

  ghost predicate NetOk(net: Net) {
    Inv(net.sys) && Tidy(net) && Ordered(net) && Effects(net)
  }

  lemma StepNet(net: Net, st: Step)
    requires NetOk(net) && CanDo(net, st)
    ensures NetOk(Do(net, st))
  {
    var n := Do(net, st);
    StepTidy(net, st);
    StepOrdered(net, st);
    if st.Store? { StepKeeps(net.sys, st.a); }
    forall k: nat | k < |n.changes| && n.changes[k].who < |n.desks| ensures EffectOk(n.sys, n.desks[n.changes[k].who], n.changes[k]) {
      StepEffect(net, st, k);
    }
  }

  lemma {:induction false} NetKeeps(nets: seq<Net>, steps: seq<Step>, n: nat)
    requires IsNetRun(nets, steps) && n < |nets|
    ensures NetOk(nets[n])
  {
    if n > 0 {
      NetKeeps(nets, steps, n - 1);
      var st := steps[n - 1];
      StepNet(nets[n - 1], st);
    }
  }

  predicate Public(net: Net, k: nat) {
    k < |net.changes| && net.changes[k].who < |net.desks| && PublicIn(net.desks[net.changes[k].who], net.changes[k])
  }

  /** The caller of `k` is between the change taking effect and announcing it. */
  predicate Pending(net: Net, k: nat)
    requires k < |net.changes| && net.changes[k].who < |net.desks|
  {
    var d := net.desks[net.changes[k].who];
    k in d.flush || (d.owed == Some(k) && net.changes[k].tx.None?)
  }

  /**
   In every state of every interleaving, no change is announced twice, and a change has been announced if and
   only if it was direct or its transaction committed, unless its caller is just about to announce it.
   */
  lemma AnnouncedIff(nets: seq<Net>, steps: seq<Step>, n: nat, k: nat)
    requires IsNetRun(nets, steps) && n < |nets| && k < |nets[n].changes|
    ensures NoRepeats(nets[n].sent) && nets[n].changes[k].who < |nets[n].desks|
    ensures k in nets[n].sent <==> Public(nets[n], k) && !Pending(nets[n], k)
  {
    NetKeeps(nets, steps, n);
    assert PlacedAt(nets[n], k);
  }

  /** A notification that is pending can always go out next: nothing it waits for can fail. */
  lemma PendingCanGo(net: Net, k: nat)
    requires NetOk(net) && k < |net.changes| && Public(net, k) && Pending(net, k)
    ensures var c := net.changes[k].who;
            if net.desks[c].owed == Some(k) then CanDo(net, Announce(c)) && k in Do(net, Announce(c)).sent
            else CanDo(net, Flush(c)) && |Do(net, Flush(c)).desks[c].flush| < |net.desks[c].flush|
  {
    assert PlacedAt(net, k);
  }

  // ----- after the change is visible

  ghost predicate Unseen(k: Cell<()>) {
    forall s: Option<TxId> :: Seen(k, s).None?
  }

  /** The step that makes the change public shows it to every session. */
  ghost predicate Shown(before: Sys, after: Sys, st: Step, ch: Change) {
    match ch
    case Pushed(c, tx, i) =>
      && i < |after.rows|
      && (tx.None? ==> st.Store? && st.a.Push? && forall s: Option<TxId> :: Seen(after.rows[i], s) == Some(st.a.row))
      && (tx.Some? ==> i < |before.rows| && forall s: Option<TxId> :: Seen(after.rows[i], s) == Seen(before.rows[i], Some(c)))
    case Deleted(c, tx, p) =>
      && 1 <= p <= |after.permits| && Unseen(after.permits[p - 1])
      && forall i: nat, s: Option<TxId> | i < |after.rows| :: !ShowsPermit(after.rows[i], s, p)
  }

  ghost predicate Publishes(net: Net, st: Step, k: nat) {
    && CanDo(net, st) && Public(Do(net, st), k) && !Public(net, k)
  }

  lemma DirectShown(net: Net, a: Action)
    requires NetOk(net) && CanDo(net, Store(a)) && ChangeOf(net, a).Some? && ChangeOf(net, a).value.tx.None?
    ensures Shown(net.sys, Next(net.sys, a), Store(a), ChangeOf(net, a).value)
  {
    var n := Next(net.sys, a);
    if a.DropPermit? {
      FreshDelete(net.sys, a);
      forall i: nat, s: Option<TxId> | i < |n.rows| ensures !ShowsPermit(n.rows[i], s, net.sys.clients[a.c].call.p) {
        assert !Carries(n.rows[i], net.sys.clients[a.c].call.p);
      }
    }
  }

  lemma CommitShown(sys: Sys, a: Action, d: Desk, ch: Change)
    requires Inv(sys) && Enabled(sys, a) && a.Commit? && ch.who == a.c && OpenIn(d, ch) && EffectOk(sys, d, ch)
    ensures Shown(sys, Next(sys, a), Store(a), ch)
  {
    var n := Next(sys, a);
    if ch.Deleted? {
      forall i: nat, s: Option<TxId> | i < |n.rows| ensures !ShowsPermit(n.rows[i], s, ch.p) {
        assert Carries(sys.rows[i], ch.p) ==> Doomed(sys.rows[i], a.c);
      }
    }
  }

  lemma PublicMeansShown(net: Net, st: Step, k: nat)
    requires NetOk(net) && Publishes(net, st, k)
    ensures st.Store? && k !in Do(net, st).sent && Shown(net.sys, Do(net, st).sys, st, Do(net, st).changes[k])
  {
    var n := Do(net, st);
    if k < |net.changes| {
      assert PlacedAt(net, k);
      CommitPublishes(net, st, k);
      CommitShown(net.sys, st.a, net.desks[net.changes[k].who], net.changes[k]);
    } else {
      DirectShown(net, st.a);
    }
  }

  /** An earlier change becomes public only by the commit of its transaction. */
  lemma CommitPublishes(net: Net, st: Step, k: nat)
    requires NetOk(net) && Publishes(net, st, k) && k < |net.changes|
    ensures st.Store? && st.a.Commit? && st.a.c == net.changes[k].who && OpenIn(net.desks[st.a.c], net.changes[k])
    ensures k !in net.sent && EffectOk(net.sys, net.desks[st.a.c], net.changes[k])
  {
    assert PlacedAt(net, k);
  }

  /** Before that, no other session sees a pushed row. */
  lemma OpenIsHidden(net: Net, k: nat, s: Option<TxId>)
    requires NetOk(net) && k < |net.changes| && net.changes[k].Pushed? && net.changes[k].who < |net.desks|
    requires OpenIn(net.desks[net.changes[k].who], net.changes[k]) && s != Some(net.changes[k].who)
    ensures net.changes[k].i < |net.sys.rows| && Seen(net.sys.rows[net.changes[k].i], s).None?
  {
    assert EffectOk(net.sys, net.desks[net.changes[k].who], net.changes[k]);
  }

  lemma {:induction false} BecamePublic(nets: seq<Net>, steps: seq<Step>, n: nat, k: nat) returns (j: nat)
    requires IsNetRun(nets, steps) && n < |nets| && Public(nets[n], k)
    ensures j < n && Publishes(nets[j], steps[j], k) && nets[j + 1] == Do(nets[j], steps[j])
  {
    var st := steps[n - 1];
    if Public(nets[n - 1], k) { j := BecamePublic(nets, steps, n - 1, k); } else { j := n - 1; }
  }

  /**
   Every notification goes out after its change has become visible: there is an earlier step after which every
   session sees the change, and at that point it had not been announced.
   */
  lemma AnnouncedAfterVisible(nets: seq<Net>, steps: seq<Step>, n: nat, k: nat) returns (j: nat)
    requires IsNetRun(nets, steps) && n < |nets| && k in nets[n].sent
    ensures j < n && k < |nets[j + 1].changes| && k !in nets[j + 1].sent
    ensures Shown(nets[j].sys, nets[j + 1].sys, steps[j], nets[j + 1].changes[k])
  {
    NetKeeps(nets, steps, n);
    SentIsPublic(nets[n], k);
    j := BecamePublic(nets, steps, n, k);
    NetKeeps(nets, steps, j);
    PublicMeansShown(nets[j], steps[j], k);
  }

  lemma SentIsPublic(net: Net, k: nat)
    requires Tidy(net) && k in net.sent
    ensures Public(net, k)
  {
    assert k < |net.changes|;
    assert PlacedAt(net, k);
  }

  // ----- in order?

  predicate SentBefore(sent: seq<nat>, k: nat, l: nat) {
    exists x: nat, y: nat :: x < y < |sent| && sent[x] == k && sent[y] == l
  }

  /** A transaction's changes, and one caller's direct changes, are announced in the order in which they were made. */
  lemma AnnouncedInOrder(nets: seq<Net>, steps: seq<Step>, n: nat, k: nat, l: nat)
    requires IsNetRun(nets, steps) && n < |nets| && k < l && k in nets[n].sent && l in nets[n].sent
    requires k < |nets[n].changes| && l < |nets[n].changes| && SameCalls(nets[n].changes[k], nets[n].changes[l])
    ensures SentBefore(nets[n].sent, k, l)
  {
    NetKeeps(nets, steps, n);
    var sent := nets[n].sent;
    var x: nat :| x < |sent| && sent[x] == k;
    var y: nat :| y < |sent| && sent[y] == l;
    assert y < x ==> Follows(nets[n].changes, sent[y], sent[x]);
  }

  ghost predicate Continues(net: Net, nets: seq<Net>, steps: seq<Step>) {
    && |nets| == |steps| + 1 && nets[0] == net
    && forall k: nat {:trigger steps[k]} | k < |steps| :: TryDo(nets[k], steps[k]) == Some(nets[k + 1])
  }

  lemma {:induction false} SentGrows(net: Net, nets: seq<Net>, steps: seq<Step>, n: nat)
    requires Continues(net, nets, steps) && n < |nets|
    ensures net.sent <= nets[n].sent
  {
    if n > 0 {
      SentGrows(net, nets, steps, n - 1);
      var st := steps[n - 1];
    }
  }

  /** Change `l` is announced after `k` in every continuation in which both are. */
  ghost predicate AlwaysAfter(net: Net, k: nat, l: nat) {
    forall nets: seq<Net>, steps: seq<Step> | Continues(net, nets, steps) && k in nets[|steps|].sent && l in nets[|steps|].sent ::
      SentBefore(nets[|steps|].sent, k, l)
  }

  /** Two callers of the shared store that both owe a notification can announce in either order. */
  lemma EitherOrder(net: Net, c: Id, e: Id, k: nat, l: nat) returns (nets: seq<Net>, steps: seq<Step>)
    requires Tidy(net) && c < |net.desks| && e < |net.desks| && c != e
    requires net.desks[c].owed == Some(k) && net.desks[e].owed == Some(l)
    requires !net.sys.clients[c].mode.Tx? && !net.sys.clients[e].mode.Tx?
    ensures Continues(net, nets, steps) && nets[|steps|].sent == net.sent + [l, k]
  {
    var n1 := Do(net, Announce(e));
    var n2 := Do(n1, Announce(c));
    nets, steps := [net, n1, n2], [Announce(e), Announce(c)];
    assert n2.sent == net.sent + [l, k];
  }

  /** A direct change that has been made and not announced is owed by its caller. */
  lemma DirectOwed(net: Net, k: nat)
    requires Tidy(net) && k < |net.changes| && net.changes[k].tx.None? && k !in net.sent
    ensures var c := net.changes[k].who; c < |net.desks| && net.desks[c].owed == Some(k) && !net.sys.clients[c].mode.Tx?
  {
    assert PlacedAt(net, k);
  }

  /**
   Two direct changes on the shared store, `l` just made and not yet announced: `k` is announced first in every
   continuation if and only if it has been announced already, that is, if the two calls did not overlap.
   */
  lemma OrderIffNoOverlap(net: Net, k: nat, l: nat)
    requires NetOk(net) && k < |net.changes| && l < |net.changes| && k != l
    requires net.changes[k].tx.None? && net.changes[l].tx.None? && l !in net.sent
    ensures AlwaysAfter(net, k, l) <==> k in net.sent
  {
    if k in net.sent {
      forall nets: seq<Net>, steps: seq<Step> | Continues(net, nets, steps) && k in nets[|steps|].sent && l in nets[|steps|].sent
        ensures SentBefore(nets[|steps|].sent, k, l)
      {
        EarlierStaysEarlier(net, nets, steps, k, l);
      }
    } else {
      DirectOwed(net, k);
      DirectOwed(net, l);
      var nets, steps := EitherOrder(net, net.changes[k].who, net.changes[l].who, k, l);
      WrongOrder(net.sent, k, l);
    }
  }

  lemma EarlierStaysEarlier(net: Net, nets: seq<Net>, steps: seq<Step>, k: nat, l: nat)
    requires Continues(net, nets, steps) && k in net.sent && l !in net.sent && l in nets[|steps|].sent
    ensures SentBefore(nets[|steps|].sent, k, l)
  {
    SentGrows(net, nets, steps, |steps|);
    var sent := nets[|steps|].sent;
    var x: nat :| x < |net.sent| && net.sent[x] == k;
    var y: nat :| y < |sent| && sent[y] == l;
    assert sent[x] == k;
    assert forall z: nat | z < |net.sent| :: sent[z] == net.sent[z];
  }

  lemma WrongOrder(sent: seq<nat>, k: nat, l: nat)
    requires k !in sent && l !in sent && k != l
    ensures !SentBefore(sent + [l, k], k, l) && k in sent + [l, k] && l in sent + [l, k]
  {
    var s := sent + [l, k];
    forall x: nat, y: nat | x < y < |s| ensures !(s[x] == k && s[y] == l) {
      if y < |sent| { assert s[y] in sent; }
    }
    assert s[|sent|] == l && s[|sent| + 1] == k;
  }

  /** A run in which two pushes on the shared store are announced in the opposite order. */
  lemma SharedStoreReorders(row: Row) returns (nets: seq<Net>, steps: seq<Step>)
    requires row.permit == 0
    ensures IsNetRun(nets, steps) && nets[|steps|].sent == [1, 0]
    ensures nets[|steps|].changes == [Pushed(0, None, 0), Pushed(1, None, 1)]
  {
    var idle, clear := Client(Auto, Idle), Desk(None, [], [], []);
    var n0 := Net(Sys([], [], [idle, idle], [], [], false, false, {}), [clear, clear], [], []);
    var n1 := Do(n0, Store(Push(0, row)));
    assert n1.sys.clients == [idle, idle] && n1.desks == [Desk(Some(0), [], [], []), clear] && n1.changes == [Pushed(0, None, 0)];
    var n2 := Do(n1, Store(Push(1, row)));
    assert n2.desks == [Desk(Some(0), [], [], []), Desk(Some(1), [], [], [])] && n2.changes == [Pushed(0, None, 0), Pushed(1, None, 1)];
    var n3 := Do(n2, Announce(1));
    var n4 := Do(n3, Announce(0));
    nets := [n0, n1, n2, n3, n4];
    steps := [Store(Push(0, row)), Store(Push(1, row)), Announce(1), Announce(0)];
    assert n4.sent == [1, 0];
  }

  // ----- one caller without interruption, as the methods of PgStore promise

  /** QueuePush: the row, then the notification, sent or held. */
  lemma PushAnnounced(net: Net, c: Id, row: Row) returns (end: Net)
    requires CanDo(net, Store(Push(c, row)))
    ensures var mid := Do(net, Store(Push(c, row)));
            CanDo(mid, Announce(c)) && end == Do(mid, Announce(c))
    ensures end.sys == Next(net.sys, Push(c, row)) && end.changes == net.changes + [Pushed(c, TxNo(net, c), |net.sys.rows|)]
    ensures var direct := net.sys.clients[c].mode.Auto?;
            && end.sent == net.sent + (if direct then [|net.changes|] else [])
            && end.desks[c].held == net.desks[c].held + (if direct then [] else [|net.changes|]) && end.desks[c].owed.None?
  {
    end := Do(Do(net, Store(Push(c, row))), Announce(c));
  }

  /** CompleteTransaction's flush loop, run to its end. */
  lemma {:induction false} FlushAll(net: Net, c: Id) returns (nets: seq<Net>, steps: seq<Step>)
    requires c < |net.desks| && |net.desks| == |net.sys.clients|
    ensures Continues(net, nets, steps) && |steps| == |net.desks[c].flush|
    ensures nets[|steps|].sent == net.sent + net.desks[c].flush && nets[|steps|].sys == net.sys
    ensures |nets[|steps|].desks| == |net.desks| && nets[|steps|].desks[c].flush == []
    decreases |net.desks[c].flush|
  {
    var f := net.desks[c].flush;
    if f == [] {
      nets, steps := [net], [];
      assert net.sent + [] == net.sent;
    } else {
      var n1 := Do(net, Flush(c));
      var rest, more := FlushAll(n1, c);
      nets, steps := [net] + rest, [Flush(c)] + more;
      assert (net.sent + [f[0]]) + f[1..] == net.sent + f by { assert f == [f[0]] + f[1..]; }
      forall k: nat | k < |steps| ensures TryDo(nets[k], steps[k]) == Some(nets[k + 1]) {
        if k > 0 { assert steps[k] == more[k - 1] && nets[k] == rest[k - 1]; }
      }
    }
  }

  /** Ending a transaction: a commit sends everything held, in order; a rollback or a failed commit sends nothing. */
  lemma EndAnnounced(net: Net, c: Id, commit: bool) returns (nets: seq<Net>, steps: seq<Step>)
    requires CanDo(net, Store(if commit then Commit(c) else Rollback(c)))
    ensures var first := Do(net, Store(if commit then Commit(c) else Rollback(c)));
            && Continues(first, nets, steps)
            && var end := nets[|steps|];
            && end.sys == first.sys && end.sent == net.sent + (if commit then net.desks[c].held else [])
            && c < |end.desks| && end.desks[c].flush == []
  {
    nets, steps := FlushAll(Do(net, Store(if commit then Commit(c) else Rollback(c))), c);
  }
}
