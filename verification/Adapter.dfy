/**
 The platform-lib adapter (internal/queue/platlib/adapter.go) with its mutable fields:
 registration, start, enqueue, dispatch of a popped job, the retry decision and stop.
 */
module Adapter {
  import opened Options
  import opened Mvcc
  import opened Jobs
  import opened Tables
  import opened KindCode
  import R = Retry
  import opened Addresses
  import S = Store

  /** A registered WorkerFunc, by identity. */
  type Worker = nat

  datatype Job = Job(id: string, tenant: string, kind: Kind, payload: Payload, attempt: int)

  datatype Error = RegisterAfterStart | AlreadyRegistered | StartedTwice | StartFailed | EnqueueBeforeStart | UnknownKind | PushError(e: S.Error)

  /** What benchRunner.Run returns to the agent. */
  datatype RunResult = Nil | BadTenant | NoWorker | WorkerError(cls: string) | RequeueError

  const BENCH_QUEUE := "benchmark"

  function JobOf(w: BenchWork): Job {
    Job(JobName(w.workID), w.tenant, w.kind, w.payload, w.attempt)
  }

  /** A row this adapter put in the queue: typed by its own kind, and addressed, if at all, by its own work id. */
  ghost predicate RowOk(r: Row, kinds: set<Kind>, n: nat) {
    && r.typ == CodeOf(r.item.kind) && r.item.kind in kinds && r.item.workID <= n
    && (r.address.Some? ==> r.address.value == JobName(r.item.workID))
  }

  ghost predicate RowsOk(rows: Rows, kinds: set<Kind>, n: nat) {
    forall i: nat, s: Option<TxId> | i < |rows| && Seen(rows[i], s).Some? :: RowOk(Seen(rows[i], s).value, kinds, n)
  }

  /** Work ids only grow, so the next job's address is on no row, whoever may see it. */
  lemma NewNameIsNew(rows: Rows, kinds: set<Kind>, n: nat)
    requires RowsOk(rows, kinds, n)
    ensures forall i: nat, s: Option<TxId> | i < |rows| && Seen(rows[i], s).Some? :: Seen(rows[i], s).value.address != Some(JobName(n + 1))
  {
    forall i: nat, s: Option<TxId> | i < |rows| && Seen(rows[i], s).Some?
      ensures Seen(rows[i], s).value.address != Some(JobName(n + 1))
    {
      var r := Seen(rows[i], s).value;
      assert RowOk(r, kinds, n);
      if r.address == Some(JobName(n + 1)) { JobNameInjective(r.item.workID, n + 1); }
    }
  }

  /** What a backoff goroutine does when stopCh closes: its timer may have expired first. */
  datatype Fate = Expired(pushFails: bool) | Abandoned

  /** What the goroutine of `w` adds to the queue. */
  function PushedBy(cfg: R.Config, w: BenchWork, fate: Fate): Rows {
    match fate
    case Abandoned => []
    case Expired(fails) => [if fails then Fresh() else Cell(Some(R.RowFor(cfg, w)), NoWrite)]
  }

  /** The fate of the k-th goroutine to end. */
  function FateAt(fates: seq<Fate>, k: nat): Fate {
    if k < |fates| then fates[k] else Abandoned
  }

  /** The rows that the goroutines add, one after another. */
  function Pushed(cfg: R.Config, order: seq<BenchWork>, fates: seq<Fate>): Rows {
    if order == [] then []
    else
      var k := |order| - 1;
      Pushed(cfg, order[..k], fates) + PushedBy(cfg, order[k], FateAt(fates, k))
  }

  lemma PushedMore(rows: Rows, cfg: R.Config, order: seq<BenchWork>, w: BenchWork, fates: seq<Fate>)
    ensures rows + Pushed(cfg, order + [w], fates) == rows + Pushed(cfg, order, fates) + PushedBy(cfg, w, FateAt(fates, |order|))
  {
    assert (order + [w])[..|order|] == order;
  }

  lemma PickOne(s: seq<BenchWork>, i: nat)
    requires i < |s|
    ensures multiset(s) == multiset(s[..i] + s[i + 1..]) + multiset{s[i]}
  {
    assert s == s[..i] + [s[i]] + s[i + 1..];
  }

  /** `done` and `left` together are `all`, in any order. */
  ghost predicate Split(done: seq<BenchWork>, left: seq<BenchWork>, all: seq<BenchWork>) {
    multiset(done) + multiset(left) == multiset(all)
  }

  lemma SplitNext(done: seq<BenchWork>, left: seq<BenchWork>, all: seq<BenchWork>, i: nat)
    requires Split(done, left, all) && i < |left|
    ensures Split(done + [left[i]], left[..i] + left[i + 1..], all)
  {
    PickOne(left, i);
  }

  lemma SplitDone(done: seq<BenchWork>, all: seq<BenchWork>)
    ensures Split(done, [], all) <==> multiset(done) == multiset(all)
    ensures Split([], all, all)
  {
  }

  /** A committed row has the address. */
  ghost predicate Taken(rows: Rows, a: string) {
    exists i: nat :: i < |rows| && HasAddress(rows[i], None, a)
  }

  /** Claiming a row changes its permit only, and what is handed out is well typed. */
  lemma ClaimKeepsRowsOk(r: S.PopResult, rows: Rows, rows1: Rows, s: Option<TxId>, q: Query, kinds: set<Kind>, n: nat)
    requires RowsOk(rows, kinds, n) && S.HandsOut(r, rows, s, q)
    requires var i := FindLeast(rows, s, q).value;
             rows1 == rows || rows1 == rows[i := Cell(Some(Seen(rows[i], s).value.(permit := r.permit)), NoWrite)]
    ensures RowsOk(rows1, kinds, n)
    ensures r.work.kind in kinds && r.typ == CodeOf(r.work.kind) && r.work.workID <= n && r.typ in q.types
  {
    var i := FindLeast(rows, s, q).value;
    assert RowOk(Seen(rows[i], s).value, kinds, n);
  }

  /** workIDCounter, which all harnesses of the process share. */
  class Counter {
    var n: nat

    constructor ()
      ensures n == 0
    {
      n := 0;
    }

    method Next() returns (id: nat)
      modifies this
      ensures id == n == old(n) + 1
    {
      n := n + 1;
      id := n;
    }
  }

  class Harness {
    const store: S.PgStore
    const ids: Counter
    const maxAttempts: int
    const priority: UInt64
    const delay: int -> int
    const addressed: bool
    var workers: map<Kind, Worker>
    var started: bool
    var stopClosed: bool
    var runners: map<Code, Kind>   // the RunnerFactory: work type to the kind its benchRunner was built for
    var timers: seq<BenchWork>     // backoff goroutines that Stop will wait for

    constructor (store: S.PgStore, ids: Counter, maxAttempts: int, defaultPriority: UInt64, delay: int -> int, addressed: bool)
      requires store.Valid() && store.tx.None?
      requires 1 <= maxAttempts < 0x8000_0000
      ensures Valid() && workers == map[] && !started && !stopClosed && timers == []
      ensures this.store == store && this.ids == ids && this.maxAttempts == maxAttempts && this.delay == delay && this.addressed == addressed
      ensures priority == if defaultPriority == 0 then 10 else defaultPriority
    {
      this.store, this.ids, this.maxAttempts, this.delay, this.addressed := store, ids, maxAttempts, delay, addressed;
      this.priority := if defaultPriority == 0 then 10 else defaultPriority;
      workers, started, stopClosed, runners, timers := map[], false, false, map[], [];
    }

    function Cfg(): R.Config {
      R.Config(maxAttempts, delay, BENCH_QUEUE, S.ToInt64(priority), CodeOf, addressed)
    }

    ghost predicate Valid()
      reads this, store, store.db, ids
    {
      && store.Valid() && store.tx.None?
      && 1 <= maxAttempts < 0x8000_0000
      && (forall i: nat | i < |timers| :: timers[i].kind in workers)
      && (started ==> RunnersCover())
    }

    /** Every queue row and every timer stems from this process: no row of an earlier one is left. */
    ghost predicate OwnRows()
      reads this, store, store.db, ids
    {
      && RowsOk(store.db.rows, workers.Keys, ids.n)
      && (forall i: nat | i < |timers| :: timers[i].workID <= ids.n)
    }

    /** Every registered kind has a runner under its code; colliding kinds share the runner of one of them. */
    ghost predicate RunnersCover()
      reads this
    {
      && (forall k | k in workers :: CodeOf(k) in runners)
      && (forall c | c in runners :: runners[c] in workers && CodeOf(runners[c]) == c)
    }

    method Register(kind: Kind, fn: Worker) returns (err: Option<Error>)
      requires Valid()
      modifies this`workers
      ensures Valid()
      ensures err == if started then Some(RegisterAfterStart) else if kind in old(workers) then Some(AlreadyRegistered) else None
      ensures workers == if err.None? then old(workers)[kind := fn] else old(workers)
      ensures old(OwnRows()) ==> OwnRows()
    {
      if started {
        return Some(RegisterAfterStart);
      }
      if kind in workers {
        return Some(AlreadyRegistered);
      }
      workers := workers[kind := fn];
      err := None;
    }

    /** Runners are added in map iteration order, which is arbitrary. */
    method Start(fails: bool) returns (err: Option<Error>)
      requires Valid()
      modifies this`started, this`runners
      ensures Valid()
      ensures err == if old(started) then Some(StartedTwice) else if fails then Some(StartFailed) else None
      ensures started == (old(started) || err.None?)
      ensures old(started) ==> runners == old(runners)
      ensures err.None? ==> runners.Keys == set k | k in workers :: CodeOf(k)
    {
      if started {
        return Some(StartedTwice);
      }
      runners := map[];
      var left := workers.Keys;
      while left != {}
        invariant left <= workers.Keys
        invariant forall k | k in workers && k !in left :: CodeOf(k) in runners
        invariant forall c | c in runners :: runners[c] in workers && CodeOf(runners[c]) == c
        invariant !started
        decreases left
      {
        var kind :| kind in left;
        var wt := KindCode.KindCode(kind);
        runners := runners[wt := kind];
        left := left - {kind};
      }
      if fails {
        return Some(StartFailed);
      }
      started := true;
      err := None;
    }

    /** JSON, the JobLifecycleWrapper and the DatabaseQueue in between carry the work unchanged. */
    method Push(w: BenchWork, fails: bool) returns (err: Option<S.Error>)
      requires Valid() && w.kind in workers
      modifies store`pending, store.db`rows, store.db`broken, store.notifier
      ensures Valid() && err == (if fails then Some(S.DbError) else None)
      ensures store.db.rows == old(store.db.rows) + [if fails then Fresh() else Cell(Some(R.RowFor(Cfg(), w)), NoWrite)]
      ensures old(OwnRows()) && w.workID <= ids.n ==> OwnRows()
    {
      var code := KindCode.KindCode(w.kind);
      err := store.QueuePush(BENCH_QUEUE, priority, code, w, fails);
    }

    /**
     Refused as a duplicate exactly when a row with the job's address is there.  That can only be a row of an earlier
     process, whose counter also started at 1: among rows of this process a new job's address is new.
     */
    method AddressedPush(w: BenchWork, fails: bool) returns (err: Option<S.Error>)
      requires Valid() && w.kind in workers && AddressFree(store.db.rows, None, JobName(w.workID))
      modifies store`pending, store.db`rows, store.db`broken, store.notifier
      ensures Valid()
      ensures err == if fails then Some(S.DbError) else if Taken(old(store.db.rows), JobName(w.workID)) then Some(S.DuplicateAddressedPush) else None
      ensures w.workID > 0 && old(RowsOk(store.db.rows, workers.Keys, w.workID - 1)) ==> err != Some(S.DuplicateAddressedPush)
      ensures store.db.rows == old(store.db.rows)
                               + [if err.Some? then Fresh() else Cell(Some(R.RowFor(Cfg(), w).(address := Some(JobName(w.workID)))), NoWrite)]
    {
      if w.workID > 0 && RowsOk(store.db.rows, workers.Keys, w.workID - 1) {
        NewNameIsNew(store.db.rows, workers.Keys, w.workID - 1);
      }
      var code := KindCode.KindCode(w.kind);
      err := store.QueuePushAddressed(BENCH_QUEUE, priority, code, JobName(w.workID), w, fails);
    }

    method Enqueue(tenant: string, kind: Kind, payload: Payload, fails: bool) returns (id: string, err: Option<Error>)
      requires Valid() && (addressed ==> AddressFree(store.db.rows, None, JobName(ids.n + 1)))
      modifies ids, store`pending, store.db`rows, store.db`broken, store.notifier
      ensures Valid() && (old(OwnRows()) ==> OwnRows())
      ensures err == if !started then Some(EnqueueBeforeStart)
                     else if kind !in workers then Some(UnknownKind)
                     else if fails then Some(PushError(S.DbError))
                     else if addressed && Taken(old(store.db.rows), JobName(ids.n)) then Some(PushError(S.DuplicateAddressedPush))
                     else None
      ensures old(OwnRows()) ==> err != Some(PushError(S.DuplicateAddressedPush))
      ensures ids.n == old(ids.n) + (if started && kind in workers then 1 else 0)
      ensures err.None? ==>
                && id == JobName(ids.n)
                && var row := Row("benchmark", S.ToInt64(priority), 0, CodeOf(kind), if addressed then Some(id) else None,
                                  BenchWork(ids.n, tenant, kind, 1, payload));
                   store.db.rows == old(store.db.rows) + [Cell(Some(row), NoWrite)] && row == R.FirstRow(Cfg(), row.item)
      ensures err.Some? ==> store.db.rows == old(store.db.rows) + (if err.value.PushError? then [Fresh()] else [])
    {
      id, err := "", None;
      if !started {
        return "", Some(EnqueueBeforeStart);
      }
      if kind !in workers {
        return "", Some(UnknownKind);
      }
      var workID := ids.Next();
      var work := BenchWork(workID, tenant, kind, 1, payload);
      var e: Option<S.Error>;
      if addressed {
        e := AddressedPush(work, fails);
      } else {
        e := Push(work, fails);
      }
      if e.Some? {
        return "", Some(PushError(e.value));
      }
      id := JobName(workID);
    }

    /**
     benchRunner.Run.  `behave` is what the worker functions would return; `called` is the worker that was
     called and with what.  The runner's own kind plays no part.
     */
    method Run(w: BenchWork, tenantParses: bool, behave: (Worker, Job) -> R.Result, pushFails: bool)
      returns (called: Option<(Worker, Job)>, r: RunResult)
      requires Valid()
      modifies this`timers, store`pending, store.db`rows, store.db`broken, store.notifier
      ensures Valid() && (old(OwnRows()) && w.workID <= ids.n ==> OwnRows())
      ensures called.Some? <==> tenantParses && w.kind in workers
      ensures called.Some? ==>
                var (fn, job) := called.value;
                && fn == workers[w.kind] && job.id == JobName(w.workID) && job.tenant == w.tenant
                && job.kind == w.kind && job.payload == w.payload && job.attempt == w.attempt
      ensures called.None? ==> r == (if tenantParses then NoWorker else BadTenant)
                               && store.db.rows == old(store.db.rows) && timers == old(timers)
      ensures called.Some? ==>
                var v := behave(called.value.0, called.value.1);
                var again := v.Failed? && v.cls != "permanent" && w.attempt < maxAttempts;
                var next := BenchWork(w.workID, w.tenant, w.kind, w.attempt + 1, w.payload);
                && timers == old(timers) + (if again && delay(w.attempt + 1) > 0 then [next] else [])
                && store.db.rows == old(store.db.rows)
                                    + (if again && delay(w.attempt + 1) <= 0 then
                                         [if pushFails then Fresh()
                                          else Cell(Some(Row("benchmark", S.ToInt64(priority), 0, CodeOf(w.kind), None, next)), NoWrite)]
                                       else [])
                && r == (if v.Failed? && !again then WorkerError(v.cls)
                         else if again && delay(w.attempt + 1) <= 0 && pushFails then RequeueError else Nil)
                && (R.AfterWorker(Cfg(), w, v).Again? <==> again)
                && (again ==> R.AfterWorker(Cfg(), w, v) == R.Again(next, delay(w.attempt + 1) > 0))
    {
      if !tenantParses {
        return None, BadTenant;
      }
      if w.kind !in workers {
        return None, NoWorker;
      }
      var fn := workers[w.kind];
      called := Some((fn, JobOf(w)));
      var v := behave(fn, JobOf(w));
      if v.Ok? {
        return called, Nil;
      }
      if v.cls == PERMANENT {
        return called, WorkerError(v.cls);
      }
      if w.attempt >= maxAttempts {
        return called, WorkerError(v.cls);
      }
      var next := w.(attempt := w.attempt + 1);
      if delay(next.attempt) > 0 {
        timers := timers + [next];
        return called, Nil;
      }
      var e := Push(next, pushFails);
      r := if e.Some? then RequeueError else Nil;
    }

    /**
     The agent takes one job: the factory finds a runner for the popped work type, and it runs.  A row of an earlier
     process may be of a kind that is not registered now; it comes back as an error even if its code collides with
     a registered one.
     */
    method Dispatch(maxPriority: UInt64, types: seq<Code>, f: S.PopFaults, behave: (Worker, Job) -> R.Result, pushFails: bool)
      returns (popped: S.PopResult, called: Option<(Worker, Job)>, r: RunResult)
      requires Valid() && RunnersCover() && forall c | c in types :: c in runners
      modifies this`timers, store`pending, store.db, store.notifier
      ensures Valid() && (old(OwnRows()) ==> OwnRows())
      ensures !popped.Popped? ==> called.None?
      ensures popped.Popped? ==>
                && S.HandsOut(popped, old(store.db.rows), old(store.PopSession()), Query(BENCH_QUEUE, S.ToInt64(maxPriority), types))
                && popped.typ in runners
                && (called.Some? <==> popped.work.kind in workers)
                && (called.None? ==> r == NoWorker && timers == old(timers))
      ensures called.Some? ==>
                var (fn, job) := called.value; var w := popped.work;
                && fn == workers[w.kind] && job.id == JobName(w.workID) && job.tenant == w.tenant
                && job.kind == w.kind && job.payload == w.payload && job.attempt == w.attempt
      ensures popped.Popped? ==>
                S.PoppedMostUrgent(popped, old(store.db.rows), old(store.PopSession()), "benchmark", S.ToInt64(maxPriority), types)
      ensures popped.NoRows? ==>
                forall i: nat :: !Free(old(store.db.rows), old(store.PopSession()), "benchmark", S.ToInt64(maxPriority), types, i)
      ensures popped.PopError? ==> f.count || f.begin || f.reserve || f.claim
      ensures popped.Popped? && old(OwnRows()) ==> popped.work.kind in workers && popped.typ == CodeOf(popped.work.kind)
    {
      popped := TakeOne(maxPriority, types, f);
      called, r := None, Nil;
      if !popped.Popped? {
        return;
      }
      called, r := Run(popped.work, true, behave, pushFails);
    }

    /** The pop of the agent. */
    method TakeOne(maxPriority: UInt64, types: seq<Code>, f: S.PopFaults) returns (popped: S.PopResult)
      requires Valid()
      modifies store.db
      ensures Valid() && (old(OwnRows()) ==> OwnRows())
      ensures popped.Popped? ==>
                && S.HandsOut(popped, old(store.db.rows), old(store.PopSession()), Query(BENCH_QUEUE, S.ToInt64(maxPriority), types))
                && S.PoppedMostUrgent(popped, old(store.db.rows), old(store.PopSession()), "benchmark", S.ToInt64(maxPriority), types)
                && popped.typ in types
      ensures popped.Popped? && old(OwnRows()) ==>
                popped.work.kind in workers && popped.typ == CodeOf(popped.work.kind) && popped.work.workID <= ids.n
      ensures popped.NoRows? ==>
                forall i: nat :: !Free(old(store.db.rows), old(store.PopSession()), "benchmark", S.ToInt64(maxPriority), types, i)
      ensures popped.PopError? ==> f.count || f.begin || f.reserve || f.claim
    {
      ghost var rows := store.db.rows;
      ghost var q := Query(BENCH_QUEUE, S.ToInt64(maxPriority), types);
      ghost var own := OwnRows();
      popped := store.QueuePop(BENCH_QUEUE, maxPriority, types, f);
      if own && popped.Popped? {
        ClaimKeepsRowsOk(popped, rows, store.db.rows, old(store.PopSession()), q, workers.Keys, ids.n);
      }
    }

    /** A backoff timer expires.  The error of its push is ignored. */
    method Fire(i: nat, pushFails: bool)
      requires Valid() && i < |timers|
      modifies this`timers, store`pending, store.db`rows, store.db`broken, store.notifier
      ensures Valid() && timers == old(timers)[..i] + old(timers)[i + 1..] && (old(OwnRows()) ==> OwnRows())
      ensures store.db.rows == old(store.db.rows) + [if pushFails then Fresh() else Cell(Some(R.RowFor(Cfg(), old(timers)[i])), NoWrite)]
    {
      var w := timers[i];
      timers := timers[..i] + timers[i + 1..];
      var _ := Push(w, pushFails);
    }

    /**
     wg.Wait after stopCh is closed: every backoff goroutine has pushed or given up, in whatever order they ran.
     `order` is that order, a permutation of the timers.
     */
    method AwaitTimers(fates: seq<Fate>) returns (ghost order: seq<BenchWork>)
      requires Valid()
      modifies this`timers, store`pending, store.db`rows, store.db`broken, store.notifier
      ensures Valid() && timers == [] && multiset(order) == multiset(old(timers))
      ensures store.db.rows == old(store.db.rows) + Pushed(Cfg(), order, fates)
    {
      order := [];
      var k := 0;
      SplitDone(order, timers);
      while timers != []
        invariant Valid() && Split(order, timers, old(timers)) && k == |order|
        invariant store.db.rows == old(store.db.rows) + Pushed(Cfg(), order, fates)
        decreases |timers|
      {
        var i: nat :| i < |timers|;
        SplitNext(order, timers, old(timers), i);
        PushedMore(old(store.db.rows), Cfg(), order, timers[i], fates);
        order := order + [timers[i]];
        EndTimer(i, FateAt(fates, k));
        k := k + 1;
      }
      SplitDone(order, old(timers));
    }

    /** One backoff goroutine ends. */
    method EndTimer(i: nat, fate: Fate)
      requires Valid() && i < |timers|
      modifies this`timers, store`pending, store.db`rows, store.db`broken, store.notifier
      ensures Valid() && timers == old(timers)[..i] + old(timers)[i + 1..]
      ensures var w := old(timers)[i];
              store.db.rows == old(store.db.rows)
                               + (match fate
                                  case Abandoned => []
                                  case Expired(true) => [Fresh()]
                                  case Expired(false) => [Cell(Some(Row("benchmark", S.ToInt64(priority), 0, CodeOf(w.kind), None, w)), NoWrite)])
      ensures store.db.rows == old(store.db.rows) + PushedBy(Cfg(), old(timers)[i], fate)
    {
      if fate.Expired? {
        Fire(i, fate.pushFails);
      } else {
        timers := timers[..i] + timers[i + 1..];
      }
    }

    /** Stop closes stopCh and waits.  A second close would panic: that is what Start after Stop leads to. */
    method Stop(fates: seq<Fate>) returns (panics: bool, ghost order: seq<BenchWork>)
      requires Valid()
      modifies this`started, this`stopClosed, this`timers, store`pending, store.db`rows, store.db`broken, store.notifier
      ensures Valid() && !started
      ensures panics == (old(started) && old(stopClosed))
      ensures stopClosed == (old(stopClosed) || old(started))
      ensures !old(started) || panics ==> timers == old(timers) && store.db.rows == old(store.db.rows)
      ensures old(started) && !panics ==>
                timers == [] && multiset(order) == multiset(old(timers)) && store.db.rows == old(store.db.rows) + Pushed(Cfg(), order, fates)
    {
      panics, order := false, [];
      if !started {
        return;
      }
      started := false;
      if stopClosed {
        panics := true;
        return;
      }
      stopClosed := true;
      order := AwaitTimers(fates);
    }
  }

  ghost predicate NothingFree(rows: Rows, s: Option<TxId>, maxPriority: int, types: seq<Code>) {
    forall i: nat :: !Free(rows, s, "benchmark", maxPriority, types, i)
  }

  /** Exactly one free row, with work `w`. */
  ghost predicate OnlyWaiting(rows: Rows, s: Option<TxId>, maxPriority: int, types: seq<Code>, w: BenchWork) {
    exists i: nat :: i < |rows| && Seen(rows[i], s).Some? && Seen(rows[i], s).value.item == w
                     && forall j: nat :: Free(rows, s, "benchmark", maxPriority, types, j) <==> j == i
  }

  /** A row just pushed is free for everyone, and it is the only free row if there was none before. */
  lemma OnlyFreeRow(rows: Rows, row: Row, s: Option<TxId>, maxPriority: int, types: seq<Code>)
    requires row.name == "benchmark" && row.priority <= maxPriority && row.permit == 0 && row.typ in types
    requires NothingFree(rows, s, maxPriority, types)
    ensures OnlyWaiting(rows + [Cell(Some(row), NoWrite)], s, maxPriority, types, row.item)
  {
    var now := rows + [Cell(Some(row), NoWrite)];
    forall i: nat ensures Free(now, s, "benchmark", maxPriority, types, i) <==> i == |rows| {
      if i < |rows| {
        assert now[i] == rows[i];
        assert !Free(rows, s, "benchmark", maxPriority, types, i);
      } else if i == |rows| {
        var k: nat :| k < |types| && row.typ == types[k];
      }
    }
    assert Seen(now[|rows|], s) == Some(row);
  }

  lemma OnlyOneIsPopped(popped: S.PopResult, rows: Rows, s: Option<TxId>, maxPriority: int, types: seq<Code>, w: BenchWork)
    requires OnlyWaiting(rows, s, maxPriority, types, w)
    ensures popped.Popped? && S.PoppedMostUrgent(popped, rows, s, "benchmark", maxPriority, types) ==> popped.work == w
    ensures !NothingFree(rows, s, maxPriority, types)
  {
    var i: nat :| i < |rows| && Seen(rows[i], s).Some? && Seen(rows[i], s).value.item == w
                  && forall j: nat :: Free(rows, s, "benchmark", maxPriority, types, j) <==> j == i;
    assert Free(rows, s, "benchmark", maxPriority, types, i);
  }

  /** The one waiting job is dispatched to the worker of its kind. */
  method DispatchOnly(h: Harness, ghost w: BenchWork, maxPriority: UInt64, types: seq<Code>, behave: (Worker, Job) -> R.Result, pushFails: bool)
    returns (called: Option<(Worker, Job)>, r: RunResult)
    requires h.Valid() && h.RunnersCover() && w.kind in h.workers && forall c | c in types :: c in h.runners
    requires OnlyWaiting(h.store.db.rows, h.store.PopSession(), S.ToInt64(maxPriority), types, w)
    modifies h`timers, h.store`pending, h.store.db, h.store.notifier
    ensures h.Valid() && called.Some?
    ensures var (fn, job) := called.value;
            && fn == h.workers[w.kind] && job.id == JobName(w.workID) && job.tenant == w.tenant
            && job.kind == w.kind && job.payload == w.payload && job.attempt == w.attempt
  {
    ghost var rows, s, most := h.store.db.rows, h.store.PopSession(), S.ToInt64(maxPriority);
    var popped: S.PopResult;
    popped, called, r := h.Dispatch(maxPriority, types, S.PopFaults(false, false, false, false, false, false), behave, pushFails);
    OnlyOneIsPopped(popped, rows, s, most, types, w);
    assert popped.NoRows? ==> NothingFree(rows, s, most, types);
  }

  /**
   The way of one job through the queue when nothing else waits and nothing fails: the worker registered for its
   kind gets the job with the id that Enqueue returned, its tenant, kind and payload, on attempt 1.
   */
  method EnqueueAndDispatch(h: Harness, tenant: string, kind: Kind, payload: Payload, maxPriority: UInt64, types: seq<Code>,
                            behave: (Worker, Job) -> R.Result, pushFails: bool)
    returns (id: string, called: Option<(Worker, Job)>, r: RunResult)
    requires h.Valid() && h.started && kind in h.workers
    requires h.addressed ==> AddressFree(h.store.db.rows, None, JobName(h.ids.n + 1)) && !Taken(h.store.db.rows, JobName(h.ids.n + 1))
    requires S.ToInt64(h.priority) <= S.ToInt64(maxPriority) && CodeOf(kind) in types && forall c | c in types :: c in h.runners
    requires NothingFree(h.store.db.rows, h.store.PopSession(), S.ToInt64(maxPriority), types)
    modifies h`timers, h.ids, h.store`pending, h.store.db, h.store.notifier
    ensures h.Valid() && called.Some?
    ensures var (fn, job) := called.value;
            && fn == h.workers[kind] && job.id == id && job.tenant == tenant
            && job.kind == kind && job.payload == payload && job.attempt == 1
  {
    var e: Option<Error>;
    ghost var rows, s, most := h.store.db.rows, h.store.PopSession(), S.ToInt64(maxPriority);
    id, e := h.Enqueue(tenant, kind, payload, false);
    ghost var row := h.store.db.rows[|rows|].base.value;
    OnlyFreeRow(rows, row, s, most, types);
    called, r := DispatchOnly(h, row.item, maxPriority, types, behave, pushFails);
  }
}
