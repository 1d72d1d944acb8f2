/**
 The adapter's retry protocol (benchRunner.Run, the backoff timers, Enqueue and Stop) on top
 of the statement-level store: any number of poppers, attempts, timers and enqueuers,
 interleaved with every store statement.
 */
module Retry {
  import opened Options
  import opened Mvcc
  import opened Jobs
  import opened Tables
  import opened Sessions

  /** What the registered worker returned.  The class is empty for an error that is not a SimulatedError. */
  datatype Result = Ok | Failed(cls: string)

  datatype Outcome = Succeeded | FailedPermanently | Exhausted | DroppedAtShutdown | RequeueFailed

  datatype Phase =
    | Popped                       // QueuePop returned the work
    | Running                      // the worker function is executing
    | Judged(result: Result)       // the worker function has returned
    | Retrying(next: BenchWork)    // re-enqueue decided, push not yet done
    | Returned                     // the runner has returned to the agent

  datatype Attempt = Attempt(work: BenchWork, permit: Permit, phase: Phase)

  datatype Timer = Timer(work: BenchWork, live: bool)

  /** Where an accepted job currently is. */
  datatype Place = InQueue(row: nat) | InAttempt(k: nat) | InTimer(m: nat) | Done(outcome: Outcome)

  /** `delay` is BackoffFn, constantly 0 when none is configured; `addressed` is UseAddressedPush. */
  datatype Config = Config(maxAttempts: int, delay: int -> int, queue: string, priority: int, code: Kind -> Code, addressed: bool)

  ghost predicate ValidConfig(cfg: Config) {
    1 <= cfg.maxAttempts < 0x8000_0000
  }

  /** An accepted job as it was enqueued, where it is now, and how many attempts have begun. */
  datatype Card = Card(job: BenchWork, place: Place, begun: nat)

  /** `cards` records history, by work id, and never influences a move. */
  datatype Harness = Harness(
    sys: Sys,
    nextID: nat,                // workIDCounter
    attempts: seq<Attempt>,     // every attempt ever begun, in order
    timers: seq<Timer>,         // every backoff timer ever set
    stopped: bool,              // stopCh closed
    lost: bool,                 // some pop returned work although its commit failed
    cards: map<nat, Card>)

  datatype Move =
    | Store(a: Action)                               // a statement of a pop or of the agent's delete
    | Enqueue(c: Id, tenant: string, kind: Kind, payload: Payload)
    | EnqueueFailed(c: Id)
    | PopReturn(c: Id)
    | PopLost(c: Id)                                 // commit error discarded
    | Start(k: nat)
    | Judge(k: nat, result: Result)
    | Decide(k: nat)
    | Requeue(k: nat, c: Id)
    | RequeueFails(k: nat, c: Id)
    | Fire(m: nat, c: Id)
    | FireFails(m: nat, c: Id)
    | Drop(m: nat)
    | Stop

  /** The row of a retry: always unaddressed. */
  function RowFor(cfg: Config, w: BenchWork): Row {
    Row(cfg.queue, cfg.priority, 0, cfg.code(w.kind), None, w)
  }

  /** The row of an Enqueue, addressed by its job id when so configured. */
  function FirstRow(cfg: Config, w: BenchWork): Row {
    RowFor(cfg, w).(address := if cfg.addressed then Some(JobName(w.workID)) else None)
  }

  /** benchRunner.Run after the worker function has returned. */
  datatype Verdict = Finish(outcome: Outcome) | Again(next: BenchWork, delayed: bool)

  function AfterWorker(cfg: Config, w: BenchWork, r: Result): Verdict {
    if r.Ok? then Finish(Succeeded)
    else if r.cls == PERMANENT then Finish(FailedPermanently)
    else if w.attempt >= cfg.maxAttempts then Finish(Exhausted)
    else Again(w.(attempt := w.attempt + 1), cfg.delay(w.attempt + 1) > 0)
  }

  /**
   The decision in the columns of the work: tried again exactly if it failed, not permanently, and below the limit; then
   with the next attempt number, at once exactly if the backoff for that attempt is not positive.
   */
  lemma AfterWorkerMeans(cfg: Config, w: BenchWork, r: Result)
    ensures var v := AfterWorker(cfg, w, r);
            && (v.Again? <==> r.Failed? && r.cls != "permanent" && w.attempt < cfg.maxAttempts)
            && (v.Again? ==> v.next == BenchWork(w.workID, w.tenant, w.kind, w.attempt + 1, w.payload)
                             && (v.delayed <==> cfg.delay(w.attempt + 1) > 0))
            && (v.Finish? ==> (v.outcome == Succeeded <==> r.Ok?) && (v.outcome == FailedPermanently <==> r == Failed("permanent")))
            && (v == Finish(Exhausted) <==> r.Failed? && r.cls != "permanent" && w.attempt >= cfg.maxAttempts)
  {
  }

  /** Statements that belong to a pop that has not won, or to the agent's QueueDelete. */
  predicate StoreOnly(sys: Sys, a: Action)
    requires a.c < |sys.clients|
  {
    && !a.Push? && !a.PushFailed? && !a.Begin? && !a.Commit?
    && (a.Rollback? ==> !sys.clients[a.c].call.Won?)
  }

  ghost predicate CanMove(h: Harness, m: Move) {
    match m
    case Store(a) => Enabled(h.sys, a) && StoreOnly(h.sys, a)
    case Enqueue(c, _, _, _) => c < |h.sys.clients| && Usable(h.sys.clients[c])
    case EnqueueFailed(c) => c < |h.sys.clients| && Usable(h.sys.clients[c])
    case PopReturn(c) => c < |h.sys.clients| && h.sys.clients[c].call.Won? && Enabled(h.sys, Sessions.Commit(c))
    case PopLost(c) => c < |h.sys.clients| && h.sys.clients[c].call.Won? && Enabled(h.sys, Rollback(c))
    case Start(k) => k < |h.attempts| && h.attempts[k].phase.Popped?
    case Judge(k, _) => k < |h.attempts| && h.attempts[k].phase.Running?
    case Decide(k) => k < |h.attempts| && h.attempts[k].phase.Judged?
    case Requeue(k, c) => k < |h.attempts| && h.attempts[k].phase.Retrying? && c < |h.sys.clients| && Usable(h.sys.clients[c])
    case RequeueFails(k, c) => k < |h.attempts| && h.attempts[k].phase.Retrying? && c < |h.sys.clients| && Usable(h.sys.clients[c])
    case Fire(t, c) => t < |h.timers| && h.timers[t].live && c < |h.sys.clients| && Usable(h.sys.clients[c])
    case FireFails(t, c) => t < |h.timers| && h.timers[t].live && c < |h.sys.clients| && Usable(h.sys.clients[c])
    case Drop(t) => t < |h.timers| && h.timers[t].live && h.stopped
    case Stop => !h.stopped
  }

  function SetPhase(h: Harness, k: nat, p: Phase): Harness
    requires k < |h.attempts|
  {
    h.(attempts := h.attempts[k := h.attempts[k].(phase := p)])
  }

  /** A pop hands over its work, and an attempt begins. */
  ghost function BeginAttempt(h: Harness, w: BenchWork, p: Permit): Harness {
    h.(attempts := h.attempts + [Attempt(w, p, Popped)],
       cards := if w.workID !in h.cards then h.cards
                else h.cards[w.workID := h.cards[w.workID].(place := InAttempt(|h.attempts|), begun := h.cards[w.workID].begun + 1)])
  }

  function Moved(cards: map<nat, Card>, w: nat, p: Place): map<nat, Card> {
    if w in cards then cards[w := cards[w].(place := p)] else cards
  }

  ghost function PushWork(cfg: Config, h: Harness, c: Id, w: BenchWork): Harness
    requires c < |h.sys.clients| && Usable(h.sys.clients[c])
  {
    h.(sys := Next(h.sys, Push(c, RowFor(cfg, w))), cards := Moved(h.cards, w.workID, InQueue(|h.sys.rows|)))
  }

  ghost function PushError(h: Harness, c: Id): Harness
    requires c < |h.sys.clients| && Usable(h.sys.clients[c])
  {
    h.(sys := Next(h.sys, PushFailed(c)))
  }

  ghost function Finished(h: Harness, w: nat, o: Outcome): Harness {
    h.(cards := Moved(h.cards, w, Done(o)))
  }

  ghost function MoveNext(cfg: Config, h: Harness, m: Move): Harness
    requires CanMove(h, m)
  {
    match m
    case Store(a) => h.(sys := Next(h.sys, a))
    case Enqueue(c, tenant, kind, payload) =>
      var w := BenchWork(h.nextID + 1, tenant, kind, 1, payload);
      h.(sys := Next(h.sys, Push(c, FirstRow(cfg, w))),
         nextID := h.nextID + 1,
         cards := h.cards[w.workID := Card(w, InQueue(|h.sys.rows|), 0)])
    case EnqueueFailed(c) => PushError(h.(nextID := h.nextID + 1), c)
    case PopReturn(c) =>
      BeginAttempt(h.(sys := Next(h.sys, Sessions.Commit(c))), h.sys.clients[c].call.work, h.sys.clients[c].call.p)
    case PopLost(c) =>
      BeginAttempt(h.(sys := Next(h.sys, Rollback(c)), lost := true), h.sys.clients[c].call.work, h.sys.clients[c].call.p)
    case Start(k) => SetPhase(h, k, Running)
    case Judge(k, r) => SetPhase(h, k, Judged(r))
    case Decide(k) =>
      var w := h.attempts[k].work;
      (match AfterWorker(cfg, w, h.attempts[k].phase.result)
       case Finish(o) => Finished(SetPhase(h, k, Returned), w.workID, o)
       case Again(next, delayed) =>
         if delayed then
           SetPhase(h, k, Returned).(timers := h.timers + [Timer(next, true)], cards := Moved(h.cards, w.workID, InTimer(|h.timers|)))
         else SetPhase(h, k, Retrying(next)))
    case Requeue(k, c) => PushWork(cfg, SetPhase(h, k, Returned), c, h.attempts[k].phase.next)
    case RequeueFails(k, c) =>
      Finished(PushError(SetPhase(h, k, Returned), c), h.attempts[k].work.workID, RequeueFailed)
    case Fire(t, c) => PushWork(cfg, h.(timers := h.timers[t := h.timers[t].(live := false)]), c, h.timers[t].work)
    case FireFails(t, c) =>
      Finished(PushError(h.(timers := h.timers[t := h.timers[t].(live := false)]), c), h.timers[t].work.workID, RequeueFailed)
    case Drop(t) => Finished(h.(timers := h.timers[t := h.timers[t].(live := false)]), h.timers[t].work.workID, DroppedAtShutdown)
    case Stop => h.(stopped := true)
  }

  /** The state after the move, if it is possible. */
  ghost function TryMove(cfg: Config, h: Harness, m: Move): Option<Harness> {
    if CanMove(h, m) then Some(MoveNext(cfg, h, m)) else None
  }

  /** An accepted Enqueue adds one row, unclaimed and typed by its kind, with the next id and attempt 1, and remembers the same job. */
  lemma EnqueueMeans(cfg: Config, h: Harness, m: Move)
    requires CanMove(h, m) && m.Enqueue?
    ensures var w := BenchWork(h.nextID + 1, m.tenant, m.kind, 1, m.payload); var n := MoveNext(cfg, h, m);
            var row := Row(cfg.queue, cfg.priority, 0, cfg.code(m.kind), if cfg.addressed then Some("bench:" + Decimal(h.nextID + 1)) else None, w);
            && |n.sys.rows| == |h.sys.rows| + 1 && Seen(n.sys.rows[|h.sys.rows|], Session(h.sys, m.c)) == Some(row)
            && n.nextID == h.nextID + 1 && n.cards == h.cards[h.nextID + 1 := Card(w, InQueue(|h.sys.rows|), 0)]
  {
  }

  ghost predicate IsFresh(h: Harness) {
    && Initial(h.sys) && h.attempts == [] && h.timers == [] && !h.stopped && !h.lost
    && h.cards == map[]
  }
}
