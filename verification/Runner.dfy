/**
 One benchmark run (internal/runner/runner.go): enqueue goroutines and worker functions around
 the adapter, with their counters and the event log.  A counter is incremented in one step and
 the matching record written in a later one, so any other goroutine may record in between.
 */
module Runner {
  import opened Options
  import opened Jobs
  import opened Retry
  import opened Events

  /** An Enqueue call that has returned: with a job, or with an error. */
  datatype Submit = Accepted(w: nat, tenant: string) | Counted(w: nat, tenant: string) | Refused | Recorded(ok: bool)

  datatype Run = Run(
    h: Harness,
    submits: seq<Submit>,
    enqueued: nat, completed: nat, failed: nat,   // the atomic counters
    log: Log,
    clock: int,
    ended: bool)

  datatype Step =
    | Adapter(m: Move)
    | CountSubmit(i: nat)
    | RecordSubmit(i: nat)
    | Sample(goroutines: int, rss: int)
    | Tick(d: nat)
    | End

  ghost predicate CanStep(r: Run, s: Step) {
    !r.ended && match s
    case Adapter(m) => CanMove(r.h, m)
    case CountSubmit(i) => i < |r.submits| && r.submits[i].Accepted?
    case RecordSubmit(i) => i < |r.submits| && (r.submits[i].Counted? || r.submits[i].Refused?)
    case Sample(_, _) => true
    case Tick(_) => true
    case End => true
  }

  function Note(r: Run, e: Event): Run { r.(log := r.log + [e]) }

  /** What the worker function and the enqueue goroutine do alongside an adapter move. */
  function Beside(r: Run, m: Move): Run
    requires m.Start? || m.Judge? || m.Decide? ==> m.k < |r.h.attempts|
    requires m.Decide? ==> r.h.attempts[m.k].phase.Judged?
  {
    match m
    case Enqueue(_, tenant, _, _) => r.(submits := r.submits + [Accepted(r.h.nextID + 1, tenant)])
    case EnqueueFailed(_) => r.(submits := r.submits + [Refused])
    case Start(k) => Note(r, JobStarted(r.clock, JobName(r.h.attempts[k].work.workID)))
    case Judge(_, res) => if res.Ok? then r.(completed := r.completed + 1) else r.(failed := r.failed + 1)
    case Decide(k) =>
      var a := r.h.attempts[k];
      (match a.phase.result
       case Ok => Note(r, JobCompleted(r.clock, JobName(a.work.workID), a.work.tenant))
       case Failed(cls) => Note(r, JobFailed(r.clock, cls)))
    case _ => r
  }

  ghost function StepNext(cfg: Config, r: Run, s: Step): Run
    requires CanStep(r, s)
  {
    match s
    case Adapter(m) => Beside(r, m).(h := MoveNext(cfg, r.h, m))
    case CountSubmit(i) => r.(submits := r.submits[i := Counted(r.submits[i].w, r.submits[i].tenant)], enqueued := r.enqueued + 1)
    case RecordSubmit(i) =>
      (match r.submits[i]
       case Counted(w, tenant) => Note(r.(submits := r.submits[i := Recorded(true)]), JobEnqueued(r.clock, JobName(w), tenant))
       case _ => Note(r.(submits := r.submits[i := Recorded(false)]), JobFailed(r.clock, "")))
    case Sample(g, rss) => Note(r, ResourceSample(r.clock, Some(g), Some(rss)))
    case Tick(d) => r.(clock := r.clock + d)
    case End => Note(r, RunEnd(r.clock, Some(r.completed), Some(r.enqueued), Some(r.failed))).(ended := true)
  }

  /** The state after the step, if it is possible. */
  ghost function TryStep(cfg: Config, r: Run, s: Step): Option<Run> {
    if CanStep(r, s) then Some(StepNext(cfg, r, s)) else None
  }

  ghost predicate Begins(r: Run, library: string, scenario: string) {
    && IsFresh(r.h) && r.submits == [] && r.enqueued == 0 && r.completed == 0 && r.failed == 0 && !r.ended
    && r.log == [RunStart(r.clock, Some(library), Some(scenario))]
  }

  ghost predicate IsBenchmark(cfg: Config, rs: seq<Run>, ss: seq<Step>) {
    && ValidConfig(cfg) && |rs| == |ss| + 1
    && (exists lib, sc :: Begins(rs[0], lib, sc))
    && forall k: nat {:trigger ss[k]} | k < |ss| :: TryStep(cfg, rs[k], ss[k]) == Some(rs[k + 1])
  }
}
