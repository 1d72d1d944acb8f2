/**
 What the analyzer's numbers mean, stated over the whole event sequence: each post-warmup
 start is paired with the latest earlier enqueue line of its job, and so on.
 */
module AnalyzerSpec {
  import opened Options
  import opened Events

  const WARMUP := 2_000_000_000

  /** Duration.Microseconds: truncates toward zero. */
  function Micros(d: int): int {
    if d >= 0 then d / 1000 else -((-d) / 1000)
  }

  function Millis(d: int): real {
    Micros(d) as real / 1000.0
  }

  /** The warmup cutoff in force when line `n` is read: set by the latest run_start before it; 0 for none. */
  function Cutoff(log: Log, n: nat): int
    requires n <= |log|
  {
    if n == 0 then 0
    else if log[n - 1].RunStart? then log[n - 1].ts + WARMUP
    else Cutoff(log, n - 1)
  }

  predicate Counted(log: Log, k: nat)
    requires k < |log|
  {
    Cutoff(log, k) == 0 || log[k].ts >= Cutoff(log, k)
  }

  /** The latest enqueue line of `job` before line `n`, or -1. */
  function LastEnqueue(log: Log, n: nat, job: string): (r: int)
    requires n <= |log|
    ensures -1 <= r < n
    ensures r >= 0 ==> log[r].JobEnqueued? && log[r].job == job
  {
    if n == 0 then -1
    else if log[n - 1].JobEnqueued? && log[n - 1].job == job then n - 1
    else LastEnqueue(log, n - 1, job)
  }

  /** The latest start line of `job` before line `n`, or -1. */
  function LastStart(log: Log, n: nat, job: string): (r: int)
    requires n <= |log|
    ensures -1 <= r < n
    ensures r >= 0 ==> log[r].JobStarted? && log[r].job == job
  {
    if n == 0 then -1
    else if log[n - 1].JobStarted? && log[n - 1].job == job then n - 1
    else LastStart(log, n - 1, job)
  }

  datatype Sample = Sample(tenant: string, ms: real)

  /** One sample per counted start line with an earlier enqueue line, attributed to that line's tenant. */
  function PickupAt(log: Log, k: nat): seq<Sample>
    requires k < |log|
  {
    if log[k].JobStarted? && Counted(log, k) && LastEnqueue(log, k, log[k].job) >= 0 then
      var e := log[LastEnqueue(log, k, log[k].job)];
      [Sample(e.tenant, Millis(log[k].ts - e.ts))]
    else []
  }

  function Pickups(log: Log, n: nat): seq<Sample>
    requires n <= |log|
  {
    if n == 0 then [] else Pickups(log, n - 1) + PickupAt(log, n - 1)
  }

  function WorkAt(log: Log, k: nat): seq<real>
    requires k < |log|
  {
    if log[k].JobCompleted? && Counted(log, k) && LastStart(log, k, log[k].job) >= 0
    then [Millis(log[k].ts - log[LastStart(log, k, log[k].job)].ts)] else []
  }

  function Works(log: Log, n: nat): seq<real>
    requires n <= |log|
  {
    if n == 0 then [] else Works(log, n - 1) + WorkAt(log, n - 1)
  }

  function E2EAt(log: Log, k: nat): seq<real>
    requires k < |log|
  {
    if log[k].JobCompleted? && Counted(log, k) && LastEnqueue(log, k, log[k].job) >= 0
    then [Millis(log[k].ts - log[LastEnqueue(log, k, log[k].job)].ts)] else []
  }

  function E2Es(log: Log, n: nat): seq<real>
    requires n <= |log|
  {
    if n == 0 then [] else E2Es(log, n - 1) + E2EAt(log, n - 1)
  }

  function All(ss: seq<Sample>): seq<real> {
    if ss == [] then [] else All(ss[..|ss| - 1]) + [ss[|ss| - 1].ms]
  }

  function Of(ss: seq<Sample>, t: string): seq<real> {
    if ss == [] then []
    else Of(ss[..|ss| - 1], t) + (if ss[|ss| - 1].tenant == t then [ss[|ss| - 1].ms] else [])
  }

  /** Enqueue lines of tenant `t`. */
  function Enqueues(log: Log, n: nat, t: string): nat
    requires n <= |log|
  {
    if n == 0 then 0 else Enqueues(log, n - 1, t) + (if log[n - 1].JobEnqueued? && log[n - 1].tenant == t then 1 else 0)
  }

  /** Completion lines of tenant `t` that come after an enqueue line of that tenant. */
  function Completions(log: Log, n: nat, t: string): nat
    requires n <= |log|
  {
    if n == 0 then 0
    else Completions(log, n - 1, t)
         + (if log[n - 1].JobCompleted? && log[n - 1].tenant == t && Enqueues(log, n - 1, t) > 0 then 1 else 0)
  }

  function ClassOf(cls: string): string {
    if cls == "" then "unclassified" else cls
  }

  function Failures(log: Log, n: nat, cls: string): nat
    requires n <= |log|
  {
    if n == 0 then 0 else Failures(log, n - 1, cls) + (if log[n - 1].JobFailed? && ClassOf(log[n - 1].cls) == cls then 1 else 0)
  }

  /** The latest run_start / run_end line before line `n`, or -1. */
  function LastRunStart(log: Log, n: nat): (r: int)
    requires n <= |log|
    ensures -1 <= r < n && (r >= 0 ==> log[r].RunStart?)
  {
    if n == 0 then -1 else if log[n - 1].RunStart? then n - 1 else LastRunStart(log, n - 1)
  }

  function LastRunEnd(log: Log, n: nat): (r: int)
    requires n <= |log|
    ensures -1 <= r < n && (r >= 0 ==> log[r].RunEnd?)
  {
    if n == 0 then -1 else if log[n - 1].RunEnd? then n - 1 else LastRunEnd(log, n - 1)
  }

  /** A field's final value: that of the latest line that carries it, else `d`. */
  function Latest<T>(log: Log, n: nat, f: Event -> Option<T>, d: T): T
    requires n <= |log|
  {
    if n == 0 then d
    else if f(log[n - 1]).Some? then f(log[n - 1]).value
    else Latest(log, n - 1, f, d)
  }

  /** The greatest value any line carries, else 0. */
  function Peak(log: Log, n: nat, f: Event -> Option<int>): int
    requires n <= |log|
  {
    if n == 0 then 0
    else if f(log[n - 1]).Some? && f(log[n - 1]).value > Peak(log, n - 1, f) then f(log[n - 1]).value
    else Peak(log, n - 1, f)
  }

  function LibraryOf(e: Event): Option<string> { if e.RunStart? then e.library else None }
  function ScenarioOf(e: Event): Option<string> { if e.RunStart? then e.scenario else None }
  function CompletedOf(e: Event): Option<int> { if e.RunEnd? then e.completed else None }
  function EnqueuedOf(e: Event): Option<int> { if e.RunEnd? then e.enqueued else None }
  function FailedOf(e: Event): Option<int> { if e.RunEnd? then e.failed else None }
  function GoroutinesOf(e: Event): Option<int> { if e.ResourceSample? then e.goroutines else None }
  function RssOf(e: Event): Option<int> { if e.ResourceSample? then e.rss else None }
}
