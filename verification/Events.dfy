/** The JSONL event stream: one parsed line each (internal/metrics/recorder.go, rawEvent in analyze.go). */
module Events {
  import opened Options

  /**
   `ts` is in nanoseconds; 0 is Go's zero time.  A string field that is missing or not a string
   reads as "", a numeric field that is missing or not a number as None.
   */
  datatype Event =
    | RunStart(ts: int, library: Option<string>, scenario: Option<string>)
    | RunEnd(ts: int, completed: Option<int>, enqueued: Option<int>, failed: Option<int>)
    | JobEnqueued(ts: int, job: string, tenant: string)
    | JobStarted(ts: int, job: string)
    | JobCompleted(ts: int, job: string, tenant: string)
    | JobFailed(ts: int, cls: string)
    | ResourceSample(ts: int, goroutines: Option<int>, rss: Option<int>)
    | OtherEvent(ts: int)

  type Log = seq<Event>

  /** The recorder reads the clock under its lock. */
  ghost predicate Monotone(log: Log) {
    forall i, j | 0 <= i <= j < |log| :: log[i].ts <= log[j].ts
  }
}
