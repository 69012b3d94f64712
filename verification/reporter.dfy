/** The `Reporter` class of src/utils/report.js, updating its queue in place. Every method
    performs one step of the state machine in module ReportSpec, and the ghost history
    (`enqueued`, `delivered`) witnesses that no event is lost. */
module Report {
  import opened Wrappers
  import opened Events
  import opened ReportSpec

  /** Used when the options give no application version (or an empty one). */
  const DefaultAppVersion: string := "1.0.0"

  class Reporter {
    const reportUrl: Option<string>
    const appVersion: string
    const batchSize: nat := BatchSize
    const reportInterval: nat := ReportInterval
    const maxRetries: nat := MaxRetries

    /** Pending events, oldest first. */
    var queue: seq<Event>
    /** Batches whose `fetch` has started and not yet settled. */
    var inFlight: seq<Batch>
    /** Retry timers armed with `setTimeout` that have not fired yet. */
    var retryTimers: seq<RetryTimer>
    /** How many `setInterval` timers call `reportBatch`. */
    var intervals: nat

    /** Every event ever passed to `addToQueue`, in order. */
    ghost var enqueued: seq<Event>
    /** Every event of a batch whose send settled with an ok response. */
    ghost var delivered: seq<Event>

    function Snapshot(): State
      reads this
    {
      State(queue, inFlight, retryTimers)
    }

    /** Nothing is lost: held events plus delivered events are exactly the enqueued events. */
    ghost predicate Valid()
      reads this
    {
      multiset(Outstanding(Snapshot())) + multiset(delivered) == multiset(enqueued)
    }

    constructor (reportUrl: Option<string>, appVersion: Option<string>)
      ensures Valid()
      ensures this.reportUrl == reportUrl
      ensures appVersion.Some? && appVersion.value != "" ==> this.appVersion == appVersion.value
      ensures appVersion.None? || appVersion.value == "" ==> this.appVersion == DefaultAppVersion
      ensures Snapshot() == Initial && intervals == 1
      ensures enqueued == [] && delivered == []
    {
      this.reportUrl := reportUrl;
      this.appVersion := if appVersion.Some? && appVersion.value != "" then appVersion.value
                         else DefaultAppVersion;
      queue, inFlight, retryTimers, intervals := [], [], [], 0;
      enqueued, delivered := [], [];
      new;
      StartReportTimer();
    }

    method AddToQueue(e: Event)
      requires Valid()
      modifies this
      ensures Valid()
      ensures Snapshot() == ReportSpec.AddToQueue(old(Snapshot()), e)
      ensures enqueued == old(enqueued) + [e] && delivered == old(delivered)
      ensures intervals == old(intervals)
    {
      queue := queue + [e];
      enqueued := enqueued + [e];
      assert Outstanding(Snapshot()) == Outstanding(old(Snapshot())) + [e];
      if |queue| >= batchSize {
        ReportBatch();
      }
    }

    method ReportBatch()
      requires Valid()
      modifies this
      ensures Valid()
      ensures Snapshot() == ReportSpec.ReportBatch(old(Snapshot()))
      ensures enqueued == old(enqueued) && delivered == old(delivered)
      ensures intervals == old(intervals)
    {
      if |queue| == 0 {
        return;
      }
      var batch := queue;
      queue := [];
      inFlight := inFlight + [batch];
      ReportBatchSnapshots(old(Snapshot()));
    }

    /** The code after `await fetch(...)` for send i; `ok` is the response's ok flag, false
        also when fetch threw. */
    method CompleteSend(i: nat, ok: bool)
      requires Valid() && i < |inFlight|
      modifies this
      ensures Valid()
      ensures Snapshot() == ReportSpec.CompleteSend(old(Snapshot()), i, ok)
      ensures enqueued == old(enqueued)
      ensures delivered == old(delivered) + (if ok then old(inFlight[i]) else [])
      ensures intervals == old(intervals)
    {
      var batch := inFlight[i];
      inFlight := RemoveAt(inFlight, i);
      RemoveBatch(old(inFlight), i);
      if ok {
        delivered := delivered + batch;
      } else {
        queue := batch + queue;
        RetryReport(0);
      }
    }

    method RetryReport(retries: nat)
      requires Valid()
      modifies this
      ensures Valid()
      ensures Snapshot() == ReportSpec.RetryReport(old(Snapshot()), retries)
      ensures enqueued == old(enqueued) && delivered == old(delivered)
      ensures intervals == old(intervals)
    {
      if retries >= maxRetries {
        // the source only logs here: the batch has already been put back in the queue
        return;
      }
      retryTimers := retryTimers + [RetryTimer(BaseDelay * Pow2(retries), retries + 1)];
    }

    /** Retry timer k fires; the argument it carries is passed to `reportBatch`, which ignores it. */
    method FireRetryTimer(k: nat)
      requires Valid() && k < |retryTimers|
      modifies this
      ensures Valid()
      ensures Snapshot() == ReportSpec.FireRetryTimer(old(Snapshot()), k)
      ensures enqueued == old(enqueued) && delivered == old(delivered)
      ensures intervals == old(intervals)
    {
      retryTimers := RemoveAt(retryTimers, k);
      ReportBatch();
    }

    method StartReportTimer()
      modifies this
      ensures intervals == old(intervals) + 1
      ensures Snapshot() == old(Snapshot())
      ensures enqueued == old(enqueued) && delivered == old(delivered)
    {
      intervals := intervals + 1;
    }

    /** One of the interval timers fires. */
    method IntervalTick()
      requires Valid() && intervals > 0
      modifies this
      ensures Valid()
      ensures Snapshot() == ReportSpec.IntervalTick(old(Snapshot()))
      ensures enqueued == old(enqueued) && delivered == old(delivered)
      ensures intervals == old(intervals)
    {
      ReportBatch();
    }
  }
}
