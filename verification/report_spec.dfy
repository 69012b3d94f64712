/** The client reporter of src/utils/report.js as a state machine over values: the pending
    queue, the batches whose `fetch` has started and not yet settled, and the retry timers
    armed with `setTimeout`. Each function is one synchronous step of the reporter; the
    class in module Report performs the same steps in place. */
module ReportSpec {
  import opened Wrappers
  import opened Events

  /** Constructor defaults of the reporter. */
  const BatchSize: nat := 10
  const ReportInterval: nat := 5000
  const MaxRetries: nat := 3
  /** Base of the exponential backoff, in milliseconds. */
  const BaseDelay: nat := 1000

  /** The unit of delivery: a snapshot of the queue, oldest event first. */
  type Batch = seq<Event>

  /** A one-shot retry timer: the delay it was armed with, and the argument its callback
      passes to `reportBatch`, which takes no parameter and so discards it. */
  datatype RetryTimer = RetryTimer(delay: nat, argument: nat)

  datatype State = State(queue: seq<Event>, inFlight: seq<Batch>, retryTimers: seq<RetryTimer>)

  /** The state right after construction. */
  const Initial: State := State([], [], [])

  /** All events of a sequence of batches, batch after batch. */
  function Flatten(batches: seq<Batch>): seq<Event>
  {
    if batches == [] then [] else batches[0] + Flatten(batches[1..])
  }

  lemma {:induction false} FlattenAppend(a: seq<Batch>, b: seq<Batch>)
    ensures Flatten(a + b) == Flatten(a) + Flatten(b)
  {
    if a == [] {
      assert a + b == b;
    } else {
      assert (a + b)[1..] == a[1..] + b;
      FlattenAppend(a[1..], b);
    }
  }

  /** Removing one batch from the in-flight list removes exactly its events. */
  lemma RemoveBatch(batches: seq<Batch>, i: nat)
    requires i < |batches|
    ensures multiset(Flatten(RemoveAt(batches, i))) + multiset(batches[i]) == multiset(Flatten(batches))
  {
    var before, b, after := batches[..i], batches[i], batches[i + 1..];
    assert batches == before + [b] + after;
    FlattenAppend(before + [b], after);
    FlattenAppend(before, [b]);
    assert Flatten([b]) == b;
    assert Flatten(batches) == Flatten(before) + b + Flatten(after);
    FlattenAppend(before, after);
    assert Flatten(RemoveAt(batches, i)) == Flatten(before) + Flatten(after);
  }

  /** The sequence without its element at index i. */
  function RemoveAt<T>(xs: seq<T>, i: nat): (r: seq<T>)
    requires i < |xs|
    ensures |r| == |xs| - 1
    ensures forall j :: 0 <= j < i ==> r[j] == xs[j]
    ensures forall j :: i <= j < |r| ==> r[j] == xs[j + 1]
  {
    xs[..i] + xs[i + 1..]
  }

  /** Every event the reporter still holds: those being sent, then those waiting. */
  function Outstanding(s: State): seq<Event>
  {
    Flatten(s.inFlight) + s.queue
  }

  function Pow2(n: nat): (p: nat)
    ensures p >= 1
  {
    if n == 0 then 1 else 2 * Pow2(n - 1)
  }

  /** The delay `retryReport(retries)` arms a timer with, or None when it gives up. */
  function RetryDelay(retries: nat): (d: Option<nat>)
    ensures d.Some? <==> retries < MaxRetries
    ensures d.Some? ==> d.value >= BaseDelay
  {
    if retries >= MaxRetries then None else Some(BaseDelay * Pow2(retries))
  }

  lemma BackoffSchedule()
    ensures RetryDelay(0) == Some(1000)
    ensures RetryDelay(1) == Some(2000)
    ensures RetryDelay(2) == Some(4000)
    ensures RetryDelay(3) == None
  {
  }

  /** `reportBatch`: snapshot the queue into a new send and empty it; nothing on an empty queue. */
  function ReportBatch(s: State): State
  {
    if |s.queue| == 0 then s
    else s.(queue := [], inFlight := s.inFlight + [s.queue])
  }

  /** `addToQueue`: append, then flush synchronously once the threshold is reached. */
  function AddToQueue(s: State, e: Event): State
  {
    var pushed := s.(queue := s.queue + [e]);
    if |pushed.queue| >= BatchSize then ReportBatch(pushed) else pushed
  }

  /** `retryReport(retries)`: below the cap, arm one timer; at the cap, only log. */
  function RetryReport(s: State, retries: nat): State
  {
    match RetryDelay(retries)
    case None => s
    case Some(d) => s.(retryTimers := s.retryTimers + [RetryTimer(d, retries + 1)])
  }

  /** The continuation of send i once `fetch` settles: `ok` is false when fetch threw or the
      response status was outside 200-299. A failed batch goes back to the head of the queue
      and `retryReport()` is called with its default argument 0. */
  function CompleteSend(s: State, i: nat, ok: bool): State
    requires i < |s.inFlight|
  {
    var batch := s.inFlight[i];
    var settled := s.(inFlight := RemoveAt(s.inFlight, i));
    if ok then settled
    else RetryReport(settled.(queue := batch + settled.queue), 0)
  }

  /** Retry timer k fires: it is disarmed and `reportBatch` runs (its argument is dropped). */
  function FireRetryTimer(s: State, k: nat): State
    requires k < |s.retryTimers|
  {
    ReportBatch(s.(retryTimers := RemoveAt(s.retryTimers, k)))
  }

  /** The 5-second interval timer fires. */
  function IntervalTick(s: State): State
  {
    ReportBatch(s)
  }

  lemma AddToQueueAppends(s: State, e: Event)
    ensures var t := AddToQueue(s, e);
      && Outstanding(t) == Outstanding(s) + [e]
      && |t.queue| < BatchSize
      && (|s.queue| + 1 >= BatchSize ==> t.queue == [] && t.inFlight == s.inFlight + [s.queue + [e]])
      && (|s.queue| + 1 < BatchSize ==> t.queue == s.queue + [e] && t.inFlight == s.inFlight)
      && t.retryTimers == s.retryTimers
  {
    if |s.queue| + 1 >= BatchSize {
      FlattenAppend(s.inFlight, [s.queue + [e]]);
      assert Flatten([s.queue + [e]]) == s.queue + [e];
    }
  }

  lemma ReportBatchSnapshots(s: State)
    ensures var t := ReportBatch(s);
      && (s.queue == [] ==> t == s)
      && (s.queue != [] ==> t.queue == [] && t.inFlight == s.inFlight + [s.queue])
      && Outstanding(t) == Outstanding(s)
      && t.retryTimers == s.retryTimers
  {
    if s.queue != [] {
      FlattenAppend(s.inFlight, [s.queue]);
      assert Flatten([s.queue]) == s.queue;
    }
  }

  lemma CompleteSuccess(s: State, i: nat)
    requires i < |s.inFlight|
    ensures var t := CompleteSend(s, i, true);
      && t.queue == s.queue
      && t.inFlight == RemoveAt(s.inFlight, i)
      && t.retryTimers == s.retryTimers
      && multiset(Outstanding(t)) + multiset(s.inFlight[i]) == multiset(Outstanding(s))
  {
    RemoveBatch(s.inFlight, i);
  }

  lemma CompleteFailure(s: State, i: nat)
    requires i < |s.inFlight|
    ensures var t := CompleteSend(s, i, false);
      && t.queue == s.inFlight[i] + s.queue
      && t.inFlight == RemoveAt(s.inFlight, i)
      && t.retryTimers == s.retryTimers + [RetryTimer(BaseDelay, 1)]
      && multiset(Outstanding(t)) == multiset(Outstanding(s))
  {
    RemoveBatch(s.inFlight, i);
  }

  lemma RetryReportSchedules(s: State, retries: nat)
    ensures var t := RetryReport(s, retries);
      && t.queue == s.queue && t.inFlight == s.inFlight
      && (retries >= MaxRetries ==> t.retryTimers == s.retryTimers)
      && (retries < MaxRetries ==>
            t.retryTimers == s.retryTimers + [RetryTimer(BaseDelay * Pow2(retries), retries + 1)])
  {
  }

  /** The events the environment can drive the reporter with, after construction. */
  datatype Step =
    | Enqueue(e: Event)
    | TimerTick
    | RetryFired(k: nat)
    | SendSettled(i: nat, ok: bool)

  /** One step; a step naming a timer or a send that does not exist changes nothing. */
  function Next(s: State, step: Step): State
  {
    match step
    case Enqueue(e) => AddToQueue(s, e)
    case TimerTick => IntervalTick(s)
    case RetryFired(k) => if k < |s.retryTimers| then FireRetryTimer(s, k) else s
    case SendSettled(i, ok) => if i < |s.inFlight| then CompleteSend(s, i, ok) else s
  }

  function Run(s: State, steps: seq<Step>): State
    decreases |steps|
  {
    if steps == [] then s else Run(Next(s, steps[0]), steps[1..])
  }

  /** The events a step delivers: the batch of a send that settles with ok. */
  function DeliveredBy(s: State, step: Step): seq<Event>
  {
    match step
    case SendSettled(i, ok) => if ok && i < |s.inFlight| then s.inFlight[i] else []
    case _ => []
  }

  function Delivered(s: State, steps: seq<Step>): seq<Event>
    decreases |steps|
  {
    if steps == [] then [] else DeliveredBy(s, steps[0]) + Delivered(Next(s, steps[0]), steps[1..])
  }

  function EnqueuedBy(steps: seq<Step>): seq<Event>
  {
    if steps == [] then []
    else (if steps[0].Enqueue? then [steps[0].e] else []) + EnqueuedBy(steps[1..])
  }

  lemma StepConserves(s: State, step: Step)
    ensures multiset(Outstanding(Next(s, step))) + multiset(DeliveredBy(s, step))
         == multiset(Outstanding(s)) + multiset(if step.Enqueue? then [step.e] else [])
  {
    match step
    case Enqueue(e) => AddToQueueAppends(s, e);
    case TimerTick => ReportBatchSnapshots(s);
    case RetryFired(k) =>
      if k < |s.retryTimers| {
        ReportBatchSnapshots(s.(retryTimers := RemoveAt(s.retryTimers, k)));
      }
    case SendSettled(i, ok) =>
      if i < |s.inFlight| {
        if ok { CompleteSuccess(s, i); } else { CompleteFailure(s, i); }
      }
  }

  /** No event is lost: whatever was held or enqueued is still held or has been delivered. */
  lemma {:induction false} NoEventLost(s: State, steps: seq<Step>)
    ensures multiset(Outstanding(Run(s, steps))) + multiset(Delivered(s, steps))
         == multiset(Outstanding(s)) + multiset(EnqueuedBy(steps))
    decreases |steps|
  {
    if steps != [] {
      var t := Next(s, steps[0]);
      StepConserves(s, steps[0]);
      NoEventLost(t, steps[1..]);
      var here := DeliveredBy(s, steps[0]);
      var first := if steps[0].Enqueue? then [steps[0].e] else [];
      assert Delivered(s, steps) == here + Delivered(t, steps[1..]);
      assert EnqueuedBy(steps) == first + EnqueuedBy(steps[1..]);
      calc {
        multiset(Outstanding(Run(s, steps))) + multiset(Delivered(s, steps));
        multiset(Outstanding(Run(t, steps[1..]))) + multiset(Delivered(t, steps[1..])) + multiset(here);
        multiset(Outstanding(t)) + multiset(here) + multiset(EnqueuedBy(steps[1..]));
        multiset(Outstanding(s)) + multiset(first) + multiset(EnqueuedBy(steps[1..]));
        multiset(Outstanding(s)) + multiset(EnqueuedBy(steps));
      }
    }
  }

  /** Every armed retry timer is the one a failed send arms: `retryReport()` with 0. */
  ghost predicate OnlyFirstRetries(s: State)
  {
    forall t :: t in s.retryTimers ==> t == RetryTimer(BaseDelay, 1)
  }

  lemma StepKeepsOnlyFirstRetries(s: State, step: Step)
    requires OnlyFirstRetries(s)
    ensures OnlyFirstRetries(Next(s, step))
  {
    match step
    case Enqueue(e) => AddToQueueAppends(s, e);
    case TimerTick =>
    case RetryFired(k) =>
      if k < |s.retryTimers| {
        var r := RemoveAt(s.retryTimers, k);
        assert forall t :: t in r ==> t in s.retryTimers;
      }
    case SendSettled(i, ok) =>
      if i < |s.inFlight| && !ok { CompleteFailure(s, i); }
  }

  /** Because `reportBatch` discards its argument and a failure calls `retryReport()` with no
      argument, every retry waits the base 1000 ms and the retry cap is never reached: a
      batch that keeps failing is retried indefinitely, never dropped. */
  lemma {:induction false} RetriesNeverBackOff(s: State, steps: seq<Step>)
    requires OnlyFirstRetries(s)
    ensures OnlyFirstRetries(Run(s, steps))
    ensures forall t :: t in Run(s, steps).retryTimers ==> RetryDelay(t.argument - 1) == Some(BaseDelay)
    decreases |steps|
  {
    if steps != [] {
      StepKeepsOnlyFirstRetries(s, steps[0]);
      RetriesNeverBackOff(Next(s, steps[0]), steps[1..]);
    }
  }

  /** Enqueue a sequence of events one after another. */
  function EnqueueAll(s: State, es: seq<Event>): State
    decreases |es|
  {
    if es == [] then s else EnqueueAll(AddToQueue(s, es[0]), es[1..])
  }

  /** Below the threshold, events wait in the queue in order and nothing is sent. */
  lemma {:induction false} BelowThresholdWaits(s: State, es: seq<Event>)
    requires |s.queue| + |es| < BatchSize
    ensures EnqueueAll(s, es) == s.(queue := s.queue + es)
    decreases |es|
  {
    if es != [] {
      var t := AddToQueue(s, es[0]);
      assert t == s.(queue := s.queue + [es[0]]);
      BelowThresholdWaits(t, es[1..]);
      assert s.queue + [es[0]] + es[1..] == s.queue + es;
    }
  }

  /** Nine events wait for the timer, which sends them as one batch; a tenth event before
      the tick sends all ten at once and leaves nothing for the next tick. */
  lemma ThresholdScenario(s: State, nine: seq<Event>, tenth: Event)
    requires s.queue == [] && |nine| == BatchSize - 1
    ensures EnqueueAll(s, nine).queue == nine
    ensures IntervalTick(EnqueueAll(s, nine)).inFlight == s.inFlight + [nine]
    ensures IntervalTick(EnqueueAll(s, nine)).queue == []
    ensures AddToQueue(EnqueueAll(s, nine), tenth).inFlight == s.inFlight + [nine + [tenth]]
    ensures IntervalTick(AddToQueue(EnqueueAll(s, nine), tenth)) == AddToQueue(EnqueueAll(s, nine), tenth)
  {
    BelowThresholdWaits(s, nine);
    assert s.queue + nine == nine;
  }
}
