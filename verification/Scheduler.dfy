/**
 The bounded scheduler as an interleaving of the segments between awaits: submissions, worker
 segments, future cancellations (deadlines and departed callers), start and stop. Work items and
 worker tasks are numbered in order of creation.
 */
module Scheduler {
  import opened Common

  datatype Config = Config(slots: nat, limit: nat)

  datatype Reply = Generated(text: string) | BackendError(error: string)

  datatype Future = Open | Cancelled | Answered(text: string) | Raised(error: string)

  datatype Phase = Waiting | Generating(item: nat) | Ended

  datatype Worker = Worker(phase: Phase, cancelling: bool)

  /**
   `dequeued`, `calls` and `abandoned` are history: what left the queue, backend calls per item,
   items dropped by stop.
   */
  datatype State = State(queue: seq<nat>, futures: seq<Future>, tasks: seq<Worker>, roster: seq<nat>,
      stops: seq<seq<nat>>, active: int, dequeued: seq<nat>, calls: seq<nat>, abandoned: set<nat>)

  datatype Event =
    | Submit
    | Cancel(item: nat)
    | Dequeue(worker: nat)
    | Finish(worker: nat, reply: Reply)
    | Start
    | StopBegin
    | Interrupt(worker: nat)
    | StopEnd(stop: nat)

  const INITIAL := State([], [], [], [], [], 0, [], [], {})

  /** `set_result` and `set_exception` raise on a future that is already done. */
  function SetResult(f: Future, text: string): Option<Future> {
    if f.Open? then Some(Answered(text)) else None
  }

  function SetException(f: Future, error: string): Option<Future> {
    if f.Open? then Some(Raised(error)) else None
  }

  /** The except clause: None when it raises again and takes the worker down. */
  function OnException(f: Future, error: string): Option<Future> {
    if f.Cancelled? then Some(f) else SetException(f, error)
  }

  /** What the worker's try and except leave in the future, or None when the worker dies of it. */
  function Settle(f: Future, reply: Reply): Option<Future> {
    match reply
    case BackendError(error) => OnException(f, error)
    case Generated(text) =>
      var done := SetResult(f, text);
      if done.Some? then done else OnException(f, "invalid state")
  }

  ghost predicate Enabled(s: State, e: Event) {
    match e
    case Submit => true
    case Cancel(i) => i < |s.futures| && s.futures[i].Open?
    case Dequeue(w) => w < |s.tasks| && s.tasks[w] == Worker(Waiting, false) && s.queue != []
                       && s.queue[0] < |s.futures| && s.queue[0] < |s.calls|
    case Finish(w, _) => w < |s.tasks| && s.tasks[w].phase.Generating? && !s.tasks[w].cancelling
        && s.tasks[w].phase.item < |s.futures|
    case Start => true
    case StopBegin => forall k :: 0 <= k < |s.roster| ==> s.roster[k] < |s.tasks|
    case Interrupt(w) => w < |s.tasks| && s.tasks[w].cancelling && !s.tasks[w].phase.Ended?
    case StopEnd(k) => k < |s.stops| && forall j :: 0 <= j < |s.stops[k]| ==>
          s.stops[k][j] < |s.tasks| && s.tasks[s.stops[k][j]].phase.Ended?
  }

  function FreshWorkers(n: nat): seq<Worker> {
    seq(n, _ => Worker(Waiting, false))
  }

  function Numbered(from: nat, n: nat): seq<nat> {
    seq(n, k requires 0 <= k < n => from + k)
  }

  /** `worker.cancel()` for each listed worker: nothing happens to one that has already ended. */
  function CancelWorkers(tasks: seq<Worker>, roster: seq<nat>): seq<Worker> {
    seq(|tasks|, t requires 0 <= t < |tasks| =>
      if t in roster && !tasks[t].phase.Ended? then tasks[t].(cancelling := true) else tasks[t])
  }

  ghost function Next(c: Config, s: State, e: Event): State
    requires Enabled(s, e)
  {
    match e
    case Submit =>
      if |s.queue| >= c.limit then s
      else s.(queue := s.queue + [|s.futures|], futures := s.futures + [Open], calls := s.calls + [0])
    case Cancel(i) => s.(futures := s.futures[i := Cancelled])
    case Dequeue(w) =>
      var i := s.queue[0];
      var taken := s.(queue := s.queue[1..], dequeued := s.dequeued + [i]);
      if s.futures[i].Cancelled? then taken
      else taken.(active := s.active + 1, calls := s.calls[i := s.calls[i] + 1],
           tasks := s.tasks[w := Worker(Generating(i), false)])
    case Finish(w, reply) =>
      var i := s.tasks[w].phase.item;
      var settled := Settle(s.futures[i], reply);
      s.(active := s.active - 1,
         futures := if settled.Some? then s.futures[i := settled.value] else s.futures,
         tasks := s.tasks[w := Worker(if settled.Some? then Waiting else Ended, false)])
    case Start =>
      if s.roster != [] then s
      else s.(roster := Numbered(|s.tasks|, c.slots), tasks := s.tasks + FreshWorkers(c.slots))
    case StopBegin =>
      if s.roster == [] then s
      else s.(tasks := CancelWorkers(s.tasks, s.roster), stops := s.stops + [s.roster])
    case Interrupt(w) =>
      var p := s.tasks[w].phase;
      var ended := s.(tasks := s.tasks[w := Worker(Ended, true)]);
      if p.Generating? then ended.(active := s.active - 1, abandoned := s.abandoned + {p.item}) else ended
    case StopEnd(k) => s.(roster := [], stops := s.stops[..k] + s.stops[k + 1..])
  }

  /** The scheduler object with the event loop's tasks and futures; one method per segment between awaits. */
  class BoundedScheduler {
    const slots: nat
    const limit: nat
    var queue: seq<nat>
    var active: int
    var roster: seq<nat>           // `_workers`
    var futures: seq<Future>
    var tasks: seq<Worker>
    var stops: seq<seq<nat>>       // stop calls waiting in gather, with the workers each waits for
    ghost var dequeued: seq<nat>
    ghost var calls: seq<nat>
    ghost var abandoned: set<nat>

    ghost function Abs(): State
      reads this
    {
      State(queue, futures, tasks, roster, stops, active, dequeued, calls, abandoned)
    }

    ghost function Configuration(): Config {
      Config(slots, limit)
    }

    constructor (slots: nat, limit: nat)
      requires slots >= 1 && limit >= 1
      ensures Abs() == INITIAL && this.slots == slots && this.limit == limit
    {
      this.slots, this.limit := slots, limit;
      queue, active, roster, futures, tasks, stops := [], 0, [], [], [], [];
      dequeued, calls, abandoned := [], [], {};
    }

    /** The constructor's range check. */
    static method Create(slots: int, limit: int) returns (r: Result<BoundedScheduler, string>)
      ensures r.Success? <==> slots >= 1 && limit >= 1
      ensures r.Success? ==> r.value.Abs() == INITIAL && r.value.Configuration() == Config(slots, limit)
    {
      if slots < 1 || limit < 1 {
        return Failure("slots and queue_limit must be positive");
      }
      var scheduler := new BoundedScheduler(slots, limit);
      return Success(scheduler);
    }

    /** `submit` up to its wait: the put cannot block, since nothing runs between the test and it. */
    method SubmitItem() returns (item: Option<nat>)
      modifies this
      ensures Abs() == Next(Configuration(), old(Abs()), Submit)
      ensures item == if |old(queue)| >= limit then None else Some(|old(futures)|)
    {
      if |queue| >= limit {
        return None;
      }
      item := Some(|futures|);
      queue, futures, calls := queue + [|futures|], futures + [Open], calls + [0];
    }

    /** `wait_for` giving up: the deadline passed or the caller went away. */
    method CancelItem(item: nat)
      requires Enabled(Abs(), Cancel(item))
      modifies this
      ensures Abs() == Next(Configuration(), old(Abs()), Cancel(item))
    {
      futures := futures[item := Cancelled];
    }

    /** From a successful `get` to the next await: `generate`, or `get` again for a cancelled item. */
    method WorkerDequeue(w: nat)
      requires Enabled(Abs(), Dequeue(w))
      modifies this
      ensures Abs() == Next(Configuration(), old(Abs()), Dequeue(w))
    {
      var item := queue[0];
      queue, dequeued := queue[1..], dequeued + [item];
      active := active + 1;
      if futures[item].Cancelled? {
        active := active - 1;
        return;
      }
      tasks := tasks[w := Worker(Generating(item), false)];
      calls := calls[item := calls[item] + 1];
    }

    /** From the backend's reply to the next `get`. */
    method WorkerFinish(w: nat, reply: Reply)
      requires Enabled(Abs(), Finish(w, reply))
      modifies this
      ensures Abs() == Next(Configuration(), old(Abs()), Finish(w, reply))
    {
      var item := tasks[w].phase.item;
      var settled := if reply.Generated? then SetResult(futures[item], reply.text) else None;
      if settled.None? {
        settled := OnException(futures[item], if reply.Generated? then "invalid state" else reply.error);
      }
      if settled.Some? {
        futures := futures[item := settled.value];
      }
      active := active - 1;
      tasks := tasks[w := Worker(if settled.Some? then Waiting else Ended, false)];
    }

    /** CancelledError at a worker's await: past `except Exception`, through `finally`. */
    method WorkerInterrupted(w: nat)
      requires Enabled(Abs(), Interrupt(w))
      modifies this
      ensures Abs() == Next(Configuration(), old(Abs()), Interrupt(w))
    {
      if tasks[w].phase.Generating? {
        abandoned := abandoned + {tasks[w].phase.item};
        active := active - 1;
      }
      tasks := tasks[w := Worker(Ended, true)];
    }

    method StartWorkers()
      modifies this
      ensures Abs() == Next(Configuration(), old(Abs()), Start)
    {
      if roster == [] {
        roster := Numbered(|tasks|, slots);
        tasks := tasks + FreshWorkers(slots);
      }
    }

    /** `stop` up to its gather. */
    method BeginStop()
      requires Enabled(Abs(), StopBegin)
      modifies this
      ensures Abs() == Next(Configuration(), old(Abs()), StopBegin)
    {
      var before := tasks;
      for k := 0 to |roster|
        invariant roster == old(roster) && queue == old(queue) && futures == old(futures) && stops == old(stops)
                  && active == old(active)
        invariant tasks == CancelWorkers(before, roster[..k])
        invariant dequeued == old(dequeued) && calls == old(calls) && abandoned == old(abandoned)
      {
        var t := roster[k];
        if !tasks[t].phase.Ended? {
          tasks := tasks[t := tasks[t].(cancelling := true)];
        }
        assert roster[..k + 1] == roster[..k] + [t];
      }
      assert roster[..|roster|] == roster;
      if roster != [] {
        stops := stops + [roster];
      } else {
        assert tasks == before;
      }
    }

    /** `stop` after its gather. */
    method EndStop(k: nat)
      requires Enabled(Abs(), StopEnd(k))
      modifies this
      ensures Abs() == Next(Configuration(), old(Abs()), StopEnd(k))
    {
      roster := [];
      stops := stops[..k] + stops[k + 1..];
    }
  }
}
