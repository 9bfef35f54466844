/** What every interleaving of the scheduler's segments keeps. */
module SchedulerRuns {
  import opened Common
  import opened Scheduler

  ghost predicate StepAt(c: Config, states: seq<State>, events: seq<Event>, i: nat)
    requires |states| == |events| + 1 && i < |events|
  {
    Enabled(states[i], events[i]) && states[i + 1] == Next(c, states[i], events[i])
  }

  ghost predicate Run(c: Config, states: seq<State>, events: seq<Event>) {
    && |states| == |events| + 1 && states[0] == INITIAL
    && forall i: nat :: i < |events| ==> StepAt(c, states, events, i)
  }

  ghost function CountGenerating(tasks: seq<Worker>): nat {
    if tasks == [] then 0
    else CountGenerating(tasks[..|tasks| - 1]) + (if tasks[|tasks| - 1].phase.Generating? then 1 else 0)
  }

  ghost predicate Held(s: State, item: nat) {
    exists w: nat :: w < |s.tasks| && s.tasks[w].phase == Generating(item)
  }

  /** Items leave the queue in the order they were accepted, and the queue keeps its limit. */
  ghost predicate Fifo(c: Config, s: State) {
    && |s.queue| <= c.limit && |s.calls| == |s.futures| == |s.dequeued| + |s.queue|
    && (forall k :: 0 <= k < |s.dequeued| ==> s.dequeued[k] == k)
    && (forall k :: 0 <= k < |s.queue| ==> s.queue[k] == |s.dequeued| + k)
  }

  /** Workers hold distinct dequeued items whose futures only a deadline may have closed; only stop ends a worker. */
  ghost predicate WorkersSound(s: State)
    requires |s.calls| == |s.futures|
  {
    && (forall w: nat :: w < |s.tasks| && s.tasks[w].phase.Generating? ==>
          var i := s.tasks[w].phase.item;
          i < |s.dequeued| && i < |s.futures| && (s.futures[i].Open? || s.futures[i].Cancelled?) && s.calls[i] == 1
              && i !in s.abandoned)
    && (forall v: nat, w: nat :: v < w < |s.tasks| && s.tasks[v].phase.Generating? ==>
         s.tasks[v].phase != s.tasks[w].phase)
    && (forall w: nat :: w < |s.tasks| && s.tasks[w].phase.Ended? ==> s.tasks[w].cancelling)
    && s.active == CountGenerating(s.tasks)
  }

  ghost predicate ItemSound(s: State, i: nat)
    requires i < |s.futures| == |s.calls|
  {
    if i >= |s.dequeued| then s.calls[i] == 0 && (s.futures[i].Open? || s.futures[i].Cancelled?) && i !in s.abandoned
    else
      && s.calls[i] <= 1
      && (s.calls[i] == 0 ==> s.futures[i].Cancelled? && i !in s.abandoned)
      && (s.futures[i].Open? ==> i in s.abandoned || Held(s, i))
      && (i in s.abandoned ==> s.futures[i].Open? || s.futures[i].Cancelled?)
  }

  ghost predicate ItemsSound(s: State)
    requires |s.calls| == |s.futures|
  {
    forall i: nat :: i < |s.futures| ==> ItemSound(s, i)
  }

  ghost predicate Invariant(c: Config, s: State) {
    && Fifo(c, s) && WorkersSound(s) && ItemsSound(s)
    && (forall k :: 0 <= k < |s.roster| ==> s.roster[k] < |s.tasks|)
    && (forall i :: i in s.abandoned ==> i < |s.futures|)
  }

  lemma {:induction false} CountUpdate(tasks: seq<Worker>, w: nat, t: Worker)
    requires w < |tasks|
    ensures CountGenerating(tasks[w := t]) ==
            CountGenerating(tasks) - (if tasks[w].phase.Generating? then 1 else 0)
                + (if t.phase.Generating? then 1 else 0)
  {
    var n := |tasks| - 1;
    if w == n {
      assert tasks[w := t][..n] == tasks[..n];
    } else {
      CountUpdate(tasks[..n], w, t);
      assert tasks[w := t][..n] == tasks[..n][w := t];
    }
  }

  /** The count depends on the phases alone. */
  lemma {:induction false} CountAgrees(a: seq<Worker>, b: seq<Worker>)
    requires |a| == |b| && forall w :: 0 <= w < |a| ==> a[w].phase == b[w].phase
    ensures CountGenerating(a) == CountGenerating(b)
  {
    if a != [] {
      CountAgrees(a[..|a| - 1], b[..|b| - 1]);
    }
  }

  lemma {:induction false} CountFresh(tasks: seq<Worker>, n: nat)
    ensures CountGenerating(tasks + FreshWorkers(n)) == CountGenerating(tasks)
  {
    if n == 0 {
      assert tasks + FreshWorkers(0) == tasks;
    } else {
      CountFresh(tasks, n - 1);
      var all := tasks + FreshWorkers(n);
      assert all[..|all| - 1] == tasks + FreshWorkers(n - 1);
    }
  }

  lemma SubmitKeeps(c: Config, s: State)
    requires Invariant(c, s)
    ensures Invariant(c, Next(c, s, Submit))
  {
    var s' := Next(c, s, Submit);
    if s' != s {
      forall i: nat | i < |s'.futures|
        ensures ItemSound(s', i)
      {
        if i < |s.futures| {
          assert ItemSound(s, i);
          assert Held(s, i) ==> Held(s', i);
        }
      }
    }
  }

  lemma CancelKeeps(c: Config, s: State, item: nat)
    requires Invariant(c, s) && Enabled(s, Cancel(item))
    ensures Invariant(c, Next(c, s, Cancel(item)))
  {
    var s' := Next(c, s, Cancel(item));
    forall i: nat | i < |s'.futures|
      ensures ItemSound(s', i)
    {
      assert ItemSound(s, i);
      assert Held(s, i) ==> Held(s', i);
    }
  }

  lemma DequeueKeeps(c: Config, s: State, w: nat)
    requires Invariant(c, s) && Enabled(s, Dequeue(w))
    ensures Invariant(c, Next(c, s, Dequeue(w)))
  {
    var s', item := Next(c, s, Dequeue(w)), s.queue[0];
    assert item == |s.dequeued|;
    CountUpdate(s.tasks, w, Worker(Generating(item), false));
    assert ItemSound(s, item);
    forall i: nat | i < |s'.futures|
      ensures ItemSound(s', i)
    {
      assert ItemSound(s, i);
      if i < item && Held(s, i) {
        var v: nat :| v < |s.tasks| && s.tasks[v].phase == Generating(i);
        assert s'.tasks[v].phase == Generating(i);
      }
      if i == item && !s.futures[item].Cancelled? {
        assert s'.tasks[w].phase == Generating(i);
      }
    }
  }

  lemma ReleaseKeepsItems(c: Config, s: State, s': State, w: nat, item: nat)
    requires Invariant(c, s) && w < |s.tasks| && s.tasks[w].phase == Generating(item) && |s'.tasks| == |s.tasks|
    requires forall v :: 0 <= v < |s.tasks| && v != w ==> s'.tasks[v] == s.tasks[v]
    requires |s'.futures| == |s.futures| && s'.calls == s.calls && s'.dequeued == s.dequeued
    requires s'.abandoned == s.abandoned || s'.abandoned == s.abandoned + {item}
    requires forall i :: 0 <= i < |s.futures| && i != item ==> s'.futures[i] == s.futures[i]
    requires item in s'.abandoned ==> s'.futures[item] == s.futures[item]
    requires item !in s'.abandoned ==> !s'.futures[item].Open?
    ensures ItemsSound(s')
  {
    forall i: nat | i < |s'.futures|
      ensures ItemSound(s', i)
    {
      assert ItemSound(s, i);
      if i != item && Held(s, i) {
        var v: nat :| v < |s.tasks| && s.tasks[v].phase == Generating(i);
        assert s'.tasks[v].phase == Generating(i);
      }
    }
  }

  lemma FinishKeeps(c: Config, s: State, w: nat, reply: Reply)
    requires Invariant(c, s) && Enabled(s, Finish(w, reply))
    ensures Invariant(c, Next(c, s, Finish(w, reply)))
    ensures Settle(s.futures[s.tasks[w].phase.item], reply).Some?
  {
    var s', item := Next(c, s, Finish(w, reply)), s.tasks[w].phase.item;
    CountUpdate(s.tasks, w, Worker(Waiting, false));
    ReleaseKeepsItems(c, s, s', w, item);
  }

  lemma InterruptKeeps(c: Config, s: State, w: nat)
    requires Invariant(c, s) && Enabled(s, Interrupt(w))
    ensures Invariant(c, Next(c, s, Interrupt(w)))
  {
    var s' := Next(c, s, Interrupt(w));
    CountUpdate(s.tasks, w, Worker(Ended, true));
    if s.tasks[w].phase.Generating? {
      ReleaseKeepsItems(c, s, s', w, s.tasks[w].phase.item);
    } else {
      SamePhasesKeepItems(s, s', w);
    }
  }

  lemma SamePhasesKeepItems(s: State, s': State, w: nat)
    requires |s.calls| == |s.futures| && ItemsSound(s)
    requires s'.futures == s.futures && s'.calls == s.calls && s'.dequeued == s.dequeued && s'.abandoned == s.abandoned
    requires |s'.tasks| >= |s.tasks|
    requires forall v :: 0 <= v < |s.tasks| && s.tasks[v].phase.Generating? ==> s'.tasks[v].phase == s.tasks[v].phase
    ensures ItemsSound(s')
  {
    forall i: nat | i < |s'.futures|
      ensures ItemSound(s', i)
    {
      assert ItemSound(s, i);
      if Held(s, i) {
        var v: nat :| v < |s.tasks| && s.tasks[v].phase == Generating(i);
        assert s'.tasks[v].phase == Generating(i);
      }
    }
  }

  lemma FreshWorkersAt(tasks: seq<Worker>, n: nat)
    ensures forall w: nat :: w < |tasks| + n ==>
              (tasks + FreshWorkers(n))[w] == if w < |tasks| then tasks[w] else Worker(Waiting, false)
  {
  }

  lemma FreshWorkersSound(s: State, s': State, n: nat)
    requires |s.calls| == |s.futures| && WorkersSound(s)
    requires s' == s.(tasks := s.tasks + FreshWorkers(n), roster := s'.roster)
    ensures WorkersSound(s')
  {
    CountFresh(s.tasks, n);
    FreshWorkersAt(s.tasks, n);
    forall v: nat, w: nat | v < w < |s'.tasks| && s'.tasks[v].phase.Generating?
      ensures s'.tasks[v].phase != s'.tasks[w].phase
    {
      assert v < |s.tasks| && s'.tasks[v] == s.tasks[v];
    }
  }

  lemma StartKeeps(c: Config, s: State)
    requires Invariant(c, s)
    ensures Invariant(c, Next(c, s, Start))
  {
    if s.roster == [] {
      var s' := Next(c, s, Start);
      FreshWorkersSound(s, s', c.slots);
      SamePhasesKeepItems(s, s', 0);
    }
  }

  lemma StopBeginKeeps(c: Config, s: State)
    requires Invariant(c, s) && Enabled(s, StopBegin)
    ensures Invariant(c, Next(c, s, StopBegin))
  {
    CountAgrees(s.tasks, CancelWorkers(s.tasks, s.roster));
    SamePhasesKeepItems(s, Next(c, s, StopBegin), 0);
  }

  lemma StopEndKeeps(c: Config, s: State, k: nat)
    requires Invariant(c, s) && Enabled(s, StopEnd(k))
    ensures Invariant(c, Next(c, s, StopEnd(k)))
  {
    SamePhasesKeepItems(s, Next(c, s, StopEnd(k)), 0);
  }

  lemma InvariantStep(c: Config, s: State, e: Event)
    requires Invariant(c, s) && Enabled(s, e)
    ensures Invariant(c, Next(c, s, e))
  {
    match e
    case Submit => SubmitKeeps(c, s);
    case Cancel(i) => CancelKeeps(c, s, i);
    case Dequeue(w) => DequeueKeeps(c, s, w);
    case Finish(w, reply) => FinishKeeps(c, s, w, reply);
    case Interrupt(w) => InterruptKeeps(c, s, w);
    case Start => StartKeeps(c, s);
    case StopBegin => StopBeginKeeps(c, s);
    case StopEnd(k) => StopEndKeeps(c, s, k);
  }

  lemma InvariantAt(c: Config, states: seq<State>, events: seq<Event>, i: nat)
    requires Run(c, states, events) && i < |events|
    ensures Invariant(c, states[i]) ==> Invariant(c, states[i + 1])
  {
    if Invariant(c, states[i]) {
      assert StepAt(c, states, events, i);
      InvariantStep(c, states[i], events[i]);
    }
  }

  lemma InvariantAlways(c: Config, states: seq<State>, events: seq<Event>, n: nat)
    requires Run(c, states, events) && n < |states|
    ensures Invariant(c, states[n])
  {
    for i := 0 to n
      invariant Invariant(c, states[i])
    {
      InvariantAt(c, states, events, i);
    }
  }

  /** Items are taken in the order they were accepted, and the queue never exceeds its limit. */
  lemma FirstInFirstOut(c: Config, states: seq<State>, events: seq<Event>, n: nat)
    requires Run(c, states, events) && n < |states|
    ensures var s := states[n]; s.dequeued + s.queue == Numbered(0, |s.futures|) && |s.queue| <= c.limit
    ensures states[n].active == CountGenerating(states[n].tasks)
  {
    InvariantAlways(c, states, events, n);
  }

  // ---- Calls and futures ------------------------------------------------------------------------

  /** Step j took item i off the queue while its caller was still waiting. */
  ghost predicate TakenOpen(states: seq<State>, events: seq<Event>, j: nat, i: nat)
    requires |states| == |events| + 1
  {
    && j < |events| && events[j].Dequeue? && states[j].queue != [] && states[j].queue[0] == i
    && i < |states[j].futures| && states[j].futures[i].Open?
  }

  /** The backend runs at most once per item, and only for one that was not cancelled when dequeued. */
  lemma {:induction false} BackendRunsAtMostOnce(c: Config, states: seq<State>, events: seq<Event>, n: nat, i: nat)
    requires Run(c, states, events) && n < |states| && i < |states[n].futures|
    ensures |states[n].calls| == |states[n].futures| && states[n].calls[i] <= 1
    ensures states[n].calls[i] == 1 ==> exists j: nat :: j < n && TakenOpen(states, events, j, i)
  {
    InvariantAlways(c, states, events, n);
    assert ItemSound(states[n], i);
    if n != 0 && states[n].calls[i] == 1 {
      CallStep(c, states, events, n - 1, i);
      if i < |states[n - 1].calls| && states[n - 1].calls[i] == 1 {
        InvariantAlways(c, states, events, n - 1);
        BackendRunsAtMostOnce(c, states, events, n - 1, i);
      }
    }
  }

  lemma CallStep(c: Config, states: seq<State>, events: seq<Event>, j: nat, i: nat)
    requires Run(c, states, events) && j < |events| && i < |states[j + 1].calls| && states[j + 1].calls[i] == 1
    ensures (i < |states[j].calls| && states[j].calls[i] == 1) || TakenOpen(states, events, j, i)
  {
    InvariantAlways(c, states, events, j);
    assert StepAt(c, states, events, j);
    if events[j].Dequeue? {
      assert ItemSound(states[j], states[j].queue[0]);
    }
  }

  lemma SettledStep(c: Config, states: seq<State>, events: seq<Event>, j: nat, i: nat)
    requires Run(c, states, events) && j < |events| && i < |states[j].futures| && !states[j].futures[i].Open?
    ensures i < |states[j + 1].futures| && states[j + 1].futures[i] == states[j].futures[i]
  {
    assert StepAt(c, states, events, j);
  }

  /** A future settles at most once: answered, failed or cancelled, it stays as it is. */
  lemma {:induction false} FuturesSettleOnce(c: Config, states: seq<State>, events: seq<Event>, m: nat, n: nat, i: nat)
    requires Run(c, states, events) && m <= n < |states| && i < |states[m].futures| && !states[m].futures[i].Open?
    ensures i < |states[n].futures| && states[n].futures[i] == states[m].futures[i]
    decreases n - m
  {
    if m < n {
      FuturesSettleOnce(c, states, events, m, n - 1, i);
      SettledStep(c, states, events, n - 1, i);
    }
  }

  /** A backend reply never kills the worker, even when a deadline closed the future mid-generation. */
  lemma RepliesKeepTheWorker(c: Config, states: seq<State>, events: seq<Event>, j: nat)
    requires Run(c, states, events) && j < |events| && events[j].Finish?
    ensures var w := events[j].worker;
            w < |states[j + 1].tasks| && states[j + 1].tasks[w] == Worker(Waiting, false)
  {
    InvariantAlways(c, states, events, j);
    assert StepAt(c, states, events, j);
    FinishKeeps(c, states[j], events[j].worker, events[j].reply);
  }

  lemma CancelledByStop(c: Config, states: seq<State>, events: seq<Event>, j: nat, w: nat)
    requires Run(c, states, events) && j < |events| && w < |states[j + 1].tasks| && states[j + 1].tasks[w].cancelling
    ensures (w < |states[j].tasks| && states[j].tasks[w].cancelling) || (events[j].StopBegin? && w in states[j].roster)
  {
    assert StepAt(c, states, events, j);
  }

  /** Workers end only because a stop listed them. */
  lemma {:induction false} WorkersEndOnlyByStop(c: Config, states: seq<State>, events: seq<Event>, n: nat, w: nat)
    requires Run(c, states, events) && n < |states| && w < |states[n].tasks|
    requires states[n].tasks[w].phase.Ended? || states[n].tasks[w].cancelling
    ensures exists j: nat :: j < n && events[j].StopBegin? && w in states[j].roster
  {
    InvariantAlways(c, states, events, n);
    if n != 0 {
      CancelledByStop(c, states, events, n - 1, w);
      if w < |states[n - 1].tasks| && states[n - 1].tasks[w].cancelling {
        WorkersEndOnlyByStop(c, states, events, n - 1, w);
      }
    }
  }

  // ---- The fate of an accepted item ---------------------------------------------------------------

  datatype Fate = Queued | InProgress | Finished | GivenUp | AbandonedByStop

  ghost predicate HasFate(s: State, i: nat, f: Fate)
    requires i < |s.futures|
  {
    match f
    case Queued => i in s.queue
    case InProgress => Held(s, i)
    case Finished => s.futures[i].Answered? || s.futures[i].Raised?
    case GivenUp => s.futures[i].Cancelled? && i !in s.queue && !Held(s, i)
    case AbandonedByStop => s.futures[i].Open? && i in s.abandoned
  }

  /** In every reachable state every accepted item has exactly one fate. */
  lemma EveryItemHasOneFate(c: Config, states: seq<State>, events: seq<Event>, n: nat, i: nat) returns (f: Fate)
    requires Run(c, states, events) && n < |states| && i < |states[n].futures|
    ensures HasFate(states[n], i, f) && forall g :: HasFate(states[n], i, g) ==> g == f
  {
    var s := states[n];
    InvariantAlways(c, states, events, n);
    assert ItemSound(s, i);
    QueueMembers(c, s, i);
    f := if i in s.queue then Queued else if Held(s, i) then InProgress
         else if s.futures[i].Cancelled? then GivenUp else if s.futures[i].Open? then AbandonedByStop else Finished;
  }

  lemma QueueMembers(c: Config, s: State, i: nat)
    requires Fifo(c, s) && i < |s.futures|
    ensures i in s.queue <==> i >= |s.dequeued|
  {
    if i >= |s.dequeued| {
      assert s.queue[i - |s.dequeued|] == i;
    }
  }

  // ---- Concurrency ------------------------------------------------------------------------------

  ghost predicate Live(s: State, w: nat) {
    w < |s.tasks| && !s.tasks[w].phase.Ended?
  }

  ghost function GeneratingSet(tasks: seq<Worker>): set<nat> {
    set w: nat | w < |tasks| && tasks[w].phase.Generating?
  }

  lemma {:induction false} CountIsCardinality(tasks: seq<Worker>)
    ensures CountGenerating(tasks) == |GeneratingSet(tasks)|
  {
    if tasks != [] {
      var n := |tasks| - 1;
      var init := tasks[..n];
      CountIsCardinality(init);
      assert GeneratingSet(tasks) == GeneratingSet(init) + (if tasks[n].phase.Generating? then {n} else {});
    }
  }

  /** A stop that finishes clears a roster of workers it was not waiting for. */
  ghost predicate Strays(s: State, e: Event) {
    e.StopEnd? && e.stop < |s.stops| && s.roster != [] && s.stops[e.stop] != s.roster
  }

  ghost function CountStrays(states: seq<State>, events: seq<Event>, n: nat): nat
    requires |states| == |events| + 1 && n <= |events|
  {
    if n == 0 then 0 else CountStrays(states, events, n - 1) + (if Strays(states[n - 1], events[n - 1]) then 1 else 0)
  }

  /** Every live worker is on the roster or among the lost. */
  ghost predicate Accounted(c: Config, s: State, lost: set<nat>, strays: nat) {
    && (forall w: nat :: Live(s, w) ==> w in s.roster || w in lost)
    && |s.roster| <= c.slots && |lost| <= c.slots * strays
  }

  lemma AccountedStep(c: Config, s: State, e: Event, lost: set<nat>, strays: nat) returns (lost': set<nat>)
    requires Enabled(s, e)
    ensures Accounted(c, s, lost, strays) ==> Accounted(c, Next(c, s, e), lost',
                                              strays + (if Strays(s, e) then 1 else 0))
  {
    lost' := if Strays(s, e) then lost + Elems(s.roster) else lost;
    if Accounted(c, s, lost, strays) {
      var s' := Next(c, s, e);
      if Strays(s, e) {
        ElemsCardinality(s.roster);
        assert c.slots * (strays + 1) == c.slots * strays + c.slots;
        assert forall w: nat :: Live(s', w) ==> w in Elems(s.roster) || w in lost;
      } else if e.Start? && s.roster == [] {
        forall w: nat | Live(s', w)
          ensures w in s'.roster || w in lost
        {
          if w >= |s.tasks| {
            assert s'.roster[w - |s.tasks|] == w;
          } else {
            assert Live(s, w);
          }
        }
      } else {
        assert forall w: nat :: Live(s', w) ==> Live(s, w);
      }
    }
  }

  lemma {:induction false} ElemsCardinality(s: seq<nat>)
    ensures |Elems(s)| <= |s|
  {
    if s == [] {
      assert Elems(s) == {};
    } else {
      var init := s[..|s| - 1];
      ElemsCardinality(init);
      assert s == init + [s[|s| - 1]];
      ElemsConcat(init, [s[|s| - 1]]);
      assert Elems([s[|s| - 1]]) == {s[|s| - 1]};
    }
  }

  lemma AccountedAlways(c: Config, states: seq<State>, events: seq<Event>, n: nat) returns (lost: set<nat>)
    requires Run(c, states, events) && n < |states|
    ensures Accounted(c, states[n], lost, CountStrays(states, events, n))
  {
    lost := {};
    for i := 0 to n
      invariant Accounted(c, states[i], lost, CountStrays(states, events, i))
    {
      assert StepAt(c, states, events, i);
      lost := AccountedStep(c, states[i], events[i], lost, CountStrays(states, events, i));
    }
  }

  lemma GeneratingWithin(c: Config, s: State, lost: set<nat>, strays: nat)
    ensures Accounted(c, s, lost, strays) ==> CountGenerating(s.tasks) <= c.slots + c.slots * strays
  {
    if Accounted(c, s, lost, strays) {
      CountIsCardinality(s.tasks);
      ElemsCardinality(s.roster);
      forall w | w in GeneratingSet(s.tasks)
        ensures w in Elems(s.roster) + lost
      {
        assert Live(s, w);
      }
      SubsetCardinality(GeneratingSet(s.tasks), Elems(s.roster) + lost);
    }
  }

  /** Each stop that outlives its roster can add at most another `slots` concurrent generations. */
  lemma ActiveBound(c: Config, states: seq<State>, events: seq<Event>, n: nat)
    requires Run(c, states, events) && n < |states|
    ensures states[n].active <= c.slots + c.slots * CountStrays(states, events, n)
  {
    assert states[n].active == CountGenerating(states[n].tasks) by { InvariantAlways(c, states, events, n); }
    var lost := AccountedAlways(c, states, events, n);
    GeneratingWithin(c, states[n], lost, CountStrays(states, events, n));
  }

  /** No stop begins while another is still waiting for its workers. */
  ghost predicate StopsDoNotOverlap(states: seq<State>, events: seq<Event>)
    requires |states| == |events| + 1
  {
    forall i :: 0 <= i < |events| && events[i].StopBegin? ==> states[i].stops == []
  }

  ghost predicate OneStop(s: State) {
    s.stops == [] || (s.stops == [s.roster] && s.roster != [])
  }

  lemma OneStopStep(c: Config, states: seq<State>, events: seq<Event>, i: nat)
    requires Run(c, states, events) && i < |events| && StopsDoNotOverlap(states, events)
    ensures OneStop(states[i]) ==> OneStop(states[i + 1]) && !Strays(states[i], events[i])
  {
    assert StepAt(c, states, events, i);
  }

  // ---- Exactly when the slots are enough --------------------------------------------------------

  /** A worker that holds an item, or can still take one. */
  ghost predicate Able(t: Worker) {
    t.phase.Generating? || t == Worker(Waiting, false)
  }

  ghost function CountIdle(tasks: seq<Worker>): nat {
    if tasks == [] then 0
    else CountIdle(tasks[..|tasks| - 1]) + (if tasks[|tasks| - 1] == Worker(Waiting, false) then 1 else 0)
  }

  ghost function CountAble(tasks: seq<Worker>): nat {
    CountGenerating(tasks) + CountIdle(tasks)
  }

  ghost predicate NoneAble(tasks: seq<Worker>) {
    forall w: nat :: w < |tasks| ==> !Able(tasks[w])
  }

  lemma {:induction false} IdleUpdate(tasks: seq<Worker>, w: nat, t: Worker)
    requires w < |tasks|
    ensures CountIdle(tasks[w := t]) ==
            CountIdle(tasks) - (if tasks[w] == Worker(Waiting, false) then 1 else 0)
                + (if t == Worker(Waiting, false) then 1 else 0)
  {
    var n := |tasks| - 1;
    if w == n {
      assert tasks[w := t][..n] == tasks[..n];
    } else {
      IdleUpdate(tasks[..n], w, t);
      assert tasks[w := t][..n] == tasks[..n][w := t];
    }
  }

  lemma AbleUpdate(tasks: seq<Worker>, w: nat, t: Worker)
    requires w < |tasks|
    ensures CountAble(tasks[w := t]) == CountAble(tasks) - (if Able(tasks[w]) then 1 else 0)
            + (if Able(t) then 1 else 0)
  {
    CountUpdate(tasks, w, t);
    IdleUpdate(tasks, w, t);
  }

  lemma {:induction false} IdleFresh(tasks: seq<Worker>, n: nat)
    ensures CountIdle(tasks + FreshWorkers(n)) == CountIdle(tasks) + n
  {
    if n == 0 {
      assert tasks + FreshWorkers(0) == tasks;
    } else {
      IdleFresh(tasks, n - 1);
      var all := tasks + FreshWorkers(n);
      assert all[..|all| - 1] == tasks + FreshWorkers(n - 1);
    }
  }

  lemma {:induction false} NoneAbleCounts(tasks: seq<Worker>)
    ensures NoneAble(tasks) <==> CountAble(tasks) == 0
  {
    if tasks != [] {
      var n := |tasks| - 1;
      NoneAbleCounts(tasks[..n]);
      assert NoneAble(tasks) <==> NoneAble(tasks[..n]) && !Able(tasks[n]) by {
        assert forall w: nat :: w < n ==> tasks[..n][w] == tasks[w];
      }
    }
  }

  lemma {:induction false} CancellingFewer(a: seq<Worker>, b: seq<Worker>)
    requires |a| == |b| && forall w :: 0 <= w < |a| ==>
               b[w].phase == a[w].phase && (a[w].cancelling ==> b[w].cancelling)
    ensures CountAble(b) <= CountAble(a)
  {
    if a != [] {
      CancellingFewer(a[..|a| - 1], b[..|b| - 1]);
    }
  }

  lemma {:induction false} FindIdle(tasks: seq<Worker>) returns (w: nat)
    requires CountIdle(tasks) > 0
    ensures w < |tasks| && tasks[w] == Worker(Waiting, false)
  {
    var n := |tasks| - 1;
    if tasks[n] == Worker(Waiting, false) {
      w := n;
    } else {
      w := FindIdle(tasks[..n]);
    }
  }

  /** A stretch of a run in which callers only submit and workers only take items. */
  ghost predicate Filling(c: Config, states: seq<State>, events: seq<Event>) {
    && |states| == |events| + 1
    && forall i: nat :: i < |events| ==> (events[i].Submit? || events[i].Dequeue?) && StepAt(c, states, events, i)
  }

  /** Whatever is submitted and taken from s on, `active` stays within the bound. */
  ghost predicate BoundedFrom(c: Config, s: State, bound: nat) {
    forall states: seq<State>, events: seq<Event> :: Filling(c, states, events) && states[0] == s ==>
          states[|events|].active <= bound
  }

  lemma FillStep(c: Config, s: State, e: Event)
    requires Invariant(c, s) && Enabled(s, e) && (e.Submit? || e.Dequeue?)
    ensures Invariant(c, Next(c, s, e)) && CountAble(Next(c, s, e).tasks) == CountAble(s.tasks)
  {
    InvariantStep(c, s, e);
    if e.Dequeue? {
      AbleUpdate(s.tasks, e.worker, Worker(Generating(s.queue[0]), false));
    }
  }

  lemma FillingKeepsAble(c: Config, states: seq<State>, events: seq<Event>)
    requires Filling(c, states, events) && Invariant(c, states[0])
    ensures states[|events|].active <= CountAble(states[0].tasks)
  {
    for n := 0 to |events|
      invariant Invariant(c, states[n]) && CountAble(states[n].tasks) == CountAble(states[0].tasks)
    {
      assert StepAt(c, states, events, n);
      FillStep(c, states[n], events[n]);
    }
  }

  lemma FillOn(c: Config, states: seq<State>, events: seq<Event>, e: Event)
      returns (states': seq<State>, events': seq<Event>)
    requires Filling(c, states, events) && Invariant(c, states[|events|])
    requires Enabled(states[|events|], e) && (e.Submit? || e.Dequeue?)
    ensures Filling(c, states', events') && states'[0] == states[0]
            && states'[|events'|] == Next(c, states[|events|], e)
    ensures Invariant(c, states'[|events'|]) && CountAble(states'[|events'|].tasks) == CountAble(states[|events|].tasks)
  {
    states', events' := states + [Next(c, states[|events|], e)], events + [e];
    FillStep(c, states[|events|], e);
    forall i: nat | i < |events'|
      ensures (events'[i].Submit? || events'[i].Dequeue?) && StepAt(c, states', events', i)
    {
      assert i < |events| ==> StepAt(c, states, events, i);
    }
  }

  /** One idle worker, offered an item, takes it, or the queue loses an item that was given up. */
  lemma OfferItem(c: Config, states: seq<State>, events: seq<Event>) returns (states': seq<State>, events': seq<Event>)
    requires c.limit >= 1 && Filling(c, states, events) && Invariant(c, states[|events|])
             && CountIdle(states[|events|].tasks) > 0
    ensures Filling(c, states', events') && states'[0] == states[0] && Invariant(c, states'[|events'|])
    ensures var s, s' := states[|events|], states'[|events'|];
            && CountAble(s'.tasks) == CountAble(s.tasks) && CountIdle(s'.tasks) <= CountIdle(s.tasks)
            && (CountIdle(s'.tasks) == CountIdle(s.tasks) ==> |s'.queue| < |s.queue|)
  {
    states', events' := states, events;
    if states[|events|].queue == [] {
      states', events' := FillOn(c, states, events, Submit);
    }
    var s := states'[|events'|];
    var w := FindIdle(s.tasks);
    IdleUpdate(s.tasks, w, Worker(Generating(s.queue[0]), false));
    states', events' := FillOn(c, states', events', Dequeue(w));
  }

  /** Callers can always fill every worker that is able to hold an item. */
  lemma FillWorkers(c: Config, s: State) returns (states: seq<State>, events: seq<Event>)
    requires c.limit >= 1 && Invariant(c, s)
    ensures Filling(c, states, events) && states[0] == s && states[|events|].active == CountAble(s.tasks)
  {
    states, events := [s], [];
    while CountIdle(states[|events|].tasks) > 0
      invariant Filling(c, states, events) && states[0] == s && Invariant(c, states[|events|])
      invariant CountAble(states[|events|].tasks) == CountAble(s.tasks)
      decreases CountIdle(states[|events|].tasks), |states[|events|].queue|
    {
      states, events := OfferItem(c, states, events);
    }
  }

  lemma BoundedByAble(c: Config, s: State, bound: nat)
    requires c.limit >= 1 && Invariant(c, s)
    ensures BoundedFrom(c, s, bound) <==> CountAble(s.tasks) <= bound
  {
    if CountAble(s.tasks) <= bound {
      forall states: seq<State>, events: seq<Event> | Filling(c, states, events) && states[0] == s
        ensures states[|events|].active <= bound
      {
        FillingKeepsAble(c, states, events);
      }
    } else {
      var states, events := FillWorkers(c, s);
      assert Filling(c, states, events) && states[0] == s;
    }
  }

  /** From any reachable state, `active` stays bounded exactly when the workers able to hold an item do. */
  lemma BoundedIffAble(c: Config, states: seq<State>, events: seq<Event>, n: nat, bound: nat)
    requires c.limit >= 1 && Run(c, states, events) && n < |states|
    ensures BoundedFrom(c, states[n], bound) <==> CountAble(states[n].tasks) <= bound
  {
    InvariantAlways(c, states, events, n);
    BoundedByAble(c, states[n], bound);
  }

  /** A start is safe exactly when no earlier worker is generating or could still take an item. */
  lemma StartKeepsTheBoundIff(c: Config, states: seq<State>, events: seq<Event>, n: nat)
    requires c.slots >= 1 && c.limit >= 1 && Run(c, states, events) && n < |states| && states[n].roster == []
    ensures BoundedFrom(c, Next(c, states[n], Start), c.slots) <==> NoneAble(states[n].tasks)
  {
    InvariantAlways(c, states, events, n);
    InvariantStep(c, states[n], Start);
    BoundedByAble(c, Next(c, states[n], Start), c.slots);
    CountFresh(states[n].tasks, c.slots);
    IdleFresh(states[n].tasks, c.slots);
    NoneAbleCounts(states[n].tasks);
  }

  /** Every start that starts workers finds none that could hold an item beside them. */
  ghost predicate StartsAreSafe(states: seq<State>, events: seq<Event>)
    requires |states| == |events| + 1
  {
    forall i :: 0 <= i < |events| && events[i].Start? && states[i].roster == [] ==> NoneAble(states[i].tasks)
  }

  /** Only a start makes more workers able. */
  lemma AbleStep(c: Config, s: State, e: Event)
    requires Invariant(c, s) && Enabled(s, e)
    ensures (e.Start? && s.roster == []) || CountAble(Next(c, s, e).tasks) <= CountAble(s.tasks)
  {
    match e
    case Dequeue(_) => FillStep(c, s, e);
    case Finish(w, reply) =>
      FinishKeeps(c, s, w, reply);
      AbleUpdate(s.tasks, w, Worker(Waiting, false));
    case Interrupt(w) => AbleUpdate(s.tasks, w, Worker(Ended, true));
    case StopBegin => CancellingFewer(s.tasks, CancelWorkers(s.tasks, s.roster));
    case _ =>
  }

  lemma AbleWithinSlots(c: Config, states: seq<State>, events: seq<Event>, i: nat)
    requires Run(c, states, events) && i < |events| && StartsAreSafe(states, events)
    ensures CountAble(states[i].tasks) <= c.slots ==> CountAble(states[i + 1].tasks) <= c.slots
  {
    InvariantAlways(c, states, events, i);
    assert StepAt(c, states, events, i);
    if events[i].Start? && states[i].roster == [] {
      NoneAbleCounts(states[i].tasks);
      CountFresh(states[i].tasks, c.slots);
      IdleFresh(states[i].tasks, c.slots);
    } else {
      AbleStep(c, states[i], events[i]);
    }
  }

  /** While every start is safe, at most `slots` generations run at once, across any number of restarts. */
  lemma ActiveWithinSlots(c: Config, states: seq<State>, events: seq<Event>, n: nat)
    requires Run(c, states, events) && n < |states| && StartsAreSafe(states, events)
    ensures states[n].active <= c.slots
  {
    for i := 0 to n
      invariant CountAble(states[i].tasks) <= c.slots
    {
      AbleWithinSlots(c, states, events, i);
    }
    InvariantAlways(c, states, events, n);
  }

  /** With one stop at a time every start is safe. */
  lemma SeparateStopsStartSafely(c: Config, states: seq<State>, events: seq<Event>)
    requires Run(c, states, events) && StopsDoNotOverlap(states, events)
    ensures StartsAreSafe(states, events)
  {
    for i := 0 to |events|
      invariant OneStop(states[i]) && CountStrays(states, events, i) == 0
      invariant forall j :: 0 <= j < i && events[j].Start? && states[j].roster == [] ==> NoneAble(states[j].tasks)
    {
      OneStopStep(c, states, events, i);
      var lost := AccountedAlways(c, states, events, i);
      NobodyLost(c, states[i], lost);
    }
  }

  lemma NobodyLost(c: Config, s: State, lost: set<nat>)
    requires Accounted(c, s, lost, 0)
    ensures s.roster == [] ==> NoneAble(s.tasks)
  {
    assert lost == {};
    assert s.roster == [] ==> forall w: nat :: w < |s.tasks| && Able(s.tasks[w]) ==> !Live(s, w);
  }

  lemma Extend(c: Config, states: seq<State>, events: seq<Event>, e: Event)
      returns (states': seq<State>, events': seq<Event>)
    requires Run(c, states, events) && Enabled(states[|events|], e)
    ensures Run(c, states', events') && events' == events + [e] && states' == states + [Next(c, states[|events|], e)]
  {
    states', events' := states + [Next(c, states[|events|], e)], events + [e];
    forall i: nat | i < |events'|
      ensures StepAt(c, states', events', i)
    {
      assert i < |events| ==> StepAt(c, states, events, i);
    }
  }

  lemma OverlapStops(c: Config) returns (states: seq<State>, events: seq<Event>)
    requires c == Config(1, 2)
    ensures Run(c, states, events)
    ensures states[|events|] == INITIAL.(tasks := [Worker(Waiting, true)], roster := [0], stops := [[0], [0]])
  {
    states, events := Extend(c, [INITIAL], [], Start);
    assert states[1] == INITIAL.(tasks := [Worker(Waiting, false)], roster := [0]);
    states, events := Extend(c, states, events, StopBegin);
    assert states[2].tasks == [Worker(Waiting, true)];
    states, events := Extend(c, states, events, StopBegin);
    assert states[3].tasks == [Worker(Waiting, true)];
  }

  /**
   Without that discipline the bound fails: two overlapping stops around a restart leave a worker
   running that no roster lists, and a one-slot scheduler generates twice at once.
   */
  lemma OverlappingStopsBreakTheBound() returns (c: Config, states: seq<State>, events: seq<Event>)
    ensures c.slots == 1 && Run(c, states, events) && states[|events|].active == 2
  {
    c := Config(1, 2);
    states, events := OverlapStops(c);
    states, events := RestartBetweenStops(c, states, events);
    states, events := SecondStopEnds(c, states, events);
    states, events := TwoGenerations(c, states, events);
  }

  lemma RestartBetweenStops(c: Config, states: seq<State>, events: seq<Event>)
      returns (states': seq<State>, events': seq<Event>)
    requires c == Config(1, 2) && Run(c, states, events)
    requires states[|events|] == INITIAL.(tasks := [Worker(Waiting, true)], roster := [0], stops := [[0], [0]])
    ensures Run(c, states', events')
    ensures states'[|events'|] == INITIAL.(tasks := [Worker(Ended, true), Worker(Waiting, false)], roster := [1],
            stops := [[0]])
  {
    states', events' := Extend(c, states, events, Interrupt(0));
    states', events' := Extend(c, states', events', StopEnd(0));
    assert states'[|events'|].stops == [[0]];
    states', events' := Extend(c, states', events', Start);
  }

  lemma SecondStopEnds(c: Config, states: seq<State>, events: seq<Event>)
      returns (states': seq<State>, events': seq<Event>)
    requires c == Config(1, 2) && Run(c, states, events)
    requires states[|events|] == INITIAL.(tasks := [Worker(Ended, true), Worker(Waiting, false)], roster := [1],
             stops := [[0]])
    ensures Run(c, states', events')
    ensures states'[|events'|] == INITIAL.(tasks := [Worker(Ended, true), Worker(Waiting, false),
            Worker(Waiting, false)], roster := [2])
  {
    states', events' := Extend(c, states, events, StopEnd(0));
    assert states'[|events'|] == INITIAL.(tasks := [Worker(Ended, true), Worker(Waiting, false)]);
    states', events' := Extend(c, states', events', Start);
    assert FreshWorkers(1) == [Worker(Waiting, false)] && Numbered(2, 1) == [2];
  }

  lemma TwoGenerations(c: Config, states: seq<State>, events: seq<Event>)
      returns (states': seq<State>, events': seq<Event>)
    requires c == Config(1, 2) && Run(c, states, events)
    requires states[|events|] == INITIAL.(tasks := [Worker(Ended, true), Worker(Waiting, false),
             Worker(Waiting, false)], roster := [2])
    ensures Run(c, states', events') && states'[|events'|].active == 2
  {
    states', events' := Extend(c, states, events, Submit);
    states', events' := Extend(c, states', events', Submit);
    states', events' := Extend(c, states', events', Dequeue(1));
    states', events' := Extend(c, states', events', Dequeue(2));
  }
}
