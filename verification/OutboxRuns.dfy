/**
 Whole runs of one dispatcher over the outbox, with messages enqueued at any point between its
 steps: how often a handler is called, that the outbox drains, and that no due message starves.
 */
module OutboxRuns {
  import opened Common
  import opened Outbox
  import opened Dispatcher

  /** `calls` and `escapes` count, per message, handler calls and those that ended in an escaping exception. */
  datatype State = State(table: Table, inflight: seq<Message>, now: int, calls: seq<nat>, escapes: seq<nat>)

  datatype Event =
    | Enqueue(destination: string, key: string, payload: string, at: int)
    | Fetch(limit: nat, batch: seq<nat>, at: int)
    | Handle(reply: Reply, at: int)

  ghost predicate Enabled(s: State, e: Event) {
    && e.at > s.now
    && match e
       case Enqueue(_, _, _, _) => true
       case Fetch(limit, batch, at) => s.inflight == [] && IsBatch(s.table, at, limit, batch)
       case Handle(_, _) => s.inflight != [] && s.inflight[0].id < |s.calls| && s.inflight[0].id < |s.escapes|
  }

  ghost function Next(registered: set<string>, s: State, e: Event): State
    requires Enabled(s, e)
  {
    match e
    case Enqueue(destination, key, payload, at) =>
      var table := WithEnqueued(s.table, destination, key, payload, at);
      if |table| == |s.table| then s.(table := table, now := at)
      else s.(table := table, now := at, calls := s.calls + [0], escapes := s.escapes + [0])
    case Fetch(limit, batch, at) => s.(inflight := Read(s.table, batch), now := at)
    case Handle(reply, at) =>
      var m := s.inflight[0];
      var escaped := Escapes(registered, m, reply);
      State(Handled(s.table, registered, m, reply, at), if escaped then [] else s.inflight[1..], at,
            if m.row.destination in registered then s.calls[m.id := s.calls[m.id] + 1] else s.calls,
            if escaped then s.escapes[m.id := s.escapes[m.id] + 1] else s.escapes)
  }

  ghost predicate StepAt(registered: set<string>, states: seq<State>, events: seq<Event>, i: nat)
    requires |states| == |events| + 1 && i < |events|
  {
    Enabled(states[i], events[i]) && states[i + 1] == Next(registered, states[i], events[i])
  }

  ghost predicate Run(registered: set<string>, states: seq<State>, events: seq<Event>) {
    |states| == |events| + 1 && forall i: nat :: i < |events| ==> StepAt(registered, states, events, i)
  }

  ghost predicate Initial(s: State) {
    s.table == [] && s.inflight == [] && s.calls == [] && s.escapes == []
  }

  /** The calls a row accounts for: its attempts, and the call that delivered it. */
  ghost function Charged(registered: set<string>, r: Row): nat {
    if r.destination !in registered then 0 else r.attempts + (if r.status == Delivered then 1 else 0)
  }

  ghost predicate RowInvariant(registered: set<string>, r: Row, calls: nat, escapes: nat) {
    && calls == Charged(registered, r) + escapes
    && (if r.status == DeadLetter then r.attempts == MAXIMUM_ATTEMPTS else r.attempts < MAXIMUM_ATTEMPTS)
    && (r.destination !in registered ==> escapes == 0 && r.status != Delivered)
  }

  ghost predicate InflightInvariant(t: Table, inflight: seq<Message>) {
    && (forall k :: 0 <= k < |inflight| ==> inflight[k].id < |t| && t[inflight[k].id] == inflight[k].row
                                            && inflight[k].row.status == Pending)
    && (forall j, k :: 0 <= j < k < |inflight| ==> inflight[j].id != inflight[k].id)
  }

  ghost predicate Invariant(registered: set<string>, s: State) {
    && |s.calls| == |s.escapes| == |s.table|
    && (forall i :: 0 <= i < |s.table| ==> RowInvariant(registered, s.table[i], s.calls[i], s.escapes[i]))
    && InflightInvariant(s.table, s.inflight)
    && (forall i, j :: 0 <= i < j < |s.table| ==> s.table[i].idempotencyKey != s.table[j].idempotencyKey)
  }

  lemma EnqueueKeepsInvariant(registered: set<string>, s: State, e: Event)
    requires Invariant(registered, s) && Enabled(s, e) && e.Enqueue?
    ensures Invariant(registered, Next(registered, s, e))
  {
    var s' := Next(registered, s, e);
    assert forall i :: 0 <= i < |s.table| ==> s'.table[i] == s.table[i] && s'.calls[i] == s.calls[i]
                                              && s'.escapes[i] == s.escapes[i];
    assert InflightInvariant(s'.table, s'.inflight);
  }

  lemma FetchKeepsInvariant(registered: set<string>, s: State, e: Event)
    requires Invariant(registered, s) && Enabled(s, e) && e.Fetch?
    ensures Invariant(registered, Next(registered, s, e))
  {
    var s' := Next(registered, s, e);
    assert forall k :: 0 <= k < |e.batch| ==> s'.inflight[k].id == e.batch[k] && Due(s.table, e.batch[k], e.at);
    assert InflightInvariant(s'.table, s'.inflight);
  }

  lemma HandleKeepsInvariant(registered: set<string>, s: State, e: Event)
    requires Invariant(registered, s) && Enabled(s, e) && e.Handle?
    ensures Invariant(registered, Next(registered, s, e))
  {
    var s', m := Next(registered, s, e), s.inflight[0];
    assert RowInvariant(registered, s.table[m.id], s.calls[m.id], s.escapes[m.id]);
    assert RowInvariant(registered, s'.table[m.id], s'.calls[m.id], s'.escapes[m.id]);
    assert forall i :: 0 <= i < |s.table| && i != m.id ==>
             s'.table[i] == s.table[i] && s'.calls[i] == s.calls[i] && s'.escapes[i] == s.escapes[i];
    assert forall i :: 0 <= i < |s.table| ==> s'.table[i].idempotencyKey == s.table[i].idempotencyKey;
    assert InflightInvariant(s'.table, s'.inflight) by {
      assert forall k :: 0 <= k < |s'.inflight| ==> s'.inflight[k] == s.inflight[k + 1] && s.inflight[k + 1].id != m.id;
    }
  }

  lemma InvariantStep(registered: set<string>, s: State, e: Event)
    requires Invariant(registered, s) && Enabled(s, e)
    ensures Invariant(registered, Next(registered, s, e))
  {
    match e
    case Enqueue(_, _, _, _) => EnqueueKeepsInvariant(registered, s, e);
    case Fetch(_, _, _) => FetchKeepsInvariant(registered, s, e);
    case Handle(_, _) => HandleKeepsInvariant(registered, s, e);
  }

  lemma InvariantAlways(registered: set<string>, states: seq<State>, events: seq<Event>)
    requires Run(registered, states, events) && Invariant(registered, states[0])
    ensures forall i :: 0 <= i < |states| ==> Invariant(registered, states[i])
  {
    for i := 0 to |events|
      invariant forall j :: 0 <= j <= i ==> Invariant(registered, states[j])
    {
      assert StepAt(registered, states, events, i);
      InvariantStep(registered, states[i], events[i]);
    }
  }

  ghost predicate EscapesAt(registered: set<string>, s: State, e: Event) {
    e.Handle? && s.inflight != [] && Escapes(registered, s.inflight[0], e.reply)
  }

  /** The exception escapes from the handler of message `id`. */
  ghost predicate EscapesOf(registered: set<string>, s: State, e: Event, id: nat) {
    EscapesAt(registered, s, e) && s.inflight[0].id == id
  }

  /**
   Exactly how often a message's handler has been called: once per attempt, once for its delivery,
   and once per escaping exception. The attempts and the delivery are at most five calls, so a handler
   runs more than five times exactly when the escaping calls outnumber the tries then left.
   */
  lemma CallsAreExact(registered: set<string>, states: seq<State>, events: seq<Event>, i: nat, id: nat)
    requires Run(registered, states, events) && Initial(states[0]) && i < |states| && id < |states[i].table|
    ensures |states[i].calls| == |states[i].escapes| == |states[i].table|
    ensures var row, calls, escapes := states[i].table[id], states[i].calls[id], states[i].escapes[id];
            && (row.destination !in registered ==> calls == 0)
            && (row.destination in registered && row.status == Pending ==>
                 calls == row.attempts + escapes && row.attempts < MAXIMUM_ATTEMPTS)
            && (row.destination in registered && row.status == Delivered ==>
                 calls == row.attempts + 1 + escapes && row.attempts < MAXIMUM_ATTEMPTS)
            && (row.destination in registered && row.status == DeadLetter ==> calls == MAXIMUM_ATTEMPTS + escapes)
            && Charged(registered, row) <= MAXIMUM_ATTEMPTS
            && (calls > MAXIMUM_ATTEMPTS <==> escapes > MAXIMUM_ATTEMPTS - Charged(registered, row))
  {
    InvariantAlways(registered, states, events);
    assert RowInvariant(registered, states[i].table[id], states[i].calls[id], states[i].escapes[id]);
  }

  /** Five tries: a handler that raises only what the loop catches is called at most five times a message. */
  lemma {:induction false} FiveTries(registered: set<string>, states: seq<State>, events: seq<Event>, i: nat, id: nat)
    requires Run(registered, states, events) && Initial(states[0]) && i < |states| && id < |states[i].table|
    requires forall k: nat :: k < i ==> !EscapesOf(registered, states[k], events[k], id)
    ensures |states[i].calls| == |states[i].escapes| == |states[i].table|
    ensures states[i].escapes[id] == 0 && states[i].calls[id] <= MAXIMUM_ATTEMPTS
  {
    CallsAreExact(registered, states, events, i, id);
    if i > 0 {
      InvariantAlways(registered, states, events);
      assert StepAt(registered, states, events, i - 1);
      if id < |states[i - 1].table| {
        FiveTries(registered, states, events, i - 1, id);
        assert !EscapesOf(registered, states[i - 1], events[i - 1], id);
      }
    }
  }

  /** At most one message per idempotency key, in every reachable state. */
  lemma KeysStayUnique(registered: set<string>, states: seq<State>, events: seq<Event>, i: nat, a: nat, b: nat)
    requires Run(registered, states, events) && Initial(states[0])
    requires i < |states| && a < |states[i].table| && b < |states[i].table|
    requires states[i].table[a].idempotencyKey == states[i].table[b].idempotencyKey
    ensures a == b
  {
    InvariantAlways(registered, states, events);
  }

  lemma TerminalStep(registered: set<string>, s: State, e: Event, id: nat)
    requires Invariant(registered, s) && Enabled(s, e) && id < |s.table| && s.table[id].status != Pending
    ensures id < |Next(registered, s, e).table| && Next(registered, s, e).table[id] == s.table[id]
  {
  }

  /** Delivered and dead-lettered rows never change again. */
  lemma {:induction false} TerminalRowsAreFinal(registered: set<string>, states: seq<State>, events: seq<Event>, i: nat,
      j: nat, id: nat)
    requires Run(registered, states, events) && Initial(states[0])
    requires i <= j < |states| && id < |states[i].table| && states[i].table[id].status != Pending
    ensures id < |states[j].table| && states[j].table[id] == states[i].table[id]
    decreases j - i
  {
    InvariantAlways(registered, states, events);
    if i < j {
      TerminalRowsAreFinal(registered, states, events, i, j - 1, id);
      assert StepAt(registered, states, events, j - 1);
      TerminalStep(registered, states[j - 1], events[j - 1], id);
    }
  }

  // ---- Draining -------------------------------------------------------------------------------

  /** The tries a row has left: five less the attempts made, while it is pending. */
  ghost function Tries(r: Row): int {
    if r.status == Pending then MAXIMUM_ATTEMPTS - r.attempts else 0
  }

  ghost function Work(t: Table): int {
    if t == [] then 0 else Work(t[..|t| - 1]) + Tries(t[|t| - 1])
  }

  lemma {:induction false} WorkUpdate(t: Table, id: nat, r: Row)
    requires id < |t|
    ensures Work(t[id := r]) == Work(t) - Tries(t[id]) + Tries(r)
  {
    var n := |t| - 1;
    if id == n {
      assert t[id := r][..n] == t[..n];
    } else {
      WorkUpdate(t[..n], id, r);
      assert t[id := r][..n] == t[..n][id := r];
    }
  }

  /** Every message dealt with uses up at least one try; only a new message brings more. */
  lemma WorkStep(registered: set<string>, s: State, e: Event)
    requires Invariant(registered, s) && Enabled(s, e)
    ensures var t := Next(registered, s, e).table;
            match e
            case Enqueue(_, _, _, _) => Work(t) <= Work(s.table) + MAXIMUM_ATTEMPTS
            case Fetch(_, _, _) => Work(t) == Work(s.table)
            case Handle(_, _) => if EscapesAt(registered, s, e) then Work(t) == Work(s.table)
                else Work(t) < Work(s.table)
  {
    match e
    case Enqueue(destination, key, payload, at) =>
      var t := Next(registered, s, e).table;
      if t != s.table {
        assert t[..|t| - 1] == s.table;
      }
    case Fetch(_, _, _) =>
    case Handle(reply, at) =>
      var m := s.inflight[0];
      assert RowInvariant(registered, s.table[m.id], s.calls[m.id], s.escapes[m.id]);
      var t := Next(registered, s, e).table;
      assert t == s.table[m.id := t[m.id]];
      WorkUpdate(s.table, m.id, t[m.id]);
  }

  ghost predicate NothingPending(t: Table) {
    forall i :: 0 <= i < |t| ==> t[i].status != Pending
  }

  lemma WorkIsNonnegative(registered: set<string>, s: State)
    requires Invariant(registered, s)
    ensures Work(s.table) >= 0 && (Work(s.table) == 0 <==> NothingPending(s.table))
  {
    forall i | 0 <= i < |s.table| && s.table[i].status == Pending
      ensures s.table[i].attempts < MAXIMUM_ATTEMPTS
    {
      assert RowInvariant(registered, s.table[i], s.calls[i], s.escapes[i]);
    }
    PendingAttemptsBoundWork(s.table);
  }

  lemma {:induction false} PendingAttemptsBoundWork(t: Table)
    requires forall i :: 0 <= i < |t| && t[i].status == Pending ==> t[i].attempts < MAXIMUM_ATTEMPTS
    ensures Work(t) >= 0
    ensures Work(t) == 0 <==> NothingPending(t)
  {
    if t != [] {
      PendingAttemptsBoundWork(t[..|t| - 1]);
    }
  }

  /** How many messages have been dealt with: handled without an escaping exception. */
  ghost function CountDealt(registered: set<string>, states: seq<State>, events: seq<Event>, n: nat): nat
    requires |states| == |events| + 1 && n <= |events|
  {
    if n == 0 then 0
    else CountDealt(registered, states, events, n - 1)
         + (if events[n - 1].Handle? && !EscapesAt(registered, states[n - 1], events[n - 1]) then 1 else 0)
  }

  ghost function CountEnqueues(events: seq<Event>, n: nat): nat
    requires n <= |events|
  {
    if n == 0 then 0 else CountEnqueues(events, n - 1) + (if events[n - 1].Enqueue? then 1 else 0)
  }

  /** Messages dealt with are paid for by tries: with nothing new enqueued, at most Work of them. */
  lemma {:induction false} Drains(registered: set<string>, states: seq<State>, events: seq<Event>, n: nat)
    requires Run(registered, states, events) && Invariant(registered, states[0]) && n <= |events|
    ensures 0 <= Work(states[n].table)
    ensures CountDealt(registered, states, events, n) + Work(states[n].table)
            <= Work(states[0].table) + MAXIMUM_ATTEMPTS * CountEnqueues(events, n)
  {
    InvariantAlways(registered, states, events);
    WorkIsNonnegative(registered, states[n]);
    if n != 0 {
      Drains(registered, states, events, n - 1);
      assert StepAt(registered, states, events, n - 1);
      WorkStep(registered, states[n - 1], events[n - 1]);
    }
  }

  ghost function CountFetches(events: seq<Event>, n: nat): nat
    requires n <= |events|
  {
    if n == 0 then 0 else CountFetches(events, n - 1) + (if events[n - 1].Fetch? then 1 else 0)
  }

  /** The passes an exception escaped from. */
  ghost function CountEscapes(registered: set<string>, states: seq<State>, events: seq<Event>, n: nat): nat
    requires |states| == |events| + 1 && n <= |events|
  {
    if n == 0 then 0
    else CountEscapes(registered, states, events, n - 1)
         + (if EscapesAt(registered, states[n - 1], events[n - 1]) then 1 else 0)
  }

  /** A pass comes back empty-handed only when nothing is pending: passes wait until something is due. */
  ghost predicate FindsWork(s: State, e: Event) {
    e.Fetch? && e.batch == [] ==> NothingPending(s.table)
  }

  /** Nothing is pending, or every pass that has ended cleanly has dealt with a message. */
  ghost predicate KeepsUp(registered: set<string>, states: seq<State>, events: seq<Event>, n: nat)
    requires |states| == |events| + 1 && n <= |events|
  {
    NothingPending(states[n].table)
    || CountDealt(registered, states, events, n) + (if states[n].inflight == [] then 0 else 1)
       >= CountFetches(events, n) - CountEscapes(registered, states, events, n)
  }

  lemma KeepsUpStep(registered: set<string>, states: seq<State>, events: seq<Event>, n: nat)
    requires Run(registered, states, events) && Invariant(registered, states[0]) && n < |events|
    requires !events[n].Enqueue? && FindsWork(states[n], events[n])
    ensures KeepsUp(registered, states, events, n) ==> KeepsUp(registered, states, events, n + 1)
  {
    InvariantAlways(registered, states, events);
    assert StepAt(registered, states, events, n);
    if NothingPending(states[n].table) {
      forall id: nat | id < |states[n].table| {
        TerminalStep(registered, states[n], events[n], id);
      }
      assert |states[n + 1].table| == |states[n].table|;
    }
  }

  /**
   An outbox with no new messages drains: once as many passes have ended without an escaping exception
   as there were tries left, each pass finding something due while anything was pending, nothing is.
   */
  lemma OutboxDrains(registered: set<string>, states: seq<State>, events: seq<Event>)
    requires Run(registered, states, events) && Invariant(registered, states[0])
    requires states[0].inflight == [] && states[|events|].inflight == []
    requires forall i :: 0 <= i < |events| ==> !events[i].Enqueue? && FindsWork(states[i], events[i])
    requires CountFetches(events, |events|) - CountEscapes(registered, states, events, |events|)
             >= Work(states[0].table)
    ensures NothingPending(states[|events|].table)
  {
    for n := 0 to |events|
      invariant KeepsUp(registered, states, events, n) && CountEnqueues(events, n) == 0
    {
      KeepsUpStep(registered, states, events, n);
    }
    Drains(registered, states, events, |events|);
    AllWorkDone(registered, states, events);
  }

  lemma AllWorkDone(registered: set<string>, states: seq<State>, events: seq<Event>)
    requires Run(registered, states, events) && Invariant(registered, states[0])
    ensures Work(states[|events|].table) <= 0 ==> NothingPending(states[|events|].table)
  {
    InvariantAlways(registered, states, events);
    WorkIsNonnegative(registered, states[|events|]);
  }

  // ---- Fairness -------------------------------------------------------------------------------

  /** The pending messages the query may return before message m. */
  ghost function Ahead(t: Table, m: nat): set<nat>
    requires m < |t|
  {
    set i: nat | i < |t| && i != m && t[i].status == Pending && t[i].availableAt <= t[m].availableAt
  }

  ghost function InflightIds(inflight: seq<Message>): set<nat> {
    set k | 0 <= k < |inflight| :: inflight[k].id
  }

  /** `m` is due and untouched since `row` was read. */
  ghost predicate Untouched(s: State, m: nat, row: Row) {
    m < |s.table| && s.table[m] == row && Due(s.table, m, s.now)
  }

  /** It is, moreover, not part of the batch in progress. */
  ghost predicate Waiting(s: State, m: nat, row: Row) {
    Untouched(s, m, row) && m !in InflightIds(s.inflight)
  }

  /** Step i deals with message m: its handler is called, or it is found to have none. */
  ghost predicate TurnAt(states: seq<State>, events: seq<Event>, m: nat, i: nat)
    requires |states| == |events| + 1
  {
    i < |events| && events[i].Handle? && states[i].inflight != [] && states[i].inflight[0].id == m
  }

  ghost predicate NoTurn(states: seq<State>, events: seq<Event>, m: nat)
    requires |states| == |events| + 1
  {
    forall i: nat :: i < |events| ==> !TurnAt(states, events, m, i)
  }

  /** Who is ahead of a waiting message and not already being dealt with. */
  ghost function Blocking(s: State, m: nat): set<nat>
    requires m < |s.table|
  {
    Ahead(s.table, m) - InflightIds(s.inflight)
  }

  /** The limits of the passes begun so far, added up. */
  ghost function Capacity(events: seq<Event>, n: nat): nat
    requires n <= |events|
  {
    if n == 0 then 0 else Capacity(events, n - 1) + (if events[n - 1].Fetch? then events[n - 1].limit else 0)
  }

  /** Dealing with the first message in flight takes its id, and no other, out of flight. */
  lemma InflightAfterHandle(registered: set<string>, s: State, e: Event)
    requires Invariant(registered, s) && Enabled(s, e) && e.Handle? && !EscapesAt(registered, s, e)
    ensures InflightIds(s.inflight) == InflightIds(Next(registered, s, e).inflight) + {s.inflight[0].id}
    ensures s.inflight[0].id !in InflightIds(Next(registered, s, e).inflight)
  {
    var rest := s.inflight[1..];
    assert Next(registered, s, e).inflight == rest;
    assert forall k :: 0 <= k < |rest| ==> rest[k] == s.inflight[k + 1];
    forall i | i in InflightIds(s.inflight)
      ensures i in InflightIds(rest) + {s.inflight[0].id}
    {
      var k :| 0 <= k < |s.inflight| && s.inflight[k].id == i;
      if k > 0 {
        assert rest[k - 1].id == i;
      }
    }
    forall i | i in InflightIds(rest)
      ensures i in InflightIds(s.inflight) && i != s.inflight[0].id
    {
      var k :| 0 <= k < |rest| && rest[k].id == i;
      assert s.inflight[k + 1].id == i;
    }
  }

  lemma InflightAfterFetch(registered: set<string>, s: State, e: Event)
    requires Enabled(s, e) && e.Fetch?
    ensures InflightIds(Next(registered, s, e).inflight) == Elems(e.batch) && InflightIds(s.inflight) == {}
  {
    var s' := Next(registered, s, e);
    forall i | i in Elems(e.batch)
      ensures i in InflightIds(s'.inflight)
    {
      var k :| 0 <= k < |e.batch| && e.batch[k] == i;
      assert s'.inflight[k].id == i;
    }
  }

  /** Only its own turn touches a due message. */
  lemma UntouchedStep(registered: set<string>, s: State, e: Event, m: nat, row: Row)
    requires Invariant(registered, s) && Enabled(s, e) && Untouched(s, m, row) && !(e.Handle? && s.inflight[0].id == m)
    ensures Untouched(Next(registered, s, e), m, row)
  {
  }

  /** Nobody joins those ahead of an untouched message, and one dealt with is no longer among them. */
  lemma AheadShrinks(registered: set<string>, s: State, e: Event, m: nat, row: Row)
    requires Invariant(registered, s) && Enabled(s, e) && Untouched(s, m, row) && !e.Fetch?
             && !EscapesAt(registered, s, e)
    requires e.Handle? ==> s.inflight[0].id != m
    ensures m < |Next(registered, s, e).table| && Ahead(Next(registered, s, e).table, m) <= Ahead(s.table, m)
    ensures e.Handle? ==> s.inflight[0].id !in Ahead(Next(registered, s, e).table, m)
  {
    if e.Handle? {
      var h, t := s.inflight[0], Next(registered, s, e).table;
      assert t[h.id].status == Pending ==> t[h.id].availableAt > e.at;
    }
  }

  /** New and retried messages queue behind a waiting one, so nobody joins those blocking it. */
  lemma NobodyOvertakes(registered: set<string>, s: State, e: Event, m: nat, row: Row)
    requires Invariant(registered, s) && Enabled(s, e) && Waiting(s, m, row) && !e.Fetch?
             && !EscapesAt(registered, s, e)
    ensures Waiting(Next(registered, s, e), m, row)
    ensures Blocking(Next(registered, s, e), m) <= Blocking(s, m)
  {
    assert e.Handle? ==> s.inflight[0].id in InflightIds(s.inflight);
    UntouchedStep(registered, s, e, m, row);
    AheadShrinks(registered, s, e, m, row);
    if e.Handle? {
      InflightAfterHandle(registered, s, e);
    }
  }

  /** A batch that leaves a waiting message out is full of messages that were blocking it. */
  lemma FetchClearsLimit(registered: set<string>, s: State, e: Event, m: nat, row: Row)
    requires Invariant(registered, s) && Enabled(s, e) && Waiting(s, m, row) && e.Fetch? && m !in e.batch
    ensures Waiting(Next(registered, s, e), m, row)
    ensures |Blocking(Next(registered, s, e), m)| + e.limit <= |Blocking(s, m)|
  {
    var s', ids := Next(registered, s, e), Elems(e.batch);
    InflightAfterFetch(registered, s, e);
    assert Due(s.table, m, e.at);
    assert ids <= Ahead(s.table, m);
    DistinctCardinality(e.batch);
    assert Blocking(s', m) == Blocking(s, m) - ids;
  }

  /** At most `ahead` messages are ahead of m and, unless m is in flight, at most `blocking` of them block it. */
  ghost predicate WaitsBehind(s: State, m: nat, row: Row, blocking: int, ahead: int) {
    && Untouched(s, m, row) && |Ahead(s.table, m)| <= ahead
    && (m !in InflightIds(s.inflight) ==> |Blocking(s, m)| <= blocking)
  }

  lemma WaitsThroughFetch(registered: set<string>, s: State, e: Event, m: nat, row: Row, left: int, ahead: int)
    requires Invariant(registered, s) && Enabled(s, e) && e.Fetch? && WaitsBehind(s, m, row, left, ahead)
    ensures WaitsBehind(Next(registered, s, e), m, row, left - e.limit, left)
  {
    assert InflightIds(s.inflight) == {};
    assert Blocking(s, m) == Ahead(s.table, m);
    InflightAfterFetch(registered, s, e);
    UntouchedStep(registered, s, e, m, row);
    if m !in e.batch {
      FetchClearsLimit(registered, s, e, m, row);
    }
  }

  lemma WaitsOn(registered: set<string>, s: State, e: Event, m: nat, row: Row, left: int, ahead: int)
    requires Invariant(registered, s) && Enabled(s, e) && !e.Fetch? && !EscapesAt(registered, s, e)
    requires WaitsBehind(s, m, row, left, ahead) && !(e.Handle? && s.inflight[0].id == m)
    ensures WaitsBehind(Next(registered, s, e), m, row, left, ahead)
  {
    UntouchedStep(registered, s, e, m, row);
    AheadShrinks(registered, s, e, m, row);
    SubsetCardinality(Ahead(Next(registered, s, e).table, m), Ahead(s.table, m));
    if m in InflightIds(s.inflight) {
      StaysInFlight(registered, s, e, m);
    } else {
      NobodyOvertakes(registered, s, e, m, row);
      SubsetCardinality(Blocking(Next(registered, s, e), m), Blocking(s, m));
    }
  }

  /** A message leaves a batch only by its turn, or by an exception that ends the pass. */
  lemma StaysInFlight(registered: set<string>, s: State, e: Event, m: nat)
    requires Invariant(registered, s) && Enabled(s, e) && !e.Fetch? && !EscapesAt(registered, s, e)
    requires m in InflightIds(s.inflight) && !(e.Handle? && s.inflight[0].id == m)
    ensures m in InflightIds(Next(registered, s, e).inflight)
  {
    if e.Handle? {
      InflightAfterHandle(registered, s, e);
    }
  }

  /** An escaping exception gives up the rest of its batch, and so may undo what its pass had cleared. */
  lemma WaitsThroughEscape(registered: set<string>, s: State, e: Event, m: nat, row: Row, left: int, ahead: int)
    requires Enabled(s, e) && EscapesAt(registered, s, e) && WaitsBehind(s, m, row, left, ahead)
    ensures WaitsBehind(Next(registered, s, e), m, row, ahead, ahead)
  {
    assert InflightIds(Next(registered, s, e).inflight) == {};
    assert Blocking(Next(registered, s, e), m) == Ahead(s.table, m);
  }

  /** The limit of the pass last begun. */
  ghost function LastLimit(events: seq<Event>, n: nat): nat
    requires n <= |events|
  {
    if n == 0 then 0 else if events[n - 1].Fetch? then events[n - 1].limit else LastLimit(events, n - 1)
  }

  /** The limits of the passes an exception escaped from, added up. */
  ghost function Wasted(registered: set<string>, states: seq<State>, events: seq<Event>, n: nat): nat
    requires |states| == |events| + 1 && n <= |events|
  {
    if n == 0 then 0
    else Wasted(registered, states, events, n - 1)
         + (if EscapesAt(registered, states[n - 1], events[n - 1]) then LastLimit(events, n - 1) else 0)
  }

  /** What is left of `budget` once the passes that ran on have cleared their limits. */
  ghost function Left(registered: set<string>, states: seq<State>, events: seq<Event>, budget: int, n: nat): int
    requires |states| == |events| + 1 && n <= |events|
  {
    budget - Capacity(events, n) + Wasted(registered, states, events, n)
  }

  ghost predicate ShrinksAt(registered: set<string>, states: seq<State>, events: seq<Event>, m: nat, row: Row,
      budget: int, n: nat)
    requires |states| == |events| + 1 && n <= |events|
  {
    var left := Left(registered, states, events, budget, n);
    WaitsBehind(states[n], m, row, left, left + LastLimit(events, n))
  }

  ghost predicate KeepsShrinking(registered: set<string>, states: seq<State>, events: seq<Event>, m: nat, row: Row,
      budget: int, n: nat)
    requires |states| == |events| + 1 && n < |events|
  {
    ShrinksAt(registered, states, events, m, row, budget, n) ==>
          ShrinksAt(registered, states, events, m, row, budget, n + 1)
  }

  lemma WaitsBehindStep(registered: set<string>, states: seq<State>, events: seq<Event>, n: nat, m: nat, row: Row,
      budget: int)
    requires Run(registered, states, events) && Invariant(registered, states[0]) && n < |events|
    requires !TurnAt(states, events, m, n)
    ensures KeepsShrinking(registered, states, events, m, row, budget, n)
  {
    if ShrinksAt(registered, states, events, m, row, budget, n) {
      var s, e := states[n], events[n];
      var left := Left(registered, states, events, budget, n);
      InvariantAlways(registered, states, events);
      assert StepAt(registered, states, events, n);
      if e.Fetch? {
        WaitsThroughFetch(registered, s, e, m, row, left, left + LastLimit(events, n));
      } else if EscapesAt(registered, s, e) {
        WaitsThroughEscape(registered, s, e, m, row, left, left + LastLimit(events, n));
      } else {
        WaitsOn(registered, s, e, m, row, left, left + LastLimit(events, n));
      }
    }
  }

  lemma {:induction false} BlockingShrinks(registered: set<string>, states: seq<State>, events: seq<Event>, m: nat,
      row: Row, budget: nat, n: nat)
    requires |states| == |events| + 1 && n <= |events| && ShrinksAt(registered, states, events, m, row, budget, 0)
    requires forall k: nat :: k < |events| ==> KeepsShrinking(registered, states, events, m, row, budget, k)
    ensures ShrinksAt(registered, states, events, m, row, budget, n)
  {
    if n != 0 {
      BlockingShrinks(registered, states, events, m, row, budget, n - 1);
      assert KeepsShrinking(registered, states, events, m, row, budget, n - 1);
    }
  }

  /**
   No starvation: a due message has had its turn as soon as the limits of the passes that no exception
   escaped from add up to more than the messages ahead of it, whatever is enqueued or retried meanwhile.
   At the end it must not be in a batch still being dealt with, as when every pass begun has ended.
   */
  lemma NoStarvation(registered: set<string>, states: seq<State>, events: seq<Event>, m: nat)
    requires Run(registered, states, events) && Invariant(registered, states[0])
    requires states[0].inflight == [] && Due(states[0].table, m, states[0].now)
    requires m !in InflightIds(states[|events|].inflight)
    requires Capacity(events, |events|) - Wasted(registered, states, events, |events|) > |Ahead(states[0].table, m)|
    ensures exists i: nat :: TurnAt(states, events, m, i)
  {
    if NoTurn(states, events, m) {
      assert InflightIds(states[0].inflight) == {};
      assert Blocking(states[0], m) == Ahead(states[0].table, m);
      var row, budget := states[0].table[m], |Ahead(states[0].table, m)|;
      forall k: nat | k < |events|
        ensures KeepsShrinking(registered, states, events, m, row, budget, k)
      {
        WaitsBehindStep(registered, states, events, k, m, row, budget);
      }
      BlockingShrinks(registered, states, events, m, row, budget, |events|);
    }
  }

  ghost predicate OneLimit(events: seq<Event>, limit: nat) {
    forall i :: 0 <= i < |events| && events[i].Fetch? ==> events[i].limit == limit
  }

  lemma OneMore(limit: nat, k: nat)
    ensures limit * (k + 1) == limit * k + limit
  {
  }

  lemma {:induction false} UniformCapacity(events: seq<Event>, n: nat, limit: nat)
    requires n <= |events| && OneLimit(events, limit)
    ensures Capacity(events, n) == limit * CountFetches(events, n) && LastLimit(events, n) <= limit
  {
    if n != 0 {
      UniformCapacity(events, n - 1, limit);
      OneMore(limit, CountFetches(events, n - 1));
    }
  }

  lemma {:induction false} UniformWaste(registered: set<string>, states: seq<State>, events: seq<Event>, n: nat,
      limit: nat)
    requires |states| == |events| + 1 && n <= |events| && OneLimit(events, limit)
    ensures Wasted(registered, states, events, n) <= limit * CountEscapes(registered, states, events, n)
  {
    if n != 0 {
      UniformWaste(registered, states, events, n - 1, limit);
      UniformCapacity(events, n - 1, limit);
      OneMore(limit, CountEscapes(registered, states, events, n - 1));
    }
  }

  lemma PassesSuffice(r: nat, limit: nat, passes: int, escapes: int, capacity: int, wasted: int)
    requires limit >= 1 && passes - escapes >= r / limit + 1
    ensures capacity == limit * passes && wasted <= limit * escapes ==> capacity - wasted > r
  {
    var full := passes - escapes;
    assert limit * full >= limit * (r / limit + 1) > r;
    assert limit * full == limit * passes - limit * escapes;
  }

  /** With one limit, r messages ahead cost at most r / limit + 1 passes that no exception escapes from. */
  lemma NoStarvationWithin(registered: set<string>, states: seq<State>, events: seq<Event>, m: nat, limit: nat)
    requires Run(registered, states, events) && Invariant(registered, states[0])
    requires states[0].inflight == [] && Due(states[0].table, m, states[0].now)
    requires limit >= 1 && OneLimit(events, limit)
    requires CountFetches(events, |events|) - CountEscapes(registered, states, events, |events|)
             >= |Ahead(states[0].table, m)| / limit + 1
    requires m !in InflightIds(states[|events|].inflight)
    ensures exists i: nat :: TurnAt(states, events, m, i)
  {
    var fetches, escapes := CountFetches(events, |events|), CountEscapes(registered, states, events, |events|);
    UniformCapacity(events, |events|, limit);
    UniformWaste(registered, states, events, |events|, limit);
    PassesSuffice(|Ahead(states[0].table, m)|, limit, fetches, escapes, Capacity(events, |events|),
                  Wasted(registered, states, events, |events|));
    NoStarvation(registered, states, events, m);
  }

  // ---- Passes as runs, and what an escaping exception costs --------------------------------------

  /** One more event at the end of a run. */
  lemma ExtendRun(registered: set<string>, states: seq<State>, events: seq<Event>, e: Event)
      returns (states': seq<State>, events': seq<Event>)
    requires Run(registered, states, events) && Enabled(states[|events|], e)
    ensures events' == events + [e] && states' == states + [Next(registered, states[|events|], e)]
    ensures Run(registered, states', events')
  {
    states', events' := states + [Next(registered, states[|events|], e)], events + [e];
    forall i: nat | i < |events'|
      ensures StepAt(registered, states', events', i)
    {
      assert i < |events| ==> StepAt(registered, states, events, i);
    }
  }

  ghost predicate TimesAdvance(answers: seq<Answer>, n: nat, now: int) {
    forall k: nat :: k < n ==> At(answers, k).time > (if k == 0 then now else At(answers, k - 1).time)
  }

  /** The state of a pass over `ids` once its first n messages have been handled. */
  ghost predicate PassState(registered: set<string>, s: State, now: int, ids: seq<nat>, answers: seq<Answer>, n: nat,
      s': State) {
    && n <= |ids| && (forall k :: 0 <= k < |ids| ==> ids[k] < |s.table|) && Invariant(registered, s')
    && s'.table == HandledAll(s.table, registered, Read(s.table, ids), n, answers)
    && s'.inflight == Read(s.table, ids)[n..]
    && s'.now == (if n == 0 then now else At(answers, n - 1).time)
  }

  ghost predicate PassRun(registered: set<string>, s: State, now: int, ids: seq<nat>, answers: seq<Answer>, n: nat,
                          states: seq<State>, events: seq<Event>) {
    && Run(registered, states, events) && |events| == n + 1 && states[0] == s
    && PassState(registered, s, now, ids, answers, n, states[n + 1])
  }

  lemma PassBegins(registered: set<string>, s: State, limit: nat, now: int, ids: seq<nat>, answers: seq<Answer>)
    returns (states: seq<State>, events: seq<Event>)
    requires Invariant(registered, s) && s.inflight == [] && s.now < now && IsBatch(s.table, now, limit, ids)
    ensures PassRun(registered, s, now, ids, answers, 0, states, events)
  {
    var e := Fetch(limit, ids, now);
    InvariantStep(registered, s, e);
    states, events := ExtendRun(registered, [s], [], e);
  }

  lemma PassContinues(registered: set<string>, s: State, now: int, ids: seq<nat>, answers: seq<Answer>, n: nat,
                      states: seq<State>, events: seq<Event>) returns (states': seq<State>, events': seq<Event>)
    requires n < |ids| && (forall k :: 0 <= k < |ids| ==> ids[k] < |s.table|)
    requires Unescaped(registered, Read(s.table, ids), n + 1, answers) && TimesAdvance(answers, n + 1, now)
    ensures PassRun(registered, s, now, ids, answers, n, states, events) ==>
              PassRun(registered, s, now, ids, answers, n + 1, states', events')
  {
    states', events' := states, events;
    if PassRun(registered, s, now, ids, answers, n, states, events) {
      var last, e := states[n + 1], Handle(At(answers, n).reply, At(answers, n).time);
      assert last.inflight[0] == Read(s.table, ids)[n];
      assert Enabled(last, e);
      InvariantStep(registered, last, e);
      states', events' := ExtendRun(registered, states, events, e);
      assert last.inflight[1..] == Read(s.table, ids)[n + 1..];
    }
  }

  /** The table a pass leaves behind is the table of the run that fetches and handles step by step. */
  lemma PassIsRun(registered: set<string>, s: State, limit: nat, now: int, ids: seq<nat>, answers: seq<Answer>, n: nat)
    returns (states: seq<State>, events: seq<Event>)
    requires Invariant(registered, s) && s.inflight == [] && s.now < now && IsBatch(s.table, now, limit, ids)
    requires n <= |ids| && Unescaped(registered, Read(s.table, ids), n, answers) && TimesAdvance(answers, n, now)
    ensures PassRun(registered, s, now, ids, answers, n, states, events)
  {
    states, events := PassBegins(registered, s, limit, now, ids, answers);
    for i := 0 to n
      invariant PassRun(registered, s, now, ids, answers, i, states, events)
    {
      states, events := PassContinues(registered, s, now, ids, answers, i, states, events);
    }
  }

  /** A pass that ends in an escaping exception is the same run with that call at its end. */
  lemma EscapedPassIsRun(registered: set<string>, s: State, limit: nat, now: int, ids: seq<nat>, answers: seq<Answer>,
      n: nat)
    returns (states: seq<State>, events: seq<Event>)
    requires Invariant(registered, s) && s.inflight == [] && s.now < now && IsBatch(s.table, now, limit, ids)
    requires n < |ids| && Unescaped(registered, Read(s.table, ids), n, answers) && TimesAdvance(answers, n + 1, now)
    requires Escapes(registered, Read(s.table, ids)[n], At(answers, n).reply)
    ensures Run(registered, states, events) && |events| == n + 2 && states[0] == s
    ensures EscapesAt(registered, states[n + 1], events[n + 1])
    ensures var last := states[n + 2];
            && last.table == HandledAll(s.table, registered, Read(s.table, ids), n, answers)
            && last.inflight == [] && last.now == At(answers, n).time
  {
    states, events := PassIsRun(registered, s, limit, now, ids, answers, n);
    var last, e := states[n + 1], Handle(At(answers, n).reply, At(answers, n).time);
    assert last.inflight[0] == Read(s.table, ids)[n];
    states, events := ExtendRun(registered, states, events, e);
  }

  lemma {:induction false} CountFetchesPrefix(a: seq<Event>, b: seq<Event>, n: nat)
    requires n <= |a| && a <= b
    ensures CountFetches(a, n) == CountFetches(b, n)
  {
    if n != 0 {
      CountFetchesPrefix(a, b, n - 1);
    }
  }

  /**
   In n passes of one limit a handler was called n times, each call escaping, while the due message
   behind it had no turn.
   */
  ghost predicate Starved(registered: set<string>, states: seq<State>, events: seq<Event>, n: nat, limit: nat) {
    && NoTurnSoFar(registered, states, events, limit) && |events| == 2 + 2 * n && CountFetches(events, |events|) == n
    && StarvedState(registered, states[|events|], n)
  }

  ghost predicate NoTurnSoFar(registered: set<string>, states: seq<State>, events: seq<Event>, limit: nat) {
    Run(registered, states, events) && Initial(states[0]) && OneLimit(events, limit) && NoTurn(states, events, 1)
  }

  ghost predicate StarvedState(registered: set<string>, s: State, n: nat) {
    && s.inflight == [] && |s.table| == 2 && s.calls == s.escapes == [n, 0] && Due(s.table, 1, s.now)
    && s.table[0].status == Pending && s.table[0].attempts == 0 && s.table[0].destination in registered
    && Ahead(s.table, 1) == {0}
  }

  /** What a pass finds there: the first message, and the second as well if the limit allows. */
  lemma StarvedBatch(registered: set<string>, s: State, n: nat, limit: nat) returns (batch: seq<nat>)
    requires StarvedState(registered, s, n) && limit >= 1
    ensures IsBatch(s.table, s.now + 1, limit, batch) && batch == if limit == 1 then [0] else [0, 1]
  {
    batch := if limit == 1 then [0] else [0, 1];
    assert 0 in Ahead(s.table, 1);
  }

  /** A pass over it calls the first message's handler, whose exception ends the pass. */
  lemma StarvedPass(registered: set<string>, s: State, n: nat, limit: nat, batch: seq<nat>)
      returns (s1: State, s2: State)
    requires StarvedState(registered, s, n) && IsBatch(s.table, s.now + 1, limit, batch) && batch != [] && batch[0] == 0
    ensures Enabled(s, Fetch(limit, batch, s.now + 1)) && s1 == Next(registered, s, Fetch(limit, batch, s.now + 1))
    ensures Enabled(s1, Handle(Escaped, s.now + 2)) && s2 == Next(registered, s1, Handle(Escaped, s.now + 2))
    ensures s1.inflight[0].id == 0 && StarvedState(registered, s2, n + 1)
  {
    s1 := Next(registered, s, Fetch(limit, batch, s.now + 1));
    s2 := Next(registered, s1, Handle(Escaped, s.now + 2));
    assert s2.table == s.table;
  }

  lemma NoTurnExtends(registered: set<string>, states: seq<State>, events: seq<Event>, limit: nat, e: Event)
      returns (states': seq<State>, events': seq<Event>)
    requires NoTurnSoFar(registered, states, events, limit) && Enabled(states[|events|], e)
    requires e.Fetch? ==> e.limit == limit
    requires e.Handle? && states[|events|].inflight != [] ==> states[|events|].inflight[0].id != 1
    ensures NoTurnSoFar(registered, states', events', limit)
    ensures events' == events + [e] && states' == states + [Next(registered, states[|events|], e)]
    ensures CountFetches(events', |events'|) == CountFetches(events, |events|) + (if e.Fetch? then 1 else 0)
  {
    states', events' := ExtendRun(registered, states, events, e);
    CountFetchesPrefix(events, events', |events|);
    forall i: nat | i < |events'|
      ensures !TurnAt(states', events', 1, i)
    {
      assert i < |events| ==> !TurnAt(states, events, 1, i);
    }
  }

  lemma StarvesOnceMore(registered: set<string>, states: seq<State>, events: seq<Event>, n: nat, limit: nat)
      returns (states': seq<State>, events': seq<Event>)
    requires Starved(registered, states, events, n, limit) && limit >= 1
    ensures Starved(registered, states', events', n + 1, limit)
  {
    var s := states[|events|];
    var batch := StarvedBatch(registered, s, n, limit);
    var s1, s2 := StarvedPass(registered, s, n, limit, batch);
    states', events' := NoTurnExtends(registered, states, events, limit, Fetch(limit, batch, s.now + 1));
    states', events' := NoTurnExtends(registered, states', events', limit, Handle(Escaped, s.now + 2));
  }

  lemma TwoEnqueued(destination: string, first: string, second: string, payload: string, limit: nat)
      returns (states: seq<State>, events: seq<Event>)
    requires first != second
    ensures Starved({destination}, states, events, 0, limit)
  {
    var registered, empty := {destination}, State([], [], 0, [], []);
    states, events := NoTurnExtends(registered, [empty], [], limit, Enqueue(destination, first, payload, 1));
    assert states[1].table == [Row(destination, first, payload, Pending, 0, 1, "")];
    states, events := NoTurnExtends(registered, states, events, limit, Enqueue(destination, second, payload, 2));
  }

  /**
   Five tries and fairness both need handlers to raise only what the loop catches. An exception it
   does not catch leaves its message pending and uncounted: for any two messages of a destination, every
   n and every limit there is a run with n passes of that limit in which the first message's handler is
   called n times and the due message behind it never has its turn, even while every batch contains it.
   */
  lemma EscapesStarve(destination: string, first: string, second: string, payload: string, n: nat, limit: nat)
      returns (states: seq<State>, events: seq<Event>)
    requires limit >= 1 && first != second
    ensures Starved({destination}, states, events, n, limit)
  {
    states, events := TwoEnqueued(destination, first, second, payload, limit);
    for i := 0 to n
      invariant Starved({destination}, states, events, i, limit)
    {
      states, events := StarvesOnceMore({destination}, states, events, i, limit);
    }
  }
}
