/**
 The integration outbox: a table of messages with at-least-once delivery, exponential backoff and a
 dead-letter state. The table is the sequence of its rows; a message id is a row's position.
 */
module Outbox {
  import opened Common

  const MAXIMUM_ATTEMPTS: nat := 5
  const MAXIMUM_BACKOFF_SECONDS: nat := 300
  const TICKS_PER_SECOND: nat := 1_000_000
  const MAXIMUM_ERROR_LENGTH: nat := 256

  datatype Status = Pending | Delivered | DeadLetter

  datatype Row = Row(destination: string, idempotencyKey: string, payload: string,
                     status: Status, attempts: nat, availableAt: int, lastError: string)

  type Table = seq<Row>

  /** A row as it was read: handlers and attempt counts work from this copy. */
  datatype Message = Message(id: nat, row: Row)

  function PowerOfTwo(n: nat): (p: nat)
    ensures p >= 1
  {
    if n == 0 then 1 else 2 * PowerOfTwo(n - 1)
  }

  function Backoff(attempts: nat): (ticks: nat)
    ensures TICKS_PER_SECOND <= ticks <= MAXIMUM_BACKOFF_SECONDS * TICKS_PER_SECOND
  {
    var seconds := PowerOfTwo(attempts);
    (if seconds < MAXIMUM_BACKOFF_SECONDS then seconds else MAXIMUM_BACKOFF_SECONDS) * TICKS_PER_SECOND
  }

  function Clip(error: string): string {
    if |error| <= MAXIMUM_ERROR_LENGTH then error else error[..MAXIMUM_ERROR_LENGTH]
  }

  predicate HasKey(t: Table, key: string) {
    exists i :: 0 <= i < |t| && t[i].idempotencyKey == key
  }

  function WithEnqueued(t: Table, destination: string, key: string, payload: string, now: int): Table {
    if HasKey(t, key) then t else t + [Row(destination, key, payload, Pending, 0, now, "")]
  }

  function WithDelivered(t: Table, id: nat): Table {
    if id < |t| then t[id := t[id].(status := Delivered)] else t
  }

  function WithFailed(t: Table, id: nat, error: string, attempts: nat, now: int): Table {
    if id < |t| then
      t[id := t[id].(status := if attempts >= MAXIMUM_ATTEMPTS then DeadLetter else Pending,
                     attempts := attempts, availableAt := now + Backoff(attempts), lastError := Clip(error))]
    else t
  }

  predicate Due(t: Table, id: nat, now: int) {
    id < |t| && t[id].status == Pending && t[id].availableAt <= now
  }

  /** Any answer the ordered, limited query may give; ties may come in any order. */
  ghost predicate IsBatch(t: Table, now: int, limit: nat, batch: seq<nat>) {
    && Distinct(batch) && |batch| <= limit
    && (forall k :: 0 <= k < |batch| ==> Due(t, batch[k], now))
    && (forall j, k :: 0 <= j < k < |batch| ==> t[batch[j]].availableAt <= t[batch[k]].availableAt)
    && (forall id: nat :: Due(t, id, now) && id !in batch ==>
          |batch| == limit && forall k :: 0 <= k < |batch| ==> t[batch[k]].availableAt <= t[id].availableAt)
  }

  function Read(t: Table, ids: seq<nat>): seq<Message>
    requires forall k :: 0 <= k < |ids| ==> ids[k] < |t|
  {
    seq(|ids|, k requires 0 <= k < |ids| => Message(ids[k], t[ids[k]]))
  }

  /** What calling a handler may do; Escaped is any exception run_once does not catch. */
  datatype Reply = Returned | Refused(error: string) | Escaped

  /** The table after one message of a batch has been dealt with. */
  function Handled(t: Table, registered: set<string>, m: Message, reply: Reply, now: int): Table {
    if m.row.destination !in registered then
      WithFailed(t, m.id, "destination has no registered handler", MAXIMUM_ATTEMPTS, now)
    else match reply
      case Returned => WithDelivered(t, m.id)
      case Refused(error) => WithFailed(t, m.id, error, m.row.attempts + 1, now)
      case Escaped => t
  }

  predicate Escapes(registered: set<string>, m: Message, reply: Reply) {
    m.row.destination in registered && reply.Escaped?
  }

  class IntegrationOutbox {
    var rows: Table

    constructor ()
      ensures rows == []
    {
      rows := [];
    }

    /** Enqueueing under a known key returns the message already there and changes nothing. */
    method Enqueue(destination: string, key: string, payload: string, now: int) returns (id: nat)
      modifies this
      ensures rows == WithEnqueued(old(rows), destination, key, payload, now)
      ensures id < |rows| && rows[id].idempotencyKey == key
      ensures HasKey(old(rows), key) ==> id < |old(rows)| && forall i :: 0 <= i < id ==>
                old(rows)[i].idempotencyKey != key
    {
      for i := 0 to |rows|
        invariant rows == old(rows) && forall k :: 0 <= k < i ==> rows[k].idempotencyKey != key
      {
        if rows[i].idempotencyKey == key {
          return i;
        }
      }
      id := |rows|;
      rows := rows + [Row(destination, key, payload, Pending, 0, now, "")];
    }

    /** The query's answer: the earliest due rows, at most `limit` of them. */
    method PendingBatch(limit: nat, now: int) returns (messages: seq<Message>, ghost ids: seq<nat>)
      ensures IsBatch(rows, now, limit, ids) && messages == Read(rows, ids)
    {
      messages, ids := [], [];
      var taken := {};
      while |messages| < limit
        invariant |messages| == |ids| <= limit && taken == Elems(ids)
        invariant Distinct(ids) && forall k :: 0 <= k < |ids| ==>
                    Due(rows, ids[k], now) && messages[k] == Message(ids[k], rows[ids[k]])
        invariant forall j, k :: 0 <= j < k < |ids| ==> rows[ids[j]].availableAt <= rows[ids[k]].availableAt
        invariant forall id: nat, k :: Due(rows, id, now) && id !in ids && 0 <= k < |ids| ==>
                    rows[ids[k]].availableAt <= rows[id].availableAt
        decreases limit - |messages|
      {
        var next := Earliest(rows, now, taken);
        if next.None? {
          return;
        }
        ElemsConcat(ids, [next.value]);
        messages, ids := messages + [Message(next.value, rows[next.value])], ids + [next.value];
        taken := taken + {next.value};
      }
    }

    method Delivered(id: nat)
      modifies this
      ensures rows == WithDelivered(old(rows), id)
    {
      if id < |rows| {
        rows := rows[id := rows[id].(status := Status.Delivered)];
      }
    }

    method Failed(id: nat, error: string, attempts: nat, now: int)
      modifies this
      ensures rows == WithFailed(old(rows), id, error, attempts, now)
    {
      var terminal := attempts >= MAXIMUM_ATTEMPTS;
      if id < |rows| {
        rows := rows[id := rows[id].(status := if terminal then DeadLetter else Pending, attempts := attempts,
                                     availableAt := now + Backoff(attempts), lastError := Clip(error))];
      }
    }
  }

  method Earliest(t: Table, now: int, taken: set<nat>) returns (best: Option<nat>)
    ensures best.None? ==> forall id: nat :: Due(t, id, now) ==> id in taken
    ensures best.Some? ==> Due(t, best.value, now) && best.value !in taken
    ensures best.Some? ==> forall id: nat :: Due(t, id, now) && id !in taken ==>
              t[best.value].availableAt <= t[id].availableAt
  {
    best := None;
    for i := 0 to |t|
      invariant best.None? ==> forall id: nat :: Due(t, id, now) && id < i ==> id in taken
      invariant best.Some? ==> Due(t, best.value, now) && best.value !in taken
      invariant best.Some? ==> forall id: nat :: Due(t, id, now) && id < i && id !in taken ==>
                  t[best.value].availableAt <= t[id].availableAt
    {
      if Due(t, i, now) && i !in taken && (best.None? || t[i].availableAt < t[best.value].availableAt) {
        best := Some(i);
      }
    }
  }
}

/** One pass over the outbox: read a batch, call each message's handler, record the outcome. */
module Dispatcher {
  import opened Common
  import opened Outbox

  datatype DispatchResult = DispatchResult(delivered: nat, failed: nat, deadLettered: nat)

  /** What the handler of the k-th message does, and when its outcome is recorded. */
  datatype Answer = Answer(reply: Reply, time: int)

  function At(answers: seq<Answer>, k: nat): Answer {
    if k < |answers| then answers[k] else Answer(Returned, 0)
  }

  /** The table after the first n messages of a batch, one by one. */
  ghost function HandledAll(t: Table, registered: set<string>, ms: seq<Message>, n: nat, answers: seq<Answer>): Table
    requires n <= |ms|
  {
    if n == 0 then t
    else Handled(HandledAll(t, registered, ms, n - 1, answers), registered, ms[n - 1], At(answers, n - 1).reply,
         At(answers, n - 1).time)
  }

  /** How many of the first n ids have a given status. */
  ghost function CountStatus(t: Table, ids: seq<nat>, n: nat, status: Status): nat
    requires n <= |ids|
  {
    if n == 0 then 0
    else CountStatus(t, ids, n - 1, status) + (if ids[n - 1] < |t| && t[ids[n - 1]].status == status then 1 else 0)
  }

  lemma {:induction false} CountStatusAgrees(t: Table, t': Table, ids: seq<nat>, n: nat, status: Status)
    requires n <= |ids| && |t| == |t'| && forall k :: 0 <= k < n && ids[k] < |t| ==> t[ids[k]] == t'[ids[k]]
    ensures CountStatus(t, ids, n, status) == CountStatus(t', ids, n, status)
  {
    if n != 0 {
      CountStatusAgrees(t, t', ids, n - 1, status);
    }
  }

  /** Handling message i of a batch writes its row alone, and so adds one to its new status's count. */
  lemma HandledCounts(t: Table, registered: set<string>, m: Message, reply: Reply, now: int, ids: seq<nat>, i: nat)
    requires Distinct(ids) && i < |ids| && ids[i] == m.id < |t|
    ensures var t' := Handled(t, registered, m, reply, now);
            && |t'| == |t|
            && (forall k :: 0 <= k < |t| && k != m.id ==> t'[k] == t[k])
            && forall status :: CountStatus(t', ids, i + 1, status) ==
                                CountStatus(t, ids, i, status) + (if t'[m.id].status == status then 1 else 0)
  {
    var t' := Handled(t, registered, m, reply, now);
    forall status
      ensures CountStatus(t', ids, i + 1, status) == CountStatus(t, ids, i, status)
              + (if t'[m.id].status == status then 1 else 0)
    {
      CountStatusAgrees(t, t', ids, i, status);
    }
  }

  /** The three counters are what became of the first n messages of `ids`. */
  ghost predicate Tallied(t: Table, ids: seq<nat>, n: nat, r: DispatchResult)
    requires n <= |ids|
  {
    && r.delivered == CountStatus(t, ids, n, Status.Delivered)
    && r.failed == CountStatus(t, ids, n, Pending)
    && r.deadLettered == CountStatus(t, ids, n, DeadLetter)
    && r.delivered + r.failed + r.deadLettered == n
  }

  ghost function Counted(r: DispatchResult, status: Status): DispatchResult {
    match status
    case Delivered => r.(delivered := r.delivered + 1)
    case Pending => r.(failed := r.failed + 1)
    case DeadLetter => r.(deadLettered := r.deadLettered + 1)
  }

  ghost predicate Unescaped(registered: set<string>, ms: seq<Message>, n: nat, answers: seq<Answer>)
    requires n <= |ms|
  {
    forall k :: 0 <= k < n ==> !Escapes(registered, ms[k], At(answers, k).reply)
  }

  /** The first i messages of a batch read from t0 have been handled, and counted in r. */
  ghost predicate Progress(t0: Table, t: Table, registered: set<string>, ids: seq<nat>, i: nat, answers: seq<Answer>,
      r: DispatchResult) {
    && i <= |ids| && |t| == |t0| && Distinct(ids) && (forall k :: 0 <= k < |ids| ==> ids[k] < |t0|)
    && t == HandledAll(t0, registered, Read(t0, ids), i, answers)
    && Unescaped(registered, Read(t0, ids), i, answers)
    && Tallied(t, ids, i, r)
  }

  lemma ProgressStep(t0: Table, t: Table, registered: set<string>, ids: seq<nat>, i: nat, answers: seq<Answer>,
      r: DispatchResult)
    requires Progress(t0, t, registered, ids, i, answers, r) && i < |ids|
    requires !Escapes(registered, Read(t0, ids)[i], At(answers, i).reply)
    ensures var t' := Handled(t, registered, Read(t0, ids)[i], At(answers, i).reply, At(answers, i).time);
            |t'| == |t| && Progress(t0, t', registered, ids, i + 1, answers, Counted(r, t'[ids[i]].status))
  {
    HandledCounts(t, registered, Read(t0, ids)[i], At(answers, i).reply, At(answers, i).time, ids, i);
  }

  class OutboxDispatcher {
    const outbox: IntegrationOutbox
    const registered: set<string>

    constructor (outbox: IntegrationOutbox, registered: set<string>)
      ensures this.outbox == outbox && this.registered == registered
    {
      this.outbox, this.registered := outbox, registered;
    }

    /** The body of the batch loop: the status the message now has, or None when an exception escapes. */
    method Dispatch(message: Message, reply: Reply, now: int) returns (fate: Option<Status>)
      requires message.id < |outbox.rows|
      modifies outbox
      ensures outbox.rows == Handled(old(outbox.rows), registered, message, reply, now)
      ensures |outbox.rows| == |old(outbox.rows)|
      ensures fate == if Escapes(registered, message, reply) then None else Some(outbox.rows[message.id].status)
    {
      if message.row.destination !in registered {
        outbox.Failed(message.id, "destination has no registered handler", MAXIMUM_ATTEMPTS, now);
        return Some(DeadLetter);
      }
      match reply {
        case Returned =>
          outbox.Delivered(message.id);
          fate := Some(Status.Delivered);
        case Refused(error) =>
          var attempts := message.row.attempts + 1;
          outbox.Failed(message.id, error, attempts, now);
          fate := Some(if attempts >= MAXIMUM_ATTEMPTS then DeadLetter else Pending);
        case Escaped =>
          fate := None;
      }
    }

    /** Message i of the batch: None when its handler's exception escapes, else its fate, to be counted. */
    method DispatchNext(ghost t0: Table, ghost ids: seq<nat>, ghost answers: seq<Answer>, ghost r: DispatchResult,
                        i: nat, message: Message, answer: Answer) returns (fate: Option<Status>)
      requires Progress(t0, outbox.rows, registered, ids, i, answers, r) && i < |ids|
      requires message == Read(t0, ids)[i] && answer == At(answers, i)
      modifies outbox
      ensures fate.None? <==> Escapes(registered, message, answer.reply)
      ensures fate.None? ==> outbox.rows == old(outbox.rows)
      ensures fate.Some? ==> Progress(t0, outbox.rows, registered, ids, i + 1, answers, Counted(r, fate.value))
    {
      if !Escapes(registered, message, answer.reply) {
        ProgressStep(t0, outbox.rows, registered, ids, i, answers, r);
      }
      fate := Dispatch(message, answer.reply, answer.time);
    }

    /** The batch loop. */
    method DispatchAll(ghost t0: Table, ghost ids: seq<nat>, batch: seq<Message>, answers: seq<Answer>)
      returns (r: Result<DispatchResult, string>, ghost handled: nat)
      requires Progress(t0, outbox.rows, registered, ids, 0, answers, DispatchResult(0, 0, 0)) && batch == Read(t0, ids)
      modifies outbox
      ensures handled <= |ids| && (r.Success? <==> handled == |ids|)
      ensures exists counts :: Progress(t0, outbox.rows, registered, ids, handled, answers, counts)
                               && (r.Success? ==> r.value == counts)
      ensures r.Failure? ==> Escapes(registered, batch[handled], At(answers, handled).reply)
    {
      var delivered, failed, deadLettered := 0, 0, 0;
      for i := 0 to |batch|
        invariant Progress(t0, outbox.rows, registered, ids, i, answers,
                  DispatchResult(delivered, failed, deadLettered))
      {
        var fate := DispatchNext(t0, ids, answers, DispatchResult(delivered, failed, deadLettered), i, batch[i],
            At(answers, i));
        match fate {
          case None => return Failure("handler exception"), i;
          case Some(Delivered) => delivered := delivered + 1;
          case Some(Pending) => failed := failed + 1;
          case Some(DeadLetter) => deadLettered := deadLettered + 1;
        }
      }
      return Success(DispatchResult(delivered, failed, deadLettered)), |ids|;
    }

    /**
     The k-th message of the batch is answered by the k-th answer. The first `handled` messages are
     dealt with, all of them unless an exception escapes, and the counters are what became of them.
     */
    method RunOnce(limit: nat, now: int, answers: seq<Answer>)
      returns (r: Result<DispatchResult, string>, ghost ids: seq<nat>, ghost handled: nat)
      modifies outbox
      ensures IsBatch(old(outbox.rows), now, limit, ids) && handled <= |ids|
      ensures var ms := Read(old(outbox.rows), ids);
              && outbox.rows == HandledAll(old(outbox.rows), registered, ms, handled, answers)
              && Unescaped(registered, ms, handled, answers)
              && (handled < |ids| ==> Escapes(registered, ms[handled], At(answers, handled).reply))
      ensures r.Success? <==> handled == |ids|
      ensures r.Success? ==> Tallied(outbox.rows, ids, |ids|, r.value)
    {
      var batch;
      batch, ids := outbox.PendingBatch(limit, now);
      r, handled := DispatchAll(outbox.rows, ids, batch, answers);
    }
  }
}
