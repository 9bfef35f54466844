/**
 The idempotency window of the scoring endpoint: a locked, insertion-ordered map from event id to
 response that moves hits to the end and evicts its oldest id.
 */
module Banking {
  import opened Common
  import opened Recency
  import opened OrderedDicts

  datatype Transaction = Transaction(eventId: string, fields: map<string, string>)

  datatype Decision = Approve | Review | Decline

  /** What the scoring rules make of a transaction. */
  datatype Scored = Scored(decision: Decision, score: real, reasons: seq<string>)

  datatype Response = Response(eventId: string, decision: Decision, riskScore: real, reasons: seq<string>,
      duplicate: bool)

  function Fresh(scorer: Transaction -> Scored, t: Transaction): Response {
    var s := scorer(t);
    Response(t.eventId, s.decision, s.score, s.reasons, false)
  }

  ghost function Ids(requests: seq<Transaction>): seq<string> {
    seq(|requests|, i requires 0 <= i < |requests| => requests[i].eventId)
  }

  /** The window a configured size gives: a size below one remembers nothing. */
  function Window(size: int): nat {
    if size < 0 then 0 else size
  }

  /** What the request sequence promises for its last request, without any map. */
  ghost function Reply(scorer: Transaction -> Scored, window: nat, requests: seq<Transaction>): Response
    requires requests != []
    decreases |requests|
  {
    var n := |requests| - 1;
    var earlier, t := requests[..n], requests[n];
    if WithinDistance(Ids(earlier), t.eventId, window)
    then Reply(scorer, window, earlier[..LastIndex(Ids(earlier), t.eventId) + 1]).(duplicate := true)
    else Fresh(scorer, t)
  }

  /** The response a window keeps for an id it has seen: its latest reply, unmarked. */
  ghost function Stored(scorer: Transaction -> Scored, window: nat, requests: seq<Transaction>, id: string): Response
    requires id in Ids(requests)
  {
    Reply(scorer, window, requests[..LastIndex(Ids(requests), id) + 1]).(duplicate := false)
  }

  ghost predicate Consistent(scorer: Transaction -> Scored, window: nat, requests: seq<Transaction>,
      entries: map<string, Response>) {
    forall id :: id in entries ==> id in Ids(requests) && entries[id] == Stored(scorer, window, requests, id)
  }

  /** The map holds the newest ids in order of their last request, each with its response. */
  ghost predicate Holds(scorer: Transaction -> Scored, w: nat, requests: seq<Transaction>,
      seen: OrderedDict<string, Response>) {
    && seen.WellFormed() && seen.order == Newest(ByLastTouch(Ids(requests)), w)
    && Consistent(scorer, w, requests, seen.entries)
  }

  lemma OrderStep(requests: seq<Transaction>, t: Transaction, w: nat)
    ensures Ids(requests + [t]) == Ids(requests) + [t.eventId]
    ensures Distinct(Newest(ByLastTouch(Ids(requests)), w))
    ensures Newest(ByLastTouch(Ids(requests + [t])), w)
            == Newest(Touch(Newest(ByLastTouch(Ids(requests)), w), t.eventId), w)
  {
    var ids := Ids(requests);
    assert Ids(requests + [t]) == ids + [t.eventId];
    AppendTouch(ids, t.eventId, w);
  }

  lemma StoredStep(scorer: Transaction -> Scored, w: nat, requests: seq<Transaction>, t: Transaction, id: string)
    requires id in Ids(requests) || id == t.eventId
    ensures id in Ids(requests + [t])
    ensures Stored(scorer, w, requests + [t], id) ==
            if id == t.eventId then Reply(scorer, w, requests + [t]).(duplicate := false)
                                    else Stored(scorer, w, requests, id)
  {
    var all := requests + [t];
    assert Ids(all) == Ids(requests) + [t.eventId];
    LastIndexStep(Ids(requests), t.eventId, id);
    if id == t.eventId {
      assert all[..|requests| + 1] == all;
    } else {
      var i := LastIndex(Ids(requests), id);
      assert all[..i + 1] == requests[..i + 1];
    }
  }

  lemma ReplyStep(scorer: Transaction -> Scored, w: nat, requests: seq<Transaction>, t: Transaction)
    ensures Reply(scorer, w, requests + [t]) ==
            if WithinDistance(Ids(requests), t.eventId, w)
                then Stored(scorer, w, requests, t.eventId).(duplicate := true)
            else Fresh(scorer, t)
  {
    assert (requests + [t])[..|requests|] == requests;
  }

  lemma EntriesStep(scorer: Transaction -> Scored, w: nat, requests: seq<Transaction>, t: Transaction,
      entries: map<string, Response>)
    requires Consistent(scorer, w, requests, entries)
    requires t.eventId in entries <==> WithinDistance(Ids(requests), t.eventId, w)
    ensures var reply := Reply(scorer, w, requests + [t]);
            if t.eventId in entries
            then reply == entries[t.eventId].(duplicate := true) && Consistent(scorer, w, requests + [t], entries)
            else reply == Fresh(scorer, t) && Consistent(scorer, w, requests + [t], entries[t.eventId := reply])
  {
    ReplyStep(scorer, w, requests, t);
    forall id | id in entries || id == t.eventId {
      StoredStep(scorer, w, requests, t, id);
    }
  }

  lemma HeldWhenWithin(scorer: Transaction -> Scored, w: nat, requests: seq<Transaction>, t: Transaction,
      seen: OrderedDict<string, Response>)
    requires Holds(scorer, w, requests, seen)
    ensures t.eventId in seen.entries <==> WithinDistance(Ids(requests), t.eventId, w)
  {
    StackDistance(Ids(requests), t.eventId, w);
    assert t.eventId in seen.entries <==> t.eventId in Elems(seen.order);
  }

  lemma RepeatKeeps(scorer: Transaction -> Scored, w: nat, requests: seq<Transaction>, t: Transaction,
      seen: OrderedDict<string, Response>)
    requires Holds(scorer, w, requests, seen) && t.eventId in seen.entries
    ensures Holds(scorer, w, requests + [t], seen.MoveToEnd(t.eventId))
    ensures Reply(scorer, w, requests + [t]) == seen.entries[t.eventId].(duplicate := true)
  {
    HeldWhenWithin(scorer, w, requests, t, seen);
    OrderStep(requests, t, w);
    EntriesStep(scorer, w, requests, t, seen.entries);
    assert t.eventId in seen.order by { assert t.eventId in Elems(seen.order); }
    TouchDistinct(seen.order, t.eventId);
  }

  lemma FreshKeeps(scorer: Transaction -> Scored, w: nat, requests: seq<Transaction>, t: Transaction,
      seen: OrderedDict<string, Response>, r: OrderedDict<string, Response>)
    requires Holds(scorer, w, requests, seen) && t.eventId !in seen.entries
    requires r.WellFormed() && r.order == Newest(Touch(seen.order, t.eventId), w)
    requires var all := seen.entries[t.eventId := Fresh(scorer, t)];
             forall k :: k in r.entries ==> k in all && r.entries[k] == all[k]
    ensures Holds(scorer, w, requests + [t], r) && Reply(scorer, w, requests + [t]) == Fresh(scorer, t)
  {
    HeldWhenWithin(scorer, w, requests, t, seen);
    OrderStep(requests, t, w);
    EntriesStep(scorer, w, requests, t, seen.entries);
  }

  lemma WindowAfterInsert(order: seq<string>, id: string, w: nat)
    requires id !in order && |order| <= w
    ensures Newest(Touch(order, id), w) == if |order| < w then order + [id] else (order + [id])[1..]
  {
    WithoutAbsent(order, id);
  }

  /** Insert a new id, then drop the oldest one if that is one too many. */
  method Remember(seen: OrderedDict<string, Response>, id: string, response: Response, size: int)
    returns (r: OrderedDict<string, Response>)
    requires seen.WellFormed() && id !in seen.entries && |seen.order| <= Window(size)
    ensures r.WellFormed() && r.order == Newest(Touch(seen.order, id), Window(size))
    ensures forall k :: k in r.entries ==> k in seen.entries[id := response]
                                           && r.entries[k] == seen.entries[id := response][k]
  {
    assert id !in seen.order by { assert id !in Elems(seen.order); }
    WindowAfterInsert(seen.order, id, Window(size));
    r := seen.Set(id, response);
    if |r.order| > size {
      r := r.PopOldest();
    }
  }

  class IdempotencyWindow {
    const size: int
    const scorer: Transaction -> Scored
    var seen: OrderedDict<string, Response>
    ghost var requests: seq<Transaction>

    ghost predicate Valid()
      reads this
    {
      Holds(scorer, Window(size), requests, seen)
    }

    constructor (size: int, scorer: Transaction -> Scored)
      ensures Valid() && this.size == size && this.scorer == scorer && requests == []
    {
      this.size, this.scorer := size, scorer;
      seen, requests := OrderedDict([], map[]), [];
    }

    method ScoreTransaction(t: Transaction) returns (response: Response)
      requires Valid()
      modifies this
      ensures Valid() && requests == old(requests) + [t]
      ensures response == Reply(scorer, Window(size), requests)
      ensures |seen.order| <= Window(size)
    {
      var previous := seen.Get(t.eventId);
      if previous.Some? {
        RepeatKeeps(scorer, Window(size), requests, t, seen);
        seen := seen.MoveToEnd(t.eventId);
        response := previous.value.(duplicate := true);
      } else {
        response := Fresh(scorer, t);
        ghost var before := seen;
        seen := Remember(seen, t.eventId, response, size);
        FreshKeeps(scorer, Window(size), requests, t, before, seen);
      }
      requests := requests + [t];
    }
  }

  /** Positions i and j hold the same id, and j is answered from what i left in the window. */
  ghost predicate RepeatOf(requests: seq<Transaction>, i: nat, j: nat, w: nat) {
    && i < j < |requests| && requests[i].eventId == requests[j].eventId
    && requests[i].eventId !in Ids(requests[i + 1..j])
    && DistinctCount(Ids(requests[i + 1..j])) < w
  }

  /**
   The promise: an event id repeated before `window` other ids have intervened gets its earlier
   answer back, marked duplicate, whatever the other fields of the repeat say.
   */
  lemma RepeatWithinWindow(scorer: Transaction -> Scored, w: nat, requests: seq<Transaction>, i: nat, j: nat)
    requires RepeatOf(requests, i, j, w)
    ensures Reply(scorer, w, requests[..j + 1]) == Reply(scorer, w, requests[..i + 1]).(duplicate := true)
  {
    var before, t := requests[..j], requests[j];
    assert requests[..j + 1] == before + [t];
    assert Ids(before)[i + 1..] == Ids(requests[i + 1..j]);
    LastTouchUnique(Ids(before), t.eventId, i);
    ReplyStep(scorer, w, before, t);
    assert before[..i + 1] == requests[..i + 1];
  }

  /** The k-th listed position repeats the one before it. */
  ghost predicate RepeatsAt(requests: seq<Transaction>, at: seq<nat>, w: nat, k: nat)
    requires 0 < k < |at|
  {
    RepeatOf(requests, at[k - 1], at[k], w)
  }

  ghost function ReplyAt(scorer: Transaction -> Scored, w: nat, requests: seq<Transaction>, j: nat): Response
    requires j < |requests|
  {
    Reply(scorer, w, requests[..j + 1])
  }

  /** The k-th answer is the one before it, marked. */
  ghost predicate MarkedAt(answers: seq<Response>, k: nat)
    requires 0 < k < |answers|
  {
    answers[k] == answers[k - 1].(duplicate := true)
  }

  lemma {:induction false} MarkedAfterFirst(answers: seq<Response>, n: nat)
    requires n < |answers| && !answers[0].duplicate
    requires forall k: nat :: 0 < k < |answers| ==> MarkedAt(answers, k)
    ensures answers[n] == answers[0].(duplicate := n > 0)
  {
    if n > 0 {
      MarkedAfterFirst(answers, n - 1);
      assert MarkedAt(answers, n);
    }
  }

  lemma RepeatIsMarked(scorer: Transaction -> Scored, w: nat, requests: seq<Transaction>, at: seq<nat>,
      answers: seq<Response>, k: nat)
    requires 0 < k < |at| == |answers| && RepeatsAt(requests, at, w, k)
    requires answers[k - 1] == ReplyAt(scorer, w, requests, at[k - 1])
             && answers[k] == ReplyAt(scorer, w, requests, at[k])
    ensures MarkedAt(answers, k)
  {
    RepeatWithinWindow(scorer, w, requests, at[k - 1], at[k]);
  }

  /** A chain of such repeats keeps the decision, score and reasons of the first scoring. */
  lemma RepeatsKeepTheFirstAnswer(scorer: Transaction -> Scored, w: nat, requests: seq<Transaction>, at: seq<nat>,
      n: nat)
    requires n < |at| && (forall k :: 0 <= k < |at| ==> at[k] < |requests|)
    requires forall k: nat :: 0 < k < |at| ==> RepeatsAt(requests, at, w, k)
    requires ReplyAt(scorer, w, requests, at[0]) == Fresh(scorer, requests[at[0]])
    ensures ReplyAt(scorer, w, requests, at[n]) == Fresh(scorer, requests[at[0]]).(duplicate := n > 0)
  {
    var answers := seq(|at|, k requires 0 <= k < |at| && at[k] < |requests| => ReplyAt(scorer, w, requests, at[k]));
    forall k: nat | 0 < k < |at|
      ensures MarkedAt(answers, k)
    {
      RepeatIsMarked(scorer, w, requests, at, answers, k);
    }
    MarkedAfterFirst(answers, n);
  }
}
