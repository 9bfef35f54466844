/**
 The decision engine: a primary provider behind a circuit breaker and a bounded cache, with a
 fallback provider whose outputs are validated but never cached.
 */
module DecisionEngine {
  import opened Common
  import opened Recency
  import opened OrderedDicts

  datatype DecisionType = Choice | Score | Probability

  datatype Question = Question(id: string, version: string, decisionType: DecisionType, requiredState: seq<string>,
                               options: seq<string>, minimumScore: real, maximumScore: real,
                               confidenceThreshold: real, cacheable: bool)

  datatype Value = Text(text: string) | Number(number: real)

  datatype Output = Output(value: Value, confidence: real, probabilities: seq<(string, real)>, rationale: string)

  type Fields = map<string, string>

  /** The cache key with its digests taken as injective: the engine's own versions are fixed. */
  datatype Key = Key(fields: Fields, question: Question)

  datatype Disposition = Accepted | UsedFallback | HumanReview

  /** A decision record without its random id and timestamp. */
  datatype Record = Record(key: Key, fromFallback: bool, output: Output, disposition: Disposition)

  datatype Outcome = Decided(record: Record) | MissingState(fields: set<string>) | FallbackRaised

  datatype Reply = Raises | Returns(output: Output)

  function SumOfProbabilities(p: seq<(string, real)>): real {
    if p == [] then 0.0 else p[0].1 + SumOfProbabilities(p[1..])
  }

  function Names(p: seq<(string, real)>): set<string> {
    set i | 0 <= i < |p| :: p[i].0
  }

  /** `_validate` raises nothing. */
  predicate Acceptable(o: Output, q: Question) {
    match q.decisionType
    case Choice =>
      var total := SumOfProbabilities(o.probabilities);
      && o.value.Text? && o.value.text in q.options
      && (o.probabilities != [] ==>
            && Names(o.probabilities) == (set option | option in q.options)
            && (forall i :: 0 <= i < |o.probabilities| ==> 0.0 <= o.probabilities[i].1 <= 1.0)
            && -0.001 <= total - 1.0 <= 0.001)
    case Probability => o.value.Number? && 0.0 <= o.value.number <= 1.0
    case Score => o.value.Number? && q.minimumScore <= o.value.number <= q.maximumScore
  }

  predicate Succeeds(r: Reply, q: Question) {
    r.Returns? && Acceptable(r.output, q)
  }

  function Missing(fields: Fields, q: Question): set<string> {
    set name | name in q.requiredState && name !in fields
  }

  /** The breaker's fields as a value; times are clock ticks. */
  datatype Breaker = Breaker(failures: int, openedAt: Option<int>)

  function Allow(b: Breaker, reset: int, now: int): (bool, Breaker) {
    match b.openedAt
    case None => (true, b)
    case Some(t) => if now - t >= reset then (true, Breaker(0, None)) else (false, b)
  }

  function Fail(b: Breaker, threshold: int, now: int): Breaker {
    Breaker(b.failures + 1, if b.failures + 1 >= threshold then Some(now) else b.openedAt)
  }

  class CircuitBreaker {
    const threshold: int
    const reset: int
    var failures: int
    var openedAt: Option<int>

    constructor (threshold: int, reset: int)
      ensures this.threshold == threshold && this.reset == reset && Abs() == Breaker(0, None)
    {
      this.threshold, this.reset := threshold, reset;
      failures, openedAt := 0, None;
    }

    function Abs(): Breaker
      reads this
    {
      Breaker(failures, openedAt)
    }

    method Allows(now: int) returns (allowed: bool)
      modifies this
      ensures (allowed, Abs()) == Allow(old(Abs()), reset, now)
    {
      if openedAt.None? {
        return true;
      }
      if now - openedAt.value >= reset {
        failures, openedAt := 0, None;
        return true;
      }
      return false;
    }

    method Success()
      modifies this
      ensures Abs() == Breaker(0, None)
    {
      failures, openedAt := 0, None;
    }

    method Failure(now: int)
      modifies this
      ensures Abs() == Fail(old(Abs()), threshold, now)
    {
      failures := failures + 1;
      if failures >= threshold {
        openedAt := Some(now);
      }
    }
  }

  /** What the providers do, and what the clock shows, if this evaluation gets to asking them. */
  datatype Call = Call(allowAt: int, primary: Reply, failAt: int, fallback: Reply)

  datatype Config = Config(capacity: nat, threshold: int, reset: int)

  datatype Engine = Engine(cache: OrderedDict<Key, Output>, breaker: Breaker)

  function Decide(key: Key, fromFallback: bool, o: Output): Outcome {
    Decided(Record(key, fromFallback, o,
                   if o.confidence < key.question.confidenceThreshold then HumanReview
                   else if fromFallback then UsedFallback else Accepted))
  }

  function FallBack(key: Key, reply: Reply): Outcome {
    if Succeeds(reply, key.question) then Decide(key, true, reply.output) else FallbackRaised
  }

  predicate Asked(c: Config, e: Engine, key: Key, call: Call) {
    && Missing(key.fields, key.question) == {}
    && !(key.question.cacheable && key in e.cache.entries)
    && Allow(e.breaker, c.reset, call.allowAt).0
  }

  /** One evaluation, as a function of the engine's state and the providers' replies. */
  ghost function Evaluated(c: Config, e: Engine, key: Key, call: Call): (r: (Engine, Outcome))
    requires e.cache.WellFormed()
    ensures r.0.cache.WellFormed()
  {
    var q := key.question;
    if Missing(key.fields, q) != {} then (e, MissingState(Missing(key.fields, q)))
    else if q.cacheable && key in e.cache.entries then
      (e.(cache := e.cache.MoveToEnd(key)), Decide(key, false, e.cache.entries[key]))
    else
      var (allowed, breaker) := Allow(e.breaker, c.reset, call.allowAt);
      if !allowed then (e.(breaker := breaker), FallBack(key, call.fallback))
      else if !Succeeds(call.primary, q) then
        (e.(breaker := Fail(breaker, c.threshold, call.failAt)), FallBack(key, call.fallback))
      else
        (Engine(if q.cacheable then Stored(e.cache, key, call.primary.output, c.capacity) else e.cache,
                                    Breaker(0, None)),
         Decide(key, false, call.primary.output))
  }

  ghost function Stored(d: OrderedDict<Key, Output>, key: Key, o: Output, capacity: nat): (r: OrderedDict<Key, Output>)
    requires d.WellFormed()
    ensures r.WellFormed()
  {
    Truncated(d.Set(key, o), capacity)
  }

  /** The newest `capacity` keys with their values. */
  ghost function Truncated(d: OrderedDict<Key, Output>, capacity: nat): (r: OrderedDict<Key, Output>)
    requires d.WellFormed()
    ensures r.WellFormed() && r.order == Newest(d.order, capacity)
  {
    var kept := Newest(d.order, capacity);
    NewestDistinct(d.order, capacity);
    assert forall k :: k in kept ==> k in Elems(d.order);
    var r := OrderedDict(kept, map k | k in kept :: d.entries[k]);
    assert r.entries.Keys == Elems(kept);
    r
  }

  lemma TruncatedUnique(d: OrderedDict<Key, Output>, capacity: nat, r: OrderedDict<Key, Output>)
    requires d.WellFormed() && r.WellFormed() && r.order == Newest(d.order, capacity)
    requires forall k :: k in r.entries ==> k in d.entries && r.entries[k] == d.entries[k]
    ensures r == Truncated(d, capacity)
  {
    assert r.entries.Keys == Truncated(d, capacity).entries.Keys;
  }

  class Evaluator {
    const capacity: nat
    const breaker: CircuitBreaker
    var cache: OrderedDict<Key, Output>

    ghost function Configuration(): Config {
      Config(capacity, breaker.threshold, breaker.reset)
    }

    ghost function Abs(): Engine
      reads this, breaker
    {
      Engine(cache, breaker.Abs())
    }

    constructor (capacity: nat, breaker: CircuitBreaker)
      ensures this.capacity == capacity && this.breaker == breaker
      ensures cache == OrderedDict([], map[]) && cache.WellFormed()
    {
      this.capacity, this.breaker := capacity, breaker;
      cache := OrderedDict([], map[]);
    }

    method AskFallback(key: Key, reply: Reply) returns (outcome: Outcome)
      ensures outcome == FallBack(key, reply)
    {
      if reply.Returns? && Acceptable(reply.output, key.question) {
        return Decide(key, true, reply.output);
      }
      return FallbackRaised;
    }

    method AskPrimary(key: Key, call: Call) returns (outcome: Outcome)
      requires cache.WellFormed()
      modifies this, breaker
      ensures cache.WellFormed()
      ensures var (allowed, b) := Allow(old(breaker.Abs()), breaker.reset, call.allowAt);
              if !allowed then
                cache == old(cache) && breaker.Abs() == b && outcome == FallBack(key, call.fallback)
              else if !Succeeds(call.primary, key.question) then
                cache == old(cache) && breaker.Abs() == Fail(b, breaker.threshold, call.failAt)
                    && outcome == FallBack(key, call.fallback)
              else
                && cache == (if key.question.cacheable then Stored(old(cache), key, call.primary.output, capacity)
                   else old(cache))
                && breaker.Abs() == Breaker(0, None) && outcome == Decide(key, false, call.primary.output)
    {
      var allowed := breaker.Allows(call.allowAt);
      if !allowed {
        outcome := AskFallback(key, call.fallback);
        return;
      }
      if !Succeeds(call.primary, key.question) {
        breaker.Failure(call.failAt);
        outcome := AskFallback(key, call.fallback);
        return;
      }
      breaker.Success();
      outcome := Decide(key, false, call.primary.output);
      if key.question.cacheable {
        ghost var full := cache.Set(key, call.primary.output);
        cache := cache.Set(key, call.primary.output);
        cache := EvictOldest(cache, capacity);
        TruncatedUnique(full, capacity, cache);
      }
    }

    method Evaluate(key: Key, call: Call) returns (outcome: Outcome)
      requires cache.WellFormed()
      modifies this, breaker
      ensures cache.WellFormed()
      ensures (Abs(), outcome) == Evaluated(Configuration(), old(Abs()), key, call)
    {
      var missing := Missing(key.fields, key.question);
      if missing != {} {
        return MissingState(missing);
      }
      if key.question.cacheable && key in cache.entries {
        outcome := Decide(key, false, cache.entries[key]);
        cache := cache.MoveToEnd(key);
        return;
      }
      outcome := AskPrimary(key, call);
    }
  }
}
