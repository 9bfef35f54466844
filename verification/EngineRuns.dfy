/** Whole runs of the decision engine: provenance, cache transparency and the breaker's rate bound. */
module EngineRuns {
  import opened Common
  import opened Recency
  import opened OrderedDicts
  import opened DecisionEngine

  datatype Step = Step(key: Key, call: Call)

  /** The engine after n evaluations, starting with an empty cache and breaker b0. */
  ghost function After(c: Config, b0: Breaker, steps: seq<Step>, n: nat): (e: Engine)
    requires n <= |steps|
    ensures e.cache.WellFormed()
  {
    if n == 0 then Engine(OrderedDict([], map[]), b0)
    else Evaluated(c, After(c, b0, steps, n - 1), steps[n - 1].key, steps[n - 1].call).0
  }

  ghost function OutcomeOf(c: Config, b0: Breaker, steps: seq<Step>, n: nat): Outcome
    requires n < |steps|
  {
    Evaluated(c, After(c, b0, steps, n), steps[n].key, steps[n].call).1
  }

  ghost predicate AskedAt(c: Config, b0: Breaker, steps: seq<Step>, n: nat)
    requires n < |steps|
  {
    Asked(c, After(c, b0, steps, n), steps[n].key, steps[n].call)
  }

  // ---- Provenance -----------------------------------------------------------------------------

  /** Evaluation i asked the primary about `key` and got the acceptable output `o`. */
  ghost predicate AnsweredBy(c: Config, b0: Breaker, steps: seq<Step>, i: nat, key: Key, o: Output) {
    && i < |steps| && steps[i].key == key && AskedAt(c, b0, steps, i)
    && steps[i].call.primary == Returns(o) && Acceptable(o, key.question)
  }

  /** Every cached value is a validated primary output for its key; no fallback output is cached. */
  lemma {:induction false} CacheProvenance(c: Config, b0: Breaker, steps: seq<Step>, n: nat, key: Key)
    requires n <= |steps| && key in After(c, b0, steps, n).cache.entries
    ensures key.question.cacheable
    ensures exists i: nat :: i < n && AnsweredBy(c, b0, steps, i, key, After(c, b0, steps, n).cache.entries[key])
  {
    var e, e' := After(c, b0, steps, n - 1), After(c, b0, steps, n);
    var step := steps[n - 1];
    if key in e.cache.entries && e'.cache.entries[key] == e.cache.entries[key] {
      CacheProvenance(c, b0, steps, n - 1, key);
    } else {
      assert AnsweredBy(c, b0, steps, n - 1, key, e'.cache.entries[key]);
    }
  }

  /** A decision that is not the fallback's is what the primary once said of the same state and question. */
  lemma DecisionProvenance(c: Config, b0: Breaker, steps: seq<Step>, n: nat)
    requires n < |steps| && OutcomeOf(c, b0, steps, n).Decided? && !OutcomeOf(c, b0, steps, n).record.fromFallback
    ensures exists i: nat :: i <= n && AnsweredBy(c, b0, steps, i, steps[n].key,
                             OutcomeOf(c, b0, steps, n).record.output)
    ensures Acceptable(OutcomeOf(c, b0, steps, n).record.output, steps[n].key.question)
  {
    var e, key, o := After(c, b0, steps, n), steps[n].key, OutcomeOf(c, b0, steps, n).record.output;
    if key.question.cacheable && key in e.cache.entries {
      CacheProvenance(c, b0, steps, n, key);
    } else {
      assert AnsweredBy(c, b0, steps, n, key, o);
    }
  }

  // ---- The cache is a bounded recency order -----------------------------------------------------

  /** A touch is a hit, or an acceptable primary output for a cacheable question. */
  ghost predicate TouchesCache(c: Config, e: Engine, key: Key, call: Call) {
    && Missing(key.fields, key.question) == {} && key.question.cacheable
    && (key in e.cache.entries || (Asked(c, e, key, call) && Succeeds(call.primary, key.question)))
  }

  ghost function Touches(c: Config, b0: Breaker, steps: seq<Step>, n: nat): seq<Key>
    requires n <= |steps|
  {
    if n == 0 then []
    else
      var step := steps[n - 1];
      Touches(c, b0, steps, n - 1) + (if TouchesCache(c, After(c, b0, steps, n - 1), step.key, step.call)
          then [step.key] else [])
  }

  lemma CacheOrderStep(c: Config, e: Engine, key: Key, call: Call)
    requires e.cache.WellFormed() && |e.cache.order| <= c.capacity
    ensures Evaluated(c, e, key, call).0.cache.order ==
            if TouchesCache(c, e, key, call) then Newest(Touch(e.cache.order, key), c.capacity) else e.cache.order
  {
    if TouchesCache(c, e, key, call) {
      if key in e.cache.entries {
        TouchDistinct(e.cache.order, key);
      } else {
        assert key !in Elems(e.cache.order);
        WithoutAbsent(e.cache.order, key);
      }
    }
  }

  lemma CacheOrderWindow(c: Config, e: Engine, key: Key, call: Call, touches: seq<Key>)
    requires e.cache.WellFormed()
    ensures var touches' := touches + (if TouchesCache(c, e, key, call) then [key] else []);
            e.cache.order == Newest(ByLastTouch(touches), c.capacity) ==>
              Evaluated(c, e, key, call).0.cache.order == Newest(ByLastTouch(touches'), c.capacity)
  {
    if e.cache.order == Newest(ByLastTouch(touches), c.capacity) {
      CacheOrderStep(c, e, key, call);
      AppendTouch(touches, key, c.capacity);
      assert touches + [] == touches;
    }
  }

  /** The cache holds the most recently touched distinct keys, at most `capacity` of them. */
  lemma {:induction false} CacheIsRecencyOrder(c: Config, b0: Breaker, steps: seq<Step>, n: nat)
    requires n <= |steps|
    ensures After(c, b0, steps, n).cache.order == Newest(ByLastTouch(Touches(c, b0, steps, n)), c.capacity)
  {
    if n != 0 {
      CacheIsRecencyOrder(c, b0, steps, n - 1);
      var e, step := After(c, b0, steps, n - 1), steps[n - 1];
      CacheOrderWindow(c, e, step.key, step.call, Touches(c, b0, steps, n - 1));
    }
  }

  // ---- Transparency ---------------------------------------------------------------------------

  /** The primary is a function of state and question whose value is always acceptable. */
  ghost predicate Deterministic(primary: Key -> Output, steps: seq<Step>) {
    forall i :: 0 <= i < |steps| ==>
      steps[i].call.primary == Returns(primary(steps[i].key))
          && Acceptable(primary(steps[i].key), steps[i].key.question)
  }

  /** How an engine with a cache relates to one whose cache never holds anything. */
  ghost predicate Mirrors(primary: Key -> Output, cached: Engine, bare: Engine) {
    && cached.breaker.openedAt == bare.breaker.openedAt && bare.cache == OrderedDict([], map[])
    && (cached.cache.entries != map[] ==> cached.breaker.openedAt.None?)
    && forall k :: k in cached.cache.entries ==> cached.cache.entries[k] == primary(k)
  }

  lemma MirrorsStep(c: Config, primary: Key -> Output, cached: Engine, bare: Engine, key: Key, call: Call)
    requires cached.cache.WellFormed() && bare.cache.WellFormed() && Mirrors(primary, cached, bare)
    requires call.primary == Returns(primary(key)) && Acceptable(primary(key), key.question)
    ensures Evaluated(c, cached, key, call).1 == Evaluated(c.(capacity := 0), bare, key, call).1
    ensures Mirrors(primary, Evaluated(c, cached, key, call).0, Evaluated(c.(capacity := 0), bare, key, call).0)
  {
    var bare' := Evaluated(c.(capacity := 0), bare, key, call).0;
    assert bare'.cache.order == [];
    assert bare'.cache.entries.Keys == Elems(bare'.cache.order);
  }

  lemma {:induction false} MirrorsAlways(c: Config, b0: Breaker, primary: Key -> Output, steps: seq<Step>, n: nat)
    requires Deterministic(primary, steps) && n <= |steps|
    ensures Mirrors(primary, After(c, b0, steps, n), After(c.(capacity := 0), b0, steps, n))
  {
    if n != 0 {
      MirrorsAlways(c, b0, primary, steps, n - 1);
      MirrorsStep(c, primary, After(c, b0, steps, n - 1), After(c.(capacity := 0), b0, steps, n - 1), steps[n - 1].key,
          steps[n - 1].call);
    }
  }

  /**
   Caching is transparent: with a deterministic, always acceptable primary, every evaluation of
   every run has the record it would have had without a cache, whatever the breaker's first state.
   */
  lemma CachingIsTransparent(c: Config, b0: Breaker, primary: Key -> Output, steps: seq<Step>, n: nat)
    requires Deterministic(primary, steps) && n < |steps|
    ensures OutcomeOf(c, b0, steps, n) == OutcomeOf(c.(capacity := 0), b0, steps, n)
  {
    MirrorsAlways(c, b0, primary, steps, n);
    MirrorsStep(c, primary, After(c, b0, steps, n), After(c.(capacity := 0), b0, steps, n), steps[n].key,
        steps[n].call);
  }

  // ---- The circuit breaker ----------------------------------------------------------------------

  /** In every reachable state the breaker is open exactly when it has counted `threshold` failures. */
  lemma {:induction false} OpenIffThresholdReached(c: Config, steps: seq<Step>, n: nat)
    requires c.threshold >= 1 && n <= |steps|
    ensures var b := After(c, Breaker(0, None), steps, n).breaker; b.openedAt.Some? <==> b.failures >= c.threshold
    ensures After(c, Breaker(0, None), steps, n).breaker.failures >= 0
    ensures After(c, Breaker(0, None), steps, n).breaker.failures <= c.threshold
  {
    if n != 0 {
      OpenIffThresholdReached(c, steps, n - 1);
    }
  }

  /** The clock does not run backwards within an evaluation or from one to the next. */
  ghost predicate ClockAdvances(steps: seq<Step>) {
    && (forall i :: 0 <= i < |steps| ==> steps[i].call.allowAt <= steps[i].call.failAt)
    && (forall i, j :: 0 <= i < j < |steps| ==> steps[i].call.failAt <= steps[j].call.allowAt)
  }

  ghost predicate KeepsFailing(c: Config, steps: seq<Step>, from: nat, to: nat) {
    forall i :: from <= i < to && i < |steps| && AskedAt(c, Breaker(0, None), steps, i) ==>
      !Succeeds(steps[i].call.primary, steps[i].key.question)
  }

  /** How many of the evaluations from..to asked the primary. */
  ghost function CountAsked(c: Config, steps: seq<Step>, from: nat, to: nat): nat
    requires from <= to <= |steps|
  {
    if from == to then 0
    else CountAsked(c, steps, from, to - 1) + (if AskedAt(c, Breaker(0, None), steps, to - 1) then 1 else 0)
  }

  /**
   k calls since t0 with q resets waited out: while closed the failures counted since the last
   reset are at most `failures`, and while open a full threshold of them.
   */
  ghost predicate Paced(c: Config, b: Breaker, t0: int, now: int, k: nat, q: nat) {
    match b.openedAt
    case None => 0 <= b.failures < c.threshold && k <= c.threshold * q + b.failures && t0 + q * c.reset <= now
    case Some(u) => k <= c.threshold * q + c.threshold && t0 + q * c.reset <= u <= now
  }

  /** `calls` were made over `span` ticks in which q resets were waited out. */
  ghost predicate WithinPace(c: Config, calls: int, span: int, q: int) {
    q * c.reset <= span && calls <= c.threshold * q + c.threshold
  }

  /** One allowed, failing call at `at`, recorded at failAt. */
  lemma PacedCall(c: Config, b: Breaker, t0: int, now: int, k: nat, q: nat, at: int, failAt: int) returns (q': nat)
    requires c.threshold >= 1 && c.reset > 0 && Paced(c, b, t0, now, k, q) && now <= at <= failAt
             && Allow(b, c.reset, at).0
    ensures Paced(c, Fail(Allow(b, c.reset, at).1, c.threshold, failAt), t0, failAt, k + 1, q')
    ensures WithinPace(c, k + 1, at - t0, q')
  {
    if b.openedAt.None? {
      q' := q;
    } else {
      q' := q + 1;
      assert c.threshold * q' == c.threshold * q + c.threshold;
      assert q' * c.reset == q * c.reset + c.reset;
    }
  }

  /** Calls that are refused, answered from the cache or rejected leave the pace as it was. */
  lemma PacedIdle(c: Config, e: Engine, key: Key, call: Call, t0: int, now: int, k: nat, q: nat)
    requires e.cache.WellFormed() && Paced(c, e.breaker, t0, now, k, q) && now <= call.allowAt <= call.failAt
    requires !Asked(c, e, key, call)
    ensures Paced(c, Evaluated(c, e, key, call).0.breaker, t0, call.failAt, k, q)
  {
  }

  /** The time by which everything before evaluation n has happened, counted from evaluation `from`. */
  ghost function ClockBefore(steps: seq<Step>, from: nat, n: nat): int
    requires from <= n <= |steps| && from < |steps|
  {
    if n == from then steps[from].call.allowAt else steps[n - 1].call.failAt
  }

  lemma {:induction false} PacedAlways(c: Config, steps: seq<Step>, from: nat, n: nat) returns (q: nat)
    requires c.threshold >= 1 && c.reset > 0 && ClockAdvances(steps)
    requires from < n <= |steps| && KeepsFailing(c, steps, from, n) && AskedAt(c, Breaker(0, None), steps, from)
    ensures Paced(c, After(c, Breaker(0, None), steps, n).breaker, steps[from].call.allowAt,
            ClockBefore(steps, from, n), CountAsked(c, steps, from, n), q)
    ensures AskedAt(c, Breaker(0, None), steps, n - 1) ==>
            WithinPace(c, CountAsked(c, steps, from, n), steps[n - 1].call.allowAt - steps[from].call.allowAt, q)
    decreases n - from
  {
    var b0, t0, last := Breaker(0, None), steps[from].call.allowAt, steps[n - 1];
    var e := After(c, b0, steps, n - 1);
    if n == from + 1 {
      OpenIffThresholdReached(c, steps, from);
      var b := Allow(e.breaker, c.reset, t0).1;
      assert CountAsked(c, steps, from, from) == 0;
      q := PacedCall(c, b, t0, t0, 0, 0, t0, last.call.failAt);
    } else {
      var before := PacedAlways(c, steps, from, n - 1);
      var k := CountAsked(c, steps, from, n - 1);
      if AskedAt(c, b0, steps, n - 1) {
        q := PacedCall(c, e.breaker, t0, steps[n - 2].call.failAt, k, before, last.call.allowAt, last.call.failAt);
      } else {
        q := before;
        PacedIdle(c, e, last.key, last.call, t0, steps[n - 2].call.failAt, k, q);
      }
    }
  }

  /** A threshold of calls for each reset interval begun within the span. */
  ghost function RateLimit(threshold: int, reset: int, span: int): int
    requires reset > 0
  {
    threshold * (span / reset + 1)
  }

  /**
   The rate bound: while the primary keeps failing, a span of T ticks from one call to a later one
   contains at most threshold * (T / reset + 1) calls. The span runs from evaluation `from` to n - 1.
   */
  lemma FailingCallsAreRateLimited(c: Config, steps: seq<Step>, from: nat, n: nat)
    requires c.threshold >= 1 && c.reset > 0 && ClockAdvances(steps)
    requires from < n <= |steps| && KeepsFailing(c, steps, from, n)
    requires AskedAt(c, Breaker(0, None), steps, from) && AskedAt(c, Breaker(0, None), steps, n - 1)
    ensures CountAsked(c, steps, from, n) <= RateLimit(c.threshold, c.reset,
            steps[n - 1].call.allowAt - steps[from].call.allowAt)
  {
    var q := PacedAlways(c, steps, from, n);
    RateArithmetic(c, CountAsked(c, steps, from, n), steps[n - 1].call.allowAt - steps[from].call.allowAt, q);
  }

  lemma RateArithmetic(c: Config, calls: int, span: int, q: int)
    requires c.threshold >= 1 && c.reset > 0
    ensures WithinPace(c, calls, span, q) ==> calls <= RateLimit(c.threshold, c.reset, span)
  {
    if WithinPace(c, calls, span, q) {
      QuotientBound(q, c.reset, span);
      ScaleBound(c.threshold, q, span / c.reset);
    }
  }

  lemma ScaleBound(threshold: int, q: int, d: int)
    requires threshold >= 1 && q <= d
    ensures threshold * q + threshold <= threshold * (d + 1)
  {
    assert threshold * q <= threshold * d;
  }

  lemma QuotientBound(q: int, reset: int, span: int)
    requires reset > 0 && q * reset <= span
    ensures q <= span / reset
  {
    CancelFactor(q, span / reset + 1, reset);
  }

  lemma CancelFactor(a: int, b: int, m: int)
    requires m > 0 && a * m < b * m
    ensures a < b
  {
  }
}
