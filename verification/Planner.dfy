/**
 Memory admission for concurrent contexts, in exact arithmetic. Only the reported figures are
 rounded for display; the weight estimate is rounded before it is used, and is rounded here too.
 */
module Planner {
  import opened Reals
  import opened Rounding

  const BYTES_PER_GB: real := 1073741824.0

  datatype Profile = Profile(parameterBillions: real, weightBits: int, kvBytesPerTokenFp16: int, kvBits: int,
      visionReserve: real)

  datatype Planner = Planner(total: real, profile: Profile, systemReserve: real, runtimeReserve: real,
      maximumSlots: int)

  datatype Request = Request(promptTokens: int, generationTokens: int, activeSlots: int, multimodal: bool)

  datatype Reason = ConcurrencyLimit | InsufficientMemory | Admitted | GenerationClamped

  datatype Decision = Decision(admitted: bool, requested: int, granted: int, estimated: real, available: real,
      reason: Reason)

  /** int(x) truncates toward zero. */
  function Truncate(x: real): int {
    if x >= 0.0 then x.Floor else -((-x).Floor)
  }

  function WeightsGb(p: Profile): real {
    RoundTo(p.parameterBillions * p.weightBits as real / 8.0 * 1.12, 1000)
  }

  function KvBytesPerToken(p: Profile): (n: int)
    ensures n >= 1
  {
    var bytes := Truncate((p.kvBytesPerTokenFp16 * p.kvBits) as real / 16.0);
    if bytes < 1 then 1 else bytes
  }

  function Max(a: real, b: real): real {
    if a >= b then a else b
  }

  function CacheBudget(p: Planner): (gb: real)
    ensures gb >= 0.0
  {
    Max(0.0, p.total - p.systemReserve - p.runtimeReserve - WeightsGb(p.profile))
  }

  function Available(p: Planner, multimodal: bool): real {
    CacheBudget(p) - (if multimodal then p.profile.visionReserve else 0.0)
  }

  /** The tokens that fit one of `slots` equal shares of the available memory. */
  function MaximumContext(p: Planner, multimodal: bool, slots: int): int
    requires slots != 0
  {
    Truncate(Max(0.0, Available(p, multimodal)) * BYTES_PER_GB / slots as real / KvBytesPerToken(p.profile) as real)
  }

  function KvGb(p: Planner, tokens: int, slots: int): real {
    (tokens * KvBytesPerToken(p.profile) * slots) as real / BYTES_PER_GB
  }

  function Estimate(p: Planner, multimodal: bool, granted: int, slots: int): real {
    WeightsGb(p.profile) + p.systemReserve + p.runtimeReserve + KvGb(p, granted, slots)
        + (if multimodal then p.profile.visionReserve else 0.0)
  }

  /** `decide`, before the two displayed figures are rounded. */
  function Decide(p: Planner, r: Request): Decision
    requires r.activeSlots >= 0
  {
    var requested, slots := r.promptTokens + r.generationTokens, r.activeSlots + 1;
    var available := Available(p, r.multimodal);
    if slots > p.maximumSlots then Decision(false, requested, 0, 0.0, available, ConcurrencyLimit)
    else
      var fitting := MaximumContext(p, r.multimodal, slots);
      var granted := if requested <= fitting then requested else fitting;
      var estimated := Estimate(p, r.multimodal, granted, slots);
      if fitting < r.promptTokens then Decision(false, requested, fitting, estimated, available, InsufficientMemory)
      else Decision(true, requested, granted, estimated, available, if granted == requested then Admitted
           else GenerationClamped)
  }

  /** What the caller is shown. */
  function Reported(d: Decision): Decision {
    if d.reason == ConcurrencyLimit then d
    else if d.reason == InsufficientMemory then d.(estimated := RoundTo(d.estimated, 1000))
    else d.(estimated := RoundTo(d.estimated, 1000), available := RoundTo(d.available, 1000))
  }

  /** `tokens` of context in each of `slots` slots stay within the available memory. */
  ghost predicate Fits(p: Planner, multimodal: bool, slots: int, tokens: int) {
    KvGb(p, tokens, slots) <= Available(p, multimodal)
  }

  lemma QuotientFloor(a: real, b: int, c: int, n: int)
    requires a >= 0.0 && b > 0 && c > 0
    ensures n <= Truncate(a / b as real / c as real) <==> (n * c * b) as real <= a
    ensures Truncate(a / b as real / c as real) >= 0
  {
    var q := a / b as real / c as real;
    assert q * (c as real * b as real) == a;
    assert (n * c * b) as real == n as real * (c as real * b as real);
    var m := c as real * b as real;
    assert m > 0.0;
    assert a / b as real >= 0.0;
    assert q >= 0.0;
    if n as real <= q {
      assert n as real * m <= q * m;
    } else {
      assert n as real * m > q * m;
    }
  }

  lemma ScaleDown(x: real, y: real)
    ensures x <= y * BYTES_PER_GB <==> x / BYTES_PER_GB <= y
  {
  }

  /** The computed maximum is the largest context that fits, whenever anything can fit. */
  lemma MaximumContextIsLargest(p: Planner, multimodal: bool, slots: int, tokens: int)
    requires slots >= 1
    ensures MaximumContext(p, multimodal, slots) >= 0
    ensures Available(p, multimodal) >= 0.0 ==> (tokens <= MaximumContext(p, multimodal, slots) <==>
              Fits(p, multimodal, slots, tokens))
    ensures Available(p, multimodal) < 0.0 ==> MaximumContext(p, multimodal, slots) == 0
  {
    var room := Max(0.0, Available(p, multimodal));
    QuotientFloor(room * BYTES_PER_GB, slots, KvBytesPerToken(p.profile), tokens);
    ScaleDown((tokens * KvBytesPerToken(p.profile) * slots) as real, room);
    if Available(p, multimodal) < 0.0 {
      QuotientFloor(room * BYTES_PER_GB, slots, KvBytesPerToken(p.profile), 1);
      assert 1 * KvBytesPerToken(p.profile) * slots >= 1;
    }
  }

  lemma FitsShare(p: Planner, multimodal: bool, slots: int, tokens: int)
    requires slots >= 1
    ensures Fits(p, multimodal, slots, tokens) <==> KvGb(p, tokens, 1) * slots as real <= Available(p, multimodal)
  {
    var n := tokens * KvBytesPerToken(p.profile);
    assert (n * slots) as real == n as real * slots as real;
  }

  lemma KvPositive(p: Planner, tokens: int, slots: int)
    requires tokens >= 1 && slots >= 1
    ensures KvGb(p, tokens, slots) > 0.0
  {
    assert tokens * KvBytesPerToken(p.profile) * slots >= 1;
  }

  /** What is in use before any context is granted. */
  function Reserves(p: Planner, multimodal: bool): real {
    WeightsGb(p.profile) + p.systemReserve + p.runtimeReserve + (if multimodal then p.profile.visionReserve else 0.0)
  }

  /**
   Admission is exact: a request is admitted when there is a slot and its prompt fits a share. The
   grant then is the largest context up to the request that fits, covers the prompt unless the
   request itself is smaller, and the memory in use stays within the total.
   */
  lemma AdmissionIsExact(p: Planner, r: Request)
    requires r.activeSlots >= 0 && r.promptTokens >= 1
    ensures var d, slots := Decide(p, r), r.activeSlots + 1;
            && (d.admitted <==> slots <= p.maximumSlots && Fits(p, r.multimodal, slots, r.promptTokens))
            && (d.admitted ==>
                  && d.granted <= d.requested == r.promptTokens + r.generationTokens
                  && (r.promptTokens <= d.granted <==> r.generationTokens >= 0)
                  && Fits(p, r.multimodal, slots, d.granted)
                  && (forall t :: d.granted < t <= d.requested ==> !Fits(p, r.multimodal, slots, t))
                  && (p.profile.visionReserve >= 0.0 || !r.multimodal || Reserves(p, false) <= p.total ==>
                       d.estimated <= p.total))
  {
    var slots := r.activeSlots + 1;
    if slots <= p.maximumSlots {
      var d := Decide(p, r);
      MaximumContextIsLargest(p, r.multimodal, slots, r.promptTokens);
      MaximumContextIsLargest(p, r.multimodal, slots, d.granted);
      KvPositive(p, r.promptTokens, slots);
      forall t | d.granted < t <= d.requested && d.admitted
        ensures !Fits(p, r.multimodal, slots, t)
      {
        MaximumContextIsLargest(p, r.multimodal, slots, t);
      }
    }
  }

  /** The displayed estimate of an admitted request is within the total when that is a whole number of thousandths. */
  lemma ReportedEstimateWithinTotal(p: Planner, r: Request, thousandths: int)
    requires r.activeSlots >= 0 && r.promptTokens >= 1 && p.profile.visionReserve >= 0.0
    requires Decide(p, r).admitted && p.total == thousandths as real / 1000.0
    ensures Reported(Decide(p, r)).estimated <= p.total
  {
    AdmissionIsExact(p, r);
    RoundToMonotone(Decide(p, r).estimated, p.total, 1000);
    RoundToFixes(thousandths, 1000);
  }

  lemma NoWeights(p: Profile)
    requires p.parameterBillions == 0.0
    ensures WeightsGb(p) == 0.0
  {
    assert p.parameterBillions * p.weightBits as real / 8.0 * 1.12 == 0.0;
    RoundToFixes(0, 1000);
  }

  /** With empty prompts allowed, an admission stays within the total exactly when the reserves alone do. */
  lemma AdmissionWithinTotalIff(p: Planner, r: Request)
    requires r.activeSlots >= 0 && r.promptTokens >= 0 && r.generationTokens >= 0 && p.profile.visionReserve >= 0.0
    requires Decide(p, r).admitted
    ensures Decide(p, r).estimated <= p.total <==> Reserves(p, r.multimodal) <= p.total
    ensures r.promptTokens >= 1 ==> Reserves(p, r.multimodal) <= p.total
  {
    var slots, d := r.activeSlots + 1, Decide(p, r);
    MaximumContextIsLargest(p, r.multimodal, slots, d.granted);
    MaximumContextIsLargest(p, r.multimodal, slots, 0);
    assert KvGb(p, 0, slots) == 0.0;
    if d.granted >= 1 {
      KvPositive(p, d.granted, slots);
    } else {
      assert d.granted == 0;
    }
  }

  /** An empty prompt is admitted even where the reserves alone exceed the memory. */
  lemma EmptyPromptsOvercommit() returns (p: Planner, r: Request)
    ensures r == Request(0, 0, 0, false) && Decide(p, r).admitted && Decide(p, r).estimated > p.total
  {
    p := Planner(1.0, Profile(0.0, 4, 65536, 8, 1.5), 6.0, 2.0, 2);
    r := Request(0, 0, 0, false);
    NoWeights(p.profile);
    MaximumContextIsLargest(p, false, 1, 0);
  }

  // ---- Concurrent grants ---------------------------------------------------------------------------

  datatype Event = Ask(request: Request, decision: Decision) | End(grant: nat)

  /** An admitted request adds its grant at the end; an end removes one. */
  ghost function AfterEvent(live: seq<int>, e: Event): seq<int> {
    match e
    case Ask(_, d) => if d.admitted then live + [d.granted] else live
    case End(i) => if i < |live| then live[..i] + live[i + 1..] else live
  }

  /** The grants in use after n events, oldest first. */
  ghost function Live(events: seq<Event>, n: nat): seq<int>
    requires n <= |events|
  {
    if n == 0 then [] else AfterEvent(Live(events, n - 1), events[n - 1])
  }

  /** A request counts at least the `live` grants then in use as active, and gets the planner's decision. */
  ghost predicate Counting(p: Planner, e: Event, live: nat) {
    e.Ask? ==> e.request.activeSlots >= live && e.decision == Decide(p, e.request)
  }

  ghost predicate CountsLive(p: Planner, events: seq<Event>, n: nat)
    requires n < |events|
  {
    Counting(p, events[n], |Live(events, n)|)
  }

  ghost predicate CountsLiveGrants(p: Planner, events: seq<Event>) {
    forall n: nat :: n < |events| ==> CountsLive(p, events, n)
  }

  /** A grant uses at most 1 / share of the cache budget. */
  ghost predicate WithinShare(p: Planner, tokens: int, share: int) {
    KvGb(p, tokens, 1) * share as real <= CacheBudget(p)
  }

  lemma KvSign(p: Planner, tokens: int)
    ensures tokens <= 0 <==> KvGb(p, tokens, 1) <= 0.0
  {
    assert tokens <= 0 ==> tokens * KvBytesPerToken(p.profile) <= 0;
    if tokens >= 1 {
      KvPositive(p, tokens, 1);
    }
  }

  lemma SmallerShare(p: Planner, tokens: int, share: int, fewer: int)
    requires WithinShare(p, tokens, share) && 0 <= fewer <= share
    ensures WithinShare(p, tokens, fewer)
  {
    var x := KvGb(p, tokens, 1);
    if x >= 0.0 {
      ScaleMonotone(fewer as real, share as real, x);
    } else {
      ScaleMonotone(x, 0.0, fewer as real);
    }
  }

  /** The i-th oldest live grant uses at most 1 / (i + 1) of the budget. */
  ghost predicate Shared(p: Planner, live: seq<int>) {
    forall i: nat :: i < |live| ==> WithinShare(p, live[i], i + 1)
  }

  lemma GrantTakesItsShare(p: Planner, r: Request, live: nat)
    requires p.profile.visionReserve >= 0.0 && r.activeSlots >= live && Decide(p, r).admitted
    ensures WithinShare(p, Decide(p, r).granted, live + 1) && live + 1 <= p.maximumSlots
  {
    var slots, granted := r.activeSlots + 1, Decide(p, r).granted;
    MaximumContextIsLargest(p, r.multimodal, slots, granted);
    if Available(p, r.multimodal) >= 0.0 {
      FitsShare(p, r.multimodal, slots, granted);
    } else {
      KvSign(p, granted);
      ScaleMonotone(KvGb(p, granted, 1), 0.0, slots as real);
    }
    SmallerShare(p, granted, slots, live + 1);
  }

  lemma EndKeepsShares(p: Planner, live: seq<int>, e: nat)
    requires Shared(p, live) && e < |live|
    ensures Shared(p, live[..e] + live[e + 1..])
  {
    var rest := live[..e] + live[e + 1..];
    forall i: nat | i < |rest|
      ensures WithinShare(p, rest[i], i + 1)
    {
      if i >= e {
        assert rest[i] == live[i + 1];
        SmallerShare(p, rest[i], i + 2, i + 1);
      }
    }
  }

  /** The grants in use keep to their shares and to the slots. */
  ghost predicate Bounded(p: Planner, live: seq<int>) {
    Shared(p, live) && (live != [] ==> |live| <= p.maximumSlots)
  }

  lemma LiveStep(p: Planner, live: seq<int>, e: Event)
    requires p.profile.visionReserve >= 0.0 && Counting(p, e, |live|)
    ensures Bounded(p, live) ==> Bounded(p, AfterEvent(live, e))
  {
    if Bounded(p, live) {
      match e
      case Ask(r, d) =>
        if d.admitted {
          GrantTakesItsShare(p, r, |live|);
        }
      case End(i) =>
        if i < |live| {
          EndKeepsShares(p, live, i);
        }
    }
  }

  lemma LiveGrantsShare(p: Planner, events: seq<Event>, n: nat)
    requires n <= |events| && CountsLiveGrants(p, events) && p.profile.visionReserve >= 0.0
    ensures Bounded(p, Live(events, n))
  {
    for k := 0 to n
      invariant Bounded(p, Live(events, k))
    {
      assert CountsLive(p, events, k);
      LiveStep(p, Live(events, k), events[k]);
    }
  }

  ghost function Harmonic(k: nat): real {
    if k == 0 then 0.0 else Harmonic(k - 1) + 1.0 / k as real
  }

  /** The whole budget, and half of it, and so on to a k-th of it. */
  ghost function HarmonicBudget(p: Planner, k: nat): real {
    if k == 0 then 0.0 else HarmonicBudget(p, k - 1) + CacheBudget(p) / k as real
  }

  lemma OverIsTimes(x: real, k: real)
    requires k > 0.0
    ensures x * (1.0 / k) == x / k
  {
  }

  /** The budget times 1 + 1/2 + ... + 1/k. */
  lemma {:induction false} HarmonicBudgetIsProduct(p: Planner, k: nat)
    ensures HarmonicBudget(p, k) == CacheBudget(p) * Harmonic(k)
  {
    if k != 0 {
      HarmonicBudgetIsProduct(p, k - 1);
      Distribute(CacheBudget(p), Harmonic(k - 1), 1.0 / k as real);
      OverIsTimes(CacheBudget(p), k as real);
    }
  }

  ghost function TotalKv(p: Planner, live: seq<int>): real {
    if live == [] then 0.0 else TotalKv(p, live[..|live| - 1]) + KvGb(p, live[|live| - 1], 1)
  }

  lemma {:induction false} SharesSumToHarmonic(p: Planner, live: seq<int>)
    requires Shared(p, live)
    ensures TotalKv(p, live) <= HarmonicBudget(p, |live|)
  {
    if live != [] {
      var n := |live| - 1;
      SharesSumToHarmonic(p, live[..n]);
      assert WithinShare(p, live[n], n + 1);
      HarmonicStep(p, KvGb(p, live[n], 1), n);
    }
  }

  lemma HarmonicStep(p: Planner, x: real, n: nat)
    ensures x * (n + 1) as real <= CacheBudget(p) ==> HarmonicBudget(p, n) + x <= HarmonicBudget(p, n + 1)
    ensures x * (n + 1) as real == CacheBudget(p) ==> HarmonicBudget(p, n) + x == HarmonicBudget(p, n + 1)
  {
    OneOver(x, CacheBudget(p), (n + 1) as real);
  }

  lemma OneOver(x: real, budget: real, k: real)
    requires k > 0.0
    ensures x * k <= budget ==> x <= budget / k
    ensures x * k == budget ==> x == budget / k
  {
    assert x * k / k == x;
    if x * k <= budget {
      DivideMonotone(x * k, budget, k);
    }
  }

  /**
   The bound on concurrent grants: k of them together use at most the budget times
   1 + 1/2 + ... + 1/k, and k is at most the number of slots.
   */
  lemma ConcurrentGrantsAreHarmonic(p: Planner, events: seq<Event>)
    requires CountsLiveGrants(p, events) && p.profile.visionReserve >= 0.0
    ensures var live := Live(events, |events|);
            TotalKv(p, live) <= HarmonicBudget(p, |live|) && (live != [] ==> |live| <= p.maximumSlots)
  {
    LiveGrantsShare(p, events, |events|);
    SharesSumToHarmonic(p, Live(events, |events|));
  }

  // ---- The bound is attained -------------------------------------------------------------------------

  function Factorial(n: nat): (f: nat)
    ensures f >= 1
  {
    if n == 0 then 1 else n * Factorial(n - 1)
  }

  lemma {:induction false} FactorialQuotient(k: nat, n: nat) returns (q: nat)
    requires 1 <= n <= k
    ensures q >= 1 && Factorial(k) == q * n
  {
    if n == k {
      q := Factorial(k - 1);
    } else {
      var before := FactorialQuotient(k - 1, n);
      q := k * before;
      assert k * (before * n) == q * n;
    }
  }

  /** A planner whose cache budget holds `tokens` tokens of one byte. */
  function ByteModel(tokens: nat, slots: nat): Planner {
    Planner(tokens as real / BYTES_PER_GB, Profile(0.0, 4, 1, 16, 1.5), 0.0, 0.0, slots)
  }

  lemma ByteModelFigures(tokens: nat, slots: nat)
    ensures var p := ByteModel(tokens, slots);
            CacheBudget(p) == Available(p, false) == tokens as real / BYTES_PER_GB && KvBytesPerToken(p.profile) == 1
  {
    NoWeights(ByteModel(tokens, slots).profile);
    assert tokens as real / BYTES_PER_GB >= 0.0;
  }

  lemma {:induction false} LivePrefix(a: seq<Event>, b: seq<Event>, n: nat)
    requires n <= |a| && a <= b
    ensures Live(a, n) == Live(b, n)
  {
    if n != 0 {
      LivePrefix(a, b, n - 1);
    }
  }

  /** An n-th of the tokens is granted in full beside n - 1 others. */
  lemma StairFits(tokens: nat, slots: nat, n: nat, q: nat)
    requires 1 <= n <= slots && q >= 1 && tokens == q * n
    ensures var p, r := ByteModel(tokens, slots), Request(q, 0, n - 1, false);
            Decide(p, r).admitted && Decide(p, r).granted == q && KvGb(p, q, 1) * n as real == CacheBudget(p)
  {
    var p := ByteModel(tokens, slots);
    ByteModelFigures(tokens, slots);
    MaximumContextIsLargest(p, false, n, q);
    assert q * 1 * n == tokens;
    assert KvGb(p, q, n) == tokens as real / BYTES_PER_GB;
    assert (q * n) as real == q as real * n as real;
    assert KvGb(p, q, 1) == q as real / BYTES_PER_GB;
    assert q as real / BYTES_PER_GB * n as real == q as real * n as real / BYTES_PER_GB;
  }

  /** After these requests n grants are in use and together take the whole harmonic bound. */
  ghost predicate Climbed(p: Planner, events: seq<Event>, n: nat) {
    CountsLiveGrants(p, events) && Climbs(p, Live(events, |events|), n)
  }

  ghost predicate Climbs(p: Planner, live: seq<int>, n: nat) {
    |live| == n && TotalKv(p, live) == HarmonicBudget(p, n)
  }

  lemma OneMoreEvent(p: Planner, before: seq<Event>, e: Event)
    requires CountsLiveGrants(p, before) && Counting(p, e, |Live(before, |before|)|)
    ensures CountsLiveGrants(p, before + [e])
    ensures Live(before + [e], |before| + 1) == AfterEvent(Live(before, |before|), e)
  {
    var events := before + [e];
    forall m: nat | m < |events|
      ensures CountsLive(p, events, m)
    {
      LivePrefix(before, events, m);
      assert m < |before| ==> CountsLive(p, before, m);
    }
    LivePrefix(before, events, |before|);
  }

  lemma ClimbStep(p: Planner, live: seq<int>, n: nat, granted: int)
    requires Climbs(p, live, n) && KvGb(p, granted, 1) * (n + 1) as real == CacheBudget(p)
    ensures Climbs(p, live + [granted], n + 1)
  {
    assert (live + [granted])[..n] == live;
    HarmonicStep(p, KvGb(p, granted, 1), n);
  }

  lemma ClimbOnce(p: Planner, before: seq<Event>, n: nat, e: Event)
    requires Climbed(p, before, n) && e.Ask? && Counting(p, e, n) && e.decision.admitted
    requires Climbs(p, Live(before, |before|) + [e.decision.granted], n + 1)
    ensures Climbed(p, before + [e], n + 1)
  {
    OneMoreEvent(p, before, e);
  }

  lemma StairEvent(tokens: nat, slots: nat, n: nat, q: nat, live: seq<int>) returns (e: Event)
    requires n < slots && q >= 1 && tokens == q * (n + 1) && Climbs(ByteModel(tokens, slots), live, n)
    ensures e.Ask? && Counting(ByteModel(tokens, slots), e, n) && e.decision.admitted
    ensures Climbs(ByteModel(tokens, slots), live + [e.decision.granted], n + 1)
  {
    var p, r := ByteModel(tokens, slots), Request(q, 0, n, false);
    StairFits(tokens, slots, n + 1, q);
    e := Ask(r, Decide(p, r));
    ClimbStep(p, live, n, q);
  }

  lemma ClimbTo(p: Planner, tokens: nat, k: nat) returns (events: seq<Event>)
    requires p == ByteModel(tokens, k) && tokens == Factorial(k)
    ensures Climbed(p, events, k)
  {
    events := [];
    for n := 0 to k
      invariant Climbed(p, events, n)
    {
      var q := FactorialQuotient(k, n + 1);
      var e := StairEvent(tokens, k, n, q, Live(events, |events|));
      ClimbOnce(p, events, n, e);
      events := events + [e];
    }
  }

  /** For every k some planner has k grants in use that together take the whole harmonic bound. */
  lemma HarmonicBoundIsAttained(k: nat) returns (p: Planner, events: seq<Event>)
    ensures CountsLiveGrants(p, events) && p.profile.visionReserve >= 0.0 && CacheBudget(p) > 0.0 && p.maximumSlots == k
    ensures |Live(events, |events|)| == k && TotalKv(p, Live(events, |events|)) == HarmonicBudget(p, k)
  {
    p := ByteModel(Factorial(k), k);
    ByteModelFigures(Factorial(k), k);
    events := ClimbTo(p, Factorial(k), k);
  }

  // ---- When concurrent grants fit the budget ---------------------------------------------------------

  ghost predicate GrantsFit(p: Planner, events: seq<Event>) {
    TotalKv(p, Live(events, |events|)) <= CacheBudget(p)
  }

  /** No second slot, or not even one token in it. */
  predicate OneGrantAtATime(p: Planner) {
    p.maximumSlots <= 1 || MaximumContext(p, false, 2) < 1
  }

  /** Only the oldest grant may hold anything. */
  ghost predicate OthersEmpty(live: seq<int>) {
    forall i :: 1 <= i < |live| ==> live[i] <= 0
  }

  lemma KvGrowsWithSlots(p: Planner, slots: int)
    requires slots >= 2
    ensures KvGb(p, 1, 2) <= KvGb(p, 1, slots)
  {
    var b := KvBytesPerToken(p.profile);
    assert b * 2 <= b * slots;
    DivideMonotone((1 * b * 2) as real, (1 * b * slots) as real, BYTES_PER_GB);
  }

  lemma LaterGrantsAreEmpty(p: Planner, r: Request)
    requires OneGrantAtATime(p) && p.profile.visionReserve >= 0.0 && r.activeSlots >= 1 && Decide(p, r).admitted
    ensures Decide(p, r).granted <= 0
  {
    var slots := r.activeSlots + 1;
    MaximumContextIsLargest(p, r.multimodal, slots, 1);
    MaximumContextIsLargest(p, false, 2, 1);
    KvGrowsWithSlots(p, slots);
  }

  lemma OthersStayEmpty(p: Planner, live: seq<int>, e: Event)
    requires OneGrantAtATime(p) && p.profile.visionReserve >= 0.0 && Counting(p, e, |live|)
    requires OthersEmpty(live)
    ensures OthersEmpty(AfterEvent(live, e))
  {
    if e.Ask? && live != [] && e.decision.admitted {
      LaterGrantsAreEmpty(p, e.request);
    }
  }

  lemma {:induction false} OneGrantWithinBudget(p: Planner, live: seq<int>)
    requires Shared(p, live) && OthersEmpty(live)
    ensures TotalKv(p, live) <= CacheBudget(p)
  {
    if live != [] {
      var n := |live| - 1;
      OneGrantWithinBudget(p, live[..n]);
      assert WithinShare(p, live[n], n + 1);
      KvSign(p, live[n]);
      if n == 0 {
        assert live[..n] == [];
      }
    }
  }

  lemma FitsOneAtATime(p: Planner, events: seq<Event>)
    requires OneGrantAtATime(p) && p.profile.visionReserve >= 0.0 && CountsLiveGrants(p, events)
    ensures GrantsFit(p, events)
  {
    for n := 0 to |events|
      invariant OthersEmpty(Live(events, n))
    {
      assert CountsLive(p, events, n);
      OthersStayEmpty(p, Live(events, n), events[n]);
    }
    LiveGrantsShare(p, events, |events|);
    OneGrantWithinBudget(p, Live(events, |events|));
  }

  /** Otherwise two requests, each granted in full, exceed the budget: the first leaves less than a token. */
  lemma TwoGrantsExceedTheBudget(p: Planner) returns (events: seq<Event>)
    requires !OneGrantAtATime(p)
    ensures CountsLiveGrants(p, events) && |Live(events, |events|)| == 2 && !GrantsFit(p, events)
    ensures forall n :: 0 <= n < |events| ==> events[n].Ask? && events[n].request.promptTokens >= 1
                                              && events[n].request.generationTokens == 0
  {
    var most, second := MaximumContext(p, false, 1), MaximumContext(p, false, 2);
    MaximumContextIsLargest(p, false, 2, 1);
    MaximumContextIsLargest(p, false, 1, 1);
    KvOfTwoSlots(p, 1);
    MaximumContextIsLargest(p, false, 1, most + 1);
    var first, next := Request(most, 0, 0, false), Request(second, 0, 1, false);
    events := [Ask(first, Decide(p, first)), Ask(next, Decide(p, next))];
    assert Live(events, 1) == [most];
    assert Live(events, 2) == [most, second];
    TotalOfTwo(p, most, second);
  }

  lemma KvOfTwoSlots(p: Planner, tokens: nat)
    ensures KvGb(p, tokens, 1) <= KvGb(p, tokens, 2)
  {
    var n := tokens * KvBytesPerToken(p.profile);
    assert 0 <= n && n * 1 <= n * 2;
    DivideMonotone((n * 1) as real, (n * 2) as real, BYTES_PER_GB);
  }

  lemma TotalOfTwo(p: Planner, a: nat, b: nat)
    requires b >= 1
    ensures TotalKv(p, [a, b]) >= KvGb(p, a + 1, 1)
  {
    assert [a, b][..1] == [a] && [a][..0] == [];
    assert TotalKv(p, [a]) == TotalKv(p, []) + KvGb(p, a, 1);
    var n := KvBytesPerToken(p.profile);
    assert a * n + b * n >= (a + 1) * n;
    DivideMonotone(((a + 1) * n) as real, (a * n) as real + (b * n) as real, BYTES_PER_GB);
  }

  /**
   Concurrent grants fit the budget, whatever is asked and ended, exactly when the planner has no
   second slot or a second slot cannot hold one token.
   */
  lemma ConcurrentGrantsFitIff(p: Planner)
    requires p.profile.visionReserve >= 0.0
    ensures (forall events :: CountsLiveGrants(p, events) ==> GrantsFit(p, events)) <==> OneGrantAtATime(p)
  {
    if OneGrantAtATime(p) {
      forall events | CountsLiveGrants(p, events)
        ensures GrantsFit(p, events)
      {
        FitsOneAtATime(p, events);
      }
    } else {
      var events := TwoGrantsExceedTheBudget(p);
      assert CountsLiveGrants(p, events) && !GrantsFit(p, events);
    }
  }
}
