/** Judge calibration against human labels, in exact arithmetic. */
module Calibration {
  import opened Common
  import opened Reals
  import opened Rounding

  datatype Verdict = Pass | Fail | Review

  datatype Case = Case(id: string, humanPass: bool, verdict: Verdict, probability: Option<real>)

  datatype Report = Report(cases: nat, accuracy: real, falsePassRate: real, falseFailRate: real, kappa: real,
                           precision: real, recall: real, brier: Option<real>)

  datatype Refusal = TooFewCases | UnresolvedReview | ProbabilityOutOfRange | MixedProbabilities

  /** How many cases have this human label and this verdict. */
  function Count(cases: seq<Case>, human: bool, verdict: Verdict): nat {
    if cases == [] then 0
    else
      var last := cases[|cases| - 1];
      Count(cases[..|cases| - 1], human, verdict) + (if last.humanPass == human
          && last.verdict == verdict then 1 else 0)
  }

  function SquaredError(c: Case): real {
    var p, h := if c.probability.Some? then c.probability.value else 0.0, if c.humanPass then 1.0 else 0.0;
    (p - h) * (p - h)
  }

  function Sum(cases: seq<Case>, f: Case -> real): real {
    if cases == [] then 0.0 else Sum(cases[..|cases| - 1], f) + f(cases[|cases| - 1])
  }

  function Share(part: nat, whole: nat): real {
    part as real / (if whole < 1 then 1 else whole) as real
  }

  /** Cohen's kappa as it is computed; the division is safe because certain chance agreement is agreement. */
  function Kappa(tp: nat, tn: nat, fp: nat, fn: nat): real
    requires tp + tn + fp + fn > 0
  {
    var count := (tp + tn + fp + fn) as real;
    var observed := (tp + tn) as real / count;
    var expected := Expected(tp as real, tn as real, fp as real, fn as real);
    if expected == 1.0 && observed == 1.0 then 1.0
    else
      CertainChanceIsAgreement(tp, tn, fp, fn);
      (observed - expected) / (1.0 - expected)
  }

  function Expected(tp: real, tn: real, fp: real, fn: real): real
    requires tp + tn + fp + fn > 0.0
  {
    var count := tp + tn + fp + fn;
    var human, judge := (tp + fn) / count, (tp + fp) / count;
    human * judge + (1.0 - human) * (1.0 - judge)
  }

  predicate Unresolved(cases: seq<Case>) {
    exists c :: c in cases && c.verdict == Review
  }

  predicate OutOfRange(cases: seq<Case>) {
    exists c :: c in cases && c.probability.Some? && !(0.0 <= c.probability.value <= 1.0)
  }

  predicate SomeGiven(cases: seq<Case>) {
    exists c :: c in cases && c.probability.Some?
  }

  predicate SomeMissing(cases: seq<Case>) {
    exists c :: c in cases && c.probability.None?
  }

  function Refused(cases: seq<Case>): Option<Refusal> {
    if |cases| < 2 then Some(TooFewCases)
    else if Unresolved(cases) then Some(UnresolvedReview)
    else if OutOfRange(cases) then Some(ProbabilityOutOfRange)
    else if SomeMissing(cases) && SomeGiven(cases) then Some(MixedProbabilities)
    else None
  }

  function ReportOf(tp: nat, tn: nat, fp: nat, fn: nat, squared: Option<real>): Report
    requires tp + tn + fp + fn > 0
  {
    var count := tp + tn + fp + fn;
    Report(count, (tp + tn) as real / count as real, Share(fp, fp + tn), Share(fn, fn + tp), Kappa(tp, tn, fp, fn),
           Share(tp, tp + fp), Share(tp, tp + fn), if squared.Some? then Some(squared.value / count as real) else None)
  }

  function Calibrate(cases: seq<Case>): Result<Report, Refusal> {
    var refused := Refused(cases);
    if refused.Some? then Failure(refused.value)
    else
      EveryCaseCounts(cases);
      Success(ReportOf(Count(cases, true, Pass), Count(cases, false, Fail), Count(cases, false, Pass),
          Count(cases, true, Fail), if SomeMissing(cases) then None else Some(Sum(cases, SquaredError))))
  }

  lemma {:induction false} EveryCaseCounts(cases: seq<Case>)
    requires forall c :: c in cases ==> c.verdict != Review
    ensures Count(cases, true, Pass) + Count(cases, false, Fail) + Count(cases, false, Pass) + Count(cases, true, Fail)
            == |cases|
  {
    if cases != [] {
      assert cases[|cases| - 1] in cases;
      EveryCaseCounts(cases[..|cases| - 1]);
    }
  }

  // ---- Kappa -----------------------------------------------------------------------------------------

  /** Twice the excess of agreements, and the product of margins it is measured against. */
  function Excess(a: real, b: real, c: real, d: real): real {
    2.0 * (a * b - c * d)
  }

  function Margins(a: real, b: real, c: real, d: real): real {
    (a + d) * (b + d) + (a + c) * (b + c)
  }

  lemma ExpectedTimesSquare(a: real, b: real, c: real, d: real)
    requires a + b + c + d > 0.0
    ensures var n := a + b + c + d;
            Expected(a, b, c, d) * (n * n) == (a + d) * (a + c) + (b + c) * (b + d)
  {
    var n := a + b + c + d;
    var h, j := (a + d) / n, (a + c) / n;
    assert h * n == a + d && j * n == a + c;
    assert (1.0 - h) * n == b + c && (1.0 - j) * n == b + d;
    ProductTimesSquare(h, j, n);
    ProductTimesSquare(1.0 - h, 1.0 - j, n);
    assert Expected(a, b, c, d) == h * j + (1.0 - h) * (1.0 - j);
  }

  lemma ProductTimesSquare(x: real, y: real, n: real)
    ensures x * y * (n * n) == (x * n) * (y * n)
  {
  }

  lemma SquareOfTotal(a: real, b: real, c: real, d: real)
    ensures var n := a + b + c + d;
            && n * n - ((a + d) * (a + c) + (b + c) * (b + d)) == Margins(a, b, c, d)
            && (a + b) * n - ((a + d) * (a + c) + (b + c) * (b + d)) == Excess(a, b, c, d)
  {
  }

  lemma ChanceInCounts(a: real, b: real, c: real, d: real)
    requires a + b + c + d > 0.0
    ensures var n := a + b + c + d;
            && (1.0 - Expected(a, b, c, d)) * (n * n) == Margins(a, b, c, d)
            && ((a + b) / n - Expected(a, b, c, d)) * (n * n) == Excess(a, b, c, d)
  {
    var n := a + b + c + d;
    ExpectedTimesSquare(a, b, c, d);
    SquareOfTotal(a, b, c, d);
    assert (a + b) / n * (n * n) == (a + b) * n;
  }

  /** The excess never exceeds the margins in size, and equals them only without disagreements. */
  lemma ExcessWithinMargins(a: real, b: real, c: real, d: real)
    requires a >= 0.0 && b >= 0.0 && c >= 0.0 && d >= 0.0
    ensures Margins(a, b, c, d) - Excess(a, b, c, d) == (c + d) * (a + b + c + d)
    ensures Margins(a, b, c, d) + Excess(a, b, c, d) >= 0.0
    ensures Margins(a, b, c, d) >= Excess(a, b, c, d) && Margins(a, b, c, d) >= 0.0
  {
    assert Margins(a, b, c, d) + Excess(a, b, c, d) == 4.0 * (a * b) + (a + b) * (c + d) + (c - d) * (c - d);
    NonnegativeProduct(a, b);
    NonnegativeProduct(a + b, c + d);
    SquareNonnegative(c - d);
    NonnegativeProduct(c + d, a + b + c + d);
  }

  /** If chance agreement is certain then agreement is complete, so kappa never divides by zero. */
  lemma CertainChanceIsAgreement(tp: nat, tn: nat, fp: nat, fn: nat)
    requires tp + tn + fp + fn > 0
    ensures Expected(tp as real, tn as real, fp as real, fn as real) == 1.0 ==>
              (tp + tn) as real / (tp + tn + fp + fn) as real == 1.0 && fp == fn == 0
  {
    var a, b, c, d := tp as real, tn as real, fp as real, fn as real;
    var n := a + b + c + d;
    if Expected(a, b, c, d) == 1.0 {
      ChanceInCounts(a, b, c, d);
      ExcessWithinMargins(a, b, c, d);
      assert Margins(a, b, c, d) == 0.0;
      assert (c + d) * (a + b + c + d) == -Excess(a, b, c, d);
      ProductZero(c + d, a + b + c + d);
    }
  }

  lemma KappaUnfolds(tp: nat, tn: nat, fp: nat, fn: nat, observed: real, expected: real)
    requires tp + tn + fp + fn > 0
    requires observed == (tp + tn) as real / (tp + tn + fp + fn) as real
    requires expected == Expected(tp as real, tn as real, fp as real, fn as real)
    ensures Kappa(tp, tn, fp, fn) == if expected == 1.0 then 1.0 else (observed - expected) / (1.0 - expected)
  {
    CertainChanceIsAgreement(tp, tn, fp, fn);
  }

  /** Kappa is the excess over the margins wherever those are positive, and 1 where they vanish. */
  lemma KappaFormula(tp: nat, tn: nat, fp: nat, fn: nat)
    requires tp + tn + fp + fn > 0
    ensures var a, b, c, d := tp as real, tn as real, fp as real, fn as real;
            Kappa(tp, tn, fp, fn) == if Margins(a, b, c, d) > 0.0 then Excess(a, b, c, d) / Margins(a, b, c, d) else 1.0
  {
    var a, b, c, d := tp as real, tn as real, fp as real, fn as real;
    var n := a + b + c + d;
    var observed, expected := (a + b) / n, Expected(a, b, c, d);
    KappaUnfolds(tp, tn, fp, fn, observed, expected);
    ChanceInCounts(a, b, c, d);
    ExcessWithinMargins(a, b, c, d);
    PositiveProduct(n, n);
    RatioOfProducts(observed - expected, 1.0 - expected, n * n, Excess(a, b, c, d), Margins(a, b, c, d));
  }

  lemma RatioOfProducts(x: real, y: real, m: real, xm: real, ym: real)
    requires m > 0.0 && x * m == xm && y * m == ym
    ensures ym == 0.0 <==> y == 0.0
    ensures ym != 0.0 ==> x / y == xm / ym
  {
    ProductZero(y, m);
    if y != 0.0 {
      CancelSquare(x, y, m);
    }
  }

  lemma CancelSquare(x: real, y: real, m: real)
    requires m > 0.0 && y != 0.0
    ensures y * m != 0.0 && (x * m) / (y * m) == x / y
  {
    var q := x / y;
    assert q * y == x;
    assert q * (y * m) == x * m;
  }

  lemma RatioRange(x: real, m: real)
    requires m > 0.0 && -m <= x <= m
    ensures -1.0 <= x / m <= 1.0 && (x / m == 1.0 <==> x == m)
  {
    assert x / m * m == x;
  }

  lemma RatioOfExcess(a: real, b: real, c: real, d: real)
    requires a >= 0.0 && b >= 0.0 && c >= 0.0 && d >= 0.0 && a + b + c + d > 0.0
    ensures var x, m := Excess(a, b, c, d), Margins(a, b, c, d);
            if m > 0.0 then -1.0 <= x / m <= 1.0 && (x / m == 1.0 <==> c + d == 0.0) else c + d == 0.0
  {
    ExcessWithinMargins(a, b, c, d);
    ProductZero(c + d, a + b + c + d);
    if Margins(a, b, c, d) > 0.0 {
      RatioRange(Excess(a, b, c, d), Margins(a, b, c, d));
    }
  }

  /** Kappa lies between -1 and 1, and is 1 exactly when judge and human never disagree. */
  lemma KappaRange(tp: nat, tn: nat, fp: nat, fn: nat)
    requires tp + tn + fp + fn > 0
    ensures -1.0 <= Kappa(tp, tn, fp, fn) <= 1.0
    ensures Kappa(tp, tn, fp, fn) == 1.0 <==> fp == fn == 0
  {
    KappaFormula(tp, tn, fp, fn);
    RatioOfExcess(tp as real, tn as real, fp as real, fn as real);
  }

  lemma {:induction false} CountZero(cases: seq<Case>, human: bool, verdict: Verdict)
    ensures Count(cases, human, verdict) == 0 <==> forall c :: c in cases ==>
              !(c.humanPass == human && c.verdict == verdict)
  {
    if cases != [] {
      var init, last := cases[..|cases| - 1], cases[|cases| - 1];
      CountZero(init, human, verdict);
      assert cases == init + [last];
    }
  }

  /** A report's kappa is 1 exactly when the judge agreed with every label. */
  lemma PerfectKappaIsAgreement(cases: seq<Case>)
    requires Calibrate(cases).Success?
    ensures -1.0 <= Calibrate(cases).value.kappa <= 1.0
    ensures Calibrate(cases).value.kappa == 1.0 <==> forall c :: c in cases ==> (c.humanPass <==> c.verdict == Pass)
  {
    EveryCaseCounts(cases);
    KappaRange(Count(cases, true, Pass), Count(cases, false, Fail), Count(cases, false, Pass),
        Count(cases, true, Fail));
    CountZero(cases, false, Pass);
    CountZero(cases, true, Fail);
  }

  // ---- Order independence ----------------------------------------------------------------------------

  lemma {:induction false} SumConcat(a: seq<Case>, b: seq<Case>, f: Case -> real)
    ensures Sum(a + b, f) == Sum(a, f) + Sum(b, f)
  {
    if b == [] {
      assert a + b == a;
    } else {
      SumConcat(a, b[..|b| - 1], f);
      assert (a + b)[..|a + b| - 1] == a + b[..|b| - 1];
    }
  }

  lemma {:induction false} SumByMultiset(a: seq<Case>, b: seq<Case>, f: Case -> real)
    requires multiset(a) == multiset(b)
    ensures Sum(a, f) == Sum(b, f)
  {
    if a == [] {
      assert |multiset(b)| == 0;
      assert b == [];
    } else {
      var n := |a| - 1;
      var front, back := RemoveLast(a, b);
      SumByMultiset(a[..n], front + back, f);
      SumConcat(front + [a[n]], back, f);
      SumConcat(front, [a[n]], f);
      SumConcat(front, back, f);
      assert [a[n]][..0] == [];
      assert Sum([a[n]], f) == f(a[n]);
    }
  }

  function Indicator(human: bool, verdict: Verdict): Case -> real {
    (c: Case) => if c.humanPass == human && c.verdict == verdict then 1.0 else 0.0
  }

  lemma {:induction false} CountAsSum(cases: seq<Case>, human: bool, verdict: Verdict)
    ensures Count(cases, human, verdict) as real == Sum(cases, Indicator(human, verdict))
  {
    if cases != [] {
      CountAsSum(cases[..|cases| - 1], human, verdict);
    }
  }

  lemma CountByMultiset(a: seq<Case>, b: seq<Case>, human: bool, verdict: Verdict)
    requires multiset(a) == multiset(b)
    ensures Count(a, human, verdict) == Count(b, human, verdict)
  {
    CountAsSum(a, human, verdict);
    CountAsSum(b, human, verdict);
    SumByMultiset(a, b, Indicator(human, verdict));
  }

  /** The report, or the refusal, depends on which cases there are and not on their order. */
  lemma ReportIgnoresOrder(a: seq<Case>, b: seq<Case>)
    requires multiset(a) == multiset(b)
    ensures Calibrate(a) == Calibrate(b)
  {
    SameMembers(a, b);
    CountByMultiset(a, b, true, Pass);
    CountByMultiset(a, b, false, Fail);
    CountByMultiset(a, b, false, Pass);
    CountByMultiset(a, b, true, Fail);
    SumByMultiset(a, b, SquaredError);
  }

  lemma SameMembers(a: seq<Case>, b: seq<Case>)
    requires multiset(a) == multiset(b)
    ensures Refused(a) == Refused(b) && SomeMissing(a) == SomeMissing(b)
  {
    assert |a| == |multiset(a)| == |multiset(b)| == |b|;
    assert forall c :: c in a <==> c in multiset(a);
    assert forall c :: c in b <==> c in multiset(b);
  }

  // ---- What the other figures mean -----------------------------------------------------------------------

  /** Every case with the human and the judge in each other's place. */
  function Exchanged(cases: seq<Case>): seq<Case> {
    if cases == [] then [] else Exchanged(cases[..|cases| - 1]) + [Exchange(cases[|cases| - 1])]
  }

  function Exchange(c: Case): Case {
    c.(humanPass := c.verdict == Pass, verdict := if c.humanPass then Pass else Fail)
  }

  lemma {:induction false} ExchangedAt(cases: seq<Case>)
    ensures |Exchanged(cases)| == |cases| && forall i :: 0 <= i < |cases| ==> Exchanged(cases)[i] == Exchange(cases[i])
  {
    if cases != [] {
      ExchangedAt(cases[..|cases| - 1]);
    }
  }

  lemma ExchangedIsAccepted(cases: seq<Case>)
    requires Refused(cases).None?
    ensures Refused(Exchanged(cases)).None?
  {
    var x := Exchanged(cases);
    ExchangedAt(cases);
    assert forall i :: 0 <= i < |cases| ==> cases[i] in cases && x[i].probability == cases[i].probability;
    assert !Unresolved(x) && !OutOfRange(x);
    assert SomeMissing(x) ==> SomeMissing(cases);
    assert SomeGiven(x) ==> SomeGiven(cases);
  }

  /** The verdict that agrees with a label. */
  function VerdictFor(human: bool): Verdict {
    if human then Pass else Fail
  }

  ghost predicate Resolved(cases: seq<Case>) {
    forall c :: c in cases ==> c.verdict != Review
  }

  lemma {:induction false} ExchangedCounts(cases: seq<Case>, human: bool, judge: bool)
    requires Resolved(cases)
    ensures Count(Exchanged(cases), human, VerdictFor(judge)) == Count(cases, judge, VerdictFor(human))
    ensures |Exchanged(cases)| == |cases|
  {
    if cases != [] {
      var n := |cases| - 1;
      assert cases[n] in cases;
      ExchangedCounts(cases[..n], human, judge);
      assert Exchanged(cases)[..n] == Exchanged(cases[..n]);
    }
  }

  lemma KappaIsSymmetric(tp: nat, tn: nat, fp: nat, fn: nat)
    requires tp + tn + fp + fn > 0
    ensures Kappa(tp, tn, fp, fn) == Kappa(tp, tn, fn, fp)
  {
    assert Expected(tp as real, tn as real, fp as real, fn as real)
           == Expected(tp as real, tn as real, fn as real, fp as real);
  }

  lemma ReportExchanges(tp: nat, tn: nat, fp: nat, fn: nat, a: Option<real>, b: Option<real>)
    requires tp + tn + fp + fn > 0
    ensures SameAgreement(ReportOf(tp, tn, fp, fn, a), ReportOf(tp, tn, fn, fp, b))
  {
    KappaIsSymmetric(tp, tn, fp, fn);
  }

  /** Equal accuracy and kappa, with precision and recall in each other's place. */
  ghost predicate SameAgreement(r: Report, x: Report) {
    x.accuracy == r.accuracy && x.kappa == r.kappa && x.precision == r.recall && x.recall == r.precision
  }

  /** Agreement and kappa do not care who judges whom; precision and recall change places. */
  lemma RolesExchange(cases: seq<Case>)
    requires Calibrate(cases).Success?
    ensures Calibrate(Exchanged(cases)).Success?
    ensures SameAgreement(Calibrate(cases).value, Calibrate(Exchanged(cases)).value)
  {
    var tp, tn, fp, fn := Count(cases, true, Pass), Count(cases, false, Fail), Count(cases, false, Pass),
        Count(cases, true, Fail);
    assert Resolved(cases);
    ExchangedIsAccepted(cases);
    EveryCaseCounts(cases);
    ExchangedCounts(cases, true, true);
    ExchangedCounts(cases, false, false);
    ExchangedCounts(cases, false, true);
    ExchangedCounts(cases, true, false);
    ReportExchanges(tp, tn, fp, fn, if SomeMissing(cases) then None else Some(Sum(cases, SquaredError)),
                    if SomeMissing(Exchanged(cases)) then None else Some(Sum(Exchanged(cases), SquaredError)));
  }

  /** What is not recalled is failed: with positive labels the two rates add up to one. */
  lemma RecallComplementsFalseFails(cases: seq<Case>)
    requires Calibrate(cases).Success? && Count(cases, true, Pass) + Count(cases, true, Fail) > 0
    ensures Calibrate(cases).value.recall + Calibrate(cases).value.falseFailRate == 1.0
  {
    SharesAddUp(Count(cases, true, Pass), Count(cases, true, Fail));
  }

  lemma SharesAddUp(part: nat, rest: nat)
    requires part + rest > 0
    ensures Share(part, part + rest) + Share(rest, rest + part) == 1.0
  {
    var n := (part + rest) as real;
    assert part as real / n + rest as real / n == (part as real + rest as real) / n;
  }

  /** The case's probability is all on its label. */
  ghost predicate Certain(c: Case) {
    c.probability == Some(if c.humanPass then 1.0 else 0.0)
  }

  /** The Brier score lies in [0, 1] and is 0 exactly when every probability is all on its label. */
  lemma BrierRange(cases: seq<Case>)
    requires Calibrate(cases).Success? && Calibrate(cases).value.brier.Some?
    ensures 0.0 <= Calibrate(cases).value.brier.value <= 1.0
    ensures Calibrate(cases).value.brier.value == 0.0 <==> forall c :: c in cases ==> Certain(c)
  {
    EveryCaseCounts(cases);
    forall c | c in cases
      ensures Graded(c)
    {
      ErrorInUnit(c);
    }
    ErrorsAddUp(cases);
    MeanInUnit(Sum(cases, SquaredError), |cases|);
  }

  ghost predicate Graded(c: Case) {
    0.0 <= SquaredError(c) <= 1.0 && (SquaredError(c) == 0.0 <==> Certain(c))
  }

  lemma ErrorInUnit(c: Case)
    requires c.probability.Some? && 0.0 <= c.probability.value <= 1.0
    ensures Graded(c)
  {
    var x := c.probability.value - (if c.humanPass then 1.0 else 0.0);
    assert SquaredError(c) == Product(x, x);
    if x >= 0.0 {
      ProductInUnit(x, x);
    } else {
      ProductInUnit(-x, -x);
      assert Product(-x, -x) == Product(x, x);
    }
  }

  function Product(x: real, y: real): real {
    x * y
  }

  lemma ProductInUnit(x: real, y: real)
    requires 0.0 <= x <= 1.0 && 0.0 <= y <= 1.0
    ensures 0.0 <= Product(x, y) <= 1.0
    ensures Product(x, y) == 0.0 <==> x == 0.0 || y == 0.0
  {
    if x == 0.0 || y == 0.0 {
      assert Product(x, y) == 0.0;
    } else {
      ProductShrinks(x, y);
      assert 0.0 < Product(x, y) <= y;
    }
  }

  lemma ProductShrinks(x: real, y: real)
    requires 0.0 < x <= 1.0 && 0.0 < y
    ensures 0.0 < Product(x, y) <= y
  {
    PositiveProduct(x, y);
    if x < 1.0 {
      PositiveProduct(1.0 - x, y);
      assert (1.0 - x) * y == y - x * y;
    } else {
      assert Product(1.0, y) == y;
    }
  }

  lemma {:induction false} ErrorsAddUp(cases: seq<Case>)
    requires forall c :: c in cases ==> Graded(c)
    ensures 0.0 <= Sum(cases, SquaredError) <= |cases| as real
    ensures Sum(cases, SquaredError) == 0.0 <==> forall c :: c in cases ==> Certain(c)
  {
    if cases != [] {
      var init, last := cases[..|cases| - 1], cases[|cases| - 1];
      assert cases == init + [last];
      ErrorsAddUp(init);
      assert Graded(last);
    }
  }

  lemma MeanInUnit(sum: real, n: nat)
    requires n > 0 && 0.0 <= sum <= n as real
    ensures 0.0 <= sum / n as real <= 1.0 && (sum / n as real == 0.0 <==> sum == 0.0)
  {
    assert sum / n as real * n as real == sum;
  }

  // ---- The qualification policy ------------------------------------------------------------------------

  datatype Policy = Policy(minimumCases: int, minimumAccuracy: real, maximumFalsePassRate: real,
      maximumFalseFailRate: real, minimumKappa: real, maximumBrier: real)

  datatype Gate = InsufficientCases | Accuracy | FalsePassRate | FalseFailRate | CohenKappa | BrierScore

  function Failures(p: Policy, r: Report): seq<Gate> {
    (if r.cases < p.minimumCases then [InsufficientCases] else [])
    + (if r.accuracy < p.minimumAccuracy then [Accuracy] else [])
    + (if r.falsePassRate > p.maximumFalsePassRate then [FalsePassRate] else [])
    + (if r.falseFailRate > p.maximumFalseFailRate then [FalseFailRate] else [])
    + (if r.kappa < p.minimumKappa then [CohenKappa] else [])
    + (if r.brier.None? || r.brier.value > p.maximumBrier then [BrierScore] else [])
  }

  /** The policy names no failure exactly when all six gates hold. */
  lemma QualifiesIff(p: Policy, r: Report)
    ensures Failures(p, r) == [] <==>
            && r.cases >= p.minimumCases && r.accuracy >= p.minimumAccuracy && r.kappa >= p.minimumKappa
            && r.falsePassRate <= p.maximumFalsePassRate && r.falseFailRate <= p.maximumFalseFailRate
            && r.brier.Some? && r.brier.value <= p.maximumBrier
  {
  }

  lemma ShareBound(part: nat, whole: nat, limit: real)
    requires part <= whole && Share(part, whole) <= limit
    ensures limit >= 0.0 && part as real <= limit * whole as real
  {
    if whole >= 1 {
      var q := part as real / whole as real;
      assert q >= 0.0 && q * whole as real == part as real;
      assert q * whole as real <= limit * whole as real;
    }
  }

  const HALF_MICRO := 0.0000005

  /** What the caller gets: every figure to six decimals. */
  function Reported(r: Report): Report {
    Report(r.cases, RoundTo(r.accuracy, MICRO), RoundTo(r.falsePassRate, MICRO), RoundTo(r.falseFailRate, MICRO),
           RoundTo(r.kappa, MICRO), RoundTo(r.precision, MICRO), RoundTo(r.recall, MICRO),
           if r.brier.Some? then Some(RoundTo(r.brier.value, MICRO)) else None)
  }

  lemma ReportedIsNear(x: real)
    ensures x - HALF_MICRO <= RoundTo(x, MICRO) <= x + HALF_MICRO
  {
    RoundToIsNear(x, MICRO);
  }

  /**
   Passing both rate gates already bounds the accuracy from below. The gates see rounded rates, so the
   exact accuracy may fall short of one minus the larger limit by half a millionth, and the reported
   accuracy by a millionth.
   */
  lemma RateGatesBoundAccuracy(p: Policy, cases: seq<Case>)
    requires Calibrate(cases).Success?
    requires FalsePassRate !in Failures(p, Reported(Calibrate(cases).value))
    requires FalseFailRate !in Failures(p, Reported(Calibrate(cases).value))
    ensures var m := if p.maximumFalsePassRate >= p.maximumFalseFailRate then p.maximumFalsePassRate
            else p.maximumFalseFailRate;
            && Calibrate(cases).value.accuracy >= 1.0 - m - HALF_MICRO
            && Reported(Calibrate(cases).value).accuracy >= 1.0 - m - HALF_MICRO - HALF_MICRO
  {
    var r := Calibrate(cases).value;
    EveryCaseCounts(cases);
    RatePassed(p, Reported(r));
    ReportedIsNear(r.falsePassRate);
    ReportedIsNear(r.falseFailRate);
    ReportedIsNear(r.accuracy);
    RatesBoundAccuracy(Count(cases, true, Pass), Count(cases, false, Fail), Count(cases, false, Pass),
        Count(cases, true, Fail), p.maximumFalsePassRate + HALF_MICRO, p.maximumFalseFailRate + HALF_MICRO);
  }

  lemma RatesBoundAccuracy(tp: nat, tn: nat, fp: nat, fn: nat, x: real, y: real)
    requires tp + tn + fp + fn > 0 && Share(fp, fp + tn) <= x && Share(fn, fn + tp) <= y
    ensures (tp + tn) as real / (tp + tn + fp + fn) as real >= 1.0 - (if x >= y then x else y)
  {
    var m := if x >= y then x else y;
    ShareBound(fp, fp + tn, m);
    ShareBound(fn, fn + tp, m);
    AccuracyFromErrors(tp, tn, fp, fn, m);
  }

  lemma RatePassed(p: Policy, r: Report)
    ensures FalsePassRate !in Failures(p, r) <==> r.falsePassRate <= p.maximumFalsePassRate
    ensures FalseFailRate !in Failures(p, r) <==> r.falseFailRate <= p.maximumFalseFailRate
  {
  }

  lemma AccuracyFromErrors(tp: nat, tn: nat, fp: nat, fn: nat, m: real)
    requires tp + tn + fp + fn > 0
    requires fp as real <= m * (fp + tn) as real && fn as real <= m * (fn + tp) as real
    ensures (tp + tn) as real / (tp + tn + fp + fn) as real >= 1.0 - m
  {
    var n := (tp + tn + fp + fn) as real;
    assert m * (fp + tn) as real + m * (fn + tp) as real == m * n;
    var q := (tp + tn) as real / n;
    assert q * n == (tp + tn) as real;
    assert (q - (1.0 - m)) * n >= 0.0;
    NonnegativeFactor(q - (1.0 - m), n);
  }
}
