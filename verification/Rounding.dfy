/** Rounding to a fixed number of decimals, on exact reals. */
module Rounding {
  import opened Reals

  /** The scale of six decimals. */
  const MICRO := 1_000_000

  /** The integer nearest to y, and of two equally near the even one, as Python rounds. */
  function Nearest(y: real): int {
    var f := y.Floor;
    var d := y - f as real;
    if d < 0.5 || (d == 0.5 && f % 2 == 0) then f else f + 1
  }

  function RoundTo(x: real, scale: int): real
    requires scale > 0
  {
    Nearest(x * scale as real) as real / scale as real
  }

  lemma NearestMonotone(x: real, y: real)
    requires x <= y
    ensures Nearest(x) <= Nearest(y)
  {
    assert x.Floor <= y.Floor;
  }

  /** Rounding is monotone and leaves whole multiples of 1 / scale alone. */
  lemma RoundToMonotone(x: real, y: real, scale: int)
    requires scale > 0 && x <= y
    ensures RoundTo(x, scale) <= RoundTo(y, scale)
  {
    assert x * scale as real <= y * scale as real;
    NearestMonotone(x * scale as real, y * scale as real);
  }

  lemma RoundToFixes(k: int, scale: int)
    requires scale > 0
    ensures RoundTo(k as real / scale as real, scale) == k as real / scale as real
  {
    DivideThenMultiply(k as real, scale as real);
    RoundToWhole(k as real / scale as real, scale, k);
  }

  lemma RoundToWhole(x: real, scale: int, k: int)
    requires scale > 0 && x * scale as real == k as real
    ensures RoundTo(x, scale) == k as real / scale as real
  {
    assert (k as real).Floor == k;
    assert Nearest(x * scale as real) == k;
  }

  lemma NearestIsNear(y: real)
    ensures y - 0.5 <= Nearest(y) as real <= y + 0.5
  {
  }

  lemma DifferenceTimes(a: real, b: real, w: real)
    ensures (a - b) * w == a * w - b * w
  {
  }

  lemma QuotientAtMost(k: real, w: real, b: real)
    requires w > 0.0 && k <= b * w
    ensures k / w <= b
  {
    DivideThenMultiply(k, w);
    DifferenceTimes(b, k / w, w);
    NonnegativeFactor(b - k / w, w);
  }

  lemma QuotientAtLeast(k: real, w: real, b: real)
    requires w > 0.0 && b * w <= k
    ensures b <= k / w
  {
    DivideThenMultiply(k, w);
    DifferenceTimes(k / w, b, w);
    NonnegativeFactor(k / w - b, w);
  }

  /** Dividing by w turns a distance of one half into one of 0.5 / w. */
  lemma HalfUnit(x: real, y: real, k: real, w: real)
    requires w > 0.0 && y == x * w && y - 0.5 <= k <= y + 0.5
    ensures x - 0.5 / w <= k / w <= x + 0.5 / w
  {
    var h := 0.5 / w;
    DivideThenMultiply(0.5, w);
    Distribute(w, x, h);
    Distribute(w, x, -h);
    QuotientAtMost(k, w, x + h);
    QuotientAtLeast(k, w, x - h);
  }

  lemma RoundToUnfolds(x: real, scale: int) returns (k: real)
    requires scale > 0
    ensures x * scale as real - 0.5 <= k <= x * scale as real + 0.5
    ensures RoundTo(x, scale) == k / scale as real
  {
    k := Nearest(x * scale as real) as real;
    NearestIsNear(x * scale as real);
  }

  /** Rounding moves a number by at most half a unit in the last place. */
  lemma RoundToIsNear(x: real, scale: int)
    requires scale > 0
    ensures x - 0.5 / scale as real <= RoundTo(x, scale) <= x + 0.5 / scale as real
  {
    var k := RoundToUnfolds(x, scale);
    HalfUnit(x, x * scale as real, k, scale as real);
  }
}
