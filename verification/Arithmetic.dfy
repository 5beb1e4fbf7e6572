/** Word sizes, and the facts about floored quotients that the rate and sampling bounds rest on. */
module Arithmetic {

  const TWO32: nat := 0x1_0000_0000
  const TWO64: nat := 0x1_0000_0000_0000_0000

  lemma MulMonotone(a: int, b: int, d: int)
    requires a <= b && d >= 0
    ensures a * d <= b * d
  {
  }

  lemma QuotientBound(n: int, d: int, total: nat)
    requires d > 0 && n * d <= total
    ensures n <= total / d
  {
    var q := total / d;
    assert total < q * d + d == (q + 1) * d;
    if n > q {
      MulMonotone(q + 1, n, d);
      assert false;
    }
  }

  lemma FloorUnique(a: nat, d: nat, k: int)
    requires d >= 1
    ensures k == a / d <==> k * d <= a < k * d + d
  {
    var f := a / d;
    assert f * d <= a < f * d + d;
    assert (k + 1) * d == k * d + d && (f + 1) * d == f * d + d;
    if k < f {
      MulMonotone(k + 1, f, d);
    } else if f < k {
      MulMonotone(f + 1, k, d);
    }
  }

  /** Adding `q` moves a floored quotient by `q / d`, or by one more when `d` does not divide `q`. */
  lemma FloorGap(a: nat, q: nat, d: nat)
    requires d >= 1
    ensures (a + q) / d - a / d == q / d || ((a + q) / d - a / d == q / d + 1 && q % d != 0)
  {
    var f, k := a / d, q / d;
    var x, r := a - f * d, q - k * d;
    FloorUnique(a, d, f);
    FloorUnique(q, d, k);
    assert (f + k) * d == f * d + k * d;
    if x + r < d {
      FloorUnique(a + q, d, f + k);
    } else {
      assert (f + k + 1) * d == (f + k) * d + d;
      FloorUnique(a + q, d, f + k + 1);
      assert r == q % d;
    }
  }

  /** Times at least `gap` apart spread over at least that many gaps. */
  lemma {:induction false} SpacedSpread(times: seq<nat>, gap: nat, lo: nat, hi: nat)
    requires lo <= hi < |times|
    requires forall i | 0 <= i < |times| - 1 :: times[i + 1] - times[i] >= gap
    ensures times[hi] - times[lo] >= (hi - lo) * gap
    decreases hi
  {
    if lo < hi {
      SpacedSpread(times, gap, lo, hi - 1);
      assert times[hi - 1 + 1] - times[hi - 1] >= gap;
      assert (hi - lo) * gap == (hi - 1 - lo) * gap + gap;
    }
  }

  /** How a number compares with `total / rate`, without the division. */
  lemma Quotient(total: real, rate: real, y: real)
    requires rate > 0.0
    ensures y <= total / rate <==> y * rate <= total
  {
    var x := total / rate;
    assert x * rate == total;
    if y <= x {
      RealMulMonotone(y, x, rate);
    } else {
      assert (y - x) * rate > 0.0;
    }
  }

  /** An interval of a `rate`-th of `total`, rounded down: how it compares, in terms of the rate. */
  lemma FloorRate(total: nat, rate: real, n: int)
    requires rate > 0.0
    ensures (total as real / rate).Floor >= 0
    ensures (total as real / rate).Floor as real * rate <= total as real
    ensures n < (total as real / rate).Floor <==> (n + 1) as real * rate <= total as real
  {
    var x := total as real / rate;
    Quotient(total as real, rate, 0.0);
    Quotient(total as real, rate, x.Floor as real);
    Quotient(total as real, rate, (n + 1) as real);
    assert n < x.Floor <==> (n + 1) as real <= x;
  }

  lemma RealMulMonotone(a: real, b: real, d: real)
    requires a <= b && d >= 0.0
    ensures a * d <= b * d
  {
  }

  lemma RealRate(n: real, q: real, total: real, rate: real, length: real)
    requires 0.0 < rate <= total && total - rate <= q * rate && n * q <= length && 0.0 <= length
    ensures n * (total - rate) <= length * rate
  {
    if n >= 0.0 {
      RealMulMonotone(total - rate, q * rate, n);
      assert (q * rate) * n == (n * q) * rate;
      RealMulMonotone(n * q, length, rate);
    } else {
      RealMulMonotone(0.0, total - rate, -n);
      assert (total - rate) * -n == -(n * (total - rate));
      RealMulMonotone(0.0, length, rate);
    }
  }

  lemma IntervalSpans(total: nat, rate: real)
    requires rate > 0.0
    ensures var q := (total as real / rate).Floor;
            total as real - rate <= q as real * rate <= total as real
  {
    var q := (total as real / rate).Floor;
    FloorRate(total, rate, q);
    var y := (q + 1) as real;
    assert y == q as real + 1.0;
    assert y * rate == q as real * rate + rate;
  }

  /** `n` intervals that fit into `length`, in terms of the rate the interval was made from. */
  lemma RateOfIntervals(total: nat, rate: real, n: int, length: nat)
    requires 0.0 < rate <= total as real && n * (total as real / rate).Floor <= length
    ensures n as real * (total as real - rate) <= length as real * rate
  {
    var q := (total as real / rate).Floor;
    IntervalSpans(total, rate);
    assert (n * q) as real == n as real * q as real;
    RealRate(n as real, q as real, total as real, rate, length as real);
  }

  /** `n` intervals laid end to end, in terms of the rate. */
  lemma RateOfTicks(total: nat, rate: real, n: nat)
    requires rate > 0.0
    ensures var q := (total as real / rate).Floor;
            n as real * (total as real - rate) <= (n * q) as real * rate <= n as real * total as real
  {
    var q := (total as real / rate).Floor;
    IntervalSpans(total, rate);
    RealMulMonotone(total as real - rate, q as real * rate, n as real);
    RealMulMonotone(q as real * rate, total as real, n as real);
    assert (n * q) as real == n as real * q as real;
    assert n as real * (q as real * rate) == (n * q) as real * rate;
  }
}
