/** The vault rebate: simple interest in fixed point, rounded down. */
module Rebate {
  import opened Host

  const REBATE_BPS_SCALE: int := 10_000
  const SECONDS_PER_YEAR: int := 31_557_600
  const MAX_REBATE_RATE_BPS: int := 1_000
  const MIN_REBATE_THRESHOLD: int := 100
  const DENOMINATOR: int := REBATE_BPS_SCALE * SECONDS_PER_YEAR

  datatype RebateError = ArithmeticOverflow | InvalidRate | InsufficientPrincipal

  function CalculateRebate(principal: i128, apyBps: i128, seconds: u64): Result<i128, RebateError> {
    if !(0 <= apyBps <= MAX_REBATE_RATE_BPS) then Err(InvalidRate)
    else if principal < MIN_REBATE_THRESHOLD then Err(InsufficientPrincipal)
    else if !FitsI128(principal * apyBps) then Err(ArithmeticOverflow)
    else if !FitsI128(principal * apyBps * seconds) then Err(ArithmeticOverflow)
    else
      // Both operands are non-negative here, so truncation is rounding down.
      RebateFits(principal, apyBps, seconds);
      Ok(principal * apyBps * seconds / DENOMINATOR)
  }

  lemma RebateFits(principal: i128, apyBps: i128, seconds: u64)
    requires 0 <= apyBps && 0 <= principal && FitsI128(principal * apyBps * seconds)
    ensures 0 <= principal * apyBps * seconds / DENOMINATOR <= I128_MAX
  {
    ProductNonNegative(principal, apyBps, seconds);
    FloorBounds(principal * apyBps * seconds, DENOMINATOR);
  }

  lemma ProductNonNegative(x: int, y: int, z: int)
    requires 0 <= x && 0 <= y && 0 <= z
    ensures 0 <= x * y && 0 <= x * y * z
  {
    MulMonotone(x, 0, y);
    MulMonotone(x * y, 0, z);
  }

  lemma FloorBounds(n: int, d: int)
    requires 0 < d && 0 <= n
    ensures 0 <= n / d <= n
    ensures d * (n / d) <= n < d * (n / d) + d
  {
    MulMonotone(n / d, 1, d);
  }

  /** A quotient is pinned by the interval it leaves. */
  lemma FloorIsLargest(n: int, d: int, q: int)
    requires 0 < d && 0 <= n
    ensures d * q <= n ==> q <= n / d
    ensures n < d * q + d ==> n / d <= q
  {
    FloorBounds(n, d);
    if q > n / d { MulMonotone(d, n / d + 1, q); }
    if q < n / d { MulMonotone(d, q + 1, n / d); }
  }

  lemma FloorMonotone(m: int, n: int, d: int)
    requires 0 < d && 0 <= m <= n
    ensures m / d <= n / d
  {
    FloorBounds(m, d);
    FloorIsLargest(n, d, m / d);
  }

  lemma Distribute(d: int, p: int, q: int)
    ensures d * (p + q) == d * p + d * q
  {
  }

  /** Rounding two parts down loses at most one unit against rounding the whole. */
  lemma FloorSplit(m: int, n: int, d: int)
    requires 0 < d && 0 <= m && 0 <= n
    ensures m / d + n / d <= (m + n) / d <= m / d + n / d + 1
  {
    FloorBounds(m, d);
    FloorBounds(n, d);
    var (p, q) := (m / d, n / d);
    Distribute(d, p, q);
    Distribute(d, p + q, 1);
    FloorIsLargest(m + n, d, p + q);
    FloorIsLargest(m + n, d, p + q + 1);
  }

  /**
   The rebate is the whole quotient of principal x basis points x seconds by 10,000 years' seconds, and is
   refused, in this order, for a rate over ten percent, too small a principal, or a product over i128.
   */
  lemma RebateAnswersExactly(principal: i128, apyBps: i128, seconds: u64)
    ensures var r := CalculateRebate(principal, apyBps, seconds);
            var product := principal * apyBps * seconds;
            if apyBps < 0 || apyBps > 1_000 then r == Err(InvalidRate)
            else if principal < 100 then r == Err(InsufficientPrincipal)
            else if principal * apyBps > I128_MAX || product > I128_MAX then r == Err(ArithmeticOverflow)
            else r.Ok? && 315_576_000_000 * r.value <= product < 315_576_000_000 * (r.value + 1)
  {
    if 0 <= apyBps && 0 <= principal {
      ProductNonNegative(principal, apyBps, seconds);
      FloorBounds(principal * apyBps * seconds, DENOMINATOR);
    }
  }

  /** Where a longer time succeeds, so does a shorter one, and pays no more; likewise for principal and rate. */
  lemma RebateIsMonotone(p: i128, p': i128, r: i128, r': i128, t: u64, t': u64)
    requires MIN_REBATE_THRESHOLD <= p <= p' && 0 <= r <= r' && t <= t'
    requires CalculateRebate(p', r', t').Ok?
    ensures CalculateRebate(p, r, t).Ok?
    ensures CalculateRebate(p, r, t).value <= CalculateRebate(p', r', t').value
  {
    MulMonotone(p, r, r');
    MulMonotone(r', p, p');
    ProductNonNegative(p, r, t);
    MulMonotone(p * r, t, t');
    MulMonotone(t', p * r, p' * r');
    FloorMonotone(p * r * t, p' * r' * t', DENOMINATOR);
  }

  /** Ten percent a year is the most a rebate can reach. */
  lemma RebateIsBounded(principal: i128, apyBps: i128, seconds: u64)
    requires CalculateRebate(principal, apyBps, seconds).Ok?
    ensures 0 <= CalculateRebate(principal, apyBps, seconds).value <= principal * seconds / (10 * SECONDS_PER_YEAR)
  {
    var rebate := CalculateRebate(principal, apyBps, seconds).value;
    var n := principal * apyBps * seconds;
    RebateFits(principal, apyBps, seconds);
    ProductNonNegative(principal, apyBps, seconds);
    ProductNonNegative(principal, seconds, 0);
    FloorBounds(n, DENOMINATOR);
    MulMonotone(principal * seconds, apyBps, MAX_REBATE_RATE_BPS);
    assert n == principal * seconds * apyBps;
    assert MAX_REBATE_RATE_BPS * (10 * SECONDS_PER_YEAR) == DENOMINATOR;
    assert 10 * SECONDS_PER_YEAR * rebate <= principal * seconds;
    FloorIsLargest(principal * seconds, 10 * SECONDS_PER_YEAR, rebate);
  }

  function TotalTime(times: seq<u64>): nat {
    if |times| == 0 then 0 else times[0] + TotalTime(times[1..])
  }

  /** The rebates of the pieces, summed; only meaningful where each succeeds. */
  function TotalRebate(principal: i128, apyBps: i128, times: seq<u64>): int {
    if |times| == 0 then 0
    else
      (match CalculateRebate(principal, apyBps, times[0])
       case Ok(v) => v
       case Err(_) => 0) + TotalRebate(principal, apyBps, times[1..])
  }

  /**
   Splitting an interval never gains, and loses at most one unit a cut: where the whole interval's
   rebate is computed, so is every piece's, and n pieces sum to within n - 1 units below it.
   */
  lemma {:induction false} SplittingNeverGains(principal: i128, apyBps: i128, times: seq<u64>)
    requires |times| > 0 && TotalTime(times) <= U64_MAX
    requires CalculateRebate(principal, apyBps, TotalTime(times)).Ok?
    ensures forall i :: 0 <= i < |times| ==> CalculateRebate(principal, apyBps, times[i]).Ok?
    ensures var whole := CalculateRebate(principal, apyBps, TotalTime(times)).value;
            whole - (|times| - 1) <= TotalRebate(principal, apyBps, times) <= whole
  {
    var (t, rest) := (times[0], times[1..]);
    if |times| == 1 {
      assert TotalTime(rest) == 0 && TotalRebate(principal, apyBps, rest) == 0;
    } else {
      SplitOnce(principal, apyBps, t, TotalTime(rest));
      SplittingNeverGains(principal, apyBps, rest);
      forall i | 0 <= i < |times|
        ensures CalculateRebate(principal, apyBps, times[i]).Ok?
      {
        if i > 0 { assert times[i] == rest[i - 1]; }
      }
    }
  }

  /** One cut: both pieces succeed, and together fall short by at most one unit. */
  lemma SplitOnce(principal: i128, apyBps: i128, s: u64, t: u64)
    requires s + t <= U64_MAX && CalculateRebate(principal, apyBps, s + t).Ok?
    ensures CalculateRebate(principal, apyBps, s).Ok? && CalculateRebate(principal, apyBps, t).Ok?
    ensures 0 <= CalculateRebate(principal, apyBps, s + t).value
                 - CalculateRebate(principal, apyBps, s).value - CalculateRebate(principal, apyBps, t).value <= 1
  {
    RebateIsMonotone(principal, principal, apyBps, apyBps, s, s + t);
    RebateIsMonotone(principal, principal, apyBps, apyBps, t, s + t);
    var rate := principal * apyBps;
    ProductNonNegative(principal, apyBps, s);
    ProductNonNegative(principal, apyBps, t);
    assert rate * (s + t) == rate * s + rate * t;
    FloorSplit(rate * s, rate * t, DENOMINATOR);
  }
}
