/** Retry delays, over exact reals. */
module Backoff {
  import opened Prelude

  /** An absent jitterRatio is 0. */
  datatype RetryPolicy = RetryPolicy(maxAttempts: int, baseDelayMs: real, maxDelayMs: real, jitterRatio: real,
                                     deadlineMs: Option<real>)

  predicate ValidPolicy(p: RetryPolicy) {
    && p.maxAttempts >= 1
    && 0.0 <= p.baseDelayMs <= p.maxDelayMs
    && 0.0 <= p.jitterRatio <= 1.0
    && (p.deadlineMs.Some? ==> p.deadlineMs.value >= 0.0)
  }

  function RMin(a: real, b: real): real { if a < b then a else b }

  function RMax(a: real, b: real): real { if a < b then b else a }

  function Doubled(x: real, times: nat): real {
    if times == 0 then x else 2.0 * Doubled(x, times - 1)
  }

  /** Math.round: to the nearest integer, halves upwards. */
  function Round(x: real): int { (x + 0.5).Floor }

  function Exponential(p: RetryPolicy, attempt: nat): real
    requires attempt >= 1
  {
    RMin(p.maxDelayMs, Doubled(p.baseDelayMs, attempt - 1))
  }

  function Jittered(p: RetryPolicy, attempt: nat, random: real): real
    requires attempt >= 1
  {
    Exponential(p, attempt) * (1.0 + (random * 2.0 - 1.0) * p.jitterRatio)
  }

  /** None is the thrown validation error. A retryAfterMs that is not finite is
      the same as none. */
  function ComputeBackoffDelay(p: RetryPolicy, attempt: int, random: real, retryAfterMs: Option<real>): Option<int> {
    if !ValidPolicy(p) || attempt < 1 || random < 0.0 || random > 1.0 then None
    else
      var jittered := Jittered(p, attempt, random);
      var requested := match retryAfterMs
                       case None => jittered
                       case Some(ms) => RMax(jittered, RMax(0.0, ms));
      Some(Round(RMin(p.maxDelayMs, RMax(0.0, requested))))
  }

  lemma DelayRefusedExactly(p: RetryPolicy, attempt: int, random: real, retryAfterMs: Option<real>)
    ensures ComputeBackoffDelay(p, attempt, random, retryAfterMs).None? <==>
            !ValidPolicy(p) || attempt < 1 || !(0.0 <= random <= 1.0)
  {
    hide Jittered, Round;
  }

  lemma RoundMonotone(x: real, y: real)
    requires x <= y
    ensures Round(x) <= Round(y)
  {
  }

  lemma RoundNear(x: real)
    ensures x - 0.5 < Round(x) as real <= x + 0.5
  {
  }

  lemma {:induction false} DoubledMonotone(x: real, a: nat, b: nat)
    requires 0.0 <= x && a <= b
    ensures 0.0 <= Doubled(x, a) <= Doubled(x, b)
  {
    if b > 0 {
      DoubledMonotone(x, if a < b then a else a - 1, b - 1);
    }
  }

  /** A delay is never negative and never above the rounded maximum. */
  lemma DelayBounds(p: RetryPolicy, attempt: int, random: real, retryAfterMs: Option<real>)
    ensures ComputeBackoffDelay(p, attempt, random, retryAfterMs).Some? ==>
              0 <= ComputeBackoffDelay(p, attempt, random, retryAfterMs).value <= Round(p.maxDelayMs)
  {
    if ComputeBackoffDelay(p, attempt, random, retryAfterMs).Some? {
      ClampedBounds(p, attempt, random, retryAfterMs);
    }
  }

  lemma ClampedBounds(p: RetryPolicy, attempt: int, random: real, retryAfterMs: Option<real>)
    requires ComputeBackoffDelay(p, attempt, random, retryAfterMs).Some?
    ensures 0 <= ComputeBackoffDelay(p, attempt, random, retryAfterMs).value <= Round(p.maxDelayMs)
  {
    hide Jittered;
    RoundMonotone(0.0, RMin(p.maxDelayMs, RMax(0.0, p.maxDelayMs)));
    var jittered := Jittered(p, attempt, random);
    var requested := match retryAfterMs
                     case None => jittered
                     case Some(ms) => RMax(jittered, RMax(0.0, ms));
    var clamped := RMin(p.maxDelayMs, RMax(0.0, requested));
    assert 0.0 <= clamped <= p.maxDelayMs;
    RoundMonotone(0.0, clamped);
    RoundMonotone(clamped, p.maxDelayMs);
    assert Round(0.0) == 0;
  }

  /** Rounding happens after the cap, so the cap itself is only kept when it does
      not round up: every delay stays within maxDelayMs if and only if its
      fractional part is below one half, as for every integer. */
  lemma CapIsKept(p: RetryPolicy)
    requires ValidPolicy(p)
    ensures (forall attempt: int, random: real, retryAfterMs: Option<real> ::
               ComputeBackoffDelay(p, attempt, random, retryAfterMs).Some? ==>
                 ComputeBackoffDelay(p, attempt, random, retryAfterMs).value as real <= p.maxDelayMs)
            <==> p.maxDelayMs - p.maxDelayMs.Floor as real < 0.5
  {
    hide ComputeBackoffDelay;
    var whole := p.maxDelayMs.Floor;
    if p.maxDelayMs - whole as real < 0.5 {
      assert Round(p.maxDelayMs) == whole;
      forall attempt: int, random: real, retryAfterMs: Option<real> |
        ComputeBackoffDelay(p, attempt, random, retryAfterMs).Some?
        ensures ComputeBackoffDelay(p, attempt, random, retryAfterMs).value as real <= p.maxDelayMs
      {
        DelayBounds(p, attempt, random, retryAfterMs);
      }
    } else {
      AskingForTheMaximum(p);
      assert Round(p.maxDelayMs) == whole + 1;
      assert ComputeBackoffDelay(p, 1, 0.0, Some(p.maxDelayMs)).value as real > p.maxDelayMs;
    }
  }

  lemma AskingForTheMaximum(p: RetryPolicy)
    requires ValidPolicy(p)
    ensures ComputeBackoffDelay(p, 1, 0.0, Some(p.maxDelayMs)) == Some(Round(p.maxDelayMs))
  {
    var jittered := Jittered(p, 1, 0.0);
    var requested := RMax(jittered, RMax(0.0, p.maxDelayMs));
    assert requested >= p.maxDelayMs;
  }

  /** Without jitter a later attempt never waits less. */
  lemma LaterWaitsLonger(p: RetryPolicy, a: int, b: int, ra: real, rb: real, retryAfterMs: Option<real>)
    requires ValidPolicy(p) && p.jitterRatio == 0.0 && 1 <= a <= b
    requires 0.0 <= ra <= 1.0 && 0.0 <= rb <= 1.0
    ensures ComputeBackoffDelay(p, a, ra, retryAfterMs).value <= ComputeBackoffDelay(p, b, rb, retryAfterMs).value
  {
    DoubledMonotone(p.baseDelayMs, a - 1, b - 1);
    assert Jittered(p, a, ra) == Exponential(p, a) && Jittered(p, b, rb) == Exponential(p, b);
    var x := match retryAfterMs case None => Exponential(p, a) case Some(ms) => RMax(Exponential(p, a), RMax(0.0, ms));
    var y := match retryAfterMs case None => Exponential(p, b) case Some(ms) => RMax(Exponential(p, b), RMax(0.0, ms));
    RoundMonotone(RMin(p.maxDelayMs, RMax(0.0, x)), RMin(p.maxDelayMs, RMax(0.0, y)));
  }

  /** What the server asks for is honoured up to the cap, to half a millisecond. */
  lemma RetryAfterIsHonoured(p: RetryPolicy, attempt: int, random: real, retryAfterMs: real)
    requires ComputeBackoffDelay(p, attempt, random, Some(retryAfterMs)).Some?
    ensures var delayMs := ComputeBackoffDelay(p, attempt, random, Some(retryAfterMs)).value;
            delayMs as real > RMin(p.maxDelayMs, retryAfterMs) - 0.5
  {
    hide Jittered;
    var requested := RMax(Jittered(p, attempt, random), RMax(0.0, retryAfterMs));
    var clamped := RMin(p.maxDelayMs, RMax(0.0, requested));
    assert clamped >= RMin(p.maxDelayMs, retryAfterMs);
    RoundNear(clamped);
  }

  /** The guard before every sleep: it must end by the deadline. */
  predicate SleepFits(p: RetryPolicy, elapsedMs: real, delayMs: int) {
    p.deadlineMs.Some? ==> elapsedMs + delayMs as real <= p.deadlineMs.value
  }

  // --- How long a delay is ---

  function PowerOfTwo(n: nat): nat { if n == 0 then 1 else 2 * PowerOfTwo(n - 1) }

  lemma {:induction false} DoubledIsPower(x: real, n: nat)
    ensures Doubled(x, n) == x * PowerOfTwo(n) as real
  {
    if n > 0 {
      DoubledIsPower(x, n - 1);
    }
  }

  /** The integer nearest to x, the upper one of two. */
  predicate IsNearest(n: int, x: real) { n as real - 0.5 <= x < n as real + 0.5 }

  /** x, but no more than the cap and no less than nothing. */
  function Capped(p: RetryPolicy, x: real): real {
    if x > p.maxDelayMs then p.maxDelayMs else if x < 0.0 then 0.0 else x
  }

  /** The delay before jitter: the base doubled with every attempt, up to the cap. */
  function PlainDelay(p: RetryPolicy, attempt: nat): real
    requires attempt >= 1
  {
    Capped(p, p.baseDelayMs * PowerOfTwo(attempt - 1) as real)
  }

  lemma PlainIsExponential(p: RetryPolicy, attempt: nat)
    requires ValidPolicy(p) && attempt >= 1
    ensures Exponential(p, attempt) == PlainDelay(p, attempt) && 0.0 <= PlainDelay(p, attempt) <= p.maxDelayMs
  {
    DoubledIsPower(p.baseDelayMs, attempt - 1);
    DoubledMonotone(p.baseDelayMs, attempt - 1, attempt - 1);
  }

  /** Random 0 takes the jitter's share off the plain delay, random 1/2 leaves it, and
      random 1 adds the share, up to the cap. */
  lemma JitterExactly(p: RetryPolicy, attempt: nat)
    requires ValidPolicy(p) && attempt >= 1
    ensures var plain := PlainDelay(p, attempt);
            var least, middle, most := ComputeBackoffDelay(p, attempt, 0.0, None),
                ComputeBackoffDelay(p, attempt, 0.5, None), ComputeBackoffDelay(p, attempt, 1.0, None);
            && least.Some? && IsNearest(least.value, plain - plain * p.jitterRatio)
            && middle.Some? && IsNearest(middle.value, plain)
            && most.Some? && IsNearest(most.value, Capped(p, plain + plain * p.jitterRatio))
  {
    hide Jittered, PlainDelay, ComputeBackoffDelay, IsNearest;
    PlainIsExponential(p, attempt);
    var plain := PlainDelay(p, attempt);
    var share := plain * p.jitterRatio;
    ShareFits(plain, p.jitterRatio);
    AtRandom(p, attempt, 0.0);
    AtRandom(p, attempt, 0.5);
    AtRandom(p, attempt, 1.0);
    DelayNear(p, attempt, 0.0, plain - share);
    DelayNear(p, attempt, 0.5, plain);
    DelayNear(p, attempt, 1.0, plain + share);
  }

  lemma DelayNear(p: RetryPolicy, attempt: nat, random: real, x: real)
    requires ValidPolicy(p) && attempt >= 1 && 0.0 <= random <= 1.0 && Jittered(p, attempt, random) == x
    ensures var delayMs := ComputeBackoffDelay(p, attempt, random, None);
            delayMs.Some? && IsNearest(delayMs.value, Capped(p, x))
  {
    hide Jittered;
    RoundNear(RMin(p.maxDelayMs, RMax(0.0, x)));
  }

  lemma ShareFits(plain: real, ratio: real)
    requires 0.0 <= plain && 0.0 <= ratio <= 1.0
    ensures 0.0 <= plain * ratio <= plain
  {
  }

  lemma AtRandom(p: RetryPolicy, attempt: nat, random: real)
    requires ValidPolicy(p) && attempt >= 1
    ensures Jittered(p, attempt, random) == PlainDelay(p, attempt)
            + (2.0 * random - 1.0) * (PlainDelay(p, attempt) * p.jitterRatio)
  {
    PlainIsExponential(p, attempt);
  }

  /** In between, the delay grows with the random number; without jitter it does not
      depend on it. */
  lemma DelayGrowsWithRandom(p: RetryPolicy, attempt: nat, a: real, b: real)
    requires ValidPolicy(p) && attempt >= 1 && 0.0 <= a <= b <= 1.0
    ensures ComputeBackoffDelay(p, attempt, a, None).value <= ComputeBackoffDelay(p, attempt, b, None).value
    ensures p.jitterRatio == 0.0 ==> IsNearest(ComputeBackoffDelay(p, attempt, a, None).value, PlainDelay(p, attempt))
  {
    hide Jittered, PlainDelay, Round;
    PlainIsExponential(p, attempt);
    AtRandom(p, attempt, a);
    AtRandom(p, attempt, b);
    var plain := PlainDelay(p, attempt);
    var share := plain * p.jitterRatio;
    ShareFits(plain, p.jitterRatio);
    GrowsWithFactor(2.0 * a - 1.0, 2.0 * b - 1.0, share);
    var x, y := Jittered(p, attempt, a), Jittered(p, attempt, b);
    assert x <= y;
    RoundMonotone(RMin(p.maxDelayMs, RMax(0.0, x)), RMin(p.maxDelayMs, RMax(0.0, y)));
    RoundNear(RMin(p.maxDelayMs, RMax(0.0, x)));
    if p.jitterRatio == 0.0 {
      assert share == 0.0 && x == plain;
    }
  }

  lemma GrowsWithFactor(a: real, b: real, share: real)
    requires a <= b && share >= 0.0
    ensures a * share <= b * share
  {
  }

  /** A delay the server asks for is taken up to the cap, if it is the longer one. */
  lemma RequestedExactly(p: RetryPolicy, attempt: int, random: real, ms: real)
    requires ComputeBackoffDelay(p, attempt, random, None).Some?
    ensures ComputeBackoffDelay(p, attempt, random, Some(ms)).Some?
    ensures exists n :: IsNearest(n, Capped(p, ms)) &&
              ComputeBackoffDelay(p, attempt, random, Some(ms)).value ==
              Max(n, ComputeBackoffDelay(p, attempt, random, None).value)
  {
    hide Jittered;
    var jittered := Jittered(p, attempt, random);
    var own, asked := RMin(p.maxDelayMs, RMax(0.0, jittered)), Capped(p, ms);
    RoundNear(asked);
    assert IsNearest(Round(asked), asked);
    if own <= asked {
      RoundMonotone(own, asked);
    } else {
      RoundMonotone(asked, own);
    }
    assert RMin(p.maxDelayMs, RMax(0.0, RMax(jittered, RMax(0.0, ms)))) == RMax(own, asked);
    hide Round;
  }
}
