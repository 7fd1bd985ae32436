/** The readiness probe: `Client.Version` retries with a backoff of 1.5 in integers, and sleeps without looking at its
    context, so it returns after its deadline. All times are in nanoseconds. */
module Probe {

  const FIRST_DELAY: nat := 100_000_000
  const ATTEMPT_TIMEOUT: nat := 500_000_000
  const PROBE_BUDGET: nat := 2_000_000_000

  // Half as long again, rounded down.
  function NextDelay(delay: nat): nat {
    delay + delay / 2
  }

  // The delay after k failures.
  function Delay(d0: nat, k: nat): nat {
    if k == 0 then d0 else NextDelay(Delay(d0, k - 1))
  }

  // The nominal time slept in the first k sleeps.
  function Slept(d0: nat, k: nat): nat {
    if k == 0 then 0 else Slept(d0, k - 1) + Delay(d0, k - 1)
  }

  function Pow(b: nat, k: nat): nat {
    if k == 0 then 1 else b * Pow(b, k - 1)
  }

  // One retry: how long the attempt took, whether it succeeded, and by how much the sleep after it ran over.
  datatype Attempt = Attempt(duration: nat, ok: bool, oversleep: nat)

  /** The backoff never outruns the time already slept by more than a half: integer division only helps. */
  lemma {:induction false} DelayBySleep(d0: nat, k: nat)
    ensures 2 * Delay(d0, k) <= 2 * d0 + Slept(d0, k)
  {
    if k > 0 {
      DelayBySleep(d0, k - 1);
    }
  }

  // Growth of the delay, from both sides.
  lemma {:induction false} DelayGrowth(d0: nat, k: nat)
    requires d0 >= 1
    ensures Pow(3, k) * (d0 - 1) <= (Delay(d0, k) - 1) * Pow(2, k)
    ensures Delay(d0, k) * Pow(2, k) <= Pow(3, k) * d0
  {
    if k > 0 {
      DelayGrowth(d0, k - 1);
      var d, p, q := Delay(d0, k - 1), Pow(2, k - 1), Pow(3, k - 1);
      GrowthFromBelow(d, p, q, d0);
      GrowthFromAbove(d, p, q, d0);
    }
  }

  lemma GrowthFromBelow(d: nat, p: nat, q: nat, d0: nat)
    requires d0 >= 1 && q * (d0 - 1) <= (d - 1) * p
    ensures (3 * q) * (d0 - 1) <= (NextDelay(d) - 1) * (2 * p)
  {
    var e := NextDelay(d);
    MulMonotone(3 * (d - 1), 2 * (e - 1), p);
    assert (3 * q) * (d0 - 1) == 3 * (q * (d0 - 1));
    assert (3 * (d - 1)) * p == 3 * ((d - 1) * p);
    assert (2 * (e - 1)) * p == (e - 1) * (2 * p);
  }

  lemma GrowthFromAbove(d: nat, p: nat, q: nat, d0: nat)
    requires d * p <= q * d0
    ensures NextDelay(d) * (2 * p) <= (3 * q) * d0
  {
    var e := NextDelay(d);
    MulMonotone(2 * e, 3 * d, p);
    assert e * (2 * p) == (2 * e) * p;
    assert (3 * d) * p == 3 * (d * p);
    assert (3 * q) * d0 == 3 * (q * d0);
  }

  lemma MulMonotone(a: int, b: int, c: nat)
    requires a <= b
    ensures a * c <= b * c
  {
  }

  /** The number of attempts is logarithmic in the budget: if the first k sleeps fit into it, then (3/2)^k is at most
      (2 d0 + budget) / (2 (d0 - 1)). */
  lemma AttemptsAreLogarithmic(d0: nat, k: nat, budget: nat)
    requires d0 >= 1 && Slept(d0, k) <= budget
    ensures 2 * (Pow(3, k) * (d0 - 1)) <= (2 * d0 + budget) * Pow(2, k)
  {
    DelayGrowth(d0, k);
    DelayBySleep(d0, k);
    Doubled(Pow(3, k) * (d0 - 1), Delay(d0, k) - 1, Pow(2, k), 2 * d0 + budget);
  }

  lemma Doubled(x: int, a: int, p: nat, b: int)
    requires x <= a * p && 2 * a <= b
    ensures 2 * x <= b * p
  {
    MulMonotone(2 * a, b, p);
    assert 2 * (a * p) == (2 * a) * p;
  }

  // With the delay of the source, the sixth sleep ends after the budget, whatever the attempts take.
  lemma SixSleepsExhaust()
    ensures Slept(FIRST_DELAY, 5) == 1_318_750_000 && Delay(FIRST_DELAY, 5) == 759_375_000
    ensures Slept(FIRST_DELAY, 6) > PROBE_BUDGET
    ensures forall k: nat :: k <= 5 ==> Delay(FIRST_DELAY, k) <= 759_375_000
  {
    assert Delay(FIRST_DELAY, 1) == 150_000_000;
    assert Delay(FIRST_DELAY, 2) == 225_000_000;
    assert Delay(FIRST_DELAY, 3) == 337_500_000;
    assert Delay(FIRST_DELAY, 4) == 506_250_000;
    assert Delay(FIRST_DELAY, 5) == 759_375_000;
    assert Slept(FIRST_DELAY, 1) == 100_000_000;
    assert Slept(FIRST_DELAY, 2) == 250_000_000;
    assert Slept(FIRST_DELAY, 3) == 475_000_000;
    assert Slept(FIRST_DELAY, 4) == 812_500_000;
    assert Slept(FIRST_DELAY, 5) == 1_318_750_000;
  }

  lemma {:induction false} SleptGrows(d0: nat, j: nat, k: nat)
    requires j <= k
    ensures Slept(d0, j) <= Slept(d0, k)
  {
    if j < k {
      SleptGrows(d0, j, k - 1);
    }
  }

  // When the k-th attempt starts, or would start, if the ones before it failed.
  function StartOf(attempts: nat -> Attempt, d0: nat, k: nat): nat {
    if k == 0 then 0
    else StartOf(attempts, d0, k - 1) + attempts(k - 1).duration + Delay(d0, k - 1) + attempts(k - 1).oversleep
  }

  // An attempt ends by its own timeout and by the caller's deadline, and a sleep after its time, but for at most late.
  ghost predicate Behaves(attempts: nat -> Attempt, d0: nat, k: nat, budget: nat, late: nat) {
    StartOf(attempts, d0, k) < budget ==>
      && attempts(k).duration <= ATTEMPT_TIMEOUT + late
      && StartOf(attempts, d0, k) + attempts(k).duration <= budget + late
      && attempts(k).oversleep <= late
  }

  ghost predicate AllBehave(attempts: nat -> Attempt, d0: nat, budget: nat, late: nat) {
    forall k: nat :: Behaves(attempts, d0, k, budget, late)
  }

  // The k-th attempt started before the deadline and failed.
  ghost predicate FailedInTime(attempts: nat -> Attempt, d0: nat, k: nat, budget: nat) {
    StartOf(attempts, d0, k) < budget && !attempts(k).ok
  }

  // The first n attempts started before the deadline and failed.
  ghost predicate AllFailed(attempts: nat -> Attempt, d0: nat, n: nat, budget: nat) {
    forall k: nat :: k < n ==> FailedInTime(attempts, d0, k, budget)
  }

  /** What a probe comes to: the first attempt to succeed started before the deadline, or the deadline had passed when
      the next one would have started. */
  ghost predicate Returns(attempts: nat -> Attempt, d0: nat, budget: nat, ok: bool, elapsed: nat, tried: nat) {
    if ok then
      && tried > 0 && AllFailed(attempts, d0, tried - 1, budget)
      && StartOf(attempts, d0, tried - 1) < budget && attempts(tried - 1).ok
      && elapsed == StartOf(attempts, d0, tried - 1) + attempts(tried - 1).duration
    else
      AllFailed(attempts, d0, tried, budget) && budget <= StartOf(attempts, d0, tried) == elapsed
  }

  // A probe comes to one thing only.
  lemma ReturnsOnce(attempts: nat -> Attempt, d0: nat, budget: nat, ok: bool, elapsed: nat, tried: nat,
                    ok': bool, elapsed': nat, tried': nat)
    requires Returns(attempts, d0, budget, ok, elapsed, tried)
    requires Returns(attempts, d0, budget, ok', elapsed', tried')
    ensures ok == ok' && elapsed == elapsed' && tried == tried'
  {
    var n := if ok then tried - 1 else tried;
    var n' := if ok' then tried' - 1 else tried';
    assert n < n' ==> FailedInTime(attempts, d0, n, budget);
    assert n' < n ==> FailedInTime(attempts, d0, n', budget);
  }

  // What n failures in time say about the time of the next attempt.
  lemma {:induction false} AfterFailures(attempts: nat -> Attempt, d0: nat, n: nat, budget: nat, late: nat)
    requires AllBehave(attempts, d0, budget, late) && AllFailed(attempts, d0, n, budget)
    ensures Slept(d0, n) <= StartOf(attempts, d0, n)
    ensures n > 0 ==> Slept(d0, n - 1) < budget && StartOf(attempts, d0, n) <= budget + Delay(d0, n - 1) + 2 * late
  {
    if n > 0 {
      AfterFailures(attempts, d0, n - 1, budget, late);
      assert FailedInTime(attempts, d0, n - 1, budget);
      assert Behaves(attempts, d0, n - 1, budget, late);
    }
  }

  /** A probe that succeeds returns by its deadline, but for a late attempt. Any probe returns no later than half the
      budget, the first delay, one late attempt and one late sleep after its deadline, and no later than its last sleep
      takes it; and all its sleeps but the last end before the deadline. */
  ghost predicate InBounds(d0: nat, budget: nat, late: nat, ok: bool, elapsed: nat, tried: nat) {
    && (ok ==> elapsed <= budget + late)
    && 2 * elapsed <= 2 * budget + budget + 2 * d0 + 4 * late
    && (tried > 0 ==> Slept(d0, tried - 1) < budget && elapsed <= budget + Delay(d0, tried - 1) + 2 * late)
  }

  // Whatever the attempts are like.
  lemma ReturnsInTime(attempts: nat -> Attempt, d0: nat, budget: nat, late: nat, ok: bool, elapsed: nat, tried: nat)
    requires AllBehave(attempts, d0, budget, late) && Returns(attempts, d0, budget, ok, elapsed, tried)
    ensures InBounds(d0, budget, late, ok, elapsed, tried)
  {
    if ok {
      AfterFailures(attempts, d0, tried - 1, budget, late);
      assert Behaves(attempts, d0, tried - 1, budget, late);
    } else if tried > 0 {
      AfterFailures(attempts, d0, tried, budget, late);
      DelayBySleep(d0, tried - 1);
    }
  }

  lemma {:induction false} DelayStaysPositive(d0: nat, k: nat)
    requires d0 >= 1
    ensures Delay(d0, k) >= 1
  {
    if k > 0 {
      DelayStaysPositive(d0, k - 1);
    }
  }

  lemma OneMoreFailure(attempts: nat -> Attempt, d0: nat, n: nat, budget: nat)
    requires d0 >= 1 && AllFailed(attempts, d0, n, budget) && FailedInTime(attempts, d0, n, budget)
    ensures AllFailed(attempts, d0, n + 1, budget) && Delay(d0, n + 1) == NextDelay(Delay(d0, n))
    ensures StartOf(attempts, d0, n + 1)
            == StartOf(attempts, d0, n) + attempts(n).duration + Delay(d0, n) + attempts(n).oversleep
    ensures StartOf(attempts, d0, n + 1) > StartOf(attempts, d0, n)
  {
    DelayStaysPositive(d0, n);
  }

  /** Version. The environment is an argument: what the k-th attempt and the sleep after it are like. It answers
      success exactly if an attempt that started before the deadline succeeded after only failures, and it returns
      at most half the budget, the first delay and the lateness of an attempt and a sleep after its deadline. */
  method Version(attempts: nat -> Attempt, d0: nat, budget: nat, late: nat)
    returns (ok: bool, elapsed: nat, tried: nat)
    requires d0 >= 1
    requires AllBehave(attempts, d0, budget, late)
    ensures Returns(attempts, d0, budget, ok, elapsed, tried)
    ensures InBounds(d0, budget, late, ok, elapsed, tried)
  {
    var delay := d0;
    elapsed := 0;
    tried := 0;
    while elapsed < budget
      invariant delay == Delay(d0, tried) && elapsed == StartOf(attempts, d0, tried)
      invariant AllFailed(attempts, d0, tried, budget)
      decreases if elapsed < budget then budget - elapsed else 0
    {
      var attempt := attempts(tried);
      tried := tried + 1;
      if attempt.ok {
        elapsed := elapsed + attempt.duration;
        ReturnsInTime(attempts, d0, budget, late, true, elapsed, tried);
        return true, elapsed, tried;
      }
      OneMoreFailure(attempts, d0, tried - 1, budget);
      elapsed := elapsed + attempt.duration + delay + attempt.oversleep;
      delay := NextDelay(delay);
    }
    ok := false;
    ReturnsInTime(attempts, d0, budget, late, ok, elapsed, tried);
  }

  // ---- The probe of create

  // How long the probe of create can take, as long as it fails.
  function LongestProbe(late: nat): nat {
    PROBE_BUDGET + 759_375_000 + 2 * late
  }

  lemma CreateProbeReturns(attempts: nat -> Attempt, late: nat, ok: bool, elapsed: nat, tried: nat)
    requires AllBehave(attempts, FIRST_DELAY, PROBE_BUDGET, late)
    requires Returns(attempts, FIRST_DELAY, PROBE_BUDGET, ok, elapsed, tried)
    ensures tried <= 6 && elapsed <= LongestProbe(late)
  {
    ReturnsInTime(attempts, FIRST_DELAY, PROBE_BUDGET, late, ok, elapsed, tried);
    SixSleepsExhaust();
    if tried > 6 {
      SleptGrows(FIRST_DELAY, 6, tried - 1);
    }
  }

  /** With the constants of the source: at most six attempts, and a return at most 759.375 ms (and the lateness of an
      attempt and a sleep) after the two seconds. This is how long `create` holds the mutex for the probe. */
  method CreateProbe(attempts: nat -> Attempt, late: nat) returns (ok: bool, elapsed: nat, tried: nat)
    requires AllBehave(attempts, FIRST_DELAY, PROBE_BUDGET, late)
    ensures Returns(attempts, FIRST_DELAY, PROBE_BUDGET, ok, elapsed, tried)
    ensures tried <= 6
    ensures elapsed <= LongestProbe(late) == 2_759_375_000 + 2 * late
    ensures ok ==> elapsed <= 2_000_000_000 + late
  {
    ok, elapsed, tried := Version(attempts, FIRST_DELAY, PROBE_BUDGET, late);
    CreateProbeReturns(attempts, late, ok, elapsed, tried);
  }

  // The first attempt times out, the sixth is cut off by the deadline, both late; the others are refused at once.
  function Slowest(late: nat): nat -> Attempt {
    (k: nat) => Attempt(if k == 0 then ATTEMPT_TIMEOUT else if k == 5 then 181_250_000 + late else 0, false,
                        if k == 5 then late else 0)
  }

  lemma SlowestStarts(late: nat, k: nat)
    ensures 0 < k <= 5 ==> StartOf(Slowest(late), FIRST_DELAY, k) == Slept(FIRST_DELAY, k) + ATTEMPT_TIMEOUT
    ensures k == 6 ==> StartOf(Slowest(late), FIRST_DELAY, k) == LongestProbe(late)
    ensures k > 6 ==> StartOf(Slowest(late), FIRST_DELAY, k) >= PROBE_BUDGET
  {
    if k == 6 {
      SixSleepsExhaust();
      SlowestStarts(late, 5);
    } else if k > 0 {
      SlowestStarts(late, k - 1);
    }
  }

  // The bound of CreateProbe is reached: with these attempts, which behave, that is what the probe comes to.
  lemma OvershootIsReached(late: nat)
    ensures AllBehave(Slowest(late), FIRST_DELAY, PROBE_BUDGET, late)
    ensures Returns(Slowest(late), FIRST_DELAY, PROBE_BUDGET, false, LongestProbe(late), 6)
    ensures StartOf(Slowest(late), FIRST_DELAY, 1) == 500_000_000 + 100_000_000
  {
    SixSleepsExhaust();
    SlowestStarts(late, 6);
    forall k: nat
      ensures Behaves(Slowest(late), FIRST_DELAY, k, PROBE_BUDGET, late)
      ensures k <= 5 ==> StartOf(Slowest(late), FIRST_DELAY, k) < PROBE_BUDGET
    {
      SlowestStarts(late, k);
      if 0 < k <= 5 {
        SleptGrows(FIRST_DELAY, k, 5);
      }
    }
  }

  // If the attempts behave, the probe of create is over at most m after the two seconds.
  ghost predicate OverBy(attempts: nat -> Attempt, late: nat, m: nat, ok: bool, elapsed: nat, tried: nat) {
    AllBehave(attempts, FIRST_DELAY, PROBE_BUDGET, late)
    && Returns(attempts, FIRST_DELAY, PROBE_BUDGET, ok, elapsed, tried) ==>
      elapsed <= 2_000_000_000 + m
  }

  /** The probe of create gives up after the two seconds and at most m, whatever the attempts are like, if and only if m
      covers the sleep that follows a sixth attempt, and the lateness. It does not after the two seconds themselves. */
  lemma ProbeTimeIsExact(late: nat, m: nat)
    ensures 759_375_000 + 2 * late <= m <==>
            forall attempts: nat -> Attempt, ok, elapsed: nat, tried: nat ::
              OverBy(attempts, late, m, ok, elapsed, tried)
  {
    if 759_375_000 + 2 * late <= m {
      forall attempts: nat -> Attempt, ok, elapsed: nat, tried: nat
        ensures OverBy(attempts, late, m, ok, elapsed, tried)
      {
        if AllBehave(attempts, FIRST_DELAY, PROBE_BUDGET, late)
           && Returns(attempts, FIRST_DELAY, PROBE_BUDGET, ok, elapsed, tried) {
          CreateProbeReturns(attempts, late, ok, elapsed, tried);
        }
      }
    } else {
      OvershootIsReached(late);
      assert !OverBy(Slowest(late), late, m, false, LongestProbe(late), 6);
    }
  }
}
