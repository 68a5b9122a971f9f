/** Restart policies and the exponential restart delay. Durations are nanoseconds in a signed 64-bit word. */
module RestartPolicies {
  import opened Common

  datatype RestartPolicy = RestartPolicy(
    initialBackoff: int, multiplier: int, maxBackoff: int, maxFailures: int, stableWindow: int)

  /** `validateRestartPolicy`, over values that fit their machine words. */
  predicate ValidPolicy(p: RestartPolicy) {
    && 0 < p.initialBackoff <= p.maxBackoff <= MAX_INT64
    && 1 <= p.multiplier <= MAX_UINT64
    && 1 <= p.maxFailures <= MAX_INT64
    && 0 < p.stableWindow <= MAX_INT64
  }

  function Power(base: int, exponent: nat): int {
    if exponent == 0 then 1 else base * Power(base, exponent - 1)
  }

  function Min(a: int, b: int): int {
    if a <= b then a else b
  }

  /** The delay a policy prescribes after a number of consecutive failures, in unbounded arithmetic. */
  function PrescribedDelay(p: RestartPolicy, failures: int): int {
    if failures <= 1 then p.initialBackoff else Min(p.maxBackoff, p.initialBackoff * Power(p.multiplier, failures - 1))
  }

  lemma {:induction false} PowerGrows(base: int, m: nat, n: nat)
    requires base >= 1 && m <= n
    ensures 1 <= Power(base, m) <= Power(base, n)
    decreases n
  {
    if n == 0 {
    } else if m == n {
      PowerGrows(base, n - 1, n - 1);
      Scale(1, base, Power(base, n - 1));
    } else {
      PowerGrows(base, m, n - 1);
      Scale(1, base, Power(base, n - 1));
    }
  }

  lemma Scale(a: int, b: int, c: int)
    requires a <= b && 0 <= c
    ensures a * c <= b * c
  {
  }

  /** Once the prefix reaches the cap, the prescribed delay is the cap. */
  lemma CapReached(p: RestartPolicy, count: nat, failures: nat)
    requires ValidPolicy(p) && 1 <= count && count <= failures - 1
    requires p.initialBackoff * Power(p.multiplier, count - 1) * p.multiplier > p.maxBackoff
          || p.initialBackoff * Power(p.multiplier, count - 1) >= p.maxBackoff
    ensures PrescribedDelay(p, failures) == p.maxBackoff
  {
    var reached := p.initialBackoff * Power(p.multiplier, count - 1);
    PowerGrows(p.multiplier, count - 1, count);
    PowerGrows(p.multiplier, count, failures - 1);
    Monotone(p.initialBackoff, Power(p.multiplier, count - 1), Power(p.multiplier, count));
    Monotone(p.initialBackoff, Power(p.multiplier, count), Power(p.multiplier, failures - 1));
    Regroup(p.initialBackoff, p.multiplier, Power(p.multiplier, count - 1));
  }

  lemma Monotone(a: int, b: int, c: int)
    requires 0 <= a && b <= c
    ensures a * b <= a * c
  {
  }

  lemma Regroup(a: int, b: int, c: int)
    ensures a * c * b == a * (b * c)
  {
  }

  /** The quotient test never rounds the product past the cap, so the product fits its machine word. */
  lemma QuotientBoundsProduct(cap: int, delay: int, multiplier: int)
    requires 0 < delay && 0 <= cap
    ensures multiplier > cap / delay <==> delay * multiplier > cap
  {
    var q := cap / delay;
    assert cap == delay * q + cap % delay;
    if multiplier > q {
      Monotone(delay, q + 1, multiplier);
      assert delay * (q + 1) == delay * q + delay;
    } else {
      Monotone(delay, multiplier, q);
    }
  }

  /** `restartDelay`: the loop yields the prescribed delay and every intermediate value fits 64 bits. */
  method RestartDelay(p: RestartPolicy, failures: int) returns (delay: int)
    requires ValidPolicy(p)
    ensures delay == PrescribedDelay(p, failures)
    ensures 0 < delay <= p.maxBackoff
  {
    if failures <= 1 { return p.initialBackoff; }
    delay := p.initialBackoff;
    var count := 1;
    while count < failures
      invariant 1 <= count <= failures
      invariant delay == p.initialBackoff * Power(p.multiplier, count - 1)
      invariant 0 < delay <= p.maxBackoff
    {
      if delay >= p.maxBackoff {
        CapReached(p, count, failures);
        return p.maxBackoff;
      }
      QuotientBoundsProduct(p.maxBackoff, delay, p.multiplier);
      if p.multiplier > p.maxBackoff / delay {
        CapReached(p, count, failures);
        return p.maxBackoff;
      }
      assert delay * p.multiplier <= MAX_INT64;
      Regroup(p.initialBackoff, p.multiplier, Power(p.multiplier, count - 1));
      Monotone(delay, 1, p.multiplier);
      delay := delay * p.multiplier;
      count := count + 1;
    }
    if delay > p.maxBackoff { return p.maxBackoff; }
  }

  /** Delays never shrink as failures accumulate. */
  lemma DelayIsMonotone(p: RestartPolicy, few: int, many: int)
    requires ValidPolicy(p) && few <= many
    ensures PrescribedDelay(p, few) <= PrescribedDelay(p, many)
  {
    if many > 1 {
      var m := if few <= 1 then 0 else few - 1;
      PowerGrows(p.multiplier, m, many - 1);
      Monotone(p.initialBackoff, Power(p.multiplier, m), Power(p.multiplier, many - 1));
    }
  }

  /** The first delay is the initial backoff, and each further failure multiplies the delay until the cap is reached. */
  lemma DelayMultiplies(p: RestartPolicy, failures: int)
    requires ValidPolicy(p) && failures >= 1
    ensures PrescribedDelay(p, 1) == p.initialBackoff
    ensures var next := PrescribedDelay(p, failures) * p.multiplier;
            PrescribedDelay(p, failures + 1) == if next <= p.maxBackoff then next else p.maxBackoff
  {
    var power := Power(p.multiplier, failures - 1);
    PowerGrows(p.multiplier, 0, failures - 1);
    Regroup(p.initialBackoff, p.multiplier, power);
    Monotone(p.initialBackoff, 1, power);
    if p.initialBackoff * power > p.maxBackoff {
      Monotone(p.initialBackoff * power, 1, p.multiplier);
      Monotone(p.maxBackoff, 1, p.multiplier);
    }
  }
}
