/**
 What the filters do, said without their formulas: how far each sample moves the output,
 how fast a steady input is reached, and what the cutoff and the time between samples
 have to do with it.
 */
module FilterRules {
  import opened Common
  import opened Filters

  // ---- The smoothing factor ----

  /** The factor is the share that x = 2 pi * cutoff * dt has in 1 + x. */
  predicate IsShare(alpha: real, x: real) {
    alpha * (1.0 + x) == x
  }

  lemma LowPassIsShare(pi: real, cutoff: real, dt: real)
    requires pi > 0.0 && cutoff > 0.0 && dt > 0.0
    ensures IsShare(LowPassAlpha(pi, cutoff, dt), 2.0 * pi * cutoff * dt)
  {
    var y := 2.0 * pi * cutoff;
    assert y > 0.0;
    var tau := 1.0 / y;
    Inverse(y);
    var z := tau / dt;
    assert z * dt == tau;
    Shared(y, dt, tau, z);
  }

  lemma Inverse(y: real)
    requires y > 0.0
    ensures 1.0 / y > 0.0 && 1.0 / y * y == 1.0
  {
  }

  lemma Shared(y: real, dt: real, tau: real, z: real)
    requires y > 0.0 && dt > 0.0 && tau > 0.0 && tau * y == 1.0 && z * dt == tau && z > 0.0
    ensures 1.0 / (1.0 + z) * (1.0 + y * dt) == y * dt
  {
    var x := y * dt;
    calc {
      z * x;
    ==
      z * dt * y;
    ==
      tau * y;
    ==
      1.0;
    }
    var alpha := 1.0 / (1.0 + z);
    assert alpha * (1.0 + z) == 1.0;
    assert (1.0 + z) * x == x + 1.0;
    calc {
      alpha * (1.0 + x);
    ==
      alpha * ((1.0 + z) * x);
    ==
      alpha * (1.0 + z) * x;
    ==
      x;
    }
  }

  lemma ShareRises(a: real, x: real, b: real, y: real)
    requires IsShare(a, x) && IsShare(b, y) && 0.0 < x <= y
    ensures a <= b && (x < y ==> a < b)
  {
    assert (1.0 - a) * (1.0 + x) == 1.0 && (1.0 - b) * (1.0 + y) == 1.0;
    ReciprocalFalls(1.0 - a, 1.0 + x, 1.0 - b, 1.0 + y);
  }

  lemma ReciprocalFalls(p: real, u: real, q: real, v: real)
    requires p * u == 1.0 && q * v == 1.0 && 0.0 < u <= v
    ensures q <= p && (u < v ==> q < p)
  {
    PositiveFactor(q, v);
    Product(q, v - u);
    assert (p - q) * u == q * (v - u);
    NonnegativeFactor(p - q, u);
    if u < v {
      Positive(q, v - u);
      PositiveFactor(p - q, u);
    }
  }

  lemma PositiveFactor(a: real, b: real)
    requires a * b > 0.0 && b > 0.0
    ensures a > 0.0
  {
    if a <= 0.0 { Product(-a, b); }
  }

  lemma NonnegativeFactor(a: real, b: real)
    requires a * b >= 0.0 && b > 0.0
    ensures a >= 0.0
  {
    if a < 0.0 { Positive(-a, b); }
  }

  lemma Product(a: real, b: real)
    requires a >= 0.0 && b >= 0.0
    ensures a * b >= 0.0
  {
  }

  lemma Positive(a: real, b: real)
    requires a > 0.0 && b > 0.0
    ensures a * b > 0.0
  {
  }

  /** A longer time between samples, or a higher cutoff, gives the new sample more weight. */
  lemma LowPassRises(pi: real, cutoff: real, dt: real, higher: real, longer: real)
    requires pi > 0.0 && 0.0 < cutoff <= higher && 0.0 < dt <= longer
    ensures LowPassAlpha(pi, cutoff, dt) <= LowPassAlpha(pi, higher, longer)
    ensures cutoff < higher || dt < longer ==> LowPassAlpha(pi, cutoff, dt) < LowPassAlpha(pi, higher, longer)
  {
    LowPassIsShare(pi, cutoff, dt);
    LowPassIsShare(pi, higher, longer);
    Scaled3(2.0 * pi, cutoff, dt, higher, longer);
    ShareRises(LowPassAlpha(pi, cutoff, dt), 2.0 * pi * cutoff * dt, LowPassAlpha(pi, higher, longer), 2.0 * pi * higher * longer);
  }

  lemma Scaled3(y: real, a: real, b: real, c: real, d: real)
    requires y > 0.0 && 0.0 < a <= c && 0.0 < b <= d
    ensures 0.0 < y * a * b <= y * c * d
    ensures a < c || b < d ==> y * a * b < y * c * d
  {
    Positive(y, a);
    Positive(y, c);
    Positive(y * a, b);
    Product(y, c - a);
    Product(y * c - y * a, b);
    Product(y * c, d - b);
    assert y * c * d - y * a * b == (y * c - y * a) * b + y * c * (d - b);
    if a < c {
      Positive(y, c - a);
      Positive(y * (c - a), b);
    }
    if b < d { Positive(y * c, d - b); }
  }

  /** The cutoff rises with the speed of the input, from the configured minimum at rest. */
  lemma CutoffRises(c: FilterConfig, slow: real, fast: real)
    requires c.OneEuro? && FilterValid(c) && Abs(slow) <= Abs(fast)
    ensures CutoffOf(c, 0.0) == c.minCutoff <= CutoffOf(c, slow) <= CutoffOf(c, fast)
    ensures CutoffOf(c, fast) - CutoffOf(c, slow) == c.beta * (Abs(fast) - Abs(slow))
  {
    Product(c.beta, Abs(slow));
    Product(c.beta, Abs(fast) - Abs(slow));
  }

  // ---- One sample ----

  /** After dt seconds, what is low-passed at the cutoff has gone its share of the way to the new value. */
  predicate Smooths(pi: real, cutoff: real, dt: real, before: real, value: real, after: real, share: real) {
    IsShare(share, 2.0 * pi * cutoff * dt) && after - before == share * (value - before)
  }

  /** The seconds and the slope of a change over so many nanoseconds. */
  predicate Measured(nanos: int, change: real, dt: real, slope: real) {
    dt * 1000000000.0 == nanos as real && slope * dt == change
  }

  /** One Euro: the slope of the input is low-passed, and so is the input, at a cutoff that rises with the slope. */
  predicate OneEuroMoves(pi: real, c: FilterConfig, s: FilterState, input: real, atNS: int, t: FilterState,
                         dt: real, slope: real, a: real, b: real)
    requires c.OneEuro?
  {
    && Measured(atNS - s.lastAtNS, input - s.lastRaw, dt, slope)
    && Smooths(pi, c.derivativeCutoff, dt, s.derivative, slope, t.derivative, a)
    && Smooths(pi, c.minCutoff + c.beta * Abs(t.derivative), dt, s.filtered, input, t.filtered, b)
  }

  /** How a sample moves a filter that has one already. */
  ghost predicate Moves(pi: real, c: FilterConfig, s: FilterState, input: real, atNS: int, t: FilterState) {
    match c
    case NoFilter => t.filtered == input && t.derivative == 0.0
    case Ema(alpha) => t.filtered - s.filtered == alpha * (input - s.filtered) && t.derivative == 0.0
    case OneEuro(_, _, _) => exists dt, slope, a, b :: OneEuroMoves(pi, c, s, input, atNS, t, dt, slope, a, b)
  }

  /** The first sample passes unchanged; a later one is refused if it is not later, else it moves the output. */
  lemma SampleMoves(pi: real, c: FilterConfig, s: FilterState, input: real, atNS: int)
    requires pi > 0.0 && FilterValid(c)
    ensures var r := Apply(pi, c, s, input, atNS);
            && (r.None? <==> s.initialized && atNS <= s.lastAtNS)
            && (r.Some? ==> r.value.initialized && r.value.lastAtNS == atNS && r.value.lastRaw == input)
            && (!s.initialized ==> r.value.filtered == input && r.value.derivative == 0.0)
            && (s.initialized && r.Some? ==> Moves(pi, c, s, input, atNS, r.value))
  {
    if s.initialized && s.lastAtNS < atNS {
      var t := Apply(pi, c, s, input, atNS).value;
      match c
      case NoFilter =>
      case Ema(alpha) => BlendIsStep(alpha, input, s.filtered);
      case OneEuro(_, _, _) => OneEuroStep(pi, c, s, input, atNS);
    }
  }

  lemma OneEuroStep(pi: real, c: FilterConfig, s: FilterState, input: real, atNS: int)
    requires pi > 0.0 && FilterValid(c) && c.OneEuro? && s.initialized && s.lastAtNS < atNS
    ensures Moves(pi, c, s, input, atNS, Apply(pi, c, s, input, atNS).value)
  {
    var t, dt := Apply(pi, c, s, input, atNS).value, Seconds(s.lastAtNS, atNS);
    var slope, cutoff := (input - s.lastRaw) / dt, CutoffOf(c, t.derivative);
    IsMeasured(s.lastAtNS, atNS, input - s.lastRaw);
    BlendSmooths(pi, c.derivativeCutoff, dt, s.derivative, slope, t.derivative);
    BlendSmooths(pi, cutoff, dt, s.filtered, input, t.filtered);
    assert OneEuroMoves(pi, c, s, input, atNS, t, dt, slope, LowPassAlpha(pi, c.derivativeCutoff, dt), LowPassAlpha(pi, cutoff, dt));
  }

  lemma IsMeasured(fromNS: int, toNS: int, change: real)
    requires fromNS < toNS
    ensures Measured(toNS - fromNS, change, Seconds(fromNS, toNS), change / Seconds(fromNS, toNS))
  {
    SlopeTimes(change, Seconds(fromNS, toNS));
  }

  lemma SlopeTimes(x: real, dt: real)
    requires dt > 0.0
    ensures x / dt * dt == x
  {
  }

  lemma BlendSmooths(pi: real, cutoff: real, dt: real, before: real, value: real, after: real)
    requires pi > 0.0 && cutoff > 0.0 && dt > 0.0 && after == Blend(LowPassAlpha(pi, cutoff, dt), value, before)
    ensures Smooths(pi, cutoff, dt, before, value, after, LowPassAlpha(pi, cutoff, dt))
  {
    LowPassIsShare(pi, cutoff, dt);
    BlendIsStep(LowPassAlpha(pi, cutoff, dt), value, before);
  }

  // ---- A steady input ----

  function Power(r: real, n: nat): real {
    if n == 0 then 1.0 else r * Power(r, n - 1)
  }

  /** The state after more samples; None as soon as one is refused. */
  function Later(pi: real, c: FilterConfig, s: FilterState, samples: seq<Sample>): Option<FilterState>
    requires pi > 0.0 && FilterValid(c)
  {
    if samples == [] then Some(s) else
      var last := samples[|samples| - 1];
      var before := Later(pi, c, s, samples[..|samples| - 1]);
      if before.None? then None else Apply(pi, c, before.value, last.input, last.atNS)
  }

  lemma {:induction false} FeedGoesOn(pi: real, c: FilterConfig, before: seq<Sample>, tail: seq<Sample>)
    requires pi > 0.0 && FilterValid(c)
    ensures Feed(pi, c, before + tail) ==
            if Feed(pi, c, before).None? then None else Later(pi, c, Feed(pi, c, before).value, tail)
  {
    if tail == [] {
      assert before + tail == before;
    } else {
      var all := before + tail;
      assert all[..|all| - 1] == before + tail[..|tail| - 1];
      FeedGoesOn(pi, c, before, tail[..|tail| - 1]);
    }
  }

  lemma {:induction false} LastSample(pi: real, c: FilterConfig, s: FilterState, samples: seq<Sample>)
    requires pi > 0.0 && FilterValid(c) && s.initialized && Later(pi, c, s, samples).Some?
    ensures var t := Later(pi, c, s, samples).value;
            && t.initialized
            && t.lastRaw == (if samples == [] then s.lastRaw else samples[|samples| - 1].input)
            && t.lastAtNS == (if samples == [] then s.lastAtNS else samples[|samples| - 1].atNS)
  {
  }

  predicate All(samples: seq<Sample>, x: real) {
    forall k | 0 <= k < |samples| :: samples[k].input == x
  }

  /** An exponential average comes closer to a steady input by the same factor each time. */
  lemma {:induction false} EmaHomesIn(pi: real, alpha: real, s: FilterState, samples: seq<Sample>, x: real)
    requires pi > 0.0 && 0.0 < alpha <= 1.0 && s.initialized && All(samples, x) && Later(pi, Ema(alpha), s, samples).Some?
    ensures ScaledBy(1.0 - alpha, |samples|, s.filtered - x, Later(pi, Ema(alpha), s, samples).value.filtered - x)
  {
    if samples != [] {
      var n := |samples| - 1;
      EmaHomesIn(pi, alpha, s, samples[..n], x);
      LastSample(pi, Ema(alpha), s, samples[..n]);
      var t := Later(pi, Ema(alpha), s, samples[..n]).value;
      assert samples[n].input == x;
      EmaStep(alpha, x, t.filtered);
      OneFactorMore(1.0 - alpha, n, s.filtered - x, t.filtered - x, Blend(alpha, x, t.filtered) - x);
    }
  }

  lemma EmaStep(alpha: real, x: real, before: real)
    ensures ScaledOnce(1.0 - alpha, before - x, Blend(alpha, x, before) - x)
  {
    BlendIsStep(alpha, x, before);
  }

  /** The distance is r to the n of what it was. */
  predicate ScaledBy(r: real, n: nat, first: real, distance: real) {
    distance == Power(r, n) * first
  }

  predicate ScaledOnce(r: real, before: real, after: real) {
    after == r * before
  }

  lemma OneFactorMore(r: real, n: nat, first: real, distance: real, next: real)
    requires ScaledBy(r, n, first, distance) && ScaledOnce(r, distance, next)
    ensures ScaledBy(r, n + 1, first, next)
  {
    assert r * (Power(r, n) * first) == Power(r, n + 1) * first;
  }

  /** So it comes as close to it as one likes. */
  lemma EmaSettles(pi: real, alpha: real, s: FilterState, x: real, bound: real) returns (n: nat)
    requires pi > 0.0 && 0.0 < alpha <= 1.0 && s.initialized && bound > 0.0
    ensures forall samples | |samples| == n && All(samples, x) && Later(pi, Ema(alpha), s, samples).Some? ::
              Abs(Later(pi, Ema(alpha), s, samples).value.filtered - x) < bound
  {
    n := Enough(1.0 - alpha, s.filtered - x, bound);
    forall samples | |samples| == n && All(samples, x) && Later(pi, Ema(alpha), s, samples).Some?
      ensures Abs(Later(pi, Ema(alpha), s, samples).value.filtered - x) < bound
    {
      EmaHomesIn(pi, alpha, s, samples, x);
      ScaledIsLeft(1.0 - alpha, n, s.filtered - x, Later(pi, Ema(alpha), s, samples).value.filtered - x);
      Near(1.0 - alpha, n, s.filtered - x, Later(pi, Ema(alpha), s, samples).value.filtered - x, bound);
    }
  }

  lemma ScaledIsLeft(r: real, n: nat, first: real, distance: real)
    requires 0.0 <= r < 1.0 && ScaledBy(r, n, first, distance)
    ensures Left(r, n, first, distance)
  {
    PowerIsSmall(r, n);
    SizeOfProduct(Power(r, n), first);
  }

  /** After so many factors nothing is left above the bound. */
  predicate Suffices(r: real, n: nat, first: real, bound: real) {
    Power(r, n) * Abs(first) < bound
  }

  lemma Near(r: real, n: nat, first: real, distance: real, bound: real)
    requires Left(r, n, first, distance) && Suffices(r, n, first, bound)
    ensures Abs(distance) < bound
  {
  }

  lemma SizeOfProduct(p: real, d: real)
    requires p >= 0.0
    ensures Abs(p * d) == p * Abs(d)
  {
    Product(p, Abs(d));
    if d < 0.0 { assert p * d == -(p * Abs(d)); }
  }

  /** So many factors bring the distance below the bound. */
  lemma Enough(r: real, distance: real, bound: real) returns (n: nat)
    requires 0.0 <= r < 1.0 && bound > 0.0
    ensures Suffices(r, n, distance, bound)
  {
    var size := Abs(distance) + 1.0;
    var share := bound / size;
    SlopeTimes(bound, size);
    PositiveFactor(share, size);
    n := PowerVanishes(r, share);
    PowerIsSmall(r, n);
    Positive(share - Power(r, n), size);
    assert (share - Power(r, n)) * size == bound - Power(r, n) * size;
    assert Power(r, n) * size == Power(r, n) * Abs(distance) + Power(r, n);
  }

  /** With alpha = 1 it shows its last input. */
  lemma AlphaOneFollows(pi: real, samples: seq<Sample>)
    requires pi > 0.0 && samples != [] && Feed(pi, Ema(1.0), samples).Some?
    ensures Feed(pi, Ema(1.0), samples).value.filtered == samples[|samples| - 1].input
  {
    var n := |samples| - 1;
    SampleMoves(pi, Ema(1.0), Feed(pi, Ema(1.0), samples[..n]).value, samples[n].input, samples[n].atNS);
  }

  /** The samples come at least so many nanoseconds apart, also the first after the time given. */
  predicate Apart(fromNS: int, samples: seq<Sample>, apart: int) {
    forall k | 0 <= k < |samples| :: samples[k].atNS >= TimeBefore(fromNS, samples, k) + apart
  }

  function TimeBefore(fromNS: int, samples: seq<Sample>, k: nat): int
    requires k <= |samples|
  {
    if k == 0 then fromNS else samples[k - 1].atNS
  }

  lemma OneLess(fromNS: int, samples: seq<Sample>, x: real, apart: int)
    requires samples != [] && All(samples, x) && Apart(fromNS, samples, apart)
    ensures var n := |samples| - 1;
            && All(samples[..n], x) && Apart(fromNS, samples[..n], apart) && samples[n].input == x
            && samples[n].atNS >= TimeBefore(fromNS, samples[..n], n) + apart
  {
    var n := |samples| - 1;
    forall k | 0 <= k < n ensures samples[..n][k].atNS >= TimeBefore(fromNS, samples[..n], k) + apart {
      assert TimeBefore(fromNS, samples[..n], k) == TimeBefore(fromNS, samples, k);
    }
    assert TimeBefore(fromNS, samples[..n], n) == TimeBefore(fromNS, samples, n) && samples[n].input == x;
  }

  /** At most r to the n of a distance is left. */
  predicate Left(r: real, n: nat, first: real, distance: real) {
    Abs(distance) <= Power(r, n) * Abs(first)
  }

  /** At most r times a distance is left. */
  predicate Lessened(r: real, before: real, after: real) {
    Abs(after) <= r * Abs(before)
  }

  /** How little is left of the slope and of the distance to the input. */
  predicate HomedIn(pi: real, c: FilterConfig, s: FilterState, t: FilterState, n: nat, apart: int)
    requires pi > 0.0 && FilterValid(c) && c.OneEuro? && apart > 0
  {
    var dt := Seconds(0, apart);
    && Left(1.0 - LowPassAlpha(pi, c.derivativeCutoff, dt), n, s.derivative, t.derivative)
    && Left(1.0 - LowPassAlpha(pi, c.minCutoff, dt), n, s.filtered - s.lastRaw, t.filtered - s.lastRaw)
  }

  /** While the input rests, the filtered slope of a One Euro filter dies away, and its output comes to the input. */
  lemma {:induction false} OneEuroHomesIn(pi: real, c: FilterConfig, s: FilterState, samples: seq<Sample>, apart: int)
    requires pi > 0.0 && FilterValid(c) && c.OneEuro? && apart > 0 && s.initialized
    requires All(samples, s.lastRaw) && Apart(s.lastAtNS, samples, apart) && Later(pi, c, s, samples).Some?
    ensures HomedIn(pi, c, s, Later(pi, c, s, samples).value, |samples|, apart)
  {
    if samples != [] {
      var n := |samples| - 1;
      OneLess(s.lastAtNS, samples, s.lastRaw, apart);
      OneEuroHomesIn(pi, c, s, samples[..n], apart);
      LastSample(pi, c, s, samples[..n]);
      HomesInFurther(pi, c, s, Later(pi, c, s, samples[..n]).value, n, samples[n].atNS, apart);
    }
  }

  lemma HomesInFurther(pi: real, c: FilterConfig, s: FilterState, t: FilterState, n: nat, atNS: int, apart: int)
    requires pi > 0.0 && FilterValid(c) && c.OneEuro? && apart > 0 && t.initialized && t.lastRaw == s.lastRaw
    requires atNS - t.lastAtNS >= apart && HomedIn(pi, c, s, t, n, apart)
    ensures HomedIn(pi, c, s, Apply(pi, c, t, s.lastRaw, atNS).value, n + 1, apart)
  {
    var x, u := s.lastRaw, Apply(pi, c, t, s.lastRaw, atNS).value;
    var a, b := LowPassAlpha(pi, c.derivativeCutoff, Seconds(0, apart)), LowPassAlpha(pi, c.minCutoff, Seconds(0, apart));
    RestingSlope(pi, c, t, x, atNS, apart);
    RestingOutput(pi, c, t, x, atNS, apart);
    OneFactorLess(1.0 - a, n, s.derivative, t.derivative, u.derivative);
    OneFactorLess(1.0 - b, n, s.filtered - x, t.filtered - x, u.filtered - x);
  }

  /** So the output comes as close to the resting input as one likes, and so does the slope to zero. */
  lemma OneEuroSettles(pi: real, c: FilterConfig, s: FilterState, apart: int, bound: real) returns (value: nat, slope: nat)
    requires pi > 0.0 && FilterValid(c) && c.OneEuro? && apart > 0 && s.initialized && bound > 0.0
    ensures forall samples | |samples| == value && Rests(pi, c, s, samples, apart) ::
              Abs(Later(pi, c, s, samples).value.filtered - s.lastRaw) < bound
    ensures forall samples | |samples| == slope && Rests(pi, c, s, samples, apart) ::
              Abs(Later(pi, c, s, samples).value.derivative) < bound
  {
    value := Enough(1.0 - LowPassAlpha(pi, c.minCutoff, Seconds(0, apart)), s.filtered - s.lastRaw, bound);
    slope := Enough(1.0 - LowPassAlpha(pi, c.derivativeCutoff, Seconds(0, apart)), s.derivative, bound);
    forall samples | |samples| == value && Rests(pi, c, s, samples, apart)
      ensures Abs(Later(pi, c, s, samples).value.filtered - s.lastRaw) < bound
    {
      OneEuroHomesIn(pi, c, s, samples, apart);
      Near(1.0 - LowPassAlpha(pi, c.minCutoff, Seconds(0, apart)), value, s.filtered - s.lastRaw,
           Later(pi, c, s, samples).value.filtered - s.lastRaw, bound);
    }
    forall samples | |samples| == slope && Rests(pi, c, s, samples, apart)
      ensures Abs(Later(pi, c, s, samples).value.derivative) < bound
    {
      OneEuroHomesIn(pi, c, s, samples, apart);
      Near(1.0 - LowPassAlpha(pi, c.derivativeCutoff, Seconds(0, apart)), slope, s.derivative,
           Later(pi, c, s, samples).value.derivative, bound);
    }
  }

  /** The input rests at its last value for these samples, which are all accepted. */
  predicate Rests(pi: real, c: FilterConfig, s: FilterState, samples: seq<Sample>, apart: int)
    requires pi > 0.0 && FilterValid(c)
  {
    All(samples, s.lastRaw) && Apart(s.lastAtNS, samples, apart) && Later(pi, c, s, samples).Some?
  }

  lemma OneFactorLess(r: real, n: nat, first: real, distance: real, next: real)
    requires 0.0 <= r && Left(r, n, first, distance) && Lessened(r, distance, next)
    ensures Left(r, n + 1, first, next)
  {
    ScaleLeft(r, Abs(distance), Power(r, n) * Abs(first));
    assert r * (Power(r, n) * Abs(first)) == Power(r, n + 1) * Abs(first);
  }

  /** One more sample of a resting input. */
  lemma RestingSlope(pi: real, c: FilterConfig, s: FilterState, x: real, atNS: int, apart: int)
    requires pi > 0.0 && FilterValid(c) && c.OneEuro? && s.initialized && s.lastRaw == x && 0 < apart <= atNS - s.lastAtNS
    ensures Lessened(1.0 - LowPassAlpha(pi, c.derivativeCutoff, Seconds(0, apart)), s.derivative, Apply(pi, c, s, x, atNS).value.derivative)
  {
    var dt, least := Seconds(s.lastAtNS, atNS), Seconds(0, apart);
    assert (x - s.lastRaw) / dt == 0.0;
    LongerWaits(s.lastAtNS, atNS, apart);
    LowPassRises(pi, c.derivativeCutoff, least, c.derivativeCutoff, dt);
    Remains(LowPassAlpha(pi, c.derivativeCutoff, dt), LowPassAlpha(pi, c.derivativeCutoff, least), 0.0, s.derivative,
            Apply(pi, c, s, x, atNS).value.derivative);
    assert s.derivative - 0.0 == s.derivative;
  }

  lemma LongerWaits(fromNS: int, toNS: int, apart: int)
    requires 0 < apart <= toNS - fromNS
    ensures Seconds(0, apart) <= Seconds(fromNS, toNS)
  {
  }

  lemma RestingOutput(pi: real, c: FilterConfig, s: FilterState, x: real, atNS: int, apart: int)
    requires pi > 0.0 && FilterValid(c) && c.OneEuro? && s.initialized && 0 < apart <= atNS - s.lastAtNS
    ensures Lessened(1.0 - LowPassAlpha(pi, c.minCutoff, Seconds(0, apart)), s.filtered - x, Apply(pi, c, s, x, atNS).value.filtered - x)
  {
    var t, dt, least := Apply(pi, c, s, x, atNS).value, Seconds(s.lastAtNS, atNS), Seconds(0, apart);
    var cutoff := CutoffOf(c, t.derivative);
    CutoffRises(c, 0.0, t.derivative);
    LongerWaits(s.lastAtNS, atNS, apart);
    LowPassRises(pi, c.minCutoff, least, cutoff, dt);
    Remains(LowPassAlpha(pi, cutoff, dt), LowPassAlpha(pi, c.minCutoff, least), x, s.filtered, t.filtered);
  }

  /** What is left of the distance when the new value gets at least so much weight. */
  lemma Remains(a: real, least: real, x: real, before: real, after: real)
    requires 0.0 < least <= a < 1.0 && after == Blend(a, x, before)
    ensures Lessened(1.0 - least, before - x, after - x)
  {
    BlendIsStep(a, x, before);
    var d := before - x;
    Product(a - least, Abs(d));
    Product(1.0 - a, Abs(d));
    assert after - x == (1.0 - a) * d;
    if d >= 0.0 {
      assert (1.0 - a) * d == (1.0 - a) * Abs(d);
    } else {
      assert (1.0 - a) * d == -((1.0 - a) * Abs(d));
    }
    assert (1.0 - least) * Abs(d) - (1.0 - a) * Abs(d) == (a - least) * Abs(d);
  }

  // ---- Powers of a factor below one vanish ----

  lemma {:induction false} PowerIsSmall(r: real, n: nat)
    requires 0.0 <= r < 1.0
    ensures 0.0 <= Power(r, n) && Power(r, n) * (1.0 + n as real * (1.0 - r)) <= 1.0
  {
    if n > 0 {
      var m, p := n - 1, Power(r, n - 1);
      PowerIsSmall(r, m);
      Product(r, p);
      var d := 1.0 - r;
      var u := 1.0 + m as real * d;
      assert 1.0 + n as real * d == u + d;
      FactorShrinks(r, d, u, m);
      Product(p, u - r * (u + d));
      assert p * u - r * p * (u + d) == p * (u - r * (u + d));
    }
  }

  lemma FactorShrinks(r: real, d: real, u: real, m: nat)
    requires 0.0 <= r < 1.0 && d == 1.0 - r && u == 1.0 + m as real * d
    ensures u - r * (u + d) >= 0.0
  {
    Product(m as real, d);
    assert u - r * (u + d) == d * u - r * d == d * (u - r);
    Product(d, u - r);
  }

  /** However small the bound, some number of samples brings the power below it. */
  lemma PowerVanishes(r: real, bound: real) returns (n: nat)
    requires 0.0 <= r < 1.0 && bound > 0.0
    ensures Power(r, n) < bound
  {
    var step := bound * (1.0 - r);
    Positive(bound, 1.0 - r);
    Inverse(step);
    n := (1.0 / step).Floor + 1;
    var k := n as real;
    Positive(k - 1.0 / step, step);
    assert (k - 1.0 / step) * step == k * step - 1.0;
    PowerIsSmall(r, n);
    Below(Power(r, n), bound, 1.0 + k * (1.0 - r), k * step);
  }

  lemma Below(p: real, bound: real, u: real, more: real)
    requires p * u <= 1.0 < more && bound > 0.0 && bound * (u - 1.0) == more && u >= 1.0
    ensures p < bound
  {
    assert bound * u == bound + more;
    assert (bound - p) * u > 0.0;
    PositiveFactor(bound - p, u);
  }
}
