/** Per-channel filters and dropout. Numbers are reals; pi is any positive constant. */
module Filters {
  import opened Common

  datatype FilterConfig =
    | NoFilter
    | Ema(alpha: real)
    | OneEuro(minCutoff: real, beta: real, derivativeCutoff: real)

  predicate FilterValid(c: FilterConfig) {
    match c
    case NoFilter => true
    case Ema(alpha) => 0.0 < alpha <= 1.0
    case OneEuro(minCutoff, beta, derivativeCutoff) => minCutoff > 0.0 && beta >= 0.0 && derivativeCutoff > 0.0
  }

  datatype FilterState = FilterState(initialized: bool, lastAtNS: int, lastRaw: real, filtered: real, derivative: real)

  const NEW_FILTER := FilterState(false, 0, 0.0, 0.0, 0.0)

  /** The smoothing factor of a first-order low pass, always strictly between 0 and 1. */
  function LowPassAlpha(pi: real, cutoff: real, dt: real): (alpha: real)
    requires pi > 0.0 && cutoff > 0.0 && dt > 0.0
    ensures 0.0 < alpha < 1.0
  {
    var tau := 1.0 / (2.0 * pi * cutoff);
    assert tau > 0.0;
    assert tau / dt > 0.0;
    1.0 / (1.0 + tau / dt)
  }

  function Blend(alpha: real, input: real, previous: real): real {
    alpha * input + (1.0 - alpha) * previous
  }

  lemma BlendIsStep(alpha: real, input: real, previous: real)
    ensures Blend(alpha, input, previous) == previous + alpha * (input - previous)
  {
  }

  lemma BlendFlips(alpha: real, input: real, previous: real)
    ensures Blend(alpha, input, previous) == Blend(1.0 - alpha, previous, input)
  {
  }

  lemma StepBetween(alpha: real, distance: real)
    requires 0.0 <= alpha <= 1.0 && 0.0 <= distance
    ensures 0.0 <= alpha * distance <= distance
  {
    ScaleLeft(distance, 0.0, alpha);
    ScaleLeft(distance, alpha, 1.0);
  }

  lemma BlendUpwards(alpha: real, input: real, previous: real)
    requires 0.0 <= alpha <= 1.0 && previous <= input
    ensures previous <= Blend(alpha, input, previous) <= input
  {
    BlendIsStep(alpha, input, previous);
    StepBetween(alpha, input - previous);
  }

  /** A convex combination lies between its arguments. */
  lemma BlendBetween(alpha: real, input: real, previous: real, lo: real, hi: real)
    requires 0.0 <= alpha <= 1.0 && lo <= input <= hi && lo <= previous <= hi
    ensures lo <= Blend(alpha, input, previous) <= hi
  {
    if previous <= input {
      BlendUpwards(alpha, input, previous);
    } else {
      BlendFlips(alpha, input, previous);
      BlendUpwards(1.0 - alpha, previous, input);
    }
  }

  lemma ScaleLeft(k: real, a: real, b: real)
    requires 0.0 <= k && a <= b
    ensures k * a <= k * b
  {
  }

  function Seconds(from: int, to: int): (dt: real)
    requires from < to
    ensures dt > 0.0
  {
    (to - from) as real / 1000000000.0
  }

  function CutoffOf(c: FilterConfig, derivative: real): (cutoff: real)
    requires c.OneEuro? && FilterValid(c)
    ensures cutoff > 0.0
  {
    assert c.beta * Abs(derivative) >= 0.0;
    c.minCutoff + c.beta * Abs(derivative)
  }

  /** `apply`: the first sample passes through; later ones must be strictly later and are smoothed. */
  function Apply(pi: real, c: FilterConfig, s: FilterState, input: real, atNS: int): Option<FilterState>
    requires pi > 0.0 && FilterValid(c)
  {
    if !s.initialized then Some(FilterState(true, atNS, input, input, 0.0))
    else if atNS <= s.lastAtNS then None
    else
      var dt := Seconds(s.lastAtNS, atNS);
      match c
      case NoFilter => Some(FilterState(true, atNS, input, input, 0.0))
      case Ema(alpha) => Some(FilterState(true, atNS, input, Blend(alpha, input, s.filtered), 0.0))
      case OneEuro(_, _, derivativeCutoff) =>
        var derivative := Blend(LowPassAlpha(pi, derivativeCutoff, dt), (input - s.lastRaw) / dt, s.derivative);
        var alpha := LowPassAlpha(pi, CutoffOf(c, derivative), dt);
        Some(FilterState(true, atNS, input, Blend(alpha, input, s.filtered), derivative))
  }

  datatype Sample = Sample(input: real, atNS: int)

  /** Feeding samples to a fresh filter; None as soon as one is refused. */
  function Feed(pi: real, c: FilterConfig, samples: seq<Sample>): Option<FilterState>
    requires pi > 0.0 && FilterValid(c)
  {
    if samples == [] then Some(NEW_FILTER) else
      var last := samples[|samples| - 1];
      var before := Feed(pi, c, samples[..|samples| - 1]);
      if before.None? then None else Apply(pi, c, before.value, last.input, last.atNS)
  }

  /** Since a reset, every output lies within any bounds on the inputs. */
  lemma {:induction false} OutputsStayWithinInputs(pi: real, c: FilterConfig, samples: seq<Sample>, lo: real, hi: real)
    requires pi > 0.0 && FilterValid(c) && samples != [] && Feed(pi, c, samples).Some?
    requires forall s | s in samples :: lo <= s.input <= hi
    ensures lo <= Feed(pi, c, samples).value.filtered <= hi
    ensures Feed(pi, c, samples).value.initialized && Feed(pi, c, samples).value.lastAtNS == samples[|samples| - 1].atNS
  {
    var n := |samples| - 1;
    var init, last := samples[..n], samples[n];
    assert last in samples && forall s | s in init :: s in samples;
    var before := Feed(pi, c, init).value;
    if init != [] {
      OutputsStayWithinInputs(pi, c, init, lo, hi);
      match c
      case NoFilter =>
      case Ema(alpha) => BlendBetween(alpha, last.input, before.filtered, lo, hi);
      case OneEuro(_, _, derivativeCutoff) =>
        var dt := Seconds(before.lastAtNS, last.atNS);
        var derivative := Blend(LowPassAlpha(pi, derivativeCutoff, dt), (last.input - before.lastRaw) / dt, before.derivative);
        BlendBetween(LowPassAlpha(pi, CutoffOf(c, derivative), dt), last.input, before.filtered, lo, hi);
    }
  }

  /** A fresh filter accepts exactly the strictly increasing sample times. */
  lemma {:induction false} AcceptsIncreasingTimes(pi: real, c: FilterConfig, samples: seq<Sample>)
    requires pi > 0.0 && FilterValid(c)
    ensures Feed(pi, c, samples).Some? <==> forall i | 0 <= i < |samples| - 1 :: samples[i].atNS < samples[i + 1].atNS
    ensures Feed(pi, c, samples).Some? && samples != [] ==>
              Feed(pi, c, samples).value.initialized && Feed(pi, c, samples).value.lastAtNS == samples[|samples| - 1].atNS
  {
    if samples != [] {
      var init := samples[..|samples| - 1];
      AcceptsIncreasingTimes(pi, c, init);
      if init == [] {
      } else if samples[|samples| - 2].atNS < samples[|samples| - 1].atNS {
        assert init == samples[..|samples| - 1];
      } else if Feed(pi, c, init).Some? {
        assert samples[|samples| - 2] == init[|init| - 1];
      }
    }
  }

  // ---- Dropout ----

  datatype DropoutPolicy = DropoutPolicy(hold: int, decay: int, staleAfter: int)

  predicate DropoutValid(p: DropoutPolicy) {
    p.staleAfter > 0 && p.hold >= 0 && p.decay >= 0
  }

  datatype ChannelState = ChannelState(filter: FilterState, seen: bool, lastFreshAtNS: int, lastFreshValue: real, dropoutStartNS: int)

  const NEW_CHANNEL := ChannelState(NEW_FILTER, false, 0, 0.0, 0)

  function AddSaturated(atNS: int, delta: int): int {
    if atNS > MAX_INT64 - delta then MAX_INT64 else atNS + delta
  }

  function RecordFresh(s: ChannelState, value: real, atNS: int, p: DropoutPolicy): ChannelState {
    s.(seen := true, lastFreshAtNS := atNS, lastFreshValue := value, dropoutStartNS := AddSaturated(atNS, p.staleAfter))
  }

  function RecordUnavailable(s: ChannelState, atNS: int): ChannelState {
    if s.seen && atNS < s.dropoutStartNS then s.(dropoutStartNS := atNS) else s
  }

  function Scaled(v: real, fraction: real): real {
    v * fraction
  }

  function DropoutValue(s: ChannelState, p: DropoutPolicy, nowNS: int): Option<real>
    requires DropoutValid(p)
  {
    if !s.seen then None
    else if nowNS <= s.dropoutStartNS then Some(s.lastFreshValue)
    else
      var afterHold := nowNS - s.dropoutStartNS - p.hold;
      if afterHold <= 0 then Some(s.lastFreshValue)
      else if p.decay == 0 || afterHold >= p.decay then Some(0.0)
      else Some(Scaled(s.lastFreshValue, 1.0 - afterHold as real / p.decay as real))
  }

  /** Through the stale and hold windows the last fresh value is shown unchanged; past the decay window it is exactly zero. */
  lemma DropoutWindows(s: ChannelState, p: DropoutPolicy, nowNS: int)
    requires DropoutValid(p) && s.seen
    ensures nowNS <= s.dropoutStartNS + p.hold ==> DropoutValue(s, p, nowNS) == Some(s.lastFreshValue)
    ensures nowNS > s.dropoutStartNS + p.hold && nowNS >= s.dropoutStartNS + p.hold + p.decay ==>
              DropoutValue(s, p, nowNS) == Some(0.0)
  {
  }

  /** The fraction of the last fresh value still shown a time after the hold window. */
  function Fraction(p: DropoutPolicy, past: int): real {
    if past <= 0 then 1.0
    else if p.decay <= 0 || past >= p.decay then 0.0
    else 1.0 - past as real / p.decay as real
  }

  lemma FractionFalls(p: DropoutPolicy, a: int, b: int)
    requires a <= b
    ensures 0.0 <= Fraction(p, b) <= Fraction(p, a) <= 1.0
  {
    if 0 < a && b < p.decay {
      RatioMonotone(a as real, b as real, p.decay as real);
    }
    if 0 < a < p.decay { RatioBounded(a, p.decay); }
    if 0 < b < p.decay { RatioBounded(b, p.decay); }
  }

  lemma RatioMonotone(a: real, b: real, d: real)
    requires a <= b && d > 0.0
    ensures a / d <= b / d
  {
  }

  lemma RatioBounded(a: int, b: int)
    requires 0 <= a <= b && 0 < b
    ensures 0.0 <= a as real / b as real <= 1.0
  {
  }

  lemma ShownFraction(s: ChannelState, p: DropoutPolicy, nowNS: int)
    requires DropoutValid(p) && s.seen
    ensures DropoutValue(s, p, nowNS) == Some(Scaled(s.lastFreshValue, Fraction(p, nowNS - s.dropoutStartNS - p.hold)))
  {
    assert Scaled(s.lastFreshValue, 1.0) == s.lastFreshValue;
    assert Scaled(s.lastFreshValue, 0.0) == 0.0;
  }

  lemma ScaleMagnitude(v: real, small: real, large: real)
    requires 0.0 <= small <= large
    ensures Abs(v * small) <= Abs(v * large)
  {
    if v >= 0.0 {
      ScaleLeft(v, 0.0, small);
      ScaleLeft(v, small, large);
    } else {
      ScaleLeft(-v, 0.0, small);
      ScaleLeft(-v, small, large);
      assert v * small == -((-v) * small) && v * large == -((-v) * large);
    }
  }

  /** Without a fresh sample the magnitude never grows, whether time passes or the source goes away. */
  lemma MagnitudeNeverGrows(s: ChannelState, p: DropoutPolicy, earlier: int, later: int, unavailableAt: Option<int>)
    requires DropoutValid(p) && s.seen && earlier <= later
    ensures var t := if unavailableAt.Some? then RecordUnavailable(s, unavailableAt.value) else s;
            Abs(DropoutValue(t, p, later).value) <= Abs(DropoutValue(s, p, earlier).value) <= Abs(s.lastFreshValue)
  {
    var t := if unavailableAt.Some? then RecordUnavailable(s, unavailableAt.value) else s;
    var a, b := earlier - s.dropoutStartNS - p.hold, later - t.dropoutStartNS - p.hold;
    ShownFraction(s, p, earlier);
    ShownFraction(t, p, later);
    FractionFalls(p, a, b);
    Shrinks(s.lastFreshValue, Fraction(p, b), Fraction(p, a));
  }

  lemma Shrinks(v: real, small: real, large: real)
    requires 0.0 <= small <= large <= 1.0
    ensures Abs(Scaled(v, small)) <= Abs(Scaled(v, large)) <= Abs(v)
  {
    ScaleMagnitude(v, small, large);
    ScaleMagnitude(v, large, 1.0);
    assert v * 1.0 == v;
  }
}
