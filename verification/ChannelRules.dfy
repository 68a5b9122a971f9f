/**
 What a call makes of each channel and what it then shows, said without the pipeline's
 own formulas: which field of a frame a channel reads, where calibration and tuning put
 the value, how the filter moves, when the dropout begins, how the output fades, and
 which channel of an exclusion group is shown.
 */
module ChannelRules {
  import opened Common
  import opened TrackingModel
  import opened Filters
  import FilterRules
  import opened Tracking
  import opened Pipeline
  import opened PipelineRuns
  import opened DropoutRuns
  import opened Exclusion

  // ---- From a frame to the filter ----

  /** Channel i reads this value in the eye sample and the expressions. */
  predicate Reads(eye: EyeSample, expressions: ExpressionSet, i: nat, v: real) {
    match i
    case 0 => LeftGaze in eye.valid && v == eye.leftGazeX
    case 1 => LeftGaze in eye.valid && v == eye.leftGazeY
    case 2 => RightGaze in eye.valid && v == eye.rightGazeX
    case 3 => RightGaze in eye.valid && v == eye.rightGazeY
    case 4 => LeftOpenness in eye.valid && v == eye.leftOpen
    case 5 => RightOpenness in eye.valid && v == eye.rightOpen
    case 6 => LeftPupil in eye.valid && v == eye.leftDiameter
    case 7 => RightPupil in eye.valid && v == eye.rightDiameter
    case 8 => LeftPupil in eye.valid && v == eye.leftDilation
    case 9 => RightPupil in eye.valid && v == eye.rightDilation
    case _ => i < 86 && i - 10 in expressions.valid && v == expressions.values[i - 10]
  }

  lemma RawIsRead(eye: EyeSample, expressions: ExpressionSet, i: nat, v: real)
    requires i < CHANNEL_COUNT
    ensures RawValue(eye, expressions, i) == Some(v) <==> Reads(eye, expressions, i, v)
  {
    if i < 10 { assert EYE_FIELDS[i] in EYE_FIELDS; }
  }

  /**
   Calibration puts neutral at zero, the maximum and whatever is above it at the gain,
   the minimum and whatever is below it at its negative, and is linear in between; an
   inverted channel has the gain's sign changed.
   */
  predicate Calibrated(c: Calibration, raw: real, v: real) {
    if !c.enabled then v == raw else
      var full := if c.invert then -c.gain else c.gain;
      && (raw >= c.max > c.neutral ==> v == full)
      && (raw <= c.min < c.neutral ==> v == -full)
      && (c.neutral <= raw <= c.max ==> InProportion(v, c.max - c.neutral, full, raw - c.neutral))
      && (c.min <= raw <= c.neutral ==> InProportion(v, c.neutral - c.min, full, raw - c.neutral))
      && (raw >= c.max == c.neutral || raw <= c.min == c.neutral ==> v == 0.0)
  }

  /** v is to full what x is to span. */
  predicate InProportion(v: real, span: real, full: real, x: real) {
    v * span == full * x
  }

  lemma CalibrateIsCalibrated(c: Calibration, raw: real)
    requires CalibrationValid(c)
    ensures Calibrate(c, raw).Some? && Calibrated(c, raw, Calibrate(c, raw).value)
  {
    if c.enabled {
      var x := Held(c, raw) - c.neutral;
      var scale := if x < 0.0 || c.max == c.neutral then c.neutral - c.min else c.max - c.neutral;
      var v := Calibrate(c, raw).value;
      assert v == (if c.invert then -(x / scale) else x / scale) * c.gain;
      SignedQuotient(c.invert, x, scale, c.gain, v);
      ProportionIsCalibrated(c, raw, v, x, scale);
    }
  }

  function Held(c: Calibration, raw: real): real {
    if raw < c.min then c.min else if raw > c.max then c.max else raw
  }

  lemma ProportionIsCalibrated(c: Calibration, raw: real, v: real, x: real, scale: real)
    requires CalibrationValid(c) && c.enabled && x == Held(c, raw) - c.neutral
    requires scale == if x < 0.0 || c.max == c.neutral then c.neutral - c.min else c.max - c.neutral
    requires InProportion(v, scale, if c.invert then -c.gain else c.gain, x)
    ensures Calibrated(c, raw, v)
  {
    Ends(v, if c.invert then -c.gain else c.gain, x, scale);
  }

  lemma SignedQuotient(invert: bool, x: real, scale: real, gain: real, v: real)
    requires scale > 0.0 && v == (if invert then -(x / scale) else x / scale) * gain
    ensures InProportion(v, scale, if invert then -gain else gain, x)
  {
    var q := x / scale;
    assert q * scale == x;
    assert q * gain * scale == gain * x by { assert q * gain * scale == gain * (q * scale); }
    assert -q * gain * scale == -(q * gain * scale);
    assert -gain * x == -(gain * x);
  }

  lemma Ends(v: real, full: real, x: real, scale: real)
    requires scale > 0.0 && InProportion(v, scale, full, x)
    ensures x == scale ==> v == full
    ensures x == -scale ==> v == -full
    ensures x == 0.0 ==> v == 0.0 && forall span: real :: InProportion(v, span, full, x)
  {
    if x == scale { SameTimes(v, full, scale); }
    if x == -scale { SameTimes(v, -full, scale); }
    if x == 0.0 { SameTimes(v, 0.0, scale); }
  }

  /** Calibration leaves one value. */
  lemma CalibratedIsUnique(c: Calibration, raw: real, a: real, b: real)
    requires CalibrationValid(c) && Calibrated(c, raw, a) && Calibrated(c, raw, b)
    ensures a == b
  {
    if c.enabled {
      var full := if c.invert then -c.gain else c.gain;
      if c.neutral < raw < c.max {
        ProportionIsUnique(a, b, c.max - c.neutral, full, raw - c.neutral);
      } else if c.min < raw < c.neutral || raw == c.neutral > c.min {
        ProportionIsUnique(a, b, c.neutral - c.min, full, raw - c.neutral);
      }
    }
  }

  lemma ProportionIsUnique(a: real, b: real, span: real, full: real, x: real)
    requires span > 0.0 && InProportion(a, span, full, x) && InProportion(b, span, full, x)
    ensures a == b
  {
    SameTimes(a, b, span);
  }

  lemma SameTimes(a: real, b: real, n: real)
    requires n > 0.0 && a * n == b * n
    ensures a == b
  {
    assert (a - b) * n == 0.0;
  }

  /** How far beyond the deadzone the size is, as a share of what lies beyond it, times the gain. */
  predicate Beyond(t: Tuning, size: real, x: real) {
    InProportion(x, 1.0 - t.deadzone, t.gain, size - t.deadzone)
  }

  /** y has the size of p and the sign of value. */
  predicate SignedAs(value: real, p: real, y: real) {
    && (y == p || y == -p)
    && (value < 0.0 ==> y <= 0.0) && (value > 0.0 ==> y >= 0.0)
  }

  /** v is y, or the bound of the range that y is beyond. */
  predicate HeldIn(t: Tuning, y: real, v: real) {
    if !t.clampEnabled then v == y
    else (t.clampMin <= y <= t.clampMax ==> v == y) && (y < t.clampMin ==> v == t.clampMin) && (y > t.clampMax ==> v == t.clampMax)
  }

  /** Tuning shows nothing inside the deadzone, and a power of what lies beyond it outside. */
  ghost predicate TunedTo(t: Tuning, pow: (real, real) -> real, value: real, v: real) {
    if -t.deadzone <= value <= t.deadzone then v == 0.0
    else exists x, y :: Beyond(t, if value > 0.0 then value else -value, x) && SignedAs(value, pow(x, t.exponent), y) && HeldIn(t, y, v)
  }

  lemma TuneIsTuned(t: Tuning, pow: (real, real) -> real, value: real)
    requires TuningValid(t)
    ensures TunedTo(t, pow, value, Tune(t, pow, value))
  {
    if Abs(value) > t.deadzone {
      var x := Excess(t, Abs(value));
      ExcessIsBeyond(t, Abs(value));
      var magnitude := Abs(pow(x, t.exponent));
      var y := if value < 0.0 then -magnitude else magnitude;
      assert SignedAs(value, pow(x, t.exponent), y) && HeldIn(t, y, Tune(t, pow, value));
    }
  }

  lemma ExcessIsBeyond(t: Tuning, size: real)
    requires TuningValid(t)
    ensures Beyond(t, size, Excess(t, size))
  {
    GainOfShare(size - t.deadzone, 1.0 - t.deadzone, t.gain);
  }

  lemma BeyondIsUnique(t: Tuning, size: real, x: real, y: real)
    requires TuningValid(t) && Beyond(t, size, x) && Beyond(t, size, y)
    ensures x == y
  {
    ProportionIsUnique(x, y, 1.0 - t.deadzone, t.gain, size - t.deadzone);
  }

  lemma GainOfShare(size: real, rest: real, gain: real)
    requires rest > 0.0
    ensures InProportion(size / rest * gain, rest, gain, size)
  {
    var q := size / rest;
    assert q * rest == size;
    assert q * gain * rest == q * rest * gain;
  }

  /** Tuning leaves one value. */
  lemma TunedIsUnique(t: Tuning, pow: (real, real) -> real, value: real, a: real, b: real)
    requires TuningValid(t) && TunedTo(t, pow, value, a) && TunedTo(t, pow, value, b)
    ensures a == b
  {
    if !(-t.deadzone <= value <= t.deadzone) {
      var size := if value > 0.0 then value else -value;
      var x, y :| Beyond(t, size, x) && SignedAs(value, pow(x, t.exponent), y) && HeldIn(t, y, a);
      var u, w :| Beyond(t, size, u) && SignedAs(value, pow(u, t.exponent), w) && HeldIn(t, w, b);
      BeyondIsUnique(t, size, x, u);
      assert y == w;
    }
  }

  /** No deadzone, gain or exponent one and no range change nothing. */
  lemma NeutralTuning(pow: (real, real) -> real, value: real)
    requires forall x: real | x > 0.0 :: pow(x, 1.0) == x
    ensures Tune(Tuning(0.0, 1.0, 1.0, false, 0.0, 0.0), pow, value) == value
  {
    if value != 0.0 { assert pow(Abs(value), 1.0) == Abs(value); }
  }

  // ---- What a call does to a channel ----

  predicate Capable(frame: MergedFrame, i: nat) {
    if i < 10 then CapEye in frame.capabilities else CapExpression in frame.capabilities
  }

  function SourceOf(frame: MergedFrame, i: nat): string {
    if i < 10 then frame.eyeSource else frame.expressionSource
  }

  function TimeOf(frame: MergedFrame, i: nat): int {
    if i < 10 then frame.eyeUpdatedAtNS else frame.expressionUpdatedAtNS
  }

  /** With this frame the channel starts anew: the first frame, a new generation, or another source. */
  predicate Restarts(previous: Option<MergedFrame>, frame: MergedFrame, i: nat) {
    previous.None? || frame.generation > previous.value.generation
    || (SourceOf(frame, i) != "" && SourceOf(frame, i) != SourceOf(previous.value, i))
  }

  /** The frame carries a sample that the channel has not had. */
  predicate Brings(previous: Option<MergedFrame>, frame: MergedFrame, i: nat) {
    Capable(frame, i) && (Restarts(previous, frame, i) || TimeOf(frame, i) > TimeOf(previous.value, i))
  }

  /** The frame says that the channel's source is gone. */
  predicate Loses(previous: Option<MergedFrame>, frame: MergedFrame, i: nat) {
    previous.Some? && frame.generation == previous.value.generation && SourceOf(previous.value, i) != "" && SourceOf(frame, i) == ""
  }

  /** The filter takes the input: the first one passes, a later one moves it. */
  ghost predicate Takes(config: Config, i: nat, anew: bool, before: FilterState, input: real, atNS: int, after: FilterState)
    requires ConfigValid(config) && i < CHANNEL_COUNT
  {
    && after.initialized && after.lastAtNS == atNS && after.lastRaw == input
    && (if anew || !before.initialized then after.filtered == input
        else before.lastAtNS < atNS && FilterRules.Moves(config.pi, config.channels[i].filter, before, input, atNS, after))
  }

  /** The channel has got this raw value through its calibration, tuning and filter; it is fresh for so long. */
  ghost predicate Sampled(config: Config, i: nat, anew: bool, before: ChannelState, raw: real, atNS: int, after: ChannelState,
                          calibrated: real, tuned: real)
    requires ConfigValid(config) && i < CHANNEL_COUNT
  {
    var c := config.channels[i];
    && Calibrated(c.calibration, raw, calibrated) && TunedTo(c.tuning, config.pow, calibrated, tuned)
    && Takes(config, i, anew, before.filter, tuned, atNS, after.filter)
    && after.seen && after.lastFreshValue == after.filter.filtered && after.lastFreshAtNS == atNS
    && after.dropoutStartNS == Until(atNS, c.dropout.staleAfter)
  }

  /** So long after a time, as far as an int64 reaches. */
  function Until(atNS: int, delta: int): int {
    if atNS + delta <= 0x7FFF_FFFF_FFFF_FFFF then atNS + delta else 0x7FFF_FFFF_FFFF_FFFF
  }

  /** What an accepted frame does to a channel. */
  ghost predicate Turns(config: Config, i: nat, previous: Option<MergedFrame>, frame: MergedFrame, before: ChannelState, after: ChannelState)
    requires ConfigValid(config) && i < CHANNEL_COUNT
  {
    var anew := Restarts(previous, frame, i);
    && (forall raw | Brings(previous, frame, i) && Reads(frame.eye, frame.expressions, i, raw) ::
          exists calibrated, tuned :: Sampled(config, i, anew, before, raw, TimeOf(frame, i), after, calibrated, tuned))
    && (!(Brings(previous, frame, i) && exists raw :: Reads(frame.eye, frame.expressions, i, raw)) ==>
          if anew then !after.seen && !after.filter.initialized
          else if Loses(previous, frame, i) && before.seen && frame.updatedAtNS < before.dropoutStartNS
          then after == before.(dropoutStartNS := frame.updatedAtNS)
          else after == before)
  }

  /** The frame of the last accepted call of a run. */
  function LastFrame(config: Config, inputs: seq<Input>): Option<MergedFrame>
    requires ConfigValid(config)
  {
    if inputs == [] then None
    else if AcceptedAt(config, inputs, |inputs| - 1) then Some(inputs[|inputs| - 1].frame)
    else LastFrame(config, inputs[..|inputs| - 1])
  }

  predicate Remembers(s: PipelineState, last: Option<MergedFrame>) {
    if s.hasLast then last == Some(s.lastInput) else last.None?
  }

  lemma {:induction false} LastIsRemembered(config: Config, inputs: seq<Input>)
    requires ConfigValid(config)
    ensures Remembers(Reached(config, inputs), LastFrame(config, inputs))
  {
    if inputs != [] {
      LastIsRemembered(config, inputs[..|inputs| - 1]);
    }
  }

  lemma ChannelTurns(config: Config, s: PipelineState, input: Input, previous: Option<MergedFrame>, i: nat)
    requires ConfigValid(config) && |s.channels| == CHANNEL_COUNT && i < CHANNEL_COUNT
    requires Accepted(config, s, input.frame, input.nowNS) && Remembers(s, previous)
    ensures Turns(config, i, previous, input.frame, s.channels[i], After(config, s, input.frame, input.nowNS).channels[i])
  {
    var frame, c := input.frame, Classify(s, input.frame, input.nowNS);
    if c.NewInput? {
      var before, after := s.channels[i], After(config, s, frame, input.nowNS).channels[i];
      var prepared := Prepared(s, frame, c.reset, i);
      assert ChannelAfter(config, s, frame, c.reset, i) == Some(after);
      assert Restarts(previous, frame, i) <==> SourceReset(c.reset, ViewOf(s.lastInput, i), ViewOf(frame, i));
      assert Brings(previous, frame, i) <==> IsFresh(s, frame, c.reset, i);
      var raw := RawValue(frame.eye, frame.expressions, i);
      if raw.Some? && Brings(previous, frame, i) {
        RawIsRead(frame.eye, frame.expressions, i, raw.value);
        SampleIsTaken(config, i, Restarts(previous, frame, i), before, prepared, raw.value, TimeOf(frame, i));
        forall other | Reads(frame.eye, frame.expressions, i, other) ensures other == raw.value {
          RawIsRead(frame.eye, frame.expressions, i, other);
        }
      } else if raw.None? {
        forall other ensures !Reads(frame.eye, frame.expressions, i, other) {
          RawIsRead(frame.eye, frame.expressions, i, other);
        }
      }
    }
  }

  lemma SampleIsTaken(config: Config, i: nat, anew: bool, before: ChannelState, prepared: ChannelState, raw: real, atNS: int)
    requires ConfigValid(config) && i < CHANNEL_COUNT && IngestSample(config, i, prepared, raw, atNS).Some?
    requires if anew then prepared == NEW_CHANNEL else prepared.filter == before.filter
    ensures exists calibrated, tuned ::
              Sampled(config, i, anew, before, raw, atNS, IngestSample(config, i, prepared, raw, atNS).value, calibrated, tuned)
  {
    var c := config.channels[i];
    CalibrateIsCalibrated(c.calibration, raw);
    var calibrated := Calibrate(c.calibration, raw).value;
    TuneIsTuned(c.tuning, config.pow, calibrated);
    var tuned := Tune(c.tuning, config.pow, calibrated);
    assert tuned == Tuned(config, i, raw);
    FilterRules.SampleMoves(config.pi, c.filter, prepared.filter, tuned, atNS);
    assert Sampled(config, i, anew, before, raw, atNS, IngestSample(config, i, prepared, raw, atNS).value, calibrated, tuned);
  }

  /** In every run, every accepted call turns every channel by these rules, and a refused one leaves it alone. */
  lemma CallTurns(config: Config, inputs: seq<Input>, k: nat, i: nat)
    requires ConfigValid(config) && k < |inputs| && i < CHANNEL_COUNT
    ensures var before, after := Reached(config, inputs[..k]).channels[i], Reached(config, inputs[..k + 1]).channels[i];
            if AcceptedAt(config, inputs, k) then Turns(config, i, LastFrame(config, inputs[..k]), inputs[k].frame, before, after)
            else after == before
  {
    ReachedNext(config, inputs, k);
    LastIsRemembered(config, inputs[..k]);
    if AcceptedAt(config, inputs, k) {
      ChannelTurns(config, Reached(config, inputs[..k]), inputs[k], LastFrame(config, inputs[..k]), i);
    }
  }

  // ---- Which calls are accepted ----

  /** The call repeats the last frame no earlier, or is later and brings a newer one. */
  predicate Continues(last: Option<MergedFrame>, lastNowNS: int, frame: MergedFrame, nowNS: int) {
    last.None? || (frame == last.value && nowNS >= lastNowNS) || (nowNS > lastNowNS && Newer(last.value, frame))
  }

  /** A newer generation or revision; or, once revisions are exhausted, another frame that is nowhere older. */
  predicate Newer(last: MergedFrame, frame: MergedFrame) {
    || frame.generation > last.generation
    || (frame.generation == last.generation && frame.sequence > last.sequence)
    || (frame.generation == last.generation && frame.sequence == last.sequence == 0xFFFF_FFFF_FFFF_FFFF && NowhereOlder(last, frame))
  }

  predicate NowhereOlder(last: MergedFrame, frame: MergedFrame) {
    && last.updatedAtNS <= frame.updatedAtNS
    && (last.eyeSource == "" || last.eyeSource != frame.eyeSource || last.eyeUpdatedAtNS <= frame.eyeUpdatedAtNS)
    && (last.expressionSource == "" || last.expressionSource != frame.expressionSource
        || last.expressionUpdatedAtNS <= frame.expressionUpdatedAtNS)
    && (last.lipSource == "" || last.lipSource != frame.lipSource || last.lipUpdatedAtNS <= frame.lipUpdatedAtNS)
  }

  /** No sample that the frame brings comes before what its channel has had from the same source. */
  ghost predicate NoSampleBehind(s: PipelineState, previous: Option<MergedFrame>, frame: MergedFrame)
    requires |s.channels| == CHANNEL_COUNT
  {
    forall i, v | 0 <= i < CHANNEL_COUNT && Reads(frame.eye, frame.expressions, i, v)
      && Brings(previous, frame, i) && !Restarts(previous, frame, i) ::
      s.channels[i].filter.initialized ==> s.channels[i].filter.lastAtNS < TimeOf(frame, i)
  }

  lemma RefusedExactly(s: PipelineState, previous: Option<MergedFrame>, frame: MergedFrame, nowNS: int)
    requires Remembers(s, previous)
    ensures Classify(s, frame, nowNS).Refuse? <==> !Continues(previous, s.lastNowNS, frame, nowNS)
    ensures Classify(s, frame, nowNS).Refuse? ==> Named(previous.value, s.lastNowNS, frame, nowNS, Classify(s, frame, nowNS).error)
  {
  }

  /** The reason for which a call is refused. */
  predicate Named(last: MergedFrame, lastNowNS: int, frame: MergedFrame, nowNS: int, error: ProcessError) {
    match error
    case ErrInvalidInput => false
    case ErrProcessGeneration => frame.generation < last.generation
    case ErrRevisionRegression => frame.generation == last.generation && frame.sequence < last.sequence
    case ErrRevisionConflict =>
      frame.generation == last.generation && frame.sequence == last.sequence && frame != last && !Newer(last, frame)
    case ErrTimeRegression => if frame == last then nowNS < lastNowNS else nowNS <= lastNowNS && Newer(last, frame)
  }

  lemma AcceptedExactly(config: Config, s: PipelineState, previous: Option<MergedFrame>, frame: MergedFrame, nowNS: int)
    requires ConfigValid(config) && |s.channels| == CHANNEL_COUNT && Remembers(s, previous)
    ensures Accepted(config, s, frame, nowNS) <==>
            InputValid(frame, nowNS) && Continues(previous, s.lastNowNS, frame, nowNS) && NoSampleBehind(s, previous, frame)
  {
    RefusedExactly(s, previous, frame, nowNS);
    var c := Classify(s, frame, nowNS);
    if c.NewInput? {
      forall i | 0 <= i < CHANNEL_COUNT
        ensures ChannelAfter(config, s, frame, c.reset, i).Some? <==>
                forall v | Reads(frame.eye, frame.expressions, i, v) && Brings(previous, frame, i) && !Restarts(previous, frame, i) ::
                  s.channels[i].filter.initialized ==> s.channels[i].filter.lastAtNS < TimeOf(frame, i)
      {
        ChannelRefusesLate(config, s, previous, frame, c.reset, i);
      }
    }
  }

  lemma ChannelRefusesLate(config: Config, s: PipelineState, previous: Option<MergedFrame>, frame: MergedFrame, reset: bool, i: nat)
    requires ConfigValid(config) && |s.channels| == CHANNEL_COUNT && i < CHANNEL_COUNT && Remembers(s, previous)
    requires reset <==> previous.None? || frame.generation > previous.value.generation
    ensures ChannelAfter(config, s, frame, reset, i).Some? <==>
            forall v | Reads(frame.eye, frame.expressions, i, v) && Brings(previous, frame, i) && !Restarts(previous, frame, i) ::
              s.channels[i].filter.initialized ==> s.channels[i].filter.lastAtNS < TimeOf(frame, i)
  {
    var raw := RawValue(frame.eye, frame.expressions, i);
    forall v ensures raw == Some(v) <==> Reads(frame.eye, frame.expressions, i, v) { RawIsRead(frame.eye, frame.expressions, i, v); }
    if raw.Some? {
      assert Reads(frame.eye, frame.expressions, i, raw.value);
      FilterRules.SampleMoves(config.pi, config.channels[i].filter, Prepared(s, frame, reset, i).filter,
                              Tuned(config, i, raw.value), TimeOf(frame, i));
    }
  }

  // ---- What is shown ----

  /** The value is shown until the hold is over, then falls in a straight line to zero, which it reaches when the decay is over. */
  predicate Fades(p: DropoutPolicy, startNS: int, value: real, nowNS: int, shown: real) {
    var held := startNS + p.hold;
    && (nowNS <= held ==> shown == value)
    && (nowNS > held && nowNS >= held + p.decay ==> shown == 0.0)
    && (held < nowNS < held + p.decay ==> InProportion(shown, p.decay as real, value, (held + p.decay - nowNS) as real))
  }

  lemma FadesIsUnique(p: DropoutPolicy, startNS: int, value: real, nowNS: int, a: real, b: real)
    requires DropoutValid(p) && Fades(p, startNS, value, nowNS, a) && Fades(p, startNS, value, nowNS, b)
    ensures a == b
  {
    var held := startNS + p.hold;
    if held < nowNS < held + p.decay { ProportionIsUnique(a, b, p.decay as real, value, (held + p.decay - nowNS) as real); }
  }

  /** The channel's value at this time, faded since its dropout began. */
  predicate Faded(config: Config, s: PipelineState, nowNS: int, i: nat, v: real)
    requires ConfigValid(config) && |s.channels| == CHANNEL_COUNT && i < CHANNEL_COUNT
  {
    s.channels[i].seen && Fades(config.channels[i].dropout, s.channels[i].dropoutStartNS, s.channels[i].lastFreshValue, nowNS, v)
  }

  predicate Says(c: Candidate, v: real) {
    c.valid && c.value == v
  }

  lemma CandidateIsFaded(config: Config, s: PipelineState, nowNS: int, i: nat, v: real)
    requires ConfigValid(config) && |s.channels| == CHANNEL_COUNT && i < CHANNEL_COUNT
    ensures Says(CandidateOf(config, s, nowNS, i), v) <==> Faded(config, s, nowNS, i, v)
  {
    var channel, p := s.channels[i], config.channels[i].dropout;
    if channel.seen {
      var past := nowNS - channel.dropoutStartNS - p.hold;
      if 0 < past < p.decay { StraightLine(channel.lastFreshValue, past, p.decay); }
      var shown := CandidateOf(config, s, nowNS, i).value;
      assert Fades(p, channel.dropoutStartNS, channel.lastFreshValue, nowNS, shown);
      if Faded(config, s, nowNS, i, v) { FadesIsUnique(p, channel.dropoutStartNS, channel.lastFreshValue, nowNS, v, shown); }
    }
  }

  lemma StraightLine(value: real, past: int, decay: int)
    requires 0 < past < decay
    ensures InProportion(Scaled(value, 1.0 - past as real / decay as real), decay as real, value, (decay - past) as real)
  {
    var d := decay as real;
    var q := past as real / d;
    assert q * d == past as real;
    assert value * (1.0 - q) * d == value * (d - q * d);
  }

  /** The value of w comes before that of v: it is larger, or equal and in an earlier channel. */
  predicate Beats(w: real, other: nat, v: real, i: nat) {
    Abs(w) > Abs(v) || (Abs(w) == Abs(v) && other < i)
  }

  /** Some channel of the same exclusion group comes before this one. */
  ghost predicate Yields(config: Config, s: PipelineState, nowNS: int, i: nat, v: real)
    requires ConfigValid(config) && |s.channels| == CHANNEL_COUNT && i < CHANNEL_COUNT
  {
    exists group, other, w | group in config.mutualExclusion && i in group && other in group && other < CHANNEL_COUNT ::
      Faded(config, s, nowNS, other, w) && Beats(w, other, v, i)
  }

  /** What the channel shows among the others. */
  ghost predicate Projected(config: Config, s: PipelineState, nowNS: int, i: nat, v: real)
    requires ConfigValid(config) && |s.channels| == CHANNEL_COUNT && i < CHANNEL_COUNT
  {
    exists own :: Faded(config, s, nowNS, i, own) && v == if Yields(config, s, nowNS, i, own) then 0.0 else own
  }

  ghost predicate Beaten(c: seq<Candidate>, groups: seq<seq<nat>>, i: nat)
    requires i < |c| && AllWithin(groups, |c|)
  {
    exists group, m | group in groups && i in group && m in group :: c[m].valid && Beats(c[m].value, m, c[i].value, i)
  }

  /** A valid candidate keeps its value unless a valid one of its group beats it. */
  lemma {:induction false} BeatenIsZero(c: seq<Candidate>, groups: seq<seq<nat>>, i: nat)
    requires |c| == CHANNEL_COUNT && GroupsValid(groups) && i < CHANNEL_COUNT && c[i].valid
    ensures Project(c, groups)[i] == if Beaten(c, groups, i) then Candidate(0.0, true) else c[i]
  {
    if group :| group in groups && i in group {
      OwnGroupDecides(c, groups, group, i);
      WinnerIsUnbeaten(c, group, i);
      GroupIsOwn(groups, group, i);
    } else {
      UngroupedIsKept(c, groups, i);
    }
  }

  lemma GroupIsOwn(groups: seq<seq<nat>>, group: seq<nat>, i: nat)
    requires GroupsValid(groups) && group in groups && i in group
    ensures forall g | g in groups && i in g :: g == group
  {
  }

  /** The candidates are the faded values. */
  ghost predicate AreFaded(config: Config, s: PipelineState, nowNS: int, c: seq<Candidate>)
    requires ConfigValid(config) && |s.channels| == |c| == CHANNEL_COUNT
  {
    forall k: nat, w | k < CHANNEL_COUNT :: Says(c[k], w) <==> Faded(config, s, nowNS, k, w)
  }

  lemma {:induction false} CandidatesAreFaded(config: Config, s: PipelineState, nowNS: int)
    requires ConfigValid(config) && |s.channels| == CHANNEL_COUNT
    ensures AreFaded(config, s, nowNS, Candidates(config, s, nowNS))
  {
    var c := Candidates(config, s, nowNS);
    forall k: nat, w | k < CHANNEL_COUNT ensures Says(c[k], w) <==> Faded(config, s, nowNS, k, w) {
      CandidateIsFaded(config, s, nowNS, k, w);
    }
  }

  lemma {:induction false} BeatenYields(config: Config, s: PipelineState, nowNS: int, c: seq<Candidate>, i: nat)
    requires ConfigValid(config) && |s.channels| == |c| == CHANNEL_COUNT && i < CHANNEL_COUNT && AreFaded(config, s, nowNS, c)
    ensures Beaten(c, config.mutualExclusion, i) <==> Yields(config, s, nowNS, i, c[i].value)
  {
    var v := c[i].value;
    if Beaten(c, config.mutualExclusion, i) {
      var group, m :| group in config.mutualExclusion && i in group && m in group && c[m].valid && Beats(c[m].value, m, v, i);
      assert Says(c[m], c[m].value);
    }
    if Yields(config, s, nowNS, i, v) {
      var group, m, w :| group in config.mutualExclusion && i in group && m in group && m < CHANNEL_COUNT
        && Faded(config, s, nowNS, m, w) && Beats(w, m, v, i);
      assert Says(c[m], w);
    }
  }

  lemma {:induction false} ProjectedExactly(config: Config, s: PipelineState, nowNS: int, c: seq<Candidate>, i: nat, v: real)
    requires ConfigValid(config) && |s.channels| == |c| == CHANNEL_COUNT && i < CHANNEL_COUNT && AreFaded(config, s, nowNS, c)
    ensures Says(Project(c, config.mutualExclusion)[i], v) <==> Projected(config, s, nowNS, i, v)
  {
    var own := c[i].value;
    ProjectionExcludes(c, config.mutualExclusion);
    if c[i].valid {
      BeatenIsZero(c, config.mutualExclusion, i);
      BeatenYields(config, s, nowNS, c, i);
      assert Says(c[i], own);
    }
    forall other ensures Faded(config, s, nowNS, i, other) <==> c[i].valid && other == own {
      assert Says(c[i], other) <==> Faded(config, s, nowNS, i, other);
    }
  }

  /** The two axes of a gaze and the two values of a pupil are shown as a pair or not at all. */
  function Partner(i: nat): nat {
    match i
    case 0 => 1
    case 1 => 0
    case 2 => 3
    case 3 => 2
    case 6 => 8
    case 7 => 9
    case 8 => 6
    case 9 => 7
    case _ => i
  }

  lemma OutputReads(c: seq<Candidate>, i: nat, v: real)
    requires |c| == CHANNEL_COUNT && i < CHANNEL_COUNT
    ensures Reads(OutputEye(c), OutputExpressions(c), i, v) <==> Says(c[i], v) && c[Partner(i)].valid
  {
    if i >= 10 { assert Shown(c, i - 10) <==> c[i].valid; }
  }

  /** The output tells what the frame says of itself, and which groups have been heard from lately. */
  predicate Heads(frame: MergedFrame, nowNS: int, staleAfter: int, out: CanonicalFrame) {
    && out.generation == frame.generation && out.revision == frame.sequence && out.processedAtNS == nowNS
    && out.eyeSource == frame.eyeSource && out.expressionSource == frame.expressionSource && out.lipSource == frame.lipSource
    && (out.eyeActive <==> CapEye in frame.capabilities && frame.eyeSource != "" && frame.eyeUpdatedAtNS + staleAfter >= nowNS)
    && (out.expressionActive <==>
          CapExpression in frame.capabilities && frame.expressionSource != "" && frame.expressionUpdatedAtNS + staleAfter >= nowNS)
    && (out.lipActive <==> CapLip in frame.capabilities && frame.lipSource != "" && frame.lipUpdatedAtNS + staleAfter >= nowNS)
  }

  /** Each field of the output shows its channel's value, if the channel and its partner have one. */
  ghost predicate Displays(config: Config, s: PipelineState, nowNS: int, out: CanonicalFrame)
    requires ConfigValid(config) && |s.channels| == CHANNEL_COUNT
  {
    forall i: nat, v | i < CHANNEL_COUNT ::
      Reads(out.eye, out.expressions, i, v) <==> Projected(config, s, nowNS, i, v) && s.channels[Partner(i)].seen
  }

  lemma CanonicalDisplays(config: Config, s: PipelineState, frame: MergedFrame, nowNS: int)
    requires ConfigValid(config) && |s.channels| == CHANNEL_COUNT
    ensures Displays(config, s, nowNS, CanonicalOf(config, s, frame, nowNS))
    ensures Heads(frame, nowNS, config.activeStaleAfter, CanonicalOf(config, s, frame, nowNS))
  {
    var out := CanonicalOf(config, s, frame, nowNS);
    forall i: nat, v | i < CHANNEL_COUNT
      ensures Reads(out.eye, out.expressions, i, v) <==> Projected(config, s, nowNS, i, v) && s.channels[Partner(i)].seen
    {
      ChannelIsDisplayed(config, s, nowNS, Candidates(config, s, nowNS), i, v);
    }
  }

  lemma {:induction false} ChannelIsDisplayed(config: Config, s: PipelineState, nowNS: int, c: seq<Candidate>, i: nat, v: real)
    requires ConfigValid(config) && |s.channels| == CHANNEL_COUNT && i < CHANNEL_COUNT
    requires c == Candidates(config, s, nowNS)
    ensures var r := Project(c, config.mutualExclusion);
            Reads(OutputEye(r), OutputExpressions(r), i, v) <==> Projected(config, s, nowNS, i, v) && s.channels[Partner(i)].seen
  {
    CandidatesAreFaded(config, s, nowNS);
    ProjectedExactly(config, s, nowNS, c, i, v);
    StillSeen(config, s, nowNS, Partner(i));
    OutputReads(Project(c, config.mutualExclusion), i, v);
  }

  lemma {:induction false} StillSeen(config: Config, s: PipelineState, nowNS: int, i: nat)
    requires ConfigValid(config) && |s.channels| == CHANNEL_COUNT && i < CHANNEL_COUNT
    ensures Project(Candidates(config, s, nowNS), config.mutualExclusion)[i].valid <==> s.channels[i].seen
  {
    ProjectionExcludes(Candidates(config, s, nowNS), config.mutualExclusion);
  }

  /** In every run, every accepted call shows what its channels then hold, by these rules. */
  lemma CallShows(config: Config, inputs: seq<Input>, k: nat)
    requires ConfigValid(config) && k < |inputs|
    ensures ShownAt(config, inputs, k).Some? <==> AcceptedAt(config, inputs, k)
    ensures AcceptedAt(config, inputs, k) ==>
              && Displays(config, Reached(config, inputs[..k + 1]), inputs[k].nowNS, ShownAt(config, inputs, k).value)
              && Heads(inputs[k].frame, inputs[k].nowNS, config.activeStaleAfter, ShownAt(config, inputs, k).value)
  {
    ReachedNext(config, inputs, k);
    CanonicalDisplays(config, Reached(config, inputs[..k + 1]), inputs[k].frame, inputs[k].nowNS);
  }

  /**
   One call to the pipeline: it is accepted exactly if the frame is valid, continues what
   was accepted last, and no sample is behind; then every channel has turned, and the
   output displays them, by these rules.
   */
  method ProcessByRules(pipeline: ProcessingPipeline, frame: MergedFrame, nowNS: int, ghost previous: Option<MergedFrame>)
    returns (r: ProcessResult)
    requires pipeline.Valid() && Remembers(pipeline.state, previous)
    modifies pipeline
    ensures pipeline.Valid()
    ensures r.Processed? <==>
              && InputValid(frame, nowNS) && Continues(previous, old(pipeline.state).lastNowNS, frame, nowNS)
              && NoSampleBehind(old(pipeline.state), previous, frame)
    ensures r.Processed? ==>
              && Remembers(pipeline.state, Some(frame)) && pipeline.state.lastNowNS == nowNS
              && (forall i | 0 <= i < CHANNEL_COUNT ::
                    Turns(pipeline.config, i, previous, frame, old(pipeline.state).channels[i], pipeline.state.channels[i]))
              && Displays(pipeline.config, pipeline.state, nowNS, r.frame)
              && Heads(frame, nowNS, pipeline.config.activeStaleAfter, r.frame)
    ensures r.Rejected? ==> pipeline.state == old(pipeline.state)
  {
    ghost var before, config := pipeline.state, pipeline.config;
    AcceptedExactly(config, before, previous, frame, nowNS);
    r := pipeline.ProcessAt(frame, nowNS);
    if r.Processed? {
      forall i | 0 <= i < CHANNEL_COUNT
        ensures Turns(config, i, previous, frame, before.channels[i], pipeline.state.channels[i])
      {
        ChannelTurns(config, before, Input(frame, nowNS), previous, i);
      }
      CanonicalDisplays(config, pipeline.state, frame, nowNS);
    }
  }

  // ---- A steady input, over a run ----

  /** In a run the channel has had the early samples and then only x, and its output is still held. */
  ghost predicate Steady(config: Config, inputs: seq<Input>, i: nat, early: seq<Sample>, steady: seq<Sample>, x: real, nowNS: int)
    requires ConfigValid(config) && i < CHANNEL_COUNT
  {
    && Samples(config, inputs, i) == early + steady && early != [] && FilterRules.All(steady, x)
    && Onset(config, inputs, i).Some? && nowNS <= Onset(config, inputs, i).value + config.channels[i].dropout.hold
  }

  lemma {:induction false} SteadyIsLater(config: Config, inputs: seq<Input>, i: nat, early: seq<Sample>, steady: seq<Sample>, x: real, nowNS: int)
    returns (s: FilterState)
    requires ConfigValid(config) && i < CHANNEL_COUNT && Steady(config, inputs, i, early, steady, x, nowNS)
    ensures Feed(config.pi, config.channels[i].filter, early) == Some(s) && s.initialized
    ensures s.lastRaw == early[|early| - 1].input && s.lastAtNS == early[|early| - 1].atNS
    ensures FilterRules.Later(config.pi, config.channels[i].filter, s, steady).Some?
    ensures var t := FilterRules.Later(config.pi, config.channels[i].filter, s, steady).value;
            CandidateOf(config, Reached(config, inputs), nowNS, i) == Candidate(t.filtered, true)
  {
    var c, n := config.channels[i].filter, |early| - 1;
    ChannelIsFed(config, inputs, i);
    FilterRules.FeedGoesOn(config.pi, c, early, steady);
    s := Feed(config.pi, c, early).value;
    FilterRules.SampleMoves(config.pi, c, Feed(config.pi, c, early[..n]).value, early[n].input, early[n].atNS);
    HeldThenZero(config, inputs, i, nowNS);
  }

  /** An exponential average shows a value that each further sample of a steady input brings closer to it by the same factor. */
  lemma {:induction false} SteadyEma(config: Config, inputs: seq<Input>, i: nat, early: seq<Sample>, steady: seq<Sample>, x: real, nowNS: int)
    returns (s: FilterState)
    requires ConfigValid(config) && i < CHANNEL_COUNT && Steady(config, inputs, i, early, steady, x, nowNS)
    requires config.channels[i].filter.Ema?
    ensures Feed(config.pi, config.channels[i].filter, early) == Some(s)
    ensures FilterRules.ScaledBy(1.0 - config.channels[i].filter.alpha, |steady|, s.filtered - x,
                                 CandidateOf(config, Reached(config, inputs), nowNS, i).value - x)
  {
    s := SteadyIsLater(config, inputs, i, early, steady, x, nowNS);
    FilterRules.EmaHomesIn(config.pi, config.channels[i].filter.alpha, s, steady, x);
  }

  /** A One Euro filter shows a value that samples of a resting input, so far apart or more, bring to it at least as fast as at the minimum cutoff. */
  lemma {:induction false} SteadyOneEuro(config: Config, inputs: seq<Input>, i: nat, early: seq<Sample>, steady: seq<Sample>, x: real, nowNS: int,
                                         apart: int)
    returns (s: FilterState)
    requires ConfigValid(config) && i < CHANNEL_COUNT && Steady(config, inputs, i, early, steady, x, nowNS)
    requires config.channels[i].filter.OneEuro? && apart > 0
    requires early[|early| - 1].input == x && FilterRules.Apart(early[|early| - 1].atNS, steady, apart)
    ensures Feed(config.pi, config.channels[i].filter, early) == Some(s)
    ensures FilterRules.Left(1.0 - LowPassAlpha(config.pi, config.channels[i].filter.minCutoff, Seconds(0, apart)), |steady|,
                             s.filtered - x, CandidateOf(config, Reached(config, inputs), nowNS, i).value - x)
  {
    s := SteadyIsLater(config, inputs, i, early, steady, x, nowNS);
    FilterRules.OneEuroHomesIn(config.pi, config.channels[i].filter, s, steady, apart);
  }

  // ---- Accepted calls run forward ----

  /** Of two accepted calls the later one has no older frame, and is no earlier. */
  predicate Forward(a: Input, b: Input) {
    && (a.frame.generation < b.frame.generation
        || (a.frame.generation == b.frame.generation
            && (a.frame.sequence < b.frame.sequence
                || (a.frame.sequence == b.frame.sequence && (a.frame == b.frame || a.frame.sequence == 0xFFFF_FFFF_FFFF_FFFF)))))
    && (if a.frame.generation == b.frame.generation && a.frame.sequence == b.frame.sequence then a.nowNS <= b.nowNS else a.nowNS < b.nowNS)
  }

  /** The state remembers an accepted call. */
  predicate IsLatest(s: PipelineState, input: Input) {
    s.hasLast && s.lastInput == input.frame && s.lastNowNS == input.nowNS
  }

  lemma {:induction false} LatestIsForward(config: Config, inputs: seq<Input>, j: nat)
    requires ConfigValid(config) && j < |inputs| && AcceptedAt(config, inputs, j)
    ensures var s := Reached(config, inputs);
            s.hasLast && (Forward(inputs[j], Input(s.lastInput, s.lastNowNS)) || IsLatest(s, inputs[j]))
    decreases |inputs|
  {
    var n := |inputs| - 1;
    var before := Reached(config, inputs[..n]);
    if j < n {
      assert inputs[..n][..j] == inputs[..j];
      assert AcceptedAt(config, inputs[..n], j);
      LatestIsForward(config, inputs[..n], j);
      if AcceptedAt(config, inputs, n) {
        RefusedExactly(before, Some(before.lastInput), inputs[n].frame, inputs[n].nowNS);
      }
    }
  }

  lemma AcceptedRunsForward(config: Config, inputs: seq<Input>, j: nat, k: nat)
    requires ConfigValid(config) && j < k < |inputs| && AcceptedAt(config, inputs, j) && AcceptedAt(config, inputs, k)
    ensures Forward(inputs[j], inputs[k])
  {
    var s := Reached(config, inputs[..k]);
    assert inputs[..k][..j] == inputs[..j];
    assert AcceptedAt(config, inputs[..k], j);
    LatestIsForward(config, inputs[..k], j);
    RefusedExactly(s, Some(s.lastInput), inputs[k].frame, inputs[k].nowNS);
  }
}
