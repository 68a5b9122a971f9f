/**
 The processing pipeline: admission of merged frames, per-channel calibration,
 tuning, filtering and dropout, and the canonical output. math.Pow is a total
 function parameter and pi any positive real.
 */
module Pipeline {
  import opened Common
  import opened TrackingModel
  import opened Filters
  import opened Tracking

  const EYE_CHANNELS: nat := 10
  const CHANNEL_COUNT: nat := EYE_CHANNELS + EXPRESSION_COUNT

  // ---- Configuration ----

  datatype Calibration = Calibration(enabled: bool, neutral: real, min: real, max: real, gain: real, invert: bool)

  datatype Tuning = Tuning(deadzone: real, gain: real, exponent: real, clampEnabled: bool, clampMin: real, clampMax: real)

  datatype ChannelConfig = ChannelConfig(calibration: Calibration, tuning: Tuning, filter: FilterConfig, dropout: DropoutPolicy)

  /** The compiled configuration, with the numeric functions it relies on. */
  datatype Config = Config(
    channels: seq<ChannelConfig>, activeStaleAfter: int, mutualExclusion: seq<seq<nat>>,
    pi: real, pow: (real, real) -> real)

  predicate CalibrationValid(c: Calibration) {
    c.enabled ==> c.min <= c.neutral <= c.max && c.min < c.max && c.gain > 0.0
  }

  predicate TuningValid(t: Tuning) {
    && 0.0 <= t.deadzone < 1.0 && t.gain > 0.0 && t.exponent > 0.0
    && (t.clampEnabled ==> t.clampMin < t.clampMax)
  }

  predicate ChannelValid(c: ChannelConfig) {
    CalibrationValid(c.calibration) && TuningValid(c.tuning) && FilterValid(c.filter) && DropoutValid(c.dropout)
  }

  predicate Within(group: seq<nat>, n: nat) {
    forall i | 0 <= i < |group| :: group[i] < n
  }

  predicate AllWithin(groups: seq<seq<nat>>, n: nat) {
    forall i | 0 <= i < |groups| :: Within(groups[i], n)
  }

  /** Exclusion groups have two or more known channels, and no channel is named twice. */
  predicate GroupsValid(groups: seq<seq<nat>>) {
    && AllWithin(groups, CHANNEL_COUNT) && (forall g | g in groups :: |g| >= 2)
    && (forall g, i, j | 0 <= g < |groups| && 0 <= i < j < |groups[g]| :: groups[g][i] != groups[g][j])
    && (forall g, h | 0 <= g < h < |groups| :: forall c | c in groups[g] :: c !in groups[h])
  }

  predicate ConfigValid(c: Config) {
    && |c.channels| == CHANNEL_COUNT && (forall i | 0 <= i < CHANNEL_COUNT :: ChannelValid(c.channels[i]))
    && c.activeStaleAfter > 0 && GroupsValid(c.mutualExclusion) && c.pi > 0.0
  }

  // ---- Channels ----

  /** The raw value of a channel: the eye fields in order, then the expressions. */
  function RawValue(eye: EyeSample, expressions: ExpressionSet, index: nat): Option<real>
    requires index < CHANNEL_COUNT
  {
    if index < EYE_CHANNELS then
      var f := EYE_FIELDS[index];
      if BitOf(f) in eye.valid then Some(eye.Value(f)) else None
    else if expressions.Has(index - EYE_CHANNELS) then Some(expressions.Value(index - EYE_CHANNELS))
    else None
  }

  /** `applyCalibration`; None is its "scale is zero" failure. */
  function Calibrate(c: Calibration, raw: real): Option<real> {
    if !c.enabled then Some(raw) else
      var clamped := if raw < c.min then c.min else if raw > c.max then c.max else raw;
      var centred := clamped - c.neutral;
      var scale := if centred < 0.0 || c.max == c.neutral then c.neutral - c.min else c.max - c.neutral;
      if scale == 0.0 then None
      else Some((if c.invert then -(centred / scale) else centred / scale) * c.gain)
  }

  /** A valid calibration never divides by zero. */
  lemma CalibrationSucceeds(c: Calibration, raw: real)
    requires CalibrationValid(c)
    ensures Calibrate(c, raw).Some?
  {
  }

  /** What lies beyond the deadzone, stretched over the whole scale, times the gain. */
  function Excess(t: Tuning, size: real): real
    requires TuningValid(t)
  {
    (size - t.deadzone) / (1.0 - t.deadzone) * t.gain
  }

  function Tune(t: Tuning, pow: (real, real) -> real, value: real): real
    requires TuningValid(t)
  {
    if Abs(value) <= t.deadzone then 0.0 else
      var magnitude := Abs(pow(Excess(t, Abs(value)), t.exponent));
      var signed := if value < 0.0 then -magnitude else magnitude;
      if t.clampEnabled && signed < t.clampMin then t.clampMin
      else if t.clampEnabled && signed > t.clampMax then t.clampMax
      else signed
  }

  /** What a channel's calibration and tuning make of a raw value. */
  function Tuned(config: Config, index: nat, raw: real): real
    requires ConfigValid(config) && index < CHANNEL_COUNT
  {
    var c := config.channels[index];
    CalibrationSucceeds(c.calibration, raw);
    Tune(c.tuning, config.pow, Calibrate(c.calibration, raw).value)
  }

  /** One fresh sample through a channel; None when its filter refuses the time. */
  function IngestSample(config: Config, index: nat, channel: ChannelState, raw: real, atNS: int): Option<ChannelState>
    requires ConfigValid(config) && index < CHANNEL_COUNT
  {
    var c := config.channels[index];
    var filtered := Apply(config.pi, c.filter, channel.filter, Tuned(config, index, raw), atNS);
    if filtered.None? then None
    else Some(RecordFresh(channel.(filter := filtered.value), filtered.value.filtered, atNS, c.dropout))
  }

  function Ingest(config: Config, frame: MergedFrame, index: nat, channel: ChannelState, atNS: int): Option<ChannelState>
    requires ConfigValid(config) && index < CHANNEL_COUNT
  {
    var raw := RawValue(frame.eye, frame.expressions, index);
    if raw.None? then Some(channel) else IngestSample(config, index, channel, raw.value, atNS)
  }

  // ---- Admission ----

  datatype ProcessError =
    | ErrInvalidInput | ErrProcessGeneration | ErrRevisionRegression | ErrRevisionConflict | ErrTimeRegression

  predicate GroupInputValid(capable: bool, source: string, atNS: int, nowNS: int, hasData: bool) {
    if capable then source != "" && 0 < atNS <= nowNS else source == "" && atNS == 0 && !hasData
  }

  /** `validateMergedInput` accepts the frame at this time. */
  predicate InputValid(frame: MergedFrame, nowNS: int) {
    && frame.generation != 0 && frame.sequence != 0 && nowNS >= 0
    && 0 <= frame.updatedAtNS <= nowNS
    && frame.capabilities <= KNOWN_CAPABILITIES
    && GroupInputValid(CapEye in frame.capabilities, frame.eyeSource, frame.eyeUpdatedAtNS, nowNS, frame.eye != EMPTY_EYE)
    && GroupInputValid(CapExpression in frame.capabilities, frame.expressionSource, frame.expressionUpdatedAtNS, nowNS,
                       frame.expressions != EmptyExpressions())
    && GroupInputValid(CapLip in frame.capabilities, frame.lipSource, frame.lipUpdatedAtNS, nowNS, false)
    && PayloadValid(frame.capabilities, frame.eye, frame.expressions)
  }

  datatype Classification = NewInput(reset: bool) | Repeat | Refuse(error: ProcessError)

  predicate GroupNonregressing(a: string, at: int, b: string, bt: int) {
    !(a != "" && a == b && bt < at)
  }

  predicate SaturatedFreshnessNonregressing(previous: MergedFrame, next: MergedFrame) {
    && next.updatedAtNS >= previous.updatedAtNS
    && GroupNonregressing(previous.eyeSource, previous.eyeUpdatedAtNS, next.eyeSource, next.eyeUpdatedAtNS)
    && GroupNonregressing(previous.expressionSource, previous.expressionUpdatedAtNS, next.expressionSource, next.expressionUpdatedAtNS)
    && GroupNonregressing(previous.lipSource, previous.lipUpdatedAtNS, next.lipSource, next.lipUpdatedAtNS)
  }

  datatype PipelineState = PipelineState(channels: seq<ChannelState>, hasLast: bool, lastInput: MergedFrame, lastNowNS: int)

  /** `classifyInput`. */
  function Classify(s: PipelineState, frame: MergedFrame, nowNS: int): Classification {
    if !s.hasLast then NewInput(true)
    else if frame.generation < s.lastInput.generation then Refuse(ErrProcessGeneration)
    else if frame.generation > s.lastInput.generation then
      if nowNS <= s.lastNowNS then Refuse(ErrTimeRegression) else NewInput(true)
    else if frame.sequence < s.lastInput.sequence then Refuse(ErrRevisionRegression)
    else if frame.sequence == s.lastInput.sequence && frame == s.lastInput then
      if nowNS < s.lastNowNS then Refuse(ErrTimeRegression) else Repeat
    else if frame.sequence == s.lastInput.sequence && frame.sequence != MAX_UINT64 then Refuse(ErrRevisionConflict)
    else if frame.sequence == s.lastInput.sequence && !SaturatedFreshnessNonregressing(s.lastInput, frame) then Refuse(ErrRevisionConflict)
    else if nowNS <= s.lastNowNS then Refuse(ErrTimeRegression)
    else NewInput(false)
  }

  // ---- What a new input does to each channel ----

  /** The view of a frame or a previous input that matters to one channel's group. */
  datatype GroupView = GroupView(source: string, atNS: int, capable: bool)

  function ViewOf(f: MergedFrame, index: nat): GroupView {
    if index < EYE_CHANNELS then GroupView(f.eyeSource, f.eyeUpdatedAtNS, CapEye in f.capabilities)
    else GroupView(f.expressionSource, f.expressionUpdatedAtNS, CapExpression in f.capabilities)
  }

  predicate SourceReset(reset: bool, before: GroupView, after: GroupView) {
    reset || (after.source != "" && after.source != before.source)
  }

  /** The channel before any fresh sample: reset with its source or generation, marked when its source went away. */
  function Prepared(s: PipelineState, frame: MergedFrame, reset: bool, index: nat): ChannelState
    requires |s.channels| == CHANNEL_COUNT && index < CHANNEL_COUNT
  {
    var before, after := ViewOf(s.lastInput, index), ViewOf(frame, index);
    if SourceReset(reset, before, after) then NEW_CHANNEL
    else if before.source != "" && after.source == "" then RecordUnavailable(s.channels[index], frame.updatedAtNS)
    else s.channels[index]
  }

  predicate IsFresh(s: PipelineState, frame: MergedFrame, reset: bool, index: nat) {
    var before, after := ViewOf(s.lastInput, index), ViewOf(frame, index);
    after.capable && (SourceReset(reset, before, after) || !s.hasLast || after.atNS > before.atNS)
  }

  function ChannelAfter(config: Config, s: PipelineState, frame: MergedFrame, reset: bool, index: nat): Option<ChannelState>
    requires ConfigValid(config) && |s.channels| == CHANNEL_COUNT && index < CHANNEL_COUNT
  {
    var prepared := Prepared(s, frame, reset, index);
    if IsFresh(s, frame, reset, index) then Ingest(config, frame, index, prepared, ViewOf(frame, index).atNS) else Some(prepared)
  }

  // ---- Output ----

  datatype Candidate = Candidate(value: real, valid: bool)

  function CandidateOf(config: Config, s: PipelineState, nowNS: int, index: nat): Candidate
    requires ConfigValid(config) && |s.channels| == CHANNEL_COUNT && index < CHANNEL_COUNT
  {
    var v := DropoutValue(s.channels[index], config.channels[index].dropout, nowNS);
    if v.Some? then Candidate(v.value, true) else Candidate(0.0, false)
  }

  /** a outranks b in an exclusion group: larger magnitude, ties to the smaller channel. */
  predicate Outranks(candidates: seq<Candidate>, a: nat, b: nat)
    requires a < |candidates| && b < |candidates|
  {
    var x, y := Abs(candidates[a].value), Abs(candidates[b].value);
    x > y || (x == y && a < b)
  }

  function Winner(candidates: seq<Candidate>, group: seq<nat>): (w: Option<nat>)
    requires Within(group, |candidates|)
    ensures w.Some? ==> w.value in group && candidates[w.value].valid
  {
    if group == [] then None else
      var last := group[|group| - 1];
      var before := Winner(candidates, group[..|group| - 1]);
      if !candidates[last].valid then before
      else if before.None? || Outranks(candidates, last, before.value) then Some(last)
      else before
  }

  /** The winner of a group is valid and no valid member outranks it; there is one iff any member is valid. */
  lemma {:induction false} WinnerIsLargest(candidates: seq<Candidate>, group: seq<nat>)
    requires Within(group, |candidates|)
    ensures Winner(candidates, group).Some? <==> exists c :: c in group && candidates[c].valid
    ensures Winner(candidates, group).Some? ==>
              forall c | c in group && candidates[c].valid :: !Outranks(candidates, c, Winner(candidates, group).value)
  {
    if group != [] {
      var init := group[..|group| - 1];
      WinnerIsLargest(candidates, init);
      assert group == init + [group[|group| - 1]];
    }
  }

  /** Within one group every valid channel but the winner is forced to zero. */
  function ProjectGroup(candidates: seq<Candidate>, group: seq<nat>): (r: seq<Candidate>)
    requires Within(group, |candidates|)
    ensures |r| == |candidates|
    ensures forall i | 0 <= i < |r| :: r[i] ==
              if i in group && candidates[i].valid && Winner(candidates, group) != Some(i) then Candidate(0.0, true) else candidates[i]
  {
    var w := Winner(candidates, group);
    seq(|candidates|, i requires 0 <= i < |candidates| =>
      if i in group && candidates[i].valid && w != Some(i) then Candidate(0.0, true) else candidates[i])
  }

  function Project(candidates: seq<Candidate>, groups: seq<seq<nat>>): (r: seq<Candidate>)
    requires AllWithin(groups, |candidates|)
    ensures |r| == |candidates|
  {
    if groups == [] then candidates
    else ProjectGroup(Project(candidates, groups[..|groups| - 1]), groups[|groups| - 1])
  }

  /** After projection each group has at most one nonzero channel, validity is unchanged and no value is invented. */
  lemma {:induction false} ProjectionExcludes(candidates: seq<Candidate>, groups: seq<seq<nat>>)
    requires AllWithin(groups, |candidates|)
    ensures var r := Project(candidates, groups);
            && (forall i | 0 <= i < |r| :: r[i].valid == candidates[i].valid && (r[i] == candidates[i] || r[i].value == 0.0))
            && (forall g | g in groups :: AtMostOneShown(r, g))
  {
    if groups != [] {
      var init, last := groups[..|groups| - 1], groups[|groups| - 1];
      ProjectionExcludes(candidates, init);
      var before, r := Project(candidates, init), Project(candidates, groups);
      forall g | g in groups ensures AtMostOneShown(r, g) {
        if g in init { assert AtMostOneShown(before, g); }
      }
    }
  }

  ghost predicate AtMostOneShown(candidates: seq<Candidate>, group: seq<nat>)
    requires Within(group, |candidates|)
  {
    forall a, b | a in group && b in group && a != b ::
      !(candidates[a].valid && candidates[a].value != 0.0 && candidates[b].valid && candidates[b].value != 0.0)
  }

  method ProjectMutualExclusion(candidates: seq<Candidate>, groups: seq<seq<nat>>) returns (r: seq<Candidate>)
    requires AllWithin(groups, |candidates|)
    ensures r == Project(candidates, groups)
  {
    r := candidates;
    for g := 0 to |groups|
      invariant r == Project(candidates, groups[..g])
    {
      assert groups[g] in groups && groups[..g + 1][..g] == groups[..g];
      var group := groups[g];
      var winner: Option<nat> := None;
      for i := 0 to |group|
        invariant winner == Winner(r, group[..i])
      {
        assert group[..i + 1][..i] == group[..i];
        var id := group[i];
        if r[id].valid && (winner.None? || Outranks(r, id, winner.value)) { winner := Some(id); }
      }
      assert group[..|group|] == group;
      if winner.Some? {
        r := ProjectGroup(r, group);
      } else {
        WinnerIsLargest(r, group);
        assert r == ProjectGroup(r, group);
      }
    }
    assert groups[..|groups|] == groups;
  }

  predicate GroupActive(capable: bool, source: string, atNS: int, nowNS: int, staleAfter: int) {
    capable && source != "" && nowNS - atNS <= staleAfter
  }

  /** A two-channel group is valid only as a pair. */
  function PairBit(c: seq<Candidate>, a: nat, b: nat, bit: EyeBit): set<EyeBit>
    requires a < |c| && b < |c|
  {
    if c[a].valid && c[b].valid then {bit} else {}
  }

  function OutputEye(c: seq<Candidate>): EyeSample
    requires |c| == CHANNEL_COUNT
  {
    var valid := PairBit(c, 0, 1, LeftGaze) + PairBit(c, 2, 3, RightGaze) + PairBit(c, 4, 4, LeftOpenness)
                 + PairBit(c, 5, 5, RightOpenness) + PairBit(c, 6, 8, LeftPupil) + PairBit(c, 7, 9, RightPupil);
    ZeroInvalidEye(EyeSample(valid, c[0].value, c[1].value, c[2].value, c[3].value, c[4].value, c[5].value,
                             c[6].value, c[7].value, c[8].value, c[9].value))
  }

  function OutputExpressions(c: seq<Candidate>): ExpressionSet
    requires |c| == CHANNEL_COUNT
  {
    Expressions(seq(EXPRESSION_COUNT, i requires 0 <= i < EXPRESSION_COUNT =>
                  if Shown(c, i) then c[EYE_CHANNELS + i].value else 0.0),
                set i: nat | i < EXPRESSION_COUNT && Shown(c, i))
  }

  predicate Shown(c: seq<Candidate>, expression: nat)
    requires |c| == CHANNEL_COUNT && expression < EXPRESSION_COUNT
  {
    c[EYE_CHANNELS + expression].valid
  }

  /** The output never carries unknown bits, and a value without a validity bit is zero. */
  lemma OutputIsCanonical(c: seq<Candidate>)
    requires |c| == CHANNEL_COUNT
    ensures OutputEye(c).valid <= KNOWN_EYE_BITS && ZeroInvalidEye(OutputEye(c)) == OutputEye(c)
    ensures OutputExpressions(c).valid == NormalizeMask(OutputExpressions(c).valid)
    ensures ZeroInvalidExpressions(OutputExpressions(c)).values == OutputExpressions(c).values
  {
  }

  // ---- The pipeline ----

  function CanonicalOf(config: Config, s: PipelineState, frame: MergedFrame, nowNS: int): CanonicalFrame
    requires ConfigValid(config) && |s.channels| == CHANNEL_COUNT
  {
    var candidates := Project(Candidates(config, s, nowNS), config.mutualExclusion);
    CanonicalFrame(
      frame.generation, frame.sequence, nowNS, frame.eyeSource, frame.expressionSource, frame.lipSource,
      GroupActive(CapEye in frame.capabilities, frame.eyeSource, frame.eyeUpdatedAtNS, nowNS, config.activeStaleAfter),
      GroupActive(CapExpression in frame.capabilities, frame.expressionSource, frame.expressionUpdatedAtNS, nowNS, config.activeStaleAfter),
      GroupActive(CapLip in frame.capabilities, frame.lipSource, frame.lipUpdatedAtNS, nowNS, config.activeStaleAfter),
      OutputEye(candidates), OutputExpressions(candidates))
  }

  function Candidates(config: Config, s: PipelineState, nowNS: int): (r: seq<Candidate>)
    requires ConfigValid(config) && |s.channels| == CHANNEL_COUNT
    ensures |r| == CHANNEL_COUNT
  {
    seq(CHANNEL_COUNT, i requires 0 <= i < CHANNEL_COUNT => CandidateOf(config, s, nowNS, i))
  }

  method Canonical(config: Config, s: PipelineState, frame: MergedFrame, nowNS: int) returns (out: CanonicalFrame)
    requires ConfigValid(config) && |s.channels| == CHANNEL_COUNT
    ensures out == CanonicalOf(config, s, frame, nowNS)
  {
    var candidates: seq<Candidate> := [];
    for i := 0 to CHANNEL_COUNT
      invariant |candidates| == i && candidates == Candidates(config, s, nowNS)[..i]
    {
      candidates := candidates + [CandidateOf(config, s, nowNS, i)];
    }
    assert candidates == Candidates(config, s, nowNS);
    var projected := ProjectMutualExclusion(candidates, config.mutualExclusion);
    out := CanonicalFrame(
      frame.generation, frame.sequence, nowNS, frame.eyeSource, frame.expressionSource, frame.lipSource,
      GroupActive(CapEye in frame.capabilities, frame.eyeSource, frame.eyeUpdatedAtNS, nowNS, config.activeStaleAfter),
      GroupActive(CapExpression in frame.capabilities, frame.expressionSource, frame.expressionUpdatedAtNS, nowNS, config.activeStaleAfter),
      GroupActive(CapLip in frame.capabilities, frame.lipSource, frame.lipUpdatedAtNS, nowNS, config.activeStaleAfter),
      OutputEye(projected), OutputExpressions(projected));
  }

  /** The channels of one group, prepared for a new input in place. */
  method PrepareRange(s: PipelineState, frame: MergedFrame, reset: bool, channels: seq<ChannelState>, start: nat, end: nat)
    returns (r: seq<ChannelState>)
    requires |s.channels| == |channels| == CHANNEL_COUNT && start <= end <= CHANNEL_COUNT
    requires forall i | start <= i < end :: channels[i] == s.channels[i]
    requires forall i | start <= i < end :: ViewOf(s.lastInput, i) == ViewOf(s.lastInput, start) && ViewOf(frame, i) == ViewOf(frame, start)
    ensures |r| == CHANNEL_COUNT
    ensures forall i | 0 <= i < CHANNEL_COUNT :: r[i] == if start <= i < end then Prepared(s, frame, reset, i) else channels[i]
  {
    r := channels;
    if start == end { return; }
    var before, after := ViewOf(s.lastInput, start), ViewOf(frame, start);
    for index := start to end
      invariant |r| == CHANNEL_COUNT
      invariant forall i | 0 <= i < CHANNEL_COUNT :: r[i] == if start <= i < index then Prepared(s, frame, reset, i) else channels[i]
    {
      if SourceReset(reset, before, after) {
        r := r[index := NEW_CHANNEL];
      } else if before.source != "" && after.source == "" {
        r := r[index := RecordUnavailable(r[index], frame.updatedAtNS)];
      }
    }
  }

  /** `ingestRange`: every valid raw value of the range goes through its channel; the first refusal fails. */
  method IngestRange(config: Config, frame: MergedFrame, channels: seq<ChannelState>, atNS: int, start: nat, end: nat)
    returns (r: Option<seq<ChannelState>>)
    requires ConfigValid(config) && |channels| == CHANNEL_COUNT && start <= end <= CHANNEL_COUNT
    ensures r.Some? ==> |r.value| == CHANNEL_COUNT
    ensures r.Some? ==> forall i | 0 <= i < CHANNEL_COUNT ::
                          Some(r.value[i]) == if start <= i < end then Ingest(config, frame, i, channels[i], atNS) else Some(channels[i])
    ensures r.None? ==> exists i :: start <= i < end && Ingest(config, frame, i, channels[i], atNS).None?
  {
    var next := channels;
    for index := start to end
      invariant |next| == CHANNEL_COUNT
      invariant forall i | 0 <= i < CHANNEL_COUNT ::
                  Some(next[i]) == if start <= i < index then Ingest(config, frame, i, channels[i], atNS) else Some(channels[i])
    {
      var raw := RawValue(frame.eye, frame.expressions, index);
      if raw.Some? {
        var channel := IngestSample(config, index, next[index], raw.value, atNS);
        if channel.None? {
          assert Ingest(config, frame, index, channels[index], atNS).None?;
          return None;
        }
        next := next[index := channel.value];
      }
    }
    r := Some(next);
  }

  datatype ProcessResult = Processed(frame: CanonicalFrame) | Rejected(error: ProcessError)

  /** Filters never ran ahead of the source time last accepted for their group. */
  ghost predicate ClocksBehind(s: PipelineState)
    requires |s.channels| == CHANNEL_COUNT
  {
    s.hasLast ==> forall i | 0 <= i < CHANNEL_COUNT ::
      ViewOf(s.lastInput, i).source != "" && s.channels[i].filter.initialized ==>
        s.channels[i].filter.lastAtNS <= ViewOf(s.lastInput, i).atNS
  }

  /** The new input does not run a source's own time backwards. */
  ghost predicate TimesAdvance(previous: MergedFrame, frame: MergedFrame) {
    forall i | 0 <= i < CHANNEL_COUNT ::
      GroupFollows(ViewOf(previous, i).source, ViewOf(previous, i).atNS, ViewOf(frame, i).source, ViewOf(frame, i).atNS)
  }

  /** A fresh channel's filter is either new or strictly behind the sample time, so it cannot refuse it. */
  lemma IngestSucceeds(config: Config, s: PipelineState, frame: MergedFrame, reset: bool, i: nat)
    requires ConfigValid(config) && |s.channels| == CHANNEL_COUNT && i < CHANNEL_COUNT
    requires ClocksBehind(s) && (!s.hasLast ==> reset)
    requires IsFresh(s, frame, reset, i)
    requires ViewOf(frame, i).source != ""
    ensures Ingest(config, frame, i, Prepared(s, frame, reset, i), ViewOf(frame, i).atNS).Some?
  {
  }

  lemma ChannelClock(config: Config, s: PipelineState, frame: MergedFrame, reset: bool, i: nat)
    requires ConfigValid(config) && |s.channels| == CHANNEL_COUNT && i < CHANNEL_COUNT
    requires ClocksBehind(s) && (!s.hasLast ==> reset) && (!reset ==> TimesAdvance(s.lastInput, frame))
    requires ViewOf(frame, i).source != "" && ChannelAfter(config, s, frame, reset, i).Some?
    ensures var c := ChannelAfter(config, s, frame, reset, i).value;
            c.filter.initialized ==> c.filter.lastAtNS <= ViewOf(frame, i).atNS
  {
  }

  // ---- One call ----

  /** No channel's filter refuses the sample of a new input. */
  predicate Ingestible(config: Config, s: PipelineState, frame: MergedFrame, reset: bool)
    requires ConfigValid(config) && |s.channels| == CHANNEL_COUNT
  {
    forall i | 0 <= i < CHANNEL_COUNT :: ChannelAfter(config, s, frame, reset, i).Some?
  }

  /** When a call is accepted. */
  predicate Accepted(config: Config, s: PipelineState, frame: MergedFrame, nowNS: int)
    requires ConfigValid(config) && |s.channels| == CHANNEL_COUNT
  {
    && InputValid(frame, nowNS)
    && match Classify(s, frame, nowNS)
       case Refuse(_) => false
       case Repeat => true
       case NewInput(reset) => Ingestible(config, s, frame, reset)
  }

  function ChannelsAfter(config: Config, s: PipelineState, frame: MergedFrame, reset: bool): (r: seq<ChannelState>)
    requires ConfigValid(config) && |s.channels| == CHANNEL_COUNT && Ingestible(config, s, frame, reset)
    ensures |r| == CHANNEL_COUNT
  {
    seq(CHANNEL_COUNT, i requires 0 <= i < CHANNEL_COUNT => ChannelAfter(config, s, frame, reset, i).value)
  }

  /** The state after an accepted call. */
  function After(config: Config, s: PipelineState, frame: MergedFrame, nowNS: int): (r: PipelineState)
    requires ConfigValid(config) && |s.channels| == CHANNEL_COUNT && Accepted(config, s, frame, nowNS)
    ensures |r.channels| == CHANNEL_COUNT
  {
    var c := Classify(s, frame, nowNS);
    if c.Repeat? then s.(lastNowNS := nowNS)
    else PipelineState(ChannelsAfter(config, s, frame, c.reset), true, frame, nowNS)
  }

  /** Input that no classification refuses cannot fail while every filter is behind its group's time. */
  lemma OrderedIsAccepted(config: Config, s: PipelineState, frame: MergedFrame, nowNS: int)
    requires ConfigValid(config) && |s.channels| == CHANNEL_COUNT && ClocksBehind(s)
    requires InputValid(frame, nowNS) && !Classify(s, frame, nowNS).Refuse?
    ensures Accepted(config, s, frame, nowNS)
  {
    var c := Classify(s, frame, nowNS);
    if c.NewInput? {
      forall i | 0 <= i < CHANNEL_COUNT ensures ChannelAfter(config, s, frame, c.reset, i).Some? {
        if IsFresh(s, frame, c.reset, i) { IngestSucceeds(config, s, frame, c.reset, i); }
      }
    }
  }

  /** Accepting an input keeps every filter behind its group's time. */
  lemma ClocksStayBehind(config: Config, s: PipelineState, frame: MergedFrame, nowNS: int)
    requires ConfigValid(config) && |s.channels| == CHANNEL_COUNT && ClocksBehind(s)
    requires Accepted(config, s, frame, nowNS)
    requires Classify(s, frame, nowNS) == NewInput(false) ==> TimesAdvance(s.lastInput, frame)
    ensures ClocksBehind(After(config, s, frame, nowNS))
  {
    var c := Classify(s, frame, nowNS);
    if c.NewInput? {
      var t := After(config, s, frame, nowNS);
      forall i | 0 <= i < CHANNEL_COUNT && ViewOf(frame, i).source != "" && t.channels[i].filter.initialized
        ensures t.channels[i].filter.lastAtNS <= ViewOf(frame, i).atNS
      {
        assert ChannelAfter(config, s, frame, c.reset, i).Some?;
        ChannelClock(config, s, frame, c.reset, i);
      }
    }
  }

  function NewState(): (s: PipelineState)
    ensures |s.channels| == CHANNEL_COUNT
  {
    PipelineState(seq(CHANNEL_COUNT, _ => NEW_CHANNEL), false,
                  MergedFrame(0, 0, 0, {}, EMPTY_EYE, EmptyExpressions(), "", "", "", 0, 0, 0), 0)
  }

  class ProcessingPipeline {
    const config: Config
    var state: PipelineState

    predicate Valid()
      reads this
    {
      ConfigValid(config) && |state.channels| == CHANNEL_COUNT
    }

    constructor (config: Config)
      requires ConfigValid(config)
      ensures Valid() && this.config == config && state == NewState()
    {
      this.config := config;
      state := NewState();
    }

    /**
     `ProcessAt`: a rejected call changes nothing and names its reason; an accepted
     one leaves the state and the output it is defined to.
     */
    method ProcessAt(frame: MergedFrame, nowNS: int) returns (r: ProcessResult)
      requires Valid()
      modifies this
      ensures Valid()
      ensures r.Processed? <==> Accepted(config, old(state), frame, nowNS)
      ensures r.Processed? ==> state == After(config, old(state), frame, nowNS) && r.frame == CanonicalOf(config, state, frame, nowNS)
      ensures r.Rejected? ==> state == old(state)
      ensures !InputValid(frame, nowNS) ==> r == Rejected(ErrInvalidInput)
      ensures InputValid(frame, nowNS) && Classify(old(state), frame, nowNS).Refuse? ==>
                r == Rejected(Classify(old(state), frame, nowNS).error)
      ensures r.Rejected? && InputValid(frame, nowNS) && !Classify(old(state), frame, nowNS).Refuse? ==> r.error == ErrInvalidInput
    {
      if !InputValid(frame, nowNS) { return Rejected(ErrInvalidInput); }
      var classification := Classify(state, frame, nowNS);
      match classification {
        case Refuse(error) => return Rejected(error);
        case Repeat =>
          state := state.(lastNowNS := nowNS);
        case NewInput(reset) =>
          var channels := NextChannels(config, state, frame, reset);
          if channels.None? { return Rejected(ErrInvalidInput); }
          state := PipelineState(channels.value, true, frame, nowNS);
      }
      var out := Canonical(config, state, frame, nowNS);
      return Processed(out);
    }
  }

  /** The channel updates of `processAt` on a copy, eye group first. */
  method NextChannels(config: Config, s: PipelineState, frame: MergedFrame, reset: bool) returns (r: Option<seq<ChannelState>>)
    requires ConfigValid(config) && |s.channels| == CHANNEL_COUNT
    ensures r.Some? <==> Ingestible(config, s, frame, reset)
    ensures r.Some? ==> r.value == ChannelsAfter(config, s, frame, reset)
  {
    var channels := s.channels;
    channels := PrepareRange(s, frame, reset, channels, 0, EYE_CHANNELS);
    channels := PrepareRange(s, frame, reset, channels, EYE_CHANNELS, CHANNEL_COUNT);
    assert forall i | 0 <= i < CHANNEL_COUNT :: channels[i] == Prepared(s, frame, reset, i);
    assert forall i | 0 <= i < CHANNEL_COUNT ::
      IsFresh(s, frame, reset, i) <==> IsFresh(s, frame, reset, if i < EYE_CHANNELS then 0 else EYE_CHANNELS);
    if IsFresh(s, frame, reset, 0) {
      var eye := IngestRange(config, frame, channels, frame.eyeUpdatedAtNS, 0, EYE_CHANNELS);
      if eye.None? {
        var i :| 0 <= i < EYE_CHANNELS && Ingest(config, frame, i, channels[i], frame.eyeUpdatedAtNS).None?;
        assert ChannelAfter(config, s, frame, reset, i).None?;
        return None;
      }
      channels := eye.value;
    }
    if IsFresh(s, frame, reset, EYE_CHANNELS) {
      var expressions := IngestRange(config, frame, channels, frame.expressionUpdatedAtNS, EYE_CHANNELS, CHANNEL_COUNT);
      if expressions.None? {
        var i :| EYE_CHANNELS <= i < CHANNEL_COUNT && Ingest(config, frame, i, channels[i], frame.expressionUpdatedAtNS).None?;
        assert ChannelAfter(config, s, frame, reset, i).None?;
        return None;
      }
      channels := expressions.value;
    }
    assert forall i | 0 <= i < CHANNEL_COUNT :: Some(channels[i]) == ChannelAfter(config, s, frame, reset, i);
    r := Some(channels);
  }
}
