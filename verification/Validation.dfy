/**
 What the validations refuse, as lists of faults: settings are accepted exactly if they
 have none. And what trimming keeps, field by field.
 */
module Validation {
  import opened Common
  import opened TrackingModel
  import opened Subscriptions
  import opened RestartPolicies
  import opened Filters
  import opened Tracking
  import opened Pipeline
  import opened PipelineConfig

  // ---- Settings ----

  predicate CalibrationFault(c: Calibration) {
    c.enabled && (c.neutral < c.min || c.max < c.neutral || c.min == c.neutral == c.max || c.gain <= 0.0)
  }

  predicate TuningFault(t: Tuning) {
    || t.deadzone < 0.0 || t.deadzone >= 1.0 || t.gain <= 0.0 || t.exponent <= 0.0
    || (t.clampEnabled && t.clampMin >= t.clampMax)
  }

  predicate FilterFault(c: FilterConfig) {
    match c
    case NoFilter => false
    case Ema(alpha) => alpha <= 0.0 || alpha > 1.0
    case OneEuro(minCutoff, beta, derivativeCutoff) => minCutoff <= 0.0 || beta < 0.0 || derivativeCutoff <= 0.0
  }

  predicate DropoutFault(p: DropoutPolicy) {
    p.staleAfter <= 0 || p.hold < 0 || p.decay < 0
  }

  predicate ChannelFault(c: ChannelConfig) {
    CalibrationFault(c.calibration) || TuningFault(c.tuning) || FilterFault(c.filter) || DropoutFault(c.dropout)
  }

  /** Some group is too small, or names a channel that is not one of the 86 or was named before. */
  ghost predicate GroupsFault(groups: seq<seq<nat>>) {
    || (exists g :: 0 <= g < |groups| && |groups[g]| < 2)
    || (exists g, i :: 0 <= g < |groups| && 0 <= i < |groups[g]| && (groups[g][i] == 0 || groups[g][i] > 86))
    || (exists g, h, i, j :: NamedAgain(groups, g, i, h, j))
  }

  /** The channel at one place is named again at a later one. */
  predicate NamedAgain(groups: seq<seq<nat>>, g: nat, i: nat, h: nat, j: nat) {
    g < |groups| && h < |groups| && i < |groups[g]| && j < |groups[h]| && Earlier(g, i, h, j) && groups[g][i] == groups[h][j]
  }

  ghost predicate SettingsFault(s: Settings) {
    || s.activeStaleAfter <= 0 || ChannelFault(s.defaultChannel) || GroupsFault(s.mutualExclusion)
    || (exists id :: id in s.overrides && (id == 0 || id > 86 || ChannelFault(s.overrides[id])))
  }

  lemma ChannelFaults(c: ChannelConfig)
    ensures ChannelValid(c) <==> !ChannelFault(c)
  {
  }

  lemma GroupFaults(groups: seq<seq<nat>>)
    ensures GroupsAccepted(groups) <==> !GroupsFault(groups)
  {
    if !NamedOnce(groups) {
      var g, h, i, j :| 0 <= g < |groups| && 0 <= h < |groups| && 0 <= i < |groups[g]| && 0 <= j < |groups[h]|
        && groups[g][i] == groups[h][j] && !(g == h && i == j);
      if Earlier(g, i, h, j) {
        assert NamedAgain(groups, g, i, h, j);
      } else {
        assert NamedAgain(groups, h, j, g, i);
      }
    }
    forall g: nat, i: nat, h: nat, j: nat | NamedAgain(groups, g, i, h, j) ensures !NamedOnce(groups) {
    }
    if g :| 0 <= g < |groups| && !GroupAccepted(groups[g]) && |groups[g]| >= 2 {
      var i :| 0 <= i < |groups[g]| && !KnownChannel(groups[g][i]);
    }
  }

  lemma SettingsFaults(s: Settings)
    ensures SettingsAccepted(s) <==> !SettingsFault(s)
  {
    ChannelFaults(s.defaultChannel);
    GroupFaults(s.mutualExclusion);
    forall id | id in s.overrides ensures ChannelValid(s.overrides[id]) <==> !ChannelFault(s.overrides[id]) {
      ChannelFaults(s.overrides[id]);
    }
  }

  predicate PolicyFault(p: RestartPolicy) {
    || p.initialBackoff <= 0 || p.multiplier < 1 || p.maxBackoff <= 0 || p.initialBackoff > p.maxBackoff
    || p.maxFailures < 1 || p.stableWindow <= 0
  }

  predicate FitsWords(p: RestartPolicy) {
    && p.maxBackoff <= 0x7FFF_FFFF_FFFF_FFFF && p.multiplier <= 0xFFFF_FFFF_FFFF_FFFF
    && p.maxFailures <= 0x7FFF_FFFF_FFFF_FFFF && p.stableWindow <= 0x7FFF_FFFF_FFFF_FFFF
  }

  lemma PolicyFaults(p: RestartPolicy)
    requires FitsWords(p)
    ensures ValidPolicy(p) <==> !PolicyFault(p)
  {
  }

  // ---- Frames and subscriptions ----

  predicate PayloadFault(capabilities: set<Capability>, eye: EyeSample, expressions: ExpressionSet) {
    || (exists b :: b in eye.valid && b.UnknownEyeBit?)
    || (exists id :: id in expressions.valid && id >= 76)
    || (CapEye !in capabilities && eye.valid != {})
    || (CapExpression !in capabilities && expressions.valid != {})
  }

  predicate UnknownGroup(capabilities: set<Capability>) {
    exists c :: c in capabilities && c.UnknownCapability?
  }

  lemma PayloadFaults(capabilities: set<Capability>, eye: EyeSample, expressions: ExpressionSet)
    ensures PayloadValid(capabilities, eye, expressions) <==> !PayloadFault(capabilities, eye, expressions)
    ensures capabilities <= KNOWN_CAPABILITIES <==> !UnknownGroup(capabilities)
  {
    EyeBits(eye.valid);
    MaskBits(expressions.valid);
    Groups(capabilities);
  }

  lemma EyeBits(valid: set<EyeBit>)
    ensures valid <= KNOWN_EYE_BITS <==> forall b | b in valid :: !b.UnknownEyeBit?
  {
    forall b: EyeBit ensures b in KNOWN_EYE_BITS <==> !b.UnknownEyeBit? {
    }
  }

  lemma MaskBits(mask: set<nat>)
    ensures mask == NormalizeMask(mask) <==> forall id | id in mask :: id < 76
  {
    assert forall id :: id in NormalizeMask(mask) <==> id in mask && id < 76;
  }

  lemma Groups(capabilities: set<Capability>)
    ensures capabilities <= KNOWN_CAPABILITIES <==> forall c | c in capabilities :: !c.UnknownCapability?
  {
    forall c: Capability ensures c in KNOWN_CAPABILITIES <==> !c.UnknownCapability? {
    }
  }

  /** A group without source or with a time that is not before now; or what is left of a group that is absent. */
  predicate GroupFault(capable: bool, source: string, atNS: int, nowNS: int, hasData: bool) {
    if capable then source == "" || atNS <= 0 || atNS > nowNS else source != "" || atNS != 0 || hasData
  }

  predicate InputFault(f: MergedFrame, nowNS: int) {
    || f.generation == 0 || f.sequence == 0 || nowNS < 0 || f.updatedAtNS < 0 || f.updatedAtNS > nowNS
    || UnknownGroup(f.capabilities) || PayloadFault(f.capabilities, f.eye, f.expressions)
    || GroupFault(CapEye in f.capabilities, f.eyeSource, f.eyeUpdatedAtNS, nowNS, f.eye != EMPTY_EYE)
    || GroupFault(CapExpression in f.capabilities, f.expressionSource, f.expressionUpdatedAtNS, nowNS, f.expressions != EmptyExpressions())
    || GroupFault(CapLip in f.capabilities, f.lipSource, f.lipUpdatedAtNS, nowNS, false)
  }

  /** The pipeline's check of a merged frame. */
  lemma InputFaults(f: MergedFrame, nowNS: int)
    ensures InputValid(f, nowNS) <==> !InputFault(f, nowNS)
  {
    PayloadFaults(f.capabilities, f.eye, f.expressions);
  }

  /** The merge service's check of a plugin's frame. */
  lemma FrameFaults(f: TrackingFrame)
    ensures f.Valid() <==> !UnknownGroup(f.capabilities) && !PayloadFault(f.capabilities, f.eye, f.expressions)
  {
    PayloadFaults(f.capabilities, f.eye, f.expressions);
  }

  predicate SubscriptionFault(s: Subscription, active: bool) {
    || UnknownGroup(s.capabilities)
    || (exists b :: b in s.eye && b.UnknownEyeBit?)
    || (exists id :: id in s.expressions && id >= 76)
    || (if s.generation == 0 then active || s != Subscription(0, {}, {}, {}) else s.capabilities == {})
  }

  lemma SubscriptionFaults(s: Subscription, active: bool)
    ensures Accepts(s, active) <==> !SubscriptionFault(s, active)
  {
    Groups(s.capabilities);
    EyeBits(s.eye);
    MaskBits(s.expressions);
  }

  // ---- Trimming ----

  /** The subscription asks for the eye field: for its group, and for its bit unless for all. */
  predicate AsksForEye(s: Subscription, f: EyeField) {
    CapEye in s.capabilities && (s.eye == {} || BitOf(f) in s.eye)
  }

  predicate AsksForExpression(s: Subscription, id: nat) {
    CapExpression in s.capabilities && (s.expressions == {} || id in s.expressions)
  }

  /** Normalizing drops what is selected of groups that are not asked for, and expressions that do not exist, and nothing else. */
  lemma NormalizeExactly(s: Subscription)
    ensures var n := Normalize(s);
            && n.generation == s.generation && n.capabilities == s.capabilities
            && (forall b :: b in n.eye <==> b in s.eye && CapEye in s.capabilities)
            && (forall id :: id in n.expressions <==> id in s.expressions && id < 76 && CapExpression in s.capabilities)
    ensures Accepts(s, true) ==> forall f: EyeField :: AsksForEye(Normalize(s), f) <==> AsksForEye(s, f)
  {
  }

  /** The frame shows this value in the eye field. */
  predicate ShowsEye(frame: TrackingFrame, f: EyeField, v: real) {
    CapEye in frame.capabilities && BitOf(f) in frame.eye.valid && frame.eye.Value(f) == v
  }

  predicate ShowsExpression(frame: TrackingFrame, id: nat, v: real) {
    CapExpression in frame.capabilities && id < 76 && id in frame.expressions.valid && frame.expressions.values[id] == v
  }

  /** Trimming keeps exactly what the subscription asks for, with its value, and clears everything else. */
  lemma TrimKeepsExactly(s: Subscription, frame: TrackingFrame, f: EyeField, id: nat, v: real)
    ensures ShowsEye(TrimFrame(s, frame), f, v) <==> ShowsEye(frame, f, v) && AsksForEye(s, f)
    ensures ShowsExpression(TrimFrame(s, frame), id, v) <==> ShowsExpression(frame, id, v) && AsksForExpression(s, id)
    ensures !AsksForEye(s, f) ==> TrimFrame(s, frame).eye.Value(f) == 0.0
    ensures id < 76 && !AsksForExpression(s, id) ==> TrimFrame(s, frame).expressions.values[id] == 0.0
    ensures var t := TrimFrame(s, frame);
            t.sequence == frame.sequence && t.timestampNS == frame.timestampNS && t.sourceClockNS == frame.sourceClockNS
  {
    EveryEyeField(f);
  }
}
