/**
 Plugin subscriptions: which groups and fields of a frame a plugin is asked for,
 and how its frames are trimmed to them.
 */
module Subscriptions {
  import opened TrackingModel

  datatype Subscription = Subscription(
    generation: nat, capabilities: set<Capability>, eye: set<EyeBit>, expressions: set<nat>)

  /** Drops detail selections of disabled groups and unused expression bits. */
  function Normalize(s: Subscription): Subscription {
    s.(eye := if CapEye in s.capabilities then s.eye else {},
       expressions := if CapExpression in s.capabilities then NormalizeMask(s.expressions) else {})
  }

  /** `Validate(active)` accepts s. */
  predicate Accepts(s: Subscription, active: bool) {
    && s.capabilities <= KNOWN_CAPABILITIES
    && s.eye <= KNOWN_EYE_BITS
    && s.expressions == NormalizeMask(s.expressions)
    && (s.generation == 0 ==> !active && s.capabilities == {} && s.eye == {} && s.expressions == {})
    && (s.generation > 0 ==> s.capabilities != {})
  }

  function TrimEye(s: Subscription, frame: TrackingFrame): EyeSample {
    if CapEye !in frame.capabilities * s.capabilities then EMPTY_EYE else
      var known := frame.eye.valid * KNOWN_EYE_BITS;
      ZeroInvalidEye(frame.eye.(valid := if s.eye == {} then known else known * s.eye))
  }

  function TrimExpressions(s: Subscription, frame: TrackingFrame): ExpressionSet {
    if CapExpression !in frame.capabilities * s.capabilities then EmptyExpressions() else
      var known := NormalizeMask(frame.expressions.valid);
      var kept := if s.expressions == {} then known else known * s.expressions;
      ZeroInvalidExpressions(Expressions(frame.expressions.values, kept))
  }

  /** `TrimFrame`: a copy of frame holding only what s selects. */
  function TrimFrame(s: Subscription, frame: TrackingFrame): TrackingFrame {
    TrackingFrame(frame.sequence, frame.timestampNS, frame.sourceClockNS,
                  frame.capabilities * KNOWN_CAPABILITIES * s.capabilities,
                  TrimEye(s, frame), TrimExpressions(s, frame))
  }

  /** Trimming keeps a frame valid and never adds a group or a field. */
  lemma TrimIsSafe(s: Subscription, frame: TrackingFrame)
    requires frame.Valid()
    ensures TrimFrame(s, frame).Valid()
    ensures TrimFrame(s, frame).capabilities <= frame.capabilities
    ensures TrimFrame(s, frame).eye.valid <= frame.eye.valid
    ensures TrimFrame(s, frame).expressions.valid <= frame.expressions.valid
  {
  }

  /** Trimming twice is trimming once. */
  lemma TrimIsIdempotent(s: Subscription, frame: TrackingFrame)
    ensures TrimFrame(s, TrimFrame(s, frame)) == TrimFrame(s, frame)
  {
    var once := TrimFrame(s, frame);
    var twice := TrimFrame(s, once);
    assert twice.capabilities == once.capabilities;
    assert twice.eye.valid == once.eye.valid;
    assert twice.eye == once.eye;
    assert twice.expressions.valid == once.expressions.valid;
    assert twice.expressions.values == once.expressions.values;
  }
}
