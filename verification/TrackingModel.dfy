/**
 The tracking vocabulary shared by the merge service, the processing pipeline
 and the parameter evaluator: capabilities, eye samples, expression sets and
 tracking frames.

 Bit masks are modelled as sets. Bits that the program does not know are kept
 (`UnknownCapability`, `UnknownEyeBit`, expression ids past EXPRESSION_COUNT), so
 the checks that reject them are part of the model. float32 values are reals.
 */
module TrackingModel {

  const EXPRESSION_COUNT: nat := 76

  datatype Capability = CapEye | CapExpression | CapLip | UnknownCapability(bit: nat)

  const KNOWN_CAPABILITIES: set<Capability> := {CapEye, CapExpression, CapLip}

  datatype EyeBit =
    | LeftGaze | RightGaze | LeftOpenness | RightOpenness | LeftPupil | RightPupil
    | UnknownEyeBit(bit: nat)

  const KNOWN_EYE_BITS: set<EyeBit> :=
    {LeftGaze, RightGaze, LeftOpenness, RightOpenness, LeftPupil, RightPupil}

  /** The concrete fields of an eye sample, in their declared order. */
  datatype EyeField =
    | LeftGazeX | LeftGazeY | RightGazeX | RightGazeY
    | LeftOpen | RightOpen
    | LeftDiameter | RightDiameter | LeftDilation | RightDilation

  /** All eye fields in their declared order, which is also the order of the eye channels. */
  const EYE_FIELDS: seq<EyeField> :=
    [LeftGazeX, LeftGazeY, RightGazeX, RightGazeY, LeftOpen, RightOpen,
     LeftDiameter, RightDiameter, LeftDilation, RightDilation]

  lemma EveryEyeField(f: EyeField)
    ensures f in EYE_FIELDS
  {
    match f
    case LeftGazeX => assert EYE_FIELDS[0] == f;
    case LeftGazeY => assert EYE_FIELDS[1] == f;
    case RightGazeX => assert EYE_FIELDS[2] == f;
    case RightGazeY => assert EYE_FIELDS[3] == f;
    case LeftOpen => assert EYE_FIELDS[4] == f;
    case RightOpen => assert EYE_FIELDS[5] == f;
    case LeftDiameter => assert EYE_FIELDS[6] == f;
    case RightDiameter => assert EYE_FIELDS[7] == f;
    case LeftDilation => assert EYE_FIELDS[8] == f;
    case RightDilation => assert EYE_FIELDS[9] == f;
  }

  /** The validity bit that covers a field: both gaze axes share one, as do both pupil values. */
  function BitOf(field: EyeField): EyeBit {
    match field
    case LeftGazeX | LeftGazeY => LeftGaze
    case RightGazeX | RightGazeY => RightGaze
    case LeftOpen => LeftOpenness
    case RightOpen => RightOpenness
    case LeftDiameter | LeftDilation => LeftPupil
    case RightDiameter | RightDilation => RightPupil
  }

  datatype EyeSample = EyeSample(
    valid: set<EyeBit>,
    leftGazeX: real, leftGazeY: real, rightGazeX: real, rightGazeY: real,
    leftOpen: real, rightOpen: real,
    leftDiameter: real, rightDiameter: real, leftDilation: real, rightDilation: real)
  {
    function Value(field: EyeField): real {
      match field
      case LeftGazeX => leftGazeX
      case LeftGazeY => leftGazeY
      case RightGazeX => rightGazeX
      case RightGazeY => rightGazeY
      case LeftOpen => leftOpen
      case RightOpen => rightOpen
      case LeftDiameter => leftDiameter
      case RightDiameter => rightDiameter
      case LeftDilation => leftDilation
      case RightDilation => rightDilation
    }
  }

  const EMPTY_EYE := EyeSample({}, 0.0, 0.0, 0.0, 0.0, 0.0, 0.0, 0.0, 0.0, 0.0, 0.0)

  /** Clears every value whose validity bit is not set. */
  function ZeroInvalidEye(e: EyeSample): (r: EyeSample)
    ensures r.valid == e.valid
    ensures forall f: EyeField :: r.Value(f) == if BitOf(f) in e.valid then e.Value(f) else 0.0
  {
    EyeSample(e.valid,
              if LeftGaze in e.valid then e.leftGazeX else 0.0,
              if LeftGaze in e.valid then e.leftGazeY else 0.0,
              if RightGaze in e.valid then e.rightGazeX else 0.0,
              if RightGaze in e.valid then e.rightGazeY else 0.0,
              if LeftOpenness in e.valid then e.leftOpen else 0.0,
              if RightOpenness in e.valid then e.rightOpen else 0.0,
              if LeftPupil in e.valid then e.leftDiameter else 0.0,
              if RightPupil in e.valid then e.rightDiameter else 0.0,
              if LeftPupil in e.valid then e.leftDilation else 0.0,
              if RightPupil in e.valid then e.rightDilation else 0.0)
  }

  /** Expression ids beyond EXPRESSION_COUNT are the mask's unused tail bits. */
  function NormalizeMask(mask: set<nat>): set<nat> {
    set id | id in mask && id < EXPRESSION_COUNT
  }

  function ZeroValues(): (values: seq<real>)
    ensures |values| == EXPRESSION_COUNT
    ensures forall id | 0 <= id < |values| :: values[id] == 0.0
  {
    seq(EXPRESSION_COUNT, _ => 0.0)
  }

  datatype RawExpressions = Expressions(values: seq<real>, valid: set<nat>) {
    predicate Has(id: nat) {
      id < EXPRESSION_COUNT && id in valid
    }

    function Value(id: nat): real
      requires id < EXPRESSION_COUNT
      requires |values| == EXPRESSION_COUNT
    {
      values[id]
    }
  }

  type ExpressionSet = e: RawExpressions | |e.values| == EXPRESSION_COUNT witness Expressions(ZeroValues(), {})

  function EmptyExpressions(): ExpressionSet {
    Expressions(ZeroValues(), {})
  }

  /** Clears every value whose expression is not marked valid. */
  function ZeroInvalidExpressions(e: ExpressionSet): (r: ExpressionSet)
    ensures r.valid == e.valid
    ensures forall id: nat | id < EXPRESSION_COUNT :: r.values[id] == if id in e.valid then e.values[id] else 0.0
  {
    Expressions(seq(EXPRESSION_COUNT, i requires 0 <= i < EXPRESSION_COUNT => if i in e.valid then e.values[i] else 0.0),
                e.valid)
  }

  datatype TrackingFrame = TrackingFrame(
    sequence: nat, timestampNS: int, sourceClockNS: int,
    capabilities: set<Capability>, eye: EyeSample, expressions: ExpressionSet)
  {
    /** What `Validate` accepts; every real is finite, so its finiteness checks always pass. */
    predicate Valid() {
      && capabilities <= KNOWN_CAPABILITIES
      && PayloadValid(capabilities, eye, expressions)
    }
  }

  predicate PayloadValid(capabilities: set<Capability>, eye: EyeSample, expressions: ExpressionSet) {
    && eye.valid <= KNOWN_EYE_BITS
    && expressions.valid == NormalizeMask(expressions.valid)
    && (CapEye !in capabilities ==> eye.valid == {})
    && (CapExpression !in capabilities ==> expressions.valid == {})
  }

  function CanonicalEye(frame: TrackingFrame): EyeSample {
    if CapEye in frame.capabilities then ZeroInvalidEye(frame.eye) else EMPTY_EYE
  }

  function CanonicalExpressions(frame: TrackingFrame): ExpressionSet {
    if CapExpression in frame.capabilities then ZeroInvalidExpressions(frame.expressions) else EmptyExpressions()
  }

  /** `Canonicalize` of a frame that passed `Validate`. */
  function Canonicalize(frame: TrackingFrame): TrackingFrame {
    frame.(eye := CanonicalEye(frame), expressions := CanonicalExpressions(frame))
  }

  lemma CanonicalIsValid(frame: TrackingFrame)
    requires frame.Valid()
    ensures Canonicalize(frame).Valid()
    ensures Canonicalize(frame).capabilities == frame.capabilities
  {
  }

  lemma CanonicalizeTwice(frame: TrackingFrame)
    ensures Canonicalize(Canonicalize(frame)) == Canonicalize(frame)
  {
    var once := Canonicalize(frame);
    assert CanonicalEye(once) == once.eye;
    assert CanonicalExpressions(once).values == once.expressions.values;
  }

  /** The processing pipeline's output, which the evaluator reads. */
  datatype CanonicalFrame = CanonicalFrame(
    generation: nat, revision: nat, processedAtNS: int,
    eyeSource: string, expressionSource: string, lipSource: string,
    eyeActive: bool, expressionActive: bool, lipActive: bool,
    eye: EyeSample, expressions: ExpressionSet)
}
