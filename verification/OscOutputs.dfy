/**
 The compiled outputs of a catalog (internal/osc/catalog.go) and what each one
 sends for a value source (internal/osc/sender.go). Floats are reals; how a real
 is laid out in 32 bits is a parameter.
 */
module OscOutputs {
  import opened Common
  import opened OscWire
  import opened OscCodec
  import opened OscScalars

  datatype Range = Range(min: real, max: real)

  datatype Operation = DirectFloat | DirectBool | BinaryNegative | BinaryBit

  datatype Output = Output(parameter: nat, address: Bytes, operation: Operation, wireKind: Kind,
                           weight: Word, quantizeMax: Word, range: Range, hasRange: bool)

  datatype Source = Source(float: nat -> Option<real>, truth: nat -> Option<bool>)

  /** float32 bits of a value and back, and what converting an oversized float to int32 leaves. */
  datatype FloatFormat = FloatFormat(bits: real -> Word, number: Word -> real, overflow: Word)

  /** The value of an output now, if it has one; a wire kind with no encoding is an error. */
  datatype Evaluated = NoValue | Present(scalar: Scalar) | Broken

  // ---- Catalogs ----

  /** An endpoint's address is valid and its type is one the sender can encode. */
  predicate Usable(output: Output) {
    Sendable(output.address, output.wireKind)
  }

  /** Byte-wise order of addresses. */
  predicate Before(a: Bytes, b: Bytes) {
    if b == [] then false
    else if a == [] then true
    else a[0] < b[0] || (a[0] == b[0] && Before(a[1..], b[1..]))
  }

  lemma {:induction false} BeforeIsTotal(a: Bytes, b: Bytes)
    ensures a == b || Before(a, b) || Before(b, a)
  {
    if a != [] && b != [] && a[0] == b[0] {
      BeforeIsTotal(a[1..], b[1..]);
      assert a == [a[0]] + a[1..] && b == [b[0]] + b[1..];
    }
  }

  /** At position k, after a common beginning, a ends or has the smaller byte. */
  predicate DiffersAt(a: Bytes, b: Bytes, k: nat) {
    k <= |a| && k < |b| && (forall i | 0 <= i < k :: a[i] == b[i]) && (k == |a| || a[k] < b[k])
  }

  /** The order of dictionaries. */
  lemma {:induction false} BeforeIsLexicographic(a: Bytes, b: Bytes)
    ensures Before(a, b) <==> exists k: nat :: DiffersAt(a, b, k)
  {
    if a == [] || b == [] {
      if b != [] { assert DiffersAt(a, b, 0); }
    } else if a[0] != b[0] {
      if a[0] < b[0] { assert DiffersAt(a, b, 0); }
      forall k: nat | DiffersAt(a, b, k) ensures k == 0 {
      }
    } else {
      BeforeIsLexicographic(a[1..], b[1..]);
      if k: nat :| DiffersAt(a[1..], b[1..], k) {
        forall i | 0 < i < k + 1 ensures a[i] == b[i] { assert a[1..][i - 1] == b[1..][i - 1]; }
        assert DiffersAt(a, b, k + 1);
      }
      if k: nat :| DiffersAt(a, b, k) {
        assert DiffersAt(a[1..], b[1..], k - 1);
      }
    }
  }

  /** In the order of addresses, whatever decides between equal ones. */
  predicate Sorted(outputs: seq<Output>) {
    forall i, j | 0 <= i < j < |outputs| :: !Before(outputs[j].address, outputs[i].address)
  }

  /** Outputs with one address stand together. */
  predicate Grouped(outputs: seq<Output>) {
    forall i, j, k | 0 <= i < j < k < |outputs| && outputs[i].address == outputs[k].address ::
      outputs[j].address == outputs[i].address
  }

  lemma SortedIsGrouped(outputs: seq<Output>)
    requires Sorted(outputs)
    ensures Grouped(outputs)
  {
    forall i, j, k | 0 <= i < j < k < |outputs| && outputs[i].address == outputs[k].address
      ensures outputs[j].address == outputs[i].address
    {
      BeforeIsTotal(outputs[i].address, outputs[j].address);
    }
  }

  predicate Unique(outputs: seq<Output>) {
    forall i, j | 0 <= i < j < |outputs| :: outputs[i].address != outputs[j].address
  }

  /** Two different outputs want one address. */
  predicate Conflicting(outputs: seq<Output>) {
    exists a, b | a in outputs && b in outputs :: a != b && a.address == b.address
  }

  function Addresses(outputs: seq<Output>): set<Bytes> {
    set o | o in outputs :: o.address
  }

  lemma {:induction false} UniqueCount(outputs: seq<Output>)
    requires Unique(outputs)
    ensures |Addresses(outputs)| == |outputs|
  {
    if outputs != [] {
      var init, last := outputs[..|outputs| - 1], outputs[|outputs| - 1];
      UniqueCount(init);
      assert outputs == init + [last];
      assert Addresses(outputs) == Addresses(init) + {last.address};
      assert last.address !in Addresses(init);
    }
  }

  const MAX_OUTPUTS: nat := 0x1_0000

  datatype Merged = Distinct(outputs: seq<Output>) | Conflict | TooMany

  /**
   Drops repeated outputs from what the sort left; an output's place in the result is
   its place in the sender's cache. Fails exactly when two different outputs share an
   address, or else when there are too many addresses.
   */
  method UniqueOutputs(outputs: seq<Output>, sorted: seq<Output>) returns (r: Merged)
    requires multiset(sorted) == multiset(outputs) && Sorted(sorted)
    ensures r.Conflict? <==> Conflicting(outputs)
    ensures r.TooMany? <==> !Conflicting(outputs) && |Addresses(outputs)| > MAX_OUTPUTS
    ensures r.Distinct? ==> Unique(r.outputs) && |r.outputs| == |Addresses(outputs)|
    ensures r.Distinct? ==> forall o :: o in r.outputs <==> o in outputs
  {
    SameOutputs(outputs, sorted);
    SortedIsGrouped(sorted);
    var unique := [];
    for i := 0 to |sorted|
      invariant unique == [] <==> i == 0
      invariant unique != [] ==> unique[|unique| - 1] == sorted[i - 1]
      invariant Unique(unique) && !Conflicting(sorted[..i])
      invariant forall o :: o in unique <==> o in sorted[..i]
    {
      if |unique| > 0 && unique[|unique| - 1].address == sorted[i].address {
        if unique[|unique| - 1] != sorted[i] {
          assert sorted[i - 1] in sorted && sorted[i] in sorted;
          return Conflict;
        }
        OutputRepeats(sorted, i);
      } else {
        AddressIsNew(sorted, i);
        UniqueNext(unique, sorted[i]);
        unique := unique + [sorted[i]];
      }
    }
    assert sorted[..|sorted|] == sorted;
    UniqueCount(unique);
    assert Addresses(unique) == Addresses(outputs);
    r := if |unique| > MAX_OUTPUTS then TooMany else Distinct(unique);
  }

  lemma SameOutputs(outputs: seq<Output>, sorted: seq<Output>)
    requires multiset(sorted) == multiset(outputs)
    ensures forall o :: o in sorted <==> o in outputs
  {
    forall o ensures o in sorted <==> o in outputs {
      assert o in sorted <==> o in multiset(sorted);
      assert o in outputs <==> o in multiset(outputs);
    }
  }

  lemma UniqueNext(outputs: seq<Output>, next: Output)
    requires Unique(outputs) && forall o | o in outputs :: o.address != next.address
    ensures Unique(outputs + [next])
  {
  }

  lemma OutputRepeats(sorted: seq<Output>, i: nat)
    requires 0 < i < |sorted| && sorted[i - 1] == sorted[i] && !Conflicting(sorted[..i])
    ensures !Conflicting(sorted[..i + 1])
    ensures forall o :: o in sorted[..i + 1] <==> o in sorted[..i]
  {
    assert sorted[..i + 1] == sorted[..i] + [sorted[i]];
    assert sorted[..i][i - 1] == sorted[i];
  }

  lemma AddressIsNew(sorted: seq<Output>, i: nat)
    requires i < |sorted| && Grouped(sorted) && !Conflicting(sorted[..i])
    requires i > 0 ==> sorted[i - 1].address != sorted[i].address
    ensures !Conflicting(sorted[..i + 1])
    ensures forall o | o in sorted[..i] :: o.address != sorted[i].address
    ensures forall o :: o in sorted[..i + 1] <==> o in sorted[..i] || o == sorted[i]
  {
    assert sorted[..i + 1] == sorted[..i] + [sorted[i]];
    forall j | 0 <= j < i ensures sorted[j].address != sorted[i].address {
    }
  }

  // ---- Evaluation ----

  function Clamp(value: real, low: real, high: real): real {
    if value < low then low else if value > high then high else value
  }

  function ClampOutput(output: Output, value: real): real {
    if output.hasRange then Clamp(value, output.range.min, output.range.max) else value
  }

  /** How large a value is, as a share of the range it may take. */
  function BinaryMagnitude(output: Output, value: real): (r: real)
    ensures 0.0 <= r <= 1.0
  {
    if !output.hasRange || output.range.max <= output.range.min then Clamp(Abs(value), 0.0, 1.0)
    else if output.range.min < 0.0 then
      var limit := if Abs(output.range.min) < Abs(output.range.max) then Abs(output.range.max) else Abs(output.range.min);
      if limit <= 0.0 then 0.0 else Clamp(Abs(value) / limit, 0.0, 1.0)
    else Clamp((value - output.range.min) / (output.range.max - output.range.min), 0.0, 1.0)
  }

  /** The quantized magnitude; the number of levels is computed in 32 bits. */
  function Quantize(magnitude: real, quantizeMax: Word): Word
    requires 0.0 <= magnitude <= 1.0
  {
    Capped(magnitude * Levels(quantizeMax) as real, quantizeMax)
  }

  function Levels(quantizeMax: Word): Word {
    (quantizeMax + 1) % 0x1_0000_0000
  }

  function Capped(x: real, most: Word): Word {
    if x.Floor > most then most else if x.Floor < 0 then 0 else x.Floor
  }

  /** Whether the bit of a power of two is set. */
  predicate HasBit(q: nat, weight: nat) {
    weight > 0 && q / weight % 2 == 1
  }

  function BitValue(output: Output, value: real): bool {
    HasBit(Quantize(BinaryMagnitude(output, ClampOutput(output, value)), output.quantizeMax), output.weight)
  }

  /** The nearest integer, halves away from zero. */
  function Round(x: real): int {
    if x < 0.0 then -((-x + 0.5).Floor) else (x + 0.5).Floor
  }

  /** Rounding moves a value by at most a half, and the same way for either sign. */
  lemma RoundIsNearest(x: real)
    ensures Abs(Round(x) as real - x) <= 0.5
    ensures Round(-x) == -Round(x)
  {
  }

  function IntBits(i: int, format: FloatFormat): Word {
    if -0x8000_0000 <= i < 0x8000_0000 then FromInt(i) else format.overflow
  }

  function ScalarFromFloat(kind: Kind, value: real, format: FloatFormat): Evaluated {
    match kind
    case FloatKind => Present(Scalar(FloatKind, format.bits(value)))
    case IntKind => Present(Scalar(IntKind, IntBits(Round(value), format)))
    case FalseKind => Present(TruthScalar(value >= 0.5))
    case TrueKind => Present(TruthScalar(value >= 0.5))
    case UnknownKind => Broken
  }

  function TruthScalar(value: bool): Scalar {
    Scalar(if value then TrueKind else FalseKind, 0)
  }

  function ScalarFromBool(kind: Kind, value: bool, format: FloatFormat): Evaluated {
    match kind
    case FloatKind => Present(Scalar(FloatKind, format.bits(if value then 1.0 else 0.0)))
    case IntKind => Present(Scalar(IntKind, if value then 1 else 0))
    case FalseKind => Present(TruthScalar(value))
    case TrueKind => Present(TruthScalar(value))
    case UnknownKind => Broken
  }

  function EvaluateOutput(output: Output, source: Source, format: FloatFormat): Evaluated {
    if output.operation == DirectBool then
      var value := source.truth(output.parameter);
      if value.None? then NoValue else ScalarFromBool(output.wireKind, value.value, format)
    else
      var value := source.float(output.parameter);
      if value.None? then NoValue
      else match output.operation
        case DirectFloat => ScalarFromFloat(output.wireKind, ClampOutput(output, value.value), format)
        case BinaryNegative => ScalarFromBool(output.wireKind, ClampOutput(output, value.value) < 0.0, format)
        case BinaryBit => ScalarFromBool(output.wireKind, BitValue(output, value.value), format)
  }

  /** Whatever the wire kind, true and false are sent as different scalars. */
  lemma TruthIsTold(kind: Kind, format: FloatFormat)
    requires !kind.UnknownKind? && format.bits(0.0) != format.bits(1.0)
    ensures ScalarFromBool(kind, true, format) != ScalarFromBool(kind, false, format)
  {
  }

  /** A usable output is never broken, and what it sends can be encoded. */
  lemma UsableIsNeverBroken(output: Output, source: Source, format: FloatFormat)
    requires Usable(output)
    ensures !EvaluateOutput(output, source, format).Broken?
    ensures EvaluateOutput(output, source, format).Present? ==>
      Sendable(output.address, EvaluateOutput(output, source, format).scalar.kind)
  {
  }
}
