/**
 What the receiver is told, said without the sender's own formulas: what an output
 wants to tell of its source, how each wire kind carries a truth or a number, and that
 after a successful send this is what the receiver has decoded.
 */
module OscMeaning {
  import opened Common
  import opened OscWire
  import opened OscScalars
  import opened OscOutputs
  import opened OscSender

  /** What an output has to tell. */
  datatype Quantity = Truth(b: bool) | Number(x: real)

  // ---- What an output wants to tell ----

  function Distance(a: real, b: real): real {
    if a <= b then b - a else a - b
  }

  /** r is the value itself without a range, else the value of the range that is nearest to it. */
  ghost predicate Ranged(output: Output, value: real, r: real) {
    if !output.hasRange then r == value
    else if output.range.min > output.range.max then r == if value < output.range.min then output.range.min else output.range.max
    else
      && output.range.min <= r <= output.range.max
      && forall other: real | output.range.min <= other <= output.range.max :: Distance(value, r) <= Distance(value, other)
  }

  lemma ClampIsRanged(output: Output, value: real)
    ensures Ranged(output, value, ClampOutput(output, value))
  {
  }

  lemma RangedIsUnique(output: Output, value: real, a: real, b: real)
    requires Ranged(output, value, a) && Ranged(output, value, b)
    ensures a == b
  {
    if output.hasRange && output.range.min <= output.range.max {
      var middle := (a + b) / 2.0;
      assert Distance(value, a) <= Distance(value, middle) && Distance(value, b) <= Distance(value, middle);
    }
  }

  predicate IsProduct(a: real, b: real, p: real) {
    a * b == p
  }

  lemma FactorIsUnique(a: real, b: real, c: real, p: real)
    requires c > 0.0 && IsProduct(a, c, p) && IsProduct(b, c, p)
    ensures a == b
  {
    assert (a - b) * c == a * c - b * c == 0.0;
  }

  /** The share that part has in the whole, at least nothing and at most all of it. */
  predicate HasShare(part: real, whole: real, share: real) {
    && (0.0 <= part <= whole ==> IsProduct(share, whole, part))
    && (part < 0.0 ==> share == 0.0) && (part > whole ==> share == 1.0)
  }

  lemma QuotientIsShare(part: real, whole: real)
    requires whole > 0.0
    ensures HasShare(part, whole, Clamp(part / whole, 0.0, 1.0))
  {
    var q := part / whole;
    assert q * whole == part;
    if part < 0.0 && q >= 0.0 { Grows(0.0, q, whole); }
    if part > whole && q <= 1.0 { Grows(q, 1.0, whole); }
    if part >= 0.0 && q < 0.0 { Grows(q, 0.0, whole); }
    if part <= whole && q > 1.0 { Grows(1.0, q, whole); }
  }

  lemma Grows(a: real, b: real, c: real)
    requires a <= b && c > 0.0
    ensures a * c <= b * c && (a < b ==> a * c < b * c)
  {
    assert (b - a) * c >= 0.0;
    if a < b { assert (b - a) * c > 0.0; }
  }

  lemma ShareIsUnique(part: real, whole: real, a: real, b: real)
    requires whole > 0.0 && HasShare(part, whole, a) && HasShare(part, whole, b)
    ensures a == b
  {
    if 0.0 <= part <= whole { FactorIsUnique(a, b, whole, part); }
  }

  /**
   How large a value is: its size, as a share of one without a range, or of the larger
   end of a range that reaches below zero; else its height above the range's lower end,
   as a share of the range.
   */
  predicate Magnitude(output: Output, v: real, share: real) {
    var min, max := output.range.min, output.range.max;
    if !output.hasRange || max <= min then HasShare(Abs(v), 1.0, share)
    else if min >= 0.0 then HasShare(v - min, max - min, share)
    else if max > -min then HasShare(Abs(v), max, share)
    else HasShare(Abs(v), -min, share)
  }

  lemma BinaryIsMagnitude(output: Output, v: real)
    ensures Magnitude(output, v, BinaryMagnitude(output, v))
  {
    var min, max := output.range.min, output.range.max;
    if !output.hasRange || max <= min {
    } else if min >= 0.0 {
      QuotientIsShare(v - min, max - min);
    } else if max > -min {
      QuotientIsShare(Abs(v), max);
    } else {
      QuotientIsShare(Abs(v), -min);
    }
  }

  lemma MagnitudeIsUnique(output: Output, v: real, a: real, b: real)
    requires Magnitude(output, v, a) && Magnitude(output, v, b)
    ensures a == b
  {
    var min, max := output.range.min, output.range.max;
    if !output.hasRange || max <= min {
      ShareIsUnique(Abs(v), 1.0, a, b);
    } else if min >= 0.0 {
      ShareIsUnique(v - min, max - min, a, b);
    } else if max > -min {
      ShareIsUnique(Abs(v), max, a, b);
    } else {
      ShareIsUnique(Abs(v), -min, a, b);
    }
  }

  /** The level that a share reaches among 0..most, counting one step more than most, in 32 bits. */
  predicate Reaches(most: Word, share: real, level: nat) {
    var height := share * (if most == 0xFFFF_FFFF then 0.0 else (most + 1) as real);
    level <= most && level as real <= height && (level < most ==> height < (level + 1) as real)
  }

  lemma QuantizeReaches(most: Word, share: real)
    requires 0.0 <= share <= 1.0
    ensures Reaches(most, share, Quantize(share, most))
  {
    Grows(0.0, share, Levels(most) as real + 1.0);
    assert share * Levels(most) as real >= 0.0;
  }

  /** The level is an odd multiple of the weight, and less than one weight more. */
  ghost predicate BitIsSet(level: nat, weight: nat) {
    exists half: nat :: Odd(level, weight, half)
  }

  predicate Odd(level: nat, weight: nat, half: nat) {
    weight * (2 * half + 1) <= level < weight * (2 * half + 2)
  }

  lemma BitIsOdd(level: nat, weight: nat)
    ensures HasBit(level, weight) <==> BitIsSet(level, weight)
  {
    if weight == 0 {
      forall half: nat ensures !Odd(level, weight, half) { }
    } else {
      var q := level / weight;
      assert level == q * weight + level % weight;
      if q % 2 == 1 { assert Odd(level, weight, q / 2) by { Doubled(q, weight); } }
      forall half: nat | Odd(level, weight, half) ensures q % 2 == 1 { Between(level, weight, 2 * half + 1); }
    }
  }

  lemma Doubled(q: nat, weight: nat)
    requires q % 2 == 1
    ensures weight * (2 * (q / 2) + 1) == q * weight && weight * (2 * (q / 2) + 2) == q * weight + weight
  {
    assert 2 * (q / 2) + 1 == q;
  }

  lemma Between(level: nat, weight: nat, k: nat)
    requires weight > 0 && weight * k <= level < weight * (k + 1)
    ensures level / weight == k
  {
    var q := level / weight;
    assert weight * q <= level < weight * (q + 1);
    if q < k { Multiplied(weight, q + 1, k); }
    if q > k { Multiplied(weight, k + 1, q); }
  }

  lemma Multiplied(weight: nat, a: nat, b: nat)
    requires a <= b
    ensures weight * a <= weight * b
  {
  }

  /** What a numeric output has to tell of a value. */
  ghost predicate Asks(output: Output, value: real, q: Quantity) {
    exists v :: Ranged(output, value, v) &&
      match output.operation
      case DirectBool => false
      case DirectFloat => q == Number(v)
      case BinaryNegative => q.Truth? && (q.b <==> v < 0.0)
      case BinaryBit => q.Truth? && exists share, level :: ShowsBit(output, v, share, level, q.b)
  }

  ghost predicate ShowsBit(output: Output, v: real, share: real, level: nat, b: bool) {
    Magnitude(output, v, share) && Reaches(output.quantizeMax, share, level) && (b <==> BitIsSet(level, output.weight))
  }

  /** What an output has to tell of a source: nothing if the source has no value for it. */
  ghost predicate Wants(output: Output, source: Source, q: Quantity) {
    if output.operation == DirectBool then
      source.truth(output.parameter).Some? && q == Truth(source.truth(output.parameter).value)
    else
      source.float(output.parameter).Some? && Asks(output, source.float(output.parameter).value, q)
  }

  // ---- How a wire kind carries it ----

  /** i is the integer nearest to x, and of two the one farther from zero. */
  predicate Nearest(x: real, i: int) {
    var d := i as real - x;
    -0.5 <= d <= 0.5 && (d == 0.5 ==> x >= 0.0) && (d == -0.5 ==> x <= 0.0)
  }

  lemma RoundIsNearestInteger(x: real)
    ensures Nearest(x, Round(x))
  {
  }

  lemma NearestIsUnique(x: real, i: int, j: int)
    requires Nearest(x, i) && Nearest(x, j)
    ensures i == j
  {
    var gap := i as real - j as real;
    assert gap == (i - j) as real;
  }

  /** What a receiver decodes when it is told a quantity with this wire kind. */
  predicate Tells(kind: Kind, q: Quantity, format: FloatFormat, value: Value) {
    match kind
    case FloatKind => value == FloatValue(format.bits(match q case Truth(b) => if b then 1.0 else 0.0 case Number(x) => x))
    case IntKind =>
      (match q
       case Truth(b) => value == IntValue(if b then 1 else 0)
       case Number(x) => value.IntValue? && Integral(x, format, value.i as int))
    case FalseKind => value == BoolValue(match q case Truth(b) => b case Number(x) => x >= 0.5)
    case TrueKind => value == BoolValue(match q case Truth(b) => b case Number(x) => x >= 0.5)
    case UnknownKind => false
  }

  /** An integer that fits is the nearest one; of others the format says what is left. */
  predicate Integral(x: real, format: FloatFormat, i: int) {
    Nearest(x, i) || ((x <= -0x8000_0000 as real - 0.5 || x >= 0x7FFF_FFFF as real + 0.5) && i == ToInt(format.overflow) as int)
  }

  lemma IntegerIsIntegral(x: real, format: FloatFormat)
    ensures Integral(x, format, ToInt(IntBits(Round(x), format)) as int)
  {
    RoundIsNearestInteger(x);
    var i := Round(x);
    if -0x8000_0000 <= i < 0x8000_0000 {
      assert ToInt(FromInt(i)) as int == i;
    } else if i < 0 {
      assert i as real <= -0x8000_0001 as real;
    } else {
      assert i as real >= 0x8000_0000 as real;
    }
  }

  // ---- What an output sends ----

  /** What the quantity is for a value that the output's range leaves. */
  function Quantified(output: Output, v: real): Quantity
    requires output.operation != DirectBool
  {
    match output.operation
    case DirectFloat => Number(v)
    case BinaryNegative => Truth(v < 0.0)
    case BinaryBit => Truth(HasBit(Quantize(BinaryMagnitude(output, v), output.quantizeMax), output.weight))
  }

  lemma QuantifiedIsAsked(output: Output, value: real)
    requires output.operation != DirectBool
    ensures Asks(output, value, Quantified(output, ClampOutput(output, value)))
  {
    var v := ClampOutput(output, value);
    ClampIsRanged(output, value);
    if output.operation == BinaryBit {
      var share := BinaryMagnitude(output, v);
      var level := Quantize(share, output.quantizeMax);
      BinaryIsMagnitude(output, v);
      QuantizeReaches(output.quantizeMax, share);
      BitIsOdd(level, output.weight);
      assert ShowsBit(output, v, share, level, HasBit(level, output.weight));
    }
  }

  lemma ReachesIsUnique(most: Word, share: real, a: nat, b: nat)
    requires Reaches(most, share, a) && Reaches(most, share, b)
    ensures a == b
  {
  }

  lemma AskedIsUnique(output: Output, value: real, a: Quantity, b: Quantity)
    requires Asks(output, value, a) && Asks(output, value, b)
    ensures a == b
  {
    var v :| Ranged(output, value, v) &&
      match output.operation
      case DirectBool => false
      case DirectFloat => a == Number(v)
      case BinaryNegative => a.Truth? && (a.b <==> v < 0.0)
      case BinaryBit => a.Truth? && exists share, level :: ShowsBit(output, v, share, level, a.b);
    forall w | Ranged(output, value, w) ensures w == v { RangedIsUnique(output, value, v, w); }
    if output.operation == BinaryBit {
      var share, level :| ShowsBit(output, v, share, level, a.b);
      forall share': real, level': nat | ShowsBit(output, v, share', level', b.b) ensures a.b == b.b {
        MagnitudeIsUnique(output, v, share, share');
        ReachesIsUnique(output.quantizeMax, share, level, level');
      }
    }
  }

  lemma WantedIsUnique(output: Output, source: Source, a: Quantity, b: Quantity)
    requires Wants(output, source, a) && Wants(output, source, b)
    ensures a == b
  {
    if output.operation != DirectBool { AskedIsUnique(output, source.float(output.parameter).value, a, b); }
  }

  /** An output sends what carries the quantity it wants to tell; without one it sends nothing. */
  lemma OutputTells(output: Output, source: Source, format: FloatFormat) returns (q: Quantity)
    ensures match EvaluateOutput(output, source, format)
            case Present(scalar) => Wants(output, source, q) && Tells(output.wireKind, q, format, ValueOf(scalar))
            case Broken => Wants(output, source, q) && output.wireKind.UnknownKind?
            case NoValue => forall other :: !Wants(output, source, other)
  {
    if output.operation == DirectBool {
      q := Truth(if source.truth(output.parameter).Some? then source.truth(output.parameter).value else false);
      TruthIsSent(output.wireKind, q.b, format);
    } else if source.float(output.parameter).None? {
      q := Truth(false);
    } else {
      var value := source.float(output.parameter).value;
      q := Quantified(output, ClampOutput(output, value));
      QuantifiedIsAsked(output, value);
      match q
      case Truth(b) => TruthIsSent(output.wireKind, b, format);
      case Number(x) => NumberIsSent(output.wireKind, x, format);
    }
  }

  lemma TruthIsSent(kind: Kind, b: bool, format: FloatFormat)
    ensures match ScalarFromBool(kind, b, format)
            case Present(scalar) => Tells(kind, Truth(b), format, ValueOf(scalar))
            case Broken => kind.UnknownKind?
            case NoValue => false
  {
  }

  lemma NumberIsSent(kind: Kind, x: real, format: FloatFormat)
    ensures match ScalarFromFloat(kind, x, format)
            case Present(scalar) => Tells(kind, Number(x), format, ValueOf(scalar))
            case Broken => kind.UnknownKind?
            case NoValue => false
  {
    IntegerIsIntegral(x, format);
  }

  // ---- What the receiver holds ----

  /** The same value, or a float within the tolerance. */
  predicate Close(value: Value, exact: Value, epsilon: real, format: FloatFormat) {
    if exact.FloatValue? then value.FloatValue? && Abs(format.number(value.bits) - format.number(exact.bits)) <= epsilon
    else value == exact
  }

  /** At the output's address the receiver holds one value, which tells the quantity. */
  ghost predicate Knows(held: Held, output: Output, q: Quantity, epsilon: real, format: FloatFormat) {
    exists value, exact :: Tells(output.wireKind, q, format, exact) && HoldsClose(held, output.address, value, exact, epsilon, format)
  }

  predicate HoldsClose(held: Held, address: Bytes, value: Value, exact: Value, epsilon: real, format: FloatFormat) {
    address in held && held[address] == [value] && Close(value, exact, epsilon, format)
  }

  /** The receiver knows everything that the outputs want to tell. */
  ghost predicate Told(outputs: seq<Output>, source: Source, held: Held, epsilon: real, format: FloatFormat) {
    forall i, q | 0 <= i < |outputs| && Wants(outputs[i], source, q) :: Knows(held, outputs[i], q, epsilon, format)
  }

  lemma {:induction false} UpToDateIsTold(outputs: seq<Output>, source: Source, held: Held, epsilon: real, format: FloatFormat)
    requires forall o | o in outputs :: Usable(o)
    requires UpToDate(outputs, held, Evaluations(outputs, source, format), epsilon, format)
    ensures Told(outputs, source, held, epsilon, format)
  {
    forall i, q | 0 <= i < |outputs| && Wants(outputs[i], source, q) ensures Knows(held, outputs[i], q, epsilon, format) {
      OneIsTold(outputs, source, held, epsilon, format, i, q);
    }
  }

  lemma {:induction false} OneIsTold(outputs: seq<Output>, source: Source, held: Held, epsilon: real, format: FloatFormat, i: nat, q: Quantity)
    requires i < |outputs| && Usable(outputs[i]) && Wants(outputs[i], source, q)
    requires UpToDate(outputs, held, Evaluations(outputs, source, format), epsilon, format)
    ensures Knows(held, outputs[i], q, epsilon, format)
  {
    var output := outputs[i];
    var values := Evaluations(outputs, source, format);
    assert values[i] == EvaluateOutput(output, source, format);
    UsableIsNeverBroken(output, source, format);
    var sent := OutputTells(output, source, format);
    assert values[i].Present?;
    WantedIsUnique(output, source, q, sent);
    assert HoldsClose(held, output.address, held[output.address][0], ValueOf(values[i].scalar), epsilon, format);
  }

  /**
   After every run of catalog swaps, resets and sends over a transport that may refuse
   anything: if the last send ended well, the receiver, decoding the accepted packets,
   knows what every output wants to tell of the source.
   */
  method RunTelling(epsilon: real, maxDatagram: Int32, useBundles: bool, format: FloatFormat, events: seq<SenderEvent>, source: Source)
    returns (r: SendResult, ghost sent: seq<Bytes>)
    requires forall c | c in Installed(events) :: Compiled(c)
    requires CollisionFree(Installed(events))
    ensures r == NoCatalog <==> LastInstalled(events).None?
    ensures r == Sent ==>
              Told(LastInstalled(events).value.outputs, source, Received(sent), if epsilon <= 0.0 then 0.001 else epsilon, format)
  {
    var state;
    state, r, sent := RunSender(epsilon, maxDatagram, useBundles, format, events, source);
    if r == Sent {
      UpToDateIsTold(state.catalog.value.outputs, source, Received(sent), if epsilon <= 0.0 then 0.001 else epsilon, format);
    }
  }
}
