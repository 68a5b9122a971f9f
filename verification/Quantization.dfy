/**
 Binary bindings (internal/osc/catalog.go, internal/osc/sender.go): a magnitude is
 sent as separate true or false bits, each output evaluated on its own. What the
 bits add up to, and when that approximates the magnitude.
 */
module Quantization {
  import opened Common
  import opened OscWire
  import opened OscOutputs

  function Pow2(n: nat): (r: nat)
    ensures r >= 1
  {
    if n == 0 then 1 else 2 * Pow2(n - 1)
  }

  lemma {:induction false} Pow2Grows(m: nat, n: nat)
    requires m <= n
    ensures Pow2(m) <= Pow2(n)
  {
    if m < n { Pow2Grows(m, n - 1); }
  }

  lemma {:induction false} Pow2Sum(m: nat, n: nat)
    ensures Pow2(m + n) == Pow2(m) * Pow2(n)
  {
    if n > 0 { Pow2Sum(m, n - 1); }
  }

  lemma Pow2Of32()
    ensures Pow2(32) == 0x1_0000_0000
  {
    assert Pow2(4) == 16;
    Pow2Sum(4, 4);
    Pow2Sum(8, 8);
    Pow2Sum(16, 16);
  }

  lemma Pow2IsBounded(n: nat)
    requires n <= 32
    ensures 1 <= Pow2(n) <= 0x1_0000_0000
  {
    Pow2Of32();
    Pow2Grows(n, 32);
  }

  lemma Pow2Fits(n: nat)
    requires n <= 31
    ensures Pow2(n) <= 0x8000_0000
  {
    Pow2Of32();
    Pow2Grows(n, 31);
  }

  /** The weights 1, 2, 4, ... of an n-bit group, in order. */
  function Weights(n: nat): (r: seq<nat>)
    ensures |r| == n
  {
    if n == 0 then [] else Weights(n - 1) + [Pow2(n - 1)]
  }

  /** Bitwise or with a power of two. */
  function Or(q: nat, weight: nat): nat {
    if HasBit(q, weight) then q else q + weight
  }

  ghost function OrAll(weights: seq<nat>): nat {
    if weights == [] then 0 else Or(OrAll(weights[..|weights| - 1]), weights[|weights| - 1])
  }

  lemma NoBitAbove(q: nat, weight: nat)
    requires q < weight
    ensures !HasBit(q, weight)
  {
    assert q / weight == 0;
  }

  method QuantizeMax(weights: seq<nat>) returns (q: nat)
    ensures q == OrAll(weights)
  {
    q := 0;
    for i := 0 to |weights|
      invariant q == OrAll(weights[..i])
    {
      assert weights[..i + 1][..i] == weights[..i];
      q := Or(q, weights[i]);
    }
    assert weights[..|weights|] == weights;
  }

  lemma {:induction false} OrOfWeights(n: nat)
    ensures OrAll(Weights(n)) == Pow2(n) - 1
  {
    if n > 0 {
      OrOfWeights(n - 1);
      assert Weights(n)[..n - 1] == Weights(n - 1);
      NoBitAbove(Pow2(n - 1) - 1, Pow2(n - 1));
    }
  }

  /** What the true bits add up to. */
  function TrueWeight(q: nat, weights: seq<nat>): nat {
    if weights == [] then 0
    else
      var last := weights[|weights| - 1];
      TrueWeight(q, weights[..|weights| - 1]) + if HasBit(q, last) then last else 0
  }

  lemma {:induction false} TrueWeightOfWeights(q: nat, n: nat)
    ensures TrueWeight(q, Weights(n)) == q % Pow2(n)
  {
    if n > 0 {
      TrueWeightOfWeights(q, n - 1);
      assert Weights(n)[..n - 1] == Weights(n - 1);
      NextBit(q, Pow2(n - 1));
    }
  }

  lemma NextBit(q: nat, w: nat)
    requires w > 0
    ensures q % (2 * w) == q % w + if HasBit(q, w) then w else 0
  {
    var high, low := q / w, q % w;
    assert q == w * high + low;
    var top := high / 2;
    assert high == 2 * top + high % 2;
    Distribute(w, top, high % 2);
    assert q == (2 * w) * top + (w * (high % 2) + low);
    assert high % 2 == 0 || high % 2 == 1;
    Remainder(q, 2 * w, top, w * (high % 2) + low);
  }

  lemma Distribute(w: nat, top: nat, odd: nat)
    ensures w * (2 * top + odd) == (2 * w) * top + w * odd
  {
  }

  lemma Remainder(q: nat, d: nat, k: nat, r: nat)
    requires d > 0 && r < d && q == d * k + r
    ensures q % d == r
  {
    Quotient(q, d, k, r);
  }

  lemma Quotient(q: nat, d: nat, k: nat, r: nat)
    requires d > 0 && r < d && q == d * k + r
    ensures q / d == k
  {
    var j := q / d;
    assert d * j <= q < d * j + d;
    if j < k { Product(d, j + 1, k); }
    if j > k { Product(d, k + 1, j); }
  }

  lemma Product(d: nat, x: nat, y: nat)
    requires x <= y
    ensures d * x <= d * y
  {
  }

  // ---- What the bits say of the magnitude ----

  /** The sum is the magnitude cut down to a whole number of steps of 1 / levels; the top step includes its end. */
  predicate Approximates(sum: nat, magnitude: real, levels: nat) {
    sum as real <= magnitude * levels as real <= (sum + 1) as real
  }

  /** The largest value of n bits. */
  function Most(n: nat): Word
    requires n <= 32
  {
    Pow2IsBounded(n);
    Pow2(n) - 1
  }

  /** What the true bits of an n-bit group add up to. */
  function BitSum(n: nat, magnitude: real): nat
    requires 1 <= n <= 32 && 0.0 <= magnitude <= 1.0
  {
    TrueWeight(Quantize(magnitude, Most(n)), Weights(n))
  }

  lemma Scale(magnitude: real, levels: real)
    requires 0.0 <= magnitude <= 1.0 && levels >= 0.0
    ensures 0.0 <= magnitude * levels <= levels
  {
  }

  lemma CappedApproximates(x: real, most: Word)
    requires 0.0 <= x <= (most + 1) as real
    ensures Capped(x, most) as real <= x <= (Capped(x, most) + 1) as real
  {
  }

  lemma QuantizeInRange(magnitude: real, quantizeMax: Word, levels: Word)
    requires 0.0 <= magnitude <= 1.0 && levels == Levels(quantizeMax) == quantizeMax + 1
    ensures Approximates(Quantize(magnitude, quantizeMax), magnitude, levels)
  {
    Scale(magnitude, levels as real);
    CappedApproximates(magnitude * levels as real, quantizeMax);
  }

  lemma Nothing(magnitude: real, levels: real)
    requires levels == 0.0
    ensures magnitude * levels == 0.0
  {
  }

  lemma QuantizeWraps(magnitude: real)
    requires 0.0 <= magnitude <= 1.0
    ensures Quantize(magnitude, 0xFFFF_FFFF) == 0
  {
    Nothing(magnitude, Levels(0xFFFF_FFFF) as real);
  }

  lemma BitsOf(q: nat, n: nat)
    requires q < Pow2(n)
    ensures TrueWeight(q, Weights(n)) == q
  {
    TrueWeightOfWeights(q, n);
    SmallRemainder(q, Pow2(n));
  }

  lemma SmallRemainder(q: nat, d: nat)
    requires q < d
    ensures q % d == q
  {
  }

  /** The bits of a full group add up to the quantized magnitude. */
  lemma BitsAddUp(n: nat, magnitude: real)
    requires 1 <= n <= 32 && 0.0 <= magnitude <= 1.0
    ensures BitSum(n, magnitude) == Quantize(magnitude, Most(n))
  {
    BitsOf(Quantize(magnitude, Most(n)), n);
  }

  /**
   The bits approximate the magnitude exactly when there are at most 31 of them:
   with all 32 the number of levels wraps to zero and every bit is false, which is
   right only for a magnitude of at most one step.
   */
  lemma ApproximationHoldsExactly(n: nat, magnitude: real)
    requires 1 <= n <= 32 && 0.0 <= magnitude <= 1.0
    ensures Approximates(BitSum(n, magnitude), magnitude, Pow2(n)) <==> n <= 31 || magnitude * 0x1_0000_0000 as real <= 1.0
  {
    if n <= 31 {
      FewBitsApproximate(n, magnitude);
    } else {
      AllBitsAreFalse(magnitude);
    }
  }

  lemma FewBitsApproximate(n: nat, magnitude: real)
    requires 1 <= n <= 31 && 0.0 <= magnitude <= 1.0
    ensures Approximates(BitSum(n, magnitude), magnitude, Pow2(n))
  {
    BitsAddUp(n, magnitude);
    Pow2Fits(n);
    ExactLevels(BitSum(n, magnitude), magnitude, Most(n), Pow2(n));
  }

  lemma ExactLevels(q: nat, magnitude: real, most: Word, levels: Word)
    requires 0.0 <= magnitude <= 1.0 && levels == most + 1 && q == Quantize(magnitude, most)
    ensures Approximates(q, magnitude, levels)
  {
    NoWrap(most, levels);
    QuantizeInRange(magnitude, most, levels);
  }

  lemma NoWrap(most: Word, levels: Word)
    requires levels == most + 1
    ensures Levels(most) == levels
  {
  }

  lemma AllBitsAreFalse(magnitude: real)
    requires 0.0 <= magnitude <= 1.0
    ensures BitSum(32, magnitude) == 0 && Pow2(32) == 0x1_0000_0000
    ensures Approximates(0, magnitude, 0x1_0000_0000) <==> magnitude * 0x1_0000_0000 as real <= 1.0
  {
    BitsAddUp(32, magnitude);
    Pow2Of32();
    QuantizeWraps(magnitude);
    Scale(magnitude, 0x1_0000_0000 as real);
  }

  lemma Wider(a: real, b: real, levels: real)
    requires a <= b && levels >= 0.0
    ensures a * levels <= b * levels
  {
  }

  /** A larger magnitude never has smaller bits. */
  lemma BitSumIsMonotone(n: nat, a: real, b: real)
    requires 1 <= n <= 32 && 0.0 <= a <= b <= 1.0
    ensures BitSum(n, a) <= BitSum(n, b)
  {
    BitsAddUp(n, a);
    BitsAddUp(n, b);
    QuantizeIsMonotone(a, b, Most(n));
  }

  lemma QuantizeIsMonotone(a: real, b: real, quantizeMax: Word)
    requires 0.0 <= a <= b <= 1.0
    ensures Quantize(a, quantizeMax) <= Quantize(b, quantizeMax)
  {
    var levels := Levels(quantizeMax) as real;
    Wider(a, b, levels);
    CappedIsMonotone(a * levels, b * levels, quantizeMax);
  }

  lemma CappedIsMonotone(x: real, y: real, most: Word)
    requires x <= y
    ensures Capped(x, most) <= Capped(y, most)
  {
  }

  /** Why the weights must be consecutive: with 1 and 4 alone, half of the range is sent as 1 of 5. */
  lemma GapLosesValue()
    ensures OrAll([1, 4]) == 5 && Quantize(0.5, 5) == 3 && TrueWeight(3, [1, 4]) == 1
    ensures !Approximates(1, 0.5, 6)
  {
    assert [1, 4][..1] == [1] && [1][..0] == [];
    assert OrAll([1]) == 1;
  }

  // ---- The outputs of a binary binding ----

  /** The bit outputs compiled for one binding whose weights are exactly 1, 2, ..., 2^(n-1). */
  ghost predicate FullGroup(outputs: seq<Output>, n: nat) {
    && 1 <= n <= 32 && |outputs| == n
    && (forall i | 0 <= i < n ::
         && outputs[i].operation == BinaryBit
         && outputs[i].weight == Weights(n)[i]
         && outputs[i].quantizeMax == OrAll(Weights(n))
         && outputs[i].range == outputs[0].range
         && outputs[i].hasRange == outputs[0].hasRange)
  }

  /** The weights of the outputs that are true for the value, each evaluated on its own. */
  function SumOfTrue(outputs: seq<Output>, value: real): nat {
    if outputs == [] then 0
    else
      var last := outputs[|outputs| - 1];
      SumOfTrue(outputs[..|outputs| - 1], value) + if BitValue(last, value) then last.weight else 0
  }

  lemma {:induction false} SumsAgree(outputs: seq<Output>, weights: seq<nat>, value: real, q: nat)
    requires |outputs| == |weights|
    requires forall i | 0 <= i < |outputs| :: outputs[i].weight == weights[i] && (BitValue(outputs[i], value) <==> HasBit(q, weights[i]))
    ensures SumOfTrue(outputs, value) == TrueWeight(q, weights)
  {
    if outputs != [] {
      var n := |outputs| - 1;
      SumsAgree(outputs[..n], weights[..n], value, q);
    }
  }

  /** The independently evaluated outputs of a group of at most 31 bits approximate the value's magnitude. */
  lemma GroupApproximates(outputs: seq<Output>, n: nat, value: real)
    requires FullGroup(outputs, n) && n <= 31
    ensures Approximates(SumOfTrue(outputs, value), BinaryMagnitude(outputs[0], ClampOutput(outputs[0], value)), Pow2(n))
  {
    var magnitude := BinaryMagnitude(outputs[0], ClampOutput(outputs[0], value));
    Pow2IsBounded(n);
    var q := Quantize(magnitude, Most(n));
    forall i | 0 <= i < n ensures BitValue(outputs[i], value) <==> HasBit(q, Weights(n)[i]) {
      OneMagnitude(outputs, n, i, value);
    }
    SumsAgree(outputs, Weights(n), value, q);
    ApproximationHoldsExactly(n, magnitude);
  }

  /** Every output of a group computes one and the same quantized magnitude. */
  lemma OneMagnitude(outputs: seq<Output>, n: nat, i: nat, value: real)
    requires FullGroup(outputs, n) && i < n
    ensures outputs[i].quantizeMax == Most(n)
    ensures BinaryMagnitude(outputs[i], ClampOutput(outputs[i], value)) == BinaryMagnitude(outputs[0], ClampOutput(outputs[0], value))
  {
    OrOfWeights(n);
    assert outputs[i].range == outputs[0].range && outputs[i].hasRange == outputs[0].hasRange;
  }
}
