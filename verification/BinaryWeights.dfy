/**
 Binary bindings with any weights the catalog accepts: powers of two, in any order,
 perhaps with gaps, perhaps repeated ("8" and "08" name one weight). The true bits add
 up to the quantized value exactly when the weights are distinct and every weight but 1
 has its half beside it, or when the number of levels wraps.
 */
module BinaryWeights {
  import opened Common
  import opened OscWire
  import opened OscOutputs
  import opened Quantization

  const MAX_UINT32: Word := 0xFFFF_FFFF

  ghost predicate PowerOfTwo(weight: nat) {
    exists e: nat :: e < 32 && weight == Pow2(e)
  }

  /** The weight is 1, or half of it is a weight too. */
  predicate HasHalf(weights: seq<nat>, i: nat)
    requires i < |weights|
  {
    weights[i] > 1 ==> weights[i] / 2 in weights
  }

  /** A condition on the weights alone: no repeats, and no gap below any weight. */
  predicate Consecutive(weights: seq<nat>) {
    && (forall i, j | 0 <= i < j < |weights| :: weights[i] != weights[j])
    && (forall i | 0 <= i < |weights| :: HasHalf(weights, i))
  }

  // ---- Bits by halving ----

  predicate Bit(q: nat, e: nat) {
    if e == 0 then q % 2 == 1 else Bit(q / 2, e - 1)
  }

  lemma HalvedQuotient(q: nat, w: nat, d: nat)
    requires w > 0 && d == 2 * w
    ensures q / d == (q / 2) / w
  {
    var k, r := DivMod(q, d);
    HalvedBy(q, w, d, k, r);
  }

  lemma DivMod(q: nat, d: nat) returns (k: nat, r: nat)
    requires d > 0
    ensures q == d * k + r && r < d && k == q / d
  {
    k, r := q / d, q % d;
  }

  lemma HalvedBy(q: nat, w: nat, d: nat, k: nat, r: nat)
    requires w > 0 && d == 2 * w && r < d && q == d * k + r
    ensures (q / 2) / w == k
  {
    Doubled(d, w, k);
    Half(w * k, r, q);
    Quotient(q / 2, w, k, r / 2);
  }

  lemma Doubled(d: nat, w: nat, k: nat)
    requires d == 2 * w
    ensures d * k == 2 * (w * k)
  {
  }

  lemma Half(x: nat, r: nat, q: nat)
    requires q == 2 * x + r
    ensures q / 2 == x + r / 2
  {
  }

  lemma {:induction false} BitIsSet(q: nat, e: nat)
    ensures HasBit(q, Pow2(e)) <==> Bit(q, e)
    decreases e
  {
    if e > 0 {
      HalvedQuotient(q, Pow2(e - 1), Pow2(e));
      BitIsSet(q / 2, e - 1);
    }
  }

  /** A power of two has one bit. */
  lemma {:induction false} BitOfPower(k: nat, e: nat)
    ensures Bit(Pow2(k), e) <==> e == k
    decreases e
  {
    if e > 0 && k > 0 { BitOfPower(k - 1, e - 1); }
    if e > 0 && k == 0 { NoBits(e - 1); }
  }

  lemma {:induction false} NoBits(e: nat)
    ensures !Bit(0, e)
  {
    if e > 0 { NoBits(e - 1); }
  }

  /** Adding a missing bit sets it and no other, and stays below any bound above it. */
  lemma {:induction false} BitAdded(q: nat, e: nat, j: nat)
    requires !Bit(q, e)
    ensures Bit(q + Pow2(e), j) <==> j == e || Bit(q, j)
    decreases e, j
  {
    if e == 0 {
      assert (q + 1) / 2 == q / 2;
    } else {
      assert (q + Pow2(e)) / 2 == q / 2 + Pow2(e - 1) && (q + Pow2(e)) % 2 == q % 2;
      if j > 0 { BitAdded(q / 2, e - 1, j - 1); }
    }
  }

  lemma {:induction false} AddedStaysBelow(q: nat, e: nat, n: nat)
    requires !Bit(q, e) && q < Pow2(n) && e < n
    ensures q + Pow2(e) < Pow2(n)
    decreases n
  {
    if e > 0 {
      assert q / 2 < Pow2(n - 1) && (q + Pow2(e)) / 2 == q / 2 + Pow2(e - 1);
      AddedStaysBelow(q / 2, e - 1, n - 1);
    }
  }

  /** Numbers with the same bits are equal. */
  lemma {:induction false} SameBits(a: nat, b: nat)
    requires forall e: nat :: Bit(a, e) <==> Bit(b, e)
    ensures a == b
    decreases a + b
  {
    assert Bit(a, 0) <==> Bit(b, 0);
    if a != 0 || b != 0 {
      forall e: nat ensures Bit(a / 2, e) <==> Bit(b / 2, e) {
        assert Bit(a, e + 1) <==> Bit(b, e + 1);
      }
      SameBits(a / 2, b / 2);
    }
  }

  lemma {:induction false} BitsBelow(n: nat, e: nat)
    ensures Bit(Pow2(n) - 1, e) <==> e < n
    decreases n
  {
    if n == 0 {
      NoBits(e);
    } else if e > 0 {
      assert (Pow2(n) - 1) / 2 == Pow2(n - 1) - 1;
      BitsBelow(n - 1, e - 1);
    }
  }

  // ---- Weight lists by their exponents ----

  function Powers(exponents: seq<nat>): (r: seq<nat>)
    ensures |r| == |exponents|
  {
    seq(|exponents|, i requires 0 <= i < |exponents| => Pow2(exponents[i]))
  }

  lemma PowersInit(exponents: seq<nat>)
    requires exponents != []
    ensures Powers(exponents)[..|exponents| - 1] == Powers(exponents[..|exponents| - 1])
  {
  }

  predicate AllBelow(exponents: seq<nat>, n: nat) {
    forall i | 0 <= i < |exponents| :: exponents[i] < n
  }

  predicate Distinct(exponents: seq<nat>) {
    forall i, j | 0 <= i < j < |exponents| :: exponents[i] != exponents[j]
  }

  function Count(exponents: seq<nat>, k: nat): nat {
    if exponents == [] then 0
    else Count(exponents[..|exponents| - 1], k) + if exponents[|exponents| - 1] == k then 1 else 0
  }

  /** Or-ing the weights sets exactly the listed bits. */
  lemma {:induction false} OrAllBits(exponents: seq<nat>, n: nat)
    requires AllBelow(exponents, n)
    ensures forall j: nat :: Bit(OrAll(Powers(exponents)), j) <==> j in exponents
    ensures OrAll(Powers(exponents)) < Pow2(n)
  {
    if exponents == [] {
      forall j: nat ensures !Bit(0, j) { NoBits(j); }
    } else {
      var init, last := exponents[..|exponents| - 1], exponents[|exponents| - 1];
      var before := OrAll(Powers(init));
      OrAllBits(init, n);
      PowersInit(exponents);
      BitIsSet(before, last);
      assert exponents == init + [last];
      if !Bit(before, last) {
        forall j: nat ensures Bit(before + Pow2(last), j) <==> j in exponents { BitAdded(before, last, j); }
        AddedStaysBelow(before, last, n);
      }
    }
  }

  lemma {:induction false} OrAllCovers(exponents: seq<nat>, e: nat)
    requires e in exponents
    ensures OrAll(Powers(exponents)) >= Pow2(e)
  {
    var init, last := exponents[..|exponents| - 1], exponents[|exponents| - 1];
    PowersInit(exponents);
    if last == e {
      if HasBit(OrAll(Powers(init)), Pow2(e)) { BitIsLarge(OrAll(Powers(init)), Pow2(e)); }
    } else {
      OrAllCovers(init, e);
    }
  }

  lemma BitIsLarge(q: nat, w: nat)
    requires HasBit(q, w)
    ensures q >= w
  {
    if q < w { NoBitAbove(q, w); }
  }

  // ---- Necessity ----

  /** The value 2^k is sent as 2^k once for every weight 2^k. */
  lemma {:induction false} PowerIsCounted(exponents: seq<nat>, k: nat)
    ensures TrueWeight(Pow2(k), Powers(exponents)) == Count(exponents, k) * Pow2(k)
  {
    if exponents != [] {
      var init, last := exponents[..|exponents| - 1], exponents[|exponents| - 1];
      PowerIsCounted(init, k);
      PowersInit(exponents);
      BitIsSet(Pow2(k), last);
      BitOfPower(k, last);
      Distribution(Count(init, k), Pow2(k));
    }
  }

  lemma Distribution(c: nat, p: nat)
    ensures (c + 1) * p == c * p + p
  {
  }

  lemma OneTime(c: nat, p: nat)
    requires p >= 1 && c * p == p
    ensures c == 1
  {
    if c >= 2 { Product(p, 2, c); }
  }

  lemma {:induction false} CountedIsListed(exponents: seq<nat>, k: nat)
    ensures Count(exponents, k) > 0 <==> k in exponents
  {
    if exponents != [] {
      CountedIsListed(exponents[..|exponents| - 1], k);
      assert exponents == exponents[..|exponents| - 1] + [exponents[|exponents| - 1]];
    }
  }

  lemma {:induction false} CountedOnce(exponents: seq<nat>)
    requires forall k | k in exponents :: Count(exponents, k) == 1
    ensures Distinct(exponents)
  {
    if exponents != [] {
      var init, last := exponents[..|exponents| - 1], exponents[|exponents| - 1];
      assert exponents == init + [last];
      CountedIsListed(init, last);
      assert Count(exponents, last) == 1;
      forall k | k in init ensures Count(init, k) == 1 {
        CountedIsListed(init, k);
        assert Count(exponents, k) == 1;
      }
      CountedOnce(init);
    }
  }

  /** Some magnitude is quantized to each value up to the maximum, unless the levels wrap. */
  lemma Reached(q: Word, most: Word)
    requires q <= most < MAX_UINT32
    ensures 0.0 <= q as real / (most + 1) as real <= 1.0
    ensures Quantize(q as real / (most + 1) as real, most) == q
  {
    var levels := (most + 1) as real;
    var m := q as real / levels;
    Division(q as real, levels);
    assert Levels(most) == most + 1;
    assert m * levels == q as real;
  }

  lemma Division(x: real, y: real)
    requires y > 0.0 && 0.0 <= x <= y
    ensures 0.0 <= x / y <= 1.0 && (x / y) * y == x
  {
  }

  // ---- Sufficiency ----

  /** The bits of q below n whose exponents are wanted. */
  function Masked(q: nat, wanted: set<nat>, n: nat): nat {
    if n == 0 then 0
    else Masked(q, wanted, n - 1) + if n - 1 in wanted && HasBit(q, Pow2(n - 1)) then Pow2(n - 1) else 0
  }

  lemma {:induction false} MaskedWithout(q: nat, wanted: set<nat>, e: nat, n: nat)
    requires e !in wanted
    ensures Masked(q, wanted + {e}, n) == Masked(q, wanted, n) + if e < n && HasBit(q, Pow2(e)) then Pow2(e) else 0
  {
    if n > 0 { MaskedWithout(q, wanted, e, n - 1); }
  }

  lemma {:induction false} MaskedAll(q: nat, wanted: set<nat>, n: nat)
    requires forall k: nat | k < n :: k in wanted
    ensures Masked(q, wanted, n) == q % Pow2(n)
  {
    if n > 0 {
      MaskedAll(q, wanted, n - 1);
      NextBit(q, Pow2(n - 1));
    }
  }

  lemma {:induction false} MaskedNone(q: nat, n: nat)
    ensures Masked(q, {}, n) == 0
  {
    if n > 0 { MaskedNone(q, n - 1); }
  }

  function Listed(exponents: seq<nat>): set<nat> {
    set i | 0 <= i < |exponents| :: exponents[i]
  }

  lemma {:induction false} TrueWeightIsMasked(q: nat, exponents: seq<nat>, n: nat)
    requires Distinct(exponents) && AllBelow(exponents, n)
    ensures TrueWeight(q, Powers(exponents)) == Masked(q, Listed(exponents), n)
  {
    if exponents == [] {
      MaskedNone(q, n);
      assert Listed([]) == {};
    } else {
      var init, last := exponents[..|exponents| - 1], exponents[|exponents| - 1];
      TrueWeightIsMasked(q, init, n);
      PowersInit(exponents);
      assert last !in Listed(init);
      assert Listed(exponents) == Listed(init) + {last};
      MaskedWithout(q, Listed(init), last, n);
    }
  }

  /** One more than the largest exponent. */
  function Top(exponents: seq<nat>): nat {
    if exponents == [] then 0
    else
      var before, last := Top(exponents[..|exponents| - 1]), exponents[|exponents| - 1];
      if last >= before then last + 1 else before
  }

  lemma {:induction false} TopIsLast(exponents: seq<nat>)
    ensures AllBelow(exponents, Top(exponents))
    ensures exponents != [] ==> Top(exponents) > 0 && Top(exponents) - 1 in exponents
  {
    if exponents != [] {
      var init, last := exponents[..|exponents| - 1], exponents[|exponents| - 1];
      TopIsLast(init);
      assert last in exponents && forall e | e in init :: e in exponents;
      forall i | 0 <= i < |exponents| ensures exponents[i] < Top(exponents) {
        if i < |init| { assert init[i] < Top(init); }
      }
    }
  }

  ghost predicate Gapless(exponents: seq<nat>) {
    forall e, k: nat | e in exponents && k < e :: k in exponents
  }

  // ---- The exact condition ----

  lemma {:induction false} Exponents(weights: seq<nat>) returns (exponents: seq<nat>)
    requires forall i | 0 <= i < |weights| :: PowerOfTwo(weights[i])
    ensures AllBelow(exponents, 32) && Powers(exponents) == weights
  {
    exponents := [];
    if weights != [] {
      var n := |weights| - 1;
      var init := Exponents(weights[..n]);
      assert PowerOfTwo(weights[n]);
      var e: nat :| e < 32 && weights[n] == Pow2(e);
      exponents := init + [e];
      assert weights == weights[..n] + [weights[n]];
    }
  }

  lemma StrictlyGrows(m: nat, n: nat)
    requires m < n
    ensures Pow2(m) < Pow2(n)
  {
    Pow2Grows(m, n - 1);
  }

  lemma PowerListed(exponents: seq<nat>, e: nat)
    ensures Pow2(e) in Powers(exponents) <==> e in exponents
  {
    if e in exponents {
      var i :| 0 <= i < |exponents| && exponents[i] == e;
      assert Powers(exponents)[i] == Pow2(e);
    }
    if Pow2(e) in Powers(exponents) {
      var i :| 0 <= i < |exponents| && Powers(exponents)[i] == Pow2(e);
      if exponents[i] < e { StrictlyGrows(exponents[i], e); }
      if e < exponents[i] { StrictlyGrows(e, exponents[i]); }
    }
  }

  lemma HalfListed(exponents: seq<nat>, e: nat)
    requires Consecutive(Powers(exponents)) && e in exponents && e > 0
    ensures e - 1 in exponents
  {
    PowerListed(exponents, e);
    HalfWeightListed(Powers(exponents), Pow2(e), Pow2(e - 1));
    PowerListed(exponents, e - 1);
  }

  lemma HalfWeightListed(weights: seq<nat>, weight: nat, half: nat)
    requires Consecutive(weights) && weight in weights && half >= 1 && weight == 2 * half
    ensures half in weights
  {
    var i :| 0 <= i < |weights| && weights[i] == weight;
    assert HasHalf(weights, i);
  }

  lemma HalfPower(e: nat)
    requires e > 0
    ensures Pow2(e) > 1 && Pow2(e) / 2 == Pow2(e - 1)
  {
  }

  lemma {:induction false} HalvesReach(exponents: seq<nat>, e: nat, k: nat)
    requires Consecutive(Powers(exponents)) && e in exponents && k <= e
    ensures k in exponents
    decreases e - k
  {
    if k < e {
      HalfListed(exponents, e);
      HalvesReach(exponents, e - 1, k);
    }
  }

  lemma ConsecutiveIsGapless(exponents: seq<nat>)
    ensures Consecutive(Powers(exponents)) <==> Distinct(exponents) && Gapless(exponents)
  {
    var weights := Powers(exponents);
    if Consecutive(weights) {
      forall i, j | 0 <= i < j < |exponents| ensures exponents[i] != exponents[j] { assert weights[i] != weights[j]; }
      forall e, k: nat | e in exponents && k < e ensures k in exponents { HalvesReach(exponents, e, k); }
    }
    if Distinct(exponents) && Gapless(exponents) {
      forall i, j | 0 <= i < j < |weights| ensures weights[i] != weights[j] {
        if exponents[i] < exponents[j] {
          StrictlyGrows(exponents[i], exponents[j]);
        } else {
          StrictlyGrows(exponents[j], exponents[i]);
        }
      }
      forall i | 0 <= i < |weights| ensures HasHalf(weights, i) {
        var e := exponents[i];
        if e > 0 {
          assert e in exponents;
          HalfPower(e);
          PowerListed(exponents, e - 1);
        }
      }
    }
  }

  lemma GaplessSumsUp(exponents: seq<nat>, q: nat)
    requires Distinct(exponents) && Gapless(exponents) && q <= OrAll(Powers(exponents))
    ensures TrueWeight(q, Powers(exponents)) == q
  {
    var n := Top(exponents);
    TopIsLast(exponents);
    OrAllBits(exponents, n);
    TrueWeightIsMasked(q, exponents, n);
    forall k: nat | k < n ensures k in Listed(exponents) { assert k in exponents; }
    MaskedAll(q, Listed(exponents), n);
    SmallRemainder(q, Pow2(n));
  }

  lemma SummingUpIsGapless(exponents: seq<nat>)
    requires forall q: nat | q <= OrAll(Powers(exponents)) :: TrueWeight(q, Powers(exponents)) == q
    ensures Distinct(exponents) && Gapless(exponents)
  {
    forall e, k: nat | e in exponents && k <= e ensures Count(exponents, k) == 1 {
      OrAllCovers(exponents, e);
      Pow2Grows(k, e);
      PowerIsCounted(exponents, k);
      OneTime(Count(exponents, k), Pow2(k));
    }
    CountedOnce(exponents);
    forall e, k: nat | e in exponents && k < e ensures k in exponents { CountedIsListed(exponents, k); }
  }

  /** For every magnitude the true bits add up to the quantized value. */
  ghost predicate SumsExactly(weights: seq<nat>)
    requires OrAll(weights) <= MAX_UINT32
  {
    forall magnitude: real | 0.0 <= magnitude <= 1.0 ::
      TrueWeight(Quantize(magnitude, OrAll(weights)), weights) == Quantize(magnitude, OrAll(weights))
  }

  /**
   For every list of weights that the catalog accepts: the bits add up to the quantized
   value for all magnitudes if and only if the weights are consecutive, or they are all
   32 of them and the level count wraps, so that every quantized value is zero.
   */
  lemma BitsAddUpExactly(weights: seq<nat>)
    requires forall i | 0 <= i < |weights| :: PowerOfTwo(weights[i])
    ensures OrAll(weights) <= MAX_UINT32
    ensures SumsExactly(weights) <==> Consecutive(weights) || OrAll(weights) == MAX_UINT32
  {
    var exponents := Exponents(weights);
    OrAllBits(exponents, 32);
    Pow2Of32();
    ConsecutiveIsGapless(exponents);
    var most: Word := OrAll(weights);
    if most == MAX_UINT32 {
      forall magnitude: real | 0.0 <= magnitude <= 1.0
        ensures TrueWeight(Quantize(magnitude, most), weights) == Quantize(magnitude, most)
      {
        QuantizeWraps(magnitude);
        NothingIsTrue(exponents);
      }
    } else if Consecutive(weights) {
      forall magnitude: real | 0.0 <= magnitude <= 1.0
        ensures TrueWeight(Quantize(magnitude, most), weights) == Quantize(magnitude, most)
      {
        GaplessSumsUp(exponents, Quantize(magnitude, most));
      }
    } else if SumsExactly(weights) {
      forall q: nat | q <= most ensures TrueWeight(q, weights) == q { Reached(q, most); }
      SummingUpIsGapless(exponents);
    }
  }

  lemma {:induction false} NothingIsTrue(exponents: seq<nat>)
    ensures TrueWeight(0, Powers(exponents)) == 0
  {
    if exponents != [] {
      NothingIsTrue(exponents[..|exponents| - 1]);
      PowersInit(exponents);
    }
  }
}
