/**
 How deep bundles may be nested (pkg/osc/packet.go). A packet is parsed as such at
 depth 0 and as an element of a bundle one level deeper, so what the parser accepts
 may be refused as an element; the depth of its nesting decides.
 */
module OscNesting {
  import opened OscWire
  import opened OscCodec
  import opened OscPackets

  /** How many bundles lie around the innermost element; a message and an empty bundle have none. */
  function Nesting(packet: Bytes): nat
    decreases |packet|, 1
  {
    if BundleTag() <= packet && |packet| > HEADER_SIZE then 1 + NestingOf(packet[HEADER_SIZE..]) else 0
  }

  /** The deepest nesting among elements. */
  function NestingOf(rest: Bytes): nat
    decreases |rest|, 0
  {
    if !StartsWithElement(rest) then 0 else Deeper(Nesting(FirstElement(rest)), NestingOf(LaterElements(rest)))
  }

  function Deeper(a: nat, b: nat): nat {
    if a < b then b else a
  }

  /** A packet that is accepted somewhere is accepted, with the same meaning, exactly where its nesting still fits. */
  lemma {:induction false} NestingDecides(packet: Bytes, there: nat, here: nat)
    requires Decode(packet, there).Ok?
    ensures Decode(packet, here).Ok? <==> here + Nesting(packet) <= MAX_BUNDLE_DEPTH
    ensures Decode(packet, here).Ok? ==> Decode(packet, here) == Decode(packet, there)
    decreases |packet|, 1
  {
    if BundleTag() <= packet { NestingOfElementsDecides(packet[HEADER_SIZE..], there, here); }
  }

  lemma {:induction false} NestingOfElementsDecides(rest: Bytes, there: nat, here: nat)
    requires DecodeElements(rest, there).Ok?
    ensures DecodeElements(rest, here).Ok? <==> rest == [] || here + 1 + NestingOf(rest) <= MAX_BUNDLE_DEPTH
    ensures DecodeElements(rest, here).Ok? ==> DecodeElements(rest, here) == DecodeElements(rest, there)
    decreases |rest|, 0
  {
    if rest != [] {
      NestingDecides(FirstElement(rest), there + 1, here + 1);
      NestingOfElementsDecides(LaterElements(rest), there, here);
    }
  }

  /** Nested in depth bundles a packet means what it means alone, exactly when its nesting still fits; else it is refused. */
  lemma AcceptedExactly(packet: Bytes, depth: nat)
    ensures Decode(packet, depth).Ok? <==> Decode(packet, 0).Ok? && depth + Nesting(packet) <= 32
    ensures Decode(packet, depth).Ok? ==> Decode(packet, depth) == Decode(packet, 0)
  {
    if Decode(packet, depth).Ok? {
      NestingDecides(packet, depth, depth);
      NestingDecides(packet, depth, 0);
    }
    if Decode(packet, 0).Ok? { NestingDecides(packet, 0, depth); }
  }

  /** So an accepted packet is refused as an element exactly when it is too large or already nested as deep as can be. */
  lemma RefusedAsElement(packet: Bytes)
    requires Decode(packet, 0).Ok?
    ensures !Element(packet) <==> |packet| > MAX_INT32 || Nesting(packet) == 32
  {
    AcceptedExactly(packet, 0);
    AcceptedExactly(packet, 1);
  }

  // ---- How deep it can get ----

  /** The bundle of one element. */
  function Bundled(packet: Bytes): (r: Bytes)
    requires |packet| <= MAX_INT32
    ensures |r| == |packet| + 20
  {
    BundleHeader(1) + Sized(packet)
  }

  lemma AfterAll(decoded: Result<seq<Message>>)
    ensures decoded.Ok? ==> After(decoded.value, Ok([])) == decoded
  {
    if decoded.Ok? { assert decoded.value + [] == decoded.value; }
  }

  lemma BundleOfElements(rest: Bytes, depth: nat)
    requires depth <= MAX_BUNDLE_DEPTH && rest != []
    ensures Decode(BundleHeader(1) + rest, depth) == DecodeElements(rest, depth)
    ensures Nesting(BundleHeader(1) + rest) == 1 + NestingOf(rest)
  {
    var bundle := BundleHeader(1) + rest;
    assert bundle[HEADER_SIZE..] == rest;
    assert BundleTag() <= BundleHeader(1) <= bundle;
  }

  lemma OnlyElement(rest: Bytes, packet: Bytes, depth: nat)
    requires rest != [] && StartsWithElement(rest) && FirstElement(rest) == packet && LaterElements(rest) == []
    ensures DecodeElements(rest, depth) == Decode(packet, depth + 1) && NestingOf(rest) == Nesting(packet)
  {
    AfterAll(Decode(packet, depth + 1));
  }

  /** A bundle of one element means what the element means one level deeper. */
  lemma BundledMeans(packet: Bytes, depth: nat)
    requires 0 < |packet| <= MAX_INT32 && depth <= MAX_BUNDLE_DEPTH
    ensures Decode(Bundled(packet), depth) == Decode(packet, depth + 1)
    ensures Nesting(Bundled(packet)) == 1 + Nesting(packet)
  {
    var rest := Sized(packet);
    assert rest + [] == rest;
    SizedFirst(packet, []);
    BundleOfElements(rest, depth);
    OnlyElement(rest, packet, depth);
  }

  /** Every nesting up to 32 occurs, around any message that is not excessively long. */
  lemma {:induction false} Nested(m: Message, n: nat) returns (packet: Bytes)
    requires Encodable(m) && |Wire(m)| + 20 * n <= MAX_INT32 && n <= 32
    ensures |packet| == |Wire(m)| + 20 * n
    ensures Decode(packet, 0) == Ok([m]) && Nesting(packet) == n
  {
    if n == 0 {
      packet := Wire(m);
      WireStartsWithSlash(m);
      MessageRoundTrip(m, 0);
    } else {
      var inner := Nested(m, n - 1);
      packet := Bundled(inner);
      BundledMeans(inner, 0);
      AcceptedExactly(inner, 1);
    }
  }

  /** The witness: with 32 bundles around it a message is accepted, but no bundle takes that as an element. */
  lemma DeepestIsNoElement(m: Message) returns (packet: Bytes)
    requires Encodable(m) && |Wire(m)| + 20 * MAX_BUNDLE_DEPTH <= MAX_INT32
    ensures Decode(packet, 0) == Ok([m]) && |packet| <= MAX_INT32 && !Element(packet)
  {
    packet := Nested(m, MAX_BUNDLE_DEPTH);
    RefusedAsElement(packet);
  }
}
