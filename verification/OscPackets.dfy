/**
 OSC packets (pkg/osc/packet.go): a packet is one message or a bundle of sized
 packets ("OSC Packets", "OSC Bundles" in the OSC 1.0 Specification). Decode is
 the meaning of a packet; UnmarshalPacket computes it.
 */
module OscPackets {
  import opened OscCodec
  import opened OscFormat
  import opened OscWire

  type Long = w: int | 0 <= w < 0x1_0000_0000_0000_0000

  const HEADER_SIZE := 16

  function BundleTag(): Bytes {
    [35, 98, 117, 110, 100, 108, 101, 0]
  }

  function PutLong(w: Long): (r: Bytes)
    ensures |r| == 8
  {
    PutWord(w / 0x1_0000_0000) + PutWord(w % 0x1_0000_0000)
  }

  ghost predicate HoldsMessage(packet: Bytes) {
    exists m :: Encodable(m) && Wire(m) == packet
  }

  ghost function DecodeMessage(packet: Bytes): (r: Result<seq<Message>>)
    ensures r.Ok? ==> |r.value| == 1 && Encodable(r.value[0]) && Wire(r.value[0]) == packet
    ensures r.Ok? <==> HoldsMessage(packet)
  {
    if HoldsMessage(packet) then
      var m :| Encodable(m) && Wire(m) == packet;
      Ok([m])
    else if HasUnknownTag(packet) then Err(Unsupported)
    else Err(Malformed)
  }

  /** The messages before these are decoded already. */
  function After(messages: seq<Message>, rest: Result<seq<Message>>): Result<seq<Message>> {
    if rest.Ok? then Ok(messages + rest.value) else rest
  }

  /** The meaning of a packet nested in depth bundles. */
  ghost function Decode(packet: Bytes, depth: nat): Result<seq<Message>>
    decreases |packet|, 1
  {
    if depth > MAX_BUNDLE_DEPTH || |packet| < 4 then Err(Malformed)
    else if BundleTag() <= packet then
      if |packet| < HEADER_SIZE then Err(Malformed) else DecodeElements(packet[HEADER_SIZE..], depth)
    else DecodeMessage(packet)
  }

  ghost function DecodeElements(rest: Bytes, depth: nat): Result<seq<Message>>
    decreases |rest|, 0
  {
    if rest == [] then Ok([])
    else if !StartsWithElement(rest) then Err(Malformed)
    else
      var first := Decode(FirstElement(rest), depth + 1);
      if first.Err? then first else After(first.value, DecodeElements(LaterElements(rest), depth))
  }

  /** A size, as an int32, and that many bytes. */
  predicate StartsWithElement(rest: Bytes) {
    |rest| >= 4 && 0 < ToInt(GetWord(rest)) <= |rest| - 4
  }

  function FirstElement(rest: Bytes): (r: Bytes)
    requires StartsWithElement(rest)
    ensures 0 < |r| < |rest|
  {
    rest[4..4 + ToInt(GetWord(rest))]
  }

  function LaterElements(rest: Bytes): (r: Bytes)
    requires StartsWithElement(rest)
    ensures |r| == |rest| - 4 - |FirstElement(rest)|
  {
    rest[4 + ToInt(GetWord(rest))..]
  }

  method UnmarshalPacket(packet: Bytes) returns (r: Result<seq<Message>>)
    ensures r == Decode(packet, 0)
  {
    r := UnmarshalNested(packet, 0);
  }

  method UnmarshalNested(packet: Bytes, depth: nat) returns (r: Result<seq<Message>>)
    ensures r == Decode(packet, depth)
    decreases |packet|, 1
  {
    if depth > MAX_BUNDLE_DEPTH || |packet| < 4 { return Err(Malformed); }
    if BundleTag() <= packet {
      r := UnmarshalBundle(packet, depth);
      return;
    }
    var message := UnmarshalMessage(packet);
    if message.Err? { return Err(message.error); }
    OneMessage(packet, message.value.0);
    if message.value.1 != |packet| { return Err(Malformed); }
    return Ok([message.value.0]);
  }

  lemma OneMessage(packet: Bytes, m: Message)
    requires Encodable(m) && Wire(m) <= packet
    ensures DecodeMessage(packet) == if |Wire(m)| == |packet| then Ok([m]) else Err(Malformed)
  {
    ReadablePacket(packet, m);
    var r := DecodeMessage(packet);
    if r.Ok? { WireDetermined(m, r.value[0], packet); }
    if |Wire(m)| == |packet| { assert Wire(m) == packet; }
  }

  method UnmarshalBundle(packet: Bytes, depth: nat) returns (r: Result<seq<Message>>)
    requires depth <= MAX_BUNDLE_DEPTH && |packet| >= 4 && BundleTag() <= packet
    ensures r == Decode(packet, depth)
    decreases |packet|, 0
  {
    if |packet| < HEADER_SIZE { return Err(Malformed); }
    var offset := HEADER_SIZE;
    var messages: seq<Message> := [];
    AfterNothing(DecodeElements(packet[offset..], depth));
    ghost var rest := packet[offset..];
    while offset < |packet|
      invariant HEADER_SIZE <= offset <= |packet| && rest == packet[offset..]
      invariant DecodeElements(packet[HEADER_SIZE..], depth) == After(messages, DecodeElements(rest, depth))
    {
      var found, element := ReadElement(packet, offset);
      if !found { return Err(Malformed); }
      var decoded := UnmarshalNested(element, depth + 1);
      if decoded.Err? { return Err(decoded.error); }
      FirstThenLater(messages, rest, depth);
      messages := messages + decoded.value;
      offset := offset + 4 + |element|;
      rest := LaterElements(rest);
    }
    assert messages + [] == messages;
    return Ok(messages);
  }

  /** The sized element at the offset, if its size fits what is left of the packet. */
  method ReadElement(packet: Bytes, offset: nat) returns (found: bool, element: Bytes)
    requires offset < |packet|
    ensures found <==> StartsWithElement(packet[offset..])
    ensures found ==> element == FirstElement(packet[offset..])
    ensures found ==> offset + 4 + |element| <= |packet|
    ensures found ==> packet[offset + 4 + |element|..] == LaterElements(packet[offset..])
  {
    if offset + 4 > |packet| { return false, []; }
    ElementAt(packet, offset);
    var size := ToInt(GetWord(packet[offset..offset + 4]));
    if size <= 0 || size > |packet| - (offset + 4) { return false, []; }
    return true, packet[offset + 4..offset + 4 + size];
  }

  lemma AfterNothing(rest: Result<seq<Message>>)
    ensures After([], rest) == rest
  {
    if rest.Ok? { assert [] + rest.value == rest.value; }
  }

  lemma ElementAt(packet: Bytes, offset: nat)
    requires offset + 4 <= |packet|
    ensures ElementStands(packet, offset, ToInt(GetWord(packet[offset..offset + 4])))
  {
    var rest := packet[offset..];
    assert GetWord(packet[offset..offset + 4]) == GetWord(rest);
  }

  /** What a size read at the offset says about the elements that start there. */
  ghost predicate ElementStands(packet: Bytes, offset: nat, size: int)
    requires offset + 4 <= |packet|
  {
    var rest := packet[offset..];
    && (StartsWithElement(rest) <==> 0 < size <= |packet| - (offset + 4))
    && (StartsWithElement(rest) ==>
      && FirstElement(rest) == packet[offset + 4..offset + 4 + size]
      && LaterElements(rest) == packet[offset + 4 + size..])
  }

  lemma FirstThenLater(messages: seq<Message>, rest: Bytes, depth: nat)
    requires rest != [] && StartsWithElement(rest) && Decode(FirstElement(rest), depth + 1).Ok?
    ensures After(messages, DecodeElements(rest, depth))
         == After(messages + Decode(FirstElement(rest), depth + 1).value, DecodeElements(LaterElements(rest), depth))
  {
    AfterBoth(messages, Decode(FirstElement(rest), depth + 1).value, DecodeElements(LaterElements(rest), depth));
  }

  lemma AfterBoth(a: seq<Message>, b: seq<Message>, rest: Result<seq<Message>>)
    ensures After(a + b, rest) == After(a, After(b, rest))
  {
    if rest.Ok? { assert a + b + rest.value == a + (b + rest.value); }
  }

  // ---- What the codec promises ----

  /** Every encodable message decodes back to itself, alone, from its own packet. */
  lemma MessageRoundTrip(m: Message, depth: nat)
    requires Encodable(m) && depth <= MAX_BUNDLE_DEPTH
    ensures Decode(Wire(m), depth) == Ok([m])
  {
    WireIsAligned(m);
    OneMessage(Wire(m), m);
    WireStartsWithSlash(m);
  }

  lemma WireStartsWithSlash(m: Message)
    requires Encodable(m)
    ensures |Wire(m)| > 0 && Wire(m)[0] == SLASH && !(BundleTag() <= Wire(m))
  {
    assert Wire(m)[0] == Pad(m.address)[0];
    assert BundleTag()[0] != SLASH;
  }

  /** An accepted packet that is not a bundle is the wire form of the one message it holds. */
  lemma AcceptedMessageIsItsWire(packet: Bytes, depth: nat)
    requires Decode(packet, depth).Ok? && !(BundleTag() <= packet)
    ensures |Decode(packet, depth).value| == 1
    ensures Encodable(Decode(packet, depth).value[0]) && Wire(Decode(packet, depth).value[0]) == packet
  {
  }

  /** "OSC Packets": the size of every accepted packet is a multiple of four bytes. */
  lemma {:induction false} AcceptedIsAligned(packet: Bytes, depth: nat)
    requires Decode(packet, depth).Ok?
    ensures |packet| % 4 == 0
    decreases |packet|, 1
  {
    if BundleTag() <= packet {
      AcceptedElementsAreAligned(packet[HEADER_SIZE..], depth);
      Multiples(HEADER_SIZE, |packet[HEADER_SIZE..]|);
    } else {
      WireIsAligned(Decode(packet, depth).value[0]);
    }
  }

  lemma {:induction false} AcceptedElementsAreAligned(rest: Bytes, depth: nat)
    requires DecodeElements(rest, depth).Ok?
    ensures |rest| % 4 == 0
    decreases |rest|, 0
  {
    if rest != [] {
      AcceptedIsAligned(FirstElement(rest), depth + 1);
      AcceptedElementsAreAligned(LaterElements(rest), depth);
      SizesAreAligned(|FirstElement(rest)|, |LaterElements(rest)|);
    }
  }

  lemma SizesAreAligned(first: nat, later: nat)
    requires first % 4 == 0 && later % 4 == 0
    ensures (4 + first + later) % 4 == 0
  {
  }

  /** Everything a packet decodes to can be encoded again. */
  lemma {:induction false} DecodedIsEncodable(packet: Bytes, depth: nat)
    requires Decode(packet, depth).Ok?
    ensures forall i | 0 <= i < |Decode(packet, depth).value| :: Encodable(Decode(packet, depth).value[i])
    decreases |packet|, 1
  {
    if BundleTag() <= packet { DecodedElementsAreEncodable(packet[HEADER_SIZE..], depth); }
  }

  lemma {:induction false} DecodedElementsAreEncodable(rest: Bytes, depth: nat)
    requires DecodeElements(rest, depth).Ok?
    ensures forall i | 0 <= i < |DecodeElements(rest, depth).value| :: Encodable(DecodeElements(rest, depth).value[i])
    decreases |rest|, 0
  {
    if rest != [] {
      DecodedIsEncodable(FirstElement(rest), depth + 1);
      DecodedElementsAreEncodable(LaterElements(rest), depth);
    }
  }

  /** What is accepted inside bundles is accepted, with the same meaning, outside them. */
  lemma {:induction false} ShallowerIsAccepted(packet: Bytes, depth: nat)
    requires Decode(packet, depth + 1).Ok?
    ensures Decode(packet, depth) == Decode(packet, depth + 1)
    decreases |packet|, 1
  {
    if BundleTag() <= packet { ShallowerElements(packet[HEADER_SIZE..], depth); }
  }

  lemma {:induction false} ShallowerElements(rest: Bytes, depth: nat)
    requires DecodeElements(rest, depth + 1).Ok?
    ensures DecodeElements(rest, depth) == DecodeElements(rest, depth + 1)
    decreases |rest|, 0
  {
    if rest != [] {
      ShallowerIsAccepted(FirstElement(rest), depth + 1);
      ShallowerElements(LaterElements(rest), depth);
    }
  }

  // ---- Bundles ----

  /** What marshalling accepts as an element of a bundle. */
  ghost predicate Element(packet: Bytes) {
    0 < |packet| <= MAX_INT32 && Decode(packet, 1).Ok?
  }

  /** Why marshalling refuses an element. */
  ghost function Objection(packet: Bytes): Error {
    if 0 < |packet| <= MAX_INT32 && Decode(packet, 1).Err? then Decode(packet, 1).error else Malformed
  }

  ghost predicate Elements(packets: seq<Bytes>) {
    forall i | 0 <= i < |packets| :: Element(packets[i])
  }

  function Sized(packet: Bytes): Bytes
    requires |packet| <= MAX_INT32
  {
    PutWord(|packet|) + packet
  }

  ghost function SizedElements(packets: seq<Bytes>): Bytes
    requires Elements(packets)
  {
    if packets == [] then [] else Sized(packets[0]) + SizedElements(packets[1..])
  }

  /** The messages of the elements, each decoded on its own, in order. */
  ghost function Contents(packets: seq<Bytes>): seq<Message>
    requires Elements(packets)
  {
    if packets == [] then []
    else
      ShallowerIsAccepted(packets[0], 0);
      Decode(packets[0], 0).value + Contents(packets[1..])
  }

  function BundleHeader(timetag: Long): (r: Bytes)
    ensures |r| == HEADER_SIZE && BundleTag() <= r
  {
    BundleTag() + PutLong(timetag)
  }

  ghost function BundleWire(timetag: Long, packets: seq<Bytes>): Bytes
    requires Elements(packets)
  {
    BundleHeader(timetag) + SizedElements(packets)
  }

  lemma SizedFirst(packet: Bytes, tail: Bytes)
    requires 0 < |packet| <= MAX_INT32
    ensures StartsWithElement(Sized(packet) + tail)
    ensures FirstElement(Sized(packet) + tail) == packet && LaterElements(Sized(packet) + tail) == tail
  {
    var rest := Sized(packet) + tail;
    WordRoundTrip(|packet|);
    assert rest[..4] == PutWord(|packet|);
    assert forall i | 0 <= i < 4 :: rest[i] == rest[..4][i];
  }

  lemma {:induction false} ElementsDecode(packets: seq<Bytes>)
    requires Elements(packets)
    ensures DecodeElements(SizedElements(packets), 0) == Ok(Contents(packets))
  {
    if packets != [] {
      SizedFirst(packets[0], SizedElements(packets[1..]));
      ShallowerIsAccepted(packets[0], 0);
      ElementsDecode(packets[1..]);
    }
  }

  /** Decoding an encoded bundle gives the decodings of its elements, concatenated. */
  lemma BundleRoundTrip(timetag: Long, packets: seq<Bytes>)
    requires Elements(packets)
    ensures Decode(BundleWire(timetag, packets), 0) == Ok(Contents(packets))
  {
    var packet := BundleWire(timetag, packets);
    assert packet[HEADER_SIZE..] == SizedElements(packets);
    assert BundleTag() <= BundleHeader(timetag) <= packet;
    ElementsDecode(packets);
  }

  lemma {:induction false} SizedElementsAppend(packets: seq<Bytes>, packet: Bytes)
    requires Elements(packets) && Element(packet)
    ensures Elements(packets + [packet])
    ensures SizedElements(packets + [packet]) == SizedElements(packets) + Sized(packet)
  {
    var all := packets + [packet];
    if packets == [] {
      assert all[1..] == [];
      assert Sized(packet) + [] == Sized(packet);
    } else {
      SizedElementsAppend(packets[1..], packet);
      assert all[1..] == packets[1..] + [packet];
      Associative(Sized(packets[0]), SizedElements(packets[1..]), Sized(packet));
    }
  }

  // ---- The layout of bundles ----

  lemma SizedIsLaidOut(b: Bytes, packet: Bytes, rest: Bytes)
    requires |packet| <= MAX_INT32
    ensures var n := 4 + |packet|;
            b == Sized(packet) + rest <==> n <= |b| && b[..4] == PutWord(|packet|) && b[4..n] == packet && b[n..] == rest
  {
    Associative(PutWord(|packet|), packet, rest);
    CutInThree(b, PutWord(|packet|), packet, rest);
  }

  lemma {:induction false} ElementsAreLaidOut(b: Bytes, packets: seq<Bytes>)
    requires Elements(packets)
    ensures AreElements(b, packets) <==> b == SizedElements(packets)
    decreases |packets|
  {
    if packets != [] {
      var n := |packets[0]|;
      SizedIsLaidOut(b, packets[0], SizedElements(packets[1..]));
      if 4 + n <= |b| {
        WordIsSpelled(b[..4], n);
        ElementsAreLaidOut(b[4 + n..], packets[1..]);
      }
    }
  }

  lemma TagIsSpelled(b: Bytes)
    ensures IsBundleTag(b) <==> b == BundleTag()
  {
    assert "#bundle"[0] as int == 35 && "#bundle"[1] as int == 98 && "#bundle"[2] as int == 117 && "#bundle"[3] as int == 110;
    assert "#bundle"[4] as int == 100 && "#bundle"[5] as int == 108 && "#bundle"[6] as int == 101;
  }

  /** The time tag's two halves. */
  lemma LongIsSpelled(x: Bytes, y: Bytes, timetag: Long)
    requires |x| == |y| == 4
    ensures x + y == PutLong(timetag) <==>
            exists high, low :: IsWord(x, high) && IsWord(y, low) && timetag == high * 0x1_0000_0000 + low
  {
    var high, low := timetag / 0x1_0000_0000, timetag % 0x1_0000_0000;
    CutInTwo(x + y, PutWord(high), PutWord(low));
    assert (x + y)[..4] == x && (x + y)[4..] == y;
    WordIsSpelled(x, high);
    WordIsSpelled(y, low);
    forall h, l | IsWord(x, h) && IsWord(y, l) && timetag == h * 0x1_0000_0000 + l ensures h == high && l == low {
      assert 0 <= l < 0x1_0000_0000;
    }
  }

  /** A packet is laid out as a bundle exactly if it is the encoded bundle. */
  lemma BundleIsLaidOut(p: Bytes, timetag: Long, packets: seq<Bytes>)
    requires Elements(packets)
    ensures IsBundle(p, timetag, packets) <==> p == BundleWire(timetag, packets)
  {
    Associative(BundleTag(), PutLong(timetag), SizedElements(packets));
    CutInThree(p, BundleTag(), PutLong(timetag), SizedElements(packets));
    if |p| >= 16 {
      TagIsSpelled(p[..8]);
      LongIsSpelled(p[8..12], p[12..16], timetag);
      assert p[8..16] == p[8..12] + p[12..16];
      ElementsAreLaidOut(p[16..], packets);
    }
  }

  method CheckElement(packet: Bytes) returns (r: Result<()>)
    ensures r.Ok? <==> Element(packet)
    ensures r.Err? ==> r.error == Objection(packet)
  {
    if |packet| == 0 || |packet| > MAX_INT32 { return Err(Malformed); }
    var decoded := UnmarshalNested(packet, 1);
    if decoded.Err? { return Err(decoded.error); }
    return Ok(());
  }

  /** One more element, behind those encoded so far. */
  lemma MarshalNext(header: Bytes, before: seq<Bytes>, packet: Bytes)
    requires Elements(before) && Element(packet)
    ensures Elements(before + [packet])
    ensures header + SizedElements(before + [packet]) == header + SizedElements(before) + Sized(packet)
  {
    SizedElementsAppend(before, packet);
    Associative(header, SizedElements(before), Sized(packet));
  }

  lemma BadElement(packets: seq<Bytes>, k: nat)
    requires k < |packets| && !Element(packets[k])
    ensures !Elements(packets)
  {
  }

  /** Encodes a bundle when, and only when, every element is an acceptable packet. */
  method MarshalBundle(timetag: Long, packets: seq<Bytes>) returns (r: Result<Bytes>)
    ensures r.Ok? <==> Elements(packets)
    ensures r.Ok? ==> r.value == BundleWire(if timetag == 0 then 1 else timetag, packets)
    ensures r.Ok? ==> IsBundle(r.value, if timetag == 0 then 1 else timetag, packets)
    ensures r.Err? ==> exists k | 0 <= k < |packets| :: Elements(packets[..k]) && !Element(packets[k]) && r.error == Objection(packets[k])
  {
    var tag := if timetag == 0 then 1 else timetag;
    var out := BundleHeader(tag);
    for k := 0 to |packets|
      invariant Elements(packets[..k])
      invariant out == BundleHeader(tag) + SizedElements(packets[..k])
    {
      var objection := CheckElement(packets[k]);
      if objection.Err? {
        BadElement(packets, k);
        return Err(objection.error);
      }
      assert packets[..k + 1] == packets[..k] + [packets[k]];
      MarshalNext(BundleHeader(tag), packets[..k], packets[k]);
      out := out + Sized(packets[k]);
    }
    assert packets[..|packets|] == packets;
    BundleIsLaidOut(out, tag, packets);
    return Ok(out);
  }
}
