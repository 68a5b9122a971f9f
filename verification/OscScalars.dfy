/**
 The fast scalar encoder and the bundle builder of internal/osc/builder.go,
 proved against the wire format of the reference codec.
 */
module OscScalars {
  import opened OscWire
  import opened OscCodec
  import opened OscPackets

  datatype Kind = FloatKind | IntKind | FalseKind | TrueKind | UnknownKind

  datatype Scalar = Scalar(kind: Kind, bits: Word)

  /** The argument a scalar stands for. */
  function ValueOf(scalar: Scalar): Value {
    match scalar.kind
    case FloatKind => FloatValue(scalar.bits)
    case IntKind => IntValue(ToInt(scalar.bits))
    case FalseKind => BoolValue(false)
    case TrueKind => BoolValue(true)
    case UnknownKind => OtherValue(0)
  }

  function MessageOf(address: Bytes, scalar: Scalar): Message {
    Message(address, [ValueOf(scalar)])
  }

  function TypeTag(kind: Kind): Byte {
    match kind
    case FloatKind => 'f' as int
    case IntKind => 'i' as int
    case FalseKind => 'F' as int
    case TrueKind => 'T' as int
    case UnknownKind => 0
  }

  predicate HasPayload(kind: Kind) {
    kind.FloatKind? || kind.IntKind?
  }

  predicate Sendable(address: Bytes, kind: Kind) {
    ValidAddress(address) && !kind.UnknownKind?
  }

  lemma SendableIsEncodable(address: Bytes, scalar: Scalar)
    ensures Sendable(address, scalar.kind) <==> Encodable(MessageOf(address, scalar))
  {
    assert MessageOf(address, scalar).args[0] == ValueOf(scalar);
  }

  /** The wire form of a scalar message, piece by piece. */
  lemma ScalarWire(address: Bytes, scalar: Scalar)
    requires Sendable(address, scalar.kind)
    ensures Wire(MessageOf(address, scalar))
         == Pad(address) + ([COMMA, TypeTag(scalar.kind), 0, 0] + (if HasPayload(scalar.kind) then PutWord(scalar.bits) else []))
  {
    var args := [ValueOf(scalar)];
    assert [] + args == args;
    PayloadAppend([], ValueOf(scalar));
    assert Tags(args) == [COMMA, TypeTag(scalar.kind)];
    assert Zeros(2) == [0, 0];
    assert Pad(Tags(args)) == [COMMA, TypeTag(scalar.kind), 0, 0];
    assert FromInt(ToInt(scalar.bits)) == scalar.bits;
    assert Payload(args) == PayloadOf(ValueOf(scalar));
  }

  function Refusal(address: Bytes): Error {
    if ValidAddress(address) then Unsupported else InvalidAddress
  }

  /** On an aligned buffer the fast encoder appends exactly the reference encoding. */
  method AppendScalarMessage(buffer: Bytes, address: Bytes, scalar: Scalar) returns (r: Result<Bytes>)
    ensures r.Ok? <==> Encodable(MessageOf(address, scalar))
    ensures r.Ok? && |buffer| % 4 == 0 ==> r.value == buffer + Wire(MessageOf(address, scalar))
    ensures r.Err? ==> r.error == Refusal(address)
  {
    SendableIsEncodable(address, scalar);
    if !ValidAddress(address) { return Err(InvalidAddress); }
    if TypeTag(scalar.kind) == 0 { return Err(Unsupported); }
    var out := WritePaddedString(buffer, address);
    var tags := [COMMA, TypeTag(scalar.kind), 0, 0];
    var data := if HasPayload(scalar.kind) then PutWord(scalar.bits) else [];
    Associative(buffer, Pad(address), tags + data);
    Associative(out, tags, data);
    out := out + tags;
    if HasPayload(scalar.kind) { out := out + data; }
    ScalarWire(address, scalar);
    return Ok(out);
  }

  function PaddedSize(size: nat): (r: nat)
    ensures forall s: Bytes | |s| == size :: r == |Pad(s)|
  {
    size + 4 - (size + 4) % 4
  }

  /** The predicted size is the size of the reference encoding. */
  function ScalarMessageSize(address: Bytes, scalar: Scalar): (r: Result<nat>)
    ensures r.Ok? <==> Encodable(MessageOf(address, scalar))
    ensures r.Ok? ==> r.value == |Wire(MessageOf(address, scalar))|
    ensures r.Err? ==> r.error == Refusal(address)
  {
    SendableIsEncodable(address, scalar);
    if !ValidAddress(address) then Err(InvalidAddress)
    else if TypeTag(scalar.kind) == 0 then Err(Unsupported)
    else
      ScalarWire(address, scalar);
      Ok(PaddedSize(|address|) + 4 + if HasPayload(scalar.kind) then 4 else 0)
  }

  // ---- Bundles of scalar messages ----

  ghost predicate Packable(messages: seq<Message>) {
    forall i | 0 <= i < |messages| :: Encodable(messages[i]) && |Wire(messages[i])| <= MAX_INT32
  }

  ghost function Packets(messages: seq<Message>): seq<Bytes> {
    seq(|messages|, i requires 0 <= i < |messages| => Wire(messages[i]))
  }

  lemma PacketsAreElements(messages: seq<Message>)
    requires Packable(messages)
    ensures Elements(Packets(messages))
  {
    forall i | 0 <= i < |messages| ensures Element(Packets(messages)[i]) {
      MessageRoundTrip(messages[i], 1);
      WireIsAligned(messages[i]);
    }
  }

  /** The bundle of the messages, for immediate delivery. */
  ghost function BundleOf(messages: seq<Message>): Bytes
    requires Packable(messages)
  {
    PacketsAreElements(messages);
    BundleWire(1, Packets(messages))
  }

  /** A bundle of messages decodes to those messages, in order. */
  lemma BundleOfDecodes(messages: seq<Message>)
    requires Packable(messages)
    ensures Decode(BundleOf(messages), 0) == Ok(messages)
  {
    PacketsAreElements(messages);
    BundleRoundTrip(1, Packets(messages));
    ContentsOfPackets(messages, Packets(messages));
  }

  lemma {:induction false} ContentsOfPackets(messages: seq<Message>, packets: seq<Bytes>)
    requires Packable(messages) && Elements(packets)
    requires |packets| == |messages| && forall i | 0 <= i < |messages| :: packets[i] == Wire(messages[i])
    ensures Contents(packets) == messages
  {
    if messages != [] {
      MessageRoundTrip(messages[0], 0);
      ContentsOfPackets(messages[1..], packets[1..]);
      assert messages == [messages[0]] + messages[1..];
    }
  }

  lemma BundleOfAppend(messages: seq<Message>, m: Message)
    requires Packable(messages) && Encodable(m) && |Wire(m)| <= MAX_INT32
    ensures Packable(messages + [m])
    ensures BundleOf(messages + [m]) == BundleOf(messages) + (PutWord(|Wire(m)|) + Wire(m))
  {
    PacketsAreElements(messages);
    PacketsAreElements([m]);
    assert Packets([m])[0] == Wire(m);
    assert Packets(messages + [m]) == Packets(messages) + [Wire(m)];
    SizedElementsAppend(Packets(messages), Wire(m));
    Associative(BundleHeader(1), SizedElements(Packets(messages)), Sized(Wire(m)));
  }

  lemma {:induction false} SizedElementsAreAligned(packets: seq<Bytes>)
    requires Elements(packets)
    ensures |SizedElements(packets)| % 4 == 0
  {
    if packets != [] {
      AcceptedIsAligned(packets[0], 1);
      SizedElementsAreAligned(packets[1..]);
      SizesAreAligned(|packets[0]|, |SizedElements(packets[1..])|);
    }
  }

  lemma BundleOfIsAligned(messages: seq<Message>)
    requires Packable(messages)
    ensures |BundleOf(messages)| % 4 == 0
    ensures |BundleOf(messages)| >= HEADER_SIZE
    ensures |BundleOf(messages)| == HEADER_SIZE <==> messages == []
  {
    PacketsAreElements(messages);
    SizedElementsAreAligned(Packets(messages));
    Multiples(HEADER_SIZE, |SizedElements(Packets(messages))|);
  }

  /** Appends a message behind room for its size, then fills the size in. */
  method AppendSized(buffer: Bytes, address: Bytes, scalar: Scalar) returns (r: Bytes)
    requires |buffer| % 4 == 0 && Encodable(MessageOf(address, scalar))
    requires |Wire(MessageOf(address, scalar))| <= MAX_INT32
    ensures r == buffer + (PutWord(|Wire(MessageOf(address, scalar))|) + Wire(MessageOf(address, scalar)))
  {
    var sizeOffset := |buffer|;
    Multiples(sizeOffset, 4);
    var grown := AppendScalarMessage(buffer + [0, 0, 0, 0], address, scalar);
    SizePatched(buffer, Wire(MessageOf(address, scalar)));
    var length := |grown.value| - (sizeOffset + 4);
    r := grown.value[..sizeOffset] + PutWord(length) + grown.value[sizeOffset + 4..];
  }

  class BundleBuilder {
    var buffer: Bytes
    const maxDatagram: Int32

    /** The messages in the buffer. */
    ghost var messages: seq<Message>

    ghost predicate Valid()
      reads this
    {
      && Packable(messages)
      && buffer == BundleOf(messages)
      && (messages != [] ==> |buffer| <= maxDatagram)
    }

    constructor (maxDatagram: Int32)
      ensures Valid() && messages == [] && this.maxDatagram == maxDatagram
    {
      this.maxDatagram := maxDatagram;
      buffer := BundleHeader(1);
      messages := [];
      new;
      EmptyBundle();
    }

    lemma EmptyBundle()
      ensures BundleOf([]) == BundleHeader(1)
    {
      assert Packets([]) == [];
      assert BundleHeader(1) + [] == BundleHeader(1);
    }

    method Reset()
      modifies this
      ensures Valid() && messages == []
    {
      buffer := BundleHeader(1);
      messages := [];
      EmptyBundle();
    }

    /** Whether no message is in the buffer; it then holds the header alone. */
    method Empty() returns (r: bool)
      requires Valid()
      ensures r <==> messages == []
    {
      BundleOfIsAligned(messages);
      r := |buffer| == HEADER_SIZE;
    }

    /** Appends the message and its size exactly when the whole bundle still fits a datagram. */
    method AppendScalar(address: Bytes, scalar: Scalar) returns (r: Result<bool>)
      requires Valid()
      modifies this
      ensures Valid()
      ensures r.Ok? <==> Encodable(MessageOf(address, scalar))
      ensures r.Err? ==> r.error == Refusal(address)
      ensures r.Ok? ==> (r.value <==> old(|buffer|) + 4 + |Wire(MessageOf(address, scalar))| <= maxDatagram)
      ensures messages == if r == Ok(true) then old(messages) + [MessageOf(address, scalar)] else old(messages)
      ensures r != Ok(true) ==> buffer == old(buffer)
    {
      var size := ScalarMessageSize(address, scalar);
      if size.Err? { return Err(size.error); }
      if |buffer| + 4 + size.value > maxDatagram { return Ok(false); }
      BundleOfIsAligned(messages);
      BundleOfAppend(messages, MessageOf(address, scalar));
      buffer := AppendSized(buffer, address, scalar);
      messages := messages + [MessageOf(address, scalar)];
      return Ok(true);
    }
  }

  lemma SizePatched(start: Bytes, wire: Bytes)
    requires |wire| <= MAX_INT32
    ensures var grown := start + [0, 0, 0, 0] + wire;
      grown[..|start|] + PutWord(|wire|) + grown[|start| + 4..] == start + (PutWord(|wire|) + wire)
  {
    var grown := start + [0, 0, 0, 0] + wire;
    assert grown[..|start|] == start;
    assert grown[|start| + 4..] == wire;
    Associative(start, PutWord(|wire|), wire);
  }
}
