/**
 The reference OSC printer and parser of pkg/osc/packet.go. The parser accepts a
 packet as a message exactly when it is the wire form of an encodable message,
 and as a bundle exactly as the recursive definition Decode says.
 */
module OscCodec {
  import opened OscFormat
  import opened OscWire

  const MAX_BUNDLE_DEPTH := 32
  const MAX_INT32 := 0x7FFF_FFFF

  datatype Error = Malformed | Unsupported | InvalidAddress | InvalidArgument

  datatype Result<T> = Ok(value: T) | Err(error: Error)

  // ---- Printing messages ----

  ghost predicate AllSupported(args: seq<Value>) {
    forall i | 0 <= i < |args| :: Supported(args[i])
  }

  /** The first argument that has no wire form, and what marshalling says of it. */
  ghost predicate RefusesArgument(args: seq<Value>, k: nat, error: Error) {
    && k < |args|
    && AllSupported(args[..k])
    && !Supported(args[k])
    && error == if args[k].StringValue? then InvalidArgument else Unsupported
  }

  /** Appends the text, a NUL, and further NULs up to a multiple of four bytes of buffer. */
  method WritePaddedString(out: Bytes, value: Bytes) returns (r: Bytes)
    ensures |r| % 4 == 0 && |out| + |value| < |r| <= |out| + |value| + 4
    ensures r == out + value + Zeros(|r| - |out| - |value|)
    ensures |out| % 4 == 0 ==> r == out + Pad(value)
  {
    r := out + value + [0];
    ghost var n: nat := 1;
    while |r| % 4 != 0
      invariant 1 <= n <= 4 - |out + value| % 4
      invariant r == out + value + Zeros(n)
      decreases 4 - n
    {
      MoreNeeded(|out + value|, n);
      AppendZero(out + value, n);
      r := r + [0];
      n := n + 1;
    }
    if |out| % 4 == 0 {
      PaddingNeeded(|out|, |value|, n);
      assert out + value + Zeros(n) == out + (value + Zeros(n));
    }
  }

  lemma AppendZero(x: Bytes, n: nat)
    ensures x + Zeros(n) + [0] == x + Zeros(n + 1)
  {
    assert Zeros(n) + [0] == Zeros(n + 1);
    assert x + Zeros(n) + [0] == x + (Zeros(n) + [0]);
  }

  lemma MoreNeeded(size: nat, n: nat)
    requires n <= 4 - size % 4 && (size + n) % 4 != 0
    ensures n < 4 - size % 4
  {
    assert (size + (4 - size % 4)) % 4 == 0;
  }

  lemma PaddingNeeded(start: nat, size: nat, n: nat)
    requires start % 4 == 0 && 1 <= n <= 4 && (start + size + n) % 4 == 0
    ensures n == 4 - size % 4
  {
  }

  method TypeTags(args: seq<Value>) returns (r: Result<Bytes>)
    ensures r.Ok? ==> AllSupported(args) && r.value == Tags(args)
    ensures r.Err? ==> exists k: nat :: RefusesArgument(args, k, r.error)
  {
    var tags: Bytes := [COMMA];
    for i := 0 to |args|
      invariant AllSupported(args[..i])
      invariant tags == Tags(args[..i])
    {
      if !Supported(args[i]) {
        var error := if args[i].StringValue? then InvalidArgument else Unsupported;
        assert RefusesArgument(args, i, error);
        return Err(error);
      }
      TakeNext(args, i);
      TagsAppend(args[..i], args[i]);
      tags := tags + [TagOf(args[i])];
    }
    assert args[..|args|] == args;
    return Ok(tags);
  }

  lemma TagsAppend(args: seq<Value>, v: Value)
    ensures Tags(args + [v]) == Tags(args) + [TagOf(v)]
  {
    PayloadAppend(args, v);
  }

  /** A message has a wire form exactly when it is encodable. */
  method MarshalMessage(m: Message) returns (r: Result<Bytes>)
    ensures r.Ok? <==> Encodable(m)
    ensures r.Ok? ==> r.value == Wire(m) && IsMessage(r.value, m)
    ensures r.Err? ==> (r.error == InvalidAddress <==> !ValidAddress(m.address))
    ensures r.Err? && ValidAddress(m.address) ==> exists k: nat :: RefusesArgument(m.args, k, r.error)
  {
    if !ValidAddress(m.address) { return Err(InvalidAddress); }
    var tags := TypeTags(m.args);
    if tags.Err? { return Err(tags.error); }
    var out := WritePaddedString([], m.address);
    assert [] + Pad(m.address) == Pad(m.address);
    out := WritePaddedString(out, tags.value);
    out := WriteArguments(m.args, out);
    Associative(Pad(m.address), Pad(tags.value), Payload(m.args));
    WireIsLaidOut(out, m);
    return Ok(out);
  }

  method WriteArguments(args: seq<Value>, start: Bytes) returns (out: Bytes)
    requires |start| % 4 == 0 && AllSupported(args)
    ensures out == start + Payload(args)
  {
    out := start;
    for i := 0 to |args|
      invariant out == start + Payload(args[..i])
      invariant |out| % 4 == 0
    {
      WrittenNext(start, args, i);
      out := WriteArgument(args[i], out);
    }
    assert args[..|args|] == args;
  }

  lemma WrittenNext(start: Bytes, args: seq<Value>, i: nat)
    requires i < |args|
    ensures start + Payload(args[..i]) + PayloadOf(args[i]) == start + Payload(args[..i + 1])
  {
    TakeNext(args, i);
    PayloadAppend(args[..i], args[i]);
    Associative(start, Payload(args[..i]), PayloadOf(args[i]));
  }

  lemma Associative(x: Bytes, y: Bytes, z: Bytes)
    ensures x + y + z == x + (y + z)
  {
  }

  method WriteArgument(arg: Value, start: Bytes) returns (out: Bytes)
    requires |start| % 4 == 0 && Supported(arg)
    ensures out == start + PayloadOf(arg) && |out| % 4 == 0
  {
    match arg {
      case IntValue(n) => out := start + PutWord(FromInt(n));
      case FloatValue(bits) => out := start + PutWord(bits);
      case StringValue(s) => out := WritePaddedString(start, s);
      case BoolValue(_) => out := start;
    }
  }

  // ---- Parsing messages ----

  /** The only texts that may start at the bytes are the ones before their first NUL. */
  lemma TerminatorFixesText(rest: Bytes, t: nat, s: Bytes)
    requires t < |rest| && rest[t] == 0 && NulFree(rest[..t])
    requires NulFree(s) && Pad(s) <= rest
    ensures s == rest[..t]
  {
    PadNul(s, rest);
    NulAfter(s, rest, t);
    NulAfter(rest[..t], rest, |s|);
  }

  lemma PadFits(rest: Bytes, t: nat)
    requires t <= |rest|
    ensures Pad(rest[..t]) <= rest <==> (t + 4 - t % 4 <= |rest| && forall i | t <= i < t + 4 - t % 4 :: rest[i] == 0)
  {
    var p := Pad(rest[..t]);
    if p <= rest {
      forall i | t <= i < t + 4 - t % 4 ensures rest[i] == 0 { assert p[i] == rest[i]; }
    }
  }

  /** Reads the padded text at the offset, exactly when there is one. */
  method ReadPaddedString(packet: Bytes, offset: nat) returns (found: bool, text: Bytes, next: nat)
    requires offset % 4 == 0
    ensures found ==> offset <= |packet| && NulFree(text) && Pad(text) <= packet[offset..]
    ensures found ==> next == offset + |Pad(text)| <= |packet|
    ensures !found && offset <= |packet| ==> forall s | NulFree(s) :: !(Pad(s) <= packet[offset..])
  {
    if offset >= |packet| { return false, [], 0; }
    var terminator := offset;
    while terminator < |packet| && packet[terminator] != 0
      invariant offset <= terminator <= |packet|
      invariant forall i | offset <= i < terminator :: packet[i] != 0
    {
      terminator := terminator + 1;
    }
    ghost var rest := packet[offset..];
    ghost var size := terminator - offset;
    assert NulFree(rest[..size]);
    if terminator == |packet| {
      forall s | NulFree(s) && Pad(s) <= rest ensures false { PadNul(s, rest); }
      return false, [], 0;
    }
    forall s | NulFree(s) && Pad(s) <= rest ensures s == rest[..size] { TerminatorFixesText(rest, size, s); }
    PadFits(rest, size);
    next := NextBoundary(offset, terminator);
    if next > |packet| { return false, [], 0; }
    for index := terminator + 1 to next
      invariant forall i | terminator <= i < index :: packet[i] == 0
    {
      if packet[index] != 0 {
        assert rest[index - offset] != 0;
        return false, [], 0;
      }
    }
    text := packet[offset..terminator];
    assert text == rest[..size];
    return true, text, next;
  }

  method NextBoundary(offset: nat, terminator: nat) returns (next: nat)
    requires offset % 4 == 0 && offset <= terminator
    ensures next == terminator + 4 - (terminator - offset) % 4
  {
    next := terminator + 1;
    while next % 4 != 0
      invariant terminator + 1 <= next <= terminator + 4 - terminator % 4
      decreases terminator + 4 - next
    {
      MoreNeeded(terminator, next - terminator);
      next := next + 1;
    }
    PaddingNeeded(offset, terminator - offset, next - terminator);
  }

  predicate KnownTag(tag: Byte) {
    tag == 'i' as int || tag == 'f' as int || tag == 's' as int || tag == 'T' as int || tag == 'F' as int
  }

  /** The argument is what its tag and the bytes at hand spell. */
  ghost predicate Spells(v: Value, tag: Byte, rest: Bytes) {
    Supported(v) && TagOf(v) == tag && PayloadOf(v) <= rest
  }

  method ReadArgument(packet: Bytes, tag: Byte, offset: nat) returns (r: Result<(Value, nat)>)
    requires offset % 4 == 0 && offset <= |packet|
    ensures r.Ok? ==> Spells(r.value.0, tag, packet[offset..])
    ensures r.Ok? ==> r.value.1 == offset + |PayloadOf(r.value.0)| <= |packet| && r.value.1 % 4 == 0
    ensures r.Err? ==> forall v :: !Spells(v, tag, packet[offset..])
    ensures r.Err? ==> r.error == if KnownTag(tag) then Malformed else Unsupported
  {
    if tag == 'i' as int || tag == 'f' as int {
      if |packet| - offset < 4 { return Err(Malformed); }
      var word := GetWord(packet[offset..offset + 4]);
      BytesRoundTrip(packet[offset..offset + 4]);
      if tag == 'i' as int {
        assert FromInt(ToInt(word)) == word;
        return Ok((IntValue(ToInt(word)), offset + 4));
      }
      return Ok((FloatValue(word), offset + 4));
    } else if tag == 's' as int {
      var found, text, next := ReadPaddedString(packet, offset);
      if !found { return Err(Malformed); }
      return Ok((StringValue(text), next));
    } else if tag == 'T' as int || tag == 'F' as int {
      return Ok((BoolValue(tag == 'T' as int), offset));
    }
    return Err(Unsupported);
  }

  /** The arguments are spelled by the first tags and the data. */
  ghost predicate Reads(args: seq<Value>, tags: Bytes, rest: Bytes) {
    AllSupported(args) && |args| <= |tags| && ArgTags(args) == tags[..|args|] && Payload(args) <= rest
  }

  /** After these arguments the next tag is unknown, or its data is missing or broken. */
  ghost predicate Stops(args: seq<Value>, tags: Bytes, rest: Bytes, error: Error) {
    && Reads(args, tags, rest)
    && |args| < |tags|
    && (forall v :: !Spells(v, tags[|args|], rest[|Payload(args)|..]))
    && error == if KnownTag(tags[|args|]) then Malformed else Unsupported
  }

  lemma ReadsExtend(args: seq<Value>, v: Value, tags: Bytes, rest: Bytes)
    requires Reads(args, tags, rest) && |args| < |tags|
    requires Spells(v, tags[|args|], rest[|Payload(args)|..])
    ensures Reads(args + [v], tags, rest)
    ensures |Payload(args + [v])| == |Payload(args)| + |PayloadOf(v)|
  {
    PayloadAppend(args, v);
    JoinPrefix(Payload(args), PayloadOf(v), rest);
    TakeNextTag(tags, |args|);
  }

  lemma TakeNextTag(tags: Bytes, n: nat)
    requires n < |tags|
    ensures tags[..n + 1] == tags[..n] + [tags[n]]
  {
  }

  lemma ReadsShorter(args: seq<Value>, k: nat, tags: Bytes, rest: Bytes)
    requires Reads(args, tags, rest) && k <= |args|
    ensures Reads(args[..k], tags, rest)
  {
    ArgTagsTake(args, k);
    PayloadTake(args, k);
    assert tags[..|args|][..k] == tags[..k];
  }

  lemma ReadsSpelled(args: seq<Value>, k: nat, tags: Bytes, rest: Bytes)
    requires Reads(args, tags, rest) && k < |args|
    ensures Payload(args[..k]) <= rest && Spells(args[k], tags[k], rest[|Payload(args[..k])|..])
  {
    ReadsShorter(args, k + 1, tags, rest);
    ArgTagsAt(args, k);
    TakeNext(args, k);
    PayloadAppend(args[..k], args[k]);
    SplitPrefix(Payload(args[..k]), PayloadOf(args[k]), rest);
  }

  /** Reading has one outcome: two readings agree as far as the shorter one goes. */
  lemma ReadsAgree(a: seq<Value>, b: seq<Value>, tags: Bytes, rest: Bytes)
    requires Reads(a, tags, rest) && Reads(b, tags, rest) && |a| <= |b|
    ensures a == b[..|a|]
  {
    forall i | 0 <= i < |a| ensures TagOf(a[i]) == TagOf(b[i]) {
      ArgTagsAt(a, i);
      ArgTagsAt(b, i);
    }
    ArgsDetermined(a, b, rest);
  }

  lemma NothingPastStop(a: seq<Value>, error: Error, b: seq<Value>, tags: Bytes, rest: Bytes)
    requires Stops(a, tags, rest, error) && Reads(b, tags, rest)
    ensures |b| <= |a|
  {
    if |b| > |a| {
      ReadsAgree(a, b, tags, rest);
      ReadsSpelled(b, |a|, tags, rest);
      assert false;
    }
  }

  lemma OneStop(a: seq<Value>, e: Error, b: seq<Value>, f: Error, tags: Bytes, rest: Bytes)
    requires Stops(a, tags, rest, e) && Stops(b, tags, rest, f)
    ensures e == f
  {
    NothingPastStop(a, e, b, tags, rest);
    NothingPastStop(b, f, a, tags, rest);
  }

  method ReadArguments(packet: Bytes, tags: Bytes, start: nat) returns (r: Result<(seq<Value>, nat)>)
    requires start % 4 == 0 && start <= |packet|
    ensures r.Ok? ==> Reads(r.value.0, tags, packet[start..]) && |r.value.0| == |tags|
    ensures r.Ok? ==> r.value.1 == start + |Payload(r.value.0)|
    ensures r.Err? ==> exists args :: Stops(args, tags, packet[start..], r.error)
  {
    var args: seq<Value> := [];
    var offset := start;
    ghost var rest := packet[start..];
    for i := 0 to |tags|
      invariant |args| == i && Reads(args, tags, rest)
      invariant offset == start + |Payload(args)| <= |packet| && offset % 4 == 0
    {
      assert packet[offset..] == rest[|Payload(args)|..];
      var next := ReadArgument(packet, tags[i], offset);
      if next.Err? {
        assert Stops(args, tags, rest, next.error);
        return Err(next.error);
      }
      ReadsExtend(args, next.value.0, tags, rest);
      args := args + [next.value.0];
      offset := next.value.1;
    }
    return Ok((args, offset));
  }

  /** The packet starts with a padded address and padded type tags. */
  ghost predicate Header(packet: Bytes, address: Bytes, tags: Bytes) {
    && ValidAddress(address) && NulFree(tags)
    && |tags| > 0 && tags[0] == COMMA
    && Pad(address) <= packet && Pad(tags) <= packet[|Pad(address)|..]
  }

  /** Where the argument data starts. */
  function DataStart(address: Bytes, tags: Bytes): nat {
    |Pad(address)| + |Pad(tags)|
  }

  lemma HeaderDetermined(packet: Bytes, address: Bytes, tags: Bytes, otherAddress: Bytes, otherTags: Bytes)
    requires Header(packet, address, tags) && Header(packet, otherAddress, otherTags)
    ensures address == otherAddress && tags == otherTags
  {
    PadDetermined(address, otherAddress, packet);
    PadDetermined(tags, otherTags, packet[|Pad(address)|..]);
  }

  /** A message starts the packet exactly when its header does and its arguments follow. */
  lemma WireReads(m: Message, packet: Bytes)
    requires Encodable(m) && Wire(m) <= packet
    ensures Header(packet, m.address, Tags(m.args))
    ensures Reads(m.args, Tags(m.args)[1..], packet[DataStart(m.address, Tags(m.args))..])
  {
    TagsNulFree(m.args);
    WireParts(m, packet);
    assert packet[|Pad(m.address)|..][|Pad(Tags(m.args))|..] == packet[DataStart(m.address, Tags(m.args))..];
    assert Tags(m.args)[1..] == ArgTags(m.args);
  }

  lemma ReadsWire(address: Bytes, tags: Bytes, args: seq<Value>, packet: Bytes)
    requires Header(packet, address, tags)
    requires Reads(args, tags[1..], packet[DataStart(address, tags)..]) && |args| == |tags| - 1
    ensures Encodable(Message(address, args)) && Wire(Message(address, args)) <= packet
    ensures |Wire(Message(address, args))| == DataStart(address, tags) + |Payload(args)|
  {
    assert tags == [COMMA] + tags[1..] == Tags(args);
    var rest := packet[|Pad(address)|..];
    assert rest[|Pad(tags)|..] == packet[DataStart(address, tags)..];
    JoinPrefix(Pad(tags), Payload(args), rest);
    JoinPrefix(Pad(address), Pad(tags) + Payload(args), packet);
  }

  /** The packet's header can be read, and reading its arguments stops at an unknown tag. */
  ghost predicate HasUnknownTag(packet: Bytes) {
    exists address, tags, args ::
      && Header(packet, address, tags)
      && Stops(args, tags[1..], packet[DataStart(address, tags)..], Unsupported)
  }

  lemma StoppedPacket(packet: Bytes, address: Bytes, tags: Bytes, args: seq<Value>, error: Error)
    requires Header(packet, address, tags)
    requires Stops(args, tags[1..], packet[DataStart(address, tags)..], error)
    ensures forall m | Encodable(m) :: !(Wire(m) <= packet)
    ensures error == Unsupported <==> HasUnknownTag(packet)
  {
    forall m | Encodable(m) && Wire(m) <= packet ensures false {
      WireReads(m, packet);
      HeaderDetermined(packet, address, tags, m.address, Tags(m.args));
      NothingPastStop(args, error, m.args, tags[1..], packet[DataStart(address, tags)..]);
    }
    if HasUnknownTag(packet) {
      var a, t, b :| Header(packet, a, t) && Stops(b, t[1..], packet[DataStart(a, t)..], Unsupported);
      HeaderDetermined(packet, address, tags, a, t);
      OneStop(args, error, b, Unsupported, tags[1..], packet[DataStart(address, tags)..]);
    }
  }

  lemma HeadlessPacket(packet: Bytes)
    requires forall address, tags :: !Header(packet, address, tags)
    ensures forall m | Encodable(m) :: !(Wire(m) <= packet)
    ensures !HasUnknownTag(packet)
  {
    forall m | Encodable(m) && Wire(m) <= packet ensures false { WireReads(m, packet); }
  }

  lemma ReadablePacket(packet: Bytes, m: Message)
    requires Encodable(m) && Wire(m) <= packet
    ensures !HasUnknownTag(packet)
  {
    if HasUnknownTag(packet) {
      var a, t, b :| Header(packet, a, t) && Stops(b, t[1..], packet[DataStart(a, t)..], Unsupported);
      StoppedPacket(packet, a, t, b, Unsupported);
    }
  }

  method ReadHeader(packet: Bytes) returns (found: bool, address: Bytes, tags: Bytes, offset: nat)
    ensures found ==> Header(packet, address, tags) && offset == DataStart(address, tags) <= |packet| && offset % 4 == 0
    ensures !found ==> forall a, t :: !Header(packet, a, t)
  {
    assert packet[0..] == packet;
    found, address, offset := ReadPaddedString(packet, 0);
    ghost var readable, text := found, address;
    if !found || !ValidAddress(address) {
      forall a, t | Header(packet, a, t) ensures false { OnlyAddress(packet, readable, text, a, t); }
      return false, [], [], 0;
    }
    var start := offset;
    found, tags, offset := ReadPaddedString(packet, start);
    ghost var second, typeTags := found, tags;
    if !found || |tags| == 0 || tags[0] != COMMA {
      forall a, t | Header(packet, a, t) ensures false { OnlyTags(packet, address, second, typeTags, a, t); }
      return false, [], [], 0;
    }
  }

  lemma OnlyAddress(packet: Bytes, found: bool, text: Bytes, address: Bytes, tags: Bytes)
    requires Header(packet, address, tags)
    requires found ==> NulFree(text) && Pad(text) <= packet
    requires !found ==> forall s | NulFree(s) :: !(Pad(s) <= packet)
    ensures found && text == address
  {
    if found { PadDetermined(text, address, packet); }
  }

  lemma OnlyTags(packet: Bytes, prefix: Bytes, found: bool, text: Bytes, address: Bytes, tags: Bytes)
    requires Header(packet, address, tags)
    requires NulFree(prefix) && Pad(prefix) <= packet
    requires found ==> NulFree(text) && Pad(text) <= packet[|Pad(prefix)|..]
    requires !found ==> forall s | NulFree(s) :: !(Pad(s) <= packet[|Pad(prefix)|..])
    ensures found && text == tags
  {
    PadDetermined(prefix, address, packet);
    if found { PadDetermined(text, tags, packet[|Pad(prefix)|..]); }
  }

  /** Reads the one message whose wire form starts the packet, exactly when there is one. */
  method UnmarshalMessage(packet: Bytes) returns (r: Result<(Message, nat)>)
    ensures r.Ok? ==> Encodable(r.value.0) && Wire(r.value.0) <= packet && r.value.1 == |Wire(r.value.0)|
    ensures r.Ok? ==> IsMessage(packet[..r.value.1], r.value.0)
    ensures r.Err? ==> forall m | Encodable(m) :: !(Wire(m) <= packet)
    ensures r.Err? ==> r.error == if HasUnknownTag(packet) then Unsupported else Malformed
  {
    var found, address, tags, offset := ReadHeader(packet);
    if !found {
      HeadlessPacket(packet);
      return Err(Malformed);
    }
    var read := ReadArguments(packet, tags[1..], offset);
    if read.Err? {
      ghost var args :| Stops(args, tags[1..], packet[offset..], read.error);
      StoppedPacket(packet, address, tags, args, read.error);
      return Err(read.error);
    }
    ReadsWire(address, tags, read.value.0, packet);
    WireIsLaidOut(packet[..read.value.1], Message(address, read.value.0));
    return Ok((Message(address, read.value.0), read.value.1));
  }
}
