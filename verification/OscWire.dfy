/**
 The OSC 1.0 wire format for the supported argument types ("OSC Messages", "OSC
 Type Tag String", "OSC-string"), as pure byte sequences. Strings are byte
 strings; a float32 is its 32 raw bits.
 */
module OscWire {

  type Byte = b: int | 0 <= b < 256
  type Bytes = seq<Byte>
  type Word = w: int | 0 <= w < 0x1_0000_0000
  type Int32 = i: int | -0x8000_0000 <= i < 0x8000_0000

  const SLASH: Byte := 47
  const COMMA: Byte := 44

  datatype Value = IntValue(i: Int32) | FloatValue(bits: Word) | StringValue(s: Bytes) | BoolValue(b: bool) | OtherValue(kind: nat)

  datatype Message = Message(address: Bytes, args: seq<Value>)

  predicate NulFree(s: Bytes) {
    forall i | 0 <= i < |s| :: s[i] != 0
  }

  predicate ValidAddress(address: Bytes) {
    |address| > 0 && address[0] == SLASH && NulFree(address)
  }

  predicate Supported(v: Value) {
    match v
    case StringValue(s) => NulFree(s)
    case OtherValue(_) => false
    case _ => true
  }

  predicate Encodable(m: Message) {
    ValidAddress(m.address) && forall i | 0 <= i < |m.args| :: Supported(m.args[i])
  }

  // ---- Words ----

  function PutWord(w: Word): (r: Bytes)
    ensures |r| == 4
  {
    [w / 256 / 256 / 256, w / 256 / 256 % 256, w / 256 % 256, w % 256]
  }

  function GetWord(b: Bytes): Word
    requires |b| >= 4
  {
    (((b[0] as int) * 256 + b[1] as int) * 256 + b[2] as int) * 256 + b[3] as int
  }

  lemma WordRoundTrip(w: Word)
    ensures GetWord(PutWord(w)) == w
  {
  }

  lemma BytesRoundTrip(b: Bytes)
    requires |b| == 4
    ensures PutWord(GetWord(b)) == b
  {
    var high := (b[0] as int) * 256 + b[1] as int;
    var middle := high * 256 + b[2] as int;
    var w := middle * 256 + b[3] as int;
    assert w / 256 == middle && w % 256 == b[3];
    assert middle / 256 == high && middle % 256 == b[2];
    assert high / 256 == b[0] && high % 256 == b[1];
  }

  /** The two's complement word of an int32, and back. */
  function FromInt(i: Int32): Word {
    if i < 0 then i + 0x1_0000_0000 else i
  }

  function ToInt(w: Word): Int32 {
    if w >= 0x8000_0000 then w - 0x1_0000_0000 else w
  }

  // ---- Padded strings ----

  function Zeros(n: nat): Bytes {
    seq(n, _ => 0)
  }

  /** A NUL terminator and padding to a multiple of four bytes. */
  function Pad(s: Bytes): (r: Bytes)
    ensures |r| % 4 == 0 && |s| < |r| <= |s| + 4 && s <= r
    ensures forall i | |s| <= i < |r| :: r[i] == 0
  {
    s + Zeros(4 - |s| % 4)
  }

  /** The string is determined by any bytes that start with its padded form. */
  lemma PadDetermined(s: Bytes, t: Bytes, p: Bytes)
    requires NulFree(s) && NulFree(t) && Pad(s) <= p && Pad(t) <= p
    ensures s == t
  {
    PadNul(s, p);
    PadNul(t, p);
    NulAfter(s, p, |t|);
    NulAfter(t, p, |s|);
  }

  lemma NulAfter(s: Bytes, p: Bytes, n: nat)
    requires n < |p| && |s| <= |p| && s == p[..|s|] && NulFree(s) && p[n] == 0
    ensures |s| <= n
  {
  }

  lemma PadNul(s: Bytes, p: Bytes)
    requires Pad(s) <= p
    ensures |s| < |p| && p[|s|] == 0 && s == p[..|s|]
  {
    assert Pad(s)[|s|] == p[|s|];
  }

  lemma SplitPrefix(x: Bytes, y: Bytes, p: Bytes)
    requires x + y <= p
    ensures x <= p && y <= p[|x|..]
  {
    assert forall i | 0 <= i < |x| :: (x + y)[i] == x[i];
    assert forall i | 0 <= i < |y| :: (x + y)[|x| + i] == y[i];
  }

  lemma JoinPrefix(x: Bytes, y: Bytes, p: Bytes)
    requires x <= p && y <= p[|x|..]
    ensures x + y <= p
  {
  }

  // ---- Messages ----

  function TagOf(v: Value): Byte {
    match v
    case IntValue(_) => 'i' as int
    case FloatValue(_) => 'f' as int
    case StringValue(_) => 's' as int
    case BoolValue(b) => if b then 'T' as int else 'F' as int
    case OtherValue(_) => 1
  }

  function PayloadOf(v: Value): Bytes {
    match v
    case IntValue(i) => PutWord(FromInt(i))
    case FloatValue(bits) => PutWord(bits)
    case StringValue(s) => Pad(s)
    case BoolValue(_) => []
    case OtherValue(_) => []
  }

  function ArgTags(args: seq<Value>): (r: Bytes)
    ensures |r| == |args|
  {
    if args == [] then [] else ArgTags(args[..|args| - 1]) + [TagOf(args[|args| - 1])]
  }

  function Payload(args: seq<Value>): Bytes {
    if args == [] then [] else Payload(args[..|args| - 1]) + PayloadOf(args[|args| - 1])
  }

  function Tags(args: seq<Value>): Bytes {
    [COMMA] + ArgTags(args)
  }

  /** The packet of a message: padded address, padded type tags, argument data. */
  function Wire(m: Message): Bytes {
    Pad(m.address) + (Pad(Tags(m.args)) + Payload(m.args))
  }

  /** "OSC Packets": the size of a message is a multiple of four bytes. */
  lemma WireIsAligned(m: Message)
    ensures |Wire(m)| % 4 == 0 && |Wire(m)| >= 8
  {
    PayloadIsAligned(m.args);
    AlignedParts(Pad(m.address), Pad(Tags(m.args)), Payload(m.args));
  }

  lemma AlignedParts(head: Bytes, middle: Bytes, tail: Bytes)
    requires |head| % 4 == 0 && |middle| % 4 == 0 && |tail| % 4 == 0
    ensures |head + (middle + tail)| % 4 == 0
  {
    Multiples(|middle|, |tail|);
    Multiples(|head|, |middle + tail|);
  }

  lemma {:induction false} PayloadIsAligned(args: seq<Value>)
    ensures |Payload(args)| % 4 == 0
  {
    if args != [] {
      PayloadIsAligned(args[..|args| - 1]);
      Multiples(|Payload(args[..|args| - 1])|, |PayloadOf(args[|args| - 1])|);
    }
  }

  lemma Multiples(x: nat, y: nat)
    requires x % 4 == 0 && y % 4 == 0
    ensures (x + y) % 4 == 0
  {
  }

  lemma {:induction false} ArgTagsAt(args: seq<Value>, k: nat)
    requires k < |args|
    ensures ArgTags(args)[k] == TagOf(args[k])
  {
    if k < |args| - 1 { ArgTagsAt(args[..|args| - 1], k); }
  }

  lemma {:induction false} ArgTagsTake(args: seq<Value>, k: nat)
    requires k <= |args|
    ensures ArgTags(args[..k]) == ArgTags(args)[..k]
  {
    if k < |args| {
      ArgTagsTake(args[..|args| - 1], k);
      assert args[..|args| - 1][..k] == args[..k];
    } else {
      assert args[..k] == args;
    }
  }

  lemma {:induction false} PayloadTake(args: seq<Value>, k: nat)
    requires k <= |args|
    ensures Payload(args[..k]) <= Payload(args)
  {
    if k < |args| {
      PayloadTake(args[..|args| - 1], k);
      assert args[..|args| - 1][..k] == args[..k];
    } else {
      assert args[..k] == args;
    }
  }

  /** Type tags of encodable arguments never contain a NUL. */
  lemma TagsNulFree(args: seq<Value>)
    ensures NulFree(Tags(args))
  {
    forall k | 0 <= k < |args| ensures ArgTags(args)[k] != 0 { ArgTagsAt(args, k); }
  }

  /** A tag and the bytes that start with the argument's data determine the argument. */
  lemma ValueDetermined(a: Value, b: Value, p: Bytes)
    requires Supported(a) && Supported(b) && TagOf(a) == TagOf(b) && PayloadOf(a) <= p && PayloadOf(b) <= p
    ensures a == b
  {
    match a
    case StringValue(s) => PadDetermined(s, b.s, p);
    case IntValue(i) =>
      assert PutWord(FromInt(i)) == p[..4] == PutWord(FromInt(b.i));
      WordRoundTrip(FromInt(i));
      WordRoundTrip(FromInt(b.i));
    case FloatValue(bits) =>
      assert PutWord(bits) == p[..4] == PutWord(b.bits);
      WordRoundTrip(bits);
      WordRoundTrip(b.bits);
    case BoolValue(_) =>
  }

  /** Two values with one tag that both follow the same arguments in the bytes are equal. */
  lemma NextDetermined(before: seq<Value>, x: Value, y: Value, p: Bytes)
    requires Supported(x) && Supported(y) && TagOf(x) == TagOf(y)
    requires Payload(before + [x]) <= p && Payload(before + [y]) <= p
    ensures x == y
  {
    PayloadAppend(before, x);
    PayloadAppend(before, y);
    SplitPrefix(Payload(before), PayloadOf(x), p);
    SplitPrefix(Payload(before), PayloadOf(y), p);
    ValueDetermined(x, y, p[|Payload(before)|..]);
  }

  lemma PayloadAppend(args: seq<Value>, v: Value)
    ensures Payload(args + [v]) == Payload(args) + PayloadOf(v)
    ensures ArgTags(args + [v]) == ArgTags(args) + [TagOf(v)]
  {
    assert (args + [v])[..|args|] == args;
  }

  /** The arguments read so far are the first arguments of every message the bytes could hold. */
  lemma {:induction false} ArgsDetermined(a: seq<Value>, b: seq<Value>, p: Bytes)
    requires forall i | 0 <= i < |a| :: Supported(a[i])
    requires forall i | 0 <= i < |b| :: Supported(b[i])
    requires |a| <= |b| && forall i | 0 <= i < |a| :: TagOf(a[i]) == TagOf(b[i])
    requires Payload(a) <= p && Payload(b) <= p
    ensures a == b[..|a|]
  {
    if a != [] {
      var n := |a| - 1;
      var init := a[..n];
      TakeNext(a, n);
      TakeNext(b, n);
      PayloadTake(a, n);
      ArgsDetermined(init, b, p);
      PayloadTake(b, n + 1);
      NextDetermined(init, a[n], b[n], p);
    }
  }

  lemma TakeNext(s: seq<Value>, n: nat)
    requires n < |s|
    ensures s[..n + 1] == s[..n] + [s[n]] && (n + 1 == |s| ==> s[..n + 1] == s)
  {
  }

  /** A packet starts with the wire form of at most one message. */
  lemma WireDetermined(a: Message, b: Message, p: Bytes)
    requires Encodable(a) && Encodable(b) && Wire(a) <= p && Wire(b) <= p
    ensures a == b
  {
    WireParts(a, p);
    WireParts(b, p);
    PadDetermined(a.address, b.address, p);
    var rest := p[|Pad(a.address)|..];
    TagsNulFree(a.args);
    TagsNulFree(b.args);
    PadDetermined(Tags(a.args), Tags(b.args), rest);
    assert ArgTags(a.args) == Tags(a.args)[1..] == Tags(b.args)[1..] == ArgTags(b.args);
    forall i | 0 <= i < |a.args| ensures TagOf(a.args[i]) == TagOf(b.args[i]) {
      ArgTagsAt(a.args, i);
      ArgTagsAt(b.args, i);
    }
    ArgsDetermined(a.args, b.args, rest[|Pad(Tags(a.args))|..]);
  }

  lemma WireParts(m: Message, p: Bytes)
    requires Wire(m) <= p
    ensures Pad(m.address) <= p
    ensures Pad(Tags(m.args)) <= p[|Pad(m.address)|..]
    ensures Payload(m.args) <= p[|Pad(m.address)|..][|Pad(Tags(m.args))|..]
  {
    SplitPrefix(Pad(m.address), Pad(Tags(m.args)) + Payload(m.args), p);
    SplitPrefix(Pad(Tags(m.args)), Payload(m.args), p[|Pad(m.address)|..]);
  }
}
