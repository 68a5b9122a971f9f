/**
 The OSC 1.0 layout byte by byte ("OSC Messages", "OSC Type Tag String", "OSC-string",
 "OSC Bundles"): which byte stands where in a packet. A packet is laid out so exactly
 if it is the wire form.
 */
module OscFormat {
  import opened OscWire

  // ---- Words and text ----

  /** The four bytes spell the number, the most significant first. */
  predicate IsWord(b: Bytes, w: int) {
    |b| == 4 && w == (b[0] as int) * 0x100_0000 + (b[1] as int) * 0x1_0000 + (b[2] as int) * 0x100 + b[3] as int
  }

  /** The text, a NUL and as many more as make a multiple of four. */
  predicate IsText(b: Bytes, text: Bytes) {
    && |text| < |b| <= |text| + 4 && |b| % 4 == 0
    && (forall k | 0 <= k < |text| :: b[k] == text[k])
    && (forall k | |text| <= k < |b| :: b[k] == 0)
  }

  /** A comma and one letter for each argument, as text. */
  predicate IsTags(b: Bytes, args: seq<Value>) {
    && |args| + 1 < |b| <= |args| + 5 && |b| % 4 == 0 && b[0] == ',' as int
    && (forall k | 1 <= k <= |args| :: b[k] == Letter(args[k - 1]) as int)
    && (forall k | |args| < k < |b| :: b[k] == 0)
  }

  /** The type tag of an argument. */
  function Letter(v: Value): char {
    match v
    case IntValue(_) => 'i'
    case FloatValue(_) => 'f'
    case StringValue(_) => 's'
    case BoolValue(true) => 'T'
    case BoolValue(false) => 'F'
    case OtherValue(_) => '?'
  }

  /** The data of one argument: an int32 in two's complement, the bits of a float32, text, or nothing. */
  predicate IsDatum(b: Bytes, v: Value) {
    match v
    case IntValue(i) => IsWord(b, if i < 0 then 0x1_0000_0000 + i else i)
    case FloatValue(bits) => IsWord(b, bits)
    case StringValue(s) => IsText(b, s)
    case BoolValue(_) | OtherValue(_) => b == []
  }

  /** How many bytes that takes. */
  function Extent(v: Value): nat {
    match v
    case IntValue(_) | FloatValue(_) => 4
    case StringValue(s) => |s| + 4 - |s| % 4
    case BoolValue(_) | OtherValue(_) => 0
  }

  /** The data of the arguments, one behind the other. */
  predicate IsData(b: Bytes, args: seq<Value>)
    decreases |args|
  {
    if args == [] then b == []
    else
      var n := Extent(args[0]);
      n <= |b| && IsDatum(b[..n], args[0]) && IsData(b[n..], args[1..])
  }

  /** The packet is laid out as the message: address, type tags, data, and nothing after them. */
  ghost predicate IsMessage(p: Bytes, m: Message) {
    exists tags: nat, data: nat :: LaidOut(p, m, tags, data)
  }

  predicate LaidOut(p: Bytes, m: Message, tags: nat, data: nat) {
    tags <= data <= |p| && IsText(p[..tags], m.address) && IsTags(p[tags..data], m.args) && IsData(p[data..], m.args)
  }

  /** Elements, each behind its size. */
  predicate AreElements(b: Bytes, packets: seq<Bytes>)
    decreases |packets|
  {
    if packets == [] then b == []
    else
      var n := |packets[0]|;
      4 + n <= |b| && IsWord(b[..4], n) && b[4..4 + n] == packets[0] && AreElements(b[4 + n..], packets[1..])
  }

  /** The packet is laid out as a bundle: "#bundle" as text, the time tag in eight bytes, the elements. */
  ghost predicate IsBundle(p: Bytes, timetag: int, packets: seq<Bytes>) {
    && |p| >= 16 && IsBundleTag(p[..8])
    && (exists high, low :: IsWord(p[8..12], high) && IsWord(p[12..16], low) && timetag == high * 0x1_0000_0000 + low)
    && AreElements(p[16..], packets)
  }

  predicate IsBundleTag(b: Bytes) {
    |b| == 8 && (forall k | 0 <= k < 7 :: b[k] == "#bundle"[k] as int) && b[7] == 0
  }

  // ---- The wire form is laid out so, and nothing else is ----

  lemma WordIsSpelled(b: Bytes, w: Word)
    ensures IsWord(b, w) <==> b == PutWord(w)
  {
    WordRoundTrip(w);
    if IsWord(b, w) { BytesRoundTrip(b); }
  }

  lemma TextIsPadded(b: Bytes, text: Bytes)
    ensures IsText(b, text) <==> b == Pad(text)
  {
    var padded := Pad(text);
    if IsText(b, text) {
      forall k | 0 <= k < |b| ensures b[k] == padded[k] {
      }
    }
  }

  lemma TagsArePadded(b: Bytes, args: seq<Value>)
    requires forall i | 0 <= i < |args| :: Supported(args[i])
    ensures IsTags(b, args) <==> b == Pad(Tags(args))
  {
    var tags := Tags(args);
    TextIsPadded(b, tags);
    assert tags[0] == ',' as int;
    forall k | 1 <= k <= |args| ensures tags[k] == Letter(args[k - 1]) as int { ArgTagsAt(args, k - 1); }
  }

  lemma DatumIsPayload(b: Bytes, v: Value)
    ensures IsDatum(b, v) <==> b == PayloadOf(v)
    ensures |PayloadOf(v)| == Extent(v)
  {
    match v
    case IntValue(i) => WordIsSpelled(b, FromInt(i));
    case FloatValue(bits) => WordIsSpelled(b, bits);
    case StringValue(s) => TextIsPadded(b, s);
    case _ =>
  }

  /** The data of the arguments, from the front. */
  function DataOf(args: seq<Value>): Bytes {
    if args == [] then [] else PayloadOf(args[0]) + DataOf(args[1..])
  }

  lemma {:induction false} DataIsPayload(args: seq<Value>)
    ensures DataOf(args) == Payload(args)
  {
    if args != [] {
      var init, last := args[..|args| - 1], args[|args| - 1];
      assert args == init + [last];
      DataAppended(init, last);
      DataIsPayload(init);
    }
  }

  lemma {:induction false} DataAppended(args: seq<Value>, v: Value)
    ensures DataOf(args + [v]) == DataOf(args) + PayloadOf(v)
  {
    var more := args + [v];
    if args == [] {
      assert more[1..] == [] && PayloadOf(v) + [] == PayloadOf(v);
    } else {
      DataAppended(args[1..], v);
      assert more[1..] == args[1..] + [v];
      Associated(PayloadOf(args[0]), DataOf(args[1..]), PayloadOf(v));
    }
  }

  lemma Associated(x: Bytes, y: Bytes, z: Bytes)
    ensures (x + y) + z == x + (y + z)
  {
  }

  /** Bytes that are cut in two. */
  lemma CutInTwo(b: Bytes, x: Bytes, y: Bytes)
    ensures b == x + y <==> |x| <= |b| && b[..|x|] == x && b[|x|..] == y
  {
    if b == x + y { assert b[..|x|] == x && b[|x|..] == y; }
    if |x| <= |b| && b[..|x|] == x && b[|x|..] == y { assert b == b[..|x|] + b[|x|..]; }
  }

  lemma {:induction false} DataIsLaidOut(b: Bytes, args: seq<Value>)
    ensures IsData(b, args) <==> b == DataOf(args)
    decreases |args|
  {
    if args != [] {
      var n := Extent(args[0]);
      CutInTwo(b, PayloadOf(args[0]), DataOf(args[1..]));
      if n <= |b| {
        DatumIsPayload(b[..n], args[0]);
        DataIsLaidOut(b[n..], args[1..]);
      } else {
        DatumIsPayload([], args[0]);
      }
    }
  }

  /** Bytes that are cut in three. */
  lemma CutInThree(p: Bytes, x: Bytes, y: Bytes, z: Bytes)
    ensures var i, j := |x|, |x| + |y|;
            p == x + (y + z) <==> j <= |p| && p[..i] == x && p[i..j] == y && p[j..] == z
  {
    var i, j := |x|, |x| + |y|;
    if p == x + (y + z) { assert p[..i] == x && p[i..j] == y && p[j..] == z; }
    if j <= |p| && p[..i] == x && p[i..j] == y && p[j..] == z { assert p == p[..i] + (p[i..j] + p[j..]); }
  }

  lemma LaidOutMeans(p: Bytes, m: Message, tags: nat, data: nat)
    requires Encodable(m)
    ensures LaidOut(p, m, tags, data) <==>
      tags <= data <= |p| && p[..tags] == Pad(m.address) && p[tags..data] == Pad(Tags(m.args)) && p[data..] == Payload(m.args)
  {
    if tags <= data <= |p| {
      TextIsPadded(p[..tags], m.address);
      TagsArePadded(p[tags..data], m.args);
      DataIsLaidOut(p[data..], m.args);
      DataIsPayload(m.args);
    }
  }

  lemma ThreeParts(p: Bytes, i: nat, j: nat)
    requires i <= j <= |p|
    ensures p == p[..i] + (p[i..j] + p[j..])
  {
  }

  lemma LaidOutIsWire(p: Bytes, m: Message, tags: nat, data: nat)
    requires Encodable(m) && LaidOut(p, m, tags, data)
    ensures p == Wire(m)
  {
    ThreeParts(p, tags, data);
    LaidOutMeans(p, m, tags, data);
  }

  lemma PartsAreLaidOut(p: Bytes, m: Message, x: Bytes, y: Bytes, z: Bytes)
    requires p == x + (y + z) && IsText(x, m.address) && IsTags(y, m.args) && IsData(z, m.args)
    ensures LaidOut(p, m, |x|, |x| + |y|)
  {
    CutInThree(p, x, y, z);
  }

  lemma WireCanBeLaidOut(m: Message)
    requires Encodable(m)
    ensures IsMessage(Wire(m), m)
  {
    TextIsPadded(Pad(m.address), m.address);
    TagsArePadded(Pad(Tags(m.args)), m.args);
    DataIsPayload(m.args);
    DataIsLaidOut(Payload(m.args), m.args);
    PartsAreLaidOut(Wire(m), m, Pad(m.address), Pad(Tags(m.args)), Payload(m.args));
  }

  /** A packet is laid out as a message exactly if it is its wire form. */
  lemma WireIsLaidOut(p: Bytes, m: Message)
    requires Encodable(m)
    ensures IsMessage(p, m) <==> p == Wire(m)
  {
    if p == Wire(m) {
      WireCanBeLaidOut(m);
    } else if IsMessage(p, m) {
      var i: nat, j: nat :| LaidOut(p, m, i, j);
      LaidOutIsWire(p, m, i, j);
    }
  }

  /** The address "/a" with the integer 1, byte by byte. */
  lemma OneAtSlashA()
    ensures Wire(Message(['/' as int, 'a' as int], [IntValue(1)])) ==
            ['/' as int, 'a' as int, 0, 0, ',' as int, 'i' as int, 0, 0, 0, 0, 0, 1]
  {
    var m := Message(['/' as int, 'a' as int], [IntValue(1)]);
    var p: Bytes := ['/' as int, 'a' as int, 0, 0, ',' as int, 'i' as int, 0, 0, 0, 0, 0, 1];
    assert p[..4] == ['/' as int, 'a' as int, 0, 0] && p[4..8] == [',' as int, 'i' as int, 0, 0];
    assert m.args[1..] == [] && p[8..] == [0, 0, 0, 1] && p[8..][..4] == p[8..] && p[8..][4..] == [];
    assert IsData(p[8..][4..], m.args[1..]) && IsDatum(p[8..][..4], m.args[0]);
    assert LaidOut(p, m, 4, 8);
    WireIsLaidOut(p, m);
  }

  /** Byte k of a word counts powers of 256, from the third down. */
  lemma WordBytes(w: Word)
    ensures PutWord(w)[0] == w / 0x100_0000 && PutWord(w)[1] == w / 0x1_0000 % 256
    ensures PutWord(w)[2] == w / 0x100 % 256 && PutWord(w)[3] == w % 256
  {
  }
}
