/**
 The change-detecting parameter sender of internal/osc/sender.go. The transport may
 refuse any packet. What the receiver holds is decoded from the packets the
 transport accepted, so the cache is compared with bytes, not with intentions.
 */
module OscSender {
  import opened Common
  import opened OscWire
  import opened OscCodec
  import opened OscPackets
  import opened OscScalars
  import opened OscOutputs

  datatype Catalog = Catalog(hash: int, outputs: seq<Output>)

  datatype Cached = Cached(value: Scalar, valid: bool)

  datatype Pending = Pending(index: nat, value: Scalar)

  datatype SenderState = SenderState(catalog: Option<Catalog>, last: seq<Cached>, pending: seq<Pending>)

  // ---- The receiver ----

  type Held = map<Bytes, seq<Value>>

  /** The receiver keeps the arguments of the last message per address. */
  function Deliver(held: Held, messages: seq<Message>): Held {
    if messages == [] then held
    else
      var m := messages[|messages| - 1];
      Deliver(held, messages[..|messages| - 1])[m.address := m.args]
  }

  /** What the receiver holds after the accepted packets. */
  ghost function Received(sent: seq<Bytes>): Held {
    if sent == [] then map[]
    else
      var decoded := Decode(sent[|sent| - 1], 0);
      var before := Received(sent[..|sent| - 1]);
      if decoded.Ok? then Deliver(before, decoded.value) else before
  }

  lemma ReceivedNext(sent: seq<Bytes>, packet: Bytes, messages: seq<Message>)
    requires Decode(packet, 0) == Ok(messages)
    ensures Received(sent + [packet]) == Deliver(Received(sent), messages)
  {
    assert (sent + [packet])[..|sent|] == sent;
  }

  // ---- Change detection ----

  function ScalarEqual(left: Scalar, right: Scalar, epsilon: real, format: FloatFormat): bool {
    && left.kind == right.kind
    && if left.kind == FloatKind then Abs(format.number(left.bits) - format.number(right.bits)) <= epsilon
       else left.bits == right.bits
  }

  /** The received value is the scalar, up to the tolerance for floats. */
  predicate Within(value: Value, scalar: Scalar, epsilon: real, format: FloatFormat) {
    if scalar.kind == FloatKind
    then value.FloatValue? && Abs(format.number(value.bits) - format.number(scalar.bits)) <= epsilon
    else value == ValueOf(scalar)
  }

  /** The output has no encoding for what it is to send. */
  ghost predicate Unsendable(output: Output, now: Evaluated) {
    now.Broken? || (now.Present? && !Encodable(MessageOf(output.address, now.scalar)))
  }

  ghost predicate SomeUnsendable(outputs: seq<Output>, values: seq<Evaluated>) {
    exists i :: 0 <= i < |outputs| == |values| && Unsendable(outputs[i], values[i])
  }

  /** A catalog as compiled: one usable output per address. */
  ghost predicate Compiled(catalog: Catalog) {
    && Unique(catalog.outputs)
    && (forall o | o in catalog.outputs :: Usable(o))
  }

  /** Every valid cache entry is what the receiver holds for that output. */
  ghost predicate Agrees(outputs: seq<Output>, last: seq<Cached>, held: Held) {
    && |last| == |outputs|
    && forall i | 0 <= i < |outputs| && last[i].valid ::
         outputs[i].address in held && held[outputs[i].address] == [ValueOf(last[i].value)]
  }

  lemma CommitAgrees(outputs: seq<Output>, last: seq<Cached>, held: Held, p: Pending)
    requires Unique(outputs) && Agrees(outputs, last, held) && p.index < |outputs|
    ensures Agrees(outputs, last[p.index := Cached(p.value, true)], held[outputs[p.index].address := [ValueOf(p.value)]])
  {
  }

  function MessageFor(outputs: seq<Output>, p: Pending): Message
    requires p.index < |outputs|
  {
    MessageOf(outputs[p.index].address, p.value)
  }

  /** Scalars of the outputs, in output order. */
  predicate Ordered(outputs: seq<Output>, pending: seq<Pending>) {
    && (forall k | 0 <= k < |pending| :: pending[k].index < |outputs|)
    && (forall j, k | 0 <= j < k < |pending| :: pending[j].index < pending[k].index)
  }

  function MessagesFor(outputs: seq<Output>, pending: seq<Pending>): (r: seq<Message>)
    requires Ordered(outputs, pending)
    ensures |r| == |pending|
  {
    if pending == [] then []
    else MessagesFor(outputs, pending[..|pending| - 1]) + [MessageFor(outputs, pending[|pending| - 1])]
  }

  function Committed(last: seq<Cached>, pending: seq<Pending>): (r: seq<Cached>)
    requires forall k | 0 <= k < |pending| :: pending[k].index < |last|
    ensures |r| == |last|
  {
    if pending == [] then last
    else
      var p := pending[|pending| - 1];
      Committed(last, pending[..|pending| - 1])[p.index := Cached(p.value, true)]
  }

  lemma DeliverNext(outputs: seq<Output>, held: Held, pending: seq<Pending>)
    requires Ordered(outputs, pending) && pending != []
    ensures var n := |pending| - 1;
            Deliver(held, MessagesFor(outputs, pending)) ==
            Deliver(held, MessagesFor(outputs, pending[..n]))[outputs[pending[n].index].address := [ValueOf(pending[n].value)]]
  {
    var n, messages := |pending| - 1, MessagesFor(outputs, pending);
    assert messages[..n] == MessagesFor(outputs, pending[..n]);
  }

  /** Committing what was delivered keeps cache and receiver in agreement. */
  lemma {:induction false} CommittedAgrees(outputs: seq<Output>, last: seq<Cached>, held: Held, pending: seq<Pending>)
    requires Unique(outputs) && Agrees(outputs, last, held) && Ordered(outputs, pending)
    ensures Agrees(outputs, Committed(last, pending), Deliver(held, MessagesFor(outputs, pending)))
  {
    if pending != [] {
      var n := |pending| - 1;
      CommittedAgrees(outputs, last, held, pending[..n]);
      DeliverNext(outputs, held, pending);
      CommitAgrees(outputs, Committed(last, pending[..n]), Deliver(held, MessagesFor(outputs, pending[..n])), pending[n]);
    }
  }

  lemma {:induction false} CommittedAt(outputs: seq<Output>, last: seq<Cached>, pending: seq<Pending>, i: nat)
    requires Ordered(outputs, pending) && i < |last| == |outputs|
    ensures forall k | 0 <= k < |pending| && pending[k].index == i :: Committed(last, pending)[i] == Cached(pending[k].value, true)
    ensures (forall k | 0 <= k < |pending| :: pending[k].index != i) ==> Committed(last, pending)[i] == last[i]
  {
    if pending != [] { CommittedAt(outputs, last, pending[..|pending| - 1], i); }
  }

  // ---- What sending promises ----

  /** The packet decodes to exactly these scalars of the outputs, in output order. */
  ghost predicate Carries(packet: Bytes, outputs: seq<Output>, pending: seq<Pending>) {
    Ordered(outputs, pending) && Decode(packet, 0) == Ok(MessagesFor(outputs, pending))
  }

  /** What every output is to send for a source. */
  function Evaluations(outputs: seq<Output>, source: Source, format: FloatFormat): (r: seq<Evaluated>)
    ensures |r| == |outputs|
  {
    seq(|outputs|, i requires 0 <= i < |outputs| => EvaluateOutput(outputs[i], source, format))
  }

  predicate Current(pending: seq<Pending>, values: seq<Evaluated>) {
    forall k | 0 <= k < |pending| :: pending[k].index < |values| && values[pending[k].index] == Present(pending[k].value)
  }

  /** The packet carries current values, and nothing else. */
  ghost predicate Faithful(packet: Bytes, outputs: seq<Output>, values: seq<Evaluated>) {
    exists pending :: Carries(packet, outputs, pending) && Current(pending, values)
  }

  /** More packets were accepted, all of them faithful. */
  ghost predicate Extended(before: seq<Bytes>, sent: seq<Bytes>, outputs: seq<Output>, values: seq<Evaluated>) {
    && before <= sent
    && forall k | |before| <= k < |sent| :: Faithful(sent[k], outputs, values)
  }

  /** One more packet was accepted: a bundle of exactly these scalars that fits a datagram. */
  ghost predicate BundleSent(before: seq<Bytes>, sent: seq<Bytes>, maxDatagram: int, outputs: seq<Output>, pending: seq<Pending>) {
    exists packet | Carries(packet, outputs, pending) ::
      sent == before + [packet] && BundleTag() <= packet && |packet| <= maxDatagram
  }

  lemma ExtendedTwice(a: seq<Bytes>, b: seq<Bytes>, c: seq<Bytes>, outputs: seq<Output>, values: seq<Evaluated>)
    requires Extended(a, b, outputs, values) && Extended(b, c, outputs, values)
    ensures Extended(a, c, outputs, values)
  {
  }

  lemma ExtendedByOne(before: seq<Bytes>, packet: Bytes, outputs: seq<Output>, pending: seq<Pending>, values: seq<Evaluated>)
    requires Carries(packet, outputs, pending) && Current(pending, values)
    ensures Extended(before, before + [packet], outputs, values)
  {
    assert Faithful(packet, outputs, values);
  }

  /** Accepted packets decode; a bundle among them is at most a datagram long. */
  ghost predicate SentWell(sent: seq<Bytes>, maxDatagram: int) {
    forall k | 0 <= k < |sent| :: Decode(sent[k], 0).Ok? && (BundleTag() <= sent[k] ==> |sent[k]| <= maxDatagram)
  }

  /** The cached value of an output is valid and close to its current one. */
  predicate Settled(now: Evaluated, entry: Cached, epsilon: real, format: FloatFormat) {
    now.Present? ==> entry.valid && ScalarEqual(entry.value, now.scalar, epsilon, format)
  }

  predicate SettledUpTo(n: nat, values: seq<Evaluated>, last: seq<Cached>, epsilon: real, format: FloatFormat)
    requires n <= |values| == |last|
  {
    forall i | 0 <= i < n :: Settled(values[i], last[i], epsilon, format)
  }

  predicate AllSettled(values: seq<Evaluated>, last: seq<Cached>, epsilon: real, format: FloatFormat) {
    |last| == |values| && SettledUpTo(|values|, values, last, epsilon, format)
  }

  /** The receiver holds every current value, up to the tolerance. */
  ghost predicate UpToDate(outputs: seq<Output>, held: Held, values: seq<Evaluated>, epsilon: real, format: FloatFormat)
    requires |values| == |outputs|
  {
    forall i | 0 <= i < |outputs| && values[i].Present? ::
      && outputs[i].address in held
      && |held[outputs[i].address]| == 1
      && Within(held[outputs[i].address][0], values[i].scalar, epsilon, format)
  }

  lemma SettledIsUpToDate(outputs: seq<Output>, last: seq<Cached>, held: Held, values: seq<Evaluated>, epsilon: real, format: FloatFormat)
    requires |values| == |outputs|
    requires Agrees(outputs, last, held) && AllSettled(values, last, epsilon, format)
    ensures UpToDate(outputs, held, values, epsilon, format)
  {
    forall i | 0 <= i < |outputs| && values[i].Present?
      ensures
        && outputs[i].address in held
        && |held[outputs[i].address]| == 1
        && Within(held[outputs[i].address][0], values[i].scalar, epsilon, format)
    {
      assert Settled(values[i], last[i], epsilon, format);
    }
  }

  /** Among these catalogs equal hashes mean equal outputs. */
  ghost predicate CollisionFree(catalogs: set<Catalog>) {
    forall a, b | a in catalogs && b in catalogs && a.hash == b.hash :: a.outputs == b.outputs
  }

  /** Cache, catalog and accepted packets fit together. */
  ghost predicate Consistent(catalog: Option<Catalog>, last: seq<Cached>, sent: seq<Bytes>, maxDatagram: int) {
    && SentWell(sent, maxDatagram)
    && (catalog.None? ==> last == [])
    && (catalog.Some? ==>
      && Compiled(catalog.value)
      && Agrees(catalog.value.outputs, last, Received(sent)))
  }

  /** One packet later: what it carried is committed. */
  lemma DeliveredIsConsistent(catalog: Catalog, last: seq<Cached>, sent: seq<Bytes>, maxDatagram: int,
                              packet: Bytes, pending: seq<Pending>)
    requires Consistent(Some(catalog), last, sent, maxDatagram)
    requires Carries(packet, catalog.outputs, pending)
    requires BundleTag() <= packet ==> |packet| <= maxDatagram
    ensures Consistent(Some(catalog), Committed(last, pending), sent + [packet], maxDatagram)
  {
    var messages := MessagesFor(catalog.outputs, pending);
    SentWellNext(sent, packet, maxDatagram);
    CommittedAgrees(catalog.outputs, last, Received(sent), pending);
    ReceivedNext(sent, packet, messages);
    assert Agrees(catalog.outputs, Committed(last, pending), Received(sent + [packet]));
  }

  lemma SentWellNext(sent: seq<Bytes>, packet: Bytes, maxDatagram: int)
    requires SentWell(sent, maxDatagram)
    requires Decode(packet, 0).Ok? && (BundleTag() <= packet ==> |packet| <= maxDatagram)
    ensures SentWell(sent + [packet], maxDatagram)
  {
  }

  lemma OneMessagePacket(outputs: seq<Output>, p: Pending)
    requires p.index < |outputs| && Encodable(MessageFor(outputs, p))
    ensures Carries(Wire(MessageFor(outputs, p)), outputs, [p])
    ensures !(BundleTag() <= Wire(MessageFor(outputs, p)))
  {
    MessageRoundTrip(MessageFor(outputs, p), 0);
    WireStartsWithSlash(MessageFor(outputs, p));
    assert MessagesFor(outputs, [p]) == [MessageFor(outputs, p)];
  }

  /** A packet of current values was accepted, and they are committed. */
  lemma {:induction false} PacketDelivered(catalog: Catalog, last: seq<Cached>, sent: seq<Bytes>, maxDatagram: int, pending: seq<Pending>,
                                           packet: Bytes, values: seq<Evaluated>)
    requires Consistent(Some(catalog), last, sent, maxDatagram) && Carries(packet, catalog.outputs, pending) && Current(pending, values)
    requires BundleTag() <= packet ==> |packet| <= maxDatagram
    ensures Consistent(Some(catalog), Committed(last, pending), sent + [packet], maxDatagram)
    ensures Extended(sent, sent + [packet], catalog.outputs, values)
  {
    DeliveredIsConsistent(catalog, last, sent, maxDatagram, packet, pending);
    ExtendedByOne(sent, packet, catalog.outputs, pending, values);
  }

  lemma CommittedOne(last: seq<Cached>, p: Pending)
    requires p.index < |last|
    ensures Committed(last, [p]) == last[p.index := Cached(p.value, true)]
  {
    assert [p][..0] == [];
    assert Committed(last, []) == last;
  }

  /** The same of one scalar in a packet of its own. */
  lemma OneDelivered(catalog: Catalog, last: seq<Cached>, sent: seq<Bytes>, maxDatagram: int, p: Pending, packet: Bytes, values: seq<Evaluated>)
    requires Consistent(Some(catalog), last, sent, maxDatagram) && p.index < |catalog.outputs| && |values| == |catalog.outputs|
    requires values[p.index] == Present(p.value)
    requires Encodable(MessageFor(catalog.outputs, p)) && packet == Wire(MessageFor(catalog.outputs, p))
    ensures Consistent(Some(catalog), last[p.index := Cached(p.value, true)], sent + [packet], maxDatagram)
    ensures Extended(sent, sent + [packet], catalog.outputs, values)
  {
    OneMessagePacket(catalog.outputs, p);
    CommittedOne(last, p);
    PacketDelivered(catalog, last, sent, maxDatagram, [p], packet, values);
  }

  datatype SendResult = NoSource | NoCatalog | Sent | Failed

  class ParameterSender {
    const epsilon: real
    const maxDatagram: Int32
    const useBundles: bool
    const format: FloatFormat
    const bundle: BundleBuilder
    var state: SenderState

    /** The packets the transport has accepted. */
    ghost var sent: seq<Bytes>

    /** How many packets it has refused. */
    ghost var refused: nat

    ghost predicate Valid()
      reads this, bundle
    {
      && bundle.Valid() && bundle.maxDatagram == maxDatagram
      && epsilon > 0.0
      && Consistent(state.catalog, state.last, sent, maxDatagram)
    }

    /** Missing or senseless settings fall back to 0.001 and 1200 bytes. */
    constructor (epsilon: real, maxDatagram: Int32, useBundles: bool, format: FloatFormat)
      ensures Valid() && fresh(bundle) && sent == [] && state == SenderState(None, [], [])
      ensures this.epsilon == (if epsilon <= 0.0 then 0.001 else epsilon)
      ensures this.maxDatagram == if maxDatagram <= 0 then 1200 else maxDatagram
      ensures this.useBundles == useBundles && this.format == format
    {
      this.epsilon := if epsilon <= 0.0 then 0.001 else epsilon;
      var size: Int32 := if maxDatagram <= 0 then 1200 else maxDatagram;
      this.maxDatagram := size;
      this.useBundles := useBundles;
      this.format := format;
      bundle := new BundleBuilder(size);
      state := SenderState(None, [], []);
      sent, refused := [], 0;
    }

    /** The cache survives only a catalog with the same hash and size. */
    method SetCatalog(catalog: Option<Catalog>)
      requires Valid() && (catalog.Some? ==> Compiled(catalog.value))
      requires state.catalog.Some? && catalog.Some? ==> CollisionFree({state.catalog.value, catalog.value})
      modifies this`state
      ensures Valid() && state.catalog == catalog
      ensures catalog.Some? && old(state).catalog == catalog ==> state.last == old(state).last
      ensures catalog.Some? && old(state).catalog != catalog ==> forall i | 0 <= i < |state.last| :: !state.last[i].valid
    {
      var previous := state.catalog;
      if previous.None? || catalog.None? || previous.value.hash != catalog.value.hash
         || |state.last| != |catalog.value.outputs|
      {
        if catalog.None? {
          state := SenderState(None, [], []);
          return;
        }
        var empty := Cached(Scalar(UnknownKind, 0), false);
        state := SenderState(catalog, seq(|catalog.value.outputs|, _ => empty), []);
      } else {
        state := state.(catalog := catalog);
      }
    }

    method ResetChangeDetection()
      requires Valid()
      modifies this`state
      ensures Valid()
      ensures state.catalog == old(state).catalog && |state.last| == |old(state).last|
      ensures forall i | 0 <= i < |state.last| :: state.last[i] == old(state).last[i].(valid := false)
    {
      var last := Invalidated(state.last);
      state := state.(last := last);
    }

    /** Hands a packet over; the transport may refuse it. */
    method TransportSend(packet: Bytes) returns (accepted: bool)
      modifies this`sent, this`refused
      ensures sent == if accepted then old(sent) + [packet] else old(sent)
      ensures refused == if accepted then old(refused) else old(refused) + 1
    {
      accepted := *;
      if accepted { sent := sent + [packet]; } else { refused := refused + 1; }
    }

    predicate Changed(index: nat, value: Scalar)
      reads this`state
      requires index < |state.last|
    {
      !state.last[index].valid || !ScalarEqual(state.last[index].value, value, epsilon, format)
    }

    /** Sends one scalar in a packet of its own. */
    method SendScalar(outputs: seq<Output>, index: nat, value: Scalar, ghost values: seq<Evaluated>) returns (ok: bool)
      requires Valid() && state.catalog.Some? && outputs == state.catalog.value.outputs && index < |outputs|
      requires |values| == |outputs| && values[index] == Present(value)
      modifies this`state, this`sent, this`refused
      ensures refused >= old(refused) && (!ok ==> refused > old(refused) || Unsendable(outputs[index], Present(value)))
      ensures Valid()
      ensures ok ==> state == old(state).(last := old(state).last[index := Cached(value, true)])
      ensures ok ==> |sent| == |old(sent)| + 1
      ensures Extended(old(sent), sent, outputs, values)
      ensures !ok ==> state == old(state) && sent == old(sent)
    {
      var packet := AppendScalarMessage([], outputs[index].address, value);
      if packet.Err? { return false; }
      ok := SendPacket(outputs, index, value, packet.value, values);
    }

    method SendPacket(outputs: seq<Output>, index: nat, value: Scalar, packet: Bytes, ghost values: seq<Evaluated>) returns (ok: bool)
      requires Valid() && state.catalog.Some? && outputs == state.catalog.value.outputs && index < |outputs|
      requires |values| == |outputs| && values[index] == Present(value)
      requires Encodable(MessageFor(outputs, Pending(index, value))) && packet == Wire(MessageFor(outputs, Pending(index, value)))
      modifies this`state, this`sent, this`refused
      ensures refused >= old(refused) && (!ok ==> refused > old(refused))
      ensures Valid()
      ensures ok ==> state == old(state).(last := old(state).last[index := Cached(value, true)])
      ensures ok ==> |sent| == |old(sent)| + 1
      ensures Extended(old(sent), sent, outputs, values)
      ensures !ok ==> state == old(state) && sent == old(sent)
    {
      OneDelivered(state.catalog.value, state.last, sent, maxDatagram, Pending(index, value), packet, values);
      ok := TransportSend(packet);
      if ok { state := state.(last := state.last[index := Cached(value, true)]); }
    }

    method SendStandalone(outputs: seq<Output>, source: Source, ghost values: seq<Evaluated>) returns (ok: bool)
      requires Valid() && state.catalog.Some? && outputs == state.catalog.value.outputs
      requires values == Evaluations(outputs, source, format)
      modifies this`state, this`sent, this`refused
      ensures refused >= old(refused) && (!ok ==> refused > old(refused) || SomeUnsendable(outputs, values))
      ensures Valid() && state.catalog == old(state).catalog
      ensures ok ==> AllSettled(values, state.last, epsilon, format)
      ensures Extended(old(sent), sent, outputs, values)
      ensures old(AllSettled(values, state.last, epsilon, format)) ==> state == old(state) && sent == old(sent)
    {
      ghost var quiet := AllSettled(values, state.last, epsilon, format);
      for index := 0 to |outputs|
        invariant Valid() && state.catalog == old(state).catalog
        invariant SettledUpTo(index, values, state.last, epsilon, format)
        invariant Extended(old(sent), sent, outputs, values) && refused >= old(refused)
        invariant quiet ==> state == old(state) && sent == old(sent)
      {
        ghost var before := sent;
        var now := EvaluateOutput(outputs[index], source, format);
        ok := SendIfChanged(outputs, index, now, values);
        ExtendedTwice(old(sent), before, sent, outputs, values);
        if !ok { return; }
      }
      return true;
    }

    method SendIfChanged(outputs: seq<Output>, index: nat, now: Evaluated, ghost values: seq<Evaluated>) returns (ok: bool)
      requires Valid() && state.catalog.Some? && outputs == state.catalog.value.outputs && index < |outputs|
      requires |values| == |outputs| && values[index] == now
      requires SettledUpTo(index, values, state.last, epsilon, format)
      modifies this`state, this`sent, this`refused
      ensures refused >= old(refused) && (!ok ==> refused > old(refused) || Unsendable(outputs[index], now))
      ensures Valid() && state.catalog == old(state).catalog
      ensures ok ==> SettledUpTo(index + 1, values, state.last, epsilon, format)
      ensures Extended(old(sent), sent, outputs, values)
      ensures Settled(now, old(state).last[index], epsilon, format) ==> state == old(state) && sent == old(sent)
    {
      ok := !now.Broken?;
      if now.Present? && Changed(index, now.scalar) {
        SettledNext(index, now.scalar, values, state.last, epsilon, format);
        ok := SendScalar(outputs, index, now.scalar, values);
      }
    }

    // ---- Bundles ----

    /** In a bundled send after n outputs: the bundle holds the pending scalars, and with them n outputs are settled. */
    ghost predicate Batching(n: nat, outputs: seq<Output>, values: seq<Evaluated>)
      reads this, bundle
    {
      && Valid() && state.catalog.Some? && outputs == state.catalog.value.outputs
      && Batch(n, state.last, state.pending, bundle.messages, outputs, values, epsilon, format)
    }

    /** Sends the bundle as one packet that carries exactly the pending scalars, and commits them only if it was accepted. */
    method FlushBundle(ghost n: nat, outputs: seq<Output>, ghost values: seq<Evaluated>) returns (ok: bool)
      requires Batching(n, outputs, values)
      modifies this`state, this`sent, this`refused, bundle
      ensures refused >= old(refused) && (!ok ==> refused > old(refused))
      ensures Batching(n, outputs, values)
      ensures ok ==> state == old(state).(last := Committed(old(state).last, old(state).pending), pending := [])
      ensures ok && old(state).pending == [] ==> state == old(state) && sent == old(sent)
      ensures ok && old(state).pending != [] ==> BundleSent(old(sent), sent, maxDatagram, outputs, old(state).pending)
      ensures !ok ==> state == old(state) && sent == old(sent)
      ensures Extended(old(sent), sent, outputs, values)
    {
      var empty := bundle.Empty();
      ok := true;
      if !empty { ok := SendPending(n, outputs, values); }
    }

    method SendPending(ghost n: nat, outputs: seq<Output>, ghost values: seq<Evaluated>) returns (ok: bool)
      requires Batching(n, outputs, values) && bundle.messages != []
      modifies this`state, this`sent, this`refused, bundle
      ensures refused >= old(refused) && (!ok ==> refused > old(refused))
      ensures Batching(n, outputs, values)
      ensures ok ==> BundleSent(old(sent), sent, maxDatagram, outputs, old(state).pending)
      ensures ok ==> state == old(state).(last := Committed(old(state).last, old(state).pending), pending := [])
      ensures !ok ==> state == old(state) && sent == old(sent)
      ensures Extended(old(sent), sent, outputs, values)
    {
      var packet := bundle.buffer;
      ok := TransportSend(packet);
      if ok {
        BundleDelivered(old(sent), packet, n, outputs, values);
        BatchFlushed(n, state.last, state.pending, bundle.messages, outputs, values, epsilon, format);
        var last := CommitAll(state.last, state.pending);
        state := state.(last := last, pending := []);
        bundle.Reset();
      }
    }

    lemma BundleDelivered(before: seq<Bytes>, packet: Bytes, n: nat, outputs: seq<Output>, values: seq<Evaluated>)
      requires bundle.Valid() && bundle.maxDatagram == maxDatagram && bundle.messages != [] && packet == bundle.buffer
      requires state.catalog.Some? && outputs == state.catalog.value.outputs
      requires Consistent(state.catalog, state.last, before, maxDatagram)
      requires Batch(n, state.last, state.pending, bundle.messages, outputs, values, epsilon, format)
      ensures Consistent(state.catalog, Committed(state.last, state.pending), before + [packet], maxDatagram)
      ensures BundleSent(before, before + [packet], maxDatagram, outputs, state.pending)
      ensures Extended(before, before + [packet], outputs, values)
    {
      BundleOfDecodes(bundle.messages);
      DeliveredIsConsistent(state.catalog.value, state.last, before, maxDatagram, packet, state.pending);
      ExtendedByOne(before, packet, outputs, state.pending, values);
    }

    method SendBundle(outputs: seq<Output>, source: Source, ghost values: seq<Evaluated>) returns (ok: bool)
      requires Valid() && state.catalog.Some? && outputs == state.catalog.value.outputs
      requires values == Evaluations(outputs, source, format)
      modifies this`state, this`sent, this`refused, bundle
      ensures refused >= old(refused) && (!ok ==> refused > old(refused) || SomeUnsendable(outputs, values))
      ensures Valid() && state.catalog == old(state).catalog
      ensures ok ==> AllSettled(values, state.last, epsilon, format)
      ensures Extended(old(sent), sent, outputs, values)
      ensures old(AllSettled(values, state.last, epsilon, format)) ==> state.last == old(state).last && sent == old(sent)
    {
      bundle.Reset();
      state := state.(pending := []);
      assert Committed(state.last, []) == state.last;
      ok := BundleChanged(outputs, source, values);
      if !ok { return; }
      ghost var before := sent;
      ok := FlushBundle(|outputs|, outputs, values);
      ExtendedTwice(old(sent), before, sent, outputs, values);
      assert Committed(state.last, []) == state.last;
    }

    /** Puts every changed value in the bundle, or out on its own. */
    method BundleChanged(outputs: seq<Output>, source: Source, ghost values: seq<Evaluated>) returns (ok: bool)
      requires Batching(0, outputs, values) && values == Evaluations(outputs, source, format)
      modifies this`state, this`sent, this`refused, bundle
      ensures refused >= old(refused) && (!ok ==> refused > old(refused) || SomeUnsendable(outputs, values))
      ensures state.catalog == old(state).catalog && Valid()
      ensures ok ==> Batching(|outputs|, outputs, values)
      ensures Extended(old(sent), sent, outputs, values)
      ensures old(AllSettled(values, state.last, epsilon, format)) ==> state == old(state) && sent == old(sent)
    {
      ghost var quiet := AllSettled(values, state.last, epsilon, format);
      for index := 0 to |outputs|
        invariant Batching(index, outputs, values) && state.catalog == old(state).catalog
        invariant Extended(old(sent), sent, outputs, values) && refused >= old(refused)
        invariant quiet ==> state == old(state) && sent == old(sent)
      {
        ghost var before := sent;
        var now := EvaluateOutput(outputs[index], source, format);
        ok := BundleIfChanged(outputs, index, now, values);
        ExtendedTwice(old(sent), before, sent, outputs, values);
        if !ok { return; }
      }
      return true;
    }

    method BundleIfChanged(outputs: seq<Output>, index: nat, now: Evaluated, ghost values: seq<Evaluated>) returns (ok: bool)
      requires Batching(index, outputs, values) && index < |outputs| && values[index] == now
      modifies this`state, this`sent, this`refused, bundle
      ensures refused >= old(refused) && (!ok ==> refused > old(refused) || Unsendable(outputs[index], now))
      ensures state.catalog == old(state).catalog
      ensures Batching(if ok then index + 1 else index, outputs, values)
      ensures Extended(old(sent), sent, outputs, values)
      ensures Settled(now, old(state).last[index], epsilon, format) ==> state == old(state) && sent == old(sent)
    {
      if now.Present? && Changed(index, now.scalar) {
        ok := BundleScalar(outputs, index, now.scalar, values);
      } else {
        ok := !now.Broken?;
        BatchSkips(index, state.last, state.pending, bundle.messages, outputs, values, epsilon, format);
      }
    }

    /** Puts a changed scalar in the bundle, or after a flush in the next one, or in a packet of its own. */
    method BundleScalar(outputs: seq<Output>, index: nat, value: Scalar, ghost values: seq<Evaluated>) returns (ok: bool)
      requires Batching(index, outputs, values) && index < |outputs|
      requires |values| == |outputs| && values[index] == Present(value)
      modifies this`state, this`sent, this`refused, bundle
      ensures refused >= old(refused) && (!ok ==> refused > old(refused) || Unsendable(outputs[index], Present(value)))
      ensures state.catalog == old(state).catalog
      ensures Batching(if ok then index + 1 else index, outputs, values)
      ensures Extended(old(sent), sent, outputs, values)
    {
      var appended := AppendPending(outputs, index, value, values);
      if appended.Err? { return false; }
      var empty := bundle.Empty();
      if !appended.value && !empty {
        ok := FlushBundle(index, outputs, values);
        if !ok { return; }
        appended := AppendPending(outputs, index, value, values);
        if appended.Err? { return false; }
      }
      if appended.value { return true; }
      ghost var before := sent;
      ok := SendAlone(outputs, index, value, values);
      ExtendedTwice(old(sent), before, sent, outputs, values);
    }

    method AppendPending(outputs: seq<Output>, index: nat, value: Scalar, ghost values: seq<Evaluated>) returns (appended: Result<bool>)
      requires Batching(index, outputs, values) && index < |outputs|
      requires |values| == |outputs| && values[index] == Present(value)
      modifies this`state, bundle
      ensures appended.Err? ==> Unsendable(outputs[index], Present(value))
      ensures state.catalog == old(state).catalog
      ensures Batching(if appended == Ok(true) then index + 1 else index, outputs, values)
      ensures appended != Ok(true) ==> state == old(state) && bundle.messages == old(bundle.messages)
    {
      appended := bundle.AppendScalar(outputs[index].address, value);
      if appended == Ok(true) { Pend(outputs, Pending(index, value), old(bundle.messages), values); }
    }

    /** The scalar that was just put in the bundle becomes pending. */
    method Pend(outputs: seq<Output>, p: Pending, ghost before: seq<Message>, ghost values: seq<Evaluated>)
      requires Valid() && state.catalog.Some? && outputs == state.catalog.value.outputs && p.index < |outputs|
      requires Batch(p.index, state.last, state.pending, before, outputs, values, epsilon, format)
      requires bundle.messages == before + [MessageFor(outputs, p)] && values[p.index] == Present(p.value)
      modifies this`state
      ensures Batching(p.index + 1, outputs, values) && state.catalog == old(state).catalog
    {
      BatchNext(state.last, state.pending, before, p, outputs, values, epsilon, format);
      state := state.(pending := state.pending + [p]);
    }

    method SendAlone(outputs: seq<Output>, index: nat, value: Scalar, ghost values: seq<Evaluated>) returns (ok: bool)
      requires Batching(index, outputs, values) && index < |outputs| && state.pending == []
      requires |values| == |outputs| && values[index] == Present(value)
      modifies this`state, this`sent, this`refused
      ensures refused >= old(refused) && (!ok ==> refused > old(refused) || Unsendable(outputs[index], Present(value)))
      ensures state.catalog == old(state).catalog
      ensures Batching(if ok then index + 1 else index, outputs, values)
      ensures Extended(old(sent), sent, outputs, values)
    {
      ghost var p := Pending(index, value);
      BatchNext(state.last, [], [], p, outputs, values, epsilon, format);
      BatchFlushed(index + 1, state.last, [p], [MessageFor(outputs, p)], outputs, values, epsilon, format);
      CommittedOne(state.last, p);
      ok := SendScalar(outputs, index, value, values);
    }

    /** What the installed outputs are to send for a source. */
    function Wanted(source: Source): seq<Evaluated>
      reads this`state
      requires state.catalog.Some?
    {
      Evaluations(state.catalog.value.outputs, source, format)
    }

    /** Every value of the source is cached already, up to the tolerance. */
    predicate Quiet(source: Option<Source>)
      reads this`state
    {
      source.Some? && state.catalog.Some? && AllSettled(Wanted(source.value), state.last, epsilon, format)
    }

    /**
     Sends what has changed. Whatever the transport refused before, a send that ends
     well leaves the receiver with every current value; only current values are sent;
     and when all values are settled nothing is sent.
     */
    method Send(source: Option<Source>) returns (r: SendResult)
      requires Valid()
      modifies this`state, this`sent, this`refused, bundle
      ensures r == Failed ==> refused > old(refused)
      ensures Valid() && state.catalog == old(state).catalog
      ensures r == NoSource <==> source.None?
      ensures r == NoCatalog <==> source.Some? && state.catalog.None?
      ensures r == NoSource || r == NoCatalog ==> state == old(state) && sent == old(sent)
      ensures r == Sent ==> UpToDate(state.catalog.value.outputs, Received(sent), Wanted(source.value), epsilon, format)
      ensures source.Some? && state.catalog.Some? ==> Extended(old(sent), sent, state.catalog.value.outputs, Wanted(source.value))
      ensures old(Quiet(source)) ==> sent == old(sent)
    {
      if source.None? { return NoSource; }
      if state.catalog.None? { return NoCatalog; }
      var outputs := state.catalog.value.outputs;
      ghost var values := Evaluations(outputs, source.value, format);
      NoneUnsendable(outputs, source.value, format);
      var ok;
      if useBundles {
        ok := SendBundle(outputs, source.value, values);
      } else {
        ok := SendStandalone(outputs, source.value, values);
      }
      if !ok { return Failed; }
      SettledIsUpToDate(outputs, state.last, Received(sent), values, epsilon, format);
      return Sent;
    }
  }

  /** Everything that a compiled catalog has to send can be encoded. */
  lemma NoneUnsendable(outputs: seq<Output>, source: Source, format: FloatFormat)
    requires forall o | o in outputs :: Usable(o)
    ensures !SomeUnsendable(outputs, Evaluations(outputs, source, format))
  {
    forall i | 0 <= i < |outputs| ensures !Unsendable(outputs[i], EvaluateOutput(outputs[i], source, format)) {
      var now := EvaluateOutput(outputs[i], source, format);
      UsableIsNeverBroken(outputs[i], source, format);
      if now.Present? { SendableIsEncodable(outputs[i].address, now.scalar); }
    }
  }

  lemma SettledNext(n: nat, value: Scalar, values: seq<Evaluated>, last: seq<Cached>, epsilon: real, format: FloatFormat)
    requires n < |values| == |last| && SettledUpTo(n, values, last, epsilon, format) && epsilon > 0.0
    requires values[n] == Present(value)
    ensures SettledUpTo(n + 1, values, last[n := Cached(value, true)], epsilon, format)
  {
    SelfEqual(value, epsilon, format);
  }

  lemma SelfEqual(value: Scalar, epsilon: real, format: FloatFormat)
    requires epsilon > 0.0
    ensures ScalarEqual(value, value, epsilon, format)
  {
  }

  method Invalidated(last: seq<Cached>) returns (r: seq<Cached>)
    ensures |r| == |last| && forall i | 0 <= i < |last| :: r[i] == last[i].(valid := false)
  {
    r := last;
    for index := 0 to |last|
      invariant |r| == |last|
      invariant forall i | 0 <= i < |last| :: r[i] == if i < index then last[i].(valid := false) else last[i]
    {
      r := r[index := r[index].(valid := false)];
    }
  }

  method CommitAll(last: seq<Cached>, pending: seq<Pending>) returns (r: seq<Cached>)
    requires forall k | 0 <= k < |pending| :: pending[k].index < |last|
    ensures r == Committed(last, pending)
  {
    r := last;
    for k := 0 to |pending|
      invariant r == Committed(last, pending[..k])
    {
      assert pending[..k + 1][..k] == pending[..k];
      r := r[pending[k].index := Cached(pending[k].value, true)];
    }
    assert pending[..|pending|] == pending;
  }

  /** After n outputs: these messages are the pending scalars, and once committed those settle all n outputs. */
  ghost predicate Batch(n: nat, last: seq<Cached>, pending: seq<Pending>, messages: seq<Message>,
                        outputs: seq<Output>, values: seq<Evaluated>, epsilon: real, format: FloatFormat) {
    && n <= |outputs| == |last| == |values|
    && Ordered(outputs, pending) && (forall k | 0 <= k < |pending| :: pending[k].index < n)
    && Current(pending, values)
    && messages == MessagesFor(outputs, pending)
    && SettledUpTo(n, values, Committed(last, pending), epsilon, format)
  }

  lemma BatchFlushed(n: nat, last: seq<Cached>, pending: seq<Pending>, messages: seq<Message>,
                     outputs: seq<Output>, values: seq<Evaluated>, epsilon: real, format: FloatFormat)
    requires Batch(n, last, pending, messages, outputs, values, epsilon, format)
    ensures Batch(n, Committed(last, pending), [], [], outputs, values, epsilon, format)
  {
    assert Committed(Committed(last, pending), []) == Committed(last, pending);
  }

  /** An output that is settled already needs no scalar. */
  lemma BatchSkips(n: nat, last: seq<Cached>, pending: seq<Pending>, messages: seq<Message>,
                   outputs: seq<Output>, values: seq<Evaluated>, epsilon: real, format: FloatFormat)
    requires Batch(n, last, pending, messages, outputs, values, epsilon, format) && n < |outputs|
    requires Settled(values[n], last[n], epsilon, format)
    ensures Batch(n + 1, last, pending, messages, outputs, values, epsilon, format)
  {
    CommittedAt(outputs, last, pending, n);
  }

  /** One more pending scalar settles one more output. */
  lemma BatchNext(last: seq<Cached>, pending: seq<Pending>, messages: seq<Message>, p: Pending,
                  outputs: seq<Output>, values: seq<Evaluated>, epsilon: real, format: FloatFormat)
    requires Batch(p.index, last, pending, messages, outputs, values, epsilon, format) && p.index < |outputs|
    requires values[p.index] == Present(p.value) && epsilon > 0.0
    ensures Batch(p.index + 1, last, pending + [p], messages + [MessageFor(outputs, p)], outputs, values, epsilon, format)
  {
    var more := pending + [p];
    assert more[..|pending|] == pending && more[|more| - 1] == p;
    assert Ordered(outputs, more) && Current(more, values);
    var settled := Committed(last, more);
    assert settled == Committed(last, pending)[p.index := Cached(p.value, true)];
    SelfEqual(p.value, epsilon, format);
    forall i | 0 <= i < p.index + 1 ensures Settled(values[i], settled[i], epsilon, format) {
      if i < p.index { assert settled[i] == Committed(last, pending)[i]; }
    }
  }

  // ---- Runs ----

  datatype SenderEvent = Install(catalog: Option<Catalog>) | Reset | Attempt(source: Option<Source>)

  /** The catalogs of a run. */
  ghost function Installed(events: seq<SenderEvent>): set<Catalog> {
    set i | 0 <= i < |events| && events[i].Install? && events[i].catalog.Some? :: events[i].catalog.value
  }

  /** The catalog that was installed last. */
  function LastInstalled(events: seq<SenderEvent>): Option<Catalog> {
    if events == [] then None
    else if events[|events| - 1].Install? then events[|events| - 1].catalog
    else LastInstalled(events[..|events| - 1])
  }

  /**
   After every run of catalog swaps, resets and sends over a transport that may
   refuse anything: each valid cache entry is what the receiver, decoding the accepted
   packets, holds for that output; and if the last send ended well, the receiver
   holds every current value.
   */
  method RunSender(epsilon: real, maxDatagram: Int32, useBundles: bool, format: FloatFormat,
                   events: seq<SenderEvent>, source: Source)
    returns (state: SenderState, r: SendResult, ghost sent: seq<Bytes>)
    requires forall c | c in Installed(events) :: Compiled(c)
    requires CollisionFree(Installed(events))
    ensures state.catalog == LastInstalled(events) && (state.catalog.Some? ==> Compiled(state.catalog.value))
    ensures state.catalog.Some? ==> Agrees(state.catalog.value.outputs, state.last, Received(sent))
    ensures r == NoCatalog <==> state.catalog.None?
    ensures r == Sent ==> UpToDate(state.catalog.value.outputs, Received(sent),
                                   Evaluations(state.catalog.value.outputs, source, format),
                                   if epsilon <= 0.0 then 0.001 else epsilon, format)
    ensures SentWell(sent, if maxDatagram <= 0 then 1200 else maxDatagram)
  {
    var sender := new ParameterSender(epsilon, maxDatagram, useBundles, format);
    for i := 0 to |events|
      invariant sender.Valid() && fresh(sender) && fresh(sender.bundle)
      invariant sender.state.catalog == LastInstalled(events[..i])
      invariant sender.state.catalog.Some? ==> sender.state.catalog.value in Installed(events)
    {
      assert events[..i + 1][..i] == events[..i];
      match events[i] {
        case Install(catalog) =>
          sender.SetCatalog(catalog);
        case Reset => sender.ResetChangeDetection();
        case Attempt(wanted) => r := sender.Send(wanted);
      }
    }
    assert events[..|events|] == events;
    r := sender.Send(Some(source));
    state, sent := sender.state, sender.sent;
  }
}
