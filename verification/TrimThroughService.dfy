/**
 A run of the merge service on full frames beside one on trimmed frames. The trimmed
 service publishes less often and reads its clock at other moments, but it accepts the
 same frames, routes every group that is subscribed to from the same source, and what
 it merges is what the subscription keeps of the full merge.
 */
module TrimThroughService {
  import opened Common
  import opened TrackingModel
  import opened Subscriptions
  import opened Tracking
  import opened TrimmedSources

  /** Sources with the same frames and the same bookkeeping, received at whatever times. */
  ghost predicate SameSources(a: Sources, b: Sources) {
    a.Keys == b.Keys && forall id | id in a :: SameSource(a[id], b[id])
  }

  predicate SameSource(a: SourceState, b: SourceState) {
    a.(receivedAtNS := 0) == b.(receivedAtNS := 0)
  }

  /** A merged frame without its sequence and its times. */
  function Untimed(f: MergedFrame): MergedFrame {
    f.(sequence := 0, updatedAtNS := 0, eyeUpdatedAtNS := 0, expressionUpdatedAtNS := 0, lipUpdatedAtNS := 0)
  }

  /** Beside the sources: generation, routing and selections, each group's only if it is subscribed to. */
  predicate SameRouting(s: Subscription, full: ServiceState, trimmed: ServiceState) {
    && trimmed.generation == full.generation && trimmed.routing == full.routing
    && trimmed.eyeSource == Kept(s, CapEye, full.eyeSource)
    && trimmed.expressionSource == Kept(s, CapExpression, full.expressionSource)
    && trimmed.lipSource == Kept(s, CapLip, full.lipSource)
  }

  ghost predicate Mirrors(s: Subscription, full: ServiceState, trimmed: ServiceState) {
    SameRouting(s, full, trimmed) && SameSources(TrimSources(s, full.sources), trimmed.sources)
  }

  // ---- Selections and merges ----

  lemma SameCapable(a: Sources, b: Sources, id: string, group: Capability)
    requires SameSources(a, b)
    ensures Capable(a, id, group) <==> Capable(b, id, group)
  {
    if id in a { assert SameSource(a[id], b[id]); }
  }

  lemma SameResolve(selection: SourceSelection, current: string, a: Sources, b: Sources, group: Capability)
    requires SameSources(a, b)
    ensures Resolve(selection, current, a, group) == Resolve(selection, current, b, group)
  {
    forall id ensures Capable(a, id, group) <==> Capable(b, id, group) { SameCapable(a, b, id, group); }
    assert CapableSources(a, group) == CapableSources(b, group);
  }

  lemma SourcesAreKnown(sources: Sources, now: int)
    requires SourcesValid(sources, now)
    ensures SourcesKnown(sources)
  {
  }

  /** One group, remade on both sides from selections that correspond. */
  lemma ResolveMirrors(s: Subscription, selection: SourceSelection, current: string, full: Sources, trimmed: Sources, group: Capability)
    requires SourcesKnown(full) && SameSources(TrimSources(s, full), trimmed)
    ensures Resolve(selection, Kept(s, group, current), trimmed, group) == Kept(s, group, Resolve(selection, current, full, group))
  {
    SameResolve(selection, Kept(s, group, current), TrimSources(s, full), trimmed, group);
    ResolveCommutes(s, selection, current, full, group);
  }

  /** Both services remake their selections: they go on corresponding. */
  lemma ReselectionMirrors(s: Subscription, full: ServiceState, trimmed: ServiceState, fullAfter: ServiceState, trimmedAfter: ServiceState)
    requires SameRouting(s, full, trimmed) && Reselected(full, fullAfter) && Reselected(trimmed, trimmedAfter)
    requires SourcesKnown(fullAfter.sources) && SameSources(TrimSources(s, fullAfter.sources), trimmedAfter.sources)
    requires fullAfter.generation == trimmedAfter.generation && fullAfter.routing == trimmedAfter.routing
    ensures Mirrors(s, fullAfter, trimmedAfter)
  {
    var a, b, r := fullAfter.sources, trimmedAfter.sources, fullAfter.routing;
    ResolveMirrors(s, r.eye, full.eyeSource, a, b, CapEye);
    ResolveMirrors(s, r.expression, full.expressionSource, a, b, CapExpression);
    ResolveMirrors(s, r.lip, full.lipSource, a, b, CapLip);
  }

  lemma SameMerge(generation: nat, a: Sources, b: Sources, eye: string, expression: string, lip: string)
    requires SameSources(a, b)
    requires eye != "" ==> eye in a
    requires expression != "" ==> expression in a
    requires lip != "" ==> lip in a
    ensures Untimed(Merge(generation, a, eye, expression, lip)) == Untimed(Merge(generation, b, eye, expression, lip))
  {
    if eye != "" { assert SameSource(a[eye], b[eye]); }
    if expression != "" { assert SameSource(a[expression], b[expression]); }
  }

  /** What the trimmed service shows is what the subscription keeps of what the full one shows, but for the times. */
  lemma LatestMirrors(s: Subscription, full: ServiceState, published: seq<MergedFrame>, trimmed: ServiceState, others: seq<MergedFrame>)
    requires Mirrors(s, full, trimmed) && Consistent(full, published) && Consistent(trimmed, others) && full.generation > 0
    ensures Untimed(trimmed.latest) == Untimed(TrimMerged(s, full.latest))
  {
    var merge := Merge(full.generation, full.sources, full.eyeSource, full.expressionSource, full.lipSource);
    SourcesAreKnown(full.sources, full.lastHostTimeNS);
    MergeCommutes(s, full.generation, full.sources, full.eyeSource, full.expressionSource, full.lipSource);
    SameMerge(full.generation, TrimSources(s, full.sources), trimmed.sources, trimmed.eyeSource, trimmed.expressionSource, trimmed.lipSource);
    assert Content(full.latest) == merge;
    TrimKeepsUntimed(s, full.latest, merge);
  }

  lemma TrimKeepsUntimed(s: Subscription, f: MergedFrame, g: MergedFrame)
    requires Untimed(f) == Untimed(g)
    ensures Untimed(TrimMerged(s, f)) == Untimed(TrimMerged(s, g))
  {
  }

  // ---- One event on both sides ----

  /** Neither service has come to the end of its clock. */
  predicate ClocksRun(full: ServiceState, trimmed: ServiceState) {
    full.lastHostTimeNS < MAX_INT64 && trimmed.lastHostTimeNS < MAX_INT64
  }

  /** A valid frame and its trimmed copy are refused for the same reasons. */
  lemma RejectionMirrors(s: Subscription, full: ServiceState, trimmed: ServiceState, id: string, generation: nat, frame: TrackingFrame)
    requires Mirrors(s, full, trimmed) && ClocksRun(full, trimmed) && frame.Valid()
    ensures Rejection(trimmed, id, generation, TrimFrame(s, frame)) == Rejection(full, id, generation, frame)
  {
    TrimIsSafe(s, frame);
    if id in full.sources { assert SameSource(TrimSources(s, full.sources)[id], trimmed.sources[id]); }
  }

  /** Storing a frame and its trimmed copy keeps the sources alike. */
  lemma StoredMirrors(s: Subscription, full: Sources, trimmed: Sources, id: string, frame: TrackingFrame, at: int, other: int)
    requires SameSources(TrimSources(s, full), trimmed) && frame.Valid()
    ensures SameSources(TrimSources(s, full[id := Stored(full, id, Canonicalize(frame), at)]),
                        trimmed[id := Stored(trimmed, id, Canonicalize(TrimFrame(s, frame)), other)])
  {
    TrimCommutesWithCanonicalize(s, frame);
    if id in full { assert SameSource(TrimSources(s, full)[id], trimmed[id]); }
    var a, b := TrimSources(s, full[id := Stored(full, id, Canonicalize(frame), at)]),
                trimmed[id := Stored(trimmed, id, Canonicalize(TrimFrame(s, frame)), other)];
    forall x | x in a ensures SameSource(a[x], b[x]) {
      if x != id { assert SameSource(TrimSources(s, full)[x], trimmed[x]); }
    }
  }

  lemma RemovedMirrors(s: Subscription, full: Sources, trimmed: Sources, id: string)
    requires SameSources(TrimSources(s, full), trimmed)
    ensures SameSources(TrimSources(s, full - {id}), trimmed - {id})
  {
    forall x | x in TrimSources(s, full - {id}) ensures SameSource(TrimSources(s, full - {id})[x], (trimmed - {id})[x]) {
      assert SameSource(TrimSources(s, full)[x], trimmed[x]);
    }
  }

  /** The two services, of which the second is fed what the subscription keeps. */
  ghost predicate Paired(s: Subscription, full: Service, trimmed: Service)
    reads full, trimmed
  {
    full != trimmed && full.Valid() && trimmed.Valid() && Mirrors(s, full.state, trimmed.state)
  }

  /** A plugin's runtime hands over valid frames only. */
  method SubmitBoth(s: Subscription, full: Service, trimmed: Service, id: string, generation: nat, frame: TrackingFrame,
                    receipt: Clock, merge: Clock, otherReceipt: Clock, otherMerge: Clock)
    returns (r: TrackingError, other: TrackingError)
    requires Paired(s, full, trimmed) && ClocksRun(full.state, trimmed.state) && frame.Valid()
    modifies full, trimmed
    ensures Paired(s, full, trimmed) && r == other
  {
    ghost var before, beside := full.state, trimmed.state;
    RejectionMirrors(s, before, beside, id, generation, frame);
    r := full.Submit(id, generation, frame, receipt, merge);
    other := trimmed.Submit(id, generation, TrimFrame(s, frame), otherReceipt, otherMerge);
    if r == NoError {
      StoredMirrors(s, before.sources, beside.sources, id, frame, full.state.sources[id].receivedAtNS, trimmed.state.sources[id].receivedAtNS);
      SourcesAreKnown(full.state.sources, full.state.lastHostTimeNS);
      ReselectionMirrors(s, before, beside, full.state, trimmed.state);
    }
  }

  method SetGenerationOfBoth(s: Subscription, full: Service, trimmed: Service, generation: nat, now: Clock, other: Clock)
    requires Paired(s, full, trimmed)
    modifies full, trimmed
    ensures Paired(s, full, trimmed)
  {
    var r := full.SetGeneration(generation, now);
    r := trimmed.SetGeneration(generation, other);
  }

  method SetRoutingOfBoth(s: Subscription, full: Service, trimmed: Service, config: RoutingConfig, now: Clock, other: Clock)
    requires Paired(s, full, trimmed)
    modifies full, trimmed
    ensures Paired(s, full, trimmed)
  {
    ghost var before, beside := full.state, trimmed.state;
    var r := full.SetRouting(config, now);
    r := trimmed.SetRouting(config, other);
    SourcesAreKnown(full.state.sources, full.state.lastHostTimeNS);
    ReselectionMirrors(s, before, beside, full.state, trimmed.state);
  }

  method RemoveFromBoth(s: Subscription, full: Service, trimmed: Service, id: string, now: Clock, other: Clock)
    requires Paired(s, full, trimmed)
    modifies full, trimmed
    ensures Paired(s, full, trimmed)
  {
    ghost var before, beside := full.state, trimmed.state;
    full.RemoveSource(id, now);
    trimmed.RemoveSource(id, other);
    RemovedMirrors(s, before.sources, beside.sources, id);
    SourcesAreKnown(full.state.sources, full.state.lastHostTimeNS);
    ReselectionMirrors(s, before, beside, full.state, trimmed.state);
  }

  // ---- Whole runs ----

  /** What happens, with the readings of the clock on either side. */
  datatype PairedEvent =
    | Generation(generation: nat, now: Clock, other: Clock)
    | Frame(pluginID: string, generation: nat, frame: TrackingFrame, receipt: Clock, merge: Clock, otherReceipt: Clock, otherMerge: Clock)
    | Routing(config: RoutingConfig, now: Clock, other: Clock)
    | Removal(pluginID: string, now: Clock, other: Clock)

  method BothTake(s: Subscription, full: Service, trimmed: Service, event: PairedEvent) returns (agreed: bool)
    requires Paired(s, full, trimmed) && ClocksRun(full.state, trimmed.state)
    modifies full, trimmed
    ensures Paired(s, full, trimmed) && agreed
  {
    agreed := true;
    match event {
      case Generation(generation, now, other) => SetGenerationOfBoth(s, full, trimmed, generation, now, other);
      case Frame(id, generation, frame, receipt, merge, otherReceipt, otherMerge) =>
        if frame.Valid() {
          var r, other := SubmitBoth(s, full, trimmed, id, generation, frame, receipt, merge, otherReceipt, otherMerge);
          agreed := r == other;
        }
      case Routing(config, now, other) => SetRoutingOfBoth(s, full, trimmed, config, now, other);
      case Removal(id, now, other) => RemoveFromBoth(s, full, trimmed, id, now, other);
    }
  }

  /**
   Every run of the two services, however their clocks read, for as long as neither
   clock is exhausted: they answer every submission alike, and after every event the
   latest frame of the one is what the subscription keeps of the latest frame of the
   other, but for its sequence and times.
   */
  method RunBoth(s: Subscription, events: seq<PairedEvent>)
    returns (full: ServiceState, trimmed: ServiceState, agreed: bool, taken: nat)
    ensures agreed && taken <= |events| && Mirrors(s, full, trimmed)
    ensures full.generation > 0 ==> Untimed(trimmed.latest) == Untimed(TrimMerged(s, full.latest))
    ensures taken < |events| ==> !ClocksRun(full, trimmed)
  {
    var a := new Service();
    var b := new Service();
    agreed, taken := true, 0;
    while taken < |events| && ClocksRun(a.state, b.state)
      invariant fresh(a) && fresh(b) && taken <= |events| && agreed
      invariant Paired(s, a, b)
    {
      var alike := BothTake(s, a, b, events[taken]);
      agreed, taken := agreed && alike, taken + 1;
    }
    full, trimmed := a.state, b.state;
    if full.generation > 0 { LatestMirrors(s, full, a.published, trimmed, b.published); }
  }
}
