/**
 Where the merged frames come from: in every run of the merge service, whatever a frame
 shows was sent by the source it names, under the frame's own generation. This is what
 module GenerationFence takes from the merge.
 */
module MergeProvenance {
  import opened Common
  import opened TrackingModel
  import opened Tracking
  import opened MergeThenProcess

  /** The source sent this under the generation. */
  predicate IsSent(e: ServiceEvent, id: string, generation: nat, canonical: TrackingFrame) {
    e.Frame? && e.pluginID == id && e.generation == generation && e.frame.Valid() && Canonicalize(e.frame) == canonical
  }

  /** Everything that is stored was sent under the current generation. */
  ghost predicate SourcesSent(events: seq<ServiceEvent>, s: ServiceState) {
    forall id | id in s.sources :: exists e :: e in events && IsSent(e, id, s.generation, s.sources[id].frame)
  }

  /** The event is a frame of the merged frame's generation, from the source it names for the group. */
  predicate Supplies(e: ServiceEvent, f: MergedFrame, source: string, group: Capability) {
    && e.Frame? && e.pluginID == source && e.generation == f.generation && e.frame.Valid()
    && group in e.frame.capabilities
    && (group == CapEye ==> Canonicalize(e.frame).eye == f.eye)
    && (group == CapExpression ==> Canonicalize(e.frame).expressions == f.expressions)
  }

  ghost predicate Supplied(events: seq<ServiceEvent>, f: MergedFrame, source: string, group: Capability) {
    source != "" ==> exists e :: e in events && Supplies(e, f, source, group)
  }

  /** Each group that the merged frame shows was sent by its source under the frame's generation. */
  ghost predicate Provenance(events: seq<ServiceEvent>, f: MergedFrame) {
    && Supplied(events, f, f.eyeSource, CapEye)
    && Supplied(events, f, f.expressionSource, CapExpression)
    && Supplied(events, f, f.lipSource, CapLip)
  }

  lemma StillSent(events: seq<ServiceEvent>, e: ServiceEvent, s: ServiceState, published: seq<MergedFrame>)
    requires SourcesSent(events, s) && forall f | f in published :: Provenance(events, f)
    ensures SourcesSent(events + [e], s) && forall f | f in published :: Provenance(events + [e], f)
  {
    assert forall x | x in events :: x in events + [e];
    forall f | f in published ensures Provenance(events + [e], f) {
      assert Provenance(events, f);
    }
  }

  lemma SuppliedBySource(events: seq<ServiceEvent>, s: ServiceState, source: string, group: Capability)
    requires SourcesSent(events, s) && SelectionsValid(s)
    requires source != "" ==> Capable(s.sources, source, group)
    requires Content(s.latest) == Merge(s.generation, s.sources, s.eyeSource, s.expressionSource, s.lipSource)
    requires group == CapEye ==> source == s.eyeSource
    requires group == CapExpression ==> source == s.expressionSource
    ensures Supplied(events, s.latest, source, group)
  {
    if source != "" {
      var e :| e in events && IsSent(e, source, s.generation, s.sources[source].frame);
      assert Supplies(e, s.latest, source, group);
    }
  }

  /** What the service shows is what its sources sent. */
  lemma LatestIsSent(events: seq<ServiceEvent>, s: ServiceState, published: seq<MergedFrame>)
    requires Consistent(s, published) && SourcesSent(events, s) && s.generation > 0
    ensures Provenance(events, s.latest)
  {
    SuppliedBySource(events, s, s.eyeSource, CapEye);
    SuppliedBySource(events, s, s.expressionSource, CapExpression);
    SuppliedBySource(events, s, s.lipSource, CapLip);
  }

  ghost predicate Traced(events: seq<ServiceEvent>, service: Service)
    reads service
  {
    && service.Valid() && SourcesSent(events, service.state)
    && forall f | f in service.published :: Provenance(events, f)
  }

  lemma OneMorePublished(events: seq<ServiceEvent>, s: ServiceState, before: seq<MergedFrame>, after: seq<MergedFrame>)
    requires Consistent(s, after) && SourcesSent(events, s) && before <= after <= before + [s.latest]
    requires forall f | f in before :: Provenance(events, f)
    ensures forall f | f in after :: Provenance(events, f)
  {
    if s.generation > 0 { LatestIsSent(events, s, after); }
    assert forall f | f in after :: f in before || f == s.latest;
  }

  /** Nothing but this frame was stored, or nothing at all. */
  lemma StoredIsSent(events: seq<ServiceEvent>, e: ServiceEvent, s: ServiceState, t: ServiceState)
    requires SourcesSent(events, s) && (t.sources != map[] ==> t.generation == s.generation)
    requires forall id | id in t.sources :: (id in s.sources && t.sources[id] == s.sources[id]) || IsSent(e, id, t.generation, t.sources[id].frame)
    ensures SourcesSent(events + [e], t)
  {
    forall id | id in t.sources ensures exists x :: x in events + [e] && IsSent(x, id, t.generation, t.sources[id].frame) {
      if id in s.sources && t.sources[id] == s.sources[id] {
        var x :| x in events && IsSent(x, id, s.generation, s.sources[id].frame);
        assert x in events + [e];
      } else {
        assert e in events + [e];
      }
    }
  }

  /** The service takes an event: what it publishes is what it then shows. */
  method Handle(service: Service, event: ServiceEvent)
    requires service.Valid()
    modifies service
    ensures service.Valid() && old(service.published) <= service.published <= old(service.published) + [service.state.latest]
    ensures service.state.sources != map[] ==> service.state.generation == old(service.state.generation)
    ensures forall id | id in service.state.sources ::
      || (id in old(service.state.sources) && service.state.sources[id] == old(service.state.sources)[id])
      || IsSent(event, id, service.state.generation, service.state.sources[id].frame)
  {
    match event {
      case Generation(generation, now) => var r := service.SetGeneration(generation, now);
      case Frame(_, _, _, _, _) => HandleFrame(service, event);
      case Routing(config, now) => var r := service.SetRouting(config, now);
      case Removal(id, now) => service.RemoveSource(id, now);
    }
  }

  method HandleFrame(service: Service, event: ServiceEvent)
    requires service.Valid() && event.Frame?
    modifies service
    ensures service.Valid() && old(service.published) <= service.published <= old(service.published) + [service.state.latest]
    ensures service.state.generation == old(service.state.generation)
    ensures forall id | id in service.state.sources ::
      || (id in old(service.state.sources) && service.state.sources[id] == old(service.state.sources)[id])
      || IsSent(event, id, service.state.generation, service.state.sources[id].frame)
  {
    var r := service.Submit(event.pluginID, event.generation, event.frame, event.receiptNow, event.mergeNow);
  }

  method Take(service: Service, event: ServiceEvent, ghost events: seq<ServiceEvent>)
    requires Traced(events, service)
    modifies service
    ensures Traced(events + [event], service)
  {
    StillSent(events, event, service.state, service.published);
    ghost var before, published := service.state, service.published;
    Handle(service, event);
    StoredIsSent(events, event, before, service.state);
    OneMorePublished(events + [event], service.state, published, service.published);
  }

  /** In every run: whatever a published frame shows was sent by the source it names, under its own generation. */
  method RunProvenance(events: seq<ServiceEvent>) returns (published: seq<MergedFrame>)
    ensures Stream(published) && forall f | f in published :: Provenance(events, f)
  {
    var service := new Service();
    ghost var taken: seq<ServiceEvent> := [];
    for i := 0 to |events|
      invariant fresh(service) && taken == events[..i] && Traced(taken, service)
    {
      Take(service, events[i], taken);
      taken := taken + [events[i]];
    }
    assert taken == events;
    published := service.published;
  }
}
