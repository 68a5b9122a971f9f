/**
 Trimming before the merge and trimming after it: had every plugin sent only what a
 subscription asks for, the merge would have produced the trimmed merged frame.
 */
module TrimmedSources {
  import opened Common
  import opened TrackingModel
  import opened Subscriptions
  import opened Tracking

  /** A merged frame with only the groups and fields a subscription selects. */
  function TrimMerged(s: Subscription, f: MergedFrame): MergedFrame {
    var t := TrimFrame(s, TrackingFrame(0, 0, 0, f.capabilities, f.eye, f.expressions));
    MergedFrame(
      f.generation, f.sequence, f.updatedAtNS, t.capabilities, t.eye, t.expressions,
      Kept(s, CapEye, f.eyeSource), Kept(s, CapExpression, f.expressionSource), Kept(s, CapLip, f.lipSource),
      KeptTime(s, CapEye, f.eyeUpdatedAtNS), KeptTime(s, CapExpression, f.expressionUpdatedAtNS), KeptTime(s, CapLip, f.lipUpdatedAtNS))
  }

  /** The source of a group, if the group is subscribed to. */
  function Kept(s: Subscription, group: Capability, source: string): string {
    if group in s.capabilities then source else ""
  }

  function KeptTime(s: Subscription, group: Capability, atNS: int): int {
    if group in s.capabilities then atNS else 0
  }

  function TrimSources(s: Subscription, sources: Sources): Sources {
    map id | id in sources :: sources[id].(frame := TrimFrame(s, sources[id].frame))
  }

  /** The service stores a trimmed frame as it would trim the stored one. */
  lemma TrimCommutesWithCanonicalize(s: Subscription, frame: TrackingFrame)
    requires frame.Valid()
    ensures Canonicalize(TrimFrame(s, frame)) == TrimFrame(s, Canonicalize(frame)) == TrimFrame(s, frame)
  {
    var trimmed := TrimFrame(s, frame);
    assert Canonicalize(trimmed).expressions.values == trimmed.expressions.values;
    assert TrimFrame(s, Canonicalize(frame)).expressions.values == trimmed.expressions.values;
  }

  lemma CapableWhenKept(s: Subscription, sources: Sources, id: string, group: Capability)
    requires SourcesKnown(sources)
    ensures Capable(TrimSources(s, sources), id, group) <==> group in s.capabilities && Capable(sources, id, group)
  {
  }

  ghost predicate SourcesKnown(sources: Sources) {
    "" !in sources && forall id | id in sources :: sources[id].frame.capabilities <= KNOWN_CAPABILITIES
  }

  /** Routing chooses the same source of every group that is subscribed to, and none of any other. */
  lemma ResolveCommutes(s: Subscription, selection: SourceSelection, current: string, sources: Sources, group: Capability)
    requires SourcesKnown(sources)
    ensures Resolve(selection, Kept(s, group, current), TrimSources(s, sources), group) ==
            Kept(s, group, Resolve(selection, current, sources, group))
  {
    var trimmed := TrimSources(s, sources);
    forall id ensures Capable(trimmed, id, group) <==> group in s.capabilities && Capable(sources, id, group) {
      CapableWhenKept(s, sources, id, group);
    }
    if group in s.capabilities {
      assert CapableSources(trimmed, group) == CapableSources(sources, group);
    } else {
      assert CapableSources(trimmed, group) == {};
    }
  }

  /** Merging what trimmed plugins send is trimming what the merge of full plugins shows. */
  lemma MergeCommutes(s: Subscription, generation: nat, sources: Sources, eye: string, expression: string, lip: string)
    requires SourcesKnown(sources)
    requires eye != "" ==> Capable(sources, eye, CapEye)
    requires expression != "" ==> Capable(sources, expression, CapExpression)
    requires lip != "" ==> Capable(sources, lip, CapLip)
    ensures Merge(generation, TrimSources(s, sources), Kept(s, CapEye, eye), Kept(s, CapExpression, expression), Kept(s, CapLip, lip)) ==
            TrimMerged(s, Merge(generation, sources, eye, expression, lip))
  {
    var full := Merge(generation, sources, eye, expression, lip);
    KeptGroups(s, eye, expression, lip);
    if eye != "" { assert TrimEye(s, sources[eye].frame) == TrimMerged(s, full).eye; }
    if expression != "" { assert TrimExpressions(s, sources[expression].frame) == TrimMerged(s, full).expressions; }
  }

  /** The groups of a merge, and of the merge of what is kept. */
  function Groups(eye: string, expression: string, lip: string): set<Capability> {
    (if eye != "" then {CapEye} else {}) + (if expression != "" then {CapExpression} else {}) + (if lip != "" then {CapLip} else {})
  }

  lemma KeptGroups(s: Subscription, eye: string, expression: string, lip: string)
    ensures Groups(Kept(s, CapEye, eye), Kept(s, CapExpression, expression), Kept(s, CapLip, lip)) ==
            Groups(eye, expression, lip) * KNOWN_CAPABILITIES * s.capabilities
  {
  }
}
