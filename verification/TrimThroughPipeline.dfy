/**
 Whether subscribing plugins only to what an avatar needs changes what the avatar
 sees. A run of the pipeline on full frames is compared with the run on the trimmed
 ones. Channels never influence each other except through mutual exclusion, so the
 answer is exact: a channel that is kept shows something else exactly when, in its
 exclusion group, a channel that is not kept outranks it.
 */
module TrimThroughPipeline {
  import opened Common
  import opened TrackingModel
  import opened Filters
  import opened Subscriptions
  import opened Tracking
  import opened TrimmedSources
  import opened Pipeline
  import opened PipelineRuns
  import opened Exclusion
  import opened DependencyGraph
  import opened LeafAnalysis

  /** The subscription keeps the raw values of the channel. */
  predicate Keeps(s: Subscription, i: nat)
    requires i < CHANNEL_COUNT
  {
    if i < EYE_CHANNELS then CapEye in s.capabilities && (s.eye == {} || BitOf(EYE_FIELDS[i]) in s.eye)
    else CapExpression in s.capabilities && (s.expressions == {} || i - EYE_CHANNELS in s.expressions)
  }

  function KeptChannels(s: Subscription): set<nat> {
    set i: nat | i < CHANNEL_COUNT && Keeps(s, i)
  }

  function TrimAll(s: Subscription, inputs: seq<Input>): (r: seq<Input>)
    ensures |r| == |inputs| && forall k | 0 <= k < |r| :: r[k] == Input(TrimMerged(s, inputs[k].frame), inputs[k].nowNS)
  {
    seq(|inputs|, k requires 0 <= k < |inputs| => Input(TrimMerged(s, inputs[k].frame), inputs[k].nowNS))
  }

  // ---- One call ----

  lemma TrimmedIsValid(s: Subscription, frame: MergedFrame, nowNS: int)
    requires InputValid(frame, nowNS)
    ensures InputValid(TrimMerged(s, frame), nowNS)
  {
  }

  lemma TrimmedView(s: Subscription, f: MergedFrame, i: nat)
    requires i < CHANNEL_COUNT && f.capabilities <= KNOWN_CAPABILITIES
    ensures ViewOf(TrimMerged(s, f), i) ==
            if (if i < EYE_CHANNELS then CapEye else CapExpression) in s.capabilities then ViewOf(f, i) else GroupView("", 0, false)
  {
  }

  lemma TrimmedRaw(s: Subscription, f: MergedFrame, i: nat)
    requires i < CHANNEL_COUNT && f.capabilities <= KNOWN_CAPABILITIES && PayloadValid(f.capabilities, f.eye, f.expressions)
    ensures var t := TrimMerged(s, f);
            RawValue(t.eye, t.expressions, i) == if Keeps(s, i) then RawValue(f.eye, f.expressions, i) else None
  {
  }

  /** The trimmed run has the kept channels of the full one, and has never seen the others. */
  ghost predicate Mirrors(s: Subscription, full: PipelineState, trimmed: PipelineState) {
    && |full.channels| == |trimmed.channels| == CHANNEL_COUNT
    && trimmed.hasLast == full.hasLast && trimmed.lastNowNS == full.lastNowNS
    && (full.hasLast ==> trimmed.lastInput == TrimMerged(s, full.lastInput) && full.lastInput.capabilities <= KNOWN_CAPABILITIES)
    && forall i | 0 <= i < CHANNEL_COUNT :: trimmed.channels[i] == if Keeps(s, i) then full.channels[i] else NEW_CHANNEL
  }

  /** What a new input does to a channel, it does to the kept channel on the trimmed input. */
  lemma TrimmedChannel(config: Config, s: Subscription, full: PipelineState, trimmed: PipelineState,
                       frame: MergedFrame, nowNS: int, reset: bool, i: nat)
    requires ConfigValid(config) && Mirrors(s, full, trimmed) && i < CHANNEL_COUNT
    requires InputValid(frame, nowNS) && (!full.hasLast ==> reset)
    requires ChannelAfter(config, full, frame, reset, i).Some?
    ensures ChannelAfter(config, trimmed, TrimMerged(s, frame), reset, i) ==
            if Keeps(s, i) then ChannelAfter(config, full, frame, reset, i) else Some(NEW_CHANNEL)
  {
    TrimmedView(s, frame, i);
    TrimmedRaw(s, frame, i);
    if full.hasLast { TrimmedView(s, full.lastInput, i); }
  }

  /** A trimmed call is classified as the full one, except that a change outside the subscription may look like a repeat. */
  lemma TrimmedClass(s: Subscription, full: PipelineState, trimmed: PipelineState, frame: MergedFrame, nowNS: int)
    requires Mirrors(s, full, trimmed) && InputValid(frame, nowNS)
    requires !Classify(full, frame, nowNS).Refuse?
    ensures var a, b := Classify(full, frame, nowNS), Classify(trimmed, TrimMerged(s, frame), nowNS);
            a == b || (a == NewInput(false) && b == Repeat && TrimMerged(s, frame) == trimmed.lastInput)
  {
  }

  /** In that case the new input changes no kept channel. */
  lemma UnseenChangeIsHarmless(config: Config, s: Subscription, full: PipelineState, frame: MergedFrame, nowNS: int, i: nat)
    requires ConfigValid(config) && |full.channels| == CHANNEL_COUNT && i < CHANNEL_COUNT && Keeps(s, i)
    requires full.hasLast && full.lastInput.capabilities <= KNOWN_CAPABILITIES && InputValid(frame, nowNS)
    requires TrimMerged(s, frame) == TrimMerged(s, full.lastInput)
    ensures ChannelAfter(config, full, frame, false, i) == Some(full.channels[i])
  {
    TrimmedView(s, frame, i);
    TrimmedView(s, full.lastInput, i);
  }

  lemma TrimmedIsAccepted(config: Config, s: Subscription, full: PipelineState, trimmed: PipelineState, frame: MergedFrame, nowNS: int)
    requires ConfigValid(config) && Mirrors(s, full, trimmed) && Accepted(config, full, frame, nowNS)
    ensures Accepted(config, trimmed, TrimMerged(s, frame), nowNS)
  {
    TrimmedIsValid(s, frame, nowNS);
    TrimmedClass(s, full, trimmed, frame, nowNS);
    var c := Classify(trimmed, TrimMerged(s, frame), nowNS);
    if c.NewInput? {
      forall i | 0 <= i < CHANNEL_COUNT ensures ChannelAfter(config, trimmed, TrimMerged(s, frame), c.reset, i).Some? {
        TrimmedChannel(config, s, full, trimmed, frame, nowNS, c.reset, i);
      }
    }
  }

  /** Whatever the full pipeline accepts the trimmed one accepts, and the kept channels stay the same. */
  lemma MirrorsStep(config: Config, s: Subscription, full: PipelineState, trimmed: PipelineState, frame: MergedFrame, nowNS: int)
    requires ConfigValid(config) && Mirrors(s, full, trimmed) && Accepted(config, full, frame, nowNS)
    ensures Accepted(config, trimmed, TrimMerged(s, frame), nowNS)
    ensures Mirrors(s, After(config, full, frame, nowNS), After(config, trimmed, TrimMerged(s, frame), nowNS))
  {
    TrimmedIsAccepted(config, s, full, trimmed, frame, nowNS);
    TrimmedClass(s, full, trimmed, frame, nowNS);
    var a, b := Classify(full, frame, nowNS), Classify(trimmed, TrimMerged(s, frame), nowNS);
    var next, other := After(config, full, frame, nowNS), After(config, trimmed, TrimMerged(s, frame), nowNS);
    if a.NewInput? {
      forall i | 0 <= i < CHANNEL_COUNT ensures other.channels[i] == if Keeps(s, i) then next.channels[i] else NEW_CHANNEL {
        assert ChannelAfter(config, full, frame, a.reset, i).Some?;
        if b.Repeat? {
          if Keeps(s, i) { UnseenChangeIsHarmless(config, s, full, frame, nowNS, i); }
        } else {
          TrimmedChannel(config, s, full, trimmed, frame, nowNS, a.reset, i);
        }
      }
    }
  }

  // ---- Runs ----

  ghost predicate MirrorsAt(config: Config, s: Subscription, inputs: seq<Input>, n: nat)
    requires ConfigValid(config) && n <= |inputs|
  {
    Mirrors(s, Reached(config, inputs[..n]), Reached(config, TrimAll(s, inputs)[..n]))
  }

  lemma MirrorsStart(config: Config, s: Subscription, inputs: seq<Input>)
    requires ConfigValid(config)
    ensures MirrorsAt(config, s, inputs, 0)
  {
    assert inputs[..0] == [] && TrimAll(s, inputs)[..0] == [];
  }

  lemma MirrorsCall(config: Config, s: Subscription, inputs: seq<Input>, m: nat)
    requires ConfigValid(config) && m < |inputs| && AcceptedAt(config, inputs, m) && MirrorsAt(config, s, inputs, m)
    ensures AcceptedAt(config, TrimAll(s, inputs), m) && MirrorsAt(config, s, inputs, m + 1)
  {
    var trimmed := TrimAll(s, inputs);
    MirrorsStep(config, s, Reached(config, inputs[..m]), Reached(config, trimmed[..m]), inputs[m].frame, inputs[m].nowNS);
    ReachedNext(config, inputs, m);
    ReachedNext(config, trimmed, m);
  }

  /** Over every accepted run: the trimmed run is accepted as well and mirrors the full one. */
  lemma {:induction false} MirrorsRun(config: Config, s: Subscription, inputs: seq<Input>, n: nat)
    requires ConfigValid(config) && AllAccepted(config, inputs) && n <= |inputs|
    ensures MirrorsAt(config, s, inputs, n)
    ensures forall k | 0 <= k < n :: AcceptedAt(config, TrimAll(s, inputs), k)
  {
    if n == 0 {
      MirrorsStart(config, s, inputs);
    } else {
      var k := n - 1;
      MirrorsRun(config, s, inputs, k);
      assert AcceptedAt(config, inputs, k);
      MirrorsCall(config, s, inputs, k);
    }
  }

  // ---- What a leaf shows ----

  function EyeIndex(field: EyeField): (i: nat)
    ensures i < EYE_CHANNELS && EYE_FIELDS[i] == field
  {
    match field
    case LeftGazeX => 0
    case LeftGazeY => 1
    case RightGazeX => 2
    case RightGazeY => 3
    case LeftOpen => 4
    case RightOpen => 5
    case LeftDiameter => 6
    case RightDiameter => 7
    case LeftDilation => 8
    case RightDilation => 9
  }

  /** The channel that shares its validity bit with this one: itself, the other gaze axis, or the other pupil value. */
  function Partner(i: nat): (p: nat)
    requires i < CHANNEL_COUNT
    ensures p < CHANNEL_COUNT && (i < EYE_CHANNELS <==> p < EYE_CHANNELS)
    ensures i < EYE_CHANNELS ==> BitOf(EYE_FIELDS[p]) == BitOf(EYE_FIELDS[i])
  {
    if i < 4 then (if i % 2 == 0 then i + 1 else i - 1)
    else if 6 <= i < 8 then i + 2
    else if 8 <= i < 10 then i - 2
    else i
  }

  predicate Channelled(leaf: Leaf) {
    leaf.EyeLeaf? || (leaf.ExpressionLeaf? && leaf.id < EXPRESSION_COUNT)
  }

  /** The channel whose value the leaf shows. */
  function LeafChannel(leaf: Leaf): (i: nat)
    requires Channelled(leaf)
    ensures i < CHANNEL_COUNT
  {
    if leaf.EyeLeaf? then EyeIndex(leaf.field) else EYE_CHANNELS + leaf.id
  }

  /** The leaf is valid only with its partner. */
  predicate LeafShown(c: seq<Candidate>, leaf: Leaf)
    requires |c| == CHANNEL_COUNT && Channelled(leaf)
  {
    c[LeafChannel(leaf)].valid && c[Partner(LeafChannel(leaf))].valid
  }

  lemma EyeOfCandidates(c: seq<Candidate>, f: EyeField)
    requires |c| == CHANNEL_COUNT
    ensures BitOf(f) in OutputEye(c).valid <==> c[EyeIndex(f)].valid && c[Partner(EyeIndex(f))].valid
    ensures BitOf(f) in OutputEye(c).valid ==> OutputEye(c).Value(f) == c[EyeIndex(f)].value
  {
  }

  lemma LeafOfCandidates(frame: CanonicalFrame, c: seq<Candidate>, leaf: Leaf)
    requires |c| == CHANNEL_COUNT && Channelled(leaf)
    requires frame.eye == OutputEye(c) && frame.expressions == OutputExpressions(c)
    ensures ReadLeaf(frame, leaf) == if LeafShown(c, leaf) then Real(c[LeafChannel(leaf)].value) else Missing
  {
    if leaf.EyeLeaf? { EyeOfCandidates(c, leaf.field); }
  }

  lemma MirroredCandidates(config: Config, s: Subscription, full: PipelineState, trimmed: PipelineState, nowNS: int)
    requires ConfigValid(config) && Mirrors(s, full, trimmed)
    ensures Restricts(Candidates(config, full, nowNS), Candidates(config, trimmed, nowNS), KeptChannels(s))
  {
  }

  /** The leaf would be shown, were it not for an unselected channel of its exclusion group. */
  ghost predicate Hidden(config: Config, s: Subscription, state: PipelineState, nowNS: int, leaf: Leaf)
    requires ConfigValid(config) && |state.channels| == CHANNEL_COUNT
  {
    var c := Candidates(config, state, nowNS);
    Channelled(leaf) && LeafShown(c, leaf) && OvershadowedIn(c, config.mutualExclusion, KeptChannels(s), LeafChannel(leaf))
  }

  lemma SelectedIsKept(s: Subscription, leaf: Leaf)
    requires Channelled(leaf) && Selects(s, leaf)
    ensures LeafChannel(leaf) in KeptChannels(s) && Partner(LeafChannel(leaf)) in KeptChannels(s)
  {
  }

  lemma ChannelledLeafAgrees(config: Config, s: Subscription, full: PipelineState, trimmed: PipelineState,
                             frame: MergedFrame, nowNS: int, leaf: Leaf)
    requires ConfigValid(config) && Mirrors(s, full, trimmed) && Selects(s, leaf) && Channelled(leaf)
    ensures var a := CanonicalOf(config, full, frame, nowNS);
            var b := CanonicalOf(config, trimmed, TrimMerged(s, frame), nowNS);
            ReadLeaf(a, leaf) == ReadLeaf(b, leaf) <==> !Hidden(config, s, full, nowNS, leaf)
    ensures Hidden(config, s, full, nowNS, leaf) ==>
              && ReadLeaf(CanonicalOf(config, full, frame, nowNS), leaf) == Real(0.0)
              && ReadLeaf(CanonicalOf(config, trimmed, TrimMerged(s, frame), nowNS), leaf) ==
                 Real(CandidateOf(config, full, nowNS, LeafChannel(leaf)).value)
  {
    var a, b := Candidates(config, full, nowNS), Candidates(config, trimmed, nowNS);
    var groups, kept, r := config.mutualExclusion, KeptChannels(s), LeafChannel(leaf);
    MirroredCandidates(config, s, full, trimmed, nowNS);
    SelectedIsKept(s, leaf);
    ProjectionAgrees(a, b, kept, groups, r);
    ProjectionExcludes(a, groups);
    ProjectionExcludes(b, groups);
    LeafOfCandidates(CanonicalOf(config, full, frame, nowNS), Project(a, groups), leaf);
    LeafOfCandidates(CanonicalOf(config, trimmed, TrimMerged(s, frame), nowNS), Project(b, groups), leaf);
  }

  /** A selected leaf reads the same from the full and from the trimmed output exactly when it is not hidden. */
  lemma LeafAgrees(config: Config, s: Subscription, full: PipelineState, trimmed: PipelineState,
                   frame: MergedFrame, nowNS: int, leaf: Leaf)
    requires ConfigValid(config) && Mirrors(s, full, trimmed) && Selects(s, leaf)
    requires frame.capabilities <= KNOWN_CAPABILITIES
    ensures var a := CanonicalOf(config, full, frame, nowNS);
            var b := CanonicalOf(config, trimmed, TrimMerged(s, frame), nowNS);
            && (ReadLeaf(a, leaf) == ReadLeaf(b, leaf) <==> !Hidden(config, s, full, nowNS, leaf))
            && (Hidden(config, s, full, nowNS, leaf) ==>
                  ReadLeaf(a, leaf) == Real(0.0) && ReadLeaf(b, leaf) == Real(CandidateOf(config, full, nowNS, LeafChannel(leaf)).value))
  {
    if Channelled(leaf) { ChannelledLeafAgrees(config, s, full, trimmed, frame, nowNS, leaf); }
  }

  // ---- At every call of a run ----

  /** What the output right after the call number k reads for a leaf, if the call is accepted. */
  function Read(config: Config, inputs: seq<Input>, k: nat, leaf: Leaf): Option<LeafValue>
    requires ConfigValid(config) && k < |inputs|
  {
    var shown := ShownAt(config, inputs, k);
    if shown.None? then None else Some(ReadLeaf(shown.value, leaf))
  }

  lemma BothShow(config: Config, s: Subscription, inputs: seq<Input>, k: nat)
    requires ConfigValid(config) && AllAccepted(config, inputs) && k < |inputs|
    ensures ShownAt(config, inputs, k).Some? && ShownAt(config, TrimAll(s, inputs), k).Some?
  {
    MirrorsRun(config, s, inputs, k + 1);
    assert AcceptedAt(config, inputs, k) && AcceptedAt(config, TrimAll(s, inputs), k);
  }

  /** At every call of every accepted run: a selected leaf reads the same exactly when it is not hidden then. */
  lemma ReadingAgrees(config: Config, s: Subscription, inputs: seq<Input>, k: nat, leaf: Leaf)
    requires ConfigValid(config) && AllAccepted(config, inputs) && k < |inputs| && Selects(s, leaf)
    ensures Read(config, inputs, k, leaf) == Read(config, TrimAll(s, inputs), k, leaf) <==>
            !Hidden(config, s, Reached(config, inputs[..k + 1]), inputs[k].nowNS, leaf)
    ensures Read(config, inputs, k, leaf).Some? && Read(config, TrimAll(s, inputs), k, leaf).Some?
    ensures Hidden(config, s, Reached(config, inputs[..k + 1]), inputs[k].nowNS, leaf) ==>
              && Read(config, inputs, k, leaf) == Some(Real(0.0))
              && Read(config, TrimAll(s, inputs), k, leaf) ==
                 Some(Real(CandidateOf(config, Reached(config, inputs[..k + 1]), inputs[k].nowNS, LeafChannel(leaf)).value))
  {
    var trimmed := TrimAll(s, inputs);
    MirrorsRun(config, s, inputs, k + 1);
    assert AcceptedAt(config, inputs, k) && AcceptedAt(config, trimmed, k);
    ReachedNext(config, inputs, k);
    ReachedNext(config, trimmed, k);
    LeafAgrees(config, s, Reached(config, inputs[..k + 1]), Reached(config, trimmed[..k + 1]), inputs[k].frame, inputs[k].nowNS, leaf);
  }
}
