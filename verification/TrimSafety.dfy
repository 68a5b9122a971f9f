/**
 When subscribing plugins only to what an avatar needs is safe. It is, over every run,
 if no exclusion group has both a needed channel and one that is left out; and if
 channels can show every value, as the default ones can, only then.
 */
module TrimSafety {
  import opened Common
  import opened TrackingModel
  import opened Filters
  import opened Subscriptions
  import opened Tracking
  import opened Pipeline
  import opened PipelineRuns
  import opened Exclusion
  import opened TrimmedSources
  import opened TrimThroughPipeline
  import opened DependencyGraph
  import opened LeafAnalysis
  import PlanCompiler
  import Evaluation

  // ---- Safety over every run ----

  /** The channel carries an input that is needed. */
  predicate Needs(needed: Inputs, i: nat)
    requires i < CHANNEL_COUNT
  {
    if i < EYE_CHANNELS then EYE_FIELDS[i] in needed.eye else i - EYE_CHANNELS in needed.expressions
  }

  /** No exclusion group has both a needed channel and one that the subscription leaves out. */
  predicate Unmixed(config: Config, s: Subscription, needed: Inputs) {
    forall g, r | g in config.mutualExclusion && r in g && r < CHANNEL_COUNT && Needs(needed, r) :: KeptWhole(g, KeptChannels(s))
  }

  ghost predicate SelectsAll(s: Subscription, needed: Inputs) {
    forall leaf | Has(needed, leaf) :: Selects(s, leaf)
  }

  lemma UnmixedHidesNothing(config: Config, s: Subscription, needed: Inputs, state: PipelineState, nowNS: int, leaf: Leaf)
    requires ConfigValid(config) && |state.channels| == CHANNEL_COUNT
    requires Unmixed(config, s, needed) && Has(needed, leaf)
    ensures !Hidden(config, s, state, nowNS, leaf)
  {
    if Channelled(leaf) {
      var r := LeafChannel(leaf);
      assert Needs(needed, r);
      WholeGroupsHideNothing(Candidates(config, state, nowNS), config.mutualExclusion, KeptChannels(s), r);
    }
  }

  /** Trimming changes no needed leaf, at any call of any accepted run. */
  ghost predicate TrimIsInvisible(config: Config, s: Subscription, needed: Inputs)
    requires ConfigValid(config)
  {
    forall inputs: seq<Input>, k: nat, leaf | k < |inputs| && AllAccepted(config, inputs) && Has(needed, leaf) ::
      Read(config, inputs, k, leaf) == Read(config, TrimAll(s, inputs), k, leaf)
  }

  lemma UnmixedIsInvisible(config: Config, s: Subscription, needed: Inputs)
    requires ConfigValid(config) && SelectsAll(s, needed) && Unmixed(config, s, needed)
    ensures TrimIsInvisible(config, s, needed)
  {
    forall inputs: seq<Input>, k: nat, leaf | k < |inputs| && AllAccepted(config, inputs) && Has(needed, leaf)
      ensures Read(config, inputs, k, leaf) == Read(config, TrimAll(s, inputs), k, leaf)
    {
      UnmixedHidesNothing(config, s, needed, Reached(config, inputs[..k + 1]), inputs[k].nowNS, leaf);
      ReadingAgrees(config, s, inputs, k, leaf);
    }
  }

  // ---- When groups mix ----

  function EyeFrom(valid: set<EyeBit>, value: nat -> real): EyeSample {
    EyeSample(valid, value(0), value(1), value(2), value(3), value(4), value(5), value(6), value(7), value(8), value(9))
  }

  function BitsFor(i: nat): set<EyeBit> {
    if i < EYE_CHANNELS then {BitOf(EYE_FIELDS[i])} else {}
  }

  function MasksFor(i: nat): set<nat> {
    if EYE_CHANNELS <= i < CHANNEL_COUNT then {i - EYE_CHANNELS} else {}
  }

  /** The first frame of a service with one plugin that shows the given values of two channels. */
  function FrameOf(r: nat, u: nat, value: nat -> real): MergedFrame {
    MergedFrame(
      1, 1, 1, {CapEye, CapExpression}, EyeFrom(BitsFor(r) + BitsFor(u), value),
      Expressions(seq(EXPRESSION_COUNT, i requires 0 <= i < EXPRESSION_COUNT => value(EYE_CHANNELS + i)), MasksFor(r) + MasksFor(u)),
      "plugin", "plugin", "", 1, 1, 0)
  }

  lemma BitsOfTwo(r: nat, u: nat, i: nat)
    requires i < EYE_CHANNELS
    ensures BitOf(EYE_FIELDS[i]) in BitsFor(r) + BitsFor(u) <==>
            i in {r, u} || (r < EYE_CHANNELS && i == Partner(r)) || (u < EYE_CHANNELS && i == Partner(u))
  {
    SharedBit(r, i);
    SharedBit(u, i);
  }

  /** Two channels share a validity bit exactly when they are partners or the same. */
  lemma SharedBit(r: nat, i: nat)
    requires i < EYE_CHANNELS
    ensures BitOf(EYE_FIELDS[i]) in BitsFor(r) <==> r < EYE_CHANNELS && (i == r || i == Partner(r))
  {
  }

  lemma EyeFromValue(valid: set<EyeBit>, value: nat -> real, i: nat)
    requires i < EYE_CHANNELS
    ensures EyeFrom(valid, value).Value(EYE_FIELDS[i]) == value(i)
  {
  }

  function FirstInputs(r: nat, u: nat, value: nat -> real): (inputs: seq<Input>)
    ensures |inputs| == 1
  {
    [Input(FrameOf(r, u, value), 1)]
  }

  /** The raw values it shows are those two and their partners. */
  lemma RawOfFrame(r: nat, u: nat, value: nat -> real, i: nat)
    requires r < CHANNEL_COUNT && u < CHANNEL_COUNT && i < CHANNEL_COUNT
    ensures var f := FrameOf(r, u, value);
            RawValue(f.eye, f.expressions, i) == if i in {r, Partner(r), u, Partner(u)} then Some(value(i)) else None
  {
    if i < EYE_CHANNELS {
      BitsOfTwo(r, u, i);
      EyeFromValue(BitsFor(r) + BitsFor(u), value, i);
    }
  }

  lemma FrameIsWellFormed(r: nat, u: nat, value: nat -> real)
    requires r < CHANNEL_COUNT && u < CHANNEL_COUNT
    ensures WellFormed(FrameOf(r, u, value)) && InputValid(FrameOf(r, u, value), 1)
  {
  }

  /** The first sample of a channel passes its filter unchanged and is shown at once. */
  lemma FirstCandidate(config: Config, r: nat, u: nat, value: nat -> real, i: nat)
    requires ConfigValid(config) && r < CHANNEL_COUNT && u < CHANNEL_COUNT && i < CHANNEL_COUNT
    ensures var f := FrameOf(r, u, value);
            var channel := ChannelAfter(config, NewState(), f, true, i);
            channel.Some? && DropoutValue(channel.value, config.channels[i].dropout, 1) ==
                             if i in {r, Partner(r), u, Partner(u)} then Some(Tuned(config, i, value(i))) else None
  {
    RawOfFrame(r, u, value, i);
  }

  lemma FirstIsAccepted(config: Config, r: nat, u: nat, value: nat -> real)
    requires ConfigValid(config) && r < CHANNEL_COUNT && u < CHANNEL_COUNT
    ensures Accepted(config, NewState(), FrameOf(r, u, value), 1)
    ensures AllAccepted(config, FirstInputs(r, u, value))
  {
    var f := FrameOf(r, u, value);
    FrameIsWellFormed(r, u, value);
    assert FirstInputs(r, u, value)[..0] == [];
    forall i | 0 <= i < CHANNEL_COUNT ensures ChannelAfter(config, NewState(), f, true, i).Some? {
      FirstCandidate(config, r, u, value, i);
    }
  }

  lemma FirstCandidates(config: Config, r: nat, u: nat, value: nat -> real, i: nat)
    requires ConfigValid(config) && r < CHANNEL_COUNT && u < CHANNEL_COUNT && i < CHANNEL_COUNT
    ensures CandidateOf(config, Reached(config, FirstInputs(r, u, value)), 1, i) ==
            if i in {r, Partner(r), u, Partner(u)} then Candidate(Tuned(config, i, value(i)), true) else Candidate(0.0, false)
  {
    var inputs := FirstInputs(r, u, value);
    assert inputs[..0] == [];
    FirstIsAccepted(config, r, u, value);
    FirstCandidate(config, r, u, value, i);
  }

  /** Values of two channels of one group, the first kept and the second not, with which the second hides the first. */
  ghost predicate Outshines(config: Config, group: seq<nat>, kept: set<nat>, r: nat, u: nat, value: nat -> real)
    requires ConfigValid(config) && r < CHANNEL_COUNT && u < CHANNEL_COUNT
  {
    && r in group && u in group && r in kept && Partner(r) in kept && u !in kept && Partner(u) !in kept
    && Tuned(config, r, value(r)) != 0.0 && Abs(Tuned(config, u, value(u))) > Abs(Tuned(config, r, value(r)))
    && (Partner(r) != r ==> Tuned(config, Partner(r), value(Partner(r))) == 0.0)
  }

  lemma OutshinedIsOvershadowed(config: Config, group: seq<nat>, kept: set<nat>, r: nat, u: nat, value: nat -> real)
    requires ConfigValid(config) && r < CHANNEL_COUNT && u < CHANNEL_COUNT && Within(group, CHANNEL_COUNT)
    requires Outshines(config, group, kept, r, u, value)
    ensures Overshadowed(Candidates(config, Reached(config, FirstInputs(r, u, value)), 1), group, kept, r)
  {
    var c := Candidates(config, Reached(config, FirstInputs(r, u, value)), 1);
    FirstCandidates(config, r, u, value, r);
    FirstCandidates(config, r, u, value, u);
    assert c[u].valid && Outranks(c, u, r);
    forall m | m in group && m in kept && c[m].valid ensures !Outranks(c, m, r) {
      FirstCandidates(config, r, u, value, m);
      assert m == r || m == Partner(r);
    }
  }

  lemma OutshinedIsHidden(config: Config, s: Subscription, group: seq<nat>, leaf: Leaf, u: nat, value: nat -> real)
    requires ConfigValid(config) && Channelled(leaf)
    requires group in config.mutualExclusion && u < CHANNEL_COUNT
    requires Outshines(config, group, KeptChannels(s), LeafChannel(leaf), u, value)
    ensures Hidden(config, s, Reached(config, FirstInputs(LeafChannel(leaf), u, value)), 1, leaf)
  {
    FirstCandidates(config, LeafChannel(leaf), u, value, LeafChannel(leaf));
    FirstCandidates(config, LeafChannel(leaf), u, value, Partner(LeafChannel(leaf)));
    OutshinedIsOvershadowed(config, group, KeptChannels(s), LeafChannel(leaf), u, value);
  }

  /**
   A needed channel and an unselected one of one group: as soon as values of the second
   outrank a nonzero value of the first, the very first frame reads zero in full and
   the value when trimmed.
   */
  lemma MixingShows(config: Config, s: Subscription, group: seq<nat>, leaf: Leaf, u: nat, value: nat -> real)
    requires ConfigValid(config) && Channelled(leaf) && Selects(s, leaf)
    requires group in config.mutualExclusion && u < CHANNEL_COUNT
    requires Outshines(config, group, KeptChannels(s), LeafChannel(leaf), u, value)
    ensures WellFormed(FrameOf(LeafChannel(leaf), u, value))
    ensures AllAccepted(config, FirstInputs(LeafChannel(leaf), u, value))
    ensures Read(config, FirstInputs(LeafChannel(leaf), u, value), 0, leaf) == Some(Real(0.0))
    ensures Read(config, TrimAll(s, FirstInputs(LeafChannel(leaf), u, value)), 0, leaf) ==
            Some(Real(Tuned(config, LeafChannel(leaf), value(LeafChannel(leaf)))))
  {
    var r := LeafChannel(leaf);
    var inputs := FirstInputs(r, u, value);
    FrameIsWellFormed(r, u, value);
    FirstIsAccepted(config, r, u, value);
    FirstCandidates(config, r, u, value, r);
    OutshinedIsHidden(config, s, group, leaf, u, value);
    assert inputs[..1] == inputs;
    ReadingAgrees(config, s, inputs, 0, leaf);
  }

  ghost predicate CanShow(config: Config, i: nat, v: real)
    requires ConfigValid(config) && i < CHANNEL_COUNT
  {
    exists raw :: Tuned(config, i, raw) == v
  }

  /** Calibration and tuning let every channel show every value, as the default ones do. */
  ghost predicate Expressive(config: Config)
    requires ConfigValid(config)
  {
    forall i: nat, v: real | i < CHANNEL_COUNT :: CanShow(config, i, v)
  }

  lemma LeafOnChannel(needed: Inputs, r: nat) returns (leaf: Leaf)
    requires r < CHANNEL_COUNT && Needs(needed, r)
    ensures Has(needed, leaf) && Channelled(leaf) && LeafChannel(leaf) == r
  {
    leaf := if r < EYE_CHANNELS then EyeLeaf(EYE_FIELDS[r]) else ExpressionLeaf(r - EYE_CHANNELS);
  }

  lemma OutshiningValues(config: Config, group: seq<nat>, kept: set<nat>, r: nat, u: nat) returns (value: nat -> real)
    requires ConfigValid(config) && Expressive(config) && r < CHANNEL_COUNT && u < CHANNEL_COUNT
    requires r in group && u in group && r in kept && Partner(r) in kept && u !in kept && Partner(u) !in kept
    ensures Outshines(config, group, kept, r, u, value)
  {
    assert CanShow(config, r, 1.0) && CanShow(config, u, 2.0) && CanShow(config, Partner(r), 0.0);
    var x :| Tuned(config, r, x) == 1.0;
    var y :| Tuned(config, u, y) == 2.0;
    var z :| Tuned(config, Partner(r), z) == 0.0;
    value := i => if i == r then x else if i == u then y else z;
  }

  lemma MixedIsVisible(config: Config, s: Subscription, needed: Inputs)
    requires ConfigValid(config) && Expressive(config) && SelectsAll(s, needed) && !Unmixed(config, s, needed)
    ensures !TrimIsInvisible(config, s, needed)
  {
    var kept := KeptChannels(s);
    var group, r :| group in config.mutualExclusion && r in group && r < CHANNEL_COUNT && Needs(needed, r) && !KeptWhole(group, kept);
    var u :| u in group && u !in kept;
    var leaf := LeafOnChannel(needed, r);
    SelectedIsKept(s, leaf);
    var value := OutshiningValues(config, group, kept, r, u);
    MixingShows(config, s, group, leaf, u, value);
  }

  /** For such configurations the condition is exact: trimming is invisible if and only if no group mixes. */
  lemma InvisibleIffUnmixed(config: Config, s: Subscription, needed: Inputs)
    requires ConfigValid(config) && Expressive(config) && SelectsAll(s, needed)
    ensures TrimIsInvisible(config, s, needed) <==> Unmixed(config, s, needed)
  {
    if Unmixed(config, s, needed) {
      UnmixedIsInvisible(config, s, needed);
    } else {
      MixedIsVisible(config, s, needed);
    }
  }

  // ---- What the avatar sees ----

  /** The snapshot right after the call number k, if the call is accepted. */
  ghost function AvatarSees(world: PlanCompiler.World, plan: PlanCompiler.Plan, config: Config, inputs: seq<Input>, k: nat)
    : Option<Evaluation.Store>
    requires PlanCompiler.StraightLine(world, plan.instructions) && ConfigValid(config) && k < |inputs|
  {
    var shown := ShownAt(config, inputs, k);
    if shown.None? then None
    else
      PlanCompiler.MembersCompile(world, plan.instructions);
      Some(Evaluation.Snapshot(Evaluation.Run(world, shown.value, plan.instructions), plan.requested))
  }

  /** If no needed leaf is hidden at a call, the avatar sees the same. */
  lemma SnapshotSurvives(world: PlanCompiler.World, requested: seq<nat>, plan: PlanCompiler.Plan, needed: Inputs,
                         config: Config, s: Subscription, inputs: seq<Input>, k: nat)
    requires PlanCompiler.StraightLine(world, plan.instructions)
    requires plan.requested == set q | q in requested
    requires forall q | q in requested :: q in PlanCompiler.Parameters(plan.instructions)
    requires forall leaf :: Has(needed, leaf) <==> RequiredBy(world.plans, requested, leaf)
    requires ConfigValid(config) && AllAccepted(config, inputs) && k < |inputs| && SelectsAll(s, needed)
    requires forall leaf | Has(needed, leaf) :: !Hidden(config, s, Reached(config, inputs[..k + 1]), inputs[k].nowNS, leaf)
    ensures AvatarSees(world, plan, config, TrimAll(s, inputs), k) == AvatarSees(world, plan, config, inputs, k)
    ensures AvatarSees(world, plan, config, inputs, k).Some?
  {
    var full, trimmed := ShownAt(config, inputs, k), ShownAt(config, TrimAll(s, inputs), k);
    BothShow(config, s, inputs, k);
    forall leaf | RequiredBy(world.plans, requested, leaf)
      ensures ReadLeaf(trimmed.value, leaf) == ReadLeaf(full.value, leaf)
    {
      ReadingAgrees(config, s, inputs, k, leaf);
    }
    SnapshotDependsOnLeaves(world, requested, plan, trimmed.value, full.value);
  }

  /**
   Plugins are subscribed to exactly what the leaf analysis asks for. If no exclusion
   group mixes, the avatar sees at every call of every accepted run what it would see
   of full frames.
   */
  lemma TrimKeepsSnapshot(world: PlanCompiler.World, requested: seq<nat>, plan: PlanCompiler.Plan, needed: Inputs, generation: nat,
                          config: Config, inputs: seq<Input>, k: nat)
    requires PlanCompiler.StraightLine(world, plan.instructions)
    requires plan.requested == set q | q in requested
    requires forall q | q in requested :: q in PlanCompiler.Parameters(plan.instructions)
    requires forall leaf :: Has(needed, leaf) <==> RequiredBy(world.plans, requested, leaf)
    requires SubscriptionFor(generation, RequirementsFromInputs(needed), KNOWN_CAPABILITIES).Some?
    requires ConfigValid(config) && AllAccepted(config, inputs) && k < |inputs|
    requires Unmixed(config, SubscriptionFor(generation, RequirementsFromInputs(needed), KNOWN_CAPABILITIES).value, needed)
    ensures var s := SubscriptionFor(generation, RequirementsFromInputs(needed), KNOWN_CAPABILITIES).value;
            AvatarSees(world, plan, config, TrimAll(s, inputs), k) == AvatarSees(world, plan, config, inputs, k)
  {
    var s := SubscriptionFor(generation, RequirementsFromInputs(needed), KNOWN_CAPABILITIES).value;
    DerivedSelectsAll(generation, needed);
    forall leaf | Has(needed, leaf)
      ensures !Hidden(config, s, Reached(config, inputs[..k + 1]), inputs[k].nowNS, leaf)
    {
      UnmixedHidesNothing(config, s, needed, Reached(config, inputs[..k + 1]), inputs[k].nowNS, leaf);
    }
    SnapshotSurvives(world, requested, plan, needed, config, s, inputs, k);
  }

  lemma DerivedSelectsAll(generation: nat, needed: Inputs)
    requires SubscriptionFor(generation, RequirementsFromInputs(needed), KNOWN_CAPABILITIES).Some?
    ensures SelectsAll(SubscriptionFor(generation, RequirementsFromInputs(needed), KNOWN_CAPABILITIES).value, needed)
  {
    forall leaf | Has(needed, leaf)
      ensures Selects(SubscriptionFor(generation, RequirementsFromInputs(needed), KNOWN_CAPABILITIES).value, leaf)
    {
      SubscriptionSelects(generation, needed, KNOWN_CAPABILITIES, leaf);
    }
  }

  /** A plugin that sends only what it advertises loses nothing by being subscribed to no more. */
  lemma AdvertisedIsEnough(generation: nat, required: Requirements, advertised: set<Capability>, frame: TrackingFrame)
    requires SubscriptionFor(generation, required, advertised).Some? && frame.capabilities <= advertised
    ensures SubscriptionFor(generation, required, KNOWN_CAPABILITIES).Some?
    ensures TrimFrame(SubscriptionFor(generation, required, advertised).value, frame) ==
            TrimFrame(SubscriptionFor(generation, required, KNOWN_CAPABILITIES).value, frame)
  {
    var less, all := SubscriptionFor(generation, required, advertised).value, SubscriptionFor(generation, required, KNOWN_CAPABILITIES).value;
    assert TrimFrame(less, frame).capabilities == TrimFrame(all, frame).capabilities;
  }

  // ---- The default configuration ----

  /** The processing settings a channel has unless the user overrides them. */
  const DEFAULT_CHANNEL := ChannelConfig(
    Calibration(false, 0.0, 0.0, 0.0, 1.0, false), Tuning(0.0, 1.0, 1.0, false, 0.0, 0.0), NoFilter,
    DropoutPolicy(100_000_000, 300_000_000, 500_000_000))

  /** Default channels, and a power function that is right for the exponent 1. */
  ghost predicate DefaultChannels(config: Config)
    requires ConfigValid(config)
  {
    && (forall i | 0 <= i < CHANNEL_COUNT :: config.channels[i] == DEFAULT_CHANNEL)
    && forall x: real | x >= 0.0 :: config.pow(x, 1.0) == x
  }

  lemma DefaultIsIdentity(config: Config, i: nat, raw: real)
    requires ConfigValid(config) && DefaultChannels(config) && i < CHANNEL_COUNT
    ensures Tuned(config, i, raw) == raw
  {
    var magnitude := (Abs(raw) - 0.0) / (1.0 - 0.0) * 1.0;
    assert magnitude == Abs(raw) && config.pow(magnitude, 1.0) == magnitude;
  }

  lemma DefaultIsExpressive(config: Config)
    requires ConfigValid(config) && DefaultChannels(config)
    ensures Expressive(config)
  {
    forall i: nat, v: real | i < CHANNEL_COUNT ensures CanShow(config, i, v) {
      DefaultIsIdentity(config, i, v);
    }
  }

  /** What is asked for if an avatar needs the first expression only. */
  function FirstExpressionOnly(generation: nat): (s: Option<Subscription>)
    ensures generation > 0 ==> s == Some(Subscription(generation, {CapExpression}, {}, {0}))
  {
    var required := RequirementsFromInputs(Inputs({}, {0}, {}));
    assert 0 in required.expressions;
    assert required.expressions == {0} && required.eye == {} && required.capabilities == {CapExpression};
    assert required.capabilities * KNOWN_CAPABILITIES * KNOWN_CAPABILITIES == {CapExpression};
    assert NormalizeMask({0}) == {0};
    SubscriptionFor(generation, required, KNOWN_CAPABILITIES)
  }

  function PairValues(): nat -> real {
    i => if i == 10 then 0.5 else 0.9
  }

  lemma PairOutshines(config: Config, s: Subscription)
    requires ConfigValid(config) && DefaultChannels(config) && s.capabilities == {CapExpression} && s.expressions == {0}
    ensures Outshines(config, [10, 11], KeptChannels(s), 10, 11, PairValues())
    ensures Tuned(config, 10, PairValues()(10)) == 0.5
  {
    DefaultIsIdentity(config, 10, 0.5);
    DefaultIsIdentity(config, 11, 0.9);
  }

  /**
   With default channels and one group of two expressions, of which the avatar needs
   only the first: a frame that shows 0.5 and 0.9 reads zero in full and 0.5 trimmed.
   */
  lemma PairIsTorn(config: Config, generation: nat)
    requires ConfigValid(config) && DefaultChannels(config) && [10, 11] in config.mutualExclusion && generation > 0
    ensures var inputs, leaf := FirstInputs(10, 11, PairValues()), ExpressionLeaf(0);
            && AllAccepted(config, inputs) && Read(config, inputs, 0, leaf) == Some(Real(0.0))
            && Read(config, TrimAll(FirstExpressionOnly(generation).value, inputs), 0, leaf) == Some(Real(0.5))
  {
    var s := FirstExpressionOnly(generation).value;
    PairOutshines(config, s);
    MixingShows(config, s, [10, 11], ExpressionLeaf(0), 11, PairValues());
  }

  /** A requested parameter that shows a needed leaf directly, without a range, carries the difference into the snapshot. */
  lemma DirectShowsLeaf(world: PlanCompiler.World, plan: PlanCompiler.Plan, frame: CanonicalFrame, id: nat, leaf: Leaf)
    requires PlanCompiler.StraightLine(world, plan.instructions) && id in PlanCompiler.Parameters(plan.instructions)
    requires ShowsDirectly(world, id, leaf)
    ensures Evaluation.Lookup(Evaluation.Run(world, frame, plan.instructions).floats, id) ==
            if ReadLeaf(frame, leaf).Real? then Some(ReadLeaf(frame, leaf).r) else None
  {
    var floats := Evaluation.Run(world, frame, plan.instructions).floats;
    var os := PlanCompiler.Operands(world.plans[id]);
    Evaluation.RunSolves(world, frame, plan.instructions);
    PlanCompiler.OperandsExact(world.plans[id], LeafOperand(leaf));
    assert os == [LeafOperand(leaf)];
    assert os[..0] == [];
    assert Evaluation.OperandValues(frame, floats, []) == Some([]);
  }

  ghost predicate ShowsDirectly(world: PlanCompiler.World, id: nat, leaf: Leaf) {
    && PlanCompiler.Compiles(world, id) && Evaluation.FloatParameter(world, id) && !world.definitions[id].hasRange
    && world.plans[id].operation.Direct? && Channelled(leaf) && Has(world.plans[id].inputs, leaf)
  }

  /** A mixed group changes what an avatar sees that requests such a parameter. */
  lemma MixingChangesAvatar(world: PlanCompiler.World, plan: PlanCompiler.Plan, config: Config, s: Subscription, group: seq<nat>,
                            leaf: Leaf, u: nat, value: nat -> real, id: nat)
    requires PlanCompiler.StraightLine(world, plan.instructions) && id in PlanCompiler.Parameters(plan.instructions) && id in plan.requested
    requires ShowsDirectly(world, id, leaf) && Selects(s, leaf)
    requires ConfigValid(config) && group in config.mutualExclusion && u < CHANNEL_COUNT
    requires Outshines(config, group, KeptChannels(s), LeafChannel(leaf), u, value)
    ensures var inputs := FirstInputs(LeafChannel(leaf), u, value);
            AllAccepted(config, inputs) && AvatarSees(world, plan, config, inputs, 0) != AvatarSees(world, plan, config, TrimAll(s, inputs), 0)
  {
    var inputs := FirstInputs(LeafChannel(leaf), u, value);
    MixingShows(config, s, group, leaf, u, value);
    SeenDirectly(world, plan, config, inputs, 0, id, leaf);
    SeenDirectly(world, plan, config, TrimAll(s, inputs), 0, id, leaf);
  }

  lemma SeenDirectly(world: PlanCompiler.World, plan: PlanCompiler.Plan, config: Config, inputs: seq<Input>, k: nat, id: nat, leaf: Leaf)
    requires PlanCompiler.StraightLine(world, plan.instructions) && id in PlanCompiler.Parameters(plan.instructions) && id in plan.requested
    requires ShowsDirectly(world, id, leaf) && ConfigValid(config) && k < |inputs|
    requires Read(config, inputs, k, leaf).Some? && Read(config, inputs, k, leaf).value.Real?
    ensures AvatarSees(world, plan, config, inputs, k).Some?
    ensures Evaluation.Lookup(AvatarSees(world, plan, config, inputs, k).value.floats, id) == Some(Read(config, inputs, k, leaf).value.r)
  {
    var frame := ShownAt(config, inputs, k).value;
    DirectShowsLeaf(world, plan, frame, id, leaf);
    RequestedLookup(Evaluation.Run(world, frame, plan.instructions).floats, plan.requested, id);
  }

  lemma RequestedLookup<T>(m: map<nat, T>, requested: set<nat>, id: nat)
    requires id in requested
    ensures Evaluation.Lookup(Evaluation.Requested(m, requested), id) == Evaluation.Lookup(m, id)
  {
  }
}
