/**
 What a channel shows at any time in any run: the output of its filter, held until its
 dropout begins and the hold is over, then fading linearly, then zero. The dropout
 begins when the last sample is stale, or when the source goes away before that.
 */
module DropoutRuns {
  import opened Common
  import opened TrackingModel
  import opened Filters
  import opened Tracking
  import opened Pipeline
  import opened PipelineRuns

  /** The source of the channel's group goes away with this frame. */
  predicate SourceLeaves(s: PipelineState, frame: MergedFrame, i: nat) {
    ViewOf(s.lastInput, i).source != "" && ViewOf(frame, i).source == ""
  }

  /** When the dropout begins after a call, given when it would have begun before; None without a sample. */
  function OnsetAfter(config: Config, s: PipelineState, input: Input, i: nat, onset: Option<int>): Option<int>
    requires ConfigValid(config) && |s.channels| == CHANNEL_COUNT && i < CHANNEL_COUNT
  {
    var c := Classify(s, input.frame, input.nowNS);
    if !Accepted(config, s, input.frame, input.nowNS) || c.Repeat? then onset
    else
      var sample := SampleOf(config, s, input.frame, c.reset, i);
      if sample.Some? then Some(AddSaturated(sample.value.atNS, config.channels[i].dropout.staleAfter))
      else if SourceReset(c.reset, ViewOf(s.lastInput, i), ViewOf(input.frame, i)) then None
      else if SourceLeaves(s, input.frame, i) && onset.Some? && input.frame.updatedAtNS < onset.value then Some(input.frame.updatedAtNS)
      else onset
  }

  /** When a channel's dropout begins, as the calls of a run say. */
  function Onset(config: Config, inputs: seq<Input>, i: nat): Option<int>
    requires ConfigValid(config) && i < CHANNEL_COUNT
  {
    if inputs == [] then None
    else
      var init := inputs[..|inputs| - 1];
      OnsetAfter(config, Reached(config, init), inputs[|inputs| - 1], i, Onset(config, init, i))
  }

  predicate DropsAt(channel: ChannelState, onset: Option<int>) {
    if channel.seen then onset == Some(channel.dropoutStartNS) else onset.None?
  }

  lemma OnsetStep(config: Config, s: PipelineState, input: Input, i: nat, onset: Option<int>)
    requires ConfigValid(config) && |s.channels| == CHANNEL_COUNT && i < CHANNEL_COUNT
    requires DropsAt(s.channels[i], onset)
    ensures DropsAt(Step(config, s, input).channels[i], OnsetAfter(config, s, input, i, onset))
  {
    var frame, c := input.frame, Classify(s, input.frame, input.nowNS);
    if Accepted(config, s, frame, input.nowNS) && c.NewInput? {
      assert ChannelAfter(config, s, frame, c.reset, i).Some?;
    }
  }

  lemma {:induction false} OnsetHolds(config: Config, inputs: seq<Input>, i: nat)
    requires ConfigValid(config) && i < CHANNEL_COUNT
    ensures DropsAt(Reached(config, inputs).channels[i], Onset(config, inputs, i))
  {
    if inputs != [] {
      var n := |inputs| - 1;
      OnsetHolds(config, inputs[..n], i);
      OnsetStep(config, Reached(config, inputs[..n]), inputs[n], i, Onset(config, inputs[..n], i));
    }
  }

  /** What the filter of a channel makes of its samples. */
  function Filtered(config: Config, inputs: seq<Input>, i: nat): real
    requires ConfigValid(config) && i < CHANNEL_COUNT
  {
    var fed := Feed(config.pi, config.channels[i].filter, Samples(config, inputs, i));
    if fed.Some? then fed.value.filtered else 0.0
  }

  /** In every run and at any time: a channel without a sample shows nothing, any other the faded output of its filter. */
  lemma ShownExactly(config: Config, inputs: seq<Input>, i: nat, nowNS: int)
    requires ConfigValid(config) && i < CHANNEL_COUNT
    ensures Onset(config, inputs, i).Some? <==> Samples(config, inputs, i) != []
    ensures CandidateOf(config, Reached(config, inputs), nowNS, i) ==
            match Onset(config, inputs, i)
            case None => Candidate(0.0, false)
            case Some(onset) =>
              var p := config.channels[i].dropout;
              Candidate(Scaled(Filtered(config, inputs, i), Fraction(p, nowNS - onset - p.hold)), true)
  {
    var s := Reached(config, inputs).channels[i];
    ChannelIsFed(config, inputs, i);
    OnsetHolds(config, inputs, i);
    if s.seen { ShownFraction(s, config.channels[i].dropout, nowNS); }
  }

  /** Nothing has faded before the decay begins, and everything once it is over. */
  lemma FadeEnds(shown: Candidate, value: real, p: DropoutPolicy, elapsed: int)
    requires shown.value == Scaled(value, Fraction(p, elapsed))
    ensures elapsed <= 0 ==> shown.value == value
    ensures elapsed > 0 && elapsed >= p.decay ==> shown.value == 0.0
  {
    assert Scaled(value, 1.0) == value && Scaled(value, 0.0) == 0.0;
  }

  /** So the output is held until the hold is over, and is exactly zero once the decay is. */
  lemma HeldThenZero(config: Config, inputs: seq<Input>, i: nat, nowNS: int)
    requires ConfigValid(config) && i < CHANNEL_COUNT && Onset(config, inputs, i).Some?
    ensures var p, shown := config.channels[i].dropout, CandidateOf(config, Reached(config, inputs), nowNS, i);
            var end := Onset(config, inputs, i).value + p.hold;
            && shown.valid
            && (nowNS <= end ==> shown.value == Filtered(config, inputs, i))
            && (nowNS > end && nowNS >= end + p.decay ==> shown.value == 0.0)
  {
    var p, shown, onset := config.channels[i].dropout, CandidateOf(config, Reached(config, inputs), nowNS, i), Onset(config, inputs, i).value;
    ShownExactly(config, inputs, i, nowNS);
    FadeEnds(shown, Filtered(config, inputs, i), p, nowNS - onset - p.hold);
  }

  // ---- While nothing reaches the channel ----

  /** The call feeds the channel no sample, does not reset it, and does not take its source away. */
  predicate StaysPut(config: Config, s: PipelineState, input: Input, i: nat)
    requires ConfigValid(config) && |s.channels| == CHANNEL_COUNT && i < CHANNEL_COUNT
  {
    LeavesAlone(config, s, input, i) && !SourceLeaves(s, input.frame, i)
  }

  predicate StaysPutAt(config: Config, inputs: seq<Input>, k: nat, i: nat)
    requires ConfigValid(config) && k < |inputs| && i < CHANNEL_COUNT
  {
    StaysPut(config, Reached(config, inputs[..k]), inputs[k], i)
  }

  lemma LastCallChangesNothing(config: Config, inputs: seq<Input>, i: nat)
    requires ConfigValid(config) && i < CHANNEL_COUNT && inputs != [] && StaysPutAt(config, inputs, |inputs| - 1, i)
    ensures Onset(config, inputs, i) == Onset(config, inputs[..|inputs| - 1], i)
    ensures Samples(config, inputs, i) == Samples(config, inputs[..|inputs| - 1], i)
  {
  }

  lemma {:induction false} NothingChanges(config: Config, inputs: seq<Input>, from: nat, i: nat)
    requires ConfigValid(config) && i < CHANNEL_COUNT && from <= |inputs|
    requires forall k | from <= k < |inputs| :: StaysPutAt(config, inputs, k, i)
    ensures Onset(config, inputs, i) == Onset(config, inputs[..from], i)
    ensures Samples(config, inputs, i) == Samples(config, inputs[..from], i)
    decreases |inputs|
  {
    if from == |inputs| {
      assert inputs[..from] == inputs;
    } else {
      var n := |inputs| - 1;
      var init := inputs[..n];
      assert init[..from] == inputs[..from];
      forall k | from <= k < n ensures StaysPutAt(config, init, k, i) {
        assert init[..k] == inputs[..k] && StaysPutAt(config, inputs, k, i);
      }
      NothingChanges(config, init, from, i);
      assert StaysPutAt(config, inputs, n, i);
      LastCallChangesNothing(config, inputs, i);
    }
  }

  /** The call number k is an accepted new input that brings the channel this sample. */
  predicate Feeds(config: Config, inputs: seq<Input>, k: nat, i: nat, sample: Sample)
    requires ConfigValid(config) && k < |inputs| && i < CHANNEL_COUNT
  {
    var s := Reached(config, inputs[..k]);
    var c := Classify(s, inputs[k].frame, inputs[k].nowNS);
    AcceptedAt(config, inputs, k) && c.NewInput? && SampleOf(config, s, inputs[k].frame, c.reset, i) == Some(sample)
  }

  lemma OnsetOfSample(config: Config, inputs: seq<Input>, k: nat, i: nat, sample: Sample)
    requires ConfigValid(config) && k < |inputs| && i < CHANNEL_COUNT && Feeds(config, inputs, k, i, sample)
    ensures Onset(config, inputs[..k + 1], i) == Some(AddSaturated(sample.atNS, config.channels[i].dropout.staleAfter))
  {
    assert inputs[..k + 1][..k] == inputs[..k];
  }

  /**
   The windows, over a run: from a sample on, while the source stays and brings the
   channel nothing more, the filter's output for that sample is shown unchanged through
   the stale and the hold window, and exactly zero is shown past the decay window.
   */
  lemma WindowsOverRun(config: Config, inputs: seq<Input>, k: nat, i: nat, sample: Sample, nowNS: int)
    requires ConfigValid(config) && k < |inputs| && i < CHANNEL_COUNT && Feeds(config, inputs, k, i, sample)
    requires forall j | k < j < |inputs| :: StaysPutAt(config, inputs, j, i)
    ensures var p, shown := config.channels[i].dropout, CandidateOf(config, Reached(config, inputs), nowNS, i);
            var end := AddSaturated(sample.atNS, p.staleAfter) + p.hold;
            && shown.valid
            && (nowNS <= end ==> shown.value == Filtered(config, inputs[..k + 1], i))
            && (nowNS > end && nowNS >= end + p.decay ==> shown.value == 0.0)
  {
    OnsetOfSample(config, inputs, k, i, sample);
    NothingChanges(config, inputs, k + 1, i);
    HeldThenZero(config, inputs, i, nowNS);
  }
}
