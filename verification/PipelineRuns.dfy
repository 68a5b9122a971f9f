/**
 Whole runs of the pipeline: a run is a sequence of frames with the times at which
 they are processed, and the state it reaches is a function of that sequence.
 */
module PipelineRuns {
  import opened Common
  import opened TrackingModel
  import opened Filters
  import opened Tracking
  import opened Pipeline

  datatype Input = Input(frame: MergedFrame, nowNS: int)

  /** One call, accepted or not. */
  function Step(config: Config, s: PipelineState, input: Input): (r: PipelineState)
    requires ConfigValid(config) && |s.channels| == CHANNEL_COUNT
    ensures |r.channels| == CHANNEL_COUNT
  {
    if Accepted(config, s, input.frame, input.nowNS) then After(config, s, input.frame, input.nowNS) else s
  }

  /** The state of a new pipeline after these calls. */
  function Reached(config: Config, inputs: seq<Input>): (r: PipelineState)
    requires ConfigValid(config)
    ensures |r.channels| == CHANNEL_COUNT
  {
    if inputs == [] then NewState() else Step(config, Reached(config, inputs[..|inputs| - 1]), inputs[|inputs| - 1])
  }

  /** Whether the call number k of a run is accepted. */
  predicate AcceptedAt(config: Config, inputs: seq<Input>, k: nat)
    requires ConfigValid(config) && k < |inputs|
  {
    Accepted(config, Reached(config, inputs[..k]), inputs[k].frame, inputs[k].nowNS)
  }

  ghost predicate AllAccepted(config: Config, inputs: seq<Input>)
    requires ConfigValid(config)
  {
    forall k | 0 <= k < |inputs| :: AcceptedAt(config, inputs, k)
  }

  /** What one call shows, if it is accepted. */
  function Shows(config: Config, s: PipelineState, input: Input): Option<CanonicalFrame>
    requires ConfigValid(config) && |s.channels| == CHANNEL_COUNT
  {
    if Accepted(config, s, input.frame, input.nowNS)
    then Some(CanonicalOf(config, After(config, s, input.frame, input.nowNS), input.frame, input.nowNS))
    else None
  }

  /** What the call number k of a run shows, if it is accepted. */
  function ShownAt(config: Config, inputs: seq<Input>, k: nat): Option<CanonicalFrame>
    requires ConfigValid(config) && k < |inputs|
  {
    Shows(config, Reached(config, inputs[..k]), inputs[k])
  }

  lemma ReachedNext(config: Config, inputs: seq<Input>, k: nat)
    requires ConfigValid(config) && k < |inputs|
    ensures Reached(config, inputs[..k + 1]) == Step(config, Reached(config, inputs[..k]), inputs[k])
  {
    assert inputs[..k + 1][..k] == inputs[..k];
  }

  /** The call number n of a run, on a pipeline that has been through the calls before it. */
  method Call(pipeline: ProcessingPipeline, inputs: seq<Input>, n: nat) returns (shown: Option<CanonicalFrame>)
    requires pipeline.Valid() && n < |inputs| && pipeline.state == Reached(pipeline.config, inputs[..n])
    modifies pipeline
    ensures pipeline.Valid() && pipeline.state == Reached(pipeline.config, inputs[..n + 1])
    ensures shown == ShownAt(pipeline.config, inputs, n)
  {
    ReachedNext(pipeline.config, inputs, n);
    var r := pipeline.ProcessAt(inputs[n].frame, inputs[n].nowNS);
    shown := if r.Processed? then Some(r.frame) else None;
  }

  /** What all calls of a run show. */
  function Outputs(config: Config, inputs: seq<Input>): (r: seq<Option<CanonicalFrame>>)
    requires ConfigValid(config)
    ensures |r| == |inputs|
  {
    if inputs == [] then []
    else
      var n := |inputs| - 1;
      Outputs(config, inputs[..n]) + [ShownAt(config, inputs, n)]
  }

  /** The pipeline's runs are the defined ones. */
  method RunPipeline(config: Config, inputs: seq<Input>) returns (shown: seq<Option<CanonicalFrame>>)
    requires ConfigValid(config)
    ensures shown == Outputs(config, inputs)
  {
    var pipeline := new ProcessingPipeline(config);
    shown := [];
    for n := 0 to |inputs|
      invariant fresh(pipeline) && pipeline.Valid() && pipeline.config == config
      invariant pipeline.state == Reached(config, inputs[..n])
      invariant shown == Outputs(config, inputs[..n])
    {
      var now := Call(pipeline, inputs, n);
      OutputsNext(config, inputs, n);
      shown := shown + [now];
    }
    assert inputs[..|inputs|] == inputs;
  }

  lemma {:induction false} OutputsAt(config: Config, inputs: seq<Input>, k: nat)
    requires ConfigValid(config) && k < |inputs|
    ensures Outputs(config, inputs)[k] == ShownAt(config, inputs, k)
    decreases |inputs|
  {
    var init := inputs[..|inputs| - 1];
    if k < |init| {
      OutputsAt(config, init, k);
      assert init[..k] == inputs[..k];
    }
  }

  lemma OutputsNext(config: Config, inputs: seq<Input>, n: nat)
    requires ConfigValid(config) && n < |inputs|
    ensures Outputs(config, inputs[..n + 1]) == Outputs(config, inputs[..n]) + [ShownAt(config, inputs, n)]
  {
    var next := inputs[..n + 1];
    assert next[..n] == inputs[..n];
    assert ShownAt(config, next, n) == ShownAt(config, inputs, n);
  }

  // ---- What a reset forgets ----

  /** A call that starts a generation leaves the same state whatever was processed before. */
  lemma ResetForgetsState(config: Config, a: PipelineState, b: PipelineState, input: Input)
    requires ConfigValid(config) && |a.channels| == |b.channels| == CHANNEL_COUNT
    requires Classify(a, input.frame, input.nowNS) == Classify(b, input.frame, input.nowNS) == NewInput(true)
    ensures Shows(config, a, input) == Shows(config, b, input)
    ensures Shows(config, a, input).Some? ==> Step(config, a, input) == Step(config, b, input)
  {
    var frame := input.frame;
    assert forall i | 0 <= i < CHANNEL_COUNT :: ChannelAfter(config, a, frame, true, i) == ChannelAfter(config, b, frame, true, i);
    assert Ingestible(config, a, frame, true) <==> Ingestible(config, b, frame, true);
    if Ingestible(config, a, frame, true) {
      assert ChannelsAfter(config, a, frame, true) == ChannelsAfter(config, b, frame, true);
    }
  }

  /** After these calls, this one is accepted and starts a generation. */
  predicate StartsGeneration(config: Config, before: seq<Input>, first: Input)
    requires ConfigValid(config)
  {
    var s := Reached(config, before);
    Accepted(config, s, first.frame, first.nowNS) && (s.hasLast ==> s.lastInput.generation < first.frame.generation)
  }

  lemma ReachedSnoc(config: Config, inputs: seq<Input>, last: Input)
    requires ConfigValid(config)
    ensures Reached(config, inputs + [last]) == Step(config, Reached(config, inputs), last)
  {
    assert (inputs + [last])[..|inputs|] == inputs;
  }

  lemma StartForgets(config: Config, before: seq<Input>, first: Input)
    requires ConfigValid(config) && StartsGeneration(config, before, first)
    ensures Step(config, Reached(config, before), first) == Step(config, NewState(), first)
    ensures Shows(config, Reached(config, before), first) == Shows(config, NewState(), first)
  {
    ResetForgetsState(config, Reached(config, before), NewState(), first);
  }

  /** Runs that have met stay together. */
  lemma {:induction false} RunsStayTogether(config: Config, a: seq<Input>, b: seq<Input>, more: seq<Input>)
    requires ConfigValid(config) && Reached(config, a) == Reached(config, b)
    ensures Reached(config, a + more) == Reached(config, b + more)
    decreases |more|
  {
    if more == [] {
      assert a + more == a && b + more == b;
    } else {
      var init, last := more[..|more| - 1], more[|more| - 1];
      RunsStayTogether(config, a, b, init);
      LastApart(a, more);
      LastApart(b, more);
      ReachedSnoc(config, a + init, last);
      ReachedSnoc(config, b + init, last);
    }
  }

  lemma LastApart(a: seq<Input>, more: seq<Input>)
    requires more != []
    ensures a + more == a + more[..|more| - 1] + [more[|more| - 1]]
  {
  }

  /** Once a generation starts, nothing earlier has any influence on the state. */
  lemma ResetForgets(config: Config, before: seq<Input>, first: Input, more: seq<Input>)
    requires ConfigValid(config) && StartsGeneration(config, before, first)
    ensures Reached(config, before + [first] + more) == Reached(config, [first] + more)
  {
    GenerationsMeet(config, before, first);
    RunsStayTogether(config, before + [first], [first], more);
  }

  lemma GenerationsMeet(config: Config, before: seq<Input>, first: Input)
    requires ConfigValid(config) && StartsGeneration(config, before, first)
    ensures Reached(config, before + [first]) == Reached(config, [first])
  {
    assert [] + [first] == [first];
    StartForgets(config, before, first);
    ReachedSnoc(config, before, first);
    ReachedSnoc(config, [], first);
  }

  /** Every call of the new generation shows what it would show a pipeline that never saw anything else. */
  lemma ShownAfterReset(config: Config, before: seq<Input>, first: Input, more: seq<Input>, k: nat)
    requires ConfigValid(config) && k <= |more| && StartsGeneration(config, before, first)
    ensures ShownAt(config, before + [first] + more, |before| + k) == ShownAt(config, [first] + more, k)
  {
    if k > 0 {
      ResetForgets(config, before, first, more[..k - 1]);
      CallsBefore(before, first, more, k);
    } else {
      StartForgets(config, before, first);
      assert (before + [first] + more)[..|before|] == before && ([first] + more)[..0] == [];
    }
  }

  lemma CallsBefore(before: seq<Input>, first: Input, more: seq<Input>, k: nat)
    requires 0 < k <= |more|
    ensures (before + [first] + more)[..|before| + k] == before + [first] + more[..k - 1]
    ensures ([first] + more)[..k] == [first] + more[..k - 1]
    ensures (before + [first] + more)[|before| + k] == more[k - 1] == ([first] + more)[k]
  {
  }

  // ---- What a channel has been fed ----

  /** The sample that an accepted new input feeds to a channel, if any. */
  function SampleOf(config: Config, s: PipelineState, frame: MergedFrame, reset: bool, i: nat): Option<Sample>
    requires ConfigValid(config) && i < CHANNEL_COUNT
  {
    var raw := RawValue(frame.eye, frame.expressions, i);
    if IsFresh(s, frame, reset, i) && raw.Some? then Some(Sample(Tuned(config, i, raw.value), ViewOf(frame, i).atNS)) else None
  }

  /** The samples a channel has after a call, given those it had before. */
  function SamplesAfter(config: Config, s: PipelineState, input: Input, i: nat, samples: seq<Sample>): seq<Sample>
    requires ConfigValid(config) && |s.channels| == CHANNEL_COUNT && i < CHANNEL_COUNT
  {
    var c := Classify(s, input.frame, input.nowNS);
    if !Accepted(config, s, input.frame, input.nowNS) || c.Repeat? then samples
    else
      var kept := if SourceReset(c.reset, ViewOf(s.lastInput, i), ViewOf(input.frame, i)) then [] else samples;
      var sample := SampleOf(config, s, input.frame, c.reset, i);
      if sample.Some? then kept + [sample.value] else kept
  }

  /** The tuned samples a channel has received in a run since its generation or its source last changed. */
  function Samples(config: Config, inputs: seq<Input>, i: nat): seq<Sample>
    requires ConfigValid(config) && i < CHANNEL_COUNT
  {
    if inputs == [] then []
    else
      var init := inputs[..|inputs| - 1];
      SamplesAfter(config, Reached(config, init), inputs[|inputs| - 1], i, Samples(config, init, i))
  }

  /** A channel is what its samples make of a new one. */
  predicate FedBy(config: Config, channel: ChannelState, i: nat, samples: seq<Sample>)
    requires ConfigValid(config) && i < CHANNEL_COUNT
  {
    && Feed(config.pi, config.channels[i].filter, samples) == Some(channel.filter)
    && (channel.seen <==> samples != [])
    && (channel.seen ==> channel.lastFreshValue == channel.filter.filtered && channel.lastFreshAtNS == samples[|samples| - 1].atNS)
  }

  lemma FeedOneMore(config: Config, i: nat, channel: ChannelState, samples: seq<Sample>, raw: real, atNS: int)
    requires ConfigValid(config) && i < CHANNEL_COUNT && FedBy(config, channel, i, samples)
    requires IngestSample(config, i, channel, raw, atNS).Some?
    ensures FedBy(config, IngestSample(config, i, channel, raw, atNS).value, i, samples + [Sample(Tuned(config, i, raw), atNS)])
  {
    var more := samples + [Sample(Tuned(config, i, raw), atNS)];
    assert more[..|samples|] == samples;
  }

  lemma FedByStep(config: Config, s: PipelineState, input: Input, i: nat, samples: seq<Sample>)
    requires ConfigValid(config) && |s.channels| == CHANNEL_COUNT && i < CHANNEL_COUNT
    requires FedBy(config, s.channels[i], i, samples)
    ensures FedBy(config, Step(config, s, input).channels[i], i, SamplesAfter(config, s, input, i, samples))
  {
    var frame, c := input.frame, Classify(s, input.frame, input.nowNS);
    if Accepted(config, s, frame, input.nowNS) && c.NewInput? {
      var reset := SourceReset(c.reset, ViewOf(s.lastInput, i), ViewOf(frame, i));
      var kept, prepared := if reset then [] else samples, Prepared(s, frame, c.reset, i);
      assert FedBy(config, prepared, i, kept);
      assert ChannelAfter(config, s, frame, c.reset, i).Some?;
      var raw := RawValue(frame.eye, frame.expressions, i);
      if IsFresh(s, frame, c.reset, i) && raw.Some? {
        FeedOneMore(config, i, prepared, kept, raw.value, ViewOf(frame, i).atNS);
      }
    }
  }

  /** In every run a channel's filter is a new filter fed its samples, and its last fresh value is the filter's output. */
  lemma {:induction false} ChannelIsFed(config: Config, inputs: seq<Input>, i: nat)
    requires ConfigValid(config) && i < CHANNEL_COUNT
    ensures FedBy(config, Reached(config, inputs).channels[i], i, Samples(config, inputs, i))
  {
    if inputs != [] {
      var n := |inputs| - 1;
      ChannelIsFed(config, inputs[..n], i);
      FedByStep(config, Reached(config, inputs[..n]), inputs[n], i, Samples(config, inputs[..n], i));
    }
  }

  /** In every run, at any time, a channel shows no more than the largest sample since its reset. */
  lemma ShownIsBounded(config: Config, inputs: seq<Input>, i: nat, nowNS: int, most: real)
    requires ConfigValid(config) && i < CHANNEL_COUNT && most >= 0.0
    requires forall s | s in Samples(config, inputs, i) :: Abs(s.input) <= most
    ensures Abs(CandidateOf(config, Reached(config, inputs), nowNS, i).value) <= most
  {
    var s, samples := Reached(config, inputs).channels[i], Samples(config, inputs, i);
    ChannelIsFed(config, inputs, i);
    if s.seen {
      OutputsStayWithinInputs(config.pi, config.channels[i].filter, samples, -most, most);
      MagnitudeNeverGrows(s, config.channels[i].dropout, nowNS, nowNS, None);
    }
  }

  /** The call feeds the channel no sample and does not reset it. */
  predicate LeavesAlone(config: Config, s: PipelineState, input: Input, i: nat)
    requires ConfigValid(config) && |s.channels| == CHANNEL_COUNT && i < CHANNEL_COUNT
  {
    var c := Classify(s, input.frame, input.nowNS);
    Accepted(config, s, input.frame, input.nowNS) && c.NewInput? ==>
      && !SourceReset(c.reset, ViewOf(s.lastInput, i), ViewOf(input.frame, i))
      && SampleOf(config, s, input.frame, c.reset, i).None?
  }

  predicate LeftAloneAt(config: Config, inputs: seq<Input>, k: nat, i: nat)
    requires ConfigValid(config) && k < |inputs| && i < CHANNEL_COUNT
  {
    LeavesAlone(config, Reached(config, inputs[..k]), inputs[k], i)
  }

  /** How much a channel shows at a time. */
  function Magnitude(config: Config, s: PipelineState, i: nat, nowNS: int): real
    requires ConfigValid(config) && |s.channels| == CHANNEL_COUNT && i < CHANNEL_COUNT
  {
    Abs(CandidateOf(config, s, nowNS, i).value)
  }

  lemma LeftAloneShrinks(config: Config, s: PipelineState, input: Input, i: nat, earlier: int, later: int)
    requires ConfigValid(config) && |s.channels| == CHANNEL_COUNT && i < CHANNEL_COUNT && earlier <= later
    requires LeavesAlone(config, s, input, i)
    ensures Magnitude(config, Step(config, s, input), i, later) <= Magnitude(config, s, i, earlier)
  {
    var before, after, p := s.channels[i], Step(config, s, input).channels[i], config.channels[i].dropout;
    if before.seen {
      MagnitudeNeverGrows(before, p, earlier, later, None);
      MagnitudeNeverGrows(before, p, earlier, later, Some(input.frame.updatedAtNS));
      assert after == before || after == RecordUnavailable(before, input.frame.updatedAtNS);
    }
  }

  lemma TimeShrinks(config: Config, s: PipelineState, i: nat, earlier: int, later: int)
    requires ConfigValid(config) && |s.channels| == CHANNEL_COUNT && i < CHANNEL_COUNT && earlier <= later
    ensures Magnitude(config, s, i, later) <= Magnitude(config, s, i, earlier)
  {
    if s.channels[i].seen { MagnitudeNeverGrows(s.channels[i], config.channels[i].dropout, earlier, later, None); }
  }

  /** While calls leave a channel alone, whether its source stays or goes, its magnitude never grows. */
  lemma {:induction false} QuietRunShrinks(config: Config, inputs: seq<Input>, from: nat, i: nat, earlier: int, later: int)
    requires ConfigValid(config) && i < CHANNEL_COUNT && from <= |inputs| && earlier <= later
    requires forall k | from <= k < |inputs| :: LeftAloneAt(config, inputs, k, i)
    ensures Magnitude(config, Reached(config, inputs), i, later) <= Magnitude(config, Reached(config, inputs[..from]), i, earlier)
    decreases |inputs|
  {
    if from == |inputs| {
      assert inputs[..from] == inputs;
      TimeShrinks(config, Reached(config, inputs), i, earlier, later);
    } else {
      var n := |inputs| - 1;
      var init := inputs[..n];
      assert init[..from] == inputs[..from];
      forall k | from <= k < n ensures LeftAloneAt(config, init, k, i) {
        assert init[..k] == inputs[..k] && LeftAloneAt(config, inputs, k, i);
      }
      QuietRunShrinks(config, init, from, i, earlier, earlier);
      assert LeftAloneAt(config, inputs, n, i);
      LeftAloneShrinks(config, Reached(config, init), inputs[n], i, earlier, later);
    }
  }
}
