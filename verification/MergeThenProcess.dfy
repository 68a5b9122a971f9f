/**
 The two halves composed: whatever the merge service publishes, in any run, the
 pipeline accepts, however the subscriber drops or repeats frames.
 */
module MergeThenProcess {
  import opened Common
  import opened TrackingModel
  import opened Tracking
  import opened Pipeline
  import opened PipelineRuns

  datatype ServiceEvent =
    | Generation(generation: nat, now: Clock)
    | Frame(pluginID: string, generation: nat, frame: TrackingFrame, receiptNow: Clock, mergeNow: Clock)
    | Routing(config: RoutingConfig, now: Clock)
    | Removal(pluginID: string, now: Clock)

  // ---- What each event does ----

  /** The service has stored the frame under its plugin, and merges what it then holds. */
  ghost predicate Stores(s: ServiceState, before: seq<MergedFrame>, id: string, frame: TrackingFrame, receiptNow: int,
                         t: ServiceState, after: seq<MergedFrame>) {
    && t.generation == s.generation && t.routing == s.routing
    && t.acceptedFrames == SaturatingAdd(s.acceptedFrames, 1) && t.rejectedFrames == s.rejectedFrames
    && t.sources == s.sources[id := Stored(s.sources, id, Canonicalize(frame), ReceiptTime(s, receiptNow))]
    && Reselected(s, t) && Republished(s, before, id in {s.eyeSource, s.expressionSource, s.lipSource}, t, after)
  }

  /** What an event does to the service, and what is published. */
  ghost predicate Serves(s: ServiceState, before: seq<MergedFrame>, e: ServiceEvent, t: ServiceState, after: seq<MergedFrame>) {
    match e
    case Generation(generation, now) =>
      if generation <= s.generation then t == s && after == before
      else
        && t.generation == generation && t.routing == s.routing && t.sources == map[]
        && t.eyeSource == "" && t.expressionSource == "" && t.lipSource == ""
        && after == before + [t.latest] && t.latest.capabilities == {}
    case Frame(id, generation, frame, receiptNow, mergeNow) =>
      if Rejection(s, id, generation, frame) == NoError then Stores(s, before, id, frame, receiptNow, t, after)
      else t == s.(rejectedFrames := SaturatingAdd(s.rejectedFrames, 1)) && after == before
    case Routing(config, now) =>
      if !RoutingValid(config) || config == s.routing then t == s && after == before
      else if s.generation == 0 then t == s.(routing := config) && after == before
      else
        && t.generation == s.generation && t.routing == config && t.sources == s.sources
        && Reselected(s, t) && Republished(s, before, true, t, after)
    case Removal(id, now) =>
      if id !in s.sources then t == s && after == before
      else
        && t.generation == s.generation && t.routing == s.routing && t.sources == s.sources - {id}
        && Reselected(s, t) && Republished(s, before, false, t, after)
  }

  method Serve(service: Service, event: ServiceEvent)
    requires service.Valid()
    modifies service
    ensures service.Valid() && Serves(old(service.state), old(service.published), event, service.state, service.published)
  {
    match event {
      case Generation(generation, now) => var r := service.SetGeneration(generation, now);
      case Frame(pluginID, generation, frame, receiptNow, mergeNow) =>
        var r := service.Submit(pluginID, generation, frame, receiptNow, mergeNow);
      case Routing(config, now) => var r := service.SetRouting(config, now);
      case Removal(pluginID, now) => service.RemoveSource(pluginID, now);
    }
  }

  /** A service with what it has published. */
  datatype View = View(state: ServiceState, published: seq<MergedFrame>)

  /** Every event of a run has done what it is to do. */
  ghost predicate Recorded(views: seq<View>, events: seq<ServiceEvent>, last: View) {
    && 0 < |views| <= |events| + 1 && views[|views| - 1] == last
    && forall i | 0 <= i < |views| - 1 ::
         Serves(views[i].state, views[i].published, events[i], views[i + 1].state, views[i + 1].published)
  }

  lemma {:induction false} RecordedOn(views: seq<View>, events: seq<ServiceEvent>, last: View, next: View)
    requires Recorded(views, events, last) && |views| <= |events|
    requires Serves(last.state, last.published, events[|views| - 1], next.state, next.published)
    ensures Recorded(views + [next], events, next)
  {
    var n, more := |views|, views + [next];
    forall i | 0 <= i < n ensures Serves(more[i].state, more[i].published, events[i], more[i + 1].state, more[i + 1].published) {
      if i < n - 1 {
        assert Serves(views[i].state, views[i].published, events[i], views[i + 1].state, views[i + 1].published);
      } else {
        assert more[i] == last && more[i + 1] == next;
      }
    }
  }

  /** The views of a run of the service over these events, at the end of which so much has been published. */
  ghost predicate IsRun(events: seq<ServiceEvent>, views: seq<View>, published: seq<MergedFrame>) {
    && |views| == |events| + 1 && views[0] == View(NewService(), [])
    && Recorded(views, events, views[|events|]) && views[|events|].published == published
  }

  /**
   Every run of the merge service: each event does what `Serves` says, the published
   frames are an ordered stream of well-formed ones, and the latest frame is the pure merge
   of the current sources.
   */
  method RunService(events: seq<ServiceEvent>) returns (published: seq<MergedFrame>, state: ServiceState, ghost views: seq<View>)
    ensures IsRun(events, views, published) && views[|events|].state == state
    ensures Stream(published)
    ensures SelectionsValid(state)
    ensures state.generation > 0 ==> published != [] && published[|published| - 1] == state.latest
    ensures state.generation > 0 ==>
              Content(state.latest) == Merge(state.generation, state.sources, state.eyeSource, state.expressionSource, state.lipSource)
  {
    var service := new Service();
    views := [View(service.state, service.published)];
    for i := 0 to |events|
      invariant fresh(service) && service.Valid()
      invariant |views| == i + 1 && views[0] == View(NewService(), []) && Recorded(views, events, View(service.state, service.published))
    {
      ghost var before := View(service.state, service.published);
      Serve(service, events[i]);
      RecordedOn(views, events, before, View(service.state, service.published));
      views := views + [View(service.state, service.published)];
    }
    published, state := service.published, service.state;
  }

  /** What a subscriber sees of a stream: some frames, in order, each perhaps several times. */
  predicate InOrder(picks: seq<nat>, n: nat) {
    && (forall i | 0 <= i < |picks| :: picks[i] < n)
    && (forall i | 0 <= i < |picks| - 1 :: picks[i] <= picks[i + 1])
  }

  /** A processing schedule: strictly increasing times, none before its frame was published. */
  predicate Schedule(published: seq<MergedFrame>, picks: seq<nat>, times: seq<int>)
    requires InOrder(picks, |published|)
  {
    && |times| == |picks|
    && (forall i | 0 <= i < |picks| :: published[picks[i]].updatedAtNS <= times[i])
    && (forall i | 0 <= i < |picks| - 1 :: times[i] < times[i + 1])
  }

  lemma WellFormedIsValid(f: MergedFrame, nowNS: int)
    requires WellFormed(f) && f.updatedAtNS <= nowNS
    ensures InputValid(f, nowNS)
  {
  }

  /** The same frame or a later one of the stream is classified as a repeat or a new input, never refused. */
  lemma FollowingIsAdmitted(s: PipelineState, f: MergedFrame, nowNS: int)
    requires s.hasLast && (f == s.lastInput || Follows(s.lastInput, f)) && s.lastNowNS < nowNS
    ensures !Classify(s, f, nowNS).Refuse?
    ensures Classify(s, f, nowNS) == NewInput(false) ==> TimesAdvance(s.lastInput, f)
  {
  }

  /** Past saturation a changed frame is admitted exactly when no group's freshness regressed. */
  lemma SaturatedAdmission(s: PipelineState, f: MergedFrame, nowNS: int)
    requires s.hasLast && s.lastNowNS < nowNS && f != s.lastInput
    requires f.generation == s.lastInput.generation && f.sequence == s.lastInput.sequence
    ensures Classify(s, f, nowNS) == NewInput(false) <==>
            f.sequence == MAX_UINT64 && SaturatedFreshnessNonregressing(s.lastInput, f)
  {
  }

  /** The calls that a selection and a schedule make. */
  function Calls(published: seq<MergedFrame>, picks: seq<nat>, times: seq<int>): (r: seq<Input>)
    requires InOrder(picks, |published|) && |times| == |picks|
    ensures |r| == |picks| && forall k | 0 <= k < |r| :: r[k] == Input(published[picks[k]], times[k])
  {
    seq(|picks|, k requires 0 <= k < |picks| => Input(published[picks[k]], times[k]))
  }

  /** After n calls: the filters are behind, and the last call is the last input. */
  ghost predicate InStep(s: PipelineState, inputs: seq<Input>, n: nat)
    requires |s.channels| == CHANNEL_COUNT && n <= |inputs|
  {
    && ClocksBehind(s) && (s.hasLast <==> n > 0)
    && (n > 0 ==> s.lastInput == inputs[n - 1].frame && s.lastNowNS == inputs[n - 1].nowNS)
  }

  /** The same frame again or a later one of the stream, at a later time. */
  ghost predicate Succeeds(before: Input, next: Input) {
    (next.frame == before.frame || Follows(before.frame, next.frame)) && before.nowNS < next.nowNS
  }

  lemma CallIsAccepted(config: Config, s: PipelineState, inputs: seq<Input>, n: nat)
    requires ConfigValid(config) && |s.channels| == CHANNEL_COUNT && n < |inputs| && InStep(s, inputs, n)
    requires WellFormed(inputs[n].frame) && inputs[n].frame.updatedAtNS <= inputs[n].nowNS
    requires n > 0 ==> Succeeds(inputs[n - 1], inputs[n])
    ensures Accepted(config, s, inputs[n].frame, inputs[n].nowNS)
    ensures InStep(Step(config, s, inputs[n]), inputs, n + 1)
  {
    var f, now := inputs[n].frame, inputs[n].nowNS;
    WellFormedIsValid(f, now);
    if n > 0 { FollowingIsAdmitted(s, f, now); }
    OrderedIsAccepted(config, s, f, now);
    ClocksStayBehind(config, s, f, now);
  }

  /** An ordered stream never lets a filter get ahead, so call after call is accepted. */
  lemma {:induction false} StreamIsAccepted(config: Config, published: seq<MergedFrame>, picks: seq<nat>, times: seq<int>, n: nat)
    requires ConfigValid(config) && Stream(published)
    requires InOrder(picks, |published|) && Schedule(published, picks, times) && n <= |picks|
    ensures InStep(Reached(config, Calls(published, picks, times)[..n]), Calls(published, picks, times), n)
    ensures forall k | 0 <= k < n :: AcceptedAt(config, Calls(published, picks, times), k)
  {
    var inputs := Calls(published, picks, times);
    if n == 0 {
      assert inputs[..0] == [];
    } else {
      var m := n - 1;
      StreamIsAccepted(config, published, picks, times, m);
      assert inputs[m].frame in published;
      if m > 0 { assert picks[m - 1] <= picks[m] && times[m - 1] < times[m]; }
      CallIsAccepted(config, Reached(config, inputs[..m]), inputs, m);
      ReachedNext(config, inputs, m);
    }
  }

  /** A frame that shows the generation and the revision of the one processed. */
  predicate Shows(shown: Option<CanonicalFrame>, f: MergedFrame) {
    shown.Some? && shown.value.generation == f.generation && shown.value.revision == f.sequence
  }

  /** Feeding any in-order selection of an ordered stream by any schedule: every frame is accepted. */
  method Process(config: Config, published: seq<MergedFrame>, picks: seq<nat>, times: seq<int>)
    returns (shown: seq<Option<CanonicalFrame>>)
    requires ConfigValid(config) && Stream(published)
    requires InOrder(picks, |published|) && Schedule(published, picks, times)
    ensures AllAccepted(config, Calls(published, picks, times))
    ensures shown == Outputs(config, Calls(published, picks, times))
    ensures forall i | 0 <= i < |picks| :: Shows(shown[i], published[picks[i]])
  {
    var inputs := Calls(published, picks, times);
    StreamIsAccepted(config, published, picks, times, |picks|);
    shown := RunPipeline(config, inputs);
    forall i | 0 <= i < |picks| ensures Shows(shown[i], published[picks[i]]) {
      OutputsAt(config, inputs, i);
      assert AcceptedAt(config, inputs, i);
    }
  }

  /**
   End to end: for every run of the service, every in-order selection of what it
   published and every schedule, the pipeline accepts every frame, also after the
   published sequence has saturated.
   */
  method MergeAndProcess(events: seq<ServiceEvent>, config: Config, picks: seq<nat>, times: seq<int>)
    returns (published: seq<MergedFrame>, shown: seq<Option<CanonicalFrame>>, ghost views: seq<View>)
    requires ConfigValid(config)
    ensures IsRun(events, views, published) && Stream(published)
    ensures InOrder(picks, |published|) && Schedule(published, picks, times) ==>
              |shown| == |picks| && forall i | 0 <= i < |picks| :: Shows(shown[i], published[picks[i]])
  {
    var state;
    published, state, views := RunService(events);
    shown := [];
    if InOrder(picks, |published|) && Schedule(published, picks, times) {
      shown := Process(config, published, picks, times);
    }
  }
}
