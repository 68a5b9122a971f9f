/**
 The coordinator between the merge service and the pipeline (internal/application/
 coordinator.go): it processes a frame when it comes and the latest one again at every
 tick, at times that its own clock makes of the wall's. The service stamped the frames
 with times of a clock of its own, so what decides is whether the wall has come that far.
 */
module CoordinatorRuns {
  import opened Common
  import opened TrackingModel
  import opened Tracking
  import opened Pipeline
  import opened PipelineRuns
  import opened MergeThenProcess
  import opened HostClock

  /** No frame is processed at a time before that of its publication. */
  predicate InTime(published: seq<MergedFrame>, picks: seq<nat>, times: seq<int>)
    requires InOrder(picks, |published|) && |times| == |picks|
  {
    forall i | 0 <= i < |picks| :: published[picks[i]].updatedAtNS <= times[i]
  }

  /** The counter of the clock still has room. */
  predicate Running(times: seq<int>) {
    forall i | 0 <= i < |times| :: times[i] < MAX_INT64
  }

  /** Calls at increasing times are all accepted exactly if none comes before its frame's publication. */
  lemma AcceptedIffInTime(config: Config, published: seq<MergedFrame>, picks: seq<nat>, times: seq<int>)
    requires ConfigValid(config) && Stream(published) && InOrder(picks, |published|) && |times| == |picks|
    requires forall i | 0 <= i < |picks| - 1 :: times[i] < times[i + 1]
    ensures AllAccepted(config, Calls(published, picks, times)) <==> InTime(published, picks, times)
  {
    var inputs := Calls(published, picks, times);
    if InTime(published, picks, times) {
      StreamIsAccepted(config, published, picks, times, |picks|);
    } else {
      var i :| 0 <= i < |picks| && published[picks[i]].updatedAtNS > times[i];
      assert !InputValid(inputs[i].frame, inputs[i].nowNS);
      assert !AcceptedAt(config, inputs, i);
    }
  }

  /** An empty first frame, published at 100. */
  function FirstFrame(): MergedFrame {
    MergedFrame(1, 1, 100, {}, EMPTY_EYE, EmptyExpressions(), "", "", "", 0, 0, 0)
  }

  /** The wall is set back by a nanosecond before the coordinator first reads it: the call is refused. */
  lemma SetBackIsRefused(config: Config)
    requires ConfigValid(config)
    ensures Stream([FirstFrame()]) && InOrder([0], 1) && !AllAccepted(config, Calls([FirstFrame()], [0], [99]))
  {
    AcceptedIffInTime(config, [FirstFrame()], [0], [99]);
    assert [FirstFrame()][0].updatedAtNS == 100 && [0][0] == 0 && [99][0] == 99;
  }

  /** A frame comes or a tick: the clock is read, and the frame is processed if there is a usable plan of its generation. */
  datatype Wake = Wake(pick: nat, wall: Nanos, usable: bool)

  function Processed(wakes: seq<Wake>): seq<Wake> {
    if wakes == [] then []
    else
      var n := |wakes| - 1;
      if wakes[n].usable then Processed(wakes[..n]) + [wakes[n]] else Processed(wakes[..n])
  }

  function Picks(wakes: seq<Wake>): (r: seq<nat>)
    ensures |r| == |wakes|
  {
    seq(|wakes|, i requires 0 <= i < |wakes| => wakes[i].pick)
  }

  /** Increasing, until the clock is exhausted. */
  predicate Rising(times: seq<Nanos>) {
    forall i | 0 <= i < |times| - 1 :: times[i] < times[i + 1] || times[i] == times[i + 1] == MAX_INT64
  }

  /** None of the times is before what the wall showed. */
  predicate NotBeforeWall(wakes: seq<Wake>, times: seq<Nanos>) {
    |times| == |wakes| && forall i | 0 <= i < |times| :: wakes[i].wall <= times[i]
  }

  lemma OneMoreTime(wakes: seq<Wake>, times: seq<Nanos>, wake: Wake, now: Nanos)
    requires Rising(times) && NotBeforeWall(wakes, times) && wake.wall <= now
    requires times != [] ==> times[|times| - 1] < now || times[|times| - 1] == now == MAX_INT64
    ensures Rising(times + [now]) && NotBeforeWall(wakes + [wake], times + [now])
  {
  }

  method ProcessingTimes(wakes: seq<Wake>) returns (times: seq<Nanos>)
    ensures Rising(times) && NotBeforeWall(Processed(wakes), times)
  {
    var clock := new MonotonicClock();
    times := [];
    for n := 0 to |wakes|
      invariant fresh(clock) && Rising(times) && NotBeforeWall(Processed(wakes[..n]), times)
      invariant times != [] ==> clock.hasLast && times[|times| - 1] <= clock.last
    {
      assert wakes[..n + 1][..n] == wakes[..n];
      var now := clock.Sample(wakes[n].wall, true);
      if wakes[n].usable {
        OneMoreTime(Processed(wakes[..n]), times, wakes[n], now);
        times := times + [now];
      }
    }
    assert wakes[..|wakes|] == wakes;
  }

  /** Whenever a frame is processed the wall shows a time that is not before its publication. */
  predicate WallIsLater(published: seq<MergedFrame>, wakes: seq<Wake>) {
    forall i | 0 <= i < |wakes| :: wakes[i].pick < |published| && published[wakes[i].pick].updatedAtNS <= wakes[i].wall
  }

  /**
   For every run of the service and of the coordinator, whose frames come in order, and
   all readings of the wall, until the clock is exhausted: the pipeline accepts every
   call exactly if no sample of the clock is before its frame's publication; and none
   is if the wall never shows a time before that.
   */
  method RunCoordinator(events: seq<ServiceEvent>, config: Config, wakes: seq<Wake>)
    returns (published: seq<MergedFrame>, times: seq<Nanos>, shown: seq<Option<CanonicalFrame>>, ghost views: seq<View>)
    requires ConfigValid(config)
    ensures IsRun(events, views, published) && Stream(published) && |times| == |Processed(wakes)|
    ensures var picks := Picks(Processed(wakes)); InOrder(picks, |published|) ==>
      && shown == Outputs(config, Calls(published, picks, times))
      && (Running(times) ==> (AllAccepted(config, Calls(published, picks, times)) <==> InTime(published, picks, times)))
      && (Running(times) && WallIsLater(published, Processed(wakes)) ==> AllAccepted(config, Calls(published, picks, times)))
  {
    var state;
    published, state, views := RunService(events);
    times := ProcessingTimes(wakes);
    var picks := Picks(Processed(wakes));
    shown := [];
    if InOrder(picks, |published|) {
      shown := RunPipeline(config, Calls(published, picks, times));
      if Running(times) { AcceptedIffInTime(config, published, picks, times); }
    }
  }
}
