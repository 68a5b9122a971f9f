/**
 Which submissions the merge service accepts, told from what was submitted before: of
 the frames accepted from a plugin under the current generation, since the plugin was
 last removed, the next one has to have a larger sequence, and no clock that it reports
 may have run back.
 */
module SubmissionRules {
  import opened Common
  import opened TrackingModel
  import opened Tracking
  import opened MergeThenProcess

  /** What was accepted from the plugin under the generation, since it was last removed. */
  ghost function Past(events: seq<ServiceEvent>, results: seq<TrackingError>, id: string, generation: nat): seq<TrackingFrame>
    requires |results| == |events|
  {
    if events == [] then [] else
      var n := |events| - 1;
      PastAfter(Past(events[..n], results[..n], id, generation), events[n], results[n], id, generation)
  }

  ghost function PastAfter(past: seq<TrackingFrame>, e: ServiceEvent, r: TrackingError, id: string, generation: nat): seq<TrackingFrame> {
    match e
    case Generation(_, _) => past
    case Routing(_, _) => past
    case Removal(gone, _) => if gone == id then [] else past
    case Frame(pluginID, g, frame, _, _) => if pluginID == id && g == generation && r == NoError then past + [frame] else past
  }

  /** The generation that was set last. */
  ghost function Current(events: seq<ServiceEvent>, results: seq<TrackingError>): nat
    requires |results| == |events|
  {
    if events == [] then 0 else
      var n := |events| - 1;
      if events[n].Generation? && results[n] == NoError then events[n].generation else Current(events[..n], results[..n])
  }

  /** Later than everything before. */
  ghost predicate IsNewer(past: seq<TrackingFrame>, frame: TrackingFrame) {
    forall f | f in past :: f.sequence < frame.sequence
  }

  /** Its timestamp, unless it has none, is not before an earlier one. */
  ghost predicate TimeGoesOn(past: seq<TrackingFrame>, frame: TrackingFrame) {
    frame.timestampNS == 0 || forall f | f in past :: f.timestampNS <= frame.timestampNS
  }

  ghost predicate ClockGoesOn(past: seq<TrackingFrame>, frame: TrackingFrame) {
    frame.sourceClockNS == 0 || forall f | f in past :: f.sourceClockNS <= frame.sourceClockNS
  }

  /** The answer to a submission, given what was accepted before and whether the host's clock is exhausted. */
  ghost predicate Verdict(current: nat, past: seq<TrackingFrame>, id: string, generation: nat, frame: TrackingFrame,
                          exhausted: bool, r: TrackingError) {
    var addressed := id != "" && current > 0 && generation == current;
    var newer := addressed && frame.Valid() && IsNewer(past, frame);
    var timed := newer && frame.timestampNS >= 0 && frame.sourceClockNS >= 0;
    match r
    case NoError => timed && TimeGoesOn(past, frame) && ClockGoesOn(past, frame) && !exhausted
    case ErrInvalidPluginID => id == ""
    case ErrGenerationUnset => id != "" && current == 0
    case ErrGenerationZero => id != "" && current > 0 && generation == 0
    case ErrStaleGeneration => id != "" && 0 < generation < current
    case ErrFutureGeneration => id != "" && generation > current > 0
    case ErrInvalidFrame => addressed && (!frame.Valid() || (newer && !timed))
    case ErrSequenceNotIncreasing => addressed && frame.Valid() && !newer
    case ErrTimestampRegression => timed && (!TimeGoesOn(past, frame) || (ClockGoesOn(past, frame) && exhausted))
    case ErrSourceClockRegression => timed && TimeGoesOn(past, frame) && !ClockGoesOn(past, frame)
    case ErrGenerationRegression => false
    case ErrInvalidRouting => false
  }

  /** The verdicts exclude each other. */
  lemma OneVerdict(current: nat, past: seq<TrackingFrame>, id: string, generation: nat, frame: TrackingFrame, exhausted: bool,
                   a: TrackingError, b: TrackingError)
    requires Verdict(current, past, id, generation, frame, exhausted, a) && Verdict(current, past, id, generation, frame, exhausted, b)
    ensures a == b
  {
  }

  /** The largest reading so far; 0 without any. */
  ghost predicate IsLatest(past: seq<TrackingFrame>, timestamp: int, clock: int) {
    && (forall f | f in past :: 0 <= f.timestampNS <= timestamp && 0 <= f.sourceClockNS <= clock)
    && (timestamp == 0 || exists f :: f in past && f.timestampNS == timestamp)
    && (clock == 0 || exists f :: f in past && f.sourceClockNS == clock)
  }

  /** What the service remembers of a plugin is what matters of its past. */
  ghost predicate Summed(past: seq<TrackingFrame>, sources: Sources, id: string) {
    if id !in sources then past == []
    else
      && past != [] && past[|past| - 1].sequence == sources[id].lastSequence
      && (forall f | f in past :: f.sequence <= sources[id].lastSequence)
      && IsLatest(past, sources[id].lastTimestampNS, sources[id].lastSourceClockNS)
  }

  /** The service's memory is the sum of the past of every plugin, and under no later generation is there any past. */
  ghost predicate Remembers(events: seq<ServiceEvent>, results: seq<TrackingError>, s: ServiceState)
    requires |results| == |events|
  {
    && Current(events, results) == s.generation
    && (forall id :: Summed(Past(events, results, id, s.generation), s.sources, id))
    && (forall id, g | g > s.generation :: Past(events, results, id, g) == [])
  }

  lemma RejectionIsVerdict(s: ServiceState, past: seq<TrackingFrame>, id: string, generation: nat, frame: TrackingFrame)
    requires Summed(past, s.sources, id)
    ensures Verdict(s.generation, past, id, generation, frame, s.lastHostTimeNS == MAX_INT64, Rejection(s, id, generation, frame))
  {
    if id in s.sources {
      var source := s.sources[id];
      assert past[|past| - 1] in past;
      assert IsNewer(past, frame) <==> source.lastSequence < frame.sequence;
      assert frame.timestampNS > 0 ==> (TimeGoesOn(past, frame) <==> source.lastTimestampNS <= frame.timestampNS);
      assert frame.sourceClockNS > 0 ==> (ClockGoesOn(past, frame) <==> source.lastSourceClockNS <= frame.sourceClockNS);
    }
  }

  lemma OneMoreAccepted(past: seq<TrackingFrame>, sources: Sources, id: string, frame: TrackingFrame, at: int)
    requires Summed(past, sources, id) && IsNewer(past, frame) && TimeGoesOn(past, frame) && ClockGoesOn(past, frame)
    requires frame.timestampNS >= 0 && frame.sourceClockNS >= 0
    ensures Summed(past + [frame], sources[id := Stored(sources, id, Canonicalize(frame), at)], id)
  {
    var more, source := past + [frame], Stored(sources, id, Canonicalize(frame), at);
    assert more[|past|] == frame && frame in more;
    assert forall f | f in past :: f in more;
    forall f | f in more ensures f in past || f == frame {
    }
  }

  lemma {:induction false} PastNext(events: seq<ServiceEvent>, results: seq<TrackingError>, e: ServiceEvent,
      r: TrackingError, id: string, generation: nat)
    requires |results| == |events|
    ensures Past(events + [e], results + [r], id, generation) == PastAfter(Past(events, results, id, generation), e, r, id, generation)
  {
    assert (events + [e])[..|events|] == events && (results + [r])[..|results|] == results;
  }

  lemma {:induction false} CurrentNext(events: seq<ServiceEvent>, results: seq<TrackingError>, e: ServiceEvent, r: TrackingError)
    requires |results| == |events|
    ensures Current(events + [e], results + [r]) == if e.Generation? && r == NoError then e.generation else Current(events, results)
  {
    assert (events + [e])[..|events|] == events && (results + [r])[..|results|] == results;
  }

  // ---- Runs ----

  /** The answer to an event, given what was answered before. */
  ghost predicate Judged(events: seq<ServiceEvent>, results: seq<TrackingError>, e: ServiceEvent, exhausted: bool, r: TrackingError)
    requires |results| == |events|
  {
    var current := Current(events, results);
    match e
    case Frame(id, generation, frame, _, _) => Verdict(current, Past(events, results, id, current), id, generation, frame, exhausted, r)
    case Generation(generation, _) =>
      r == if generation == 0 then ErrGenerationZero else if generation < current then ErrGenerationRegression else NoError
    case Routing(config, _) => r == if RoutingValid(config) then NoError else ErrInvalidRouting
    case Removal(_, _) => r == NoError
  }

  lemma {:induction false} RefusalKeeps(events: seq<ServiceEvent>, results: seq<TrackingError>, e: ServiceEvent,
      r: TrackingError, s: ServiceState, t: ServiceState)
    requires |results| == |events| && Remembers(events, results, s) && t.generation == s.generation && t.sources == s.sources
    requires e.Routing? || (r != NoError && !e.Removal?) || (e.Generation? && e.generation == s.generation)
    ensures Remembers(events + [e], results + [r], t)
  {
    CurrentNext(events, results, e, r);
    forall id, g ensures Past(events + [e], results + [r], id, g) == Past(events, results, id, g) {
      PastNext(events, results, e, r, id, g);
    }
  }

  lemma {:induction false} NewGenerationKeeps(events: seq<ServiceEvent>, results: seq<TrackingError>, e: ServiceEvent,
      s: ServiceState, t: ServiceState)
    requires |results| == |events| && Remembers(events, results, s) && e.Generation? && e.generation == t.generation > s.generation
    requires t.sources == map[]
    ensures Remembers(events + [e], results + [NoError], t)
  {
    CurrentNext(events, results, e, NoError);
    forall id, g ensures Past(events + [e], results + [NoError], id, g) == Past(events, results, id, g) {
      PastNext(events, results, e, NoError, id, g);
    }
  }

  lemma {:induction false} RemovalKeeps(events: seq<ServiceEvent>, results: seq<TrackingError>, e: ServiceEvent, s: ServiceState, t: ServiceState)
    requires |results| == |events| && Remembers(events, results, s) && e.Removal?
    requires t.generation == s.generation && t.sources == s.sources - {e.pluginID}
    ensures Remembers(events + [e], results + [NoError], t)
  {
    CurrentNext(events, results, e, NoError);
    forall id, g ensures Past(events + [e], results + [NoError], id, g) == if id == e.pluginID then [] else Past(events, results, id, g) {
      PastNext(events, results, e, NoError, id, g);
    }
    forall id ensures Summed(Past(events + [e], results + [NoError], id, t.generation), t.sources, id) {
      assert Summed(Past(events, results, id, s.generation), s.sources, id);
    }
  }

  lemma {:induction false} AcceptanceKeeps(events: seq<ServiceEvent>, results: seq<TrackingError>, e: ServiceEvent,
      s: ServiceState, t: ServiceState, at: int)
    requires |results| == |events| && Remembers(events, results, s) && e.Frame?
    requires t.generation == s.generation == e.generation && Rejection(s, e.pluginID, e.generation, e.frame) == NoError
    requires t.sources == s.sources[e.pluginID := Stored(s.sources, e.pluginID, Canonicalize(e.frame), at)]
    ensures Remembers(events + [e], results + [NoError], t)
  {
    var past := Past(events, results, e.pluginID, s.generation);
    CurrentNext(events, results, e, NoError);
    assert Summed(past, s.sources, e.pluginID);
    RejectionIsVerdict(s, past, e.pluginID, e.generation, e.frame);
    OneMoreAccepted(past, s.sources, e.pluginID, e.frame, at);
    forall id, g ensures Past(events + [e], results + [NoError], id, g) ==
                         if id == e.pluginID && g == e.generation then past + [e.frame] else Past(events, results, id, g)
    {
      PastNext(events, results, e, NoError, id, g);
    }
    forall id ensures Summed(Past(events + [e], results + [NoError], id, t.generation), t.sources, id) {
      assert Summed(Past(events, results, id, s.generation), s.sources, id);
    }
  }

  /** The service takes an event and answers it. */
  method Take(service: Service, event: ServiceEvent, ghost events: seq<ServiceEvent>, ghost results: seq<TrackingError>) returns (r: TrackingError)
    requires service.Valid() && |results| == |events| && Remembers(events, results, service.state)
    modifies service
    ensures service.Valid() && Remembers(events + [event], results + [r], service.state)
    ensures Judged(events, results, event, old(service.state).lastHostTimeNS == MAX_INT64, r)
  {
    ghost var before := service.state;
    match event {
      case Generation(generation, now) =>
        r := service.SetGeneration(generation, now);
        if r == NoError && generation > before.generation {
          NewGenerationKeeps(events, results, event, before, service.state);
        } else {
          RefusalKeeps(events, results, event, r, before, service.state);
        }
      case Frame(id, generation, frame, receiptNow, mergeNow) => r := TakeFrame(service, event, events, results);
      case Routing(config, now) =>
        r := service.SetRouting(config, now);
        RefusalKeeps(events, results, event, r, before, service.state);
      case Removal(id, now) =>
        r := NoError;
        service.RemoveSource(id, now);
        RemovalKeeps(events, results, event, before, service.state);
    }
  }

  method TakeFrame(service: Service, event: ServiceEvent, ghost events: seq<ServiceEvent>, ghost results: seq<TrackingError>)
    returns (r: TrackingError)
    requires event.Frame? && service.Valid() && |results| == |events| && Remembers(events, results, service.state)
    modifies service
    ensures service.Valid() && Remembers(events + [event], results + [r], service.state)
    ensures Judged(events, results, event, old(service.state).lastHostTimeNS == MAX_INT64, r)
  {
    ghost var before, id := service.state, event.pluginID;
    assert Summed(Past(events, results, id, before.generation), before.sources, id);
    RejectionIsVerdict(before, Past(events, results, id, before.generation), id, event.generation, event.frame);
    r := service.Submit(event.pluginID, event.generation, event.frame, event.receiptNow, event.mergeNow);
    if r == NoError {
      AcceptanceKeeps(events, results, event, before, service.state, service.state.sources[id].receivedAtNS);
    } else {
      RefusalKeeps(events, results, event, r, before, service.state);
    }
  }

  /** Each answer so far is the right one. */
  ghost predicate AllJudged(events: seq<ServiceEvent>, results: seq<TrackingError>, clocks: seq<int>) {
    && |results| == |clocks| <= |events|
    && forall k | 0 <= k < |results| :: Judged(events[..k], results[..k], events[k], clocks[k] == MAX_INT64, results[k])
  }

  lemma {:induction false} OneMoreJudged(events: seq<ServiceEvent>, results: seq<TrackingError>, clocks: seq<int>, clock: int, r: TrackingError)
    requires AllJudged(events, results, clocks) && |results| < |events|
    requires Judged(events[..|results|], results, events[|results|], clock == MAX_INT64, r)
    ensures AllJudged(events, results + [r], clocks + [clock])
  {
    var n, more := |results|, results + [r];
    forall k | 0 <= k <= n ensures Judged(events[..k], more[..k], events[k], (clocks + [clock])[k] == MAX_INT64, more[k]) {
      assert more[..k] == results[..k];
      if k == n { assert results[..k] == results; }
    }
  }

  /**
   Every run: each event is answered as what was accepted before demands. The clocks are
   the host times that the service had reached before each event.
   */
  method RunSubmissions(events: seq<ServiceEvent>) returns (results: seq<TrackingError>, ghost clocks: seq<int>)
    ensures |results| == |events| && AllJudged(events, results, clocks)
  {
    var service := new Service();
    results, clocks := [], [];
    NothingYet(service.state);
    for i := 0 to |events|
      invariant fresh(service) && service.Valid() && |results| == i
      invariant Remembers(events[..i], results, service.state)
      invariant AllJudged(events, results, clocks)
    {
      ghost var clock := service.state.lastHostTimeNS;
      assert events[..i + 1] == events[..i] + [events[i]];
      var r := Take(service, events[i], events[..i], results);
      OneMoreJudged(events, results, clocks, clock, r);
      results, clocks := results + [r], clocks + [clock];
    }
  }

  lemma NothingYet(s: ServiceState)
    requires s == NewService()
    ensures Remembers([], [], s)
  {
    assert forall id, g :: Past([], [], id, g) == [];
  }
}
