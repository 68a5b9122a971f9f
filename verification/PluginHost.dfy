/**
 The plugin's side of the fence (pkg/pluginruntime): the host state a plugin's
 controls change, and the slot that holds at most its latest frame. Every method is
 one step under the host's lock.
 */
module PluginHost {
  import opened TrackingModel
  import opened Subscriptions
  import opened Controls

  /** A stored frame, with the subscription it was produced under. */
  datatype PendingFrame = NoFrame | Stored(generation: nat, subscription: Subscription, frame: TrackingFrame)

  datatype HostState = HostState(current: ControlState, frames: PendingFrame, stopped: bool)

  /** What the runtime sends for a stored frame. */
  datatype Payload = NoPayload | FramePayload(generation: nat, frame: TrackingFrame)

  /** The pending frame belongs to the current subscription of an active, running plugin. */
  predicate SlotSound(s: HostState) {
    s.frames.Stored? ==>
      && !s.stopped && s.current.active
      && s.frames.subscription == s.current.subscription
      && s.frames.generation == s.current.subscription.generation > 0
      && s.current.subscription.capabilities != {}
      && s.frames.frame.Valid() && Canonicalize(s.frames.frame) == s.frames.frame
  }

  predicate Publishing(s: HostState) {
    !s.stopped && s.current.active && s.current.subscription.generation != 0 && s.current.subscription.capabilities != {}
  }

  /** Contents equal to the current ones repeat quietly; other contents need a newer number. */
  predicate Stale(next: nat, current: nat, same: bool) {
    next < current || (next == current && !same)
  }

  datatype ControlResult = Event | Nothing | Failed

  class RuntimeHost {
    var state: HostState

    /** The generations of the frames handed to the connection, in order. */
    ghost var sent: seq<nat>

    ghost predicate Valid()
      reads this
    {
      && SlotSound(state)
      && (forall i | 0 <= i < |sent| :: sent[i] <= state.current.subscription.generation)
      && forall i, j | 0 <= i < j < |sent| :: sent[i] <= sent[j]
    }

    constructor (startup: ControlState)
      ensures Valid() && state == HostState(startup, NoFrame, false) && sent == []
    {
      state := HostState(startup, NoFrame, false);
      sent := [];
    }

    /** Replaces the pending frame, or refuses and leaves everything as it was. */
    method PublishFrame(frame: TrackingFrame) returns (ok: bool)
      requires Valid()
      modifies this`state
      ensures Valid()
      ensures ok <==> frame.Valid() && Publishing(old(state))
      ensures !ok ==> state == old(state)
      ensures ok ==> state == old(state).(frames := state.frames)
      ensures ok ==> state.frames == Stored(state.current.subscription.generation, state.current.subscription, Canonicalize(frame))
    {
      if !frame.Valid() { return false; }
      if !Publishing(state) { return false; }
      CanonicalIsValid(frame);
      CanonicalizeTwice(frame);
      var subscription := state.current.subscription;
      state := state.(frames := Stored(subscription.generation, subscription, Canonicalize(frame)));
      return true;
    }

    method ApplyConfig(next: Config) returns (r: ControlResult)
      requires Valid()
      modifies this`state
      ensures Valid()
      ensures r == Failed <==> Stale(next.revision, old(state).current.config.revision, next.data == old(state).current.config.data)
      ensures r == Event <==> next.revision > old(state).current.config.revision
      ensures state == if r == Event then old(state).(current := state.current) else old(state)
      ensures state.current == if r == Event then old(state).current.(config := next) else old(state).current
    {
      var current := state.current.config;
      if next.revision < current.revision { return Failed; }
      if next.revision == current.revision {
        return if next.data == current.data then Nothing else Failed;
      }
      state := state.(current := state.current.(config := next));
      return Event;
    }

    /** A newer subscription drops a pending frame of an older one. */
    method ApplySubscription(wanted: Subscription) returns (r: ControlResult)
      requires Valid()
      modifies this`state
      ensures Valid()
      ensures r == Failed <==> Stale(wanted.generation, old(state).current.subscription.generation, Normalize(wanted) == old(state).current.subscription)
      ensures r == Event <==> wanted.generation > old(state).current.subscription.generation
      ensures r == Event ==> state == HostState(old(state).current.(subscription := Normalize(wanted)), NoFrame, old(state).stopped)
      ensures r != Event ==> state == old(state)
    {
      var next := Normalize(wanted);
      var current := state.current.subscription;
      if next.generation < current.generation { return Failed; }
      if next.generation == current.generation {
        return if next == current then Nothing else Failed;
      }
      state := state.(current := state.current.(subscription := next));
      ClearBefore(next.generation);
      return Event;
    }

    /** `ClearBefore`: removes a pending frame of an older generation only. */
    method ClearBefore(generation: nat)
      modifies this`state
      ensures state == if old(state).frames.Stored? && old(state).frames.generation < generation
        then old(state).(frames := NoFrame) else old(state)
    {
      if state.frames.Stored? && state.frames.generation < generation { state := state.(frames := NoFrame); }
    }

    method ApplyActive(active: bool) returns (r: ControlResult)
      requires Valid()
      modifies this`state
      ensures Valid()
      ensures r == (if active == old(state).current.active then Nothing else Event)
      ensures state.current == old(state).current.(active := active) && state.stopped == old(state).stopped
      ensures state.frames == if old(state).current.active && !active then NoFrame else old(state).frames
    {
      if active == state.current.active { return Nothing; }
      state := state.(current := state.current.(active := active));
      if !active { state := state.(frames := NoFrame); }
      return Event;
    }

    method Stop()
      requires Valid()
      modifies this`state
      ensures Valid() && state == old(state).(stopped := true, frames := NoFrame)
    {
      state := state.(stopped := true, frames := NoFrame);
    }

    /** Takes the pending frame for sending: trimmed to its subscription and tagged with its generation. */
    method Load() returns (payload: Payload)
      requires Valid()
      modifies this
      ensures Valid() && state == old(state).(frames := NoFrame)
      ensures payload.NoPayload? <==> old(state).frames.NoFrame?
      ensures payload.FramePayload? ==>
                && payload.generation == state.current.subscription.generation && Publishing(state)
                && payload.frame == TrimFrame(state.current.subscription, old(state).frames.frame)
                && payload.frame.Valid() && payload.frame.capabilities <= state.current.subscription.capabilities
                && sent == old(sent) + [payload.generation]
      ensures payload.NoPayload? ==> sent == old(sent)
    {
      match state.frames {
        case NoFrame => return NoPayload;
        case Stored(generation, subscription, frame) =>
          TrimIsSafe(subscription, frame);
          state := state.(frames := NoFrame);
          sent := sent + [generation];
          return FramePayload(generation, TrimFrame(subscription, frame));
      }
    }
  }

  datatype HostStep =
    | Publish(frame: TrackingFrame) | Configure(config: Config) | Subscribe(subscription: Subscription)
    | Activate(active: bool) | StopHost | Take

  /** In every run the generations a plugin sends never go back, and each is the one subscribed to at that moment. */
  method RunPlugin(startup: ControlState, steps: seq<HostStep>) returns (taken: seq<(nat, nat)>)
    ensures forall i | 0 <= i < |taken| :: taken[i].0 == taken[i].1 > 0
    ensures forall i, j | 0 <= i < j < |taken| :: taken[i].0 <= taken[j].0
  {
    var host := new RuntimeHost(startup);
    taken := [];
    for i := 0 to |steps|
      invariant fresh(host) && host.Valid()
      invariant forall k | 0 <= k < |taken| :: taken[k].0 == taken[k].1 > 0
      invariant |taken| == |host.sent| && forall k | 0 <= k < |taken| :: taken[k].0 == host.sent[k]
    {
      var r;
      match steps[i] {
        case Publish(frame) => var ok := host.PublishFrame(frame);
        case Configure(config) => r := host.ApplyConfig(config);
        case Subscribe(subscription) => r := host.ApplySubscription(subscription);
        case Activate(active) => r := host.ApplyActive(active);
        case StopHost => host.Stop();
        case Take =>
          var payload := host.Load();
          if payload.FramePayload? {
            taken := taken + [(payload.generation, host.state.current.subscription.generation)];
          }
      }
    }
  }
}
