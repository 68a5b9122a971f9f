/**
 The controls a supervisor hands to its sessions, over whole runs: one at a time per
 session instance. A session never has two of its supervisor's calls to deal with.
 */
module Dispatches {
  import opened Common
  import opened Controls
  import opened RestartPolicies
  import opened Supervisor

  /** A control goes to an instance, or the outcome of one that is in flight comes in. */
  datatype Note = Dispatched(instance: nat, operation: nat) | Completed(instance: nat, operation: nat)

  /** What one turn of the event loop adds: the outcome that came in, then the control put in flight. */
  function Notes(s: LoopState, event: Event, t: LoopState): seq<Note> {
    (if event.ControlDone? && Completes(s, event.instance, event.operation) then [Completed(event.instance, event.operation)] else [])
    + Begun(Settled(s, event), t)
  }

  function Begun(s: LoopState, t: LoopState): seq<Note> {
    if t.inFlight.Some? && t.inFlight != s.inFlight
    then [Dispatched(t.inFlight.value.instance, t.inFlight.value.operation)] else []
  }

  /** The outcome of the dispatch number i came in before place j. */
  predicate CompletedBefore(trace: seq<Note>, i: nat, j: nat)
    requires i < |trace|
  {
    Completed(trace[i].instance, trace[i].operation) in if i < j <= |trace| then trace[i + 1..j] else []
  }

  /** A control goes to an instance only after the outcome of the one before it at that instance has come in. */
  ghost predicate Serialized(trace: seq<Note>) {
    forall i, j | 0 <= i < j < |trace| && trace[i].Dispatched? && trace[j].Dispatched? && trace[i].instance == trace[j].instance ::
      CompletedBefore(trace, i, j)
  }

  /** Every dispatch has its outcome, or is the one in flight, or its instance gets no more. */
  ghost predicate CaughtUp(trace: seq<Note>, s: LoopState) {
    forall i | 0 <= i < |trace| && trace[i].Dispatched? ::
      || CompletedBefore(trace, i, |trace|)
      || Completes(s, trace[i].instance, trace[i].operation)
      || Retired(s, trace[i].instance)
  }

  lemma StillCompleted(trace: seq<Note>, note: Note, i: nat, j: nat)
    requires i < |trace| && j <= |trace|
    ensures CompletedBefore(trace, i, j) ==> CompletedBefore(trace + [note], i, j)
    ensures CompletedBefore(trace, i, |trace|) ==> CompletedBefore(trace + [note], i, |trace| + 1)
  {
    var more := trace + [note];
    if i < j { assert more[i + 1..j] == trace[i + 1..j]; }
    assert more[i + 1..|trace| + 1] == trace[i + 1..|trace|] + [note];
    assert trace[i + 1..|trace|] == trace[i + 1..];
  }

  lemma OutcomeNoted(trace: seq<Note>, s: LoopState, error: Option<ControlError>)
    requires Serialized(trace) && CaughtUp(trace, s) && s.inFlight.Some?
    ensures var more := trace + [Completed(s.inFlight.value.instance, s.inFlight.value.operation)];
            Serialized(more) && CaughtUp(more, Concluded(s, error))
  {
    var note := Completed(s.inFlight.value.instance, s.inFlight.value.operation);
    var more, t := trace + [note], Concluded(s, error);
    forall i, j | 0 <= i < j < |more| && more[i].Dispatched? && more[j].Dispatched? && more[i].instance == more[j].instance
      ensures CompletedBefore(more, i, j)
    {
      StillCompleted(trace, note, i, j);
    }
    forall i | 0 <= i < |more| && more[i].Dispatched?
      ensures CompletedBefore(more, i, |more|) || Completes(t, more[i].instance, more[i].operation) || Retired(t, more[i].instance)
    {
      StillCompleted(trace, note, i, |trace|);
      assert more[i + 1..|more|] == trace[i + 1..] + [note];
    }
  }

  lemma HandoverNoted(trace: seq<Note>, s: LoopState, t: LoopState)
    requires Serialized(trace) && CaughtUp(trace, s) && Handover(s, t)
    ensures Serialized(trace + Begun(s, t)) && CaughtUp(trace + Begun(s, t), t)
  {
    forall i | 0 <= i < |trace| && trace[i].Dispatched?
      ensures CompletedBefore(trace, i, |trace|) || Completes(t, trace[i].instance, trace[i].operation) || Retired(t, trace[i].instance)
    {
    }
    if Begun(s, t) == [] {
      assert trace + [] == trace;
    } else {
      DispatchNoted(trace, s, t);
    }
  }

  lemma DispatchNoted(trace: seq<Note>, s: LoopState, t: LoopState)
    requires Serialized(trace) && CaughtUp(trace, s) && CaughtUp(trace, t) && Handover(s, t)
    requires t.inFlight.Some? && t.inFlight != s.inFlight
    ensures var more := trace + [Dispatched(t.inFlight.value.instance, t.inFlight.value.operation)];
            Serialized(more) && CaughtUp(more, t)
  {
    var note := Dispatched(t.inFlight.value.instance, t.inFlight.value.operation);
    var more := trace + [note];
    forall i, j | 0 <= i < j < |more| && more[i].Dispatched? && more[j].Dispatched? && more[i].instance == more[j].instance
      ensures CompletedBefore(more, i, j)
    {
      StillCompleted(trace, note, i, j);
      if j == |trace| { assert CompletedBefore(trace, i, |trace|); }
    }
    forall i | 0 <= i < |more| && more[i].Dispatched?
      ensures CompletedBefore(more, i, |more|) || Completes(t, more[i].instance, more[i].operation) || Retired(t, more[i].instance)
    {
      if i < |trace| { StillCompleted(trace, note, i, |trace|); }
    }
  }

  lemma TurnNoted(trace: seq<Note>, s: LoopState, event: Event, t: LoopState)
    requires Serialized(trace) && CaughtUp(trace, s) && Handover(Settled(s, event), t)
    ensures Serialized(trace + Notes(s, event, t)) && CaughtUp(trace + Notes(s, event, t), t)
  {
    if event.ControlDone? && Completes(s, event.instance, event.operation) {
      var outcome := [Completed(event.instance, event.operation)];
      OutcomeNoted(trace, s, event.error);
      HandoverNoted(trace + outcome, Settled(s, event), t);
      assert trace + outcome + Begun(Settled(s, event), t) == trace + Notes(s, event, t);
    } else {
      HandoverNoted(trace, s, t);
      assert Notes(s, event, t) == Begun(s, t);
    }
  }

  /** What happened to controls over the states of a run. */
  function AllNotes(states: seq<LoopState>, events: seq<Event>): seq<Note>
    requires 0 < |states| <= |events| + 1
  {
    if |states| == 1 then [] else
      var n := |states| - 1;
      AllNotes(states[..n], events) + Notes(states[n - 1], events[n - 1], states[n])
  }

  lemma {:induction false} OneMoreNoted(states: seq<LoopState>, events: seq<Event>, next: LoopState)
    requires 0 < |states| <= |events|
    ensures AllNotes(states + [next], events) == AllNotes(states, events) + Notes(states[|states| - 1], events[|states| - 1], next)
  {
    assert (states + [next])[..|states|] == states;
  }

  /** One turn of the loop, with what it adds to the record. */
  method NotedTurn(supervisor: PluginSupervisor, policy: RestartPolicy, capacity: nat, events: seq<Event>, i: nat, trace: seq<Note>,
                   ghost states: seq<LoopState>)
    returns (exited: bool, more: seq<Note>, ghost longer: seq<LoopState>)
    requires supervisor.Valid() && supervisor.policy == policy && supervisor.capacity == CapacityOf(capacity)
    requires i < |events| && |states| == i + 1 && Recorded(policy, capacity, states, events, supervisor.state)
    requires trace == AllNotes(states, events) && Serialized(trace) && CaughtUp(trace, supervisor.state)
    modifies supervisor
    ensures !exited ==> supervisor.Valid()
    ensures |longer| == i + 2 && longer[0] == states[0] && Recorded(policy, capacity, longer, events, supervisor.state)
    ensures more == AllNotes(longer, events) && Serialized(more) && CaughtUp(more, supervisor.state)
  {
    var before := supervisor.state;
    exited := supervisor.Step(events[i]);
    TurnNoted(trace, before, events[i], supervisor.state);
    RecordedOn(policy, capacity, states, events, before, supervisor.state);
    OneMoreNoted(states, events, supervisor.state);
    more := trace + Notes(before, events[i], supervisor.state);
    longer := states + [supervisor.state];
  }

  /** In every run of the event loop each session instance gets its controls one at a time. */
  method RunDispatches(policy: RestartPolicy, capacity: nat, enabled: bool, initial: ControlState, opens: bool, events: seq<Event>)
    returns (trace: seq<Note>, exited: bool, ghost states: seq<LoopState>)
    requires ValidPolicy(policy)
    ensures 0 < |states| <= |events| + 1 && Begins(enabled, initial, opens, states[0]) && Follows(policy, capacity, states, events)
    ensures !exited ==> |states| == |events| + 1
    ensures trace == AllNotes(states, events) && Serialized(trace)
  {
    var supervisor := new PluginSupervisor(policy, capacity, enabled, initial, opens, 0);
    trace, exited, states := [], false, [supervisor.state];
    var i := 0;
    while i < |events| && !exited
      invariant i <= |events| && fresh(supervisor) && (!exited ==> supervisor.Valid())
      invariant supervisor.policy == policy && supervisor.capacity == CapacityOf(capacity)
      invariant |states| == i + 1 && Begins(enabled, initial, opens, states[0]) && Recorded(policy, capacity, states, events, supervisor.state)
      invariant trace == AllNotes(states, events) && Serialized(trace) && CaughtUp(trace, supervisor.state)
    {
      exited, trace, states := NotedTurn(supervisor, policy, capacity, events, i, trace, states);
      i := i + 1;
    }
  }
}
