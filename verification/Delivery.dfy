/**
 A supervisor and the session of one of its instances, together with the goroutine
 that carries each control from the one to the other and its outcome back
 (internal/plugins/supervisor.go, session.go, control.go). Everything runs at once:
 the event loop, the goroutine, the session's own, the writer's. The instance is
 arbitrary, and so is whatever the supervisor hears of its other instances.
 */
module Delivery {
  import opened Common
  import opened Controls
  import opened RestartPolicies
  import opened Session
  import S = Supervisor
  import W = SessionWriter

  /** The goroutine: none, about to call the session, in its call, or back with the outcome. */
  datatype Call =
    | Idle
    | Due(operation: nat, kind: W.Kind)
    | Made(operation: nat, kind: W.Kind, id: nat)
    | Back(operation: nat, kind: W.Kind, result: W.Result)

  function KindOf(c: S.Command): W.Kind {
    match c
    case Configure(config) => W.ConfigRequest(config)
    case Subscribe(subscription) => W.SubscriptionRequest(subscription)
    case Active(active, force) => W.ActiveRequest(active, force)
    case _ => W.UnknownRequest
  }

  function ErrorOf(result: W.Result): Option<ControlError> {
    match result
    case Success => None
    case Failed(error) => Some(error)
    case SendFailed => Some(Failure(0))
  }

  // ---- Supervisor and goroutine ----

  /** The control in flight is this instance's. */
  predicate Mine(s: S.LoopState, k: nat) {
    s.inFlight.Some? && s.inFlight.value.instance == k
  }

  /** The goroutine carries the control in flight; if it carries another, the instance gets no more. */
  ghost predicate Linked(s: S.LoopState, call: Call, k: nat) {
    && (Mine(s, k) ==> !call.Idle? && call.operation == s.inFlight.value.operation && call.kind == KindOf(s.inFlight.value.command))
    && (!call.Idle? && !(Mine(s, k) && call.operation == s.inFlight.value.operation) ==> S.Retired(s, k))
  }

  /** The supervisor hears of this instance's controls only what the goroutine brings back. */
  predicate Possible(call: Call, event: S.Event, k: nat) {
    event.ControlDone? && event.instance == k ==>
      call.Back? && event.operation == call.operation && event.error == ErrorOf(call.result)
  }

  function Delivered(call: Call, event: S.Event, k: nat): Call {
    if event.ControlDone? && event.instance == k then Idle else call
  }

  /** A turn of the loop put a control of this instance in flight. */
  predicate Starts(s: S.LoopState, event: S.Event, t: S.LoopState, k: nat) {
    Mine(t, k) && t.inFlight != S.Settled(s, event).inFlight
  }

  function NextCall(call: Call, s: S.LoopState, event: S.Event, t: S.LoopState, k: nat): Call {
    if Starts(s, event, t, k) then Due(t.inFlight.value.operation, KindOf(t.inFlight.value.command)) else Delivered(call, event, k)
  }

  /** The supervisor counts on the instance: it runs and is not being stopped. */
  predicate Current(s: S.LoopState, k: nat) {
    s.instance == k && !S.Retired(s, k)
  }

  /** A turn of the loop keeps the link; it starts a goroutine only when there is none. */
  lemma TurnIsLinked(s: S.LoopState, call: Call, event: S.Event, t: S.LoopState, k: nat)
    requires Linked(s, call, k) && Possible(call, event, k) && S.Handover(S.Settled(s, event), t)
    ensures Linked(t, NextCall(call, s, event, t, k), k)
    ensures Starts(s, event, t, k) ==> Delivered(call, event, k).Idle? && Current(s, k) && t.instance == k
  {
  }

  // ---- What the plugin has been told ----

  /** The desired state, with the outcome of a call that has taken effect. */
  function Believed(control: ControlState, call: Call, answers: seq<W.Answer>): ControlState {
    if call.Made? && W.Tagged(call.id, W.Success) in answers then W.Effect(control, call.kind)
    else if call.Back? && call.result == W.Success then W.Effect(control, call.kind)
    else control
  }

  /** The plugin knows the desired activation and subscription. */
  predicate Informed(plugin: ControlState, control: ControlState, call: Call, answers: seq<W.Answer>) {
    W.Agree(plugin, Believed(control, call, answers))
  }

  /** A turn of the loop changes what is desired of a current instance only by what the goroutine brings back. */
  lemma TurnKeepsInformed(s: S.LoopState, call: Call, event: S.Event, t: S.LoopState, k: nat, plugin: ControlState, answers: seq<W.Answer>)
    requires Linked(s, call, k) && Possible(call, event, k) && S.Handover(S.Settled(s, event), t) && S.ControlsShape(s)
    requires Current(s, k) && Current(t, k) && Informed(plugin, s.control, call, answers)
    ensures Informed(plugin, t.control, NextCall(call, s, event, t, k), answers)
  {
    TurnIsLinked(s, call, event, t, k);
    assert S.SameButConfig(S.Settled(s, event).control, t.control);
  }

  // ---- Goroutine and session ----

  /**
   Between the locks stand only the goroutine's call and calls of the replay. While the
   session is not stopping, nothing is on its way to the writer but that call, and
   perhaps a shutdown.
   */
  ghost predicate Alone(s: SessionState, writer: W.WriterState, waited: set<nat>, call: Call) {
    && (call.Made? ==> call.id < s.arrived && call.kind != W.ShutdownRequest)
    && (forall w | w in s.entering :: w.id in waited || (call.Made? && w == W.Tagged(call.id, call.kind)))
    && (Live(s.phase) ==> forall r | OnItsWay(s, writer, r) :: Expected(s, call, r))
  }

  predicate Expected(s: SessionState, call: Call, r: W.Request) {
    if r.content == W.ShutdownRequest then r.id < s.arrived && (call.Made? ==> r.id != call.id)
    else call.Made? && r == W.Tagged(call.id, call.kind)
  }

  /** Everything inside a session but a new call leaves the call alone. */
  lemma StepLeavesAlone(s: SessionState, before: W.WriterState, t: SessionState, after: W.WriterState, waited: set<nat>, call: Call)
    requires Alone(s, before, waited, call) && BringsNothing(s, before, t, after)
    requires forall r | OnItsWay(t, after, r) :: r.id < t.arrived
    requires forall p | p in s.pending :: p.id in waited
    ensures Alone(t, after, waited, call)
  {
    forall r | Live(t.phase) && OnItsWay(t, after, r) ensures Expected(t, call, r) {
      if OnItsWay(s, before, r) { assert Expected(s, call, r); }
    }
  }

  /** A call is made when nothing but a shutdown is on its way. */
  lemma CallStandsAlone(s: SessionState, writer: W.WriterState, waited: set<nat>, due: Call, t: SessionState, after: set<nat>)
    requires due.Due? && due.kind != W.ShutdownRequest && Alone(s, writer, waited, due)
    requires t.phase == s.phase && t.arrived == s.arrived + 1 && waited <= after
    requires forall w | w in t.entering :: w in s.entering || w == W.Tagged(s.arrived, due.kind)
    requires forall p | p in t.pending :: p in s.pending || p == W.Tagged(s.arrived, due.kind)
    ensures Alone(t, writer, after, Made(due.operation, due.kind, s.arrived))
  {
    forall r | Live(t.phase) && OnItsWay(t, writer, r) ensures Expected(t, Made(due.operation, due.kind, s.arrived), r) {
      if OnItsWay(s, writer, r) { assert Expected(s, due, r); }
    }
  }

  /** What the call came back with: the reply to a control that waited, else what became of it on its way or at the writer. */
  predicate Returned(session: ProcessSession, id: nat, result: W.Result)
    reads session, session.writer
  {
    if id in session.waited then W.Tagged(id, result) in session.replies else session.CameBack(id, result)
  }

  lemma AnsweredOnce(accepted: seq<nat>, answers: seq<W.Answer>, a: W.Answer, b: W.Answer)
    requires Ascending(accepted) && W.Ids(answers) <= accepted && a in answers && b in answers && a.id == b.id
    ensures a == b
  {
    var i :| 0 <= i < |answers| && answers[i] == a;
    var j :| 0 <= j < |answers| && answers[j] == b;
    assert accepted[i] == W.Ids(answers)[i] && accepted[j] == W.Ids(answers)[j];
  }

  /** What the writer still holds has entered its queue. */
  lemma HeldWasAccepted(s: W.WriterState, accepted: seq<nat>, answers: seq<W.Answer>, r: W.Request)
    requires W.Ledger(s, accepted, answers) && W.Holds(s, r)
    ensures r.id in W.InFlight(s.phase) + W.Ids(s.queue) && r.id in accepted
  {
    var rest := W.InFlight(s.phase) + W.Ids(s.queue);
    assert r.id in rest by {
      if r in s.queue {
        var q :| 0 <= q < |s.queue| && s.queue[q] == r;
        assert W.Ids(s.queue)[q] == r.id;
        assert rest[|W.InFlight(s.phase)| + q] == r.id;
      } else {
        assert rest[0] == r.id;
      }
    }
    var i :| 0 <= i < |rest| && rest[i] == r.id;
    assert accepted[|answers| + i] == r.id;
  }

  /** And it has not been answered. */
  lemma HeldIsUnanswered(s: W.WriterState, accepted: seq<nat>, answers: seq<W.Answer>, r: W.Request)
    requires W.Ledger(s, accepted, answers) && Ascending(accepted) && W.Holds(s, r)
    ensures r.id in accepted && r.id !in W.Ids(answers)
  {
    HeldWasAccepted(s, accepted, answers, r);
    var n, rest := |answers|, W.InFlight(s.phase) + W.Ids(s.queue);
    var i :| 0 <= i < |rest| && rest[i] == r.id;
    assert accepted[n + i] == r.id;
    forall j | 0 <= j < n ensures W.Ids(answers)[j] != r.id { assert accepted[j] < accepted[n + i]; }
  }

  /** A call that is back has nothing left on its way, and says what the writer said. */
  lemma GoneWhenBack(session: ProcessSession, id: nat, result: W.Result)
    requires session.Valid() && !session.crowded && Live(session.state.phase) && Returned(session, id, result)
    ensures forall r | OnItsWay(session.state, session.writer.state, r) :: r.id != id
    ensures W.Tagged(id, W.Success) in session.writer.answers <==> result == W.Success
  {
    var s, accepted, answers := session.state, session.writer.accepted, session.writer.answers;
    var back := W.Tagged(id, result);
    W.LedgerPrefix(session.writer.state, accepted, answers);
    BackIsFinal(session, id, result);
    forall r | OnItsWay(s, session.writer.state, r) ensures r.id != id {
      if W.Holds(session.writer.state, r) {
        HeldIsUnanswered(session.writer.state, accepted, answers, r);
        if back in answers { AnswerIsListed(answers, back); }
      }
    }
    if W.Tagged(id, W.Success) in answers {
      AnswerIsListed(answers, W.Tagged(id, W.Success));
      AnsweredOnce(accepted, answers, W.Tagged(id, W.Success), back);
    }
  }

  lemma AnswerIsListed(answers: seq<W.Answer>, a: W.Answer)
    requires a in answers
    ensures a.id in W.Ids(answers)
  {
    var i :| 0 <= i < |answers| && answers[i] == a;
    assert W.Ids(answers)[i] == a.id;
  }

  lemma BackIsFinal(session: ProcessSession, id: nat, result: W.Result)
    requires session.Valid() && Live(session.state.phase) && Returned(session, id, result)
    ensures forall w | w in session.state.entering :: w.id != id
    ensures forall p | p in session.state.pending :: p.id != id
    ensures id in session.writer.accepted ==> W.Tagged(id, result) in session.writer.answers
    ensures result == W.Success ==> W.Tagged(id, result) in session.writer.answers
  {
    var s := session.state;
    PendingIsKnown(s, session.waited, W.Ids(session.replies));
    if id in session.waited {
      AnswerIsListed(session.replies, W.Tagged(id, result));
      assert OnePlace(s, W.Ids(session.replies), id);
      forall p | p in s.pending ensures p.id != id {
        var i :| 0 <= i < |s.pending| && s.pending[i] == p;
        assert W.Ids(s.pending)[i] == p.id;
      }
    } else {
      session.BackFromTheWriter(id, result);
    }
  }

  /** The writer gives one more answer, to a request it has not answered before. */
  lemma OneMoreAnswer(accepted: seq<nat>, answers: seq<W.Answer>, more: seq<W.Answer>, a: W.Answer)
    requires answers <= more && |more| == |answers| + 1 && Ascending(accepted) && W.Ids(more) <= accepted
    ensures a in more <==> a in answers || a == more[|answers|]
    ensures a in answers ==> a.id != more[|answers|].id
  {
    if a in answers {
      var i :| 0 <= i < |answers| && answers[i] == a;
      assert more[i] == a && W.Ids(more)[i] == accepted[i] && W.Ids(more)[|answers|] == accepted[|answers|];
    }
  }

  /** The writer deals with the call, or with the shutdown: the plugin is told what the call then stands for. */
  lemma DealKeepsInformed(initial: ControlState, wire: seq<W.Message>, answers: seq<W.Answer>, wireAfter: seq<W.Message>,
                          answersAfter: seq<W.Answer>, accepted: seq<nat>, q: W.Request, s: SessionState, call: Call, control: ControlState)
    requires answers <= answersAfter && |answersAfter| == |answers| + 1 && Ascending(accepted) && W.Ids(answersAfter) <= accepted
    requires W.Answers(initial, wire, q, answersAfter[|answers|], wireAfter) && Expected(s, call, q)
    requires Informed(W.Replayed(initial, wire), control, call, answers)
    ensures Informed(W.Replayed(initial, wireAfter), control, call, answersAfter)
  {
    var last := answersAfter[|answers|];
    if last.content == W.Success { W.EffectIsTold(initial, wire, q, wireAfter); }
    if call.Made? { OneMoreAnswer(accepted, answers, answersAfter, W.Tagged(call.id, W.Success)); }
  }
  /** Everyone on the way to the writer has arrived, and nothing that is still to arrive has been answered. */
  lemma EveryoneArrived(session: ProcessSession)
    requires session.Valid()
    ensures forall r | OnItsWay(session.state, session.writer.state, r) :: r.id < session.state.arrived
    ensures forall p | p in session.state.pending :: p.id in session.waited
    ensures forall a | a in session.writer.answers :: a.id < session.state.arrived
  {
    var s, accepted, answers := session.state, session.writer.accepted, session.writer.answers;
    PendingIsKnown(s, session.waited, W.Ids(session.replies));
    W.LedgerPrefix(session.writer.state, accepted, answers);
    forall r | OnItsWay(s, session.writer.state, r) ensures r.id < s.arrived {
      if r in s.entering {
        EntererIsKnown(s, session.waited, accepted, session.writer.state.accepting, r);
      } else if r !in s.pending {
        HeldWasAccepted(session.writer.state, accepted, answers, r);
      }
    }
    forall a | a in answers ensures a.id < s.arrived {
      AnswerIsListed(answers, a);
      assert a.id in accepted;
    }
  }

  /** A turn of the loop starts no call in the session. */
  lemma TurnStandsAlone(s: S.LoopState, event: S.Event, t: S.LoopState, k: nat, session: SessionState, writer: W.WriterState, waited: set<nat>, call: Call)
    requires Linked(s, call, k) && Possible(call, event, k) && S.Handover(S.Settled(s, event), t)
    requires Alone(session, writer, waited, call)
    ensures Alone(session, writer, waited, NextCall(call, s, event, t, k))
  {
    var next := NextCall(call, s, event, t, k);
    TurnIsLinked(s, call, event, t, k);
    if next != call {
      forall r | Live(session.phase) && OnItsWay(session, writer, r) ensures Expected(session, next, r) {
        assert Expected(session, call, r);
      }
    }
  }

  /** A session that is ready has no other call between the locks. */
  lemma NobodyElseEnters(session: ProcessSession, call: Call)
    requires session.Valid() && session.state.phase.Ready? && !call.Made?
    requires Alone(session.state, session.writer.state, session.waited, call)
    ensures session.state.entering == {}
  {
    if w :| w in session.state.entering {
      assert false;
    }
  }

  /** A call that has come back leaves nothing behind. */
  lemma BackStandsAlone(session: ProcessSession, call: Call, result: W.Result)
    requires session.Valid() && !session.crowded && call.Made? && Returned(session, call.id, result)
    requires Alone(session.state, session.writer.state, session.waited, call)
    ensures Alone(session.state, session.writer.state, session.waited, Back(call.operation, call.kind, result))
  {
    var s, back := session.state, Back(call.operation, call.kind, result);
    forall w | w in s.entering ensures w.id in session.waited {
      if call.id !in session.waited { session.BackFromTheWriter(call.id, result); }
    }
    if Live(s.phase) {
      GoneWhenBack(session, call.id, result);
      forall r | OnItsWay(s, session.writer.state, r) ensures Expected(s, back, r) {
        assert Expected(s, call, r);
      }
    }
  }

  // ---- The instance as it runs ----

  /** Supervisor, goroutine, session and plugin fit together. */
  ghost predicate InStep(s: S.LoopState, k: nat, launched: bool, call: Call, session: SessionState, writer: W.WriterState, waited: set<nat>,
                         plugin: ControlState, answers: seq<W.Answer>) {
    && (if launched then k <= s.instance else call.Idle? && !(s.session && s.instance == k))
    && (call.Due? ==> call.kind != W.ShutdownRequest)
    && Linked(s, call, k) && Alone(session, writer, waited, call)
    && (launched && Current(s, k) && Live(session.phase) ==> Informed(plugin, s.control, call, answers))
  }

  /** A turn of the loop that does not launch the instance. */
  lemma TurnKeepsStep(s: S.LoopState, event: S.Event, t: S.LoopState, k: nat, launched: bool, call: Call, session: SessionState,
                      writer: W.WriterState, waited: set<nat>, plugin: ControlState, answers: seq<W.Answer>)
    requires InStep(s, k, launched, call, session, writer, waited, plugin, answers) && S.ControlsShape(s)
    requires Possible(call, event, k) && S.Handover(S.Settled(s, event), t)
    requires launched || !(t.session && t.instance == k)
    ensures InStep(t, k, launched, NextCall(call, s, event, t, k), session, writer, waited, plugin, answers)
  {
    TurnIsLinked(s, call, event, t, k);
    TurnStandsAlone(s, event, t, k, session, writer, waited, call);
    if launched && Current(t, k) && Live(session.phase) { TurnKeepsInformed(s, call, event, t, k, plugin, answers); }
  }

  /** A turn of the loop that launches the instance puts none of its controls in flight. */
  lemma LaunchIsIdle(s: S.LoopState, event: S.Event, t: S.LoopState, k: nat, call: Call)
    requires call.Idle? && !(s.session && s.instance == k) && Linked(s, call, k)
    requires Possible(call, event, k) && S.Handover(S.Settled(s, event), t)
    ensures Linked(t, call, k)
  {
    TurnIsLinked(s, call, event, t, k);
  }

  /** A new session, started with the desired state, which nobody calls yet. */
  lemma NewInStep(s: S.LoopState, k: nat, launched: bool)
    requires Linked(s, Idle, k) && if launched then k <= s.instance else !(s.session && s.instance == k)
    ensures InStep(s, k, launched, Idle, SessionState(Starting, 0, [], None, {}), W.WriterState(s.control, true, [], W.Receiving, false), {},
                   W.Replayed(s.control, []), [])
  {
  }

  /** Before a call nobody else stands between the locks of a ready session, and its id has not been answered. */
  lemma BeforeTheCall(session: ProcessSession, due: Call)
    requires session.Valid() && due.Due? && Alone(session.state, session.writer.state, session.waited, due)
    ensures session.state.phase.Ready? ==> session.state.entering == {}
    ensures W.Tagged(session.state.arrived, W.Success) !in session.writer.answers
  {
    EveryoneArrived(session);
    if session.state.phase.Ready? { NobodyElseEnters(session, due); }
  }

  /** The call has no effect yet. */
  predicate Begun(due: Call, call: Call, answers: seq<W.Answer>) {
    && due.Due? && (call.Made? || call.Back?) && call.operation == due.operation && call.kind == due.kind
    && (call.Made? ==> W.Tagged(call.id, W.Success) !in answers) && (call.Back? ==> call.result != W.Success)
  }

  lemma BegunInStep(s: S.LoopState, k: nat, due: Call, call: Call, before: SessionState, session: SessionState, writer: W.WriterState,
                    waited: set<nat>, more: set<nat>, plugin: ControlState, answers: seq<W.Answer>)
    requires InStep(s, k, true, due, before, writer, waited, plugin, answers) && Begun(due, call, answers)
    requires Alone(session, writer, more, call) && session.phase == before.phase
    ensures InStep(s, k, true, call, session, writer, more, plugin, answers)
  {
  }

  /** The goroutine calls the session, whose answer may be a refusal. */
  method Place(session: ProcessSession, due: Call) returns (call: Call)
    requires session.Valid() && !session.crowded && due.Due? && due.kind != W.ShutdownRequest
    requires Alone(session.state, session.writer.state, session.waited, due)
    modifies session`state, session`waited, session`crowded
    ensures session.Valid() && !session.crowded && session.state.phase == old(session.state.phase)
    ensures Alone(session.state, session.writer.state, session.waited, call)
    ensures Begun(due, call, session.writer.answers)
  {
    BeforeTheCall(session, due);
    var id := session.state.arrived;
    var r := session.Control(due.kind);
    if r.TurnedAway? { return Back(due.operation, due.kind, W.Failed(r.error)); }
    CallStandsAlone(old(session.state), session.writer.state, old(session.waited), due, session.state, session.waited);
    return Made(due.operation, due.kind, id);
  }

  /** Anything else that happens in the session: its goroutine, the writer, the end of the session. */
  method Serve(session: ProcessSession, step: SessionStep, ghost call: Call, ghost control: ControlState)
    requires session.Valid() && !session.crowded && !step.Call?
    requires Alone(session.state, session.writer.state, session.waited, call)
    modifies session, session.writer
    ensures session.Valid() && !session.crowded && (Live(session.state.phase) ==> Live(old(session.state.phase)))
    ensures Alone(session.state, session.writer.state, session.waited, call)
    ensures Live(session.state.phase) && Informed(W.Replayed(session.writer.initial, old(session.writer.wire)), control, call, old(session.writer.answers))
      ==> Informed(W.Replayed(session.writer.initial, session.writer.wire), control, call, session.writer.answers)
  {
    EveryoneArrived(session);
    ghost var before, writer, wire, answers := session.state, session.writer.state, session.writer.wire, session.writer.answers;
    ghost var dealt := TakeStep(session, step);
    EveryoneArrived(session);
    StepLeavesAlone(before, writer, session.state, session.writer.state, session.waited, call);
    if dealt.Some? && Live(session.state.phase) && Informed(W.Replayed(session.writer.initial, wire), control, call, answers) {
      W.LedgerPrefix(session.writer.state, session.writer.accepted, session.writer.answers);
      assert OnItsWay(before, writer, dealt.value);
      DealKeepsInformed(session.writer.initial, wire, answers, session.writer.wire, session.writer.answers,
                        session.writer.accepted, dealt.value, before, call, control);
    }
  }

  class SupervisedInstance {
    const supervisor: S.PluginSupervisor
    const k: nat
    var exited: bool

    /** The instance's session, once it is launched, and the goroutine that calls it. */
    var launched: bool
    var session: ProcessSession
    var call: Call

    ghost predicate Valid()
      reads this, supervisor, session, session.writer
    {
      (exited || supervisor.Valid()) && session.Valid() && !session.crowded && Kept()
    }

    ghost predicate Kept()
      reads this, supervisor, session, session.writer
    {
      InStep(supervisor.state, k, launched, call, session.state, session.writer.state, session.waited,
             W.Replayed(session.writer.initial, session.writer.wire), session.writer.answers)
    }

    constructor (supervisor: S.PluginSupervisor, k: nat, launched: bool, session: ProcessSession)
      requires supervisor.Valid() && session.Valid() && !session.crowded
      requires InStep(supervisor.state, k, launched, Idle, session.state, session.writer.state, session.waited,
                      W.Replayed(session.writer.initial, session.writer.wire), session.writer.answers)
      ensures Valid() && this.supervisor == supervisor && this.k == k && this.session == session
    {
      this.supervisor, this.k := supervisor, k;
      this.launched, this.session := launched, session;
      exited, call := false, Idle;
    }

    /** `startSession`: the session starts with the desired state. */
    method Launch(capacity: nat)
      requires (exited || supervisor.Valid()) && call.Idle? && k <= supervisor.state.instance && Linked(supervisor.state, call, k)
      modifies this`session, this`launched
      ensures Valid() && launched && fresh(session) && fresh(session.writer) && session.writer.initial == supervisor.state.control
    {
      session := new ProcessSession(supervisor.state.control, capacity);
      launched := true;
      NewInStep(supervisor.state, k, true);
    }

    /** The event loop takes one turn. */
    method Advance(event: S.Event)
      requires supervisor.Valid() && !exited
      modifies this`exited, supervisor
      ensures (exited || supervisor.Valid()) && S.Handover(S.Settled(old(supervisor.state), event), supervisor.state)
      ensures S.ControlsShape(old(supervisor.state))
    {
      exited := supervisor.Step(event);
    }

    /** One turn of the event loop, if the event is possible now. */
    method Turn(event: S.Event, capacity: nat)
      requires Valid() && !exited
      modifies this, supervisor
      ensures Valid()
      ensures session == old(session) || (fresh(session) && fresh(session.writer))
    {
      if !Possible(call, event, k) { return; }
      var before := supervisor.state;
      Advance(event);
      if !launched && supervisor.state.session && supervisor.state.instance == k {
        LaunchIsIdle(before, event, supervisor.state, k, call);
        Launch(capacity);
      } else {
        TurnKeepsStep(before, event, supervisor.state, k, launched, call, session.state, session.writer.state, session.waited,
                      W.Replayed(session.writer.initial, session.writer.wire), session.writer.answers);
        call := NextCall(call, before, event, supervisor.state, k);
      }
    }

    /** The goroutine calls the session, unless its control was withdrawn before. */
    method CallSession(cancelled: bool)
      requires Valid() && launched && call.Due?
      modifies this`call, session`state, session`waited, session`crowded
      ensures Valid()
    {
      ghost var due, before, waited := call, session.state, session.waited;
      if cancelled {
        call := Back(call.operation, call.kind, W.Failed(ContextDone));
      } else {
        call := Place(session, call);
      }
      BegunInStep(supervisor.state, k, due, call, before, session.state, session.writer.state, waited, session.waited,
                  W.Replayed(session.writer.initial, session.writer.wire), session.writer.answers);
    }

    method InSession(step: SessionStep)
      requires Valid() && launched && !step.Call?
      modifies session, session.writer
      ensures Valid()
    {
      Serve(session, step, call, supervisor.state.control);
    }

    /** The call comes back to the goroutine. */
    method CallReturns(result: W.Result)
      requires Valid() && launched && call.Made? && Returned(session, call.id, result)
      modifies this`call
      ensures Valid()
    {
      BackStandsAlone(session, call, result);
      if Live(session.state.phase) { GoneWhenBack(session, call.id, result); }
      call := Back(call.operation, call.kind, result);
    }
  }

  datatype DeliveryStep =
    | LoopTurn(event: S.Event) | CallSession(cancelled: bool) | InSession(step: SessionStep) | CallReturns(result: W.Result)

  /** One step of whoever is next, if it is possible now. */
  method TakeTurn(instance: SupervisedInstance, step: DeliveryStep, capacity: nat)
    requires instance.Valid()
    modifies instance, instance.supervisor, instance.session, instance.session.writer
    ensures instance.Valid()
    ensures instance.session == old(instance.session) || (fresh(instance.session) && fresh(instance.session.writer))
  {
    match step {
      case LoopTurn(event) => if !instance.exited { instance.Turn(event, capacity); }
      case CallSession(cancelled) => if instance.launched && instance.call.Due? { instance.CallSession(cancelled); }
      case InSession(step) => if instance.launched && !step.Call? { instance.InSession(step); }
      case CallReturns(result) =>
        if instance.launched && instance.call.Made? && Returned(instance.session, instance.call.id, result) { instance.CallReturns(result); }
    }
  }

  /** What is desired may differ from what the plugin knows only by the control in flight. */
  predicate UpToDate(plugin: ControlState, s: S.LoopState) {
    W.Agree(plugin, s.control) || (s.inFlight.Some? && W.Agree(plugin, W.Effect(s.control, KindOf(s.inFlight.value.command))))
  }

  lemma BelievedIsDesired(s: S.LoopState, k: nat, call: Call, plugin: ControlState, answers: seq<W.Answer>)
    requires Linked(s, call, k) && Current(s, k) && Informed(plugin, s.control, call, answers)
    ensures UpToDate(plugin, s)
  {
  }

  /**
   Every interleaving of the event loop, the goroutine that carries the controls of one
   instance, and everything that goes on in that instance's session. The session never
   has two calls to deal with, so controls enter the writer in the order in which they
   were sent; and as long as the supervisor counts on the instance and the session
   is not stopping, the plugin has been told exactly the activation and the subscription
   that are desired, but for the control in flight.
   */
  method RunDelivery(policy: RestartPolicy, capacity: nat, enabled: bool, initial: ControlState, opens: bool, k: nat, steps: seq<DeliveryStep>)
    returns (state: S.LoopState, launched: bool, phase: SessionPhase, accepted: seq<nat>, ghost crowded: bool,
             ghost startup: ControlState, ghost wire: seq<W.Message>, answers: seq<W.Answer>, ghost done: seq<W.Request>)
    requires ValidPolicy(policy)
    ensures !crowded && Ascending(accepted) && W.Ids(answers) <= accepted
    ensures W.CarriedOut(startup, wire, answers, done)
    ensures launched && Current(state, k) && Live(phase) ==> UpToDate(W.Replayed(startup, wire), state)
  {
    var supervisor := new S.PluginSupervisor(policy, capacity, enabled, initial, opens, 0);
    launched := supervisor.state.session && supervisor.state.instance == k;
    var session := new ProcessSession(supervisor.state.control, capacity);
    NewInStep(supervisor.state, k, launched);
    var instance := new SupervisedInstance(supervisor, k, launched, session);
    for i := 0 to |steps|
      invariant fresh(instance) && fresh(instance.supervisor) && fresh(instance.session) && fresh(instance.session.writer)
      invariant instance.Valid() && instance.k == k
    {
      TakeTurn(instance, steps[i], capacity);
    }
    session := instance.session;
    state, launched, phase := instance.supervisor.state, instance.launched, session.state.phase;
    accepted, answers, crowded := session.writer.accepted, session.writer.answers, session.crowded;
    startup, wire, done := session.writer.initial, session.writer.wire, session.writer.done;
    W.LedgerPrefix(session.writer.state, accepted, answers);
    if launched && Current(state, k) && Live(phase) { BelievedIsDesired(state, k, instance.call, W.Replayed(startup, wire), answers); }
  }
}
