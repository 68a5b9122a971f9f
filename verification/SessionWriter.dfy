/**
 The writer of a plugin session (internal/plugins/control.go): callers put requests
 in a bounded queue under a lock; one goroutine takes them in order, sends what
 changes the plugin's state and answers each. Every method is one atomic step, so
 every interleaving of callers and writer is a sequence of calls.
 */
module SessionWriter {
  import opened Common
  import opened Subscriptions
  import opened Controls

  datatype Kind =
    | ConfigRequest(config: Config) | SubscriptionRequest(subscription: Subscription)
    | ActiveRequest(active: bool, force: bool) | ShutdownRequest | UnknownRequest

  /** A request and later its answer carry the id of the caller. */
  datatype Tagged<T> = Tagged(id: nat, content: T)

  type Request = Tagged<Kind>

  datatype Message = ControlMessage(update: Update) | ShutdownMessage

  /** What a request means for the plugin's state: a refusal, nothing, or a message. */
  datatype Handling = Refuse(error: ControlError) | Quiet | Transmit(next: ControlState, message: Message)

  datatype Phase = Receiving | Sending(request: Request, message: Message) | Closing | Draining | Done

  datatype WriterState = WriterState(control: ControlState, accepting: bool, queue: seq<Request>, phase: Phase, failed: bool)

  datatype Result = Success | Failed(error: ControlError) | SendFailed

  type Answer = Tagged<Result>

  function Handle(applied: Applied, update: Update): Handling {
    match applied
    case Refused(error) => Refuse(error)
    case Unchanged => Quiet
    case Changed(next) => Transmit(next, ControlMessage(update))
  }

  /** `applyControl`. A forced activation is sent even when it changes nothing. */
  function ApplyControl(s: ControlState, kind: Kind): Handling {
    match kind
    case ConfigRequest(config) => Handle(ApplyConfig(s, config), SetConfig(config))
    case SubscriptionRequest(subscription) => Handle(ApplySubscription(s, subscription), SetSubscription(subscription))
    case ActiveRequest(active, force) =>
      if s.active == active && !force then Quiet else Transmit(s.(active := active), ControlMessage(SetActive(active)))
    case ShutdownRequest => Transmit(s, ShutdownMessage)
    case UnknownRequest => Refuse(InvalidState)
  }

  /** The state of a plugin that was started with initial and got the messages. */
  function Replayed(initial: ControlState, wire: seq<Message>): ControlState {
    if wire == [] then initial
    else
      var before := Replayed(initial, wire[..|wire| - 1]);
      match wire[|wire| - 1]
      case ControlMessage(update) => Apply(before, update)
      case ShutdownMessage => before
  }

  /** What is transmitted tells the plugin exactly how its state changes. */
  lemma TransmitTellsState(initial: ControlState, wire: seq<Message>, kind: Kind)
    requires ApplyControl(Replayed(initial, wire), kind).Transmit?
    ensures var h := ApplyControl(Replayed(initial, wire), kind); Replayed(initial, wire + [h.message]) == h.next
  {
    ReplayedNext(initial, wire, ApplyControl(Replayed(initial, wire), kind).message);
  }

  lemma ReplayedNext(initial: ControlState, wire: seq<Message>, message: Message)
    ensures Replayed(initial, wire + [message])
         == if message.ShutdownMessage? then Replayed(initial, wire) else Apply(Replayed(initial, wire), message.update)
  {
    assert (wire + [message])[..|wire|] == wire;
  }

  function Ids<T>(items: seq<Tagged<T>>): (r: seq<nat>)
    ensures |r| == |items|
  {
    seq(|items|, i requires 0 <= i < |items| => items[i].id)
  }

  /** What the plugin gets if exactly these requests are carried out, one after the other. */
  function Transmitted(initial: ControlState, done: seq<Request>): seq<Message> {
    if done == [] then []
    else
      var before := Transmitted(initial, done[..|done| - 1]);
      match ApplyControl(Replayed(initial, before), done[|done| - 1].content)
      case Transmit(_, message) => before + [message]
      case _ => before
  }

  /** The ids of the callers that were told of success, in order. */
  function Succeeded(answers: seq<Answer>): seq<nat> {
    if answers == [] then []
    else
      var last := answers[|answers| - 1];
      Succeeded(answers[..|answers| - 1]) + if last.content.Success? then [last.id] else []
  }

  /** The requests answered with success are those carried out, and the plugin got exactly their messages. */
  ghost predicate CarriedOut(initial: ControlState, wire: seq<Message>, answers: seq<Answer>, done: seq<Request>) {
    wire == Transmitted(initial, done) && Succeeded(answers) == Ids(done)
  }

  lemma NotCarriedOut(initial: ControlState, wire: seq<Message>, answers: seq<Answer>, done: seq<Request>, answer: Answer)
    requires CarriedOut(initial, wire, answers, done) && answer.content != Success
    ensures CarriedOut(initial, wire, answers + [answer], done)
  {
    assert (answers + [answer])[..|answers|] == answers;
  }

  /** A success of a request whose message, if it has one, is the next on the wire. */
  lemma CarriedOutNext(initial: ControlState, wire: seq<Message>, answers: seq<Answer>, done: seq<Request>, request: Request)
    requires CarriedOut(initial, wire, answers, done)
    ensures var h := ApplyControl(Replayed(initial, wire), request.content);
            CarriedOut(initial, if h.Transmit? then wire + [h.message] else wire, answers + [Tagged(request.id, Success)], done + [request])
  {
    assert (answers + [Tagged(request.id, Success)])[..|answers|] == answers;
    assert (done + [request])[..|done|] == done;
    assert Ids(done + [request]) == Ids(done) + [request.id];
  }

  // ---- What one step of the writer can do to the plugin ----

  /** The writer still has to deal with the request. */
  predicate Holds(s: WriterState, r: Request) {
    r in s.queue || (s.phase.Sending? && s.phase.request == r)
  }

  /** The request takes effect: its message is the next on the wire, or it has none. */
  predicate TakesEffect(initial: ControlState, wire: seq<Message>, request: Request, after: seq<Message>) {
    match ApplyControl(Replayed(initial, wire), request.content)
    case Transmit(_, message) => after == wire + [message]
    case Quiet => after == wire
    case Refuse(_) => false
  }

  /** One of these requests is answered, and takes effect exactly if the answer is a success. */
  predicate Answers(initial: ControlState, wire: seq<Message>, request: Request, answer: Answer, after: seq<Message>) {
    && answer.id == request.id
    && if answer.content == Success then TakesEffect(initial, wire, request, after) else after == wire
  }

  /** The request as a change of the plugin's state. */
  function Effect(s: ControlState, kind: Kind): ControlState {
    match kind
    case ConfigRequest(config) => s.(config := config)
    case SubscriptionRequest(subscription) => s.(subscription := subscription)
    case ActiveRequest(active, _) => s.(active := active)
    case ShutdownRequest | UnknownRequest => s
  }

  /** Equal in all but the configuration, which reaches a plugin later than it is accepted. */
  predicate Agree(a: ControlState, b: ControlState) {
    a.active == b.active && a.subscription == b.subscription
  }

  /** A request that takes effect gives the plugin its own field. */
  lemma EffectIsTold(initial: ControlState, wire: seq<Message>, request: Request, after: seq<Message>)
    requires TakesEffect(initial, wire, request, after)
    ensures Agree(Replayed(initial, after), Effect(Replayed(initial, wire), request.content))
  {
    var h := ApplyControl(Replayed(initial, wire), request.content);
    if h.Transmit? { ReplayedNext(initial, wire, h.message); }
  }

  function InFlight(phase: Phase): seq<nat> {
    if phase.Sending? then [phase.request.id] else []
  }

  /** Every request that entered the queue was answered, is in flight, or is queued; in this order, each once. */
  predicate Ledger(s: WriterState, accepted: seq<nat>, answers: seq<Answer>) {
    accepted == Ids(answers) + (InFlight(s.phase) + Ids(s.queue))
  }

  /** Once the writer stops nothing enters the queue any more, and nothing is behind a shutdown. */
  predicate Gate(s: WriterState, capacity: nat) {
    && |s.queue| <= capacity
    && (s.phase.Draining? || s.phase.Done? ==> !s.accepting)
    && (s.phase.Done? ==> s.queue == [])
    && (s.failed ==> !s.phase.Receiving? && !s.phase.Sending?)
    && (forall i | 0 <= i < |s.queue| && s.queue[i].content == ShutdownRequest :: i == |s.queue| - 1 && !s.accepting)
    && (s.phase.Sending? && s.phase.message == ShutdownMessage ==> s.queue == [] && !s.accepting)
  }

  /** While the connection works, the plugin's state is what the writer believes. */
  predicate InStep(s: WriterState, initial: ControlState, wire: seq<Message>) {
    match s.phase
    case Sending(request, message) => ApplyControl(Replayed(initial, wire), request.content) == Transmit(s.control, message)
    case _ => !s.failed ==> Replayed(initial, wire) == s.control
  }

  lemma Enqueued(s: WriterState, request: Request, accepted: seq<nat>, answers: seq<Answer>)
    requires Ledger(s, accepted, answers)
    ensures Ledger(s.(queue := s.queue + [request]), accepted + [request.id], answers)
    ensures Ledger(s.(queue := s.queue + [request], accepting := false), accepted + [request.id], answers)
  {
    assert Ids(s.queue + [request]) == Ids(s.queue) + [request.id];
    assert Ids(answers) + (InFlight(s.phase) + (Ids(s.queue) + [request.id])) == accepted + [request.id];
  }

  /** The head of the queue, or the request in flight, gets its answer. */
  lemma Answered(answers: seq<Answer>, answer: Answer, others: seq<nat>)
    ensures Ids(answers + [answer]) + others == Ids(answers) + ([answer.id] + others)
  {
    assert Ids(answers + [answer]) == Ids(answers) + [answer.id];
  }

  lemma HeadOf(queue: seq<Request>)
    requires queue != []
    ensures Ids(queue) == [queue[0].id] + Ids(queue[1..])
  {
  }

  lemma HeadAnswered(s: WriterState, accepted: seq<nat>, answers: seq<Answer>, answer: Answer)
    requires Ledger(s, accepted, answers) && !s.phase.Sending? && s.queue != [] && answer.id == s.queue[0].id
    ensures Ledger(s.(queue := s.queue[1..]), accepted, answers + [answer])
  {
    HeadOf(s.queue);
    Answered(answers, answer, Ids(s.queue[1..]));
    assert [] + Ids(s.queue) == Ids(s.queue) && [] + Ids(s.queue[1..]) == Ids(s.queue[1..]);
  }

  /** The writer has taken the head of the queue. */
  function Received(s: WriterState): WriterState
    requires s.queue != []
  {
    var request, rest := s.queue[0], s.(queue := s.queue[1..]);
    match ApplyControl(s.control, request.content)
    case Transmit(next, message) => rest.(control := next, phase := Sending(request, message))
    case _ => rest
  }

  /** How much the writer still has to do for what is queued. */
  function Work(s: WriterState): nat {
    4 * |s.queue| + match s.phase
    case Receiving => 0
    case Sending(_, _) => 3
    case Closing => 2
    case Draining => 1
    case Done => 0
  }

  /** The writer answers the request dealt with, which takes effect exactly if it is a success, and no other. */
  ghost predicate Moved(initial: ControlState, s: WriterState, answers: seq<Answer>, wire: seq<Message>,
                        t: WriterState, more: seq<Answer>, after: seq<Message>, dealt: Option<Request>) {
    && (t.accepting ==> s.accepting) && (forall r | Holds(t, r) :: Holds(s, r))
    && match dealt
       case None => more == answers && after == wire
       case Some(request) =>
         && Holds(s, request) && answers <= more && |more| == |answers| + 1
         && Answers(initial, wire, request, more[|answers|], after)
  }

  lemma NextIsTaken(initial: ControlState, s: WriterState, answers: seq<Answer>, wire: seq<Message>)
    requires s.phase.Receiving? && s.queue != [] && !s.failed && InStep(s, initial, wire)
    ensures var request := s.queue[0];
      match ApplyControl(s.control, request.content)
      case Refuse(error) => Moved(initial, s, answers, wire, Received(s), answers + [Tagged(request.id, Failed(error))], wire, Some(request))
      case Quiet => Moved(initial, s, answers, wire, Received(s), answers + [Tagged(request.id, Success)], wire, Some(request))
      case Transmit(_, _) => Moved(initial, s, answers, wire, Received(s), answers, wire, None)
  {
    forall r | Holds(Received(s), r) ensures Holds(s, r) {
    }
  }

  lemma SendIsOver(initial: ControlState, s: WriterState, answers: seq<Answer>, wire: seq<Message>, ok: bool)
    requires s.phase.Sending? && InStep(s, initial, wire)
    ensures Moved(initial, s, answers, wire, Sent(s, ok), answers + [Tagged(s.phase.request.id, if ok then Success else SendFailed)],
                  if ok then wire + [s.phase.message] else wire, Some(s.phase.request))
  {
  }

  lemma HeadIsRefused(initial: ControlState, s: WriterState, answers: seq<Answer>, wire: seq<Message>)
    requires s.phase.Draining? && s.queue != []
    ensures Moved(initial, s, answers, wire, s.(queue := s.queue[1..]), answers + [Tagged(s.queue[0].id, Failed(InvalidState))], wire,
                  Some(s.queue[0]))
  {
  }

  /** Everything a writer keeps true of itself. */
  ghost predicate Steady(initial: ControlState, capacity: nat, s: WriterState, accepted: seq<nat>, answers: seq<Answer>,
                        wire: seq<Message>, done: seq<Request>) {
    && Ledger(s, accepted, answers) && Gate(s, capacity) && InStep(s, initial, wire)
    && CarriedOut(initial, wire, answers, done)
  }

  /** The head of the queue is answered: with success only if it changes nothing. */
  lemma AnsweringIsSteady(initial: ControlState, capacity: nat, s: WriterState, accepted: seq<nat>, answers: seq<Answer>,
                         wire: seq<Message>, done: seq<Request>, result: Result)
    requires Steady(initial, capacity, s, accepted, answers, wire, done) && s.queue != []
    requires s.phase.Receiving? || (s.phase.Draining? && result != Success)
    requires result == Success ==> ApplyControl(s.control, s.queue[0].content).Quiet?
    ensures Steady(initial, capacity, s.(queue := s.queue[1..]), accepted, answers + [Tagged(s.queue[0].id, result)], wire,
                  if result == Success then done + [s.queue[0]] else done)
  {
    HeadAnswered(s, accepted, answers, Tagged(s.queue[0].id, result));
    if result == Success {
      CarriedOutNext(initial, wire, answers, done, s.queue[0]);
    } else {
      NotCarriedOut(initial, wire, answers, done, Tagged(s.queue[0].id, result));
    }
  }

  lemma SendingIsSteady(initial: ControlState, capacity: nat, s: WriterState, accepted: seq<nat>, answers: seq<Answer>,
                       wire: seq<Message>, done: seq<Request>)
    requires Steady(initial, capacity, s, accepted, answers, wire, done) && s.phase.Receiving? && s.queue != []
    requires ApplyControl(s.control, s.queue[0].content).Transmit?
    ensures Steady(initial, capacity, Received(s), accepted, answers, wire, done)
  {
    HeadOf(s.queue);
  }

  function Sent(s: WriterState, ok: bool): WriterState
    requires s.phase.Sending?
  {
    s.(phase := if ok && s.phase.message != ShutdownMessage then Receiving else Closing, failed := !ok)
  }

  lemma SentIsSteady(initial: ControlState, capacity: nat, s: WriterState, accepted: seq<nat>, answers: seq<Answer>,
                    wire: seq<Message>, done: seq<Request>)
    requires Steady(initial, capacity, s, accepted, answers, wire, done) && s.phase.Sending?
    ensures Steady(initial, capacity, Sent(s, true), accepted, answers + [Tagged(s.phase.request.id, Success)],
                  wire + [s.phase.message], done + [s.phase.request])
  {
    Answered(answers, Tagged(s.phase.request.id, Success), Ids(s.queue));
    assert [] + Ids(s.queue) == Ids(s.queue);
    CarriedOutNext(initial, wire, answers, done, s.phase.request);
    TransmitTellsState(initial, wire, s.phase.request.content);
  }

  lemma LostIsSteady(initial: ControlState, capacity: nat, s: WriterState, accepted: seq<nat>, answers: seq<Answer>,
                    wire: seq<Message>, done: seq<Request>)
    requires Steady(initial, capacity, s, accepted, answers, wire, done) && s.phase.Sending?
    ensures Steady(initial, capacity, Sent(s, false), accepted, answers + [Tagged(s.phase.request.id, SendFailed)], wire, done)
  {
    Answered(answers, Tagged(s.phase.request.id, SendFailed), Ids(s.queue));
    assert [] + Ids(s.queue) == Ids(s.queue);
    NotCarriedOut(initial, wire, answers, done, Tagged(s.phase.request.id, SendFailed));
  }

  lemma EnteringIsSteady(initial: ControlState, capacity: nat, s: WriterState, accepted: seq<nat>, answers: seq<Answer>,
                        wire: seq<Message>, done: seq<Request>, request: Request)
    requires Steady(initial, capacity, s, accepted, answers, wire, done) && s.accepting && |s.queue| < capacity
    ensures Steady(initial, capacity, s.(queue := s.queue + [request], accepting := request.content != ShutdownRequest),
                  accepted + [request.id], answers, wire, done)
  {
    Enqueued(s, request, accepted, answers);
  }

  // ---- What each step does ----

  /** The writer as a whole: its fields, and what callers and plugin have got from it. */
  datatype View = View(state: WriterState, accepted: seq<nat>, answers: seq<Answer>, wire: seq<Message>)

  /** The head of the queue is answered. */
  predicate HeadGets(v: View, result: Result, w: View)
    requires v.state.queue != []
  {
    w == v.(state := v.state.(queue := v.state.queue[1..]), answers := v.answers + [Tagged(v.state.queue[0].id, result)])
  }

  /** The writer's next step: it answers the head of the queue or starts to send it, ends a send, or closes and refuses what is left. */
  predicate Moves(v: View, sendOk: bool, w: View) {
    var s := v.state;
    match s.phase
    case Receiving =>
      if s.queue == [] then w == v
      else
        (match ApplyControl(s.control, s.queue[0].content)
         case Refuse(error) => HeadGets(v, Failed(error), w)
         case Quiet => HeadGets(v, Success, w)
         case Transmit(next, message) => w == v.(state := s.(queue := s.queue[1..], control := next, phase := Sending(s.queue[0], message))))
    case Sending(request, message) =>
      if sendOk
      then w == v.(state := s.(phase := if message == ShutdownMessage then Closing else Receiving),
                   answers := v.answers + [Tagged(request.id, Success)], wire := v.wire + [message])
      else w == v.(state := s.(phase := Closing, failed := true), answers := v.answers + [Tagged(request.id, SendFailed)])
    case Closing => w == v.(state := s.(accepting := false, phase := Draining))
    case Draining => if s.queue == [] then w == v.(state := s.(phase := Done)) else HeadGets(v, Failed(InvalidState), w)
    case Done => w == v
  }

  lemma ReceivingMoves(v: View, sendOk: bool, w: View)
    requires v.state.phase.Receiving? && v.state.queue != []
    requires w == v.(state := Received(v.state), answers := w.answers)
    requires match ApplyControl(v.state.control, v.state.queue[0].content)
      case Refuse(error) => w.answers == v.answers + [Tagged(v.state.queue[0].id, Failed(error))]
      case Quiet => w.answers == v.answers + [Tagged(v.state.queue[0].id, Success)]
      case Transmit(_, _) => w.answers == v.answers
    ensures Moves(v, sendOk, w)
  {
  }

  lemma SendingMoves(v: View, sendOk: bool, w: View)
    requires v.state.phase.Sending? && !v.state.failed && w.accepted == v.accepted && w.state == Sent(v.state, sendOk)
    requires w.answers == v.answers + [Tagged(v.state.phase.request.id, if sendOk then Success else SendFailed)]
    requires w.wire == if sendOk then v.wire + [v.state.phase.message] else v.wire
    ensures Moves(v, sendOk, w)
  {
  }

  lemma DrainingMoves(v: View, sendOk: bool, w: View)
    requires v.state.phase.Draining? && w == v.(state := w.state, answers := w.answers)
    requires v.state.queue == [] ==> w.state == v.state.(phase := Done) && w.answers == v.answers
    requires v.state.queue != [] ==>
      && w.state == v.state.(queue := v.state.queue[1..])
      && w.answers == v.answers + [Tagged(v.state.queue[0].id, Failed(InvalidState))]
    ensures Moves(v, sendOk, w)
  {
  }

  /** A caller's request enters the queue if the writer accepts and has room; nothing comes after a shutdown. */
  predicate Enters(capacity: nat, v: View, request: Request, w: View) {
    if v.state.accepting && |v.state.queue| < capacity
    then w == v.(state := v.state.(queue := v.state.queue + [request], accepting := request.content != ShutdownRequest),
                 accepted := v.accepted + [request.id])
    else w == v
  }

  class Writer {
    const capacity: nat
    var state: WriterState

    /** Ids in the order they entered the queue; answers in the order given; messages the plugin got. */
    const initial: ControlState
    var accepted: seq<nat>
    var answers: seq<Answer>
    ghost var wire: seq<Message>

    /** The requests that were carried out, in order. */
    ghost var done: seq<Request>

    ghost predicate Valid()
      reads this
    {
      capacity > 0 && Steady(initial, capacity, state, accepted, answers, wire, done)
    }

    constructor (initial: ControlState, capacity: nat)
      ensures Valid() && this.initial == initial && state == WriterState(initial, true, [], Receiving, false)
      ensures accepted == [] && answers == [] && wire == [] && done == []
      ensures this.capacity == if capacity < 1 then 1 else capacity
    {
      this.capacity := if capacity < 1 then 1 else capacity;
      this.initial := initial;
      state := WriterState(initial, true, [], Receiving, false);
      accepted, answers, wire, done := [], [], [], [];
    }

    /** A caller's request enters the queue, or is refused on the spot and leaves no trace. */
    method Control(request: Request) returns (r: Result)
      requires Valid()
      modifies this`state, this`accepted
      ensures Valid()
      ensures r == (if !old(state).accepting then Failed(InvalidState)
                    else if |old(state).queue| >= capacity then Failed(ControlBackpressure) else Success)
      ensures r != Success ==> state == old(state) && accepted == old(accepted)
      ensures r == Success ==> accepted == old(accepted) + [request.id]
      ensures r == Success ==> state == old(state).(queue := old(state).queue + [request], accepting := request.content != ShutdownRequest)
    {
      if !state.accepting { return Failed(InvalidState); }
      if |state.queue| >= capacity { return Failed(ControlBackpressure); }
      EnteringIsSteady(initial, capacity, state, accepted, answers, wire, done, request);
      accepted := accepted + [request.id];
      state := state.(queue := state.queue + [request], accepting := request.content != ShutdownRequest);
      return Success;
    }

    /** The writer takes the next request: it answers at once, or starts to send. */
    method Receive() returns (ghost dealt: Option<Request>)
      requires Valid() && state.phase == Receiving && state.queue != []
      modifies this`state, this`answers, this`done
      ensures Valid() && Work(state) < Work(old(state))
      ensures state == Received(old(state))
      ensures match ApplyControl(old(state).control, old(state).queue[0].content)
        case Refuse(error) => answers == old(answers) + [Tagged(old(state).queue[0].id, Failed(error))] && done == old(done)
        case Quiet => answers == old(answers) + [Tagged(old(state).queue[0].id, Success)] && done == old(done) + [old(state).queue[0]]
        case Transmit(_, _) => answers == old(answers) && done == old(done)
      ensures Moved(initial, old(state), old(answers), wire, state, answers, wire, dealt)
    {
      NextIsTaken(initial, state, answers, wire);
      match ApplyControl(state.control, state.queue[0].content) {
        case Refuse(error) =>
          dealt := Some(state.queue[0]);
          AnswerHead(Failed(error));
        case Quiet =>
          dealt := Some(state.queue[0]);
          AnswerHead(Success);
        case Transmit(_, _) =>
          dealt := None;
          SendingIsSteady(initial, capacity, state, accepted, answers, wire, done);
          state := Received(state);
      }
    }

    method AnswerHead(result: Result)
      requires Valid() && state.queue != [] && (state.phase.Receiving? || (state.phase.Draining? && result != Success))
      requires result == Success ==> ApplyControl(state.control, state.queue[0].content).Quiet?
      modifies this`state, this`answers, this`done
      ensures Valid() && state == old(state).(queue := old(state).queue[1..])
      ensures answers == old(answers) + [Tagged(old(state).queue[0].id, result)]
      ensures done == if result == Success then old(done) + [old(state).queue[0]] else old(done)
    {
      AnsweringIsSteady(initial, capacity, state, accepted, answers, wire, done, result);
      if result == Success { done := done + [state.queue[0]]; }
      answers := answers + [Tagged(state.queue[0].id, result)];
      state := state.(queue := state.queue[1..]);
    }

    /** The send in flight ends: a success reaches the plugin, a failure closes the writer, and so does a shutdown. */
    method SendEnds(ok: bool) returns (ghost dealt: Option<Request>)
      requires Valid() && state.phase.Sending?
      modifies this
      ensures Valid() && Work(state) < Work(old(state)) && accepted == old(accepted)
      ensures state == Sent(old(state), ok)
      ensures answers == old(answers) + [Tagged(old(state).phase.request.id, if ok then Success else SendFailed)]
      ensures wire == if ok then old(wire) + [old(state).phase.message] else old(wire)
      ensures done == if ok then old(done) + [old(state).phase.request] else old(done)
      ensures Moved(initial, old(state), old(answers), old(wire), state, answers, wire, dealt)
    {
      dealt := Some(state.phase.request);
      SendIsOver(initial, state, answers, wire, ok);
      if ok {
        SentIsSteady(initial, capacity, state, accepted, answers, wire, done);
        wire, done := wire + [state.phase.message], done + [state.phase.request];
        answers := answers + [Tagged(state.phase.request.id, Success)];
      } else {
        LostIsSteady(initial, capacity, state, accepted, answers, wire, done);
        answers := answers + [Tagged(state.phase.request.id, SendFailed)];
      }
      state := Sent(state, ok);
    }

    /** First half of `stopAndRejectQueued`: under the lock, so that nothing enters the queue afterwards. */
    method StopAccepting()
      requires Valid() && state.phase.Closing?
      modifies this`state
      ensures Valid() && Work(state) < Work(old(state))
      ensures state == old(state).(accepting := false, phase := Draining)
      ensures Moved(initial, old(state), answers, wire, state, answers, wire, None)
    {
      state := state.(accepting := false, phase := Draining);
    }

    /** Second half: one queued request is refused, or the writer is done. */
    method Drain() returns (ghost dealt: Option<Request>)
      requires Valid() && state.phase.Draining?
      modifies this`state, this`answers, this`done
      ensures Moved(initial, old(state), old(answers), wire, state, answers, wire, dealt)
      ensures Valid() && Work(state) < Work(old(state))
      ensures old(state).queue == [] ==> state == old(state).(phase := Done) && answers == old(answers)
      ensures old(state).queue != [] ==> state == old(state).(queue := old(state).queue[1..])
      ensures old(state).queue != [] ==> answers == old(answers) + [Tagged(old(state).queue[0].id, Failed(InvalidState))]
    {
      if state.queue == [] {
        dealt := None;
        state := state.(phase := Done);
      } else {
        dealt := Some(state.queue[0]);
        HeadIsRefused(initial, state, answers, wire);
        AnswerHead(Failed(InvalidState));
      }
    }

    ghost function Seen(): View
      reads this
    {
      View(state, accepted, answers, wire)
    }

    predicate Idle()
      reads this`state
    {
      state.phase.Done? || (state.phase.Receiving? && state.queue == [])
    }

    /** The writer goroutine's next step, which answers at most one request. */
    method Step(sendOk: bool) returns (ghost dealt: Option<Request>)
      requires Valid() && !Idle()
      modifies this
      ensures Valid() && Work(state) < Work(old(state)) && accepted == old(accepted)
      ensures Moved(initial, old(state), old(answers), old(wire), state, answers, wire, dealt)
      ensures Moves(old(Seen()), sendOk, Seen())
    {
      ghost var v := Seen();
      match state.phase {
        case Receiving =>
          dealt := Receive();
          ReceivingMoves(v, sendOk, Seen());
        case Sending(_, _) =>
          dealt := SendEnds(sendOk);
          SendingMoves(v, sendOk, Seen());
        case Closing =>
          dealt := None;
          StopAccepting();
        case Draining =>
          dealt := Drain();
          DrainingMoves(v, sendOk, Seen());
      }
    }

    /** Left alone, the writer comes to rest with every request answered: none is stranded. */
    method Settle()
      requires Valid()
      modifies this
      ensures Valid() && Idle() && accepted == old(accepted)
      ensures Ids(answers) == accepted
    {
      while !Idle()
        invariant Valid() && accepted == old(accepted)
        decreases Work(state)
      {
        var sendOk: bool := *;
        ghost var dealt := Step(sendOk);
      }
      LedgerPrefix(state, accepted, answers);
    }
  }

  lemma LedgerPrefix(s: WriterState, accepted: seq<nat>, answers: seq<Answer>)
    requires Ledger(s, accepted, answers)
    ensures Ids(answers) <= accepted
    ensures !s.phase.Sending? && s.queue == [] ==> Ids(answers) == accepted
  {
  }

  /** Distinct ids, in the order of the calls. */
  predicate Increasing(ids: seq<nat>, bound: nat) {
    && (forall i | 0 <= i < |ids| :: ids[i] < bound)
    && (forall i, j | 0 <= i < j < |ids| :: ids[i] < ids[j])
  }

  lemma IncreasingNext(ids: seq<nat>, bound: nat)
    requires Increasing(ids, bound)
    ensures Increasing(ids, bound + 1) && Increasing(ids + [bound], bound + 1)
  {
  }

  datatype Action = Enqueue(kind: Kind) | WriterStep(sendOk: bool)

  /** What an action does; a caller is named by the number of its action. */
  predicate Does(capacity: nat, v: View, action: Action, i: nat, w: View) {
    match action
    case Enqueue(kind) => Enters(capacity, v, Tagged(i, kind), w)
    case WriterStep(sendOk) => Moves(v, sendOk, w)
  }

  method TakeAction(writer: Writer, action: Action, i: nat)
    requires writer.Valid() && Increasing(writer.accepted, i)
    modifies writer
    ensures writer.Valid() && Increasing(writer.accepted, i + 1)
    ensures Does(writer.capacity, old(writer.Seen()), action, i, writer.Seen())
  {
    IncreasingNext(writer.accepted, i);
    match action {
      case Enqueue(kind) => var r := writer.Control(Tagged(i, kind));
      case WriterStep(sendOk) => if !writer.Idle() { ghost var dealt := writer.Step(sendOk); }
    }
  }

  /** Each action has done what it is to do. */
  ghost predicate Recorded(capacity: nat, views: seq<View>, actions: seq<Action>, last: View) {
    && 0 < |views| <= |actions| + 1 && views[|views| - 1] == last
    && forall i | 0 <= i < |views| - 1 :: Does(capacity, views[i], actions[i], i, views[i + 1])
  }

  lemma {:induction false} RecordedOn(capacity: nat, views: seq<View>, actions: seq<Action>, last: View, next: View)
    requires Recorded(capacity, views, actions, last) && |views| <= |actions|
    requires Does(capacity, last, actions[|views| - 1], |views| - 1, next)
    ensures Recorded(capacity, views + [next], actions, next)
  {
    var n, more := |views|, views + [next];
    forall i | 0 <= i < n ensures Does(capacity, more[i], actions[i], i, more[i + 1]) {
      if i < n - 1 {
        assert Does(capacity, views[i], actions[i], i, views[i + 1]);
      } else {
        assert more[i] == last && more[i + 1] == next;
      }
    }
  }

  /**
   Every interleaving of callers and writer: the answers are, in order and once each,
   for the requests that entered the queue; what the plugin got is exactly the
   messages of those answered with success, and replays to the writer's state unless a
   send failed; and a writer that is done has answered all.
   */
  method RunWriter(initial: ControlState, capacity: nat, actions: seq<Action>)
    returns (state: WriterState, accepted: seq<nat>, answers: seq<Answer>, ghost wire: seq<Message>,
             ghost done: seq<Request>, ghost views: seq<View>)
    ensures |views| == |actions| + 1 && views[0] == View(WriterState(initial, true, [], Receiving, false), [], [], [])
    ensures Recorded(if capacity < 1 then 1 else capacity, views, actions, View(state, accepted, answers, wire))
    ensures CarriedOut(initial, wire, answers, done)
    ensures Ids(answers) <= accepted
    ensures Increasing(accepted, |actions|)
    ensures state.phase.Done? ==> Ids(answers) == accepted
    ensures state.phase.Receiving? ==> Replayed(initial, wire) == state.control
  {
    var writer := new Writer(initial, capacity);
    views := [writer.Seen()];
    for i := 0 to |actions|
      invariant fresh(writer) && writer.Valid() && writer.initial == initial && writer.capacity == if capacity < 1 then 1 else capacity
      invariant Increasing(writer.accepted, i)
      invariant |views| == i + 1 && views[0] == View(WriterState(initial, true, [], Receiving, false), [], [], [])
      invariant Recorded(writer.capacity, views, actions, writer.Seen())
    {
      ghost var before := writer.Seen();
      TakeAction(writer, actions[i], i);
      RecordedOn(writer.capacity, views, actions, before, writer.Seen());
      views := views + [writer.Seen()];
    }
    state, wire, done := writer.state, writer.wire, writer.done;
    accepted, answers := writer.accepted, writer.answers;
    LedgerPrefix(state, accepted, answers);
  }
}
