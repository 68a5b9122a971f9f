/**
 The plugin supervisor: a serialized event loop over one state. Every handler is
 one atomic step. Channels of replies are modelled by reply ids and an append-only
 log of answers; session ids come from the default increasing counter.
 */
module Supervisor {
  import opened Common
  import opened Controls
  import opened RestartPolicies
  import opened Subscriptions

  datatype Command =
    | Enable | Disable | Restart | Close
    | Active(active: bool, force: bool)
    | Configure(config: Config)
    | Subscribe(subscription: Subscription)

  predicate IsControl(c: Command) {
    c.Active? || c.Configure? || c.Subscribe?
  }

  datatype Reply = Success | Error(error: ControlError)

  datatype Answer = Answer(id: nat, reply: Reply)

  datatype Lifecycle =
    | Stopped | Disabled | Starting | Handshaking | Running | Unresponsive
    | Stopping | Backoff | Crashed | Incompatible

  datatype StopIntent = NoStop | StopDisable | StopRestart | StopClose

  datatype Queued = Queued(id: nat, command: Command, durable: bool)

  datatype InFlight = InFlight(instance: nat, operation: nat, id: nat, command: Command, next: ControlState, durable: bool)

  datatype SessionResult = Clean | Fatal | Retryable(stableFor: int)

  datatype Callback = ProcessStarted | Ready | Telemetry | WentUnresponsive

  /** A session's startup state, with the number of controls accepted before it. */
  datatype Launch = Launch(instance: nat, startup: ControlState, accepted: nat)

  /** `prepareSupervisorControl`: the state a control leads to. A forced activation counts as a change. */
  function Prepare(s: ControlState, c: Command): Applied {
    match c
    case Configure(config) => ApplyConfig(s, config)
    case Subscribe(subscription) => ApplySubscription(s, subscription)
    case Active(active, force) => if force then Changed(s.(active := active)) else ApplyActive(s, active)
    case _ => Refused(InvalidState)
  }

  function UpdateOf(c: Command): Update
    requires IsControl(c)
  {
    match c
    case Configure(config) => SetConfig(config)
    case Subscribe(subscription) => SetSubscription(subscription)
    case Active(active, _) => SetActive(active)
  }

  function ReplyTo(a: Applied): Reply {
    if a.Refused? then Error(a.error) else Success
  }

  lemma PreparedIsUpdate(s: ControlState, c: Command)
    requires IsControl(c) && Prepare(s, c).Changed?
    ensures Prepare(s, c).next == Apply(s, UpdateOf(c)) && NotBehind(s, Prepare(s, c).next)
  {
  }

  /** An activation changes something exactly if it is another one or forced, and is never refused. */
  lemma ActivationExactly(s: ControlState, active: bool, force: bool)
    ensures Prepare(s, Active(active, force)) == if active != s.active || force then Changed(Apply(s, SetActive(active))) else Unchanged
  {
  }

  // ---- Reply bookkeeping ----

  /** How often a command was taken from the command channel. */
  ghost function Taken(received: seq<nat>, id: nat): nat {
    |set i: nat | i < |received| && received[i] == id|
  }

  /** How often a command was answered. */
  ghost function Answered(answers: seq<Answer>, id: nat): nat {
    |set i: nat | i < |answers| && answers[i].id == id|
  }

  ghost function Waiting(queue: seq<Queued>, id: nat): nat {
    if queue == [] then 0
    else Waiting(queue[..|queue| - 1], id) + if queue[|queue| - 1].id == id then 1 else 0
  }

  ghost function Held(o: Option<nat>, id: nat): nat {
    if o == Some(id) then 1 else 0
  }

  lemma AnsweredAppend(answers: seq<Answer>, a: Answer, id: nat)
    ensures Answered(answers + [a], id) == Answered(answers, id) + if a.id == id then 1 else 0
  {
    var n, more := |answers|, answers + [a];
    var before, after := set i: nat | i < n && answers[i].id == id, set i: nat | i < n + 1 && more[i].id == id;
    assert after == if a.id == id then before + {n} else before;
  }

  lemma TakenAppend(received: seq<nat>, r: nat, id: nat)
    ensures Taken(received + [r], id) == Taken(received, id) + if r == id then 1 else 0
  {
    var n, more := |received|, received + [r];
    var before, after := set i: nat | i < n && received[i] == id, set i: nat | i < n + 1 && more[i] == id;
    assert after == if r == id then before + {n} else before;
  }

  lemma WaitingAppend(queue: seq<Queued>, q: Queued, id: nat)
    ensures Waiting(queue + [q], id) == Waiting(queue, id) + if q.id == id then 1 else 0
  {
    assert (queue + [q])[..|queue|] == queue;
  }

  lemma {:induction false} WaitingHead(queue: seq<Queued>, id: nat)
    requires queue != []
    ensures Waiting(queue, id) == (if queue[0].id == id then 1 else 0) + Waiting(queue[1..], id)
  {
    var n := |queue| - 1;
    if n > 0 {
      WaitingHead(queue[..n], id);
      WaitingAppend(queue[..n][1..], queue[n], id);
      assert queue[..n][1..] + [queue[n]] == queue[1..];
    }
  }

  /** How often the command is queued from position n on. */
  ghost function Remaining(queue: seq<Queued>, n: nat, id: nat): nat {
    |set i: nat | i < |queue| && queue[i].id == id && n <= i|
  }

  lemma RemainingNext(queue: seq<Queued>, n: nat, id: nat)
    requires n < |queue|
    ensures Remaining(queue, n, id) == Remaining(queue, n + 1, id) + if queue[n].id == id then 1 else 0
  {
    var all, rest := set i: nat | i < |queue| && queue[i].id == id && n <= i, set i: nat | i < |queue| && queue[i].id == id && n + 1 <= i;
    assert all == if queue[n].id == id then rest + {n} else rest;
  }

  lemma {:induction false} RemainingWaits(queue: seq<Queued>, n: nat, id: nat)
    requires n <= |queue|
    ensures Remaining(queue, n, id) == Waiting(queue[n..], id)
    decreases |queue| - n
  {
    if n < |queue| {
      RemainingNext(queue, n, id);
      WaitingHead(queue[n..], id);
      assert queue[n..][1..] == queue[n + 1..];
      RemainingWaits(queue, n + 1, id);
    } else {
      assert (set i: nat | i < |queue| && queue[i].id == id && n <= i) == {};
    }
  }

  /** Each startup is the fold of the controls accepted before it, and session ids never exceed the current one. */
  ghost predicate Traced(initial: ControlState, accepted: seq<Update>, started: seq<Launch>, instance: nat) {
    forall l | l in started ::
      l.accepted <= |accepted| && l.startup == Fold(initial, accepted[..l.accepted]) && l.instance <= instance
  }

  lemma TracedUpdate(initial: ControlState, accepted: seq<Update>, u: Update, started: seq<Launch>, instance: nat)
    requires Traced(initial, accepted, started, instance)
    ensures Traced(initial, accepted + [u], started, instance)
  {
    assert forall n | 0 <= n <= |accepted| :: (accepted + [u])[..n] == accepted[..n];
  }

  lemma TracedLaunch(initial: ControlState, accepted: seq<Update>, started: seq<Launch>, instance: nat, next: nat)
    requires Traced(initial, accepted, started, instance) && instance <= next
    ensures Traced(initial, accepted, started + [Launch(next, Fold(initial, accepted), |accepted|)], next)
    ensures Traced(initial, accepted, started, next)
  {
    assert accepted[..|accepted|] == accepted;
  }

  /** `supervisorLoopState`, with everything sent on reply channels so far. */
  datatype LoopState = LoopState(
    enabled: bool, lifecycle: Lifecycle, consecutiveFailures: int,
    control: ControlState,
    session: bool, instance: nat, launches: nat, sessionCounter: int,
    restartTimer: Option<int>, stableTimer: Option<nat>,
    stopIntent: StopIntent, disableReply: Option<nat>, restartReply: Option<nat>, closeReply: Option<nat>,
    closing: bool,
    queue: seq<Queued>, controlID: nat, inFlight: Option<InFlight>,
    answers: seq<Answer>)

  /** What happened: commands taken, controls accepted, sessions started, and timer launches since the failure count was zeroed. */
  datatype History = History(received: seq<nat>, accepted: seq<Update>, started: seq<Launch>, timerLaunches: nat)

  /** How often a command is held unanswered: in flight, queued, or awaiting a stop. */
  ghost function Outstanding(s: LoopState, id: nat): nat {
    (if s.inFlight.Some? && s.inFlight.value.id == id then 1 else 0) + Waiting(s.queue, id)
    + Held(s.disableReply, id) + Held(s.restartReply, id) + Held(s.closeReply, id)
  }

  /** Each time command id was taken, it has been answered once or is outstanding once. */
  ghost predicate Balanced(s: LoopState, received: seq<nat>, id: nat) {
    Taken(received, id) == Answered(s.answers, id) + Outstanding(s, id)
  }

  /** Which replies are held back for which stop intent. */
  ghost predicate StopConsistent(s: LoopState) {
    && (s.stopIntent != NoStop ==> s.session)
    && (s.stopIntent != NoStop <==> s.lifecycle == Stopping)
    && (s.closing <==> s.stopIntent == StopClose)
    && (s.closeReply.Some? <==> s.stopIntent == StopClose)
    && (s.restartReply.Some? <==> s.stopIntent == StopRestart)
    && (s.stopIntent == StopDisable ==> s.disableReply.Some?)
    && (s.disableReply.Some? ==> s.stopIntent == StopDisable || s.stopIntent == StopClose)
    && (s.stopIntent == StopRestart ==> s.enabled)
    && (s.stopIntent == StopDisable || s.stopIntent == StopClose ==> !s.enabled)
    && (s.session && !s.enabled ==> s.stopIntent != NoStop)
    && (!s.session ==> (s.lifecycle == Disabled <==> !s.enabled))
  }

  ghost predicate ControlsShape(s: LoopState) {
    && (!s.session || s.stopIntent != NoStop ==> s.inFlight.None? && s.queue == [])
    && (forall q | q in s.queue :: IsControl(q.command) && (q.durable <==> q.command.Configure?))
    && (s.inFlight.Some? ==> InFlightConsistent(s, s.inFlight.value))
  }

  /** Since dispatch only the configuration may have moved, so completion changes the control's own field only. */
  ghost predicate InFlightConsistent(s: LoopState, f: InFlight) {
    && f.instance == s.instance && f.operation == s.controlID
    && IsControl(f.command) && (f.durable <==> f.command.Configure?)
    && (!f.durable ==>
          && f.next.(config := s.control.config) == Apply(s.control, UpdateOf(f.command))
          && NotBehind(s.control, f.next.(config := s.control.config)))
  }

  /** Controls are queued only behind one in flight, and only with a session that is not stopping. */
  ghost predicate ControlsConsistent(s: LoopState) {
    ControlsShape(s) && (s.queue != [] ==> s.inFlight.Some?)
  }

  ghost predicate TimersConsistent(policy: RestartPolicy, s: LoopState, timerLaunches: nat) {
    && (s.restartTimer.Some? <==> s.lifecycle == Backoff)
    && (s.lifecycle == Backoff ==> s.enabled && !s.session && !s.closing)
    && (s.restartTimer.Some? ==> s.restartTimer.value == PrescribedDelay(policy, s.consecutiveFailures))
    && (s.stableTimer.Some? ==> s.session && s.stableTimer.value == s.instance)
    && s.consecutiveFailures >= 0
    && timerLaunches + (if s.restartTimer.Some? then 1 else 0) <= Min(s.consecutiveFailures, policy.maxFailures - 1)
  }

  /** The desired control state, and every startup, is the fold of the controls accepted before it. */
  ghost predicate HistoryConsistent(initial: ControlState, s: LoopState, h: History) {
    && s.control == Fold(initial, h.accepted)
    && Traced(initial, h.accepted, h.started, s.instance)
    && (s.session ==> |h.started| > 0 && h.started[|h.started| - 1].instance == s.instance)
    && s.instance <= s.sessionCounter <= MAX_UINT64
    && (if s.session then s.lifecycle in {Starting, Handshaking, Running, Unresponsive, Stopping}
        else s.lifecycle in {Stopped, Disabled, Backoff, Crashed, Incompatible})
  }

  ghost predicate Consistent(policy: RestartPolicy, initial: ControlState, s: LoopState, h: History, id: nat) {
    && Balanced(s, h.received, id) && StopConsistent(s) && ControlsConsistent(s)
    && TimersConsistent(policy, s, h.timerLaunches) && HistoryConsistent(initial, s, h)
  }

  /** Answers and history only grow, and the control state never moves back. */
  ghost predicate Progress(s: LoopState, h: History, s': LoopState, h': History) {
    && s.answers <= s'.answers && h.received <= h'.received && h.accepted <= h'.accepted && h.started <= h'.started
    && NotBehind(s.control, s'.control)
  }

  /** No control goes to the instance any more: it is not the current one, or it has ended, or it is being stopped. */
  predicate Retired(s: LoopState, instance: nat) {
    instance < s.instance || (instance == s.instance && (!s.session || s.stopIntent != NoStop))
  }

  /**
   How the control in flight may change, unless its outcome has come in. It may be
   given up, which retires its instance; when there is none, a new one may be put in
   flight, to a current instance that is not retired. A retired instance stays so, and
   for one that is not only the configuration of the desired state may move.
   */
  ghost predicate Handover(s: LoopState, t: LoopState) {
    && s.controlID <= t.controlID && s.instance <= t.instance
    && (s.instance == t.instance && Retired(s, s.instance) ==> Retired(t, t.instance))
    && (s.instance == t.instance && !Retired(t, t.instance) ==> SameButConfig(s.control, t.control))
    && (s.inFlight.Some? && t.inFlight != s.inFlight ==> t.inFlight.None? && Retired(t, s.inFlight.value.instance))
    && (t.inFlight.Some? && t.inFlight != s.inFlight ==> IsDispatch(s, t))
  }

  /** The outcome is that of the control in flight. */
  predicate Completes(s: LoopState, instance: nat, operation: nat) {
    s.inFlight.Some? && s.inFlight.value.instance == instance && s.inFlight.value.operation == operation
  }

  /** The control in flight is through; if it succeeded, it is part of the desired state. */
  function Concluded(s: LoopState, error: Option<ControlError>): LoopState
    requires s.inFlight.Some?
  {
    var f := s.inFlight.value;
    s.(inFlight := None, control := if error.None? && !f.durable && IsControl(f.command) then Apply(s.control, UpdateOf(f.command)) else s.control)
  }

  predicate SameButConfig(a: ControlState, b: ControlState) {
    a.active == b.active && a.subscription == b.subscription
  }

  /** A control was put in flight, under a new operation number. */
  predicate IsDispatch(s: LoopState, t: LoopState) {
    && t.inFlight.Some? && !Retired(s, s.instance) && t.instance == s.instance
    && t.inFlight.value.instance == s.instance && s.controlID < t.inFlight.value.operation == t.controlID
  }

  // ---- What each event does ----

  /** A session is started: there is one if it opens and the session numbers are not exhausted. */
  predicate Launched(s: LoopState, opens: bool, t: LoopState) {
    && t == s.(stableTimer := None, launches := s.launches + 1, session := t.session, lifecycle := t.lifecycle,
               instance := t.instance, sessionCounter := t.sessionCounter)
    && (t.session <==> opens && s.sessionCounter < MAX_UINT64)
    && t.lifecycle == (if t.session then Starting else Incompatible)
    && (if s.sessionCounter < MAX_UINT64 then t.instance == t.sessionCounter == s.sessionCounter + 1
        else t.instance == s.instance && t.sessionCounter == s.sessionCounter)
  }

  /** The command has got this reply, after everything that was answered before. */
  predicate Gets(before: seq<Answer>, id: nat, reply: Reply, after: seq<Answer>) {
    after == before + [Answer(id, reply)]
  }

  /** The control in flight and then the queued ones were refused. */
  ghost predicate PendingRefused(s: LoopState, after: seq<Answer>) {
    var first := if s.inFlight.Some? then 1 else 0;
    && |after| == |s.answers| + first + |s.queue| && s.answers <= after
    && (s.inFlight.Some? ==> after[|s.answers|] == Answer(s.inFlight.value.id, Error(InvalidState)))
    && forall k | 0 <= k < |s.queue| :: after[|s.answers| + first + k] == Answer(s.queue[k].id, Error(InvalidState))
  }

  /** Every reply that was held back for the stop was given, a disable's first and a close's last. */
  ghost predicate HeldAnswered(s: LoopState, reply: Reply, after: seq<Answer>) {
    var first := if s.disableReply.Some? then 1 else 0;
    var second := first + if s.restartReply.Some? then 1 else 0;
    && |after| == |s.answers| + second + (if s.closeReply.Some? then 1 else 0) && s.answers <= after
    && (s.disableReply.Some? ==> after[|s.answers|] == Answer(s.disableReply.value, reply))
    && (s.restartReply.Some? ==> after[|s.answers| + first] == Answer(s.restartReply.value, reply))
    && (s.closeReply.Some? ==> after[|s.answers| + second] == Answer(s.closeReply.value, reply))
  }

  /** A stop has begun: pending controls are refused, and the command's reply is held back for the intent. */
  ghost predicate StopBegun(s: LoopState, intent: StopIntent, id: nat, t: LoopState) {
    && t == s.(answers := t.answers, inFlight := None, queue := [], controlID := t.controlID, stableTimer := None,
               stopIntent := intent, lifecycle := Stopping,
               disableReply := if intent == StopDisable then Some(id) else s.disableReply,
               restartReply := if intent == StopRestart then Some(id) else s.restartReply,
               closeReply := if intent == StopClose then Some(id) else s.closeReply)
    && PendingRefused(s, t.answers) && s.controlID < t.controlID
  }

  /** The reply that a queued control gets without being delivered. */
  predicate Settles(control: ControlState, q: Queued, expired: set<nat>, reply: Reply) {
    if q.id in expired then reply == Error(ContextDone)
    else if q.durable then false
    else
      match Prepare(control, q.command)
      case Refused(error) => reply == Error(error)
      case Unchanged => reply == Success
      case Changed(_) => false
  }

  predicate Answers(control: ControlState, q: Queued, expired: set<nat>, a: Answer) {
    a.id == q.id && Settles(control, q, expired, a.reply)
  }

  /** Controls that need no delivery are answered, and the first that needs it is put in flight. */
  ghost predicate Dispatched(s: LoopState, expired: set<nat>, t: LoopState) {
    var n := |t.answers| - |s.answers|;
    if s.inFlight.Some? || !s.session then t == s
    else
      && 0 <= n <= |s.queue| && s.answers <= t.answers
      && (forall k | 0 <= k < n :: Answers(s.control, s.queue[k], expired, t.answers[|s.answers| + k]))
      && if n == |s.queue| then t == s.(answers := t.answers, queue := [])
         else SentOff(s, expired, s.queue[n], s.queue[n + 1..], t)
  }

  predicate SentOff(s: LoopState, expired: set<nat>, q: Queued, rest: seq<Queued>, t: LoopState) {
    && q.id !in expired && (q.durable || Prepare(s.control, q.command).Changed?)
    && t == s.(answers := t.answers, queue := rest, controlID := s.controlID + 1,
               inFlight := Some(InFlight(s.instance, s.controlID + 1, q.id, q.command,
                                         if q.durable then s.control else Prepare(s.control, q.command).next, q.durable)))
  }

  /** A loop that has done nothing yet; if the plugin is enabled, a session is started at once. */
  predicate Begins(enabled: bool, initial: ControlState, opens: bool, s: LoopState) {
    var idle := LoopState(enabled, if enabled then Stopped else Disabled, 0, initial, false, 0, 0, 0,
                          None, None, NoStop, None, None, None, false, [], 0, None, []);
    if enabled then Launched(idle, opens, s) else s == idle
  }

  /** Enable: without a session, a disabled or a stopped plugin gets one; anything else only a reply. */
  predicate Enabled(s: LoopState, id: nat, opens: bool, t: LoopState) {
    && Gets(s.answers, id, Success, t.answers)
    && if !s.session && (!s.enabled || s.lifecycle == Stopped)
       then Launched(s.(enabled := true, restartTimer := None), opens, t.(answers := s.answers))
       else t == s.(enabled := true, answers := t.answers)
  }

  /** Disable: the session is stopped, or else the plugin is disabled at once. */
  ghost predicate DisabledBy(s: LoopState, id: nat, t: LoopState) {
    var off := s.(enabled := false, restartTimer := None);
    if s.session then StopBegun(off, StopDisable, id, t)
    else Gets(s.answers, id, Success, t.answers) && t == off.(lifecycle := Disabled, answers := t.answers)
  }

  /** Restart: earlier failures are forgiven; the session is stopped, or else one is started if the plugin is enabled. */
  ghost predicate Restarted(s: LoopState, id: nat, opens: bool, t: LoopState) {
    var forgiven := s.(consecutiveFailures := 0, restartTimer := None);
    if s.session then StopBegun(forgiven, StopRestart, id, t)
    else
      && Gets(s.answers, id, Success, t.answers)
      && if s.enabled then Launched(forgiven, opens, t.(answers := s.answers))
         else t == forgiven.(lifecycle := Disabled, answers := t.answers)
  }

  /** Close: it takes a stop over, refusing a restart that waits for it; or it stops the session; or the loop ends. */
  ghost predicate ClosedBy(s: LoopState, id: nat, t: LoopState) {
    var off := s.(closing := true, enabled := false, restartTimer := None);
    if s.stopIntent != NoStop then
      && t == off.(stopIntent := StopClose, closeReply := Some(id), restartReply := None, answers := t.answers, controlID := t.controlID)
      && (if s.restartReply.Some? then Gets(s.answers, s.restartReply.value, Error(InvalidState), t.answers) else t.answers == s.answers)
    else if s.session then StopBegun(off, StopClose, id, t)
    else Gets(s.answers, id, Success, t.answers) && t == off.(lifecycle := Disabled, answers := t.answers, controlID := t.controlID)
  }

  /** A control: a configuration is owned at once; what needs delivery is queued, unless the queue is full; without a session nothing does. */
  ghost predicate Submitted(s: LoopState, capacity: nat, id: nat, command: Command, expired: set<nat>, t: LoopState) {
    var applied := Prepare(s.control, command);
    var owned := if applied.Changed? && (command.Configure? || !s.session) then s.(control := applied.next) else s;
    if !s.session || (command.Configure? && !applied.Changed?)
    then Gets(s.answers, id, ReplyTo(applied), t.answers) && t == owned.(answers := t.answers)
    else Delivered(owned, capacity, id, command, expired, t)
  }

  /** The control joins the end of the queue. */
  function QueuedUp(s: LoopState, id: nat, command: Command): LoopState {
    s.(queue := s.queue + [Queued(id, command, command.Configure?)])
  }

  ghost predicate Delivered(s: LoopState, capacity: nat, id: nat, command: Command, expired: set<nat>, t: LoopState) {
    if !s.session then Gets(s.answers, id, Success, t.answers) && t == s.(answers := t.answers)
    else if |s.queue| >= capacity then Gets(s.answers, id, Error(ControlBackpressure), t.answers) && t == s.(answers := t.answers)
    else Dispatched(QueuedUp(s, id, command), expired, t)
  }

  /** The outcome of the control in flight: its command gets the reply, the desired state the change, and the next control its turn. */
  ghost predicate OutcomeTaken(s: LoopState, error: Option<ControlError>, expired: set<nat>, t: LoopState)
    requires s.inFlight.Some?
  {
    Dispatched(WithReply(Concluded(s, error), s.inFlight.value.id, ReplyFor(error)), expired, t)
  }

  function ReplyFor(error: Option<ControlError>): Reply {
    if error.None? then Success else Error(error.value)
  }

  function WithReply(s: LoopState, id: nat, reply: Reply): LoopState {
    s.(answers := s.answers + [Answer(id, reply)])
  }

  /** The session has ended by itself: pending controls are refused, and the result decides what is next. */
  ghost predicate SessionOver(policy: RestartPolicy, s: LoopState, result: SessionResult, t: LoopState) {
    && PendingRefused(s, t.answers)
    && t == s.(answers := t.answers, inFlight := None, queue := [], controlID := t.controlID, stableTimer := None, session := false,
               lifecycle := t.lifecycle, consecutiveFailures := t.consecutiveFailures, restartTimer := t.restartTimer)
    && match result
       case Clean => t.lifecycle == Stopped && t.consecutiveFailures == s.consecutiveFailures && t.restartTimer == s.restartTimer
       case Fatal => t.lifecycle == Incompatible && t.consecutiveFailures == s.consecutiveFailures && t.restartTimer == s.restartTimer
       case Retryable(stableFor) =>
         && t.consecutiveFailures == (if stableFor >= policy.stableWindow then 1 else s.consecutiveFailures + 1)
         && (if t.consecutiveFailures >= policy.maxFailures then t.lifecycle == Crashed && t.restartTimer == s.restartTimer
             else t.lifecycle == Backoff && t.restartTimer == Some(PrescribedDelay(policy, t.consecutiveFailures)))
  }

  /** The session has been stopped: every reply held back for it is given, and after a restart a new one is started. */
  ghost predicate StopOver(s: LoopState, error: Option<ControlError>, opens: bool, t: LoopState) {
    var none := s.(stopIntent := NoStop, session := false, stableTimer := None, disableReply := None, restartReply := None, closeReply := None);
    && HeldAnswered(s, ReplyFor(error), t.answers)
    && if s.stopIntent == StopRestart then Launched(none, opens, t.(answers := s.answers))
       else t == none.(lifecycle := Disabled, answers := t.answers)
  }

  /** A callback moves the lifecycle one step forward; with Ready, earlier failures begin to be forgiven. */
  predicate CalledBack(s: LoopState, callback: Callback, t: LoopState) {
    match callback
    case ProcessStarted => t == if s.lifecycle == Starting then s.(lifecycle := Handshaking) else s
    case Ready =>
      t == if s.lifecycle != Handshaking then s
           else s.(lifecycle := Running, stableTimer := if s.consecutiveFailures > 0 then Some(s.instance) else None)
    case WentUnresponsive => t == if s.lifecycle == Running then s.(lifecycle := Unresponsive, stableTimer := None) else s
    case Telemetry => t == s
  }

  /** What an event does to the state of the loop. */
  ghost predicate Obeys(policy: RestartPolicy, capacity: nat, s: LoopState, event: Event, t: LoopState) {
    match event
    case TakeCommand(command, id, cancelled, expired, opens) =>
      if cancelled then Gets(s.answers, id, Error(ContextDone), t.answers) && t == s.(answers := t.answers)
      else if s.closing then Gets(s.answers, id, Error(ManagerClosed), t.answers) && t == s.(answers := t.answers)
      else if s.stopIntent != NoStop && !command.Close? then
        Gets(s.answers, id, Error(InvalidState), t.answers) && t == s.(answers := t.answers)
      else Commanded(capacity, s, command, id, expired, opens, t)
    case SessionEnded(instance, result) =>
      if instance == s.instance && s.session && s.stopIntent == NoStop then SessionOver(policy, s, result, t) else t == s
    case ControlDone(instance, operation, error, expired) =>
      if Completes(s, instance, operation) then OutcomeTaken(s, error, expired, t) else t == s
    case SessionStopped(instance, error, opens) =>
      if instance == s.instance && s.stopIntent != NoStop then StopOver(s, error, opens, t) else t == s
    case SessionCallback(instance, callback) =>
      if instance == s.instance && s.session && s.stopIntent == NoStop then CalledBack(s, callback, t) else t == s
    case RestartTimer(opens) => if s.restartTimer.Some? then Launched(s.(restartTimer := None), opens, t) else t == s
    case StableTimer =>
      t == if s.stableTimer.None? then s
           else s.(stableTimer := None, consecutiveFailures := if s.lifecycle == Running then 0 else s.consecutiveFailures)
  }

  ghost predicate Commanded(capacity: nat, s: LoopState, command: Command, id: nat, expired: set<nat>, opens: bool, t: LoopState) {
    match command
    case Enable => Enabled(s, id, opens, t)
    case Disable => DisabledBy(s, id, t)
    case Restart => Restarted(s, id, opens, t)
    case Close => ClosedBy(s, id, t)
    case _ => Submitted(s, capacity, id, command, expired, t)
  }

  /** The state in which a stop has begun and the command's reply is held for it. */
  function HoldFor(s: LoopState, intent: StopIntent, id: nat): LoopState {
    s.(stableTimer := None, stopIntent := intent, lifecycle := Stopping,
       disableReply := if intent == StopDisable then Some(id) else s.disableReply,
       restartReply := if intent == StopRestart then Some(id) else s.restartReply,
       closeReply := if intent == StopClose then Some(id) else s.closeReply)
  }

  lemma HoldBalances(s: LoopState, received: seq<nat>, intent: StopIntent, id: nat, watched: nat)
    requires Balanced(s, received, watched) && intent != NoStop
    requires s.disableReply.None? && s.restartReply.None? && s.closeReply.None?
    ensures Balanced(HoldFor(s, intent, id), received + [id], watched)
  {
    TakenAppend(received, id, watched);
  }

  lemma ReplyBalances(s: LoopState, received: seq<nat>, id: nat, reply: Reply, watched: nat)
    requires Balanced(s, received, watched)
    ensures Balanced(s.(answers := s.answers + [Answer(id, reply)]), received + [id], watched)
  {
    AnsweredAppend(s.answers, Answer(id, reply), watched);
    TakenAppend(received, id, watched);
  }

  /** A control that was just taken joins the queue. */
  lemma QueuedBalances(s: LoopState, received: seq<nat>, id: nat, command: Command, watched: nat)
    requires Balanced(s, received, watched) && ControlsShape(s) && IsControl(command) && s.session && s.stopIntent == NoStop
    ensures Balanced(QueuedUp(s, id, command), received + [id], watched) && ControlsShape(QueuedUp(s, id, command))
  {
    WaitingAppend(s.queue, Queued(id, command, command.Configure?), watched);
    TakenAppend(received, id, watched);
  }

  /** Replies and pending controls have no part in the other invariants. */
  lemma OthersKept(policy: RestartPolicy, initial: ControlState, s: LoopState, h: History, t: LoopState, received: seq<nat>)
    requires StopConsistent(s) && TimersConsistent(policy, s, h.timerLaunches) && HistoryConsistent(initial, s, h)
    requires t == s.(answers := t.answers, queue := t.queue, inFlight := t.inFlight, controlID := t.controlID)
    ensures StopConsistent(t) && TimersConsistent(policy, t, h.timerLaunches) && HistoryConsistent(initial, t, h.(received := received))
  {
  }

  /** Without a session no reply is held back, so nothing is left once the close is answered. */
  lemma ClosedBalances(s: LoopState, t: LoopState, received: seq<nat>, id: nat, watched: nat)
    requires StopConsistent(s) && !s.session && Balanced(t, received, watched) && t.inFlight.None? && t.queue == []
    requires t.disableReply == s.disableReply && t.restartReply == s.restartReply && t.closeReply == s.closeReply
    ensures var u := t.(answers := t.answers + [Answer(id, Success)]);
            Balanced(u, received + [id], watched) && Outstanding(u, watched) == 0
  {
    ReplyBalances(t, received, id, Success, watched);
  }

  // ---- Loops over the control queue ----

  /** `retireControls`: every pending control is refused and forgotten. */
  method Retire(s: LoopState, ghost id: nat) returns (r: LoopState)
    ensures r == s.(answers := r.answers, inFlight := None, queue := [], controlID := s.controlID + 1)
    ensures s.answers <= r.answers
    ensures Answered(r.answers, id) + Outstanding(r, id) == Answered(s.answers, id) + Outstanding(s, id)
    ensures PendingRefused(s, r.answers)
  {
    var answers := s.answers;
    if s.inFlight.Some? {
      AnsweredAppend(answers, Answer(s.inFlight.value.id, Error(InvalidState)), id);
      answers := answers + [Answer(s.inFlight.value.id, Error(InvalidState))];
    }
    ghost var first := answers;
    for n := 0 to |s.queue|
      invariant first <= answers && |answers| == |first| + n
      invariant Answered(answers, id) + Remaining(s.queue, n, id) == Answered(first, id) + Remaining(s.queue, 0, id)
      invariant forall k | 0 <= k < n :: answers[|first| + k] == Answer(s.queue[k].id, Error(InvalidState))
    {
      AnsweredAppend(answers, Answer(s.queue[n].id, Error(InvalidState)), id);
      RemainingNext(s.queue, n, id);
      answers := answers + [Answer(s.queue[n].id, Error(InvalidState))];
    }
    AllRetired(s.queue, id);
    r := s.(answers := answers, inFlight := None, queue := [], controlID := s.controlID + 1);
  }

  lemma AllRetired(queue: seq<Queued>, id: nat)
    ensures Remaining(queue, 0, id) == Waiting(queue, id) && Remaining(queue, |queue|, id) == 0
  {
    RemainingWaits(queue, 0, id);
    RemainingWaits(queue, |queue|, id);
    assert queue[0..] == queue && queue[|queue|..] == [];
  }

  /** What becomes of the queue's head: an immediate reply, or the state its delivery leads to. */
  function Prospect(s: LoopState, head: Queued, expired: set<nat>): (r: (Option<Reply>, ControlState))
    requires IsControl(head.command) && (head.durable <==> head.command.Configure?)
    ensures r.0.None? && !head.durable ==> r.1 == Apply(s.control, UpdateOf(head.command)) && NotBehind(s.control, r.1)
  {
    if head.id in expired then (Some(Error(ContextDone)), s.control)
    else if head.durable then (None, s.control)
    else
      match Prepare(s.control, head.command)
      case Refused(error) => (Some(Error(error)), s.control)
      case Unchanged => (Some(Success), s.control)
      case Changed(next) => PreparedIsUpdate(s.control, head.command); (None, next)
  }

  /** `dispatchNextControl`: puts the first control that still has an effect in flight. */
  method DispatchNext(s: LoopState, expired: set<nat>, ghost id: nat) returns (r: LoopState)
    requires ControlsShape(s)
    ensures Handover(s, r)
    ensures r == s.(answers := r.answers, queue := r.queue, inFlight := r.inFlight, controlID := r.controlID)
    ensures s.answers <= r.answers
    ensures Answered(r.answers, id) + Outstanding(r, id) == Answered(s.answers, id) + Outstanding(s, id)
    ensures ControlsConsistent(r)
    ensures Dispatched(s, expired, r)
  {
    if s.inFlight.Some? || !s.session { return s; }
    var answers := s.answers;
    AllRetired(s.queue, id);
    for n := 0 to |s.queue|
      invariant s.answers <= answers && |answers| == |s.answers| + n
      invariant Answered(answers, id) + Remaining(s.queue, n, id) == Answered(s.answers, id) + Waiting(s.queue, id)
      invariant forall k | 0 <= k < n :: Answers(s.control, s.queue[k], expired, answers[|s.answers| + k])
    {
      var head := s.queue[n];
      assert head in s.queue;
      var (reply, next) := Prospect(s, head, expired);
      if reply.None? {
        r := s.(answers := answers, queue := s.queue[n + 1..], controlID := s.controlID + 1,
                inFlight := Some(InFlight(s.instance, s.controlID + 1, head.id, head.command, next, head.durable)));
        SendingOff(s, expired, n, next, r, id);
        return;
      }
      RemainingNext(s.queue, n, id);
      AnsweredAppend(answers, Answer(head.id, reply.value), id);
      answers := answers + [Answer(head.id, reply.value)];
    }
    r := s.(answers := answers, queue := []);
  }

  lemma SendingOff(s: LoopState, expired: set<nat>, n: nat, next: ControlState, r: LoopState, id: nat)
    requires ControlsShape(s) && s.inFlight.None? && s.session && n < |s.queue|
    requires s.answers <= r.answers && |r.answers| == |s.answers| + n
    requires forall k | 0 <= k < n :: Answers(s.control, s.queue[k], expired, r.answers[|s.answers| + k])
    requires s.queue[n] in s.queue && Prospect(s, s.queue[n], expired) == (None, next)
    requires var q := s.queue[n];
             r == s.(answers := r.answers, queue := s.queue[n + 1..], controlID := s.controlID + 1,
                     inFlight := Some(InFlight(s.instance, s.controlID + 1, q.id, q.command, next, q.durable)))
    requires Answered(r.answers, id) + Remaining(s.queue, n, id) == Answered(s.answers, id) + Waiting(s.queue, id)
    ensures Handover(s, r) && ControlsConsistent(r) && Dispatched(s, expired, r)
    ensures Answered(r.answers, id) + Outstanding(r, id) == Answered(s.answers, id) + Outstanding(s, id)
  {
    RemainingNext(s.queue, n, id);
    RemainingWaits(s.queue, n + 1, id);
    forall q | q in r.queue ensures q in s.queue {
    }
  }

  function AnswerIf(answers: seq<Answer>, held: Option<nat>, reply: Reply): seq<Answer> {
    if held.Some? then answers + [Answer(held.value, reply)] else answers
  }

  lemma AnswerIfCounts(answers: seq<Answer>, held: Option<nat>, reply: Reply, id: nat)
    ensures Answered(AnswerIf(answers, held, reply), id) == Answered(answers, id) + Held(held, id)
  {
    if held.Some? { AnsweredAppend(answers, Answer(held.value, reply), id); }
  }

  /** Sends the stop outcome on every held reply channel. */
  method AnswerHeld(s: LoopState, reply: Reply, ghost id: nat) returns (r: LoopState)
    ensures r == s.(answers := r.answers, disableReply := None, restartReply := None, closeReply := None)
    ensures s.answers <= r.answers && HeldAnswered(s, reply, r.answers)
    ensures Answered(r.answers, id) + Outstanding(r, id) == Answered(s.answers, id) + Outstanding(s, id)
  {
    var first := AnswerIf(s.answers, s.disableReply, reply);
    var second := AnswerIf(first, s.restartReply, reply);
    var third := AnswerIf(second, s.closeReply, reply);
    AnswerIfCounts(s.answers, s.disableReply, reply, id);
    AnswerIfCounts(first, s.restartReply, reply, id);
    AnswerIfCounts(second, s.closeReply, reply, id);
    r := s.(answers := third, disableReply := None, restartReply := None, closeReply := None);
  }

  /** A newly accepted configuration leaves the control in flight consistent. */
  lemma InFlightKept(s: LoopState, config: Config)
    requires s.inFlight.Some? ==> InFlightConsistent(s, s.inFlight.value)
    ensures s.inFlight.Some? ==> InFlightConsistent(s.(control := s.control.(config := config)), s.inFlight.value)
  {
  }

  /** A stop under way taken over by a close: a waiting restart is refused. */
  function TakenOver(s: LoopState, id: nat): LoopState {
    s.(answers := AnswerIf(s.answers, s.restartReply, Error(InvalidState)), restartReply := None,
       closing := true, enabled := false, restartTimer := None, controlID := s.controlID + 1,
       stopIntent := StopClose, closeReply := Some(id))
  }

  lemma TakeOverBalances(s: LoopState, received: seq<nat>, id: nat, watched: nat)
    requires Balanced(s, received, watched) && s.closeReply.None?
    ensures Balanced(TakenOver(s, id), received + [id], watched)
  {
    AnswerIfCounts(s.answers, s.restartReply, Error(InvalidState), watched);
    TakenAppend(received, id, watched);
  }

  /** An unset queue capacity is 32. */
  function CapacityOf(capacity: nat): nat {
    if capacity < 1 then 32 else capacity
  }

  class PluginSupervisor {
    const policy: RestartPolicy
    const capacity: nat
    const initial: ControlState
    var state: LoopState
    ghost var history: History

    // An arbitrary command id whose answers are accounted for.
    ghost const watched: nat

    ghost predicate Valid()
      reads this
    {
      ValidPolicy(policy) && capacity > 0 && Consistent(policy, initial, state, history, watched)
    }

    /** The loop has ended: nothing is outstanding. */
    ghost predicate Ended()
      reads this
    {
      && Balanced(state, history.received, watched) && Outstanding(state, watched) == 0
      && state.control == Fold(initial, history.accepted)
      && Traced(initial, history.accepted, history.started, state.instance)
      && history.timerLaunches <= policy.maxFailures - 1
    }

    constructor (policy: RestartPolicy, capacity: nat, enabled: bool, initial: ControlState, opens: bool, ghost watched: nat)
      requires ValidPolicy(policy)
      ensures Valid() && this.policy == policy && this.initial == initial && this.watched == watched
      ensures this.capacity == CapacityOf(capacity) && Begins(enabled, initial, opens, state)
      ensures history.received == [] && state.answers == [] && state.control == initial && state.inFlight.None?
    {
      this.policy, this.capacity, this.initial := policy, CapacityOf(capacity), initial;
      this.watched := watched;
      state := LoopState(enabled, if enabled then Stopped else Disabled, 0, initial, false, 0, 0, 0,
                         None, None, NoStop, None, None, None, false, [], 0, None, []);
      history := History([], [], [], 0);
      new;
      if enabled { StartSession(opens); }
    }

    // ---- Helpers of the handlers ----

    method RetireControls()
      requires Balanced(state, history.received, watched)
      modifies this`state
      ensures Balanced(state, history.received, watched)
      ensures PendingRefused(old(state), state.answers)
      ensures state == old(state).(answers := state.answers, inFlight := None, queue := [], controlID := old(state.controlID) + 1)
    {
      state := Retire(state, watched);
    }

    /** `startSession`: a session that opens is started with the current control state. */
    method StartSession(opens: bool)
      requires ValidPolicy(policy) && capacity > 0
      requires Consistent(policy, initial, state.(lifecycle := Stopped), history, watched)
      requires !state.session && state.restartTimer.None? && state.enabled
      modifies this
      ensures Valid() && Progress(old(state), old(history), state, history)
      ensures Handover(old(state), state)
      ensures state.control == old(state.control) && state.answers == old(state.answers)
      ensures state.consecutiveFailures == old(state.consecutiveFailures) && state.enabled && state.stopIntent == NoStop
      ensures history.received == old(history.received) && history.accepted == old(history.accepted)
      ensures history.timerLaunches == old(history.timerLaunches)
      ensures Launched(old(state), opens, state)
      ensures state.session ==> history.started == old(history.started) + [Launch(state.instance, state.control, |history.accepted|)]
      ensures !state.session ==> history.started == old(history.started)
    {
      state := state.(stableTimer := None, launches := state.launches + 1, lifecycle := Incompatible);
      if state.sessionCounter < MAX_UINT64 {
        ghost var before := state.instance;
        state := state.(sessionCounter := state.sessionCounter + 1);
        state := state.(instance := state.sessionCounter);
        TracedLaunch(initial, history.accepted, history.started, before, state.instance);
        if opens {
          state := state.(session := true, lifecycle := Starting);
          history := history.(started := history.started + [Launch(state.instance, state.control, |history.accepted|)]);
        }
      }
    }

    /** `commitControl` of an accepted control. */
    method Commit(u: Update)
      requires HistoryConsistent(initial, state, history)
      modifies this
      ensures HistoryConsistent(initial, state, history)
      ensures state == old(state).(control := Apply(old(state.control), u))
      ensures history == old(history).(accepted := old(history.accepted) + [u])
    {
      FoldAppend(initial, history.accepted, u);
      TracedUpdate(initial, history.accepted, u, history.started, state.instance);
      state := state.(control := Apply(state.control, u));
      history := history.(accepted := history.accepted + [u]);
    }

    method DispatchNextControl(expired: set<nat>)
      requires Balanced(state, history.received, watched) && ControlsShape(state)
      modifies this`state
      ensures Dispatched(old(state), expired, state)
      ensures Handover(old(state), state)
      ensures Balanced(state, history.received, watched) && ControlsConsistent(state)
      ensures old(state.answers) <= state.answers
      ensures state == old(state).(answers := state.answers, queue := state.queue,
                                   inFlight := state.inFlight, controlID := state.controlID)
    {
      state := DispatchNext(state, expired, watched);
    }

    /** Answers a command that was just taken. */
    method Reply(id: nat, reply: Reply)
      requires Valid()
      modifies this
      ensures Valid()
      ensures state == old(state).(answers := old(state.answers) + [Answer(id, reply)])
      ensures history == old(history).(received := old(history.received) + [id])
    {
      ReplyBalances(state, history.received, id, reply, watched);
      state := state.(answers := state.answers + [Answer(id, reply)]);
      history := history.(received := history.received + [id]);
    }

    /** `beginStop`: pending controls are refused and the command's reply is held until the session has stopped. */
    method BeginStop(intent: StopIntent, id: nat)
      requires ValidPolicy(policy) && capacity > 0
      requires Balanced(state, history.received, watched) && HistoryConsistent(initial, state, history)
      requires TimersConsistent(policy, state, history.timerLaunches)
      requires state.session && state.stopIntent == NoStop && state.lifecycle != Stopping
      requires state.inFlight.Some? ==> state.inFlight.value.instance == state.instance
      requires state.disableReply.None? && state.restartReply.None? && state.closeReply.None?
      requires intent != NoStop && (state.closing <==> intent == StopClose) && (intent == StopRestart <==> state.enabled)
      modifies this
      ensures Valid() && Progress(old(state), old(history), state, history)
      ensures Handover(old(state), state)
      ensures state.stopIntent == intent && state.control == old(state.control) && state.instance == old(state.instance)
      ensures state.consecutiveFailures == old(state.consecutiveFailures) && state.enabled == old(state.enabled)
      ensures history == old(history).(received := old(history.received) + [id])
      ensures StopBegun(old(state), intent, id, state)
    {
      RetireControls();
      HoldBalances(state, history.received, intent, id, watched);
      history := history.(received := history.received + [id]);
      state := HoldFor(state, intent, id);
    }

    // ---- Commands ----

    /** Commands refused before their kind is looked at. */
    function Refusal(command: Command, cancelled: bool): Option<ControlError>
      reads this
    {
      if cancelled then Some(ContextDone)
      else if state.closing then Some(ManagerClosed)
      else if state.stopIntent != NoStop && !command.Close? then Some(InvalidState)
      else None
    }

    method OnEnable(id: nat, opens: bool)
      requires Valid() && state.stopIntent == NoStop
      modifies this
      ensures Enabled(old(state), id, opens, state)
      ensures Valid() && Progress(old(state), old(history), state, history)
      ensures Handover(old(state), state)
      ensures state.enabled && state.answers == old(state.answers) + [Answer(id, Success)]
      ensures history.received == old(history.received) + [id] && history.accepted == old(history.accepted)
      ensures old(state.session) ==> state == old(state).(answers := state.answers)
    {
      if state.enabled {
        if state.lifecycle == Stopped && !state.session { StartSession(opens); }
        Reply(id, Success);
        return;
      }
      state := state.(enabled := true);
      if !state.session && state.stopIntent == NoStop {
        state := state.(restartTimer := None);
        StartSession(opens);
      }
      Reply(id, Success);
    }

    method OnDisable(id: nat)
      requires Valid() && state.stopIntent == NoStop
      modifies this
      ensures DisabledBy(old(state), id, state)
      ensures Valid() && Progress(old(state), old(history), state, history)
      ensures Handover(old(state), state)
      ensures !state.enabled && state.restartTimer.None?
      ensures history.received == old(history.received) + [id] && history.accepted == old(history.accepted)
      ensures if old(state.session) then state.stopIntent == StopDisable && state.disableReply == Some(id)
              else state.lifecycle == Disabled && state.answers == old(state.answers) + [Answer(id, Success)]
    {
      state := state.(enabled := false, restartTimer := None);
      if !state.session {
        state := state.(lifecycle := Disabled);
        Reply(id, Success);
        return;
      }
      BeginStop(StopDisable, id);
    }

    method OnRestart(id: nat, opens: bool)
      requires Valid() && state.stopIntent == NoStop
      modifies this
      ensures Restarted(old(state), id, opens, state)
      ensures Valid() && Progress(old(state), old(history), state, history)
      ensures Handover(old(state), state)
      ensures state.consecutiveFailures == 0 && state.restartTimer.None? && history.timerLaunches == 0
      ensures history.received == old(history.received) + [id] && history.accepted == old(history.accepted)
      ensures old(state.session) ==> state.stopIntent == StopRestart && state.restartReply == Some(id)
      ensures !old(state.session) ==> state.answers == old(state.answers) + [Answer(id, Success)]
      ensures !old(state.enabled) ==> state.lifecycle == Disabled && !state.session
    {
      ForgiveFailures();
      if state.session {
        BeginStop(StopRestart, id);
        return;
      }
      if state.enabled { StartSession(opens); }
      Reply(id, Success);
    }

    /** A manual restart zeroes the failure count and cancels a pending backoff. */
    method ForgiveFailures()
      requires Valid() && state.stopIntent == NoStop
      modifies this
      ensures Valid() && history == old(history).(timerLaunches := 0)
      ensures state == old(state).(consecutiveFailures := 0, restartTimer := None, lifecycle := state.lifecycle)
      ensures state.lifecycle == if !old(state.enabled) then Disabled
                                 else if old(state.lifecycle) == Backoff then Stopped else old(state.lifecycle)
    {
      state := state.(consecutiveFailures := 0, restartTimer := None);
      history := history.(timerLaunches := 0);
      if !state.enabled {
        state := state.(lifecycle := Disabled);
      } else if state.lifecycle == Backoff {
        state := state.(lifecycle := Stopped);
      }
    }

    /** Close takes over a stop already under way; without a session the loop ends at once with nothing unanswered. */
    method OnClose(id: nat) returns (done: bool)
      requires Valid() && !state.closing
      modifies this
      ensures ClosedBy(old(state), id, state)
      ensures Progress(old(state), old(history), state, history)
      ensures Handover(old(state), state)
      ensures history.received == old(history.received) + [id] && history.accepted == old(history.accepted)
      ensures state.closing && !state.enabled
      ensures done <==> !old(state.session)
      ensures done ==> Ended()
      ensures !done ==> Valid() && state.stopIntent == StopClose && state.closeReply == Some(id)
      ensures old(state.stopIntent) == StopDisable ==> state.disableReply == old(state.disableReply)
      ensures old(state.stopIntent) == StopRestart ==>
                state.answers == old(state.answers) + [Answer(old(state.restartReply).value, Error(InvalidState))]
    {
      if state.stopIntent != NoStop {
        TakeOverStop(id);
      } else if state.session {
        CloseSession(id);
      } else {
        CloseIdle(id);
        return true;
      }
      return false;
    }

    method CloseSession(id: nat)
      requires Valid() && state.session && state.stopIntent == NoStop
      modifies this
      ensures StopBegun(old(state).(closing := true, enabled := false, restartTimer := None), StopClose, id, state)
      ensures Valid() && Progress(old(state), old(history), state, history)
      ensures Handover(old(state), state)
      ensures history == old(history).(received := old(history.received) + [id])
      ensures state.closing && !state.enabled && state.stopIntent == StopClose && state.closeReply == Some(id)
    {
      state := state.(closing := true, enabled := false, restartTimer := None);
      RetireControls();
      BeginStop(StopClose, id);
    }

    method CloseIdle(id: nat)
      requires Valid() && !state.session
      modifies this
      ensures ClosedBy(old(state), id, state)
      ensures Ended() && Progress(old(state), old(history), state, history)
      ensures Handover(old(state), state)
      ensures history == old(history).(received := old(history.received) + [id])
      ensures state.closing && !state.enabled && state.lifecycle == Disabled
    {
      ghost var before := state;
      state := state.(closing := true, enabled := false, restartTimer := None, lifecycle := Disabled);
      RetireControls();
      ClosedBalances(before, state, history.received, id, watched);
      state := state.(answers := state.answers + [Answer(id, Success)]);
      history := history.(received := history.received + [id]);
    }

    /** A close while a disable or restart is stopping the session: a restart is refused, a disable stays held. */
    method TakeOverStop(id: nat)
      requires Valid() && state.stopIntent != NoStop && !state.closing
      modifies this
      ensures ClosedBy(old(state), id, state)
      ensures Valid() && Progress(old(state), old(history), state, history)
      ensures Handover(old(state), state)
      ensures history == old(history).(received := old(history.received) + [id])
      ensures state.closing && !state.enabled && state.stopIntent == StopClose && state.closeReply == Some(id)
      ensures state.disableReply == old(state.disableReply)
      ensures old(state.stopIntent) == StopRestart ==>
                state.answers == old(state.answers) + [Answer(old(state.restartReply).value, Error(InvalidState))]
    {
      TakeOverBalances(state, history.received, id, watched);
      history := history.(received := history.received + [id]);
      state := TakenOver(state, id);
    }

    /** Queues a taken control behind the one in flight, or dispatches it. */
    method Enqueue(id: nat, command: Command, expired: set<nat>)
      requires Valid() && IsControl(command) && state.session && state.stopIntent == NoStop
      modifies this
      ensures Dispatched(QueuedUp(old(state), id, command), expired, state)
      ensures Handover(old(state), state)
      ensures Valid() && old(state.answers) <= state.answers
      ensures state == old(state).(answers := state.answers, queue := state.queue,
                                   inFlight := state.inFlight, controlID := state.controlID)
      ensures history == old(history).(received := old(history.received) + [id])
    {
      ghost var before, earlier := state, history;
      QueuedBalances(state, history.received, id, command, watched);
      history := history.(received := history.received + [id]);
      state := QueuedUp(state, id, command);
      DispatchNextControl(expired);
      OthersKept(policy, initial, before, earlier, state, history.received);
    }

    method AcceptConfig(config: Config)
      requires Valid() && ApplyConfig(state.control, config).Changed?
      modifies this
      ensures Valid()
      ensures state == old(state).(control := Apply(old(state.control), SetConfig(config)))
      ensures history == old(history).(accepted := old(history.accepted) + [SetConfig(config)])
    {
      InFlightKept(state, config);
      Commit(SetConfig(config));
    }

    /** An accepted configuration is owned at once, whatever later becomes of its delivery. */
    method OnConfigure(id: nat, config: Config, expired: set<nat>)
      requires Valid() && state.stopIntent == NoStop
      modifies this
      ensures Submitted(old(state), capacity, id, Configure(config), expired, state)
      ensures Valid() && Progress(old(state), old(history), state, history)
      ensures Handover(old(state), state)
      ensures history.received == old(history.received) + [id]
      ensures ApplyConfig(old(state.control), config).Changed? ==>
                && state.control == ApplyConfig(old(state.control), config).next
                && history.accepted == old(history.accepted) + [SetConfig(config)]
      ensures !ApplyConfig(old(state.control), config).Changed? ==>
                && state == old(state).(answers := old(state.answers) + [Answer(id, ReplyTo(ApplyConfig(old(state.control), config)))])
                && history.accepted == old(history.accepted)
    {
      var applied := ApplyConfig(state.control, config);
      if !applied.Changed? {
        Reply(id, ReplyTo(applied));
        return;
      }
      ChangesAreNewer(state.control, config, state.control.subscription);
      AcceptConfig(config);
      DeliverConfig(id, config, expired);
    }

    /** The delivery of an accepted configuration may be skipped, refused for backpressure or queued. */
    method DeliverConfig(id: nat, config: Config, expired: set<nat>)
      requires Valid() && state.stopIntent == NoStop
      modifies this
      ensures Delivered(old(state), capacity, id, Configure(config), expired, state)
      ensures Handover(old(state), state)
      ensures Valid() && old(state.answers) <= state.answers
      ensures state == old(state).(answers := state.answers, queue := state.queue,
                                   inFlight := state.inFlight, controlID := state.controlID)
      ensures history == old(history).(received := old(history.received) + [id])
    {
      if !state.session {
        Reply(id, Success);
      } else if |state.queue| >= capacity {
        Reply(id, Error(ControlBackpressure));
      } else {
        Enqueue(id, Configure(config), expired);
      }
    }

    /** Activation and subscription controls take effect only once delivered, or at once without a session. */
    method OnDelivered(id: nat, command: Command, expired: set<nat>)
      requires Valid() && state.stopIntent == NoStop && (command.Active? || command.Subscribe?)
      modifies this
      ensures Submitted(old(state), capacity, id, command, expired, state)
      ensures Valid() && Progress(old(state), old(history), state, history)
      ensures Handover(old(state), state)
      ensures history.received == old(history.received) + [id]
      ensures old(state.session) ==> state.control == old(state.control) && history.accepted == old(history.accepted)
      ensures !old(state.session) ==>
                var applied := Prepare(old(state.control), command);
                && state.answers == old(state.answers) + [Answer(id, ReplyTo(applied))]
                && (if applied.Changed?
                    then state.control == applied.next && history.accepted == old(history.accepted) + [UpdateOf(command)]
                    else state.control == old(state.control) && history.accepted == old(history.accepted))
    {
      if !state.session {
        ApplyAtOnce(id, command);
      } else if |state.queue| >= capacity {
        Reply(id, Error(ControlBackpressure));
      } else {
        Enqueue(id, command, expired);
      }
    }

    /** Without a session there is nobody to deliver to. */
    method ApplyAtOnce(id: nat, command: Command)
      requires Valid() && !state.session && state.stopIntent == NoStop && (command.Active? || command.Subscribe?)
      modifies this
      ensures Submitted(old(state), capacity, id, command, {}, state)
      ensures Valid() && Progress(old(state), old(history), state, history)
      ensures Handover(old(state), state)
      ensures history.received == old(history.received) + [id]
      ensures state.answers == old(state.answers) + [Answer(id, ReplyTo(Prepare(old(state.control), command)))]
      ensures Prepare(old(state.control), command).Changed? ==> state.control == Prepare(old(state.control), command).next
      ensures Prepare(old(state.control), command).Changed? ==> history.accepted == old(history.accepted) + [UpdateOf(command)]
      ensures !Prepare(old(state.control), command).Changed? ==> state.control == old(state.control) && history.accepted == old(history.accepted)
    {
      var applied := Prepare(state.control, command);
      if !applied.Changed? {
        Reply(id, ReplyTo(applied));
        return;
      }
      PreparedIsUpdate(state.control, command);
      CommitAndReply(id, UpdateOf(command));
    }

    /** Without a session an accepted control is owned and answered at once. */
    method CommitAndReply(id: nat, u: Update)
      requires Valid() && !state.session && NotBehind(state.control, Apply(state.control, u))
      modifies this
      ensures Valid() && Progress(old(state), old(history), state, history)
      ensures Handover(old(state), state)
      ensures state == old(state).(control := Apply(old(state.control), u), answers := old(state.answers) + [Answer(id, Success)])
      ensures history == old(history).(received := old(history.received) + [id], accepted := old(history.accepted) + [u])
    {
      Commit(u);
      Reply(id, Success);
    }

    /** `handleCommand`. The loop ends exactly when a close finds no session. */
    method HandleCommand(command: Command, id: nat, cancelled: bool, expired: set<nat>, opens: bool) returns (done: bool)
      requires Valid()
      modifies this
      ensures old(Refusal(command, cancelled)).None? ==> Commanded(capacity, old(state), command, id, expired, opens, state)
      ensures Progress(old(state), old(history), state, history)
      ensures Handover(old(state), state)
      ensures history.received == old(history.received) + [id]
      ensures done ==> Ended()
      ensures !done ==> Valid()
      ensures done <==> old(Refusal(command, cancelled)).None? && command.Close? && !old(state.session)
      ensures old(Refusal(command, cancelled)).Some? ==>
                state == old(state).(answers := old(state.answers) + [Answer(id, Error(old(Refusal(command, cancelled)).value))])
                && history.accepted == old(history.accepted)
      ensures command.Configure? && old(Refusal(command, cancelled)).None? ==>
                match ApplyConfig(old(state.control), command.config)
                case Changed(next) => state.control == next
                case _ => state.control == old(state.control)
    {
      done := false;
      var refusal := Refusal(command, cancelled);
      if refusal.Some? {
        Reply(id, Error(refusal.value));
        return;
      }
      match command {
        case Enable => OnEnable(id, opens);
        case Disable => OnDisable(id);
        case Restart => OnRestart(id, opens);
        case Close => done := OnClose(id);
        case Configure(config) => OnConfigure(id, config, expired);
        case _ => OnDelivered(id, command, expired);
      }
    }

    // ---- Outcomes ----

    /** `handleControlResult`: a completed activation or subscription changes its own field and nothing else. */
    method HandleControlResult(instance: nat, operation: nat, error: Option<ControlError>, expired: set<nat>)
      requires Valid()
      modifies this
      ensures if Completes(old(state), instance, operation) then OutcomeTaken(old(state), error, expired, state) else state == old(state)
      ensures Valid() && Progress(old(state), old(history), state, history)
      ensures history.received == old(history.received)
      ensures var f := old(state.inFlight);
              if f.None? || f.value.instance != instance || f.value.operation != operation
              then state == old(state) && history == old(history)
              else if error.None? && !f.value.durable
              then state.control == Apply(old(state.control), UpdateOf(f.value.command))
                   && history.accepted == old(history.accepted) + [UpdateOf(f.value.command)]
              else state.control == old(state.control) && history.accepted == old(history.accepted)
      ensures Handover(if Completes(old(state), instance, operation) then Concluded(old(state), error) else old(state), state)
    {
      if Completes(state, instance, operation) { CompleteControl(error, expired); }
    }

    method CompleteControl(error: Option<ControlError>, expired: set<nat>)
      requires Valid() && state.inFlight.Some?
      modifies this
      ensures OutcomeTaken(old(state), error, expired, state)
      ensures Valid() && Progress(old(state), old(history), state, history)
      ensures Handover(Concluded(old(state), error), state)
      ensures history.received == old(history.received) && state.control == Concluded(old(state), error).control
      ensures history.accepted == if error.None? && !old(state.inFlight.value).durable
                                  then old(history.accepted) + [UpdateOf(old(state.inFlight.value).command)] else old(history.accepted)
    {
      Conclude(error);
      AnswerInFlight(ReplyFor(error), expired);
    }

    /** A delivered activation or subscription becomes part of the desired state; the configuration may have moved on. */
    method Conclude(error: Option<ControlError>)
      requires Valid() && state.inFlight.Some?
      modifies this
      ensures Balanced(state, history.received, watched) && StopConsistent(state) && ControlsShape(state.(inFlight := None))
      ensures TimersConsistent(policy, state, history.timerLaunches) && HistoryConsistent(initial, state, history)
      ensures state == Concluded(old(state), error).(inFlight := old(state.inFlight)) && NotBehind(old(state.control), state.control)
      ensures history == old(history).(accepted := history.accepted)
      ensures history.accepted == if error.None? && !old(state.inFlight.value).durable
                                  then old(history.accepted) + [UpdateOf(old(state.inFlight.value).command)] else old(history.accepted)
    {
      if error.None? && !state.inFlight.value.durable {
        var f := state.inFlight.value;
        Commit(UpdateOf(f.command));
        assert state.control == f.next.(config := old(state.control.config));
      }
    }

    /** The command of the control in flight gets its reply, and the next control is dispatched. */
    method AnswerInFlight(reply: Reply, expired: set<nat>)
      requires Balanced(state, history.received, watched) && state.inFlight.Some? && state.session && ControlsShape(state.(inFlight := None))
      modifies this`state
      ensures Dispatched(WithReply(old(state).(inFlight := None), old(state.inFlight.value.id), reply), expired, state)
      ensures Handover(old(state).(inFlight := None), state)
      ensures Balanced(state, history.received, watched) && ControlsConsistent(state)
      ensures old(state.answers) <= state.answers
      ensures state == old(state).(answers := state.answers, queue := state.queue,
                                   inFlight := state.inFlight, controlID := state.controlID)
    {
      var id := state.inFlight.value.id;
      AnsweredAppend(state.answers, Answer(id, reply), watched);
      state := WithReply(state.(inFlight := None), id, reply);
      DispatchNextControl(expired);
    }

    /** `handleSessionResult`: an outcome of another instance, or during a stop, changes nothing. */
    method HandleSessionResult(instance: nat, result: SessionResult)
      requires Valid()
      modifies this
      ensures Valid() && Progress(old(state), old(history), state, history)
      ensures Handover(old(state), state)
      ensures history.received == old(history.received)
      ensures if instance == old(state.instance) && old(state.session) && old(state.stopIntent) == NoStop
              then SessionOver(policy, old(state), result, state)
              else state == old(state) && history == old(history)
    {
      if instance != state.instance || !state.session || state.stopIntent != NoStop { return; }
      match result {
        case Clean => EndSession(Stopped);
        case Fatal => EndSession(Incompatible);
        case Retryable(stableFor) => FailSession(stableFor);
      }
    }

    /** The session is over and pending controls are refused; there is no restart. */
    method EndSession(lifecycle: Lifecycle)
      requires Valid() && state.session && state.stopIntent == NoStop && lifecycle in {Stopped, Incompatible, Crashed}
      modifies this`state
      ensures Valid() && Handover(old(state), state) && PendingRefused(old(state), state.answers)
      ensures state == old(state).(answers := state.answers, inFlight := None, queue := [], controlID := state.controlID,
                                   stableTimer := None, session := false, lifecycle := lifecycle)
    {
      RetireControls();
      state := state.(stableTimer := None, session := false, lifecycle := lifecycle);
    }

    /** A failed session is restarted after the prescribed delay, until the failure limit; a stable one had its failures forgiven. */
    method FailSession(stableFor: int)
      requires Valid() && state.session && state.stopIntent == NoStop
      modifies this
      ensures Valid() && Progress(old(state), old(history), state, history)
      ensures Handover(old(state), state)
      ensures history.received == old(history.received)
      ensures SessionOver(policy, old(state), Retryable(stableFor), state)
    {
      EndSession(Crashed);
      CountFailure(stableFor);
    }

    method CountFailure(stableFor: int)
      requires Valid() && !state.session && state.enabled && state.lifecycle == Crashed
      modifies this
      ensures Valid() && history == old(history).(timerLaunches := history.timerLaunches)
      ensures state == old(state).(consecutiveFailures := state.consecutiveFailures, lifecycle := state.lifecycle, restartTimer := state.restartTimer)
      ensures state.consecutiveFailures == if stableFor >= policy.stableWindow then 1 else old(state.consecutiveFailures) + 1
      ensures if state.consecutiveFailures >= policy.maxFailures
              then state.lifecycle == Crashed && state.restartTimer == old(state.restartTimer)
              else state.lifecycle == Backoff && state.restartTimer == Some(PrescribedDelay(policy, state.consecutiveFailures))
    {
      if stableFor >= policy.stableWindow {
        state := state.(consecutiveFailures := 0);
        history := history.(timerLaunches := 0);
      }
      state := state.(consecutiveFailures := state.consecutiveFailures + 1);
      if !state.enabled || state.consecutiveFailures >= policy.maxFailures { return; }
      var delay := RestartDelay(policy, state.consecutiveFailures);
      state := state.(restartTimer := Some(delay), lifecycle := Backoff);
    }

    /** `handleStopResult`: every held reply is answered; a close ends the loop with nothing unanswered. */
    method HandleStopResult(instance: nat, error: Option<ControlError>, opens: bool) returns (done: bool)
      requires Valid()
      modifies this
      ensures Progress(old(state), old(history), state, history)
      ensures Handover(old(state), state)
      ensures history.received == old(history.received)
      ensures !done ==> Valid()
      ensures done <==> instance == old(state.instance) && old(state.stopIntent) == StopClose
      ensures done ==> Ended()
      ensures if instance == old(state.instance) && old(state.stopIntent) != NoStop then StopOver(old(state), error, opens, state)
              else state == old(state) && history == old(history)
    {
      if instance != state.instance || state.stopIntent == NoStop { return false; }
      done := state.stopIntent == StopClose;
      var restart := state.stopIntent == StopRestart;
      FinishStop(ReplyFor(error));
      if restart && state.enabled {
        state := state.(lifecycle := Stopped);
        StartSession(opens);
      }
    }

    /** The stopped session is gone, and every reply held back for the stop is given. */
    method FinishStop(reply: Reply)
      requires Valid() && state.stopIntent != NoStop
      modifies this`state
      ensures HeldAnswered(old(state), reply, state.answers)
      ensures state == old(state).(stopIntent := NoStop, session := false, lifecycle := Disabled, stableTimer := None, answers := state.answers,
                                   disableReply := None, restartReply := None, closeReply := None)
      ensures Balanced(state, history.received, watched) && Outstanding(state, watched) == 0
    {
      state := state.(stopIntent := NoStop, session := false, lifecycle := Disabled, stableTimer := None);
      state := AnswerHeld(state, reply, watched);
    }

    /** `handleCallback`: callbacks of other instances, or during a stop, change nothing. */
    method HandleCallback(instance: nat, callback: Callback)
      requires Valid()
      modifies this
      ensures instance == old(state.instance) && old(state.session) && old(state.stopIntent) == NoStop ==> CalledBack(old(state), callback, state)
      ensures Valid() && history == old(history)
      ensures Handover(old(state), state)
      ensures state == old(state).(lifecycle := state.lifecycle, stableTimer := state.stableTimer)
      ensures instance != old(state.instance) || !old(state.session) || old(state.stopIntent) != NoStop ==> state == old(state)
      ensures state.lifecycle != old(state.lifecycle) ==>
                (old(state.lifecycle), state.lifecycle) in
                {(Starting, Handshaking), (Handshaking, Running), (Running, Unresponsive)}
    {
      if instance != state.instance || !state.session || state.stopIntent != NoStop { return; }
      match callback {
        case ProcessStarted =>
          if state.lifecycle == Starting { state := state.(lifecycle := Handshaking); }
        case Ready =>
          if state.lifecycle == Handshaking {
            state := state.(lifecycle := Running,
                            stableTimer := if state.consecutiveFailures == 0 then None else Some(state.instance));
          }
        case WentUnresponsive =>
          if state.lifecycle == Running { state := state.(lifecycle := Unresponsive, stableTimer := None); }
        case Telemetry =>
      }
    }

    /** The restart timer fires: it was armed in Backoff, so a new session is launched. */
    method RestartTimerFires(opens: bool)
      requires Valid() && state.restartTimer.Some?
      modifies this
      ensures Launched(old(state).(restartTimer := None), opens, state)
      ensures Valid() && Progress(old(state), old(history), state, history)
      ensures Handover(old(state), state)
      ensures history.received == old(history.received) && state.control == old(state.control)
      ensures state.restartTimer.None? && history.timerLaunches == old(history.timerLaunches) + 1
      ensures state.consecutiveFailures == old(state.consecutiveFailures)
    {
      state := state.(restartTimer := None);
      if state.enabled && !state.closing && !state.session {
        history := history.(timerLaunches := history.timerLaunches + 1);
        StartSession(opens);
      }
    }

    /** The stable-window timer fires: a running session's earlier failures are forgiven. */
    method StableTimerFires()
      requires Valid() && state.stableTimer.Some?
      modifies this
      ensures Valid() && state.stableTimer.None?
      ensures Handover(old(state), state)
      ensures history.received == old(history.received) && history.accepted == old(history.accepted) && history.started == old(history.started)
      ensures state == old(state).(stableTimer := None,
                                   consecutiveFailures := if old(state.lifecycle) == Running then 0 else old(state.consecutiveFailures))
    {
      var stable := state.stableTimer.value;
      state := state.(stableTimer := None);
      if state.session && state.instance == stable && state.lifecycle == Running && state.consecutiveFailures != 0 {
        state := state.(consecutiveFailures := 0);
        history := history.(timerLaunches := 0);
      }
    }

    /** One iteration of the event loop. A timer channel delivers only while its timer is armed. */
    method Step(event: Event) returns (exited: bool)
      requires Valid()
      modifies this
      ensures Obeys(policy, capacity, old(state), event, state)
      ensures !exited ==> Valid()
      ensures exited ==> Ended()
      ensures Progress(old(state), old(history), state, history)
      ensures Handover(Settled(old(state), event), state)
      ensures history.received == old(history.received) + if event.TakeCommand? then [event.id] else []
    {
      if event.TakeCommand? {
        exited := HandleCommand(event.command, event.id, event.cancelled, event.expired, event.opens);
      } else {
        exited := HandleOutcome(event);
      }
    }

    /** An event that brings no command. */
    method HandleOutcome(event: Event) returns (exited: bool)
      requires Valid() && !event.TakeCommand?
      modifies this
      ensures Obeys(policy, capacity, old(state), event, state)
      ensures !exited ==> Valid()
      ensures exited ==> Ended()
      ensures Progress(old(state), old(history), state, history)
      ensures Handover(Settled(old(state), event), state)
      ensures history.received == old(history.received)
    {
      exited := false;
      if event.SessionStopped? {
        exited := HandleStopResult(event.instance, event.error, event.opens);
      } else if event.ControlDone? {
        HandleControlResult(event.instance, event.operation, event.error, event.expired);
      } else {
        Notice(event);
      }
    }

    /** An event that neither answers a command nor ends the loop. */
    method Notice(event: Event)
      requires Valid() && !event.TakeCommand? && !event.SessionStopped? && !event.ControlDone?
      modifies this
      ensures Obeys(policy, capacity, old(state), event, state)
      ensures Valid() && Progress(old(state), old(history), state, history) && Handover(old(state), state)
      ensures history.received == old(history.received)
    {
      match event {
        case SessionEnded(instance, result) => HandleSessionResult(instance, result);
        case SessionCallback(instance, callback) => HandleCallback(instance, callback);
        case RestartTimer(opens) => if state.restartTimer.Some? { RestartTimerFires(opens); }
        case StableTimer => if state.stableTimer.Some? { StableTimerFires(); }
      }
    }
  }

  /** `newPluginSupervisor`: refuses a missing session factory and a restart policy, configuration or subscription that does not validate. */
  method NewSupervisor(policy: RestartPolicy, hasFactory: bool, capacity: nat, enabled: bool, initial: ControlState, opens: bool,
                       ghost watched: nat)
    returns (s: PluginSupervisor?)
    ensures s == null <==> !(ValidPolicy(policy) && hasFactory && ConfigValid(initial.config) && Accepts(initial.subscription, initial.active))
    ensures s != null ==> fresh(s) && s.Valid() && s.policy == policy && s.initial == initial && s.state.control == initial
  {
    if !ValidPolicy(policy) || !hasFactory || !ConfigValid(initial.config) || !Accepts(initial.subscription, initial.active) {
      return null;
    }
    s := new PluginSupervisor(policy, capacity, enabled, initial, opens, watched);
  }

  // ---- Whole runs ----

  datatype Event =
    | TakeCommand(command: Command, id: nat, cancelled: bool, expired: set<nat>, opens: bool)
    | SessionEnded(instance: nat, result: SessionResult)
    | ControlDone(instance: nat, operation: nat, error: Option<ControlError>, expired: set<nat>)
    | SessionStopped(instance: nat, error: Option<ControlError>, opens: bool)
    | SessionCallback(instance: nat, callback: Callback)
    | RestartTimer(opens: bool)
    | StableTimer

  /** The state once the outcome of the control in flight, if the event is that, has come in. */
  function Settled(s: LoopState, event: Event): LoopState {
    if event.ControlDone? && Completes(s, event.instance, event.operation) then Concluded(s, event.error) else s
  }

  /** The ids of the commands among the events, in order. */
  ghost function CommandIds(events: seq<Event>): seq<nat> {
    if events == [] then [] else
      var last := events[|events| - 1];
      CommandIds(events[..|events| - 1]) + if last.TakeCommand? then [last.id] else []
  }

  /** A command with an id of its own is taken once; with RunLoop, it is then answered exactly once when the loop ends. */
  lemma TakenOnce(received: seq<nat>, id: nat)
    requires id in received && forall i, j | 0 <= i < j < |received| :: received[i] != received[j]
    ensures Taken(received, id) == 1
  {
    var n: nat :| n < |received| && received[n] == id;
    assert (set i: nat | i < |received| && received[i] == id) == {n};
  }

  /** Every step of a run does what the events are to do. */
  ghost predicate Follows(policy: RestartPolicy, capacity: nat, states: seq<LoopState>, events: seq<Event>) {
    && |states| <= |events| + 1
    && forall i | 0 <= i < |states| - 1 :: Obeys(policy, CapacityOf(capacity), states[i], events[i], states[i + 1])
  }

  /** The states of a run so far, up to the present one. */
  ghost predicate Recorded(policy: RestartPolicy, capacity: nat, states: seq<LoopState>, events: seq<Event>, state: LoopState) {
    states != [] && states[|states| - 1] == state && Follows(policy, capacity, states, events)
  }

  lemma {:induction false} RecordedOn(policy: RestartPolicy, capacity: nat, states: seq<LoopState>, events: seq<Event>,
                                      state: LoopState, next: LoopState)
    requires Recorded(policy, capacity, states, events, state) && |states| <= |events|
    requires Obeys(policy, CapacityOf(capacity), state, events[|states| - 1], next)
    ensures Recorded(policy, capacity, states + [next], events, next)
  {
    var n, more := |states|, states + [next];
    forall i | 0 <= i < n ensures Obeys(policy, CapacityOf(capacity), more[i], events[i], more[i + 1]) {
      if i < n - 1 {
        assert Obeys(policy, CapacityOf(capacity), states[i], events[i], states[i + 1]);
      } else {
        assert more[i] == state && more[i + 1] == next;
      }
    }
  }

  /** One turn of the loop, with what it adds to the record. */
  method Turn(supervisor: PluginSupervisor, policy: RestartPolicy, capacity: nat, events: seq<Event>, i: nat, ghost states: seq<LoopState>)
    returns (exited: bool, ghost more: seq<LoopState>)
    requires supervisor.Valid() && supervisor.policy == policy && supervisor.capacity == CapacityOf(capacity)
    requires i < |events| && |states| == i + 1 && supervisor.history.received == CommandIds(events[..i])
    requires Recorded(policy, capacity, states, events, supervisor.state)
    modifies supervisor
    ensures if exited then supervisor.Ended() else supervisor.Valid()
    ensures supervisor.history.received == CommandIds(events[..i + 1])
    ensures NotBehind(old(supervisor.state.control), supervisor.state.control)
    ensures |more| == i + 2 && more[0] == states[0] && Recorded(policy, capacity, more, events, supervisor.state)
  {
    ghost var before := supervisor.state;
    assert events[..i + 1][..i] == events[..i];
    exited := supervisor.Step(events[i]);
    RecordedOn(policy, capacity, states, events, before, supervisor.state);
    more := states + [supervisor.state];
  }

  /** The loop, until the events are used up or it ends. */
  method RunEvents(supervisor: PluginSupervisor, policy: RestartPolicy, capacity: nat, events: seq<Event>)
    returns (exited: bool, i: nat, ghost states: seq<LoopState>)
    requires supervisor.Valid() && supervisor.policy == policy && supervisor.capacity == CapacityOf(capacity)
    requires supervisor.history.received == []
    modifies supervisor
    ensures i <= |events| && (!exited ==> i == |events|) && supervisor.history.received == CommandIds(events[..i])
    ensures if exited then supervisor.Ended() else supervisor.Valid()
    ensures NotBehind(old(supervisor.state.control), supervisor.state.control)
    ensures |states| == i + 1 && states[0] == old(supervisor.state) && Recorded(policy, capacity, states, events, supervisor.state)
  {
    exited, i, states := false, 0, [supervisor.state];
    while i < |events| && !exited
      invariant i <= |events| && supervisor.history.received == CommandIds(events[..i])
      invariant if exited then supervisor.Ended() else supervisor.Valid()
      invariant NotBehind(old(supervisor.state.control), supervisor.state.control)
      invariant |states| == i + 1 && states[0] == old(supervisor.state) && Recorded(policy, capacity, states, events, supervisor.state)
    {
      exited, states := Turn(supervisor, policy, capacity, events, i, states);
      i := i + 1;
    }
  }

  /**
   `run`, on any event sequence. Every event does to the state what `Obeys` says: which
   replies are given, whether a session is started or stopped, and what is next. At every
   moment a command has been answered at most as often as it was taken, and once the loop
   has ended exactly as often: a command with its own id is answered exactly once. While
   the loop runs, a stop intent implies a session and no pending control, a plugin without
   a session is disabled exactly if it is in Disabled, and the restart timer is armed
   exactly in backoff.
   */
  method RunLoop(policy: RestartPolicy, capacity: nat, enabled: bool, initial: ControlState, opens: bool,
                 events: seq<Event>, ghost watched: nat)
    returns (state: LoopState, exited: bool, ghost taken: nat, ghost history: History, ghost states: seq<LoopState>)
    requires ValidPolicy(policy)
    ensures taken <= |events| && Answered(state.answers, watched) <= Taken(CommandIds(events[..taken]), watched)
    ensures exited ==> Answered(state.answers, watched) == Taken(CommandIds(events[..taken]), watched)
    ensures !exited ==> taken == |events|
    ensures |states| == taken + 1 && Begins(enabled, initial, opens, states[0]) && states[taken] == state
    ensures Follows(policy, capacity, states, events)
    ensures !exited ==> StopConsistent(state) && ControlsConsistent(state)
    ensures !exited ==> TimersConsistent(policy, state, history.timerLaunches)
    ensures state.control == Fold(initial, history.accepted) && NotBehind(initial, state.control)
    ensures forall l | l in history.started ::
              l.accepted <= |history.accepted| && l.startup == Fold(initial, history.accepted[..l.accepted])
    ensures history.timerLaunches <= policy.maxFailures - 1
  {
    var supervisor := new PluginSupervisor(policy, capacity, enabled, initial, opens, watched);
    var i;
    exited, i, states := RunEvents(supervisor, policy, capacity, events);
    state, taken, history := supervisor.state, i, supervisor.history;
  }
}
