/**
 The per-subscriber event queue of internal/plugins/events.go: logs and notices are
 bounded queues, state events coalesce per plugin and type, and the oldest pending
 event is delivered first.
 */
module Events {
  import opened Common

  type Counter = n: nat | n <= MAX_UINT64

  datatype EventType = Discovered | Removed | StateChanged | Status | Log

  datatype Key = Key(plugin: string, eventType: EventType)

  datatype Event = Event(sequence: nat, eventType: EventType, plugin: string, content: string, dropped: Counter)

  datatype Subscriber = Subscriber(notices: seq<Event>, logs: seq<Event>, states: map<Key, Event>, stateOrder: seq<Key>,
                                   droppedLog: map<string, Counter>)

  function KeyOf(e: Event): Key {
    Key(e.plugin, e.eventType)
  }

  predicate Coalesces(t: EventType) {
    t.StateChanged? || t.Status?
  }

  // ---- What the queues hold ----

  predicate Ascending(events: seq<Event>) {
    forall i, j | 0 <= i < j < |events| :: events[i].sequence < events[j].sequence
  }

  predicate Unique(order: seq<Key>) {
    forall i, j | 0 <= i < j < |order| :: order[i] != order[j]
  }

  /** The state order lists exactly the pending keys, once each. */
  ghost predicate OrderMatches(s: Subscriber) {
    && Unique(s.stateOrder)
    && (forall k :: k in s.states <==> k in s.stateOrder)
    && (forall k | k in s.states :: KeyOf(s.states[k]) == k && Coalesces(k.eventType))
  }

  predicate Between(low: nat, e: Event, high: nat) {
    low < e.sequence <= high
  }

  /** Every pending sequence number is after the last delivered and no later than the last dispatched one. */
  ghost predicate Pending(s: Subscriber, low: nat, high: nat) {
    && (forall i | 0 <= i < |s.logs| :: Between(low, s.logs[i], high) && s.logs[i].eventType == Log)
    && (forall i | 0 <= i < |s.notices| :: Between(low, s.notices[i], high) && s.notices[i].eventType != Log)
    && (forall k | k in s.states :: Between(low, s.states[k], high))
  }

  /** No two pending events share a sequence number. */
  ghost predicate Apart(s: Subscriber) {
    && Ascending(s.logs) && Ascending(s.notices)
    && (forall i, j | 0 <= i < |s.logs| && 0 <= j < |s.notices| :: s.logs[i].sequence != s.notices[j].sequence)
    && (forall i, k | 0 <= i < |s.logs| && k in s.states :: s.logs[i].sequence != s.states[k].sequence)
    && (forall i, k | 0 <= i < |s.notices| && k in s.states :: s.notices[i].sequence != s.states[k].sequence)
    && (forall j, k | j in s.states && k in s.states && j != k :: s.states[j].sequence != s.states[k].sequence)
  }

  predicate Bounded(s: Subscriber, capacity: nat) {
    |s.logs| <= capacity && |s.notices| <= capacity && |s.stateOrder| <= capacity
  }

  /** A pending state event is the last one dispatched for its key. */
  ghost predicate Newest(s: Subscriber, dispatched: seq<Event>) {
    forall k | k in s.states :: LastOf(dispatched, k) == Some(s.states[k])
  }

  function LastOf(events: seq<Event>, k: Key): Option<Event> {
    if events == [] then None
    else if KeyOf(events[|events| - 1]) == k then Some(events[|events| - 1])
    else LastOf(events[..|events| - 1], k)
  }

  // ---- Accounting for logs ----

  /** The log records of a plugin: each event stands for itself and for those it reports dropped. */
  function LogWeight(events: seq<Event>, plugin: string): nat {
    if events == [] then 0
    else
      var last := events[|events| - 1];
      LogWeight(events[..|events| - 1], plugin) + if last.eventType == Log && last.plugin == plugin then 1 + last.dropped else 0
  }

  lemma LogWeightAppend(events: seq<Event>, e: Event, plugin: string)
    ensures LogWeight(events + [e], plugin)
         == LogWeight(events, plugin) + if e.eventType == Log && e.plugin == plugin then 1 + e.dropped else 0
  {
    assert (events + [e])[..|events|] == events;
  }

  lemma {:induction false} LogWeightTail(events: seq<Event>, plugin: string)
    requires events != []
    ensures LogWeight(events, plugin) == LogWeight([events[0]], plugin) + LogWeight(events[1..], plugin)
  {
    if |events| == 1 {
      assert events == [events[0]];
    } else {
      var init := events[..|events| - 1];
      LogWeightTail(init, plugin);
      assert events[1..][..|events| - 2] == init[1..];
    }
  }

  function Recorded(s: Subscriber, plugin: string): Counter {
    if plugin in s.droppedLog then s.droppedLog[plugin] else 0
  }

  /** Until a counter saturates, every dispatched log record is delivered, pending or recorded as dropped. */
  ghost predicate Accounted(s: Subscriber, dispatched: seq<Event>, delivered: seq<Event>) {
    forall plugin :: LogWeight(dispatched, plugin) <= MAX_UINT64 ==>
      LogWeight(dispatched, plugin) == LogWeight(delivered, plugin) + LogWeight(s.logs, plugin) + Recorded(s, plugin)
  }

  // ---- Enqueueing ----

  /** Queues that fit together: bounded, ordered, and without repeated keys or sequence numbers. */
  ghost predicate Sound(s: Subscriber, capacity: nat, low: nat, high: nat) {
    OrderMatches(s) && Pending(s, low, high) && Apart(s) && Bounded(s, capacity)
  }

  function Evict(s: Subscriber): Subscriber
    requires s.stateOrder != []
  {
    s.(states := s.states - {s.stateOrder[0]}, stateOrder := s.stateOrder[1..])
  }

  lemma EvictIsSound(s: Subscriber, capacity: nat, low: nat, high: nat)
    requires Sound(s, capacity, low, high) && s.stateOrder != []
    ensures Sound(Evict(s), capacity, low, high)
  {
    var r := Evict(s);
    forall k ensures k in r.states <==> k in r.stateOrder {
      if k in s.stateOrder { var i :| 0 <= i < |s.stateOrder| && s.stateOrder[i] == k; assert i > 0 ==> r.stateOrder[i - 1] == k; }
    }
  }

  lemma AppendedKey(s: Subscriber, event: Event, capacity: nat, low: nat, high: nat)
    requires Sound(s, capacity, low, high) && KeyOf(event) !in s.states && |s.stateOrder| < capacity
    requires low <= high < event.sequence && Coalesces(event.eventType)
    ensures Sound(s.(states := s.states[KeyOf(event) := event], stateOrder := s.stateOrder + [KeyOf(event)]), capacity, low, event.sequence)
  {
  }

  lemma ReplacedEvent(s: Subscriber, event: Event, capacity: nat, low: nat, high: nat)
    requires Sound(s, capacity, low, high) && KeyOf(event) in s.states
    requires low <= high < event.sequence && Coalesces(event.eventType)
    ensures Sound(s.(states := s.states[KeyOf(event) := event]), capacity, low, event.sequence)
  {
  }

  /** A state event replaces the pending one for its key, or takes a place, evicting the first key when none is free. */
  method EnqueueState(s: Subscriber, event: Event, capacity: nat, ghost low: nat, ghost high: nat) returns (r: Subscriber)
    requires Sound(s, capacity, low, high) && capacity > 0
    requires low <= high < event.sequence && Coalesces(event.eventType)
    ensures Sound(r, capacity, low, event.sequence)
    ensures var key := KeyOf(event);
            r == if key in s.states then s.(states := s.states[key := event])
                 else if |s.stateOrder| < capacity then s.(states := s.states[key := event], stateOrder := s.stateOrder + [key])
                 else s.(states := (s.states - {s.stateOrder[0]})[key := event], stateOrder := s.stateOrder[1..] + [key])
  {
    var key := KeyOf(event);
    r := s;
    if key !in r.states {
      if |r.stateOrder| == capacity {
        EvictIsSound(r, capacity, low, high);
        r := Evict(r);
      }
      AppendedKey(r, event, capacity, low, high);
      r := r.(stateOrder := r.stateOrder + [key]);
    } else {
      ReplacedEvent(r, event, capacity, low, high);
    }
    r := r.(states := r.states[key := event]);
  }

  /** The log event with the records dropped before it added to its own count. */
  function Counted(s: Subscriber, event: Event): Event {
    event.(dropped := SaturatingAdd(event.dropped, Recorded(s, event.plugin)))
  }

  /** A full log queue only counts the record; a free one takes it with the count so far. */
  method EnqueueLog(s: Subscriber, event: Event, capacity: nat) returns (r: Subscriber)
    requires |s.logs| <= capacity && event.eventType == Log
    ensures |s.logs| >= capacity ==> r == s.(droppedLog := r.droppedLog)
    ensures |s.logs| < capacity ==> r == s.(droppedLog := r.droppedLog, logs := s.logs + [Counted(s, event)])
    ensures forall plugin | plugin != event.plugin :: Recorded(r, plugin) == Recorded(s, plugin)
    ensures Recorded(r, event.plugin)
         == if |s.logs| >= capacity then SaturatingAdd(Recorded(s, event.plugin), SaturatingAdd(event.dropped, 1)) else 0
  {
    if |s.logs| >= capacity {
      return s.(droppedLog := s.droppedLog[event.plugin := SaturatingAdd(Recorded(s, event.plugin), SaturatingAdd(event.dropped, 1))]);
    }
    var accepted, droppedLog := event, s.droppedLog;
    var dropped := Recorded(s, event.plugin);
    if dropped != 0 {
      accepted := event.(dropped := SaturatingAdd(event.dropped, dropped));
      droppedLog := droppedLog - {event.plugin};
    }
    r := s.(logs := s.logs + [accepted], droppedLog := droppedLog);
  }

  // ---- Delivering ----

  /** Drops leading keys without a pending event. */
  function Trimmed(order: seq<Key>, states: map<Key, Event>): seq<Key> {
    if order != [] && order[0] !in states then Trimmed(order[1..], states) else order
  }

  ghost predicate Candidate(s: Subscriber, e: Event) {
    || (s.logs != [] && e == s.logs[0])
    || (s.notices != [] && e == s.notices[0])
    || (exists k | k in Trimmed(s.stateOrder, s.states) && k in s.states :: e == s.states[k])
  }

  /** The oldest of the heads of the queues and the listed state events. */
  method Next(s: Subscriber) returns (event: Option<Event>, r: Subscriber)
    ensures r == s.(stateOrder := Trimmed(s.stateOrder, s.states))
    ensures event.None? ==> forall e :: !Candidate(s, e)
    ensures event.Some? ==> Candidate(s, event.value) && forall e | Candidate(s, e) :: event.value.sequence <= e.sequence
  {
    event := None;
    if s.logs != [] { event := Some(s.logs[0]); }
    if s.notices != [] && (event.None? || s.notices[0].sequence < event.value.sequence) { event := Some(s.notices[0]); }
    var order := s.stateOrder;
    while order != [] && order[0] !in s.states
      invariant Trimmed(order, s.states) == Trimmed(s.stateOrder, s.states)
      decreases |order|
    {
      order := order[1..];
    }
    for i := 0 to |order|
      invariant event.Some? ==> Candidate(s, event.value)
      invariant s.logs != [] ==> event.Some? && event.value.sequence <= s.logs[0].sequence
      invariant s.notices != [] ==> event.Some? && event.value.sequence <= s.notices[0].sequence
      invariant forall j | 0 <= j < i && order[j] in s.states :: event.Some? && event.value.sequence <= s.states[order[j]].sequence
    {
      if order[i] in s.states && (event.None? || s.states[order[i]].sequence < event.value.sequence) {
        event := Some(s.states[order[i]]);
      }
    }
    r := s.(stateOrder := order);
  }

  predicate HeadIs(queue: seq<Event>, event: Event) {
    queue != [] && queue[0].sequence == event.sequence
  }

  function WithoutState(s: Subscriber, i: nat): Subscriber
    requires i < |s.stateOrder|
  {
    s.(states := s.states - {s.stateOrder[i]}, stateOrder := s.stateOrder[..i] + s.stateOrder[i + 1..])
  }

  predicate StateAt(s: Subscriber, i: nat, event: Event) {
    i < |s.stateOrder| && s.stateOrder[i] in s.states && s.states[s.stateOrder[i]].sequence == event.sequence
  }

  /** Removes the pending event with the given sequence number. */
  method Pop(s: Subscriber, event: Event) returns (r: Subscriber)
    ensures HeadIs(s.logs, event) ==> r == s.(logs := s.logs[1..])
    ensures !HeadIs(s.logs, event) && HeadIs(s.notices, event) ==> r == s.(notices := s.notices[1..])
    ensures !HeadIs(s.logs, event) && !HeadIs(s.notices, event) ==>
      (exists i :: StateAt(s, i, event) && r == WithoutState(s, i)) || (r == s && forall i :: !StateAt(s, i, event))
  {
    if s.logs != [] && s.logs[0].sequence == event.sequence { return s.(logs := s.logs[1..]); }
    if s.notices != [] && s.notices[0].sequence == event.sequence { return s.(notices := s.notices[1..]); }
    for i := 0 to |s.stateOrder|
      invariant forall j | 0 <= j < i :: !StateAt(s, j, event)
    {
      var key := s.stateOrder[i];
      if key in s.states && s.states[key].sequence == event.sequence {
        assert StateAt(s, i, event);
        return s.(states := s.states - {key}, stateOrder := s.stateOrder[..i] + s.stateOrder[i + 1..]);
      }
    }
    return s;
  }

  // ---- One subscription ----

  function LastSequence(events: seq<Event>): nat {
    if events == [] then 0 else events[|events| - 1].sequence
  }

  lemma LastOfAppend(events: seq<Event>, e: Event, k: Key)
    ensures LastOf(events + [e], k) == if KeyOf(e) == k then Some(e) else LastOf(events, k)
  {
    assert (events + [e])[..|events|] == events;
  }

  lemma StaysAccounted(s: Subscriber, t: Subscriber, dispatched: seq<Event>, delivered: seq<Event>, e: Event)
    requires Accounted(s, dispatched, delivered) && e.eventType != Log
    requires t.logs == s.logs && t.droppedLog == s.droppedLog
    ensures Accounted(t, dispatched + [e], delivered) && Accounted(t, dispatched, delivered + [e])
  {
    forall plugin ensures LogWeight(dispatched + [e], plugin) == LogWeight(dispatched, plugin) {
      LogWeightAppend(dispatched, e, plugin);
    }
    forall plugin ensures LogWeight(delivered + [e], plugin) == LogWeight(delivered, plugin) {
      LogWeightAppend(delivered, e, plugin);
    }
  }

  lemma LogIsAccounted(s: Subscriber, t: Subscriber, dispatched: seq<Event>, delivered: seq<Event>, e: Event, kept: Event)
    requires Accounted(s, dispatched, delivered) && e.eventType == Log
    requires forall plugin | plugin != e.plugin :: Recorded(t, plugin) == Recorded(s, plugin)
    requires
      || (t.logs == s.logs && Recorded(t, e.plugin) == SaturatingAdd(Recorded(s, e.plugin), SaturatingAdd(e.dropped, 1)))
      || (kept == Counted(s, e) && t.logs == s.logs + [kept] && Recorded(t, e.plugin) == 0)
    ensures Accounted(t, dispatched + [e], delivered)
  {
    forall plugin | LogWeight(dispatched + [e], plugin) <= MAX_UINT64
      ensures LogWeight(dispatched + [e], plugin) == LogWeight(delivered, plugin) + LogWeight(t.logs, plugin) + Recorded(t, plugin)
    {
      LogWeightAppend(dispatched, e, plugin);
      if t.logs != s.logs { LogWeightAppend(s.logs, kept, plugin); }
      assert plugin != e.plugin ==> Recorded(t, plugin) == Recorded(s, plugin);
    }
  }

  lemma DeliveredIsAccounted(s: Subscriber, dispatched: seq<Event>, delivered: seq<Event>)
    requires Accounted(s, dispatched, delivered) && s.logs != []
    ensures Accounted(s.(logs := s.logs[1..]), dispatched, delivered + [s.logs[0]])
  {
    var t := s.(logs := s.logs[1..]);
    forall plugin | LogWeight(dispatched, plugin) <= MAX_UINT64
      ensures LogWeight(dispatched, plugin) == LogWeight(delivered + [s.logs[0]], plugin) + LogWeight(t.logs, plugin) + Recorded(t, plugin)
    {
      LogWeightTail(s.logs, plugin);
      LogWeightAppend(delivered, s.logs[0], plugin);
      LogWeightAppend([], s.logs[0], plugin);
      assert [] + [s.logs[0]] == [s.logs[0]];
    }
  }

  /** Everything pending is at least as young as the event. */
  ghost predicate Oldest(s: Subscriber, event: Event) {
    && (forall i | 0 <= i < |s.logs| :: event.sequence <= s.logs[i].sequence)
    && (forall i | 0 <= i < |s.notices| :: event.sequence <= s.notices[i].sequence)
    && (forall k | k in s.states :: event.sequence <= s.states[k].sequence)
  }

  lemma CandidateIsOldest(s: Subscriber, event: Event, capacity: nat, low: nat, high: nat)
    requires Sound(s, capacity, low, high) && Candidate(s, event)
    requires forall e | Candidate(s, e) :: event.sequence <= e.sequence
    ensures Oldest(s, event) && Between(low, event, high)
  {
    if s.logs != [] { assert Candidate(s, s.logs[0]); }
    if s.notices != [] { assert Candidate(s, s.notices[0]); }
    forall k | k in s.states ensures event.sequence <= s.states[k].sequence { assert Candidate(s, s.states[k]); }
  }

  lemma LogLeaves(s: Subscriber, event: Event, capacity: nat, low: nat, high: nat)
    requires Sound(s, capacity, low, high) && Oldest(s, event) && HeadIs(s.logs, event)
    ensures Sound(s.(logs := s.logs[1..]), capacity, event.sequence, high)
  {
    assert Pending(s.(logs := s.logs[1..]), event.sequence, high);
  }

  lemma NoticeLeaves(s: Subscriber, event: Event, capacity: nat, low: nat, high: nat)
    requires Sound(s, capacity, low, high) && Oldest(s, event) && HeadIs(s.notices, event)
    ensures Sound(s.(notices := s.notices[1..]), capacity, event.sequence, high)
  {
    assert Pending(s.(notices := s.notices[1..]), event.sequence, high);
  }

  lemma StateLeaves(s: Subscriber, i: nat, event: Event, capacity: nat, low: nat, high: nat)
    requires Sound(s, capacity, low, high) && Oldest(s, event) && StateAt(s, i, event)
    ensures Sound(WithoutState(s, i), capacity, event.sequence, high)
  {
    RemovedKey(s.stateOrder, i);
    RemovedState(s.states, s.stateOrder[i]);
    FewerStates(s, s.states - {s.stateOrder[i]}, s.stateOrder[..i] + s.stateOrder[i + 1..], s.stateOrder[i], event, capacity, low, high);
  }

  lemma RemovedState(states: map<Key, Event>, key: Key)
    ensures forall k :: k in states - {key} <==> k in states && k != key
    ensures forall k | k in states - {key} :: (states - {key})[k] == states[k]
  {
  }

  lemma FewerStates(s: Subscriber, states: map<Key, Event>, order: seq<Key>, key: Key, event: Event, capacity: nat, low: nat, high: nat)
    requires Sound(s, capacity, low, high) && Oldest(s, event) && key in s.states && s.states[key].sequence == event.sequence
    requires forall k :: k in states <==> k in s.states && k != key
    requires forall k | k in states :: states[k] == s.states[k]
    requires Unique(order) && |order| < |s.stateOrder| && forall k :: k in order <==> k in s.stateOrder && k != key
    ensures Sound(s.(states := states, stateOrder := order), capacity, event.sequence, high)
  {
    var t := s.(states := states, stateOrder := order);
    assert OrderMatches(t);
    assert Apart(t);
    assert Pending(t, event.sequence, high);
  }

  lemma RemovedKey(order: seq<Key>, i: nat)
    requires Unique(order) && i < |order|
    ensures Unique(order[..i] + order[i + 1..])
    ensures forall k :: k in order[..i] + order[i + 1..] <==> k in order && k != order[i]
  {
    var less := order[..i] + order[i + 1..];
    forall k | k in order && k != order[i] ensures k in less {
      var j :| 0 <= j < |order| && order[j] == k;
      assert less[if j < i then j else j - 1] == k;
    }
  }

  ghost predicate Consistent(s: Subscriber, capacity: nat, dispatched: seq<Event>, delivered: seq<Event>) {
    && capacity > 0
    && LastSequence(delivered) <= LastSequence(dispatched)
    && Sound(s, capacity, LastSequence(delivered), LastSequence(dispatched))
    && Ascending(delivered)
    && Newest(s, dispatched)
    && Accounted(s, dispatched, delivered)
  }

  lemma StateEnqueued(s: Subscriber, t: Subscriber, capacity: nat, dispatched: seq<Event>, delivered: seq<Event>, e: Event)
    requires Consistent(s, capacity, dispatched, delivered) && LastSequence(dispatched) < e.sequence && Coalesces(e.eventType)
    requires Sound(t, capacity, LastSequence(delivered), e.sequence) && t.logs == s.logs && t.droppedLog == s.droppedLog
    requires forall k | k in t.states :: if k == KeyOf(e) then t.states[k] == e else k in s.states && t.states[k] == s.states[k]
    ensures Consistent(t, capacity, dispatched + [e], delivered)
  {
    StaysAccounted(s, t, dispatched, delivered, e);
    forall k | k in t.states ensures LastOf(dispatched + [e], k) == Some(t.states[k]) { LastOfAppend(dispatched, e, k); }
  }

  lemma QueueEnqueued(s: Subscriber, t: Subscriber, capacity: nat, dispatched: seq<Event>, delivered: seq<Event>, e: Event)
    requires Consistent(s, capacity, dispatched, delivered) && LastSequence(dispatched) < e.sequence && !Coalesces(e.eventType)
    requires t.states == s.states && Sound(t, capacity, LastSequence(delivered), e.sequence)
    requires Accounted(t, dispatched + [e], delivered)
    ensures Consistent(t, capacity, dispatched + [e], delivered)
  {
    forall k | k in t.states ensures LastOf(dispatched + [e], k) == Some(t.states[k]) { LastOfAppend(dispatched, e, k); }
  }

  lemma NoticeAppended(s: Subscriber, event: Event, capacity: nat, low: nat, high: nat)
    requires Sound(s, capacity, low, high) && low <= high < event.sequence && |s.notices| < capacity && event.eventType != Log
    ensures Sound(s.(notices := s.notices + [event]), capacity, low, event.sequence)
  {
  }

  lemma LogAppended(s: Subscriber, t: Subscriber, event: Event, capacity: nat, low: nat, high: nat)
    requires Sound(s, capacity, low, high) && low <= high < event.sequence && event.eventType == Log
    requires t == s.(logs := t.logs, droppedLog := t.droppedLog)
    requires t.logs == s.logs || (|s.logs| < capacity && t.logs == s.logs + [event])
    ensures Sound(t, capacity, low, event.sequence)
  {
  }

  lemma EventDelivered(s: Subscriber, t: Subscriber, event: Event, capacity: nat, dispatched: seq<Event>, delivered: seq<Event>)
    requires Consistent(s, capacity, dispatched, delivered) && Oldest(s, event)
    requires Between(LastSequence(delivered), event, LastSequence(dispatched))
    requires Sound(t, capacity, event.sequence, LastSequence(dispatched))
    requires forall k | k in t.states :: k in s.states && t.states[k] == s.states[k]
    requires Accounted(t, dispatched, delivered + [event])
    ensures Consistent(t, capacity, dispatched, delivered + [event])
  {
    LastIsLargest(delivered);
  }

  lemma LastIsLargest(events: seq<Event>)
    requires Ascending(events)
    ensures forall i | 0 <= i < |events| :: events[i].sequence <= LastSequence(events)
  {
  }

  method OfferState(s: Subscriber, event: Event, capacity: nat, ghost dispatched: seq<Event>, ghost delivered: seq<Event>) returns (r: Subscriber)
    requires Consistent(s, capacity, dispatched, delivered) && LastSequence(dispatched) < event.sequence && Coalesces(event.eventType)
    ensures Consistent(r, capacity, dispatched + [event], delivered)
    ensures KeyOf(event) in r.states && r.states[KeyOf(event)] == event
    ensures KeyOf(event) in s.states ==> r.states.Keys == s.states.Keys
  {
    r := EnqueueState(s, event, capacity, LastSequence(delivered), LastSequence(dispatched));
    StateEnqueued(s, r, capacity, dispatched, delivered, event);
  }

  method OfferLog(s: Subscriber, event: Event, capacity: nat, ghost dispatched: seq<Event>, ghost delivered: seq<Event>) returns (r: Subscriber)
    requires Consistent(s, capacity, dispatched, delivered) && LastSequence(dispatched) < event.sequence && event.eventType == Log
    ensures Consistent(r, capacity, dispatched + [event], delivered)
    ensures |r.logs| == if |s.logs| < capacity then |s.logs| + 1 else |s.logs|
  {
    r := EnqueueLog(s, event, capacity);
    ghost var kept := Counted(s, event);
    LogAppended(s, r, kept, capacity, LastSequence(delivered), LastSequence(dispatched));
    LogIsAccounted(s, r, dispatched, delivered, event, kept);
    QueueEnqueued(s, r, capacity, dispatched, delivered, event);
  }

  method OfferNotice(s: Subscriber, event: Event, capacity: nat, ghost dispatched: seq<Event>, ghost delivered: seq<Event>) returns (r: Subscriber)
    requires Consistent(s, capacity, dispatched, delivered) && LastSequence(dispatched) < event.sequence
    requires event.eventType != Log && !Coalesces(event.eventType)
    ensures Consistent(r, capacity, dispatched + [event], delivered)
    ensures r == if |s.notices| < capacity then s.(notices := s.notices + [event]) else s
  {
    r := EnqueueNotice(s, event, capacity, LastSequence(delivered), LastSequence(dispatched));
    StaysAccounted(s, r, dispatched, delivered, event);
    QueueEnqueued(s, r, capacity, dispatched, delivered, event);
  }

  class EventSubscriber {
    const capacity: nat
    var state: Subscriber

    /** Every event offered and every event handed out, in order. */
    ghost var dispatched: seq<Event>
    ghost var delivered: seq<Event>

    ghost predicate Valid()
      reads this
    {
      Consistent(state, capacity, dispatched, delivered)
    }

    constructor (capacity: nat)
      ensures Valid() && this.capacity == (if capacity < 1 then 1 else capacity)
      ensures dispatched == [] && delivered == []
    {
      this.capacity := if capacity < 1 then 1 else capacity;
      state := Subscriber([], [], map[], [], map[]);
      dispatched, delivered := [], [];
    }

    method Enqueue(event: Event)
      requires Valid() && event.sequence > LastSequence(dispatched)
      modifies this
      ensures Valid() && dispatched == old(dispatched) + [event] && delivered == old(delivered)
      ensures event.eventType.StateChanged? || event.eventType.Status? ==>
        && KeyOf(event) in state.states && state.states[KeyOf(event)] == event
        && (KeyOf(event) in old(state).states ==> state.states.Keys == old(state).states.Keys)
      ensures event.eventType == Log && |old(state).logs| < capacity ==> |state.logs| == |old(state).logs| + 1
      ensures (event.eventType.Discovered? || event.eventType.Removed?) && |old(state).notices| < capacity ==>
        state == old(state).(notices := old(state).notices + [event])
    {
      if Coalesces(event.eventType) {
        state := OfferState(state, event, capacity, dispatched, delivered);
      } else if event.eventType == Log {
        state := OfferLog(state, event, capacity, dispatched, delivered);
      } else {
        state := OfferNotice(state, event, capacity, dispatched, delivered);
      }
      dispatched := dispatched + [event];
    }

    /** Hands out the oldest pending event, if there is any, and removes it. */
    method Deliver() returns (event: Option<Event>)
      requires Valid()
      modifies this
      ensures Valid() && dispatched == old(dispatched)
      ensures event.None? ==> delivered == old(delivered) && state.logs == [] && state.notices == [] && state.states == map[]
      ensures event.Some? ==> delivered == old(delivered) + [event.value] && event.value.sequence > LastSequence(old(delivered))
      ensures event.Some? ==> Oldest(old(state), event.value)
    {
      event, state := TakeOldest(state, capacity, dispatched, delivered);
      if event.Some? { delivered := delivered + [event.value]; }
    }
  }

  lemma TrimmedIsAll(order: seq<Key>, states: map<Key, Event>)
    requires forall k | k in order :: k in states
    ensures Trimmed(order, states) == order
  {
  }

  lemma NothingPending(s: Subscriber)
    requires OrderMatches(s) && forall e :: !Candidate(s, e)
    ensures s.logs == [] && s.notices == [] && s.states == map[]
  {
    if s.logs != [] { assert Candidate(s, s.logs[0]); }
    if s.notices != [] { assert Candidate(s, s.notices[0]); }
    forall k ensures k !in s.states {
      if k in s.states { assert Candidate(s, s.states[k]); }
    }
  }

  /** Popping what Next chose removes exactly that event. */
  lemma PopIsConsistent(s: Subscriber, t: Subscriber, event: Event, capacity: nat, dispatched: seq<Event>, delivered: seq<Event>)
    requires Consistent(s, capacity, dispatched, delivered) && Candidate(s, event)
    requires forall e | Candidate(s, e) :: event.sequence <= e.sequence
    requires HeadIs(s.logs, event) ==> t == s.(logs := s.logs[1..])
    requires !HeadIs(s.logs, event) && HeadIs(s.notices, event) ==> t == s.(notices := s.notices[1..])
    requires !HeadIs(s.logs, event) && !HeadIs(s.notices, event) ==>
      (exists i :: StateAt(s, i, event) && t == WithoutState(s, i)) || (t == s && forall i :: !StateAt(s, i, event))
    ensures Consistent(t, capacity, dispatched, delivered + [event]) && Oldest(s, event)
  {
    var low, high := LastSequence(delivered), LastSequence(dispatched);
    CandidateIsOldest(s, event, capacity, low, high);
    if HeadIs(s.logs, event) {
      HeadIsEvent(s, event, capacity, low, high);
      LogLeaves(s, event, capacity, low, high);
      DeliveredIsAccounted(s, dispatched, delivered);
    } else if HeadIs(s.notices, event) {
      NoticeLeaves(s, event, capacity, low, high);
      StaysAccounted(s, t, dispatched, delivered, event);
    } else {
      StateIsListed(s, event);
      var i :| StateAt(s, i, event) && t == WithoutState(s, i);
      StateLeaves(s, i, event, capacity, low, high);
      StaysAccounted(s, t, dispatched, delivered, event);
    }
    EventDelivered(s, t, event, capacity, dispatched, delivered);
  }

  lemma HeadIsEvent(s: Subscriber, event: Event, capacity: nat, low: nat, high: nat)
    requires Sound(s, capacity, low, high) && Candidate(s, event)
    ensures HeadIs(s.logs, event) ==> event == s.logs[0]
    ensures !HeadIs(s.logs, event) && HeadIs(s.notices, event) ==> event == s.notices[0]
  {
  }

  lemma StateIsListed(s: Subscriber, event: Event)
    requires OrderMatches(s) && Candidate(s, event) && !HeadIs(s.logs, event) && !HeadIs(s.notices, event)
    ensures exists i :: StateAt(s, i, event)
    ensures Coalesces(event.eventType)
  {
    var k :| k in Trimmed(s.stateOrder, s.states) && k in s.states && event == s.states[k];
    var i :| 0 <= i < |s.stateOrder| && s.stateOrder[i] == k;
    assert StateAt(s, i, event);
  }

  method EnqueueNotice(s: Subscriber, event: Event, capacity: nat, ghost low: nat, ghost high: nat) returns (r: Subscriber)
    requires Sound(s, capacity, low, high) && low <= high < event.sequence && event.eventType != Log
    ensures Sound(r, capacity, low, event.sequence)
    ensures r == if |s.notices| < capacity then s.(notices := s.notices + [event]) else s
  {
    r := s;
    if |s.notices| < capacity {
      NoticeAppended(s, event, capacity, low, high);
      r := s.(notices := s.notices + [event]);
    }
  }

  method TakeOldest(s: Subscriber, capacity: nat, ghost dispatched: seq<Event>, ghost delivered: seq<Event>)
    returns (event: Option<Event>, r: Subscriber)
    requires Consistent(s, capacity, dispatched, delivered)
    ensures event.None? ==> r == s && s.logs == [] && s.notices == [] && s.states == map[]
    ensures event.Some? ==> Consistent(r, capacity, dispatched, delivered + [event.value]) && Oldest(s, event.value)
    ensures event.Some? ==> event.value.sequence > LastSequence(delivered)
  {
    event, r := Next(s);
    TrimmedIsAll(s.stateOrder, s.states);
    if event.None? {
      NothingPending(s);
      return;
    }
    CandidateIsOldest(s, event.value, capacity, LastSequence(delivered), LastSequence(dispatched));
    r := Pop(r, event.value);
    PopIsConsistent(s, r, event.value, capacity, dispatched, delivered);
  }

  datatype Step = Publish(eventType: EventType, plugin: string, content: string, dropped: Counter) | Take

  /** The publications of a run, numbered 1, 2, ... by the hub. */
  function Published(steps: seq<Step>): seq<Event> {
    if steps == [] then []
    else
      var before := Published(steps[..|steps| - 1]);
      match steps[|steps| - 1]
      case Publish(eventType, plugin, content, dropped) => before + [Event(|before| + 1, eventType, plugin, content, dropped)]
      case Take => before
  }

  lemma PublishedNext(steps: seq<Step>, i: nat)
    requires i < |steps|
    ensures Published(steps[..i + 1]) == match steps[i]
      case Publish(eventType, plugin, content, dropped) =>
        Published(steps[..i]) + [Event(|Published(steps[..i])| + 1, eventType, plugin, content, dropped)]
      case Take => Published(steps[..i])
  {
    assert steps[..i + 1][..i] == steps[..i];
  }

  /** The hub numbers and publishes an event, or the subscriber takes one. */
  method Advance(subscriber: EventSubscriber, step: Step, sequence: nat, delivered: seq<Event>)
    returns (next: nat, taken: seq<Event>)
    requires subscriber.Valid() && subscriber.delivered == delivered
    requires sequence == |subscriber.dispatched| == LastSequence(subscriber.dispatched)
    modifies subscriber
    ensures subscriber.Valid() && subscriber.delivered == taken
    ensures next == |subscriber.dispatched| == LastSequence(subscriber.dispatched)
    ensures subscriber.dispatched == old(subscriber.dispatched) + match step
      case Publish(eventType, plugin, content, dropped) => [Event(sequence + 1, eventType, plugin, content, dropped)]
      case Take => []
  {
    next, taken := sequence, delivered;
    match step {
      case Publish(eventType, plugin, content, dropped) =>
        next := sequence + 1;
        subscriber.Enqueue(Event(next, eventType, plugin, content, dropped));
      case Take =>
        var event := subscriber.Deliver();
        if event.Some? { taken := taken + [event.value]; }
    }
  }

  /**
   Every run of publications and deliveries: sequence numbers come out strictly
   increasing, the queues stay bounded and consistent, a pending state event is the
   newest of its key, and no log record is lost without being counted.
   */
  method RunSubscriber(capacity: nat, steps: seq<Step>) returns (delivered: seq<Event>, pending: Subscriber)
    ensures Ascending(delivered)
    ensures OrderMatches(pending) && Bounded(pending, if capacity < 1 then 1 else capacity)
    ensures Newest(pending, Published(steps))
    ensures Accounted(pending, Published(steps), delivered)
  {
    var subscriber := new EventSubscriber(capacity);
    var sequence := 0;
    delivered := [];
    for i := 0 to |steps|
      invariant fresh(subscriber) && subscriber.Valid()
      invariant subscriber.dispatched == Published(steps[..i]) && subscriber.delivered == delivered
      invariant sequence == |subscriber.dispatched| == LastSequence(subscriber.dispatched)
    {
      PublishedNext(steps, i);
      sequence, delivered := Advance(subscriber, steps[i], sequence, delivered);
    }
    assert steps[..|steps|] == steps;
    pending := subscriber.state;
  }
}
