/**
 The merge service: per-plugin sources, sticky routing per group, and a stream of
 merged frames with a saturating sequence. The clock is read through parameters;
 each mutex-protected method is one atomic step.
 */
module Tracking {
  import opened Common
  import opened TrackingModel

  /** A reading of the host clock. */
  type Clock = t: int | -0x8000_0000_0000_0000 <= t <= MAX_INT64

  datatype SourceSelection = SourceSelection(auto: bool, pluginID: string)

  datatype RoutingConfig = RoutingConfig(eye: SourceSelection, expression: SourceSelection, lip: SourceSelection)

  datatype SourceState = SourceState(
    frame: TrackingFrame, receivedAtNS: int, lastSequence: nat, lastTimestampNS: int, lastSourceClockNS: int)

  type Sources = map<string, SourceState>

  datatype MergedFrame = MergedFrame(
    generation: nat, sequence: nat, updatedAtNS: int,
    capabilities: set<Capability>, eye: EyeSample, expressions: ExpressionSet,
    eyeSource: string, expressionSource: string, lipSource: string,
    eyeUpdatedAtNS: int, expressionUpdatedAtNS: int, lipUpdatedAtNS: int)

  datatype TrackingError =
    | NoError | ErrGenerationZero | ErrGenerationRegression | ErrGenerationUnset
    | ErrStaleGeneration | ErrFutureGeneration | ErrInvalidPluginID | ErrInvalidFrame
    | ErrSequenceNotIncreasing | ErrTimestampRegression | ErrSourceClockRegression | ErrInvalidRouting

  // ---- Byte-wise string order ----

  predicate Less(a: string, b: string) {
    if b == "" then false
    else if a == "" then true
    else a[0] < b[0] || (a[0] == b[0] && Less(a[1..], b[1..]))
  }

  lemma {:induction false} LessIsTotal(a: string, b: string)
    ensures a == b || Less(a, b) || Less(b, a)
  {
    if a != "" && b != "" && a[0] == b[0] {
      LessIsTotal(a[1..], b[1..]);
      assert a == [a[0]] + a[1..] && b == [b[0]] + b[1..];
    }
  }

  lemma {:induction false} LessIsTransitive(a: string, b: string, c: string)
    requires Less(a, b) && Less(b, c)
    ensures Less(a, c)
  {
    if a != "" && b[0] == c[0] && a[0] == b[0] { LessIsTransitive(a[1..], b[1..], c[1..]); }
  }

  lemma {:induction false} LessIsIrreflexive(a: string)
    ensures !Less(a, a)
  {
    if a != "" { LessIsIrreflexive(a[1..]); }
  }

  /** At position k, after a common beginning, a ends or has the smaller character. */
  predicate DiffersAt(a: string, b: string, k: nat) {
    k <= |a| && k < |b| && (forall i | 0 <= i < k :: a[i] == b[i]) && (k == |a| || a[k] < b[k])
  }

  /** The order of dictionaries. */
  lemma {:induction false} LessIsLexicographic(a: string, b: string)
    ensures Less(a, b) <==> exists k: nat :: DiffersAt(a, b, k)
  {
    if a == "" || b == "" {
      if b != "" { assert DiffersAt(a, b, 0); }
    } else if a[0] != b[0] {
      if a[0] < b[0] { assert DiffersAt(a, b, 0); }
      forall k: nat | DiffersAt(a, b, k) ensures k == 0 {
      }
    } else {
      LessIsLexicographic(a[1..], b[1..]);
      if k: nat :| DiffersAt(a[1..], b[1..], k) {
        forall i | 0 < i < k + 1 ensures a[i] == b[i] { assert a[1..][i - 1] == b[1..][i - 1]; }
        assert DiffersAt(a, b, k + 1);
      }
      if k: nat :| DiffersAt(a, b, k) {
        assert DiffersAt(a[1..], b[1..], k - 1);
      }
    }
  }

  // ---- Source selection ----

  predicate Capable(sources: Sources, id: string, capability: Capability) {
    id in sources && capability in sources[id].frame.capabilities
  }

  ghost predicate IsLeast(ids: set<string>, id: string) {
    id in ids && forall other | other in ids :: other == id || Less(id, other)
  }

  lemma {:induction false} LeastExists(ids: set<string>)
    requires ids != {}
    ensures exists id :: IsLeast(ids, id)
    decreases ids
  {
    var x :| x in ids;
    var rest := ids - {x};
    if rest == {} {
      assert ids == {x};
      assert IsLeast(ids, x);
    } else {
      LeastExists(rest);
      var y :| IsLeast(rest, y);
      LessIsTotal(x, y);
      if Less(x, y) {
        forall other | other in ids ensures other == x || Less(x, other) {
          if other != x && other != y { LessIsTransitive(x, y, other); }
        }
        assert IsLeast(ids, x);
      } else {
        assert IsLeast(ids, y);
      }
    }
  }

  lemma LeastIsUnique(ids: set<string>, a: string, b: string)
    requires IsLeast(ids, a) && IsLeast(ids, b)
    ensures a == b
  {
    if a != b {
      LessIsTransitive(a, b, a);
      LessIsIrreflexive(a);
    }
  }

  ghost function CapableSources(sources: Sources, capability: Capability): set<string> {
    set id | id in sources && Capable(sources, id, capability)
  }

  ghost function Least(ids: set<string>): string {
    if ids == {} then "" else
      LeastExists(ids);
      var id :| IsLeast(ids, id);
      id
  }

  /** Automatic routing keeps the current source while it stays capable, else takes the least capable one, else none. */
  ghost function Resolve(selection: SourceSelection, current: string, sources: Sources, capability: Capability): string {
    if selection.auto then
      if Capable(sources, current, capability) then current else Least(CapableSources(sources, capability))
    else if Capable(sources, selection.pluginID, capability) then selection.pluginID else ""
  }

  /** A selection is empty iff no source (or not the manually chosen one) is capable; otherwise it is capable. */
  lemma ResolveMeaning(selection: SourceSelection, current: string, sources: Sources, capability: Capability)
    requires "" !in sources
    ensures var choice := Resolve(selection, current, sources, capability);
            && (choice != "" ==> Capable(sources, choice, capability))
            && (selection.auto ==> (choice == "" <==> forall id :: !Capable(sources, id, capability)))
            && (selection.auto && choice != current ==> !Capable(sources, current, capability))
            && (!selection.auto && choice != "" ==> choice == selection.pluginID)
  {
    var ids := CapableSources(sources, capability);
    if ids != {} { LeastExists(ids); }
    assert forall id :: Capable(sources, id, capability) <==> id in ids;
  }

  /** Resolving again from what was just chosen chooses the same. */
  lemma ResolveIsStable(selection: SourceSelection, current: string, sources: Sources, capability: Capability)
    requires "" !in sources
    ensures var choice := Resolve(selection, current, sources, capability);
            Resolve(selection, choice, sources, capability) == choice
  {
    ResolveMeaning(selection, current, sources, capability);
  }

  /** `chooseAutoSource`: whatever order the map is walked in, the result is the same. */
  method ChooseAutoSource(current: string, sources: Sources, capability: Capability) returns (selected: string)
    requires "" !in sources
    ensures selected == Resolve(SourceSelection(true, ""), current, sources, capability)
  {
    if Capable(sources, current, capability) { return current; }
    selected := "";
    var remaining := sources.Keys;
    ghost var seen: set<string> := {};
    while remaining != {}
      invariant remaining <= sources.Keys
      invariant seen == set id | id in sources.Keys - remaining && Capable(sources, id, capability)
      invariant if seen == {} then selected == "" else IsLeast(seen, selected)
      decreases remaining
    {
      var id :| id in remaining;
      remaining := remaining - {id};
      if Capable(sources, id, capability) {
        if selected == "" || Less(id, selected) {
          forall other | other in seen ensures Less(id, other) {
            if other != selected { LessIsTransitive(id, selected, other); }
          }
          selected := id;
        } else {
          LessIsTotal(id, selected);
        }
        seen := seen + {id};
      }
    }
    assert seen == CapableSources(sources, capability);
    if seen != {} {
      LeastExists(seen);
      LeastIsUnique(seen, selected, Least(seen));
    }
  }

  method ResolveSource(selection: SourceSelection, current: string, sources: Sources, capability: Capability)
    returns (choice: string)
    requires "" !in sources
    ensures choice == Resolve(selection, current, sources, capability)
  {
    if selection.auto {
      choice := ChooseAutoSource(current, sources, capability);
    } else {
      choice := if Capable(sources, selection.pluginID, capability) then selection.pluginID else "";
    }
  }

  predicate SelectionValid(s: SourceSelection) {
    s.auto <==> s.pluginID == ""
  }

  predicate RoutingValid(r: RoutingConfig) {
    SelectionValid(r.eye) && SelectionValid(r.expression) && SelectionValid(r.lip)
  }

  // ---- The pure merge ----

  /** The frame that the selected sources merge to, before it gets a sequence and a time. */
  function Merge(generation: nat, sources: Sources, eye: string, expression: string, lip: string): MergedFrame
    requires eye != "" ==> eye in sources
    requires expression != "" ==> expression in sources
    requires lip != "" ==> lip in sources
  {
    MergedFrame(
      generation, 0, 0,
      (if eye != "" then {CapEye} else {}) + (if expression != "" then {CapExpression} else {}) + (if lip != "" then {CapLip} else {}),
      if eye != "" then sources[eye].frame.eye else EMPTY_EYE,
      if expression != "" then sources[expression].frame.expressions else EmptyExpressions(),
      eye, expression, lip,
      if eye != "" then sources[eye].receivedAtNS else 0,
      if expression != "" then sources[expression].receivedAtNS else 0,
      if lip != "" then sources[lip].receivedAtNS else 0)
  }

  /** The content of a merged frame, without its sequence and time. */
  function Content(f: MergedFrame): MergedFrame {
    f.(sequence := 0, updatedAtNS := 0)
  }

  // ---- Published streams ----

  ghost predicate GroupWellFormed(capable: bool, source: string, at: int, updatedAt: int) {
    if capable then source != "" && 0 < at <= updatedAt else source == "" && at == 0
  }

  /** What every published frame satisfies on its own. */
  ghost predicate WellFormed(f: MergedFrame) {
    && f.generation > 0 && 0 < f.sequence <= MAX_UINT64 && 0 <= f.updatedAtNS <= MAX_INT64
    && f.capabilities <= KNOWN_CAPABILITIES
    && PayloadValid(f.capabilities, f.eye, f.expressions)
    && GroupWellFormed(CapEye in f.capabilities, f.eyeSource, f.eyeUpdatedAtNS, f.updatedAtNS)
    && GroupWellFormed(CapExpression in f.capabilities, f.expressionSource, f.expressionUpdatedAtNS, f.updatedAtNS)
    && GroupWellFormed(CapLip in f.capabilities, f.lipSource, f.lipUpdatedAtNS, f.updatedAtNS)
    && (CapEye !in f.capabilities ==> f.eye == EMPTY_EYE)
    && (CapExpression !in f.capabilities ==> f.expressions == EmptyExpressions())
  }

  ghost predicate GroupFollows(a: string, at: int, b: string, bt: int) {
    a != "" && a == b ==> at <= bt
  }

  /** How a later published frame relates to an earlier one. */
  ghost predicate Follows(a: MergedFrame, b: MergedFrame) {
    && a.generation <= b.generation
    && a.updatedAtNS <= b.updatedAtNS
    && (a.sequence < b.sequence || a.sequence == b.sequence == MAX_UINT64)
    && (a.generation == b.generation ==>
          && GroupFollows(a.eyeSource, a.eyeUpdatedAtNS, b.eyeSource, b.eyeUpdatedAtNS)
          && GroupFollows(a.expressionSource, a.expressionUpdatedAtNS, b.expressionSource, b.expressionUpdatedAtNS)
          && GroupFollows(a.lipSource, a.lipUpdatedAtNS, b.lipSource, b.lipUpdatedAtNS))
  }

  ghost predicate Stream(frames: seq<MergedFrame>) {
    && (forall f | f in frames :: WellFormed(f))
    && (forall i, j | 0 <= i < j < |frames| :: Follows(frames[i], frames[j]))
  }

  // ---- The service ----

  /** The service's mutable fields. */
  datatype ServiceState = ServiceState(
    generation: nat, routing: RoutingConfig, sources: Sources,
    eyeSource: string, expressionSource: string, lipSource: string,
    mergedSequence: int, lastHostTimeNS: int, latest: MergedFrame, hasLatest: bool,
    acceptedFrames: int, rejectedFrames: int)

  ghost predicate SourcesValid(sources: Sources, now: int) {
    forall id | id in sources ::
      && id != "" && 0 < sources[id].receivedAtNS <= now
      && sources[id].frame.Valid() && Canonicalize(sources[id].frame) == sources[id].frame
  }

  ghost predicate Selected(s: ServiceState, current: string, selection: SourceSelection, capability: Capability, id: string) {
    id == Resolve(selection, current, s.sources, capability) && (id != "" ==> Capable(s.sources, id, capability))
  }

  /** The selected sources are capable and are what the routing asks for. */
  ghost predicate SelectionsValid(s: ServiceState) {
    && Selected(s, s.eyeSource, s.routing.eye, CapEye, s.eyeSource)
    && Selected(s, s.expressionSource, s.routing.expression, CapExpression, s.expressionSource)
    && Selected(s, s.lipSource, s.routing.lip, CapLip, s.lipSource)
  }

  /** s selects what its routing and sources make of the earlier selections of old. */
  ghost predicate Reselected(before: ServiceState, s: ServiceState) {
    && Selected(s, before.eyeSource, s.routing.eye, CapEye, s.eyeSource)
    && Selected(s, before.expressionSource, s.routing.expression, CapExpression, s.expressionSource)
    && Selected(s, before.lipSource, s.routing.lip, CapLip, s.lipSource)
  }

  predicate SelectionDiffers(s: ServiceState, t: ServiceState) {
    t.eyeSource != s.eyeSource || t.expressionSource != s.expressionSource || t.lipSource != s.lipSource
  }

  /** What was published is the next of its sequence, at the time of the clock or at the last time if that is later. */
  predicate Stamped(s: ServiceState, now: int, t: ServiceState) {
    && t.hasLatest && t.latest.sequence == t.mergedSequence == (if s.mergedSequence < MAX_UINT64 then s.mergedSequence + 1 else MAX_UINT64)
    && t.latest.updatedAtNS == t.lastHostTimeNS && t.lastHostTimeNS == if now < s.lastHostTimeNS then s.lastHostTimeNS else now
  }

  /** A merge is published if it is forced or shows something else than the latest one; the latest frame is what is merged now. */
  predicate Republished(s: ServiceState, before: seq<MergedFrame>, force: bool, t: ServiceState, after: seq<MergedFrame>) {
    && (if force || Content(t.latest) != Content(s.latest) then after == before + [t.latest] else after == before && t.latest == s.latest)
    && t.latest.sequence == if |after| > |before| && s.latest.sequence < MAX_UINT64 then s.latest.sequence + 1 else s.latest.sequence
  }

  /** When a frame is received: at the clock's time if that is later than all before, else as soon after as can be told apart. */
  function ReceiptTime(s: ServiceState, now: int): int {
    if now > s.lastHostTimeNS then now else s.lastHostTimeNS + 1
  }

  /** A published source time never exceeds the time of that source's current frame. */
  ghost predicate TimesBounded(sources: Sources, source: string, at: int) {
    source in sources ==> at <= sources[source].receivedAtNS
  }

  ghost predicate Behind(s: ServiceState, f: MergedFrame) {
    && f.generation <= s.generation && f.sequence <= s.mergedSequence && f.updatedAtNS <= s.lastHostTimeNS
    && (f.generation == s.generation ==>
          && TimesBounded(s.sources, f.eyeSource, f.eyeUpdatedAtNS)
          && TimesBounded(s.sources, f.expressionSource, f.expressionUpdatedAtNS)
          && TimesBounded(s.sources, f.lipSource, f.lipUpdatedAtNS))
  }

  ghost predicate Consistent(s: ServiceState, published: seq<MergedFrame>) {
    && RoutingValid(s.routing)
    && 0 <= s.mergedSequence <= MAX_UINT64 && 0 <= s.lastHostTimeNS <= MAX_INT64
    && SourcesValid(s.sources, s.lastHostTimeNS)
    && Stream(published) && (forall f | f in published :: Behind(s, f))
    && (s.hasLatest <==> s.generation > 0)
    && (s.generation == 0 ==> s.sources == map[] && published == [])
    && (s.generation > 0 ==>
          && published != [] && published[|published| - 1] == s.latest && s.latest.sequence == s.mergedSequence
          && SelectionsValid(s)
          && Content(s.latest) == Merge(s.generation, s.sources, s.eyeSource, s.expressionSource, s.lipSource))
    && (s.generation == 0 ==> s.eyeSource == "" && s.expressionSource == "" && s.lipSource == "")
  }

  /** Appending a frame that the current state produced keeps the stream in order. */
  lemma PublishKeepsStream(s: ServiceState, published: seq<MergedFrame>, f: MergedFrame)
    requires Stream(published) && (forall g | g in published :: Behind(s, g))
    requires WellFormed(f) && f.generation == s.generation && s.lastHostTimeNS <= f.updatedAtNS
    requires f.sequence == (if s.mergedSequence < MAX_UINT64 then s.mergedSequence + 1 else MAX_UINT64)
    requires 0 <= s.mergedSequence <= MAX_UINT64
    requires f.eyeSource != "" ==> f.eyeSource in s.sources && f.eyeUpdatedAtNS == s.sources[f.eyeSource].receivedAtNS
    requires f.expressionSource != "" ==>
               f.expressionSource in s.sources && f.expressionUpdatedAtNS == s.sources[f.expressionSource].receivedAtNS
    requires f.lipSource != "" ==> f.lipSource in s.sources && f.lipUpdatedAtNS == s.sources[f.lipSource].receivedAtNS
    ensures Stream(published + [f])
  {
    var longer := published + [f];
    forall i, j | 0 <= i < j < |longer| ensures Follows(longer[i], longer[j]) {
      if j == |published| { assert longer[i] in published; }
    }
  }

  /** Ready to publish: the state is in order and its selections are current. */
  ghost predicate Publishable(s: ServiceState, published: seq<MergedFrame>) {
    && RoutingValid(s.routing)
    && 0 <= s.mergedSequence <= MAX_UINT64 && 0 <= s.lastHostTimeNS <= MAX_INT64
    && SourcesValid(s.sources, s.lastHostTimeNS)
    && Stream(published) && (forall f | f in published :: Behind(s, f))
    && s.generation > 0 && SelectionsValid(s)
  }

  function Published(s: ServiceState, at: int): ServiceState
    requires s.eyeSource != "" ==> s.eyeSource in s.sources
    requires s.expressionSource != "" ==> s.expressionSource in s.sources
    requires s.lipSource != "" ==> s.lipSource in s.sources
  {
    var sequence := if s.mergedSequence < MAX_UINT64 then s.mergedSequence + 1 else s.mergedSequence;
    s.(mergedSequence := sequence, lastHostTimeNS := at, hasLatest := true,
       latest := Merge(s.generation, s.sources, s.eyeSource, s.expressionSource, s.lipSource)
                 .(sequence := if sequence >= 0 then sequence else 0, updatedAtNS := at))
  }

  lemma PublishConsistent(s: ServiceState, published: seq<MergedFrame>, at: int)
    requires Publishable(s, published) && s.lastHostTimeNS <= at <= MAX_INT64
    ensures Consistent(Published(s, at), published + [Published(s, at).latest])
  {
    var t := Published(s, at);
    MergeIsWellFormed(t, t.latest);
    PublishKeepsStream(s, published, t.latest);
    forall f | f in published + [t.latest] ensures Behind(t, f) {
      if f in published { assert Behind(s, f); }
    }
  }

  /** Nothing merged yet, and every group routed automatically. */
  function NewService(): ServiceState {
    var auto := SourceSelection(true, "");
    ServiceState(0, RoutingConfig(auto, auto, auto), map[], "", "", "", 0, 0,
                 MergedFrame(0, 0, 0, {}, EMPTY_EYE, EmptyExpressions(), "", "", "", 0, 0, 0), false, 0, 0)
  }

  class Service {
    var state: ServiceState

    // Every frame offered to the subscribers, in order.
    var published: seq<MergedFrame>

    ghost predicate Valid()
      reads this
    {
      Consistent(state, published)
    }

    constructor ()
      ensures Valid() && state == NewService() && published == []
    {
      state := NewService();
      published := [];
    }

    /** `nextTimeLocked`: the host clock, never running backwards. */
    method NextTime(now: Clock) returns (at: int)
      modifies this`state
      ensures at == (if now < old(state.lastHostTimeNS) then old(state.lastHostTimeNS) else now)
      ensures state == old(state).(lastHostTimeNS := at)
    {
      if now < state.lastHostTimeNS { return state.lastHostTimeNS; }
      state := state.(lastHostTimeNS := now);
      return now;
    }

    /** `nextReceiptTimeLocked`: strictly after every earlier time unless the clock is exhausted. */
    method NextReceiptTime(now: Clock) returns (at: int)
      requires 0 <= state.lastHostTimeNS <= MAX_INT64
      modifies this`state
      ensures 0 < at <= MAX_INT64 && state == old(state).(lastHostTimeNS := at)
      ensures at >= now && at >= old(state.lastHostTimeNS)
      ensures old(state.lastHostTimeNS) < MAX_INT64 ==> at > old(state.lastHostTimeNS)
      ensures old(state.lastHostTimeNS) < MAX_INT64 ==> at == ReceiptTime(old(state), now)
    {
      if now <= state.lastHostTimeNS {
        if state.lastHostTimeNS < MAX_INT64 {
          state := state.(lastHostTimeNS := state.lastHostTimeNS + 1);
        }
        return state.lastHostTimeNS;
      }
      state := state.(lastHostTimeNS := now);
      return now;
    }

    /** `recomputeMergedLocked`: reselects the sources and publishes unless nothing changed. */
    method Recompute(force: bool, now: Clock) returns (changed: bool)
      requires Recomputable(state, published)
      modifies this
      ensures Valid()
      ensures state.generation == old(state.generation) && state.routing == old(state.routing) && state.sources == old(state.sources)
      ensures Reselected(old(state), state)
      ensures Republished(old(state), old(published), force, state, published) && (changed <==> |published| > |old(published)|)
      ensures if changed then Stamped(old(state), now, state)
              else state.latest == old(state.latest) && state.mergedSequence == old(state.mergedSequence)
                   && state.lastHostTimeNS == old(state.lastHostTimeNS)
      ensures state.acceptedFrames == old(state.acceptedFrames) && state.rejectedFrames == old(state.rejectedFrames)
    {
      var selectionChanged := Reselect();
      var next := Merge(state.generation, state.sources, state.eyeSource, state.expressionSource, state.lipSource);
      changed := force || selectionChanged || !state.hasLatest || Content(state.latest) != next;
      if changed { Publish(next, now); }
    }

    method Reselect() returns (selectionChanged: bool)
      requires "" !in state.sources
      modifies this`state
      ensures state == old(state).(eyeSource := state.eyeSource, expressionSource := state.expressionSource, lipSource := state.lipSource)
      ensures Reselected(old(state), state) && SelectionsValid(state)
      ensures selectionChanged <==> SelectionDiffers(old(state), state)
    {
      var eye := ResolveSource(state.routing.eye, state.eyeSource, state.sources, CapEye);
      var expression := ResolveSource(state.routing.expression, state.expressionSource, state.sources, CapExpression);
      var lip := ResolveSource(state.routing.lip, state.lipSource, state.sources, CapLip);
      ResolveMeaning(state.routing.eye, state.eyeSource, state.sources, CapEye);
      ResolveMeaning(state.routing.expression, state.expressionSource, state.sources, CapExpression);
      ResolveMeaning(state.routing.lip, state.lipSource, state.sources, CapLip);
      ResolveIsStable(state.routing.eye, state.eyeSource, state.sources, CapEye);
      ResolveIsStable(state.routing.expression, state.expressionSource, state.sources, CapExpression);
      ResolveIsStable(state.routing.lip, state.lipSource, state.sources, CapLip);
      selectionChanged := eye != state.eyeSource || expression != state.expressionSource || lip != state.lipSource;
      state := state.(eyeSource := eye, expressionSource := expression, lipSource := lip);
    }

    /** Gives the merged content the next sequence and time and publishes it. */
    method Publish(content: MergedFrame, now: Clock)
      requires Publishable(state, published)
      requires content == Merge(state.generation, state.sources, state.eyeSource, state.expressionSource, state.lipSource)
      modifies this
      ensures Valid() && published == old(published) + [state.latest] && Stamped(old(state), now, state)
      ensures state == Published(old(state), state.lastHostTimeNS)
    {
      ghost var before := state;
      if state.mergedSequence < MAX_UINT64 {
        state := state.(mergedSequence := state.mergedSequence + 1);
      }
      var at := NextTime(now);
      state := state.(latest := content.(sequence := state.mergedSequence, updatedAtNS := at), hasLatest := true);
      PublishConsistent(before, published, at);
      published := published + [state.latest];
    }

    /** `SetGeneration`: generations only grow; a new one drops every source and publishes an empty frame. */
    method SetGeneration(generation: nat, now: Clock) returns (r: TrackingError)
      requires Valid()
      modifies this
      ensures Valid()
      ensures r == if generation == 0 then ErrGenerationZero
                   else if generation < old(state.generation) then ErrGenerationRegression else NoError
      ensures r != NoError || generation == old(state.generation) ==> state == old(state) && published == old(published)
      ensures state.routing == old(state.routing)
      ensures r == NoError && generation != old(state.generation) ==>
                && state.generation == generation && state.sources == map[]
                && state.eyeSource == "" && state.expressionSource == "" && state.lipSource == ""
                && published == old(published) + [state.latest] && state.latest.capabilities == {}
    {
      if generation == 0 { return ErrGenerationZero; }
      if generation < state.generation { return ErrGenerationRegression; }
      if generation == state.generation { return NoError; }
      state := state.(generation := generation, sources := map[], eyeSource := "", expressionSource := "", lipSource := "");
      Publish(MergedFrame(generation, 0, 0, {}, EMPTY_EYE, EmptyExpressions(), "", "", "", 0, 0, 0), now);
      return NoError;
    }

    /** `Submit`: an accepted frame replaces its source and is merged; a rejected one changes only the counter. */
    method Submit(pluginID: string, generation: nat, frame: TrackingFrame, receiptNow: Clock, mergeNow: Clock)
      returns (r: TrackingError)
      requires Valid()
      modifies this
      ensures Valid()
      ensures r == Rejection(old(state), pluginID, generation, frame)
      ensures r != NoError ==>
                && published == old(published)
                && state == old(state).(rejectedFrames := SaturatingAdd(old(state.rejectedFrames), 1))
      ensures r == NoError ==>
                && generation == state.generation == old(state.generation) && state.routing == old(state.routing)
                && pluginID in state.sources && state.sources == old(state.sources)[pluginID := state.sources[pluginID]]
                && state.sources[pluginID] == Stored(old(state.sources), pluginID, Canonicalize(frame), state.sources[pluginID].receivedAtNS)
                && state.sources[pluginID].receivedAtNS == ReceiptTime(old(state), receiptNow)
                && state.acceptedFrames == SaturatingAdd(old(state.acceptedFrames), 1) && state.rejectedFrames == old(state.rejectedFrames)
      ensures r == NoError ==> Reselected(old(state), state)
      ensures r == NoError ==>
                Republished(old(state), old(published),
                            pluginID in {old(state.eyeSource), old(state.expressionSource), old(state.lipSource)}, state, published)
    {
      r := Rejection(state, pluginID, generation, frame);
      if r != NoError {
        state := state.(rejectedFrames := SaturatingAdd(state.rejectedFrames, 1));
        return;
      }
      CanonicalIsValid(frame);
      CanonicalizeTwice(frame);
      Accept(pluginID, Canonicalize(frame), receiptNow, mergeNow);
    }

    /** Stores an accepted frame, merges it, and publishes at least when it belongs to a selected source. */
    method Accept(pluginID: string, canonical: TrackingFrame, receiptNow: Clock, mergeNow: Clock)
      requires Valid() && state.generation > 0 && pluginID != "" && state.lastHostTimeNS < MAX_INT64
      requires canonical.Valid() && Canonicalize(canonical) == canonical
      modifies this
      ensures Valid()
      ensures state.generation == old(state.generation) && state.routing == old(state.routing)
      ensures pluginID in state.sources && state.sources == old(state.sources)[pluginID := state.sources[pluginID]]
      ensures state.sources[pluginID] == Stored(old(state.sources), pluginID, canonical, state.sources[pluginID].receivedAtNS)
      ensures state.sources[pluginID].receivedAtNS == ReceiptTime(old(state), receiptNow) && state.rejectedFrames == old(state.rejectedFrames)
      ensures Reselected(old(state), state)
      ensures state.acceptedFrames == SaturatingAdd(old(state.acceptedFrames), 1)
      ensures Republished(old(state), old(published),
                          pluginID in {old(state.eyeSource), old(state.expressionSource), old(state.lipSource)}, state, published)
    {
      var selected := pluginID == state.eyeSource || pluginID == state.expressionSource || pluginID == state.lipSource;
      Receive(pluginID, canonical, receiptNow);
      state := state.(acceptedFrames := SaturatingAdd(state.acceptedFrames, 1));
      var changed := Recompute(selected, mergeNow);
    }

    /** Stores an accepted frame under its plugin with a fresh receipt time. */
    method Receive(pluginID: string, canonical: TrackingFrame, now: Clock)
      requires Valid() && state.generation > 0 && pluginID != "" && state.lastHostTimeNS < MAX_INT64
      requires canonical.Valid() && Canonicalize(canonical) == canonical
      modifies this`state
      ensures Recomputable(state, published)
      ensures state == old(state).(sources := state.sources, lastHostTimeNS := state.lastHostTimeNS)
      ensures pluginID in state.sources && state.sources == old(state.sources)[pluginID := state.sources[pluginID]]
      ensures state.sources[pluginID] == Stored(old(state.sources), pluginID, canonical, state.lastHostTimeNS)
      ensures state.lastHostTimeNS == ReceiptTime(old(state), now) > old(state.lastHostTimeNS)
    {
      ghost var before := state;
      var at := NextReceiptTime(now);
      var source := Stored(state.sources, pluginID, canonical, at);
      ReceiptKeepsBehind(before, published, pluginID, source);
      state := state.(sources := state.sources[pluginID := source]);
    }

    /** `SetRouting`: an accepted new routing is merged at once. */
    method SetRouting(config: RoutingConfig, now: Clock) returns (r: TrackingError)
      requires Valid()
      modifies this
      ensures Valid()
      ensures r == if RoutingValid(config) then NoError else ErrInvalidRouting
      ensures state.routing == if r == NoError then config else old(state.routing)
      ensures state.generation == old(state.generation) && state.sources == old(state.sources)
      ensures Reselected(old(state), state)
      ensures r != NoError || config == old(state.routing) ==> state == old(state) && published == old(published)
      ensures r == NoError && config != old(state.routing) && state.generation == 0 ==>
                state == old(state).(routing := config) && published == old(published)
      ensures r == NoError && config != old(state.routing) && state.generation > 0 ==>
                Republished(old(state), old(published), true, state, published)
    {
      if !RoutingValid(config) { return ErrInvalidRouting; }
      r := NoError;
      if config == state.routing { return; }
      state := state.(routing := config);
      if state.generation == 0 { return; }
      var changed := Recompute(true, now);
    }

    /** `RemoveSource`: forgets one source; its selections are remade. */
    method RemoveSource(pluginID: string, now: Clock)
      requires Valid()
      modifies this
      ensures Valid()
      ensures state.generation == old(state.generation) && state.routing == old(state.routing)
      ensures state.sources == old(state.sources) - {pluginID} && Reselected(old(state), state)
      ensures pluginID !in {state.eyeSource, state.expressionSource, state.lipSource} || pluginID == ""
      ensures pluginID !in old(state.sources) ==> state == old(state) && published == old(published)
      ensures Republished(old(state), old(published), false, state, published)
    {
      if pluginID == "" || pluginID !in state.sources { return; }
      Forget(pluginID, now);
    }

    method Forget(pluginID: string, now: Clock)
      requires Valid() && pluginID in state.sources
      modifies this
      ensures Valid()
      ensures state.generation == old(state.generation) && state.routing == old(state.routing)
      ensures state.sources == old(state.sources) - {pluginID} && Reselected(old(state), state)
      ensures Republished(old(state), old(published), false, state, published)
    {
      RemovalKeepsBehind(state, published, pluginID);
      state := state.(sources := state.sources - {pluginID});
      var changed := Recompute(false, now);
    }
  }

  /** The state a recomputation starts from: valid except that the selections and the latest frame may be out of date. */
  ghost predicate Recomputable(s: ServiceState, published: seq<MergedFrame>) {
    && RoutingValid(s.routing)
    && 0 <= s.mergedSequence <= MAX_UINT64 && 0 <= s.lastHostTimeNS <= MAX_INT64
    && SourcesValid(s.sources, s.lastHostTimeNS)
    && Stream(published) && (forall f | f in published :: Behind(s, f))
    && s.generation > 0 && s.hasLatest
    && published != [] && published[|published| - 1] == s.latest && s.latest.sequence == s.mergedSequence
    && s.latest.eyeSource == s.eyeSource && s.latest.expressionSource == s.expressionSource && s.latest.lipSource == s.lipSource
  }

  lemma MergeIsWellFormed(s: ServiceState, f: MergedFrame)
    requires SourcesValid(s.sources, s.lastHostTimeNS) && s.generation > 0
    requires 0 < s.mergedSequence <= MAX_UINT64 && 0 <= s.lastHostTimeNS <= MAX_INT64
    requires s.eyeSource != "" ==> Capable(s.sources, s.eyeSource, CapEye)
    requires s.expressionSource != "" ==> Capable(s.sources, s.expressionSource, CapExpression)
    requires s.lipSource != "" ==> Capable(s.sources, s.lipSource, CapLip)
    requires f == Merge(s.generation, s.sources, s.eyeSource, s.expressionSource, s.lipSource)
                  .(sequence := s.mergedSequence, updatedAtNS := s.lastHostTimeNS)
    ensures WellFormed(f)
  {
  }

  /** A receipt strictly after every earlier time keeps all published frames behind the state. */
  lemma ReceiptKeepsBehind(s: ServiceState, published: seq<MergedFrame>, id: string, source: SourceState)
    requires Stream(published) && forall f | f in published :: Behind(s, f)
    requires source.receivedAtNS > s.lastHostTimeNS >= 0
    ensures var t := s.(sources := s.sources[id := source], lastHostTimeNS := source.receivedAtNS);
            forall f | f in published :: Behind(t, f)
  {
  }

  lemma RemovalKeepsBehind(s: ServiceState, published: seq<MergedFrame>, id: string)
    requires forall f | f in published :: Behind(s, f)
    ensures forall f | f in published :: Behind(s.(sources := s.sources - {id}), f)
  {
  }

  /** What is stored of an accepted frame; zero clock readings keep the last ones. */
  function Stored(sources: Sources, id: string, canonical: TrackingFrame, at: int): SourceState {
    SourceState(
      canonical, at, canonical.sequence,
      if canonical.timestampNS != 0 then canonical.timestampNS else if id in sources then sources[id].lastTimestampNS else 0,
      if canonical.sourceClockNS != 0 then canonical.sourceClockNS else if id in sources then sources[id].lastSourceClockNS else 0)
  }

  /** Why `Submit` rejects a frame, checks in their order; NoError when it accepts. */
  function Rejection(s: ServiceState, pluginID: string, generation: nat, frame: TrackingFrame): TrackingError {
    if pluginID == "" then ErrInvalidPluginID
    else if s.generation == 0 then ErrGenerationUnset
    else if generation == 0 then ErrGenerationZero
    else if generation < s.generation then ErrStaleGeneration
    else if generation > s.generation then ErrFutureGeneration
    else if !frame.Valid() then ErrInvalidFrame
    else if pluginID in s.sources && frame.sequence <= s.sources[pluginID].lastSequence then ErrSequenceNotIncreasing
    else if frame.timestampNS < 0 || frame.sourceClockNS < 0 then ErrInvalidFrame
    else if Regressed(s, pluginID, frame.timestampNS, (x: SourceState) => x.lastTimestampNS) then ErrTimestampRegression
    else if Regressed(s, pluginID, frame.sourceClockNS, (x: SourceState) => x.lastSourceClockNS) then ErrSourceClockRegression
    else if s.lastHostTimeNS == MAX_INT64 then ErrTimestampRegression
    else NoError
  }

  /** Both clocks ignore zero readings and must not run backwards within a source. */
  predicate Regressed(s: ServiceState, pluginID: string, reading: int, last: SourceState -> int) {
    pluginID in s.sources && reading != 0 && last(s.sources[pluginID]) != 0 && reading < last(s.sources[pluginID])
  }
}
