/**
 The fence between avatars (internal/application/coordinator.go, install.go,
 internal/osc/runtime.go, internal/avatar/planner.go). The coordinator runs its own
 code; before and after each of its atomic steps any number of submissions, routing
 changes, sends and a controller shutdown may happen. Every frame carries the
 generations its samples were submitted with.
 */
module GenerationFence {
  import opened Common

  datatype Merged = Merged(generation: nat, tags: set<nat>)

  /** What a plan's evaluator computed, and from which submissions. */
  datatype Snapshot = Snapshot(plan: nat, tags: set<nat>)

  datatype PlanCatalog = PlanCatalog(generation: nat, empty: bool)

  datatype Plan = Plan(generation: nat, ready: bool, evaluator: bool, catalog: Option<PlanCatalog>)

  /** One value handed to the transport, and the catalog it was sent under. */
  datatype Transmission = Transmission(catalog: nat, value: Snapshot)

  datatype Runtime = Runtime(generation: nat, catalog: Option<nat>, source: Option<Snapshot>)

  const CLEARED := Runtime(0, None, None)

  datatype PipelineMemory = PipelineMemory(generation: nat, tags: set<nat>)

  /** installed is the generation of the plan last handed to the installer; shutdowns counts how often the controller has shut output down. */
  datatype HostState = HostState(
    planned: nat, installed: nat,
    tracking: nat, sources: map<string, nat>, published: seq<Merged>,
    pipeline: PipelineMemory, runtime: Runtime,
    current: Option<Plan>, latest: Option<Merged>, suspended: bool, outputBlocked: bool,
    log: seq<Transmission>, shutdowns: nat)

  predicate Pure(generation: nat, tags: set<nat>) {
    forall tag | tag in tags :: tag == generation
  }

  predicate UsablePlan(plan: Option<Plan>) {
    && plan.Some? && plan.value.ready && plan.value.generation > 0 && plan.value.evaluator
    && plan.value.catalog.Some? && !plan.value.catalog.value.empty
    && plan.value.catalog.value.generation == plan.value.generation
  }

  /** The value was computed by the catalog's own plan, from frames of that generation alone. */
  predicate Fenced(t: Transmission) {
    t.catalog > 0 && t.value.plan == t.catalog && Pure(t.catalog, t.value.tags)
  }

  predicate RuntimeSound(r: Runtime) {
    && (r.generation == 0 <==> r.catalog.None?)
    && (r.catalog.Some? ==> r.catalog.value == r.generation)
    && (r.source.Some? ==> r.generation > 0 && r.source.value.plan == r.generation && Pure(r.generation, r.source.value.tags))
  }

  predicate InOrder(log: seq<Transmission>) {
    forall i, j | 0 <= i < j < |log| :: log[i].catalog <= log[j].catalog
  }

  ghost predicate TrackingSound(s: HostState) {
    && (forall id | id in s.sources :: s.sources[id] == s.tracking)
    && (forall i | 0 <= i < |s.published| :: Pure(s.published[i].generation, s.published[i].tags))
    && (s.latest.Some? ==> Pure(s.latest.value.generation, s.latest.value.tags))
    && Pure(s.pipeline.generation, s.pipeline.tags)
  }

  /** Nothing newer than the installed plan was ever sent; the runtime is clear or serves that plan. */
  ghost predicate OutputSound(s: HostState) {
    && RuntimeSound(s.runtime)
    && (s.runtime.generation == 0 || s.runtime.generation == s.installed)
    && (forall i | 0 <= i < |s.log| :: Fenced(s.log[i]) && s.log[i].catalog <= s.installed)
    && InOrder(s.log)
    && s.installed <= s.planned && s.tracking <= s.installed
  }

  ghost predicate Sound(s: HostState) {
    TrackingSound(s) && OutputSound(s)
  }

  /** Between coordinator actions its current plan is the installed one. */
  ghost predicate AtRest(s: HostState) {
    Sound(s) && (s.current.Some? ==> s.current.value.generation == s.installed)
  }

  /** What the other goroutines may have done. */
  ghost predicate Interfered(s: HostState, t: HostState) {
    && t == s.(sources := t.sources, published := t.published, log := t.log, runtime := t.runtime, shutdowns := t.shutdowns)
    && s.shutdowns <= t.shutdowns
    && (t.runtime == s.runtime || (t.runtime == CLEARED && s.shutdowns < t.shutdowns))
    && s.published <= t.published && s.log <= t.log
  }

  /** Which submissions the selected sources hold. */
  function TagsOf(sources: map<string, nat>, selected: set<string>): set<nat> {
    set id | id in selected && id in sources :: sources[id]
  }

  /** A merge has a submission's tag exactly if a selected source holds it. */
  lemma TagsAreSelected(sources: map<string, nat>, selected: set<string>, tag: nat)
    ensures tag in TagsOf(sources, selected) <==> exists id :: id in sources && id in selected && sources[id] == tag
  {
  }

  /** The sources have changed and a merge of the selected ones is published. */
  function Remerged(s: HostState, sources: map<string, nat>, selected: set<string>): HostState {
    s.(sources := sources, published := s.published + [Merged(s.tracking, TagsOf(sources, selected))])
  }

  /** Sending keeps the log fenced and in order. */
  lemma SendIsSound(s: HostState)
    requires OutputSound(s) && s.runtime.source.Some? && s.runtime.catalog.Some?
    ensures OutputSound(s.(log := s.log + [Transmission(s.runtime.catalog.value, s.runtime.source.value)]))
  {
  }

  datatype PlanResult = PlanFailed | PlanReady(empty: bool)

  /** A plugin as listed, and whether the new plan subscribes to it. */
  datatype Plugin = Plugin(id: string, matches: bool)

  datatype Operation = Deactivate | Subscribe | Activate

  datatype Command = Command(plugin: string, operation: Operation, generation: nat, ok: bool)

  datatype Outcome = Outcome(plan: Option<Plan>, runtimeFailed: bool, exhausted: bool, catalogReady: bool, outputBlocked: bool)

  /** A plugin is activated only after it was deactivated and subscribed to the plan, both with success. */
  predicate Prepared(commands: seq<Command>, id: string, generation: nat) {
    && Command(id, Deactivate, generation, true) in commands
    && Command(id, Subscribe, generation, true) in commands
  }

  ghost predicate OnlyPreparedActivate(commands: seq<Command>) {
    forall k | 0 <= k < |commands| && commands[k].operation == Activate ::
      Prepared(commands[..k], commands[k].plugin, commands[k].generation)
  }

  lemma PreparedStays(commands: seq<Command>, c: Command)
    requires OnlyPreparedActivate(commands)
    requires c.operation == Activate ==> Prepared(commands, c.plugin, c.generation)
    ensures OnlyPreparedActivate(commands + [c])
  {
    var more := commands + [c];
    forall k | 0 <= k < |more| && more[k].operation == Activate ensures Prepared(more[..k], more[k].plugin, more[k].generation) {
      if k < |commands| {
        assert more[..k] == commands[..k];
      } else {
        assert more[..k] == commands;
      }
    }
  }

  predicate IsCommand(c: Command, id: string, operation: Operation, generation: nat) {
    c.plugin == id && c.operation == operation && c.generation == generation
  }

  /** From position n on, every plugin in turn was told to stop. */
  predicate AllTold(commands: seq<Command>, n: nat, plugins: seq<Plugin>, generation: nat) {
    && n + |plugins| <= |commands|
    && forall i | 0 <= i < |plugins| :: IsCommand(commands[n + i], plugins[i].id, Deactivate, generation)
  }

  /** Some command to stop the plugin, of those from position n on, was refused. */
  ghost predicate RefusedToStop(commands: seq<Command>, n: nat, plugins: seq<Plugin>, id: string)
    requires n + |plugins| <= |commands|
  {
    exists i :: 0 <= i < |plugins| && plugins[i].id == id && !commands[n + i].ok
  }

  /** At position k the plugin was subscribed; if that succeeded it was activated, and if that failed it was told to stop again. */
  predicate ServedAt(commands: seq<Command>, k: nat, id: string, generation: nat) {
    && k < |commands| && IsCommand(commands[k], id, Subscribe, generation)
    && (commands[k].ok ==>
          && k + 1 < |commands| && IsCommand(commands[k + 1], id, Activate, generation)
          && (!commands[k + 1].ok ==> k + 2 < |commands| && IsCommand(commands[k + 2], id, Deactivate, generation)))
  }

  ghost predicate Served(commands: seq<Command>, n: nat, id: string, generation: nat) {
    exists k :: n <= k && ServedAt(commands, k, id, generation)
  }

  /** Some plugin that could not be activated could not be stopped either. */
  ghost predicate Stuck(commands: seq<Command>, n: nat) {
    exists k :: n <= k < |commands| && commands[k].operation == Deactivate && !commands[k].ok
  }

  lemma ServedStays(before: seq<Command>, after: seq<Command>, n: nat, id: string, generation: nat)
    requires Served(before, n, id, generation) && before <= after
    ensures Served(after, n, id, generation)
  {
    var k: nat :| n <= k && ServedAt(before, k, id, generation);
    assert ServedAt(after, k, id, generation);
  }

  /** From n on: the plugins were told to stop, and of a usable plan's plugins those that stopped were served. */
  ghost predicate Commanded(commands: seq<Command>, n: nat, plugins: seq<Plugin>, generation: nat, usable: bool) {
    && AllTold(commands, n, plugins, generation)
    && (!usable ==> |commands| == n + |plugins|)
    && (usable ==> forall p | p in plugins && p.matches && !RefusedToStop(commands, n, plugins, p.id) ::
                     Served(commands, n + |plugins|, p.id, generation))
  }

  class Host {
    /** Whether the send runtime takes its catalogs from outside. */
    const external: bool

    var state: HostState

    /** The plugin commands of the current installation, with their results. */
    var commands: seq<Command>

    ghost predicate Valid()
      reads this
    {
      Sound(state) && OnlyPreparedActivate(commands)
    }

    constructor (external: bool)
      ensures Valid() && AtRest(state) && state.log == [] && this.external == external
    {
      this.external := external;
      state := HostState(0, 0, 0, map[], [], PipelineMemory(0, {}), CLEARED, None, None, false, false, [], 0);
      commands := [];
    }

    // ---- The other goroutines ----

    /** Only a frame of the current generation is kept; the merge is of kept frames only. */
    method Submit(id: string, generation: nat, selected: set<string>)
      requires Valid()
      modifies this`state
      ensures Valid() && Interfered(old(state), state)
      ensures generation == 0 || generation != old(state).tracking ==> state == old(state)
      ensures generation == old(state).tracking > 0 ==> state == Remerged(old(state), old(state).sources[id := generation], selected)
    {
      if generation == 0 || generation != state.tracking { return; }
      state := state.(sources := state.sources[id := generation]);
      Republish(selected);
    }

    method RemoveSource(id: string, selected: set<string>)
      requires Valid()
      modifies this`state
      ensures Valid() && Interfered(old(state), state)
      ensures state == Remerged(old(state), old(state).sources - {id}, selected)
    {
      state := state.(sources := state.sources - {id});
      Republish(selected);
    }

    /** Publishes a merge of the selected sources, as every routing decides. */
    method Republish(selected: set<string>)
      requires Valid()
      modifies this`state
      ensures Valid() && Interfered(old(state), state)
      ensures state == Remerged(old(state), old(state).sources, selected)
    {
      state := state.(published := state.published + [Merged(state.tracking, TagsOf(state.sources, selected))]);
    }

    /** `send`: under the runtime's lock, with whatever catalog and source it holds. */
    method Send(accepted: bool)
      requires Valid()
      modifies this`state
      ensures Valid() && Interfered(old(state), state)
      ensures old(state).runtime.source.None? || !accepted ==> state == old(state)
      ensures old(state).runtime.source.Some? && accepted ==>
        state == old(state).(log := old(state).log + [Transmission(old(state).runtime.generation, old(state).runtime.source.value)])
    {
      if state.runtime.source.None? || state.runtime.catalog.None? || !accepted { return; }
      SendIsSound(state);
      state := state.(log := state.log + [Transmission(state.runtime.catalog.value, state.runtime.source.value)]);
    }

    method ClearRuntime()
      requires Valid()
      modifies this`state
      ensures Valid() && state == old(state).(runtime := CLEARED)
    {
      state := state.(runtime := CLEARED);
    }

    method Shutdown()
      requires Valid()
      modifies this`state
      ensures Valid() && state == old(state).(runtime := CLEARED, shutdowns := old(state).shutdowns + 1)
    {
      ClearRuntime();
      state := state.(shutdowns := state.shutdowns + 1);
    }

    /** Anything the other goroutines do before the coordinator's next step. */
    method Others()
      requires Valid()
      modifies this`state
      ensures Valid() && Interfered(old(state), state)
    {
      var steps: nat := *;
      while steps > 0
        invariant Valid() && Interfered(old(state), state)
      {
        var kind: nat, id: string, generation: nat, selected: set<string>, accepted: bool := *, *, *, *, *;
        if kind == 0 {
          Submit(id, generation, selected);
        } else if kind == 1 {
          RemoveSource(id, selected);
        } else if kind == 2 {
          Republish(selected);
        } else if kind == 3 {
          Shutdown();
        } else {
          Send(accepted);
        }
        steps := steps - 1;
      }
    }

    // ---- The send runtime ----

    /** `installExternal`: only a catalog with a generation. */
    method InstallCatalog(catalog: Option<PlanCatalog>) returns (ok: bool)
      requires Valid() && (catalog.Some? ==> catalog.value.generation == state.installed)
      modifies this`state
      ensures Valid()
      ensures ok <==> external && catalog.Some? && catalog.value.generation != 0
      ensures ok ==> state == old(state).(runtime := Runtime(catalog.value.generation, Some(catalog.value.generation), None))
      ensures !ok ==> state == old(state)
    {
      if !external || catalog.None? || catalog.value.generation == 0 { return false; }
      state := state.(runtime := Runtime(catalog.value.generation, Some(catalog.value.generation), None));
      return true;
    }

    /** `publish`: only a source of the installed generation. */
    method Publish(generation: nat, source: Snapshot) returns (ok: bool)
      requires Valid() && source.plan == generation && Pure(generation, source.tags)
      modifies this`state
      ensures Valid()
      ensures ok <==> external && generation != 0 && generation == old(state).runtime.generation
      ensures ok ==> state == old(state).(runtime := old(state).runtime.(source := Some(source)))
      ensures !ok ==> state == old(state)
    {
      if !external || generation == 0 || state.runtime.generation == 0 || generation != state.runtime.generation { return false; }
      state := state.(runtime := state.runtime.(source := Some(source)));
      return true;
    }

    // ---- Activation ----

    /** `Planner.Activate`: every call uses a new generation until the counter is exhausted. */
    method PlannerActivate(wanted: PlanResult) returns (plan: Option<Plan>)
      requires Valid()
      modifies this`state
      ensures Valid()
      ensures plan.None? <==> old(state).planned == MAX_UINT64
      ensures plan.None? ==> state == old(state)
      ensures plan.Some? ==> state == old(state).(planned := old(state).planned + 1) && plan.value.generation == state.planned
      ensures plan.Some? ==> (UsablePlan(plan) <==> wanted == PlanReady(false))
      ensures plan.Some? && plan.value.ready ==> plan.value.evaluator
      ensures plan.Some? && plan.value.catalog.Some? ==> plan.value.catalog.value.generation == plan.value.generation
    {
      if state.planned == MAX_UINT64 { return None; }
      state := state.(planned := state.planned + 1);
      match wanted {
        case PlanFailed => plan := Some(Plan(state.planned, false, false, None));
        case PlanReady(empty) => plan := Some(Plan(state.planned, true, true, Some(PlanCatalog(state.planned, empty))));
      }
    }

    /** Tracking forgets every source when the generation moves. */
    method SetGeneration(generation: nat) returns (ok: bool)
      requires Valid() && generation <= state.installed
      modifies this`state
      ensures Valid()
      ensures ok <==> generation != 0 && generation >= old(state).tracking
      ensures state == old(state).(tracking := state.tracking, sources := state.sources, published := state.published)
      ensures ok ==> state.tracking == generation
      ensures old(state).published <= state.published
    {
      if generation == 0 || generation < state.tracking { return false; }
      if generation == state.tracking { return true; }
      state := state.(tracking := generation, sources := map[], published := state.published + [Merged(generation, {})]);
      return true;
    }

    /** One plugin control, which may fail. */
    method Control(id: string, operation: Operation, generation: nat) returns (ok: bool)
      requires Valid()
      requires operation == Activate ==> Prepared(commands, id, generation)
      modifies this
      ensures Valid() && Interfered(old(state), state)
      ensures commands == old(commands) + [Command(id, operation, generation, ok)]
    {
      Others();
      ok := *;
      PreparedStays(commands, Command(id, operation, generation, ok));
      commands := commands + [Command(id, operation, generation, ok)];
    }

    /** Deactivates every plugin and says which refused. */
    method DeactivateAll(plugins: seq<Plugin>, generation: nat) returns (failed: set<string>)
      requires Valid()
      modifies this
      ensures Valid() && Interfered(old(state), state) && old(commands) <= commands
      ensures forall p | p in plugins && p.id !in failed :: Command(p.id, Deactivate, generation, true) in commands
      ensures |commands| == |old(commands)| + |plugins| && AllTold(commands, |old(commands)|, plugins, generation)
      ensures forall id :: id in failed <==> RefusedToStop(commands, |old(commands)|, plugins, id)
    {
      failed := {};
      for i := 0 to |plugins|
        invariant Valid() && Interfered(old(state), state) && old(commands) <= commands
        invariant forall k | 0 <= k < i && plugins[k].id !in failed :: Command(plugins[k].id, Deactivate, generation, true) in commands
        invariant |commands| == |old(commands)| + i
        invariant forall k | 0 <= k < i :: IsCommand(commands[|old(commands)| + k], plugins[k].id, Deactivate, generation)
        invariant forall id :: id in failed <==> exists k :: 0 <= k < i && plugins[k].id == id && !commands[|old(commands)| + k].ok
      {
        var ok := Control(plugins[i].id, Deactivate, generation);
        if !ok { failed := failed + {plugins[i].id}; }
      }
    }

    /** Subscribes and activates the plugins the plan wants; true when some plugin could be neither activated nor deactivated. */
    method ActivateMatching(plugins: seq<Plugin>, failed: set<string>, generation: nat) returns (blocked: bool)
      requires Valid()
      requires forall p | p in plugins && p.id !in failed :: Command(p.id, Deactivate, generation, true) in commands
      modifies this
      ensures Valid() && Interfered(old(state), state) && old(commands) <= commands
      ensures blocked <==> Stuck(commands, |old(commands)|)
      ensures forall p | p in plugins && p.matches && p.id !in failed :: Served(commands, |old(commands)|, p.id, generation)
    {
      blocked := false;
      for i := 0 to |plugins|
        invariant Valid() && Interfered(old(state), state) && old(commands) <= commands
        invariant blocked <==> Stuck(commands, |old(commands)|)
        invariant forall k | 0 <= k < i && plugins[k].matches && plugins[k].id !in failed ::
                    Served(commands, |old(commands)|, plugins[k].id, generation)
      {
        if plugins[i].id in failed || !plugins[i].matches { continue; }
        ghost var before := commands;
        var stuck := ActivateOne(plugins[i].id, generation);
        blocked := blocked || stuck;
        forall k | 0 <= k < i && plugins[k].matches && plugins[k].id !in failed
          ensures Served(commands, |old(commands)|, plugins[k].id, generation)
        {
          ServedStays(before, commands, |old(commands)|, plugins[k].id, generation);
        }
      }
    }

    method ActivateOne(id: string, generation: nat) returns (stuck: bool)
      requires Valid() && Command(id, Deactivate, generation, true) in commands
      modifies this
      ensures Valid() && Interfered(old(state), state) && old(commands) <= commands
      ensures ServedAt(commands, |old(commands)|, id, generation)
      ensures stuck <==> Stuck(commands, |old(commands)|)
    {
      var ok := Control(id, Subscribe, generation);
      if !ok { return false; }
      stuck := ActivateSubscribed(id, generation);
    }

    /** The plugin was just subscribed: it is activated, or else told to stop. */
    method ActivateSubscribed(id: string, generation: nat) returns (stuck: bool)
      requires Valid() && Command(id, Deactivate, generation, true) in commands
      requires commands[|commands| - 1] == Command(id, Subscribe, generation, true)
      modifies this
      ensures Valid() && Interfered(old(state), state) && old(commands) <= commands
      ensures |commands| > |old(commands)| && IsCommand(commands[|old(commands)|], id, Activate, generation)
      ensures |commands| == |old(commands)| + if commands[|old(commands)|].ok then 1 else 2
      ensures !commands[|old(commands)|].ok ==> IsCommand(commands[|old(commands)| + 1], id, Deactivate, generation)
      ensures stuck <==> !commands[|old(commands)|].ok && !commands[|old(commands)| + 1].ok
    {
      var ok := Control(id, Activate, generation);
      if ok { return false; }
      ok := Control(id, Deactivate, generation);
      return !ok;
    }

    /** `install`: output is cleared first and comes back, under the new plan's catalog, only when nothing is stuck. */
    method Install(plan: Option<Plan>, plugins: seq<Plugin>) returns (outcome: Outcome)
      requires Valid() && (plan.Some? ==> PlanIsNew(state, plan.value))
      modifies this
      ensures Valid() && outcome.plan == plan && (outcome.exhausted <==> plan.None?)
      ensures Touched(old(state), state) && state.installed == (if plan.Some? then plan.value.generation else old(state).installed)
      ensures outcome.catalogReady <==> external && UsablePlan(plan) && !outcome.outputBlocked
      ensures outcome.runtimeFailed <==> !external && UsablePlan(plan) && !outcome.outputBlocked
      ensures state.runtime == if outcome.catalogReady then Runtime(state.installed, Some(state.installed), None) else CLEARED
      ensures old(commands) <= commands && Commanded(commands, |old(commands)|, plugins, state.installed, UsablePlan(plan))
      ensures outcome.outputBlocked <==> UsablePlan(plan) && Stuck(commands, |old(commands)| + |plugins|)
    {
      ClearRuntime();
      if plan.Some? { state := state.(installed := plan.value.generation); }
      Others();
      if plan.None? {
        var stuck := DeactivateAll(plugins, state.installed);
        return Outcome(None, false, true, false, false);
      }
      var generation := plan.value.generation;
      var ok := SetGeneration(generation);
      assert ok;  // a new plan's generation is never behind
      var failed := DeactivateAll(plugins, generation);
      if !plan.value.ready || plan.value.catalog.None? || plan.value.catalog.value.empty {
        return Outcome(plan, false, false, false, false);
      }
      ghost var stopped := commands;
      outcome := InstallOutput(plan, plugins, failed);
      ServedAreCommanded(stopped, commands, |old(commands)|, plugins, failed, generation);
    }

    /** The last part of `install`, for a usable plan: the plugins first, then the catalog. */
    method InstallOutput(plan: Option<Plan>, plugins: seq<Plugin>, failed: set<string>) returns (outcome: Outcome)
      requires Valid() && UsablePlan(plan) && state.runtime == CLEARED
      requires plan.value.generation == plan.value.catalog.value.generation == state.installed && state.installed > 0
      requires forall p | p in plugins && p.id !in failed :: Command(p.id, Deactivate, plan.value.generation, true) in commands
      modifies this
      ensures Valid() && outcome.plan == plan && !outcome.exhausted
      ensures Touched(old(state), state) && state.installed == old(state).installed && old(commands) <= commands
      ensures state.runtime == if outcome.catalogReady then Runtime(state.installed, Some(state.installed), None) else CLEARED
      ensures outcome.catalogReady <==> external && !outcome.outputBlocked
      ensures outcome.runtimeFailed <==> !external && !outcome.outputBlocked
      ensures outcome.outputBlocked <==> Stuck(commands, |old(commands)|)
      ensures forall p | p in plugins && p.matches && p.id !in failed :: Served(commands, |old(commands)|, p.id, plan.value.generation)
    {
      var blocked := ActivateMatching(plugins, failed, plan.value.generation);
      if blocked { return Outcome(plan, false, false, false, true); }
      var ok := InstallCatalog(plan.value.catalog);
      outcome := Outcome(plan, !ok, false, ok, false);
    }

    /** `activate`: cancellation may stop it before the planner or before the installer. */
    method ActivateAvatar(wanted: PlanResult, plugins: seq<Plugin>, cancelledEarly: bool, cancelledLate: bool)
      requires Valid() && AtRest(state)
      modifies this
      ensures Valid() && AtRest(state)
      ensures cancelledEarly ==> state == old(state) && commands == old(commands)
      ensures !cancelledEarly ==> state.planned == if old(state).planned == MAX_UINT64 then MAX_UINT64 else old(state).planned + 1
      ensures !cancelledEarly && cancelledLate ==> state == old(state).(planned := state.planned) && commands == old(commands)
      ensures !cancelledEarly && !cancelledLate ==> (state.current.None? <==> old(state).planned == MAX_UINT64)
      ensures !cancelledEarly && !cancelledLate && state.current.Some? ==> state.current.value.generation == state.planned
      ensures !cancelledEarly && !cancelledLate && state.current.Some? ==> (UsablePlan(state.current) <==> wanted == PlanReady(false))
      ensures !cancelledEarly && !cancelledLate ==> Adopted(external, |old(commands)|, commands, plugins, old(state), state)
    {
      if cancelledEarly { return; }
      var plan := PlannerActivate(wanted);
      if !cancelledLate { InstallAndAdopt(plan, plugins); }
    }

    method InstallAndAdopt(plan: Option<Plan>, plugins: seq<Plugin>)
      requires Valid() && (plan.Some? ==> PlanIsNew(state, plan.value))
      modifies this
      ensures Valid() && AtRest(state)
      ensures state.current == plan && state.planned == old(state).planned
      ensures Adopted(external, |old(commands)|, commands, plugins, old(state), state)
    {
      var outcome := Install(plan, plugins);
      var usable := UsablePlan(outcome.plan);
      state := state.(current := outcome.plan, outputBlocked := outcome.outputBlocked,
                      suspended := !outcome.outputBlocked && outcome.runtimeFailed && usable);
    }

    // ---- Processing ----

    predicate HasUsablePlan(generation: nat)
      reads this`state
    {
      !state.outputBlocked && UsablePlan(state.current) && generation == state.current.value.generation
    }

    /** `ProcessAt` may refuse; a frame of another generation starts the pipeline's memory afresh. */
    method ProcessAt(frame: Merged, accepted: bool) returns (canonical: Option<nat>)
      requires Valid() && Pure(frame.generation, frame.tags)
      modifies this`state
      ensures Valid()
      ensures canonical == if accepted then Some(frame.generation) else None
      ensures state == old(state).(pipeline := state.pipeline)
      ensures accepted ==> state.pipeline.generation == frame.generation
      ensures accepted ==> state.pipeline.tags == frame.tags + if old(state).pipeline.generation == frame.generation then old(state).pipeline.tags else {}
      ensures !accepted ==> state == old(state)
    {
      if !accepted { return None; }
      var kept := if state.pipeline.generation == frame.generation then state.pipeline.tags else {};
      state := state.(pipeline := PipelineMemory(frame.generation, kept + frame.tags));
      return Some(frame.generation);
    }

    method FailRuntime()
      requires Valid()
      modifies this`state
      ensures Valid() && state == old(state).(runtime := CLEARED, suspended := true)
    {
      ClearRuntime();
      state := state.(suspended := true);
    }

    /** `process`: evaluates a frame of the current plan and publishes the result, reinstalling the catalog after a failure. */
    method Process(frame: Merged, accepted: bool, cancelled: bool)
      requires Valid() && AtRest(state) && Pure(frame.generation, frame.tags)
      modifies this`state
      ensures Valid() && AtRest(state)
      ensures if cancelled then state == old(state) else Processed(external, old(state), frame, accepted, state)
    {
      if cancelled || !HasUsablePlan(frame.generation) { return; }
      var generation := state.current.value.generation;
      Others();
      var canonical := ProcessAt(frame, accepted);
      if canonical.None? || canonical.value != generation {
        FailRuntime();
        return;
      }
      var snapshot := Snapshot(generation, state.pipeline.tags);
      if state.suspended {
        var ok := InstallCatalog(state.current.value.catalog);
        if !ok {
          FailRuntime();
          return;
        }
      }
      Others();
      var ok := Publish(generation, snapshot);
      if !ok {
        FailRuntime();
        return;
      }
      state := state.(suspended := false);
    }

    /** A merged frame arrives: any published one, as the subscription may skip frames. */
    method OnMerged(index: nat, accepted: bool)
      requires Valid() && AtRest(state) && index < |state.published|
      modifies this`state
      ensures Valid() && AtRest(state)
      ensures var frame := old(state).published[index];
              Processed(external, old(state).(latest := Some(frame)), frame, accepted, state)
    {
      var frame := state.published[index];
      state := state.(latest := Some(frame));
      Process(frame, accepted, false);
    }

    method OnTick(accepted: bool)
      requires Valid() && AtRest(state)
      modifies this`state
      ensures Valid() && AtRest(state)
      ensures if old(state).latest.Some? then Processed(external, old(state), old(state).latest.value, accepted, state) else state == old(state)
    {
      if state.latest.Some? { Process(state.latest.value, accepted, false); }
    }
  }

  /**
   After processing: a frame that is not of the current usable plan changes nothing.
   What an accepted one is evaluated to is published, or else output is suspended; that
   happens only if the pipeline refused the frame, or the runtime does not hold the
   plan's catalog, or was shut down meanwhile.
   */
  ghost predicate Processed(external: bool, s: HostState, frame: Merged, accepted: bool, t: HostState) {
    var g := frame.generation;
    if s.outputBlocked || !UsablePlan(s.current) || g != s.current.value.generation then t == s
    else
      && t == s.(sources := t.sources, published := t.published, log := t.log, runtime := t.runtime, shutdowns := t.shutdowns,
                 pipeline := t.pipeline, suspended := t.suspended)
      && s.log <= t.log && s.published <= t.published && s.shutdowns <= t.shutdowns
      && t.pipeline == (if accepted then PipelineMemory(g, frame.tags + if s.pipeline.generation == g then s.pipeline.tags else {}) else s.pipeline)
      && (if t.suspended then t.runtime == CLEARED
          else accepted && t.runtime == Runtime(g, Some(g), Some(Snapshot(g, t.pipeline.tags))))
      && (t.suspended ==> !accepted || !external || s.shutdowns < t.shutdowns || (!s.suspended && s.runtime.generation != g))
  }

  /** The plan's generation is one nobody has used, and its catalog is its own. */
  ghost predicate PlanIsNew(s: HostState, plan: Plan) {
    && s.installed < plan.generation <= s.planned
    && (plan.ready ==> plan.evaluator)
    && (plan.catalog.Some? ==> plan.catalog.value.generation == plan.generation)
  }

  /**
   After an activation: the plugins have been told what the plan wants, output is blocked
   exactly if one of them is stuck, and the runtime is ready for the plan, without a source
   yet, if the plan is usable and nothing blocks it.
   */
  ghost predicate Adopted(external: bool, n: nat, commands: seq<Command>, plugins: seq<Plugin>, s: HostState, t: HostState) {
    var usable := UsablePlan(t.current);
    && t.pipeline == s.pipeline && t.latest == s.latest && s.log <= t.log && s.published <= t.published
    && t.installed == (if t.current.Some? then t.current.value.generation else s.installed)
    && Commanded(commands, n, plugins, t.installed, usable)
    && (t.outputBlocked <==> usable && Stuck(commands, n + |plugins|))
    && (t.suspended <==> !external && usable && !t.outputBlocked)
    && t.runtime == if external && usable && !t.outputBlocked then Runtime(t.installed, Some(t.installed), None) else CLEARED
  }

  lemma ServedAreCommanded(stopped: seq<Command>, commands: seq<Command>, n: nat, plugins: seq<Plugin>, failed: set<string>, generation: nat)
    requires stopped <= commands && |stopped| == n + |plugins| && AllTold(stopped, n, plugins, generation)
    requires forall id :: id in failed <==> RefusedToStop(stopped, n, plugins, id)
    requires forall p | p in plugins && p.matches && p.id !in failed :: Served(commands, n + |plugins|, p.id, generation)
    ensures Commanded(commands, n, plugins, generation, true)
  {
    forall id ensures RefusedToStop(commands, n, plugins, id) <==> RefusedToStop(stopped, n, plugins, id) {
    }
  }

  /** An installation leaves the coordinator's own fields alone. */
  ghost predicate Touched(s: HostState, t: HostState) {
    && s.planned == t.planned && s.pipeline == t.pipeline && s.latest == t.latest && s.current == t.current
    && s.suspended == t.suspended && s.outputBlocked == t.outputBlocked
    && s.log <= t.log && s.published <= t.published
  }

  /**
   In every interleaving of activations, submissions, routing changes, processing,
   failures and sends, every value handed to the transport was computed by the plan
   whose catalog was installed, from frames submitted under that plan's generation
   alone; and once a newer avatar's value was sent, no older avatar's value follows.
   */
  method RunHost(external: bool, actions: nat) returns (log: seq<Transmission>)
    ensures forall i | 0 <= i < |log| :: Fenced(log[i])
    ensures InOrder(log)
  {
    var host := new Host(external);
    for i := 0 to actions
      invariant fresh(host) && host.Valid() && AtRest(host.state)
    {
      host.Others();
      var kind: nat, wanted: PlanResult, plugins: seq<Plugin>, early: bool, late: bool := *, *, *, *, *;
      if kind == 0 {
        host.ActivateAvatar(wanted, plugins, early, late);
      } else if kind == 1 {
        host.OnTick(early);
      } else if kind < |host.state.published| + 2 {
        host.OnMerged(kind - 2, early);
      }
    }
    log := host.state.log;
  }
}
