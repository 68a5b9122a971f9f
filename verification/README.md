# VRCFaceTracking-Go: a verified model

VRCFaceTracking-Go carries tracking frames from plugin processes to a VRChat avatar
over OSC. This project models the parts of it that decide *what* is sent and *when*,
and proves properties of them with Dafny.

## Modules

| file | models | main result |
|---|---|---|
| `DependencyGraph`, `PlanCompiler`, `PlanRules` | the parameter compiler's depth-first search | it succeeds exactly on the compilable requests |
| `Evaluation`, `EvaluationRules` | the flat evaluator over dense arrays | the flat program is the unique solution of the recursive definitions, and each value what the rules of its operation demand |
| `LeafAnalysis`, `Subscriptions`, `TrackingModel`, `Validation` | leaf analysis, subscriptions, trimming, what validations refuse | a value depends on its leaves alone, and is valid exactly when they are |
| `TrimmedSources`, `TrimThroughService`, `Exclusion`, `TrimThroughPipeline`, `TrimSafety` | trimmed frames through the merge, the pipeline and the evaluator | when trimming is visible, call by call; for channels that can show every value it never is exactly when no exclusion group mixes needed and unselected channels |
| `Controls`, `RestartPolicies`, `Supervisor` | the plugin supervisor's event loop | what each event does to the loop, and the reply ledger: every command is answered exactly once |
| `SessionWriter`, `Session` | the writer queue, the replay of early controls, the shutdown handshake | nothing stranded, early controls in order and first, later ones in order exactly if never overtaken, no acknowledgement lost |
| `Dispatches`, `Delivery` | the supervisor, the goroutine that carries its controls, and the session, together | one control at a time, and the plugin knows what is desired of it |
| `Events` | the per-subscriber event queue | ordered delivery and exact accounting of dropped logs |
| `Tracking`, `SubmissionRules`, `MergeProvenance` | the merge service | the latest frame is the pure merge of the current sources, and shows nothing from another generation; which submissions are accepted, told from the earlier ones |
| `Filters`, `FilterRules`, `Pipeline`, `PipelineConfig`, `PipelineRuns`, `DropoutRuns`, `ChannelRules` | the processing pipeline | what a channel shows at any time of any run, by rules that do not mention its formulas, and that a new generation forgets the old one |
| `MergeThenProcess`, `HostClock`, `CoordinatorRuns` | the coordinator between merge service and pipeline | everything the merge service can produce is accepted, unless the clock is behind its publication |
| `OscWire`, `OscFormat`, `OscCodec`, `OscPackets`, `OscNesting` | the OSC 1.0 packet printer and parser | a bijection on message packets, byte by byte what the format demands, and at which depths a packet is accepted |
| `OscScalars`, `OscOutputs`, `OscSender`, `OscMeaning` | the fast encoder, the catalog's outputs, the change-detecting sender | the cache agrees with what the receiver decodes, which is what the outputs have to tell |
| `Quantization`, `BinaryWeights` | binary bindings | the exact weights and counts for which the bits stand for the value |
| `GenerationFence`, `PluginHost` | coordinator, installer, send runtime, plugin host | no avatar's data reaches another avatar |

`Common` holds machine limits and the option type. Check everything with
`dafny verify dfyconfig.toml`.

## How the source's forms appear

An object that updates its fields is a class whose fields are bundled in one state
value; its methods state the new state against a definition, and lemmas prove what
that definition promises. What a definition computes is also said in other terms, as a
relation that leaves one result (`PlanRules`, `EvaluationRules`, `FilterRules`, `ChannelRules`,
`SubmissionRules`, `Validation`, `OscFormat`, `OscMeaning`). Goroutines that share an object are modelled as methods
that are one atomic step each, and a driver method (`RunLoop`, `RunService`,
`RunBoth`, `RunProvenance`, `RunCoordinator`, `RunSender`, `RunHost`, `RunPlugin`,
`RunWriter`, `RunSession`, `RunHandshake`, `RunDispatches`, `RunDelivery`,
`RunSubscriber`, `RunSubmissions`, `RunTelling`) performs an arbitrary sequence of them, so its contract speaks of
every run. A command, control or frame that needs to be followed carries an id or a
tag. Timeouts and failing operations are arbitrary Boolean inputs.

Assumptions: float32 and float64 values are reals, so every value is finite;
`math.Pow` is an arbitrary total function and pi any positive real; the bits of a
float32 on the wire are kept as 32 raw bits, and how bits stand for a number is a
parameter of the sender; among the catalogs of one run, those with equal
hashes have equal outputs.

Results worth knowing:

- Binary bindings approximate a magnitude exactly when they have at most 31 bits.
  With all 32 weights the number of levels wraps to zero and every bit is false
  (`Quantization.ApproximationHoldsExactly`). Whatever powers of two are listed, the
  bits add up to the quantized value for all magnitudes exactly when the weights are
  consecutive, up to that wrap (`BinaryWeights.BitsAddUpExactly`); with 1 and 4 part of
  the value is lost, with 1, 1 and 2 part of it counts twice.
- Subscribing a plugin to what an avatar needs can change what the avatar sees: a
  channel that is no longer sent no longer wins its mutual exclusion group
  (`TrimSafety.PairIsTorn`). It changes a needed input exactly at the calls where that
  input is nonzero and, in its group, an unselected channel outranks it while no
  selected one does (`TrimThroughPipeline.ReadingAgrees`), so never if no group mixes
  needed and unselected channels (`TrimSafety.TrimKeepsSnapshot`), and for channels
  that can show every value only then (`TrimSafety.InvisibleIffUnmixed`).
- A session on its own does not keep the order of two calls that come at once: a call
  holds no lock between looking at the session's phase and entering the writer's queue
  (`Session.SwapExample`); the order of arrival holds exactly if no call was overtaken
  there (`Session.RunSession`). In this program the only caller is the supervisor, which
  has at most one control at a session (`Dispatches.RunDispatches`), so it never happens
  (`Delivery.RunDelivery`); only another caller could bring it about.
- A packet nested in bundles means what it means alone, but may be refused: a packet is
  accepted at a depth exactly if it is accepted alone and its own nesting and the depth
  are together at most 32 (`OscNesting.AcceptedExactly`). So what the parser accepts
  need not be an element of a bundle (`OscNesting.DeepestIsNoElement`).
- The merge service stamps frames from the wall clock and the coordinator processes them
  at times of a clock of its own. A frame is refused exactly if that clock is before the
  frame's publication (`CoordinatorRuns.RunCoordinator`), which takes a wall that shows an
  earlier time than the publication, as after being set back
  (`CoordinatorRuns.SetBackIsRefused`).

## Model

| member | source | states |
|---|---|---|
| `DependencyGraph.ReachUnfold` | internal/evaluator/plan.go:63-102 | reachability along dependencies is the parameter itself or one dependency further |
| `DependencyGraph.OrderClosed` | internal/evaluator/plan.go:63-102 | whatever is reachable from an entry of a dependency-first order is in the order and on no cycle |
| `PlanCompiler.EnumerateOperands` | internal/evaluator/plan.go:118-139 | operands come out as eye fields, expressions, active states, then dependencies, each group in its order |
| `PlanCompiler.OperandsExact` | internal/evaluator/plan.go:118-139 | an operand is listed exactly when the plan declares that input or dependency |
| `PlanRules.OperandOrder` | internal/evaluator/plan.go:118-159 | a plan has as many operands as it names fields, expressions, flags and dependencies; the primitive ones come first, in declared order, then the dependencies as listed |
| `PlanRules.CompilesExactly` | internal/evaluator/plan.go:161-217 | a parameter compiles if and only if it is known and has a plan that makes its type: no flags, float dependencies and enough operands for a float, one flag passed on directly for a bool |
| `PlanCompiler.Search.CycleOf` | internal/evaluator/plan.go:219-235 | a reported cycle is a real dependency path from the repeated parameter back to itself |
| `PlanCompiler.Search.Visit` | internal/evaluator/plan.go:63-107 | the search compiles a parameter after everything below it and adds nothing unreachable, or names an accurate, reachable culprit; it terminates |
| `PlanCompiler.Search.VisitDependencies` | internal/evaluator/plan.go:87-91 | the loop over one parameter's dependencies leaves all of them compiled, or passes on an accurate culprit |
| `PlanCompiler.Search.Push` | internal/evaluator/plan.go:85-86 | visiting a parameter removes it from the unvisited ones and keeps the stack a path |
| `PlanCompiler.Search.Finish` | internal/evaluator/plan.go:93-105 | finishing emits the parameter's own instruction once, after its dependencies |
| `PlanCompiler.AccurateRefutes` | internal/evaluator/plan.go:161-235 | an accurate error names a parameter that does not compile or lies on a cycle |
| `PlanCompiler.CompileWithPlans` | internal/evaluator/plan.go:41-116 | compilation succeeds if and only if every parameter reachable from the request is known, planned, valid and on no cycle; the program then computes exactly the reachable parameters, each once, dependencies first |
| `PlanCompiler.NeededIsOrdered` | internal/evaluator/plan.go:41-116 | everything needed by a request that an order covers is in the order |
| `Evaluation.RunSolves` | internal/evaluator/evaluate.go:12-56 | running the flat program satisfies the defining equation of every parameter it computes |
| `Evaluation.SolutionsAgree` | internal/evaluator/evaluate.go:12-56 | any two assignments that satisfy the equations agree along the program |
| `Evaluation.MeaningIsUnique` | internal/evaluator/plan.go:41-116 | the flat run is the one and only solution of the recursive definitions: compilation preserves meaning |
| `Evaluation.EvaluateFloat` | internal/evaluator/evaluate.go:58-100 | the accumulating loop, followed by the clamp, gives the defined value, and no value exactly when the definition has none |
| `Evaluation.CombineOperands` | internal/evaluator/evaluate.go:58-100 | the loop yields the operation on all operand values, or fails exactly when some operand has no value |
| `Evaluation.FloatOperandValue` | internal/evaluator/evaluate.go:102-121 | a float operand is read from the frame or from the dense arrays, valid exactly when its source is |
| `Evaluation.BoolOperandValue` | internal/evaluator/evaluate.go:123-149 | a bool operand is an activity flag or an earlier bool parameter |
| `Evaluation.ExecuteInstruction` | internal/evaluator/evaluate.go:18-35 | one loop turn over the dense arrays is one step of the flat run |
| `Evaluation.RunCode` | internal/evaluator/evaluate.go:12-35 | the instruction loop over the arrays computes the flat run |
| `Evaluation.Collect` | internal/evaluator/evaluate.go:37-55 | the snapshot holds exactly the requested valid entries |
| `Evaluation.Evaluate` | internal/evaluator/evaluate.go:12-56 | the snapshot gives each requested parameter the value of its recursive definition and nothing to any other parameter |
| `EvaluationRules.SumIsAdditive` | internal/evaluator/evaluate.go:77-92 | the sum of operands one after the other is the sum of the sums |
| `EvaluationRules.CombineIsResult` | internal/evaluator/evaluate.go:72-98 | an average times the number of its operands is their sum; a maximum is an operand that none exceeds; a signed pair plus the last operand is the largest of the others; a direct value is the first operand |
| `EvaluationRules.ResultIsUnique` | internal/evaluator/evaluate.go:72-98 | these rules leave one result |
| `EvaluationRules.AverageIsBetween` | internal/evaluator/evaluate.go:89-91 | an average lies between the least and the largest operand |
| `EvaluationRules.PairOfOperands` | internal/evaluator/evaluate.go:72-98 | 0.6 and 0.2: average 0.4, maximum 0.6, signed pair 0.4, sum 0.8 |
| `EvaluationRules.ClampIsRanged` | internal/parameters/types.go:158-170 | a clamped value is the nearest of the range, and a value of the range itself |
| `EvaluationRules.OperandIsSupplied` | internal/evaluator/evaluate.go:102-121 | a float operand is the field of the eye sample that it names, its expression, or its parameter, each only if valid |
| `EvaluationRules.OperandIsTold` | internal/evaluator/evaluate.go:123-149 | each activity flag reaches the parameter that names it |
| `EvaluationRules.RunFollows` | internal/evaluator/evaluate.go:12-56 | the flat program gives every needed parameter what the rules make of its operands, and no value exactly if some operand has none |
| `EvaluationRules.EvaluateRequest` | internal/evaluator/evaluate.go:12-149 | compiling and evaluating a request: it fails exactly if the request does not compile, else the snapshot shows the requested part of an assignment that follows these rules down to the frame |
| `LeafAnalysis.LeavesUnfold` | internal/parameterdeps/dependencies.go:163-216 | the leaves of a parameter are its own inputs and the leaves of its dependencies |
| `LeafAnalysis.LeafSearch.Visit` | internal/parameterdeps/dependencies.go:163-216 | the memoised search returns exactly the leaves of a parameter, or a genuine missing plan or cycle below it |
| `LeafAnalysis.LeafSearch.CycleOf` | internal/parameterdeps/dependencies.go:183-194 | a cycle reported by the leaf search is a real dependency cycle |
| `LeafAnalysis.LeafSearch.Finish` | internal/parameterdeps/dependencies.go:209-212 | a finished parameter is cached with exactly its leaves |
| `LeafAnalysis.ResolveLeaves` | internal/parameterdeps/dependencies.go:147-149 | leaf resolution succeeds if and only if nothing below the parameter is missing or cyclic, and then returns exactly its leaves |
| `LeafAnalysis.RequiredInputs` | internal/parameterdeps/dependencies.go:151-161 | the required inputs are exactly the leaves of the listed parameters |
| `LeafAnalysis.CompilableIsResolvable` | internal/parameterdeps/dependencies.go:147-149 | whatever compiles can also be resolved |
| `LeafAnalysis.ValidIffLeavesValid` | internal/evaluator/evaluate.go:12-149 | a computed float is valid in a frame if and only if every eye and expression leaf below it is |
| `LeafAnalysis.ValueDependsOnLeaves` | internal/evaluator/evaluate.go:12-149 | frames that agree on a parameter's leaves give it the same value |
| `LeafAnalysis.SnapshotDependsOnLeaves` | internal/evaluator/evaluate.go:12-56 | the whole snapshot depends only on the leaves of the request |
| `LeafAnalysis.EyeValid` | internal/parameterdeps/dependencies.go:51-74 | an eye bit is required exactly when a field that it validates is |
| `LeafAnalysis.SubscriptionForIsValid` | internal/avatar/plan.go:69-90 | the subscription computed for a plugin passes the plugin interface's validation |
| `LeafAnalysis.SubscriptionSelects` | internal/avatar/requirements.go:16-31 | the subscription for a plugin with all required capabilities selects every required leaf |
| `TrimmedSources.TrimCommutesWithCanonicalize` | internal/tracking/service.go:118-127 | storing a trimmed frame canonically is trimming the stored one |
| `TrimmedSources.ResolveCommutes` | internal/tracking/routing.go:44-71 | with trimmed frames routing chooses the same source of every group that is subscribed to, and none of any other |
| `TrimmedSources.MergeCommutes` | internal/tracking/frame.go:43-86 | merging what trimmed plugins send is trimming what the merge of full plugins shows |
| `TrimThroughService.RejectionMirrors` | internal/tracking/service.go:104-157 | a valid frame and its trimmed copy are refused for the same reason, or both accepted |
| `TrimThroughService.ReselectionMirrors` | internal/tracking/routing.go:44-71 | two services whose sources and selections correspond still correspond after both have remade their selections |
| `TrimThroughService.LatestMirrors` | internal/tracking/frame.go:43-86 | what the service fed trimmed frames shows is what the subscription keeps of what the other shows, but for sequence and times |
| `TrimThroughService.RunBoth` | internal/tracking/service.go:66-196 | over every run, until a clock is exhausted, a service fed trimmed frames answers every submission as the one fed full frames and its latest frame is the trimmed latest frame of the other, but for sequence and times |
| `Exclusion.WinnerIsUnbeaten` | internal/processing/mutual.go:11-26 | the winner of a group is the one valid member that no valid member outranks |
| `Exclusion.OwnGroupDecides` | internal/processing/mutual.go:10-34 | a channel is projected by its own group alone, whatever the other groups do |
| `Exclusion.ProjectionAgrees` | internal/processing/mutual.go:10-34 | leaving channels out of the candidates changes what a kept channel shows if and only if a left-out channel of its group outranked it where no kept one did |
| `TrimThroughPipeline.TrimmedClass` | internal/processing/pipeline.go:111-148 | a trimmed frame is classified as the full one, except that at saturation a change outside the subscription looks like a repeat |
| `TrimThroughPipeline.MirrorsStep` | internal/processing/pipeline.go:56-109 | whatever the full pipeline accepts the one fed trimmed frames accepts, and their kept channels stay equal |
| `TrimThroughPipeline.MirrorsRun` | internal/processing/pipeline.go:43-109 | so over every accepted run |
| `TrimThroughPipeline.ReadingAgrees` | internal/processing/pipeline.go:203-264 | at every call of every accepted run a selected input reads the same from full and from trimmed frames if and only if no unselected channel of its exclusion group hides it; a hidden one reads zero in full and its value when trimmed |
| `TrimSafety.UnmixedIsInvisible` | internal/processing/mutual.go:10-34 | if no exclusion group mixes needed and unselected channels, trimming changes no needed input at any call of any accepted run |
| `TrimSafety.MixingShows` | internal/processing/mutual.go:10-34 | if a group mixes and the unselected channel can outrank a nonzero value of the needed one, the first frame of a stream already reads differently |
| `TrimSafety.InvisibleIffUnmixed` | internal/processing/mutual.go:10-34 | for channels that can show every value, trimming is invisible over all accepted runs if and only if no group mixes |
| `TrimSafety.DefaultIsExpressive` | internal/processing/config.go:26-42 | the default channels can show every value |
| `TrimSafety.PairIsTorn` | internal/processing/mutual.go:10-34 | the counterexample: with default channels and a group of two expressions of which one is needed, 0.5 beside 0.9 reads zero in full and 0.5 trimmed |
| `TrimSafety.TrimKeepsSnapshot` | internal/avatar/plan.go:69-90 | subscribing plugins to what the leaf analysis asks for keeps the snapshot at every call of every accepted run if no exclusion group mixes |
| `TrimSafety.MixingChangesAvatar` | internal/avatar/plan.go:69-90 | a mixed group changes the snapshot of an avatar that shows the needed input directly |
| `TrimSafety.AdvertisedIsEnough` | internal/avatar/plan.go:69-90 | a plugin that sends only what it advertises loses nothing by being subscribed to no more |
| `TrackingModel.CanonicalIsValid` | pkg/trackingmodel/frame.go:125-144 | canonicalizing a valid frame keeps it valid and keeps its groups |
| `TrackingModel.ZeroInvalidEye` | pkg/trackingmodel/frame.go:146-167 | every eye value whose bit is not set is cleared and the others are kept |
| `TrackingModel.ZeroInvalidExpressions` | pkg/trackingmodel/frame.go:125-144 | every expression not marked valid is cleared and the others are kept |
| `Subscriptions.TrimIsSafe` | pkg/pluginapi/subscription.go:83-108 | trimming keeps a frame valid and adds no group or field |
| `Subscriptions.TrimIsIdempotent` | pkg/pluginapi/subscription.go:83-108 | trimming twice is trimming once |
| `Validation.TrimKeepsExactly` | pkg/pluginapi/subscription.go:83-108 | trimming keeps a field if and only if the subscription asks for its group, and for its bit unless for all of them, and clears everything else |
| `Validation.NormalizeExactly` | pkg/pluginapi/subscription.go:26-36 | normalizing drops details of groups not asked for and expressions that do not exist, and nothing else |
| `Validation.SubscriptionFaults` | pkg/pluginapi/subscription.go:39-61 | a subscription is accepted if and only if it has none of the faults listed |
| `Validation.FrameFaults` | pkg/trackingmodel/frame.go:67-93 | a frame is valid if and only if it has none of the faults listed |
| `Validation.InputFaults` | internal/processing/validation.go:14-75 | the pipeline accepts a merged frame if and only if it has none of the faults listed |
| `Validation.GroupFaults` | internal/processing/config.go:148-168 | exclusion groups are accepted if and only if none is too small, names an unknown channel, or one named before |
| `Validation.SettingsFaults` | internal/processing/config.go:55-146 | settings are accepted if and only if they have none of the faults listed |
| `Validation.PolicyFaults` | internal/plugins/supervisor.go:1067-1074 | a restart policy is valid if and only if it has none of the faults listed |
| `RestartPolicies.RestartDelay` | internal/plugins/supervisor.go:1076-1094 | the delay is min(max backoff, initial backoff * multiplier^(failures-1)), with no intermediate overflow |
| `RestartPolicies.QuotientBoundsProduct` | internal/plugins/supervisor.go:1084-1087 | the quotient test is exact: it refuses the product exactly when it would pass the cap |
| `RestartPolicies.DelayIsMonotone` | internal/plugins/supervisor.go:1076-1094 | delays never shrink as failures accumulate |
| `RestartPolicies.DelayMultiplies` | internal/plugins/supervisor.go:1076-1094 | the first delay is the initial backoff, and each further failure multiplies it until the cap is reached |
| `Controls.ChangesAreNewer` | internal/plugins/control.go:19-53 | an accepted configuration or subscription is strictly newer and changes only its own field |
| `Controls.FoldAppend` | internal/plugins/supervisor.go:714-724 | accepting one more control is one more step of the fold |
| `Controls.ConfigurationExactly` | internal/plugins/control.go:19-36 | a configuration changes the state if and only if it is valid and newer, and each refusal has its one cause |
| `Controls.SubscriptionExactly` | internal/plugins/control.go:38-54 | a subscription changes the state if and only if it is acceptable and newer, and each refusal has its one cause |
| `Supervisor.PreparedIsUpdate` | internal/plugins/supervisor.go:603-633 | a prepared control is exactly its own update of the current state |
| `Supervisor.ActivationExactly` | internal/plugins/supervisor.go:622-628 | an activation changes the state if and only if it is another one or forced, and is never refused |
| `Supervisor.Retire` | internal/plugins/supervisor.go:726-737 | retiring refuses the control in flight and then the queued ones in their order, and answers nothing else |
| `Supervisor.DispatchNext` | internal/plugins/supervisor.go:635-682 | dispatching answers the controls that need no delivery, each as its kind demands, and puts the first that needs it in flight; the ledger is unchanged |
| `Supervisor.AnswerHeld` | internal/plugins/supervisor.go:796-807 | every held reply is given the outcome of the stop, a disable's first and a close's last, and cleared |
| `Supervisor.PluginSupervisor.constructor` | internal/plugins/supervisor.go:357-385 | a new supervisor is consistent, and launched exactly if enabled |
| `Supervisor.NewSupervisor` | internal/plugins/supervisor.go:250-312 | a supervisor is refused exactly for an invalid restart policy, a missing session factory, or an invalid configuration or subscription |
| `Supervisor.PluginSupervisor.StartSession` | internal/plugins/supervisor.go:811-856 | a session starts, with the current control state and a new instance, if and only if it opens and the session numbers are not exhausted; else the plugin is incompatible |
| `Supervisor.PluginSupervisor.Commit` | internal/plugins/supervisor.go:714-724 | an accepted control becomes the next step of the fold and later startups see it |
| `Supervisor.PluginSupervisor.BeginStop` | internal/plugins/supervisor.go:739-767 | beginning a stop refuses pending controls in order and holds the command's reply for the intent; the whole new state is stated |
| `Supervisor.PluginSupervisor.OnEnable` | internal/plugins/supervisor.go:436-453 | enable starts a session if and only if there is none and the plugin was disabled or stopped, and answers at once; the whole new state is stated |
| `Supervisor.PluginSupervisor.OnDisable` | internal/plugins/supervisor.go:454-472 | disable stops the session, holding the reply, or without one disables and answers at once; the whole new state is stated |
| `Supervisor.PluginSupervisor.OnRestart` | internal/plugins/supervisor.go:473-497 | restart forgives failures, cancels a backoff, and stops the session, or without one starts a session if and only if enabled, and answers; the whole new state is stated |
| `Supervisor.PluginSupervisor.OnClose` | internal/plugins/supervisor.go:498-524 | close takes over a stop under way, stops a session, or ends an idle loop with nothing outstanding; the whole new state is stated |
| `Supervisor.PluginSupervisor.TakeOverStop` | internal/plugins/supervisor.go:498-524 | a close during another stop refuses a waiting restart and keeps a waiting disable |
| `Supervisor.PluginSupervisor.OnConfigure` | internal/plugins/supervisor.go:533-601 | an accepted configuration is owned at once whatever becomes of its delivery |
| `Supervisor.PluginSupervisor.OnDelivered` | internal/plugins/supervisor.go:533-601 | activation and subscription wait for delivery, or apply at once without a session |
| `Supervisor.PluginSupervisor.HandleCommand` | internal/plugins/supervisor.go:415-531 | each command is refused, answered, held or queued, exactly once |
| `Supervisor.PluginSupervisor.HandleControlResult` | internal/plugins/supervisor.go:684-712 | a completed activation or subscription changes only its own field, even past a newer configuration, its command gets the outcome and the next control its turn; a stale outcome changes nothing |
| `Supervisor.PluginSupervisor.HandleSessionResult` | internal/plugins/supervisor.go:858-909 | an outcome of an older instance changes nothing; otherwise pending controls are refused, and the loop is stopped, incompatible, in backoff with the prescribed delay, or crashed at the limit |
| `Supervisor.PluginSupervisor.HandleStopResult` | internal/plugins/supervisor.go:769-809 | a stop outcome is given to all held replies; after a restart a new session is started; a close ends the loop with nothing outstanding |
| `Supervisor.PluginSupervisor.HandleCallback` | internal/plugins/supervisor.go:966-1019 | callbacks of other instances or during a stop change nothing; the others move the lifecycle one step forward, each its own |
| `Supervisor.PluginSupervisor.RestartTimerFires` | internal/plugins/supervisor.go:394-399 | the restart timer fires only in backoff and starts a session if it opens and the session numbers are not exhausted |
| `Supervisor.PluginSupervisor.StableTimerFires` | internal/plugins/supervisor.go:400-411 | a stable running session has its failures forgiven |
| `Supervisor.PluginSupervisor.Step` | internal/plugins/supervisor.go:357-413 | every event does to the state exactly what is stated of its kind, and keeps the reply ledger, the stop, control and timer invariants and the fold |
| `Supervisor.TakenOnce` | internal/plugins/supervisor.go:415-531 | a command with an id of its own is taken once, so RunLoop answers it exactly once |
| `Supervisor.RunLoop` | internal/plugins/supervisor.go:357-413 | over every run: each event does to the state what is stated of its kind, so a session is started exactly when one is due; no command is answered more often than taken and exactly as often once the loop ends; a stop implies a session and no pending control; the timer is armed exactly in backoff; timer launches stay below the failure limit; the state and every startup are folds of the accepted controls |
| `Dispatches.OutcomeNoted` | internal/plugins/supervisor.go:684-712 | an outcome that comes in closes the dispatch it belongs to and no other |
| `Dispatches.HandoverNoted` | internal/plugins/supervisor.go:635-737 | whatever else a turn of the loop does, every earlier dispatch has its outcome, is in flight, or went to an instance that gets no more |
| `Dispatches.RunDispatches` | internal/plugins/supervisor.go:635-737 | in every run of the event loop, whose states do what the events are to do, a control goes to a session instance only after the outcome of the one before it at that instance has come in |
| `Tracking.LessIsLexicographic` | internal/tracking/routing.go:44-59 | source names are compared byte by byte from the front |
| `Tracking.ChooseAutoSource` | internal/tracking/routing.go:44-59 | in whatever order the map is walked, the current capable source is kept, else the least capable one is chosen |
| `Tracking.ResolveSource` | internal/tracking/routing.go:61-71 | a selection resolves to its pure definition |
| `Tracking.ResolveMeaning` | internal/tracking/routing.go:44-71 | an automatic selection is empty exactly when no source is capable and changes only when the current one stopped being so |
| `Tracking.ResolveIsStable` | internal/tracking/routing.go:44-71 | resolving again changes nothing |
| `Tracking.Service.NextTime` | internal/tracking/service.go:177-184 | the host clock never runs backwards |
| `Tracking.Service.NextReceiptTime` | internal/tracking/service.go:186-196 | receipt times are strictly later than all before until the clock is exhausted, by no more than one or the clock's own reading |
| `Tracking.Service.Recompute` | internal/tracking/frame.go:43-86 | the merged frame is recomputed from the sources, and published with the next sequence if and only if forced or changed |
| `Tracking.Service.SetGeneration` | internal/tracking/service.go:66-95 | a newer generation forgets all sources and publishes an empty frame; older ones are refused |
| `Tracking.Service.Submit` | internal/tracking/service.go:104-168 | a frame is refused for exactly the listed reasons, or stored canonically and merged |
| `Tracking.Service.SetRouting` | internal/tracking/routing.go:73-93 | a valid routing is adopted and the merge follows it |
| `Tracking.Service.RemoveSource` | internal/tracking/routing.go:102-118 | a removed source disappears from the merge |
| `Tracking.PublishConsistent` | internal/tracking/frame.go:37-86 | publishing keeps the stream ordered: sequences strictly increase until saturation |
| `SubmissionRules.RejectionIsVerdict` | internal/tracking/service.go:128-157 | the answer to a submission is decided by what was accepted before: a larger sequence than all, no timestamp and no source clock run back |
| `SubmissionRules.OneVerdict` | internal/tracking/service.go:104-157 | and there is one answer |
| `SubmissionRules.AcceptanceKeeps` | internal/tracking/service.go:158-168 | what the service remembers of a plugin sums up all it has accepted under the generation since the plugin was last removed |
| `SubmissionRules.RunSubmissions` | internal/tracking/service.go:66-196 | in every run each submission is answered as the frames accepted before from its plugin, under the current generation and since its removal, demand |
| `Filters.LowPassAlpha` | internal/processing/filter.go:113-116 | the smoothing factor lies strictly between 0 and 1 |
| `Filters.OutputsStayWithinInputs` | internal/processing/filter.go:38-111 | between resets every filter output lies within the range of the inputs |
| `Filters.AcceptsIncreasingTimes` | internal/processing/filter.go:38-62 | a filter fed in increasing time order never refuses |
| `Filters.DropoutWindows` | internal/processing/dropout.go:24-42 | from the start of the dropout on, one stored value is shown unchanged through the hold window and is exactly zero after the decay window |
| `Filters.MagnitudeNeverGrows` | internal/processing/dropout.go:18-42 | between two instants without a fresh sample, also across becoming unavailable, a channel's magnitude never grows |
| `FilterRules.LowPassIsShare` | internal/processing/filter.go:113-116 | the smoothing factor is the share that 2 pi times cutoff times dt has in that plus one |
| `FilterRules.LowPassRises` | internal/processing/filter.go:113-116 | it rises with the cutoff and with the time between samples |
| `FilterRules.CutoffRises` | internal/processing/filter.go:86 | the cutoff is the configured minimum at rest and rises with the magnitude of the slope, by beta |
| `FilterRules.SampleMoves` | internal/processing/filter.go:38-111 | the first sample passes; a later one moves the output: an average by alpha of the distance, a One Euro filter by the share for a cutoff that follows its smoothed slope; one that is not later is refused |
| `FilterRules.AlphaOneFollows` | internal/processing/filter.go:68-70 | with alpha one the average shows its last input |
| `FilterRules.EmaHomesIn` | internal/processing/filter.go:68-70 | over equal inputs the distance shrinks by one minus alpha with each sample |
| `FilterRules.EmaSettles` | internal/processing/filter.go:68-70 | so it becomes as small as one likes |
| `FilterRules.OneEuroHomesIn` | internal/processing/filter.go:71-94 | while the input rests, the slope of a One Euro filter dies away and its output comes to the input, at least at the rates of the derivative and the minimum cutoff |
| `FilterRules.OneEuroSettles` | internal/processing/filter.go:71-94 | so both become as small as one likes |
| `PipelineConfig.CompileMutualExclusion` | internal/processing/config.go:148-168 | groups compile exactly when each has two or more known channels and no channel is named twice |
| `PipelineConfig.ApplyOverrides` | internal/processing/config.go:63-75 | in whatever order the overrides are walked, every channel gets its override or the default, and an unknown or invalid override is refused |
| `PipelineConfig.CompileConfig` | internal/processing/config.go:55-83 | settings compile exactly when everything in them validates, to a valid configuration |
| `PipelineConfig.NewPipeline` | internal/processing/pipeline.go:33-39 | a pipeline is refused exactly for settings that do not compile, and starts without history |
| `Pipeline.CalibrationSucceeds` | internal/processing/pipeline.go:178-201 | a valid calibration never divides by zero |
| `Pipeline.WinnerIsLargest` | internal/processing/pipeline.go:203-264 | the winner of an exclusion group is its first channel of largest magnitude |
| `Pipeline.ProjectionExcludes` | internal/processing/pipeline.go:203-264 | after projection at most one channel of a group is nonzero |
| `Pipeline.OutputIsCanonical` | internal/processing/pipeline.go:203-264 | the output's values agree with its validity bits |
| `Pipeline.Canonical` | internal/processing/pipeline.go:203-264 | the loop over channels fills the frame that the definition prescribes |
| `Pipeline.IngestRange` | internal/processing/pipeline.go:178-201 | every valid raw value of the range goes through its channel, or the first refusal fails |
| `Pipeline.PrepareRange` | internal/processing/pipeline.go:166-176 | a group's channels are reset or marked unavailable exactly as its source changed |
| `Pipeline.IngestSucceeds` | internal/processing/filter.go:38-62 | a channel behind its source's time cannot refuse the sample |
| `Pipeline.ClocksStayBehind` | internal/processing/pipeline.go:56-109 | accepting a frame keeps every filter behind its group's time |
| `Pipeline.OrderedIsAccepted` | internal/processing/pipeline.go:56-109 | valid input that classification admits cannot fail while every filter is behind its group's time |
| `Pipeline.ProcessingPipeline.ProcessAt` | internal/processing/pipeline.go:43-109 | a call is accepted exactly when its input is valid, admitted and refused by no filter; a rejected call changes nothing and names its reason; an accepted one moves each channel by its rule |
| `PipelineRuns.RunPipeline` | internal/processing/pipeline.go:43-54 | over every sequence of calls the pipeline shows what its definition as a fold over the calls shows |
| `PipelineRuns.ResetForgets` | internal/processing/pipeline.go:68-75 | once an accepted frame starts a newer generation, the state depends on it and what follows alone |
| `PipelineRuns.ShownAfterReset` | internal/processing/pipeline.go:68-75 | and every output from there on is that of a pipeline that never saw anything earlier |
| `PipelineRuns.ChannelIsFed` | internal/processing/pipeline.go:178-201 | in every run a channel's filter is a new filter fed the tuned samples since its generation or its source last changed |
| `PipelineRuns.ShownIsBounded` | internal/processing/dropout.go:11-42 | in every run, at any time, a channel shows no more than the largest of those samples |
| `PipelineRuns.QuietRunShrinks` | internal/processing/dropout.go:18-42 | over calls that bring a channel no sample, whether its source stays or goes, its magnitude never grows |
| `DropoutRuns.OnsetHolds` | internal/processing/dropout.go:11-22 | in every run a channel's dropout starts when its last sample is stale, or when its source goes away before that |
| `DropoutRuns.ShownExactly` | internal/processing/dropout.go:11-42 | in every run and at any time a channel shows nothing exactly if no sample has reached it, else the output of its filter, faded by the time since its dropout started |
| `DropoutRuns.WindowsOverRun` | internal/processing/dropout.go:11-42 | from a sample on, while the source stays and brings the channel nothing more, the filter's output is shown unchanged through the stale and the hold window and exactly zero past the decay window |
| `ChannelRules.RawIsRead` | internal/processing/channel.go:51-82 | each channel reads its own field of the eye sample, or its expression, exactly if that is valid |
| `ChannelRules.CalibrateIsCalibrated` | internal/processing/calibration.go:14-67 | calibration puts neutral at zero, the maximum and above at the gain, the minimum and below at its negative, inverted if asked, and is linear in between |
| `ChannelRules.CalibratedIsUnique` | internal/processing/calibration.go:14-67 | and leaves one value |
| `ChannelRules.TuneIsTuned` | internal/processing/tuning.go:17-58 | tuning shows nothing inside the deadzone; outside, a power of what lies beyond it, with the sign of the value, held in the range |
| `ChannelRules.TunedIsUnique` | internal/processing/tuning.go:17-58 | and leaves one value |
| `ChannelRules.NeutralTuning` | internal/processing/tuning.go:17-58 | no deadzone, gain and exponent one and no range change nothing |
| `ChannelRules.CallTurns` | internal/processing/pipeline.go:56-109 | in every run an accepted call starts a channel anew, feeds it the frame's sample, marks its source gone or leaves it alone, exactly as the frame differs from the last one accepted; a refused call leaves it alone |
| `ChannelRules.RefusedExactly` | internal/processing/pipeline.go:111-164 | classification refuses a frame if and only if it neither repeats the last one nor is newer and later, for the reason named |
| `ChannelRules.AcceptedExactly` | internal/processing/pipeline.go:43-109 | a call is accepted if and only if the frame is valid, continues what was accepted, and brings no channel a sample that is not later than its last |
| `ChannelRules.AcceptedRunsForward` | internal/processing/pipeline.go:111-164 | in every run accepted calls never go back in generation, revision or time, and one revision is one frame until revisions are exhausted |
| `ChannelRules.CandidateIsFaded` | internal/processing/dropout.go:24-42 | a channel shows its value until the hold is over, then falls in a straight line to zero at the end of the decay |
| `ChannelRules.ProjectedExactly` | internal/processing/mutual.go:10-34 | a channel is forced to zero if and only if another one of its exclusion group shows more, or as much and comes first |
| `ChannelRules.CanonicalDisplays` | internal/processing/pipeline.go:203-268 | each field of the output shows its channel, gaze axes and pupil values in pairs; the rest of it tells of the frame and which groups are active |
| `ChannelRules.CallShows` | internal/processing/pipeline.go:203-268 | so at every accepted call of every run |
| `ChannelRules.ProcessByRules` | internal/processing/pipeline.go:43-109 | one call to the pipeline is accepted, turns its channels and shows them by these rules, and by nothing else |
| `ChannelRules.SteadyEma` | internal/processing/filter.go:68-70 | in every run, what a channel with an exponential average shows of a steady input is off by the first distance times a power of one minus alpha |
| `ChannelRules.SteadyOneEuro` | internal/processing/filter.go:71-94 | and with a One Euro filter by no more than at the minimum cutoff |
| `MergeThenProcess.RunService` | internal/tracking/service.go:66-196 | in every run each event does to the service what is stated of its kind, the published frames are an ordered stream and the latest equals the pure merge of the current sources |
| `MergeThenProcess.WellFormedIsValid` | internal/processing/validation.go:14-75 | every frame the service can publish passes input validation |
| `MergeThenProcess.FollowingIsAdmitted` | internal/processing/pipeline.go:111-164 | the same or a later frame of the stream is never refused by classification, also after saturation |
| `MergeThenProcess.SaturatedAdmission` | internal/processing/pipeline.go:136-164 | with equal sequence numbers a changed frame is admitted exactly at saturation with no freshness regression |
| `MergeThenProcess.StreamIsAccepted` | internal/processing/pipeline.go:43-164 | an ordered stream never lets a filter get ahead of its source, so call after call is accepted |
| `MergeThenProcess.Process` | internal/processing/pipeline.go:43-54 | any in-order selection of an ordered stream, at increasing times, is accepted throughout |
| `MergeThenProcess.MergeAndProcess` | internal/processing/pipeline.go:43-54 | the pipeline accepts everything the merge service can produce |
| `MergeProvenance.LatestIsSent` | internal/tracking/frame.go:43-86 | what the service shows of a group was sent by the source it names, under the current generation |
| `MergeProvenance.StoredIsSent` | internal/tracking/service.go:104-168 | an event leaves only sources that were stored under the current generation |
| `MergeProvenance.RunProvenance` | internal/tracking/service.go:66-196 | in every run, whatever a published frame shows was sent by the source it names under the frame's own generation |
| `HostClock.MonotonicClock.Sample` | internal/application/clock.go:36-51 | a sample is never before the wall or an earlier sample; a strict one moves on until the counter is exhausted |
| `HostClock.RunClock` | internal/application/clock.go:36-51 | strict samples strictly increase however the wall clock jumps |
| `CoordinatorRuns.AcceptedIffInTime` | internal/processing/validation.go:14-75 | calls at increasing times on an ordered stream are all accepted if and only if no frame is processed at a time before its publication |
| `CoordinatorRuns.SetBackIsRefused` | internal/processing/validation.go:14-75 | the witness: a frame published at 100 and processed at 99 is refused |
| `CoordinatorRuns.ProcessingTimes` | internal/application/coordinator.go:111-126 | the coordinator processes at times that increase until its clock is exhausted, none before what the wall showed |
| `CoordinatorRuns.RunCoordinator` | internal/application/coordinator.go:109-126 | for every run of the service, all frames and ticks that reach the coordinator in order, and all readings of the wall: until the clock is exhausted every call is accepted if and only if no sample is before its frame's publication, so whenever the wall shows no time before that |
| `OscWire.WireDetermined` | pkg/osc/packet.go:204-245 | a packet starts with the wire form of at most one message |
| `OscWire.ArgsDetermined` | pkg/osc/packet.go:213-243 | tags and data determine the arguments |
| `OscWire.PadDetermined` | pkg/osc/packet.go:252-282 | padded text is determined by any bytes that start with it |
| `OscWire.WireIsAligned` | pkg/osc/packet.go:69-119 | the size of every encoded message is a multiple of four |
| `OscWire.BytesRoundTrip` | pkg/osc/packet.go:221-230 | four bytes survive decoding and encoding as a word |
| `OscFormat.WordIsSpelled` | pkg/osc/packet.go:104-117 | a word is spelled by its four bytes, the most significant first |
| `OscFormat.WireIsLaidOut` | pkg/osc/packet.go:69-119 | the wire form of a message is what the format demands, byte by byte: the address from its slash, its padding, a comma and the letters of the tags, the data |
| `OscFormat.OneAtSlashA` | pkg/osc/packet.go:69-119 | the witness: the int 1 at /a, in bytes |
| `OscCodec.WritePaddedString` | pkg/osc/packet.go:252-258 | the text, a NUL and up to three more fill the buffer to a multiple of four |
| `OscCodec.TypeTags` | pkg/osc/packet.go:74-99 | the type tags of supported arguments, or the error of the first unsupported one |
| `OscCodec.WriteArguments` | pkg/osc/packet.go:104-117 | the argument data in order |
| `OscCodec.MarshalMessage` | pkg/osc/packet.go:69-119 | a message is encoded exactly when it is encodable, to the bytes that the format demands; otherwise the first fault is reported |
| `OscCodec.ReadPaddedString` | pkg/osc/packet.go:260-282 | text is read exactly when padded text stands at the offset |
| `OscCodec.ReadArgument` | pkg/osc/packet.go:214-242 | an argument is read exactly when its tag and the bytes spell one; unknown tags and missing data are told apart |
| `OscCodec.ReadArguments` | pkg/osc/packet.go:212-243 | the tags are read to the end, or reading stops at the first argument that cannot be read |
| `OscCodec.OneStop` | pkg/osc/packet.go:212-243 | reading has one outcome |
| `OscCodec.UnmarshalMessage` | pkg/osc/packet.go:204-245 | a message is read exactly when the packet starts with the bytes that the format demands for an encodable one; otherwise an unknown tag or malformation is reported truly |
| `OscPackets.UnmarshalPacket` | pkg/osc/packet.go:157-159 | decoding computes the recursive meaning of a packet, on every input |
| `OscPackets.UnmarshalNested` | pkg/osc/packet.go:161-176 | a packet at any depth is decoded to its meaning, trailing bytes refused |
| `OscPackets.UnmarshalBundle` | pkg/osc/packet.go:178-202 | the element loop computes the recursive meaning of the bundle |
| `OscPackets.MessageRoundTrip` | pkg/osc/packet.go:69-176 | every encodable message decodes back to itself |
| `OscPackets.AcceptedMessageIsItsWire` | pkg/osc/packet.go:161-176 | re-encoding an accepted message packet gives the same bytes |
| `OscPackets.AcceptedIsAligned` | pkg/osc/packet.go:161-202 | every accepted packet's length is a multiple of four |
| `OscPackets.DecodedIsEncodable` | pkg/osc/packet.go:161-245 | whatever is decoded can be encoded again |
| `OscPackets.ShallowerIsAccepted` | pkg/osc/packet.go:161-202 | what is accepted inside a bundle has the same meaning outside |
| `OscNesting.NestingDecides` | pkg/osc/packet.go:161-202 | a packet that is accepted at some depth is accepted, with the same meaning, exactly at the depths where its nesting still fits |
| `OscNesting.AcceptedExactly` | pkg/osc/packet.go:133-136 | a packet is accepted at a depth if and only if it is accepted alone and depth and nesting together are at most 32 |
| `OscNesting.RefusedAsElement` | pkg/osc/packet.go:133-136 | an accepted packet is refused as a bundle element exactly if it is too large or nested in 32 bundles already |
| `OscNesting.Nested` | pkg/osc/packet.go:161-202 | every nesting from 0 to 32 occurs, around every encodable message that is not excessively long |
| `OscNesting.DeepestIsNoElement` | pkg/osc/packet.go:133-136 | the witness: 32 bundles around a message are accepted alone and refused as an element |
| `OscPackets.BundleRoundTrip` | pkg/osc/packet.go:122-202 | decoding an encoded bundle is the concatenation of its elements' decodings |
| `OscPackets.BundleIsLaidOut` | pkg/osc/packet.go:122-146 | the bytes of a bundle are what the format demands: the eight of its tag, eight of the time, and each element after its size, the most significant byte first |
| `OscPackets.MarshalBundle` | pkg/osc/packet.go:122-146 | a bundle is encoded exactly when every element is an acceptable packet, to the bytes that the format demands, immediate when no time is given |
| `OscScalars.ScalarWire` | internal/osc/builder.go:79-96 | the reference encoding of a scalar message, piece by piece |
| `OscScalars.AppendScalarMessage` | internal/osc/builder.go:79-96 | on an aligned buffer the fast encoder appends exactly the reference encoding |
| `OscScalars.ScalarMessageSize` | internal/osc/builder.go:98-123 | the predicted size is the reference encoding's length |
| `OscScalars.BundleOfDecodes` | internal/osc/builder.go:41-69 | a bundle of scalar messages decodes to those messages in order |
| `OscScalars.BundleBuilder.AppendScalar` | internal/osc/builder.go:47-69 | a message is appended exactly when the bundle still fits a datagram; the buffer stays the bundle of its messages |
| `OscScalars.BundleBuilder.Empty` | internal/osc/builder.go:75-77 | only the header is in an empty bundle |
| `OscOutputs.BeforeIsLexicographic` | internal/osc/catalog.go:276-291 | addresses are compared byte by byte from the front |
| `OscOutputs.SortedIsGrouped` | internal/osc/catalog.go:276-291 | the order by address puts outputs with one address next to each other |
| `OscOutputs.UniqueOutputs` | internal/osc/catalog.go:276-313 | repeated outputs are dropped; compilation fails exactly when two different outputs share an address, or else when there are more than 65536 addresses |
| `OscOutputs.BinaryMagnitude` | internal/osc/sender.go:293-305 | the magnitude is a share between 0 and 1 |
| `OscOutputs.UsableIsNeverBroken` | internal/osc/sender.go:207-280 | a compiled output never fails to evaluate for its wire kind, and what it sends can be encoded |
| `OscOutputs.RoundIsNearest` | internal/osc/sender.go:250-261 | an int output carries the nearest integer, rounded the same way for either sign |
| `OscOutputs.TruthIsTold` | internal/osc/sender.go:263-280 | whatever the wire kind, true and false are sent as different scalars |
| `OscMeaning.ClampIsRanged` | internal/osc/sender.go:282-287 | an output sees the value of its range that is nearest |
| `OscMeaning.BinaryIsMagnitude` | internal/osc/sender.go:293-305 | how large a value is: its size as a share of one or of the larger end of a signed range, else its height above the lower end as a share of the range |
| `OscMeaning.QuantizeReaches` | internal/osc/sender.go:237-241 | the level is the highest that the share reaches |
| `OscMeaning.WantedIsUnique` | internal/osc/sender.go:207-248 | what an output wants to tell of a source is one quantity, if any |
| `OscMeaning.TruthIsSent` | internal/osc/sender.go:263-280 | a truth is decoded as itself, as 1 or 0, or as the bits of 1.0 or 0.0 |
| `OscMeaning.NumberIsSent` | internal/osc/sender.go:250-261 | a number is decoded as its bits, as the nearest integer, or as whether it is at least a half |
| `OscMeaning.OutputTells` | internal/osc/sender.go:207-280 | an output sends what carries the quantity it wants to tell, and nothing exactly if the source has no value for it |
| `Quantization.QuantizeMax` | internal/osc/catalog.go:237-241 | the loop or-s the weights together |
| `Quantization.OrOfWeights` | internal/osc/catalog.go:237-241 | the weights 1, 2, ..., 2^(n-1) together give 2^n - 1 |
| `Quantization.BitsAddUp` | internal/osc/sender.go:231-243 | the weights of the true bits add up to the quantized value |
| `Quantization.ApproximationHoldsExactly` | internal/osc/sender.go:231-243 | the bits approximate the magnitude within one step if and only if there are at most 31 of them or the magnitude is at most one step; with 32 the level count wraps |
| `Quantization.BitSumIsMonotone` | internal/osc/sender.go:231-243 | a larger magnitude never has smaller bits |
| `Quantization.GapLosesValue` | internal/osc/sender.go:231-243 | the witness: with the weights 1 and 4 the bits do not add up |
| `BinaryWeights.OrAllBits` | internal/osc/catalog.go:237-241 | the or of weights has exactly the bits that some weight has, whatever their order and however often they are repeated |
| `BinaryWeights.BitsAddUpExactly` | internal/osc/sender.go:231-243 | for every list of powers of two: the true bits add up to the quantized value for all magnitudes if and only if the weights are consecutive, or all 32 bits are present and the level count wraps |
| `Quantization.GroupApproximates` | internal/osc/sender.go:231-243 | the independently evaluated outputs of one binding approximate the value's magnitude |
| `OscSender.CommittedAgrees` | internal/osc/sender.go:183-205 | committing exactly what was delivered keeps cache and receiver in agreement |
| `OscSender.SettledIsUpToDate` | internal/osc/sender.go:198-205 | a cache close to the current values means a receiver close to them |
| `OscSender.DeliveredIsConsistent` | internal/osc/sender.go:183-196 | one accepted packet, committed, keeps the sender consistent with the bytes sent |
| `OscSender.ParameterSender.constructor` | internal/osc/sender.go:54-66 | senseless settings fall back to 0.001 and 1200 bytes |
| `OscSender.ParameterSender.SetCatalog` | internal/osc/sender.go:68-83 | the cache survives only a catalog of the same hash and size, which does not collide with the current one |
| `OscSender.ParameterSender.ResetChangeDetection` | internal/osc/sender.go:89-95 | a reset invalidates every entry |
| `OscSender.ParameterSender.SendStandalone` | internal/osc/sender.go:119-138 | changed values are sent one by one; only current values are sent; success settles every output |
| `OscSender.ParameterSender.SendBundle` | internal/osc/sender.go:140-181 | changed values are bundled, flushed when full and sent alone when too large; success settles every output |
| `OscSender.ParameterSender.FlushBundle` | internal/osc/sender.go:183-196 | the bundle sent is at most a datagram, decodes to exactly the pending scalars in output order, and is committed only if accepted |
| `OscSender.ParameterSender.Send` | internal/osc/sender.go:97-117 | a send that ends well leaves the receiver with every current value, and it fails only if the transport refused a packet; nothing is sent when nothing changed |
| `OscSender.RunSender` | internal/osc/sender.go:68-205 | over every run of swaps, resets and failing sends each valid cache entry is what the receiver decoded from the accepted packets, and a final success leaves it up to date |
| `OscMeaning.UpToDateIsTold` | internal/osc/sender.go:97-117 | a receiver that is up to date knows what every output wants to tell |
| `OscMeaning.RunTelling` | internal/osc/sender.go:68-205 | so after every run that ends in a successful send the receiver, decoding the packets, knows what every output of the last catalog wants to tell of the source |
| `GenerationFence.Host.Submit` | internal/tracking/service.go:104-125 | only frames of the current generation are kept |
| `GenerationFence.TagsAreSelected` | internal/tracking/frame.go:43-86 | a merge combines what the selected sources hold, and nothing else |
| `GenerationFence.Host.Send` | internal/osc/runtime.go:113-121 | a send hands over the held source under the held catalog |
| `GenerationFence.Host.Others` | internal/application/coordinator.go:62-128 | whatever the other goroutines do in between keeps the fence and the coordinator's own fields |
| `GenerationFence.Host.InstallCatalog` | internal/osc/runtime.go:64-79 | installing a catalog drops the source |
| `GenerationFence.Host.Publish` | internal/osc/runtime.go:81-97 | a source is taken only for the installed generation |
| `GenerationFence.Host.PlannerActivate` | internal/avatar/planner.go:58-66 | every activation uses a new generation until the counter is exhausted |
| `GenerationFence.Host.SetGeneration` | internal/tracking/service.go:66-95 | moving the generation forgets all sources |
| `GenerationFence.Host.DeactivateAll` | internal/application/install.go:134-152 | every plugin in turn is told to stop, and exactly the ones that refused are known |
| `GenerationFence.Host.ActivateMatching` | internal/application/install.go:90-114 | every plugin that the plan wants and that stopped is subscribed, then activated, and told to stop again if that failed; output is blocked exactly when that failed too |
| `GenerationFence.Host.ActivateOne` | internal/application/install.go:95-111 | one plugin is subscribed; if that succeeds it is activated, and if that fails it is told to stop |
| `GenerationFence.Host.Install` | internal/application/install.go:53-124 | output is cleared first and comes back under the new plan exactly when the plan is usable and nothing is stuck |
| `GenerationFence.Host.ActivateAvatar` | internal/application/coordinator.go:130-151 | the plugins are told what the plan wants, and the runtime is ready for it exactly if it is usable and nothing is stuck; cancellation leaves everything but the planner's counter alone |
| `GenerationFence.Host.Process` | internal/application/coordinator.go:153-196 | what an accepted frame of the current usable plan is evaluated to is published, unless the runtime lost the plan's catalog or was shut down; a failure clears the runtime and suspends output |
| `GenerationFence.Host.FailRuntime` | internal/application/coordinator.go:242-250 | a failure clears the runtime |
| `GenerationFence.RunHost` | internal/application/coordinator.go:62-196 | in every interleaving each value handed to the transport was computed by the plan of the installed catalog from frames of that generation alone, and generations never go back |
| `PluginHost.RuntimeHost.PublishFrame` | pkg/pluginruntime/runtime.go:605-621 | a frame is stored exactly when valid and the plugin is active and subscribed, under the current subscription |
| `PluginHost.RuntimeHost.ApplyConfig` | pkg/pluginruntime/runtime.go:668-685 | only a newer configuration changes the state; a conflicting one fails |
| `PluginHost.RuntimeHost.ApplySubscription` | pkg/pluginruntime/runtime.go:687-705 | a newer subscription drops a pending older frame |
| `PluginHost.RuntimeHost.ApplyActive` | pkg/pluginruntime/runtime.go:707-718 | deactivation drops the pending frame |
| `PluginHost.RuntimeHost.Stop` | pkg/pluginruntime/runtime.go:720-732 | a stop drops the pending frame for good |
| `PluginHost.RuntimeHost.ClearBefore` | pkg/pluginruntime/frame.go:59-65 | only a pending frame of an older generation is removed |
| `PluginHost.RuntimeHost.Load` | pkg/pluginruntime/frame.go:45-56 | the frame taken is trimmed to, and tagged with, the current subscription |
| `PluginHost.RunPlugin` | pkg/pluginruntime/runtime.go:605-732 | in every run each frame taken for sending carries the generation subscribed to when it is taken, and generations never go back |
| `SessionWriter.TransmitTellsState` | internal/plugins/control.go:197-230 | what is transmitted tells the plugin exactly how its state changes |
| `SessionWriter.CarriedOutNext` | internal/plugins/control.go:151-180 | a success is told exactly for a request that changes nothing or whose message is the next on the wire |
| `SessionWriter.EffectIsTold` | internal/plugins/control.go:197-230 | a request that takes effect gives the plugin its own field and leaves it the others |
| `SessionWriter.Writer.Control` | internal/plugins/control.go:105-134 | a request enters the queue or is refused on the spot; a shutdown closes the door behind it |
| `SessionWriter.Writer.Receive` | internal/plugins/control.go:151-164 | the next request is answered at once or starts a send |
| `SessionWriter.Writer.SendEnds` | internal/plugins/control.go:165-180 | the sender of the request in flight is answered; failure and shutdown close the writer |
| `SessionWriter.Writer.StopAccepting` | internal/plugins/control.go:183-186 | nothing enters the queue after this |
| `SessionWriter.Writer.Drain` | internal/plugins/control.go:187-195 | each leftover request is refused once |
| `SessionWriter.Writer.Settle` | internal/plugins/control.go:151-195 | left alone, the writer comes to rest with every request answered |
| `SessionWriter.RunWriter` | internal/plugins/control.go:105-195 | in every interleaving each step does what is stated of its kind; requests are answered in order, once each, all of them once the writer is done; the messages sent are exactly those of the requests answered with success, and replay to the writer's state |
| `Session.ProcessSession.Control` | internal/plugins/session.go:139-181 | under the session's lock a control waits, or its caller has seen Ready and goes on to the writer, or it is refused, by phase |
| `Session.ProcessSession.Enter` | internal/plugins/session.go:173-176 | under the writer's lock a call that has seen Ready, or one of the replay, enters the queue past the earlier ones still on their way, or gets the writer's refusal |
| `Session.ProcessSession.Abandon` | internal/plugins/control.go:105-119 | a caller on its way to the writer may give up |
| `Session.ProcessSession.Shutdown` | internal/plugins/session.go:853-880 | the session's own shutdown enters last; nothing enters after it |
| `Session.ProcessSession.Cancel` | internal/plugins/session.go:183-196 | a caller can withdraw its control exactly while it is pending |
| `Session.ProcessSession.RejectPending` | internal/plugins/session.go:526-531 | every pending control is answered |
| `Session.ProcessSession.BeginReplay` | internal/plugins/session.go:336-346 | the replay begins unless the session was stopped |
| `Session.ProcessSession.ReplayNext` | internal/plugins/session.go:424-447 | the first pending control is taken and its call set on its way, or the session becomes ready |
| `Session.ProcessSession.ReplayEnds` | internal/plugins/session.go:449-451 | what the replayed call came back with reaches the caller |
| `Session.ProcessSession.ReplayTimesOut` | internal/plugins/session.go:533-544 | after a failure the caller of a replayed control is answered although the call may still enter the writer |
| `Session.ProcessSession.BeginReplayStop` | internal/plugins/session.go:517-524 | a failed replay stops the session and answers the pending controls |
| `Session.ProcessSession.End` | internal/plugins/session.go:218-231 | the end answers everything pending |
| `Session.EnteringKeepsOrder` | internal/plugins/session.go:424-447 | a call that enters keeps what waited first and in order, and overtakes exactly the earlier calls still between the locks |
| `Session.ShutdownKeepsOrder` | internal/plugins/session.go:853-880 | a shutdown overtakes everything between the locks, and none of that enters any more |
| `Session.RunSession` | internal/plugins/session.go:139-544 | in every interleaving what had to wait enters the writer in the order of arrival and before every call that saw Ready; all calls enter in the order of arrival if and only if none was overtaken between the locks, so if there were never two there; a waiting control gets at most one reply, exactly one once the session is ready or over, and success only if the writer carried it out |
| `Session.LaterCallFirst` | internal/plugins/session.go:173-176 | whenever two calls are between the locks and the writer has room, the later one can enter first |
| `Session.SwapExample` | internal/plugins/session.go:173-176 | the counterexample: two calls to a ready session reach the writer as [1, 0] |
| `Session.TakeStep` | internal/plugins/session.go:139-544 | no step but a call brings a session a new control, and only a step of the writer has an effect on the plugin: that of the one request it answers |
| `Delivery.TurnIsLinked` | internal/plugins/supervisor.go:635-712 | a turn of the loop starts a goroutine for a session only when the earlier one is through |
| `Delivery.TurnKeepsInformed` | internal/plugins/supervisor.go:684-712 | a turn of the loop changes the activation and subscription desired of a running instance only by an outcome that the session gave |
| `Delivery.GoneWhenBack` | internal/plugins/session.go:139-181 | when a call has come back from a session that is not stopping, nothing is left of it on the way to the writer, and it was a success exactly if the writer said so |
| `Delivery.DealKeepsInformed` | internal/plugins/control.go:151-180 | when the writer answers a request, the plugin is told exactly what the supervisor will make of the answer |
| `Delivery.Place` | internal/plugins/supervisor.go:670-681 | the goroutine's call to the session never meets another one there |
| `Delivery.Serve` | internal/plugins/session.go:139-544 | no step inside the session comes between the goroutine's call and the plugin |
| `Delivery.SupervisedInstance.Turn` | internal/plugins/supervisor.go:386-413 | a turn of the loop keeps supervisor, goroutine, session and plugin in step |
| `Delivery.SupervisedInstance.CallReturns` | internal/plugins/supervisor.go:670-681 | and so does the return of the call |
| `Delivery.RunDelivery` | internal/plugins/supervisor.go:635-712 | in every interleaving of event loop, goroutine, session and writer: a session never has two of its supervisor's calls to deal with, so controls enter the writer in the order in which they were sent; and while the supervisor counts on the instance and its session is not stopping, the plugin has been told exactly the desired activation and subscription, but for the control in flight |
| `Session.OwnerKeepsSound` | internal/plugins/session.go:866-893 | each step of the shutting-down goroutine keeps the handshake sound |
| `Session.ReaderKeepsSound` | internal/plugins/session.go:730-741 | each step of the reader keeps the handshake sound |
| `Session.RunHandshake` | internal/plugins/session.go:730-741 | in every interleaving an acknowledgement that came after the send began is signalled once both sides are through |
| `Events.EnqueueState` | internal/plugins/events.go:272-280 | a state event replaces the pending one of its key or takes a place, evicting the oldest key when none is free |
| `Events.EnqueueLog` | internal/plugins/events.go:281-297 | a full log queue counts the record, a free one takes it with the count |
| `Events.EnqueueNotice` | internal/plugins/events.go:298-302 | a notice is queued while there is room |
| `Events.Next` | internal/plugins/events.go:305-329 | the oldest of all heads is chosen, or nothing is pending |
| `Events.Pop` | internal/plugins/events.go:331-347 | the event of the given number is removed and no other |
| `Events.PopIsConsistent` | internal/plugins/events.go:305-347 | popping what was chosen removes exactly that event and leaves only younger ones |
| `Events.LogIsAccounted` | internal/plugins/events.go:281-297 | a dispatched log record is pending or counted as dropped |
| `Events.EventSubscriber.Enqueue` | internal/plugins/events.go:270-303 | state changes and statuses replace the pending event of their key, the other events are queued while there is room, and the queues stay bounded, duplicate-free and in order |
| `Events.EventSubscriber.Deliver` | internal/plugins/events.go:305-347 | sequence numbers delivered strictly increase |
| `Events.RunSubscriber` | internal/plugins/events.go:226-347 | over every run deliveries are in order, the state order equals the pending keys, queues stay within capacity, and every log record is delivered, pending or counted until a counter saturates |

## Left out

- `OscScalars.BundleBuilder.AppendScalar`: the datagram limit is an int32, as the 4-byte element size of the format demands; larger limits are not modelled.
- `OscOutputs.UniqueOutputs`: takes what the standard library's sort returns, of which only the order by address and the same elements are assumed.
- `PipelineConfig.CompileConfig`: says that settings are refused, not which of several faults is named; the source walks the overrides in any order.
- `TrimThroughPipeline.MirrorsRun`: full and trimmed frames carry the same sequence numbers and times. Of two services of their own it is proved that they agree in all but those (`TrimThroughService.RunBoth`); the times are left out, so a fade may start at another moment.
- `GenerationFence.Host.Process`: a channel's memory of earlier frames is a set of generation tags; that a reset forgets them is proved of the pipeline itself (`PipelineRuns.ResetForgets`).
- `Delivery.RunDelivery`: speaks of activation and subscription; a configuration is desired from the moment it is accepted and its delivery may fail, so the plugin may have an older one until its next start. When an instance ends and what its callbacks report are inputs.
- `Quantization.GroupApproximates`: rounding of the float32 product is not modelled, so the bound is the one for exact arithmetic.
- `GenerationFence.Host.Others`: the merge and the pipeline appear only through the generations of the frames they combine; that the merge combines frames of its own generation only is proved of the service itself (`MergeProvenance.RunProvenance`).
- `GenerationFence.RunHost`: merge and pipeline are these tags and not the objects of modules `Tracking` and `Pipeline`.
- `Supervisor.PluginSupervisor.HandleStopResult`: the held replies are given before the next session starts, the source gives them right after; nothing else can happen in between.
- `Supervisor.PluginSupervisor.HandleCallback`: snapshot metrics (frame rate, last heartbeat, status, restart count, last error) are not part of the state.
- `Filters.MagnitudeNeverGrows`: the decay is computed over reals; the rounding of the last fraction before zero is not modelled.
- `Session.RunSession`: which worker fails, the error texts and the time limits are not modelled; each failure is an arbitrary step. A call's context is looked at before it enters the writer, not once more under the writer's lock.
- Fields of one object are bundled in one value and slices that only grow or shrink are sequences, so update in place within a slice (the pipeline's channels, the sender's cache) is modelled by replacing an element.
- Bitsets of parameters, eye fields and expressions are sets or Boolean arrays; masking of unused tail bits is modelled, word layout is not.
- IEEE rounding, overflow, NaN and infinities: every value is a finite real, so the finiteness checks always pass.
- Configuration bytes are a string with a flag for being well-formed JSON; JSON encoding and decoding are not modelled.
- Admission signals of the supervisor (the early error a caller may see before its reply) are not modelled; the reply itself is.
- Per-reason rejection counters and summary subscriptions of the merge service are not modelled; the totals are.
- Catalog discovery, OSCQuery, UDP and HTTP, process launching, pipes, configuration files and the user interface are not modelled.
- The concrete parameter definitions and dependency table are parameters of the model.
- Status publication and the parameter drive probe of the coordinator do not influence what is sent and are not modelled.
- `pkg/protocol/message.go` framing is not modelled; protocol messages are values.
