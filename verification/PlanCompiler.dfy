/**
 The plan compiler: a three-colour depth-first search that flattens the
 dependency graph below the requested parameters into a straight-line
 instruction list.
 */
module PlanCompiler {
  import opened Common
  import opened TrackingModel
  import opened DependencyGraph

  datatype ValueType = FloatValue | BoolValue | OtherValue(code: nat)

  datatype Definition = Definition(valueType: ValueType, hasRange: bool, min: real, max: real)

  /** The generated definition table (indexed by parameter id) and the dependency plans. */
  datatype World = World(definitions: seq<Definition>, plans: Plans)

  datatype Operand =
    | EyeOperand(field: EyeField)
    | ExpressionOperand(expression: nat)
    | ActiveOperand(active: ActiveState)
    | ParameterOperand(parameter: nat)

  datatype Instruction = Instruction(
    parameter: nat, valueType: ValueType, operation: Operation, operands: seq<Operand>)

  datatype Plan = Plan(requested: set<nat>, instructions: seq<Instruction>)

  datatype CompileError =
    | UnknownParameter(id: nat)
    | MissingPlan(id: nat)
    | InvalidOperation(id: nat)
    | DependencyCycle(cycle: seq<nat>)

  datatype Outcome<T> = Ok(value: T) | Err(error: CompileError)

  const ACTIVE_STATES: seq<ActiveState> := [EyeTracking, ExpressionTracking, LipTracking]

  // ---- Operands ----

  function EyePart(keep: set<EyeField>, n: nat): seq<Operand>
    requires n <= |EYE_FIELDS|
  {
    if n == 0 then [] else
      EyePart(keep, n - 1) + if EYE_FIELDS[n - 1] in keep then [EyeOperand(EYE_FIELDS[n - 1])] else []
  }

  function ExpressionPart(keep: set<nat>, n: nat): seq<Operand>
    requires n <= EXPRESSION_COUNT
  {
    if n == 0 then [] else
      ExpressionPart(keep, n - 1) + if n - 1 in keep then [ExpressionOperand(n - 1)] else []
  }

  function ActivePart(keep: set<ActiveState>, n: nat): seq<Operand>
    requires n <= |ACTIVE_STATES|
  {
    if n == 0 then [] else
      ActivePart(keep, n - 1) + if ACTIVE_STATES[n - 1] in keep then [ActiveOperand(ACTIVE_STATES[n - 1])] else []
  }

  function ParameterPart(dependsOn: seq<nat>): seq<Operand> {
    seq(|dependsOn|, i requires 0 <= i < |dependsOn| => ParameterOperand(dependsOn[i]))
  }

  /** Primitive operands in declaration order, then the dependencies in plan order. */
  function Operands(plan: DependencyPlan): seq<Operand> {
    EyePart(plan.inputs.eye, |EYE_FIELDS|)
    + ExpressionPart(plan.inputs.expressions, EXPRESSION_COUNT)
    + ActivePart(plan.inputs.active, |ACTIVE_STATES|)
    + ParameterPart(plan.dependsOn)
  }

  method EnumerateOperands(plan: DependencyPlan) returns (operands: seq<Operand>)
    ensures operands == Operands(plan)
  {
    operands := [];
    for i := 0 to |EYE_FIELDS|
      invariant operands == EyePart(plan.inputs.eye, i)
    {
      if EYE_FIELDS[i] in plan.inputs.eye { operands := operands + [EyeOperand(EYE_FIELDS[i])]; }
    }
    var eye := operands;
    for id := 0 to EXPRESSION_COUNT
      invariant operands == eye + ExpressionPart(plan.inputs.expressions, id)
    {
      if id in plan.inputs.expressions { operands := operands + [ExpressionOperand(id)]; }
    }
    var expressions := operands;
    for i := 0 to |ACTIVE_STATES|
      invariant operands == expressions + ActivePart(plan.inputs.active, i)
    {
      if ACTIVE_STATES[i] in plan.inputs.active { operands := operands + [ActiveOperand(ACTIVE_STATES[i])]; }
    }
    var primitives := operands;
    for i := 0 to |plan.dependsOn|
      invariant operands == primitives + ParameterPart(plan.dependsOn[..i])
    {
      assert ParameterPart(plan.dependsOn[..i + 1]) == ParameterPart(plan.dependsOn[..i]) + [ParameterOperand(plan.dependsOn[i])];
      operands := operands + [ParameterOperand(plan.dependsOn[i])];
    }
    assert plan.dependsOn[..|plan.dependsOn|] == plan.dependsOn;
  }

  lemma {:induction false} EyePartMember(keep: set<EyeField>, n: nat, o: Operand)
    requires n <= |EYE_FIELDS|
    ensures o in EyePart(keep, n) <==> o.EyeOperand? && o.field in keep && o.field in EYE_FIELDS[..n]
  {
    if n > 0 {
      EyePartMember(keep, n - 1, o);
      assert EYE_FIELDS[..n] == EYE_FIELDS[..n - 1] + [EYE_FIELDS[n - 1]];
    }
  }

  lemma {:induction false} ExpressionPartMember(keep: set<nat>, n: nat, o: Operand)
    requires n <= EXPRESSION_COUNT
    ensures o in ExpressionPart(keep, n) <==> o.ExpressionOperand? && o.expression in keep && o.expression < n
  {
    if n > 0 { ExpressionPartMember(keep, n - 1, o); }
  }

  lemma {:induction false} ActivePartMember(keep: set<ActiveState>, n: nat, o: Operand)
    requires n <= |ACTIVE_STATES|
    ensures o in ActivePart(keep, n) <==> o.ActiveOperand? && o.active in keep && o.active in ACTIVE_STATES[..n]
  {
    if n > 0 {
      ActivePartMember(keep, n - 1, o);
      assert ACTIVE_STATES[..n] == ACTIVE_STATES[..n - 1] + [ACTIVE_STATES[n - 1]];
    }
  }

  lemma EveryActiveState(a: ActiveState)
    ensures a in ACTIVE_STATES
  {
    match a
    case EyeTracking => assert ACTIVE_STATES[0] == a;
    case ExpressionTracking => assert ACTIVE_STATES[1] == a;
    case LipTracking => assert ACTIVE_STATES[2] == a;
  }

  ghost predicate OperandOf(plan: DependencyPlan, o: Operand) {
    match o
    case EyeOperand(f) => f in plan.inputs.eye
    case ExpressionOperand(e) => e < EXPRESSION_COUNT && e in plan.inputs.expressions
    case ActiveOperand(a) => a in plan.inputs.active
    case ParameterOperand(d) => d in plan.dependsOn
  }

  /** The operand list holds exactly the plan's in-range leaves and its dependencies. */
  lemma OperandsExact(plan: DependencyPlan, o: Operand)
    ensures o in Operands(plan) <==> OperandOf(plan, o)
  {
    EyePartMember(plan.inputs.eye, |EYE_FIELDS|, o);
    ExpressionPartMember(plan.inputs.expressions, EXPRESSION_COUNT, o);
    ActivePartMember(plan.inputs.active, |ACTIVE_STATES|, o);
    if o.EyeOperand? {
      assert EYE_FIELDS[..|EYE_FIELDS|] == EYE_FIELDS;
      EveryEyeField(o.field);
    }
    if o.ActiveOperand? {
      assert ACTIVE_STATES[..|ACTIVE_STATES|] == ACTIVE_STATES;
      EveryActiveState(o.active);
    }
    if o.ParameterOperand? && o.parameter in plan.dependsOn {
      var i :| 0 <= i < |plan.dependsOn| && plan.dependsOn[i] == o.parameter;
      assert ParameterPart(plan.dependsOn)[i] == o;
    }
  }

  // ---- Instruction validation ----

  function TypeOf(world: World, o: Operand): Option<ValueType> {
    match o
    case EyeOperand(_) | ExpressionOperand(_) => Some(FloatValue)
    case ActiveOperand(_) => Some(BoolValue)
    case ParameterOperand(id) =>
      if id < |world.definitions| then Some(world.definitions[id].valueType) else None
  }

  predicate ArityValid(operation: Operation, operands: seq<Operand>) {
    match operation
    case Direct => |operands| == 1 && !operands[0].ParameterOperand?
    case Average | Max | SumClamp => |operands| > 0
    case SignedPair => |operands| >= 2
    case UnknownOperation(_) => false
  }

  predicate InstructionValid(world: World, definition: Definition, operation: Operation, operands: seq<Operand>) {
    && !definition.valueType.OtherValue?
    && ArityValid(operation, operands)
    && (definition.valueType.BoolValue? ==> operation.Direct?)
    && forall o | o in operands :: TypeOf(world, o) == Some(definition.valueType)
  }

  /** Parameter id is known, has a plan, and its plan makes a valid instruction. */
  predicate Compiles(world: World, id: nat) {
    && id < |world.definitions|
    && id in world.plans
    && InstructionValid(world, world.definitions[id], world.plans[id].operation, Operands(world.plans[id]))
  }

  function InstructionFor(world: World, id: nat): Instruction
    requires id < |world.definitions| && id in world.plans
  {
    Instruction(id, world.definitions[id].valueType, world.plans[id].operation, Operands(world.plans[id]))
  }

  // ---- What compilation promises ----

  function Parameters(instructions: seq<Instruction>): seq<nat> {
    seq(|instructions|, i requires 0 <= i < |instructions| => instructions[i].parameter)
  }

  /** A straight-line program: each parameter's own instruction, once, after all of its dependencies. */
  ghost predicate StraightLine(world: World, instructions: seq<Instruction>) {
    && DependencyFirst(world.plans, Parameters(instructions))
    && forall k | 0 <= k < |instructions| ::
         Compiles(world, instructions[k].parameter) && instructions[k] == InstructionFor(world, instructions[k].parameter)
  }

  ghost predicate Needed(world: World, requested: seq<nat>, x: nat) {
    exists q :: q in requested && Reach(world.plans, q, x)
  }

  /** Everything below the request compiles and lies on no cycle. */
  ghost predicate Compilable(world: World, requested: seq<nat>) {
    forall x | Needed(world, requested, x) :: Compiles(world, x) && !OnCycle(world.plans, x)
  }

  /** The culprit an error names. */
  function Blamed(error: CompileError): nat {
    match error
    case UnknownParameter(id) => id
    case MissingPlan(id) => id
    case InvalidOperation(id) => id
    case DependencyCycle(cycle) => if |cycle| > 0 then cycle[0] else 0
  }

  ghost predicate Accurate(world: World, error: CompileError) {
    match error
    case UnknownParameter(id) => id >= |world.definitions|
    case MissingPlan(id) => id < |world.definitions| && id !in world.plans
    case InvalidOperation(id) => id < |world.definitions| && id in world.plans && !Compiles(world, id)
    case DependencyCycle(cycle) => |cycle| >= 2 && IsPath(world.plans, cycle, cycle[0], cycle[0])
  }

  /** An accurate error's culprit either does not compile or is on a cycle. */
  lemma AccurateRefutes(world: World, error: CompileError)
    requires Accurate(world, error)
    ensures !Compiles(world, Blamed(error)) || OnCycle(world.plans, Blamed(error))
  {
    if error.DependencyCycle? {
      var c := error.cycle;
      assert IsPath(world.plans, c[1..], c[1], c[0]);
      assert Edge(world.plans, c[0], c[1]) && Reach(world.plans, c[1], c[0]);
    }
  }

  // ---- The depth-first search ----

  /** What was added is reachable from id. */
  ghost predicate OnlyReachable(plans: Plans, id: nat, before: seq<nat>, after: seq<nat>) {
    forall x | x in after :: x in before || Reach(plans, id, x)
  }

  lemma OnlyReachableThrough(plans: Plans, id: nat, dependency: nat, before: seq<nat>, between: seq<nat>, after: seq<nat>)
    requires Edge(plans, id, dependency)
    requires OnlyReachable(plans, id, before, between) && OnlyReachable(plans, dependency, between, after)
    ensures OnlyReachable(plans, id, before, after)
  {
    forall x | x in after ensures x in before || Reach(plans, id, x) {
      if x !in between { ReachPrepend(plans, id, dependency, x); }
    }
  }

  datatype Colour = Unvisited | Visiting | Visited

  /** The variables captured by the recursive closure `visit`. */
  class Search {
    const world: World
    const states: array<Colour>
    var stack: seq<nat>
    var instructions: seq<Instruction>

    constructor (world: World)
      ensures this.world == world && fresh(states)
      ensures Valid() && stack == [] && instructions == []
    {
      this.world := world;
      states := new Colour[|world.definitions|](_ => Unvisited);
      stack := [];
      instructions := [];
    }

    ghost predicate Valid()
      reads this, states
    {
      && states.Length == |world.definitions|
      && StraightLine(world, instructions)
      && (forall i, j | 0 <= i < j < |stack| :: stack[i] != stack[j])
      && (forall i | 0 <= i < |stack| - 1 :: Edge(world.plans, stack[i], stack[i + 1]))
      && (forall x | x in stack :: x < states.Length && x in world.plans)
      && (forall x | 0 <= x < states.Length :: states[x] == Visiting <==> x in stack)
      && (forall x | 0 <= x < states.Length :: states[x] == Visited <==> x in Parameters(instructions))
    }

    ghost function Pending(): set<nat>
      reads this, states
    {
      set x: nat | x < states.Length && states[x] == Unvisited
    }

    /** `formatCycle`: the stack from the first occurrence of the repeated parameter, closed by it. */
    method CycleOf(repeated: nat) returns (cycle: seq<nat>)
      requires Valid() && repeated in stack
      requires Edge(world.plans, stack[|stack| - 1], repeated)
      ensures |cycle| >= 2 && cycle[0] == repeated
      ensures IsPath(world.plans, cycle, repeated, repeated)
    {
      var start := 0;
      while start < |stack| && stack[start] != repeated
        invariant start <= |stack|
        invariant repeated !in stack[..start]
      {
        start := start + 1;
      }
      assert stack[..|stack|] == stack;
      cycle := stack[start..] + [repeated];
      forall i | 0 <= i < |cycle| - 1 ensures Edge(world.plans, cycle[i], cycle[i + 1]) {
        assert cycle[i] == stack[start + i];
      }
    }

    /**
     Compiles id and everything below it, or reports an accurate error whose culprit
     is reachable from id. Nothing but parameters reachable from id is added.
     */
    method Visit(id: nat) returns (r: Outcome<()>)
      requires Valid()
      requires |stack| > 0 ==> Edge(world.plans, stack[|stack| - 1], id)
      modifies this, states
      ensures r.Ok? ==> Valid() && stack == old(stack) && Pending() <= old(Pending())
      ensures r.Ok? ==> id in Parameters(instructions) && old(instructions) <= instructions
      ensures r.Ok? ==> OnlyReachable(world.plans, id, old(Parameters(instructions)), Parameters(instructions))
      ensures r.Err? ==> Accurate(world, r.error) && Reach(world.plans, id, Blamed(r.error))
      decreases Pending(), 0
    {
      ReachSelf(world.plans, id);
      if id >= |world.definitions| { return Err(UnknownParameter(id)); }
      match states[id] {
        case Visiting =>
          var cycle := CycleOf(id);
          return Err(DependencyCycle(cycle));
        case Visited => return Ok(());
        case Unvisited =>
      }
      if id !in world.plans { return Err(MissingPlan(id)); }
      Push(id);
      r := VisitDependencies(id);
      if r.Err? { return; }
      var plan := world.plans[id];
      var operands := EnumerateOperands(plan);
      if !InstructionValid(world, world.definitions[id], plan.operation, operands) {
        return Err(InvalidOperation(id));
      }
      Finish(id);
      return Ok(());
    }

    /** The loop over the dependencies of the parameter on top of the stack. */
    method VisitDependencies(id: nat) returns (r: Outcome<()>)
      requires Valid() && |stack| > 0 && stack[|stack| - 1] == id && id in world.plans
      modifies this, states
      ensures r.Ok? ==> Valid() && stack == old(stack) && Pending() <= old(Pending())
      ensures r.Ok? ==> old(instructions) <= instructions
      ensures r.Ok? ==> forall d | d in world.plans[id].dependsOn :: d in Parameters(instructions)
      ensures r.Ok? ==> OnlyReachable(world.plans, id, old(Parameters(instructions)), Parameters(instructions))
      ensures r.Err? ==> Accurate(world, r.error) && Reach(world.plans, id, Blamed(r.error))
      decreases Pending(), 1
    {
      var dependsOn := world.plans[id].dependsOn;
      for j := 0 to |dependsOn|
        invariant Valid() && stack == old(stack) && Pending() <= old(Pending())
        invariant old(instructions) <= instructions
        invariant forall d | d in dependsOn[..j] :: d in Parameters(instructions)
        invariant OnlyReachable(world.plans, id, old(Parameters(instructions)), Parameters(instructions))
      {
        assert Edge(world.plans, id, dependsOn[j]);
        ghost var before := instructions;
        r := Visit(dependsOn[j]);
        if r.Err? {
          ReachPrepend(world.plans, id, dependsOn[j], Blamed(r.error));
          return;
        }
        OnlyReachableThrough(world.plans, id, dependsOn[j], old(Parameters(instructions)), Parameters(before), Parameters(instructions));
        ParametersPrefix(before, instructions);
        assert dependsOn[..j + 1] == dependsOn[..j] + [dependsOn[j]];
      }
      assert dependsOn[..|dependsOn|] == dependsOn;
      return Ok(());
    }

    /** Marks id as being visited. */
    method Push(id: nat)
      requires Valid() && id < states.Length && states[id] == Unvisited && id in world.plans
      requires |stack| > 0 ==> Edge(world.plans, stack[|stack| - 1], id)
      modifies this`stack, states
      ensures Valid() && stack == old(stack) + [id]
      ensures Pending() == old(Pending()) - {id} && id in old(Pending())
    {
      states[id] := Visiting;
      stack := stack + [id];
    }

    /** Emits id's instruction and marks id visited. */
    method Finish(id: nat)
      requires Valid() && |stack| > 0 && stack[|stack| - 1] == id
      requires Compiles(world, id)
      requires forall d | d in world.plans[id].dependsOn :: d in Parameters(instructions)
      modifies this, states
      ensures Valid() && stack == old(stack)[..|old(stack)| - 1]
      ensures instructions == old(instructions) + [InstructionFor(world, id)]
      ensures Parameters(instructions) == old(Parameters(instructions)) + [id]
      ensures Pending() == old(Pending())
    {
      ghost var order := Parameters(instructions);
      instructions := instructions + [InstructionFor(world, id)];
      assert Parameters(instructions) == order + [id];
      PoppedMembers(stack);
      stack := stack[..|stack| - 1];
      states[id] := Visited;
      assert old(states[id]) == Visiting;
      assert id !in order;
      AppendKeepsOrder(world.plans, order, id);
    }
  }

  /** Without its last entry a stack of different parameters holds all others. */
  lemma PoppedMembers(stack: seq<nat>)
    requires stack != [] && forall i, j | 0 <= i < j < |stack| :: stack[i] != stack[j]
    ensures forall x :: x in stack[..|stack| - 1] <==> x in stack && x != stack[|stack| - 1]
  {
    assert stack == stack[..|stack| - 1] + [stack[|stack| - 1]];
  }

  lemma ParametersPrefix(a: seq<Instruction>, b: seq<Instruction>)
    requires a <= b
    ensures Parameters(a) <= Parameters(b)
    ensures forall x | x in Parameters(a) :: x in Parameters(b)
  {
    assert Parameters(a) == Parameters(b)[..|a|];
  }

  lemma AppendKeepsOrder(plans: Plans, order: seq<nat>, id: nat)
    requires DependencyFirst(plans, order) && id in plans && id !in order
    requires forall d | d in plans[id].dependsOn :: d in order
    ensures DependencyFirst(plans, order + [id])
  {
    var longer := order + [id];
    forall k, d | 0 <= k < |longer| && Edge(plans, longer[k], d) ensures d in longer[..k] {
      if k < |order| { assert longer[..k] == order[..k]; } else { assert longer[..k] == order; }
    }
  }

  /**
   Compilation succeeds exactly on the compilable requests. On success the program
   computes precisely the parameters reachable from the request; on failure the
   error is accurate and its culprit is reachable from the request.
   */
  method CompileWithPlans(world: World, requested: seq<nat>) returns (r: Outcome<Plan>)
    ensures r.Ok? <==> Compilable(world, requested)
    ensures r.Ok? ==> StraightLine(world, r.value.instructions)
    ensures r.Ok? ==> r.value.requested == set q | q in requested
    ensures r.Ok? ==> forall x :: x in Parameters(r.value.instructions) <==> Needed(world, requested, x)
    ensures r.Err? ==> Accurate(world, r.error) && Needed(world, requested, Blamed(r.error))
  {
    var wanted: set<nat> := {};
    for i := 0 to |requested|
      invariant wanted == set q | q in requested[..i]
      invariant forall q | q in wanted :: q < |world.definitions|
    {
      if requested[i] >= |world.definitions| {
        r := Err(UnknownParameter(requested[i]));
        ReachSelf(world.plans, requested[i]);
        ErrorRefutes(world, requested, r.error);
        return;
      }
      wanted := wanted + {requested[i]};
      assert requested[..i + 1] == requested[..i] + [requested[i]];
    }
    assert requested[..|requested|] == requested;
    var search := new Search(world);
    for id := 0 to |world.definitions|
      invariant search.world == world && fresh(search) && fresh(search.states)
      invariant search.Valid() && search.stack == []
      invariant forall q | q in wanted && q < id :: q in Parameters(search.instructions)
      invariant forall x | x in Parameters(search.instructions) :: Needed(world, requested, x)
    {
      if id in wanted {
        ghost var before := search.instructions;
        var visit := search.Visit(id);
        if visit.Err? {
          r := Err(visit.error);
          ErrorRefutes(world, requested, r.error);
          return;
        }
        ParametersPrefix(before, search.instructions);
      }
    }
    r := Ok(Plan(wanted, search.instructions));
    assert forall q | q in requested :: q in wanted;
    OrderCoversRequest(world, requested, search.instructions);
  }

  lemma ErrorRefutes(world: World, requested: seq<nat>, error: CompileError)
    requires Accurate(world, error) && Needed(world, requested, Blamed(error))
    ensures !Compilable(world, requested)
  {
    AccurateRefutes(world, error);
  }

  lemma OrderCoversRequest(world: World, requested: seq<nat>, instructions: seq<Instruction>)
    requires StraightLine(world, instructions)
    requires forall q | q in requested :: q in Parameters(instructions)
    requires forall x | x in Parameters(instructions) :: Needed(world, requested, x)
    ensures forall x :: x in Parameters(instructions) <==> Needed(world, requested, x)
    ensures Compilable(world, requested)
  {
    MembersCompile(world, instructions);
    forall x | Needed(world, requested, x)
      ensures x in Parameters(instructions) && Compiles(world, x) && !OnCycle(world.plans, x)
    {
      NeededIsOrdered(world, requested, Parameters(instructions), x);
    }
  }

  lemma NeededIsOrdered(world: World, requested: seq<nat>, order: seq<nat>, x: nat)
    requires DependencyFirst(world.plans, order)
    requires forall q | q in requested :: q in order
    requires Needed(world, requested, x)
    ensures x in order && !OnCycle(world.plans, x)
  {
    var q :| q in requested && Reach(world.plans, q, x);
    OrderClosed(world.plans, order, q, x);
  }

  lemma MembersCompile(world: World, instructions: seq<Instruction>)
    requires StraightLine(world, instructions)
    ensures forall id | id in Parameters(instructions) :: Compiles(world, id)
  {
    forall id | id in Parameters(instructions) ensures Compiles(world, id) {
      var k :| 0 <= k < |instructions| && Parameters(instructions)[k] == id;
      assert instructions[k].parameter == id;
    }
  }
}
