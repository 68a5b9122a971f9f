/**
 Leaf analysis: which raw inputs a parameter needs. `ResolveLeaves` walks the
 dependency graph with a cache; it is specified by reachability and shown to
 predict exactly when an evaluated parameter is valid and what it may depend on.
 */
module LeafAnalysis {
  import opened Common
  import opened TrackingModel
  import opened DependencyGraph
  import opened PlanCompiler
  import opened Evaluation
  import opened Subscriptions

  datatype Leaf = EyeLeaf(field: EyeField) | ExpressionLeaf(id: nat) | ActiveLeaf(state: ActiveState)

  predicate Has(inputs: Inputs, leaf: Leaf) {
    match leaf
    case EyeLeaf(f) => f in inputs.eye
    case ExpressionLeaf(e) => e < EXPRESSION_COUNT && e in inputs.expressions
    case ActiveLeaf(a) => a in inputs.active
  }

  /** Some parameter reachable from id reads the leaf. */
  ghost predicate LeafOf(plans: Plans, id: nat, leaf: Leaf) {
    exists x :: Reach(plans, id, x) && x in plans && Has(plans[x].inputs, leaf)
  }

  ghost predicate LeavesOf(plans: Plans, id: nat, inputs: Inputs) {
    forall leaf :: Has(inputs, leaf) <==> LeafOf(plans, id, leaf)
  }

  ghost predicate Resolvable(plans: Plans, id: nat) {
    forall x | Reach(plans, id, x) :: x in plans && !OnCycle(plans, x)
  }

  function Union(left: Inputs, right: Inputs): (r: Inputs)
    ensures forall leaf :: Has(r, leaf) <==> Has(left, leaf) || Has(right, leaf)
  {
    Inputs(left.eye + right.eye, left.expressions + right.expressions, left.active + right.active)
  }

  /** A parameter's leaves are its own plus those of its direct dependencies. */
  lemma LeavesUnfold(plans: Plans, id: nat, leaf: Leaf)
    requires id in plans
    ensures LeafOf(plans, id, leaf) <==>
            Has(plans[id].inputs, leaf) || exists d :: d in plans[id].dependsOn && LeafOf(plans, d, leaf)
  {
    if LeafOf(plans, id, leaf) {
      var x :| Reach(plans, id, x) && x in plans && Has(plans[x].inputs, leaf);
      ReachUnfold(plans, id, x);
      if x != id {
        var d :| Edge(plans, id, d) && Reach(plans, d, x);
        assert LeafOf(plans, d, leaf);
      }
    }
    ReachSelf(plans, id);
    if exists d :: d in plans[id].dependsOn && LeafOf(plans, d, leaf) {
      var d :| d in plans[id].dependsOn && LeafOf(plans, d, leaf);
      var x :| Reach(plans, d, x) && x in plans && Has(plans[x].inputs, leaf);
      ReachPrepend(plans, id, d, x);
    }
  }

  /** inputs are the own leaves together with the leaves of the given dependencies. */
  ghost predicate Collected(plans: Plans, own: Inputs, dependencies: seq<nat>, inputs: Inputs) {
    forall leaf :: Has(inputs, leaf) <==> Has(own, leaf) || exists d :: d in dependencies && LeafOf(plans, d, leaf)
  }

  lemma CollectNext(plans: Plans, own: Inputs, dependencies: seq<nat>, inputs: Inputs, d: nat, leaves: Inputs)
    requires Collected(plans, own, dependencies, inputs) && LeavesOf(plans, d, leaves)
    ensures Collected(plans, own, dependencies + [d], Union(inputs, leaves))
  {
    forall leaf
      ensures Has(Union(inputs, leaves), leaf) <==>
              Has(own, leaf) || exists x :: x in dependencies + [d] && LeafOf(plans, x, leaf)
    {
      assert d in dependencies + [d];
    }
  }

  lemma CollectedAreLeaves(plans: Plans, id: nat, inputs: Inputs)
    requires id in plans && Collected(plans, plans[id].inputs, plans[id].dependsOn, inputs)
    ensures LeavesOf(plans, id, inputs)
  {
    forall leaf ensures Has(inputs, leaf) <==> LeafOf(plans, id, leaf) { LeavesUnfold(plans, id, leaf); }
  }

  datatype ResolveError = MissingParameter(id: nat) | LeafCycle(cycle: seq<nat>)

  datatype Resolved = Leaves(inputs: Inputs) | Unresolved(error: ResolveError)

  function Culprit(error: ResolveError): nat {
    match error
    case MissingParameter(id) => id
    case LeafCycle(cycle) => if |cycle| > 0 then cycle[0] else 0
  }

  ghost predicate Genuine(plans: Plans, error: ResolveError) {
    match error
    case MissingParameter(id) => id !in plans
    case LeafCycle(cycle) => |cycle| >= 2 && IsPath(plans, cycle, cycle[0], cycle[0])
  }

  lemma GenuineRefutes(plans: Plans, id: nat, error: ResolveError)
    requires Genuine(plans, error) && Reach(plans, id, Culprit(error))
    ensures !Resolvable(plans, id)
  {
    if error.LeafCycle? {
      var c := error.cycle;
      assert IsPath(plans, c[1..], c[1], c[0]);
      assert Edge(plans, c[0], c[1]) && Reach(plans, c[1], c[0]);
    }
  }

  /** The variables captured by `resolveLeaves`' recursive closure, and the finishing order as a ghost. */
  class LeafSearch {
    const plans: Plans
    var state: map<nat, Colour>
    var cache: map<nat, Inputs>
    var stack: seq<nat>
    ghost var order: seq<nat>

    constructor (plans: Plans)
      ensures this.plans == plans && Valid() && stack == []
    {
      this.plans := plans;
      state, cache, stack, order := map[], map[], [], [];
    }

    ghost predicate Valid()
      reads this
    {
      && DependencyFirst(plans, order)
      && state.Keys <= plans.Keys
      && (forall i, j | 0 <= i < j < |stack| :: stack[i] != stack[j])
      && (forall i | 0 <= i < |stack| - 1 :: Edge(plans, stack[i], stack[i + 1]))
      && (forall x | x in stack :: x in plans)
      && (forall x :: x in state && state[x] == Visiting <==> x in stack)
      && (forall x :: x in state && state[x] == Visited <==> x in order)
      && (forall x | x in state :: state[x] != Unvisited)
      && (forall x | x in order :: x in cache && LeavesOf(plans, x, cache[x]))
    }

    method Visit(id: nat) returns (r: Resolved)
      requires Valid()
      requires |stack| > 0 ==> Edge(plans, stack[|stack| - 1], id)
      modifies this
      ensures r.Leaves? ==> Valid() && stack == old(stack) && old(state).Keys <= state.Keys
      ensures r.Leaves? ==> id in order && old(order) <= order
      ensures r.Leaves? ==> LeavesOf(plans, id, r.inputs)
      ensures r.Unresolved? ==> Genuine(plans, r.error) && Reach(plans, id, Culprit(r.error))
      decreases plans.Keys - state.Keys, 1
    {
      if id !in plans {
        ReachSelf(plans, id);
        return Unresolved(MissingParameter(id));
      }
      if id in state && state[id] == Visiting {
        ReachSelf(plans, id);
        var cycle := CycleOf(id);
        return Unresolved(LeafCycle(cycle));
      }
      if id in state && state[id] == Visited { return Leaves(cache[id]); }
      r := VisitNew(id);
    }

    /** A parameter with a plan that is seen for the first time. */
    method VisitNew(id: nat) returns (r: Resolved)
      requires Valid() && id in plans && id !in state
      requires |stack| > 0 ==> Edge(plans, stack[|stack| - 1], id)
      modifies this
      ensures r.Leaves? ==> Valid() && stack == old(stack) && old(state).Keys <= state.Keys
      ensures r.Leaves? ==> id in order && old(order) <= order
      ensures r.Leaves? ==> LeavesOf(plans, id, r.inputs)
      ensures r.Unresolved? ==> Genuine(plans, r.error) && Reach(plans, id, Culprit(r.error))
      decreases plans.Keys - state.Keys, 0
    {
      Push(id);
      r := VisitDependencies(id);
      if r.Leaves? { Finish(id, r.inputs); }
    }

    /** The loop over id's dependencies, with id on top of the stack. */
    method VisitDependencies(id: nat) returns (r: Resolved)
      requires Valid() && |stack| > 0 && stack[|stack| - 1] == id && id in plans
      modifies this
      ensures r.Leaves? ==> Valid() && stack == old(stack) && old(state).Keys <= state.Keys
      ensures r.Leaves? ==> old(order) <= order && forall d | d in plans[id].dependsOn :: d in order
      ensures r.Leaves? ==> LeavesOf(plans, id, r.inputs)
      ensures r.Unresolved? ==> Genuine(plans, r.error) && Reach(plans, id, Culprit(r.error))
      decreases plans.Keys - state.Keys, 2
    {
      var plan := plans[id];
      assert plan.dependsOn[..|plan.dependsOn|] == plan.dependsOn;
      var leaves := plan.inputs;
      var j := 0;
      while j < |plan.dependsOn|
        invariant j <= |plan.dependsOn|
        invariant Valid() && stack == old(stack)
        invariant old(state).Keys <= state.Keys && old(order) <= order
        invariant forall d | d in plan.dependsOn[..j] :: d in order
        invariant Collected(plans, plan.inputs, plan.dependsOn[..j], leaves)
      {
        var dependency := plan.dependsOn[j];
        assert plan.dependsOn[..j + 1] == plan.dependsOn[..j] + [dependency];
        assert Edge(plans, id, dependency);
        var inner := Visit(dependency);
        if inner.Unresolved? {
          ReachPrepend(plans, id, dependency, Culprit(inner.error));
          return inner;
        }
        CollectNext(plans, plan.inputs, plan.dependsOn[..j], leaves, dependency, inner.inputs);
        leaves := Union(leaves, inner.inputs);
        j := j + 1;
      }
      CollectedAreLeaves(plans, id, leaves);
      r := Leaves(leaves);
    }

    method CycleOf(repeated: nat) returns (cycle: seq<nat>)
      requires Valid() && repeated in stack
      requires Edge(plans, stack[|stack| - 1], repeated)
      ensures |cycle| >= 2 && cycle[0] == repeated && IsPath(plans, cycle, repeated, repeated)
    {
      var start := 0;
      while stack[start] != repeated
        invariant start < |stack| && repeated in stack[start..]
        decreases |stack| - start
      {
        start := start + 1;
      }
      cycle := stack[start..] + [repeated];
      forall i | 0 <= i < |cycle| - 1 ensures Edge(plans, cycle[i], cycle[i + 1]) {
        assert cycle[i] == stack[start + i];
      }
    }

    method Push(id: nat)
      requires Valid() && id in plans && id !in state
      requires |stack| > 0 ==> Edge(plans, stack[|stack| - 1], id)
      modifies this`state, this`stack
      ensures Valid() && stack == old(stack) + [id] && state.Keys == old(state).Keys + {id}
    {
      state := state[id := Visiting];
      stack := stack + [id];
    }

    method Finish(id: nat, leaves: Inputs)
      requires Valid() && |stack| > 0 && stack[|stack| - 1] == id && id in plans
      requires forall d | d in plans[id].dependsOn :: d in order
      requires LeavesOf(plans, id, leaves)
      modifies this
      ensures Valid() && stack == old(stack)[..|old(stack)| - 1]
      ensures state.Keys == old(state).Keys && order == old(order) + [id]
    {
      assert state[id] == Visiting;
      AppendKeepsOrder(plans, order, id);
      PoppedMembers(stack);
      stack := stack[..|stack| - 1];
      state := state[id := Visited];
      cache := cache[id := leaves];
      order := order + [id];
    }
  }

  /** The leaves of a parameter, exactly when everything below it has a plan and no cycle is reachable. */
  method ResolveLeaves(plans: Plans, id: nat) returns (r: Resolved)
    ensures r.Leaves? <==> Resolvable(plans, id)
    ensures r.Leaves? ==> LeavesOf(plans, id, r.inputs)
    ensures r.Unresolved? ==> Genuine(plans, r.error) && Reach(plans, id, Culprit(r.error))
  {
    var search := new LeafSearch(plans);
    r := search.Visit(id);
    if r.Leaves? {
      forall x | Reach(plans, id, x) ensures x in plans && !OnCycle(plans, x) {
        OrderClosed(plans, search.order, id, x);
        var k :| 0 <= k < |search.order| && search.order[k] == x;
      }
    } else {
      GenuineRefutes(plans, id, r.error);
    }
  }

  ghost predicate RequiredBy(plans: Plans, ids: seq<nat>, leaf: Leaf) {
    exists id :: id in ids && LeafOf(plans, id, leaf)
  }

  method RequiredInputs(plans: Plans, ids: seq<nat>) returns (r: Resolved)
    ensures r.Leaves? <==> forall id | id in ids :: Resolvable(plans, id)
    ensures r.Leaves? ==> forall leaf :: Has(r.inputs, leaf) <==> RequiredBy(plans, ids, leaf)
  {
    var required := Inputs({}, {}, {});
    for i := 0 to |ids|
      invariant forall id | id in ids[..i] :: Resolvable(plans, id)
      invariant forall leaf :: Has(required, leaf) <==> RequiredBy(plans, ids[..i], leaf)
    {
      r := ResolveLeaves(plans, ids[i]);
      if r.Unresolved? { return; }
      required := Union(required, r.inputs);
      assert ids[..i + 1] == ids[..i] + [ids[i]];
    }
    assert ids[..|ids|] == ids;
    r := Leaves(required);
  }

  /** Whenever compilation accepts a request, its leaf analysis succeeds as well. */
  lemma CompilableIsResolvable(world: World, requested: seq<nat>)
    requires Compilable(world, requested)
    ensures forall id | id in requested :: Resolvable(world.plans, id)
  {
    forall id, x | id in requested && Reach(world.plans, id, x) ensures x in world.plans && !OnCycle(world.plans, x) {
      assert Needed(world, requested, x);
    }
  }

  // ---- Exactness of the analysis for evaluation ----

  datatype LeafValue = Real(r: real) | Flag(b: bool) | Missing

  function ReadLeaf(frame: CanonicalFrame, leaf: Leaf): LeafValue {
    match leaf
    case EyeLeaf(f) => if BitOf(f) in frame.eye.valid then Real(frame.eye.Value(f)) else Missing
    case ExpressionLeaf(e) => if frame.expressions.Has(e) then Real(frame.expressions.Value(e)) else Missing
    case ActiveLeaf(EyeTracking) => Flag(frame.eyeActive)
    case ActiveLeaf(ExpressionTracking) => Flag(frame.expressionActive)
    case ActiveLeaf(LipTracking) => Flag(frame.lipActive)
  }

  function LeafOperand(leaf: Leaf): Operand {
    match leaf
    case EyeLeaf(f) => EyeOperand(f)
    case ExpressionLeaf(e) => ExpressionOperand(e)
    case ActiveLeaf(a) => ActiveOperand(a)
  }

  function OperandLeaf(o: Operand): Leaf
    requires !o.ParameterOperand?
  {
    match o
    case EyeOperand(f) => EyeLeaf(f)
    case ExpressionOperand(e) => ExpressionLeaf(e)
    case ActiveOperand(a) => ActiveLeaf(a)
  }

  lemma {:induction false} AllOperandsPresent(frame: CanonicalFrame, floats: map<nat, real>, os: seq<Operand>)
    ensures OperandValues(frame, floats, os).Some? <==> forall o | o in os :: FloatOperand(frame, floats, o).Some?
  {
    if os != [] {
      var init, last := os[..|os| - 1], os[|os| - 1];
      AllOperandsPresent(frame, floats, init);
      assert os == init + [last];
    }
  }

  ghost predicate LeavesValid(plans: Plans, frame: CanonicalFrame, id: nat) {
    forall leaf | LeafOf(plans, id, leaf) :: !ReadLeaf(frame, leaf).Missing?
  }

  /** One parameter: its own leaves are valid and its dependencies have values iff its definition gives a value. */
  lemma DefinedIffOperands(world: World, frame: CanonicalFrame, floats: map<nat, real>, id: nat)
    requires Compiles(world, id) && FloatParameter(world, id)
    ensures DefinedFloat(world, frame, floats, id).Some? <==>
            && (forall leaf | Has(world.plans[id].inputs, leaf) :: !ReadLeaf(frame, leaf).Missing?)
            && (forall d | d in world.plans[id].dependsOn :: d in floats)
  {
    var plan := world.plans[id];
    var os := Operands(plan);
    AllOperandsPresent(frame, floats, os);
    forall o ensures o in os <==> OperandOf(plan, o) { OperandsExact(plan, o); }
    assert forall o | o in os :: TypeOf(world, o) == Some(FloatValue);
    if forall o | o in os :: FloatOperand(frame, floats, o).Some? {
      forall leaf | Has(plan.inputs, leaf) ensures !ReadLeaf(frame, leaf).Missing? {
        assert OperandOf(plan, LeafOperand(leaf));
      }
      forall d | d in plan.dependsOn ensures d in floats {
        assert OperandOf(plan, ParameterOperand(d));
      }
    } else {
      var o :| o in os && FloatOperand(frame, floats, o).None?;
      assert OperandOf(plan, o);
      if o.ParameterOperand? {
        assert o.parameter in plan.dependsOn;
      } else {
        assert Has(plan.inputs, OperandLeaf(o)) && ReadLeaf(frame, OperandLeaf(o)).Missing?;
      }
    }
  }

  /** Leaf analysis is exact: a float parameter has a value iff every one of its leaves is valid in the frame. */
  lemma {:induction false} ValidIffLeavesValid(world: World, frame: CanonicalFrame, instructions: seq<Instruction>, k: nat)
    requires StraightLine(world, instructions) && k < |instructions|
    requires FloatParameter(world, instructions[k].parameter)
    ensures instructions[k].parameter in Run(world, frame, instructions).floats <==>
            LeavesValid(world.plans, frame, instructions[k].parameter)
    decreases k
  {
    var id := instructions[k].parameter;
    var order := Parameters(instructions);
    var floats := Run(world, frame, instructions).floats;
    RunSolves(world, frame, instructions);
    assert id == order[k] && id in order;
    DefinedIffOperands(world, frame, floats, id);
    forall d | d in world.plans[id].dependsOn
      ensures d in floats <==> LeavesValid(world.plans, frame, d)
    {
      assert Edge(world.plans, order[k], d);
      var j :| 0 <= j < k && order[j] == d;
      OperandsExact(world.plans[id], ParameterOperand(d));
      assert TypeOf(world, ParameterOperand(d)) == Some(FloatValue);
      ValidIffLeavesValid(world, frame, instructions, j);
    }
    forall leaf { LeavesUnfold(world.plans, id, leaf); }
    if LeavesValid(world.plans, frame, id) {
      forall d | d in world.plans[id].dependsOn ensures LeavesValid(world.plans, frame, d) {
      }
    }
  }

  ghost predicate SameLeaves(plans: Plans, a: CanonicalFrame, b: CanonicalFrame, id: nat) {
    forall leaf | LeafOf(plans, id, leaf) :: ReadLeaf(a, leaf) == ReadLeaf(b, leaf)
  }

  lemma {:induction false} SameOperandValues(a: CanonicalFrame, b: CanonicalFrame, fa: map<nat, real>, fb: map<nat, real>, os: seq<Operand>)
    requires forall o | o in os :: FloatOperand(a, fa, o) == FloatOperand(b, fb, o)
    ensures OperandValues(a, fa, os) == OperandValues(b, fb, os)
  {
    if os != [] {
      assert forall o | o in os[..|os| - 1] :: o in os;
      SameOperandValues(a, b, fa, fb, os[..|os| - 1]);
      assert os[|os| - 1] in os;
    }
  }

  /** Equal own leaves and equal dependency values make equal definitions. */
  lemma SameDefinition(world: World, a: CanonicalFrame, b: CanonicalFrame, fa: map<nat, real>, fb: map<nat, real>, id: nat)
    requires Compiles(world, id)
    requires forall leaf | Has(world.plans[id].inputs, leaf) :: ReadLeaf(a, leaf) == ReadLeaf(b, leaf)
    requires forall d | d in world.plans[id].dependsOn :: Lookup(fa, d) == Lookup(fb, d)
    ensures DefinedFloat(world, a, fa, id) == DefinedFloat(world, b, fb, id)
  {
    var os := Operands(world.plans[id]);
    forall o | o in os ensures FloatOperand(a, fa, o) == FloatOperand(b, fb, o) {
      OperandsExact(world.plans[id], o);
      if !o.ParameterOperand? { assert Has(world.plans[id].inputs, OperandLeaf(o)); }
    }
    SameOperandValues(a, b, fa, fb, os);
  }

  lemma SameBoolDefinition(world: World, a: CanonicalFrame, b: CanonicalFrame, ba: map<nat, bool>, bb: map<nat, bool>, id: nat)
    requires Compiles(world, id) && BoolParameter(world, id)
    requires forall leaf | Has(world.plans[id].inputs, leaf) :: ReadLeaf(a, leaf) == ReadLeaf(b, leaf)
    ensures DefinedBool(world, a, ba, id) == DefinedBool(world, b, bb, id)
  {
    var o := Operands(world.plans[id])[0];
    OperandsExact(world.plans[id], o);
    assert Has(world.plans[id].inputs, OperandLeaf(o));
  }

  /** A parameter's value depends only on its leaves. */
  lemma {:induction false} ValueDependsOnLeaves(world: World, a: CanonicalFrame, b: CanonicalFrame, instructions: seq<Instruction>, k: nat)
    requires StraightLine(world, instructions) && k < |instructions|
    requires SameLeaves(world.plans, a, b, instructions[k].parameter)
    ensures var id := instructions[k].parameter;
            var ra, rb := Run(world, a, instructions), Run(world, b, instructions);
            Lookup(ra.floats, id) == Lookup(rb.floats, id) && Lookup(ra.bools, id) == Lookup(rb.bools, id)
    decreases k
  {
    var id := instructions[k].parameter;
    var order := Parameters(instructions);
    var ra, rb := Run(world, a, instructions), Run(world, b, instructions);
    RunSolves(world, a, instructions);
    RunSolves(world, b, instructions);
    assert id == order[k] && id in order;
    forall leaf | Has(world.plans[id].inputs, leaf) ensures ReadLeaf(a, leaf) == ReadLeaf(b, leaf) {
      LeavesUnfold(world.plans, id, leaf);
    }
    if FloatParameter(world, id) {
      forall d | d in world.plans[id].dependsOn ensures Lookup(ra.floats, d) == Lookup(rb.floats, d) {
        assert Edge(world.plans, order[k], d);
        var j :| 0 <= j < k && order[j] == d;
        forall leaf | LeafOf(world.plans, d, leaf) ensures ReadLeaf(a, leaf) == ReadLeaf(b, leaf) {
          LeavesUnfold(world.plans, id, leaf);
        }
        ValueDependsOnLeaves(world, a, b, instructions, j);
      }
      SameDefinition(world, a, b, ra.floats, rb.floats, id);
    } else {
      SameBoolDefinition(world, a, b, ra.bools, rb.bools, id);
    }
  }

  /** Frames that agree on the required leaves give the same snapshot. */
  lemma SnapshotDependsOnLeaves(world: World, requested: seq<nat>, plan: Plan, a: CanonicalFrame, b: CanonicalFrame)
    requires StraightLine(world, plan.instructions)
    requires plan.requested == set q | q in requested
    requires forall q | q in requested :: q in Parameters(plan.instructions)
    requires forall leaf | RequiredBy(world.plans, requested, leaf) :: ReadLeaf(a, leaf) == ReadLeaf(b, leaf)
    ensures Snapshot(Run(world, a, plan.instructions), plan.requested) ==
            Snapshot(Run(world, b, plan.instructions), plan.requested)
  {
    var code := plan.instructions;
    var ra, rb := Run(world, a, code), Run(world, b, code);
    forall q | q in plan.requested
      ensures Lookup(ra.floats, q) == Lookup(rb.floats, q) && Lookup(ra.bools, q) == Lookup(rb.bools, q)
    {
      var k :| 0 <= k < |code| && Parameters(code)[k] == q;
      ValueDependsOnLeaves(world, a, b, code, k);
    }
    SameRequested(ra.floats, rb.floats, plan.requested);
    SameRequested(ra.bools, rb.bools, plan.requested);
  }

  lemma SameRequested<T>(a: map<nat, T>, b: map<nat, T>, requested: set<nat>)
    requires forall q | q in requested :: Lookup(a, q) == Lookup(b, q)
    ensures Requested(a, requested) == Requested(b, requested)
  {
    forall q ensures q in Requested(a, requested) <==> q in Requested(b, requested) {
      if q in requested { assert Lookup(a, q) == Lookup(b, q); }
    }
    forall q | q in Requested(a, requested) ensures Requested(a, requested)[q] == Requested(b, requested)[q] {
      assert Lookup(a, q) == Lookup(b, q);
    }
  }

  // ---- Subscriptions derived from the analysis ----

  datatype Requirements = Requirements(capabilities: set<Capability>, eye: set<EyeBit>, expressions: set<nat>)

  function EyeBits(fields: set<EyeField>): set<EyeBit> {
    (if LeftGazeX in fields || LeftGazeY in fields then {LeftGaze} else {})
    + (if RightGazeX in fields || RightGazeY in fields then {RightGaze} else {})
    + (if LeftOpen in fields then {LeftOpenness} else {})
    + (if RightOpen in fields then {RightOpenness} else {})
    + (if LeftDiameter in fields || LeftDilation in fields then {LeftPupil} else {})
    + (if RightDiameter in fields || RightDilation in fields then {RightPupil} else {})
  }

  /** A field whose bit it is, for every bit of the set. */
  function FieldFor(fields: set<EyeField>, bit: EyeBit): EyeField {
    match bit
    case LeftGaze => if LeftGazeX in fields then LeftGazeX else LeftGazeY
    case RightGaze => if RightGazeX in fields then RightGazeX else RightGazeY
    case LeftOpenness => LeftOpen
    case RightOpenness => RightOpen
    case LeftPupil => if LeftDiameter in fields then LeftDiameter else LeftDilation
    case _ => if RightDiameter in fields then RightDiameter else RightDilation
  }

  lemma EyeBitsExact(fields: set<EyeField>, bit: EyeBit)
    ensures bit in EyeBits(fields) ==> FieldFor(fields, bit) in fields && BitOf(FieldFor(fields, bit)) == bit
    ensures forall f | f in fields && BitOf(f) == bit :: bit in EyeBits(fields)
  {
  }

  /** `EyeFields.EyeValid`: the validity bits that cover the fields. */
  function EyeValid(fields: set<EyeField>): (r: set<EyeBit>)
    ensures forall bit :: bit in r <==> exists f :: f in fields && BitOf(f) == bit
  {
    assert forall bit :: bit in EyeBits(fields) <==> exists f :: f in fields && BitOf(f) == bit by {
      forall bit ensures bit in EyeBits(fields) <==> exists f :: f in fields && BitOf(f) == bit { EyeBitsExact(fields, bit); }
    }
    EyeBits(fields)
  }

  function RequirementsFromInputs(inputs: Inputs): Requirements {
    var eye := EyeValid(inputs.eye);
    var expressions := NormalizeMask(inputs.expressions);
    Requirements(
      (if eye != {} || EyeTracking in inputs.active then {CapEye} else {})
      + (if expressions != {} || ExpressionTracking in inputs.active then {CapExpression} else {})
      + (if LipTracking in inputs.active then {CapLip} else {}),
      eye, expressions)
  }

  /** `SubscriptionFor` of a ready plan of the given generation. */
  function SubscriptionFor(generation: nat, required: Requirements, advertised: set<Capability>): Option<Subscription> {
    var capabilities := required.capabilities * advertised * KNOWN_CAPABILITIES;
    if generation == 0 || capabilities == {} then None else
      Some(Normalize(Subscription(generation, capabilities,
                                  if CapEye in capabilities then required.eye else {},
                                  if CapExpression in capabilities then required.expressions else {})))
  }

  /** A constructed subscription always passes validation, active or not. */
  lemma SubscriptionForIsValid(generation: nat, inputs: Inputs, advertised: set<Capability>, active: bool)
    requires SubscriptionFor(generation, RequirementsFromInputs(inputs), advertised).Some?
    ensures Accepts(SubscriptionFor(generation, RequirementsFromInputs(inputs), advertised).value, active)
  {
    var s := SubscriptionFor(generation, RequirementsFromInputs(inputs), advertised).value;
    forall bit | bit in s.eye ensures bit in KNOWN_EYE_BITS {
      var f :| f in inputs.eye && BitOf(f) == bit;
    }
  }

  /** The leaf's group is subscribed to and the leaf itself is asked for. */
  predicate Selects(s: Subscription, leaf: Leaf) {
    match leaf
    case EyeLeaf(f) => CapEye in s.capabilities && BitOf(f) in s.eye
    case ExpressionLeaf(e) => CapExpression in s.capabilities && e in s.expressions
    case ActiveLeaf(EyeTracking) => CapEye in s.capabilities
    case ActiveLeaf(ExpressionTracking) => CapExpression in s.capabilities
    case ActiveLeaf(LipTracking) => CapLip in s.capabilities
  }

  /** A derived subscription selects every required leaf. */
  lemma SubscriptionSelects(generation: nat, inputs: Inputs, advertised: set<Capability>, leaf: Leaf)
    requires Has(inputs, leaf)
    requires RequirementsFromInputs(inputs).capabilities <= advertised
    requires SubscriptionFor(generation, RequirementsFromInputs(inputs), advertised).Some?
    ensures Selects(SubscriptionFor(generation, RequirementsFromInputs(inputs), advertised).value, leaf)
  {
    var required := RequirementsFromInputs(inputs);
    if leaf.EyeLeaf? { assert BitOf(leaf.field) in required.eye; }
    if leaf.ExpressionLeaf? { assert leaf.id in required.expressions; }
  }
}
