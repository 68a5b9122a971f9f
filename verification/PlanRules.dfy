/**
 Which dependency plans make an instruction, and in what order its operands come, said
 of the plan itself.
 */
module PlanRules {
  import opened Common
  import opened TrackingModel
  import opened DependencyGraph
  import opened PlanCompiler

  // ---- The order of operands ----

  /** Eye fields, then expressions, then active states, each in their declared order. */
  function Rank(o: Operand): nat {
    match o
    case EyeOperand(field) => EyeRank(field)
    case ExpressionOperand(e) => 10 + e
    case ActiveOperand(a) => 86 + (match a case EyeTracking => 0 case ExpressionTracking => 1 case LipTracking => 2)
    case ParameterOperand(_) => 89
  }

  function EyeRank(field: EyeField): nat {
    match field
    case LeftGazeX => 0
    case LeftGazeY => 1
    case RightGazeX => 2
    case RightGazeY => 3
    case LeftOpen => 4
    case RightOpen => 5
    case LeftDiameter => 6
    case RightDiameter => 7
    case LeftDilation => 8
    case RightDilation => 9
  }

  /** Primitive operands in the order of their ranks, all between the two. */
  predicate Ranked(os: seq<Operand>, low: nat, high: nat) {
    && (forall i | 0 <= i < |os| :: low <= Rank(os[i]) < high)
    && (forall i, j | 0 <= i < j < |os| :: Rank(os[i]) < Rank(os[j]))
  }

  function EyeIndices(keep: set<EyeField>, n: nat): set<nat> {
    set i: nat | i < 10 && EYE_FIELDS[i] in keep && i < n
  }

  function ExpressionIndices(keep: set<nat>, n: nat): set<nat> {
    set e: nat | e < 76 && e in keep && e < n
  }

  function ActiveIndices(keep: set<ActiveState>, n: nat): set<nat> {
    set i: nat | i < 3 && ACTIVE_STATES[i] in keep && i < n
  }

  lemma RankOfField(i: nat)
    requires i < 10
    ensures EyeRank(EYE_FIELDS[i]) == i
  {
  }

  lemma {:induction false} EyeIsRanked(keep: set<EyeField>, n: nat)
    requires n <= 10
    ensures Ranked(EyePart(keep, n), 0, n)
  {
    if n > 0 {
      EyeIsRanked(keep, n - 1);
      RankOfField(n - 1);
      if EYE_FIELDS[n - 1] in keep { OneMoreRanked(EyePart(keep, n - 1), EyeOperand(EYE_FIELDS[n - 1]), 0, n - 1); }
    }
  }

  lemma {:induction false} EyeCount(keep: set<EyeField>, n: nat)
    requires n <= 10
    ensures |EyePart(keep, n)| == |EyeIndices(keep, n)|
  {
    if n == 0 {
      assert EyeIndices(keep, 0) == {};
    } else {
      EyeCount(keep, n - 1);
      assert EyeIndices(keep, n) == if EYE_FIELDS[n - 1] in keep then EyeIndices(keep, n - 1) + {n - 1} else EyeIndices(keep, n - 1);
    }
  }

  lemma {:induction false} ExpressionsAreRanked(keep: set<nat>, n: nat)
    requires n <= 76
    ensures Ranked(ExpressionPart(keep, n), 10, 10 + n)
  {
    if n > 0 {
      ExpressionsAreRanked(keep, n - 1);
      var o := ExpressionOperand(n - 1);
      assert Rank(o) == 10 + (n - 1);
      if n - 1 in keep { OneMoreRanked(ExpressionPart(keep, n - 1), o, 10, 10 + (n - 1)); }
    }
  }

  lemma OneMoreRanked(os: seq<Operand>, o: Operand, low: nat, high: nat)
    requires Ranked(os, low, high) && low <= high == Rank(o)
    ensures Ranked(os + [o], low, high + 1)
  {
  }

  lemma {:induction false} ExpressionCount(keep: set<nat>, n: nat)
    requires n <= 76
    ensures |ExpressionPart(keep, n)| == |ExpressionIndices(keep, n)|
  {
    if n == 0 {
      assert ExpressionIndices(keep, 0) == {};
    } else {
      ExpressionCount(keep, n - 1);
      assert ExpressionIndices(keep, n) == if n - 1 in keep then ExpressionIndices(keep, n - 1) + {n - 1} else ExpressionIndices(keep, n - 1);
    }
  }

  lemma RankOfState(i: nat)
    requires i < 3
    ensures Rank(ActiveOperand(ACTIVE_STATES[i])) == 86 + i
  {
  }

  lemma {:induction false} ActiveIsRanked(keep: set<ActiveState>, n: nat)
    requires n <= 3
    ensures Ranked(ActivePart(keep, n), 86, 86 + n)
  {
    if n > 0 {
      ActiveIsRanked(keep, n - 1);
      RankOfState(n - 1);
      if ACTIVE_STATES[n - 1] in keep { OneMoreRanked(ActivePart(keep, n - 1), ActiveOperand(ACTIVE_STATES[n - 1]), 86, 85 + n); }
    }
  }

  lemma {:induction false} ActiveCount(keep: set<ActiveState>, n: nat)
    requires n <= 3
    ensures |ActivePart(keep, n)| == |ActiveIndices(keep, n)|
  {
    if n == 0 {
      assert ActiveIndices(keep, 0) == {};
    } else {
      ActiveCount(keep, n - 1);
      assert ActiveIndices(keep, n) == if ACTIVE_STATES[n - 1] in keep then ActiveIndices(keep, n - 1) + {n - 1} else ActiveIndices(keep, n - 1);
    }
  }

  lemma RankedTogether(a: seq<Operand>, b: seq<Operand>, low: nat, middle: nat, high: nat)
    requires low <= middle <= high && Ranked(a, low, middle) && Ranked(b, middle, high)
    ensures Ranked(a + b, low, high)
  {
  }

  /** How many operands a plan has; expressions past the last one are none. */
  function Count(plan: DependencyPlan): nat {
    |EyeOf(plan)| + |ExpressionsOf(plan)| + |ActiveOf(plan)| + |plan.dependsOn|
  }

  function EyeOf(plan: DependencyPlan): set<nat> {
    EyeIndices(plan.inputs.eye, 10)
  }

  function ExpressionsOf(plan: DependencyPlan): set<nat> {
    ExpressionIndices(plan.inputs.expressions, 76)
  }

  function ActiveOf(plan: DependencyPlan): set<nat> {
    ActiveIndices(plan.inputs.active, 3)
  }

  /** The primitive operands come first, in their order, and then the dependencies as the plan lists them. */
  lemma OperandOrder(plan: DependencyPlan)
    ensures |Operands(plan)| == Count(plan)
    ensures var n := Count(plan) - |plan.dependsOn|;
            && Ranked(Operands(plan)[..n], 0, 89)
            && forall k | 0 <= k < |plan.dependsOn| :: Operands(plan)[n + k] == ParameterOperand(plan.dependsOn[k])
  {
    var eye, expressions, active := EyePart(plan.inputs.eye, 10), ExpressionPart(plan.inputs.expressions, 76), ActivePart(plan.inputs.active, 3);
    EyeIsRanked(plan.inputs.eye, 10);
    EyeCount(plan.inputs.eye, 10);
    ExpressionsAreRanked(plan.inputs.expressions, 76);
    ExpressionCount(plan.inputs.expressions, 76);
    ActiveIsRanked(plan.inputs.active, 3);
    ActiveCount(plan.inputs.active, 3);
    RankedTogether(eye, expressions, 0, 10, 86);
    RankedTogether(eye + expressions, active, 0, 86, 89);
    var primitives := eye + expressions + active;
    assert Operands(plan) == primitives + ParameterPart(plan.dependsOn);
    assert Operands(plan)[..|primitives|] == primitives;
  }

  // ---- What compiles ----

  predicate IsFloat(world: World, id: nat) {
    id < |world.definitions| && world.definitions[id].valueType == FloatValue
  }

  /** A float plan: no activity flags, float dependencies, and as many operands as the operation takes. */
  predicate MakesFloat(world: World, plan: DependencyPlan) {
    && plan.inputs.active == {} && (forall d | d in plan.dependsOn :: IsFloat(world, d))
    && match plan.operation
       case Direct => plan.dependsOn == [] && Count(plan) == 1
       case Average | Max | SumClamp => Count(plan) >= 1
       case SignedPair => Count(plan) >= 2
       case UnknownOperation(_) => false
  }

  /** A bool plan: one activity flag, passed on directly. */
  predicate MakesBool(plan: DependencyPlan) {
    plan.operation == Direct && |ActiveOf(plan)| == 1 && EyeOf(plan) == {} && ExpressionsOf(plan) == {} && plan.dependsOn == []
  }

  lemma FloatOperands(world: World, plan: DependencyPlan)
    ensures (forall o | o in Operands(plan) :: TypeOf(world, o) == Some(FloatValue)) <==>
            plan.inputs.active == {} && forall d | d in plan.dependsOn :: IsFloat(world, d)
  {
    forall o ensures o in Operands(plan) <==> OperandOf(plan, o) { OperandsExact(plan, o); }
    if a :| a in plan.inputs.active { assert OperandOf(plan, ActiveOperand(a)); }
    forall d | d in plan.dependsOn ensures ParameterOperand(d) in Operands(plan) { assert OperandOf(plan, ParameterOperand(d)); }
  }

  lemma OneOperand(plan: DependencyPlan)
    requires Count(plan) == 1 && |Operands(plan)| == 1
    ensures Operands(plan)[0].ParameterOperand? <==> plan.dependsOn != []
  {
    OperandOrder(plan);
    var o := Operands(plan)[0];
    if plan.dependsOn == [] {
      assert Operands(plan)[..1][0] == o;
    } else {
      assert o == ParameterOperand(plan.dependsOn[0]);
    }
  }

  lemma FlagIndices(plan: DependencyPlan)
    ensures ActiveOf(plan) == {} <==> plan.inputs.active == {}
  {
    if a :| a in plan.inputs.active {
      EveryActiveState(a);
      var i :| 0 <= i < 3 && ACTIVE_STATES[i] == a;
      assert i in ActiveOf(plan);
    }
  }

  lemma BoolOperands(world: World, plan: DependencyPlan)
    requires Count(plan) == 1 && |Operands(plan)| == 1
    ensures Operands(plan)[0].ActiveOperand? <==> ActiveOf(plan) != {}
  {
    var o := Operands(plan)[0];
    FlagIndices(plan);
    OperandsExact(plan, o);
    if a :| a in plan.inputs.active {
      OperandsExact(plan, ActiveOperand(a));
      assert OperandOf(plan, ActiveOperand(a));
    }
  }

  /** A parameter compiles exactly if it is known, has a plan, and that makes a float or a bool, as the parameter is declared. */
  lemma CompilesExactly(world: World, id: nat)
    ensures Compiles(world, id) <==>
            && id < |world.definitions| && id in world.plans
            && match world.definitions[id].valueType
               case FloatValue => MakesFloat(world, world.plans[id])
               case BoolValue => MakesBool(world.plans[id])
               case OtherValue(_) => false
  {
    if id < |world.definitions| && id in world.plans {
      var plan := world.plans[id];
      OperandOrder(plan);
      match world.definitions[id].valueType
      case FloatValue => FloatCompiles(world, world.definitions[id], plan);
      case BoolValue => BoolCompiles(world, plan);
      case OtherValue(_) =>
    }
  }

  lemma FloatCompiles(world: World, definition: Definition, plan: DependencyPlan)
    requires |Operands(plan)| == Count(plan) && definition.valueType == FloatValue
    ensures InstructionValid(world, definition, plan.operation, Operands(plan)) <==> MakesFloat(world, plan)
  {
    FloatOperands(world, plan);
    if Count(plan) == 1 { OneOperand(plan); }
  }

  lemma BoolCompiles(world: World, plan: DependencyPlan)
    requires |Operands(plan)| == Count(plan)
    ensures MakesBool(plan) <==>
            && plan.operation == Direct && |Operands(plan)| == 1 && !Operands(plan)[0].ParameterOperand?
            && TypeOf(world, Operands(plan)[0]) == Some(BoolValue)
  {
    if Count(plan) == 1 {
      OneOperand(plan);
      BoolOperands(world, plan);
    }
  }

  /** The last operand, which a signed pair subtracts, is the last dependency if there is one. */
  lemma LastOperand(plan: DependencyPlan)
    requires plan.dependsOn != []
    ensures |Operands(plan)| > 0 && Operands(plan)[|Operands(plan)| - 1] == ParameterOperand(plan.dependsOn[|plan.dependsOn| - 1])
  {
    OperandOrder(plan);
  }
}
