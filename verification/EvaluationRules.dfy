/**
 What the evaluator's operations mean, said without computing them: an average times the
 number of its operands is their sum, a maximum is an operand that none exceeds, and so
 on. From the rules of one step to what the snapshot of a request holds.
 */
module EvaluationRules {
  import opened Common
  import opened TrackingModel
  import opened DependencyGraph
  import opened PlanCompiler
  import opened Evaluation

  // ---- Sums ----

  /** A sum is additive, and these three laws leave nothing else to it. */
  lemma {:induction false} SumIsAdditive(a: seq<real>, b: seq<real>)
    ensures Sum(a + b) == Sum(a) + Sum(b)
  {
    if b == [] {
      assert a + b == a;
    } else {
      var n := |b| - 1;
      SumIsAdditive(a, b[..n]);
      assert (a + b)[..|a + b| - 1] == a + b[..n];
    }
  }

  lemma SumOfFew(x: real)
    ensures Sum([]) == 0.0 && Sum([x]) == x
  {
    assert [x][..0] == [];
  }

  lemma {:induction false} SumBetween(values: seq<real>, lo: real, hi: real)
    requires forall v | v in values :: lo <= v <= hi
    ensures lo * |values| as real <= Sum(values) <= hi * |values| as real
  {
    if values != [] {
      var n := |values| - 1;
      assert values[n] in values && forall v | v in values[..n] :: v in values;
      SumBetween(values[..n], lo, hi);
    }
  }

  // ---- Operations ----

  /** What the operation has to make of the operand values. */
  predicate Result(operation: Operation, values: seq<real>, r: real)
    requires |values| > 0
  {
    var last := values[|values| - 1];
    match operation
    case Direct => values[0] == r
    case Average => r * |values| as real == Sum(values)
    case Max => IsLargest(values, r)
    case SignedPair => IsLargest(values[..|values| - 1], r + last)
    case SumClamp => r == Sum(values)
    case UnknownOperation(_) => false
  }

  predicate IsLargest(values: seq<real>, r: real) {
    r in values && forall v | v in values :: v <= r
  }

  lemma CombineIsResult(operation: Operation, values: seq<real>)
    requires |values| > 0 && (operation.SignedPair? ==> |values| >= 2) && !operation.UnknownOperation?
    ensures Result(operation, values, Combine(operation, values))
  {
    if operation.Average? { QuotientTimes(Sum(values), |values| as real); }
  }

  lemma QuotientTimes(x: real, n: real)
    requires n != 0.0
    ensures x / n * n == x
  {
  }

  /** The rules leave one result. */
  lemma ResultIsUnique(operation: Operation, values: seq<real>, a: real, b: real)
    requires |values| > 0 && Result(operation, values, a) && Result(operation, values, b)
    ensures a == b
  {
    if operation.Average? { TimesIsOne(a, b, |values| as real); }
  }

  lemma TimesIsOne(a: real, b: real, n: real)
    requires n > 0.0 && a * n == b * n
    ensures a == b
  {
    assert (a - b) * n == 0.0;
  }

  /** An average lies between the operands. */
  lemma AverageIsBetween(values: seq<real>, lo: real, hi: real)
    requires |values| > 0 && forall v | v in values :: lo <= v <= hi
    ensures lo <= Combine(Average, values) <= hi
  {
    CombineIsResult(Average, values);
    SumBetween(values, lo, hi);
    Cancel(lo, Combine(Average, values), |values| as real);
    Cancel(Combine(Average, values), hi, |values| as real);
  }

  lemma Cancel(a: real, b: real, n: real)
    requires n > 0.0 && a * n <= b * n
    ensures a <= b
  {
    assert (b - a) * n >= 0.0;
  }

  /** Two operands, 0.6 and 0.2, through each operation. */
  lemma PairOfOperands()
    ensures Combine(Average, [0.6, 0.2]) == 0.4 && Combine(Max, [0.6, 0.2]) == 0.6
    ensures Combine(SignedPair, [0.6, 0.2]) == 0.4 && Combine(SumClamp, [0.6, 0.2]) == 0.8
  {
    var pair := [0.6, 0.2];
    SumOfFew(0.6);
    SumOfFew(0.2);
    SumIsAdditive([0.6], [0.2]);
    assert [0.6] + [0.2] == pair && pair[..1] == [0.6];
  }

  // ---- Ranges ----

  /** r is the value itself without a range, else the value of the range that is nearest to it. */
  ghost predicate Ranged(definition: Definition, value: real, r: real) {
    if !definition.hasRange then r == value
    else definition.min <= definition.max ==>
      && definition.min <= r <= definition.max
      && forall other: real | definition.min <= other <= definition.max :: Distance(value, r) <= Distance(value, other)
  }

  function Distance(a: real, b: real): real {
    if a <= b then b - a else a - b
  }

  lemma ClampIsRanged(definition: Definition, value: real)
    ensures Ranged(definition, value, Clamp(definition, value))
    ensures definition.hasRange && definition.min <= value <= definition.max ==> Clamp(definition, value) == value
  {
  }

  // ---- Operands ----

  /** The eye sample shows this value in the field. */
  predicate EyeShows(eye: EyeSample, field: EyeField, v: real) {
    match field
    case LeftGazeX => LeftGaze in eye.valid && v == eye.leftGazeX
    case LeftGazeY => LeftGaze in eye.valid && v == eye.leftGazeY
    case RightGazeX => RightGaze in eye.valid && v == eye.rightGazeX
    case RightGazeY => RightGaze in eye.valid && v == eye.rightGazeY
    case LeftOpen => LeftOpenness in eye.valid && v == eye.leftOpen
    case RightOpen => RightOpenness in eye.valid && v == eye.rightOpen
    case LeftDiameter => LeftPupil in eye.valid && v == eye.leftDiameter
    case RightDiameter => RightPupil in eye.valid && v == eye.rightDiameter
    case LeftDilation => LeftPupil in eye.valid && v == eye.leftDilation
    case RightDilation => RightPupil in eye.valid && v == eye.rightDilation
  }

  /** The operand has this value: from the frame, or as another parameter's. */
  predicate Supplies(frame: CanonicalFrame, floats: map<nat, real>, o: Operand, v: real) {
    match o
    case EyeOperand(field) => EyeShows(frame.eye, field, v)
    case ExpressionOperand(e) => e < EXPRESSION_COUNT && e in frame.expressions.valid && v == frame.expressions.values[e]
    case ParameterOperand(d) => d in floats && v == floats[d]
    case ActiveOperand(_) => false
  }

  predicate Tells(frame: CanonicalFrame, bools: map<nat, bool>, o: Operand, b: bool) {
    match o
    case ActiveOperand(EyeTracking) => b == frame.eyeActive
    case ActiveOperand(ExpressionTracking) => b == frame.expressionActive
    case ActiveOperand(LipTracking) => b == frame.lipActive
    case ParameterOperand(d) => d in bools && b == bools[d]
    case _ => false
  }

  lemma OperandIsSupplied(frame: CanonicalFrame, floats: map<nat, real>, o: Operand, v: real)
    ensures FloatOperand(frame, floats, o) == Some(v) <==> Supplies(frame, floats, o, v)
  {
  }

  lemma OperandIsTold(frame: CanonicalFrame, bools: map<nat, bool>, o: Operand, b: bool)
    ensures BoolOperand(frame, bools, o) == Some(b) <==> Tells(frame, bools, o, b)
  {
  }

  /** The operands have these values. */
  predicate AllSupplied(frame: CanonicalFrame, floats: map<nat, real>, os: seq<Operand>, values: seq<real>) {
    |values| == |os| && forall i | 0 <= i < |os| :: Supplies(frame, floats, os[i], values[i])
  }

  lemma {:induction false} OperandsAreSupplied(frame: CanonicalFrame, floats: map<nat, real>, os: seq<Operand>, values: seq<real>)
    ensures OperandValues(frame, floats, os) == Some(values) <==> AllSupplied(frame, floats, os, values)
  {
    if os != [] && |values| == |os| {
      var n := |os| - 1;
      OperandsAreSupplied(frame, floats, os[..n], values[..n]);
      OperandIsSupplied(frame, floats, os[n], values[n]);
      assert values == values[..n] + [values[n]];
    }
  }

  // ---- Parameters ----

  /** What the rules make of the operands' values for a float parameter. */
  ghost predicate Derived(world: World, frame: CanonicalFrame, floats: map<nat, real>, id: nat, values: seq<real>, raw: real, shown: real)
    requires Compiles(world, id)
  {
    && AllSupplied(frame, floats, Operands(world.plans[id]), values) && |values| > 0
    && Result(world.plans[id].operation, values, raw) && Ranged(world.definitions[id], raw, shown)
  }

  /** The parameter's value is what the rules derive; it has none exactly if some operand has none. */
  ghost predicate FloatFollows(world: World, frame: CanonicalFrame, floats: map<nat, real>, id: nat)
    requires Compiles(world, id)
  {
    if id in floats then exists values, raw :: Derived(world, frame, floats, id, values, raw, floats[id])
    else forall values :: !AllSupplied(frame, floats, Operands(world.plans[id]), values)
  }

  ghost predicate BoolFollows(world: World, frame: CanonicalFrame, bools: map<nat, bool>, id: nat)
    requires Compiles(world, id) && world.definitions[id].valueType.BoolValue?
  {
    if id in bools then Tells(frame, bools, Operands(world.plans[id])[0], bools[id])
    else forall b :: !Tells(frame, bools, Operands(world.plans[id])[0], b)
  }

  lemma DefinedFloatFollows(world: World, frame: CanonicalFrame, floats: map<nat, real>, id: nat)
    requires Compiles(world, id) && Lookup(floats, id) == DefinedFloat(world, frame, floats, id)
    ensures FloatFollows(world, frame, floats, id)
  {
    var os, plan, definition := Operands(world.plans[id]), world.plans[id], world.definitions[id];
    var found := OperandValues(frame, floats, os);
    if found.Some? {
      var raw := Combine(plan.operation, found.value);
      OperandsAreSupplied(frame, floats, os, found.value);
      CombineIsResult(plan.operation, found.value);
      ClampIsRanged(definition, raw);
      assert Derived(world, frame, floats, id, found.value, raw, floats[id]);
    } else {
      forall values ensures !AllSupplied(frame, floats, os, values) { OperandsAreSupplied(frame, floats, os, values); }
    }
  }

  lemma DefinedBoolFollows(world: World, frame: CanonicalFrame, bools: map<nat, bool>, id: nat)
    requires Compiles(world, id) && world.definitions[id].valueType.BoolValue?
    requires Lookup(bools, id) == DefinedBool(world, frame, bools, id)
    ensures BoolFollows(world, frame, bools, id)
  {
    var o := Operands(world.plans[id])[0];
    forall b ensures BoolOperand(frame, bools, o) == Some(b) <==> Tells(frame, bools, o, b) { OperandIsTold(frame, bools, o, b); }
  }

  // ---- Requests ----

  /** Every parameter that the request needs follows the rules, and no other has a value. */
  ghost predicate Follows(world: World, frame: CanonicalFrame, requested: seq<nat>, store: Store) {
    && (forall id | id in store.floats :: Needed(world, requested, id) && FloatParameter(world, id))
    && (forall id | id in store.bools :: Needed(world, requested, id) && BoolParameter(world, id))
    && (forall id | Needed(world, requested, id) && FloatParameter(world, id) ::
          Compiles(world, id) && FloatFollows(world, frame, store.floats, id))
    && (forall id | Needed(world, requested, id) && BoolParameter(world, id) ::
          Compiles(world, id) && BoolFollows(world, frame, store.bools, id))
  }

  lemma RunFollows(world: World, frame: CanonicalFrame, requested: seq<nat>, code: seq<Instruction>)
    requires StraightLine(world, code) && forall x :: x in Parameters(code) <==> Needed(world, requested, x)
    requires forall id | id in Parameters(code) :: Compiles(world, id)
    ensures Follows(world, frame, requested, Run(world, frame, code))
  {
    var store := Run(world, frame, code);
    RunSolves(world, frame, code);
    forall id | Needed(world, requested, id) && FloatParameter(world, id)
      ensures Compiles(world, id) && FloatFollows(world, frame, store.floats, id)
    {
      assert id in Parameters(code);
      DefinedFloatFollows(world, frame, store.floats, id);
    }
    forall id | Needed(world, requested, id) && BoolParameter(world, id)
      ensures Compiles(world, id) && BoolFollows(world, frame, store.bools, id)
    {
      assert id in Parameters(code);
      DefinedBoolFollows(world, frame, store.bools, id);
    }
  }

  /** The requested part of an assignment. */
  predicate Shows(shown: Store, store: Store, requested: seq<nat>) {
    && shown.floats == (map id | id in store.floats && id in requested :: store.floats[id])
    && shown.bools == (map id | id in store.bools && id in requested :: store.bools[id])
  }

  /**
   Compiling a request and evaluating it on a frame: it fails exactly if the request does
   not compile. The snapshot shows the requested part of an assignment in which every
   needed parameter is what the rules make of its operands, down to the frame.
   */
  method EvaluateRequest(world: World, requested: seq<nat>, frame: CanonicalFrame) returns (snapshot: Option<Store>, ghost store: Store)
    ensures snapshot.Some? <==> Compilable(world, requested)
    ensures snapshot.Some? ==> Follows(world, frame, requested, store) && Shows(snapshot.value, store, requested)
  {
    var plan := CompileWithPlans(world, requested);
    if plan.Err? { return None, Store(map[], map[]); }
    var shown;
    shown, store := EvaluateCompiled(world, requested, plan.value, frame);
    snapshot := Some(shown);
  }

  method EvaluateCompiled(world: World, requested: seq<nat>, plan: Plan, frame: CanonicalFrame) returns (shown: Store, ghost store: Store)
    requires StraightLine(world, plan.instructions) && plan.requested == set q | q in requested
    requires forall x :: x in Parameters(plan.instructions) <==> Needed(world, requested, x)
    ensures Follows(world, frame, requested, store) && Shows(shown, store, requested)
  {
    shown := Evaluate(world, plan, frame);
    store := Run(world, frame, plan.instructions);
    RunFollows(world, frame, requested, plan.instructions);
  }
}
