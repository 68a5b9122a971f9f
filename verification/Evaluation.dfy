/**
 Running a compiled plan. The reference semantics is the system of defining
 equations of the parameters, which mentions neither instruction lists nor
 arrays; the dense-array run is shown to be its one and only solution.
 */
module Evaluation {
  import opened Common
  import opened TrackingModel
  import opened DependencyGraph
  import opened PlanCompiler

  /** Values of the valid parameters; a parameter without a valid value has no key. */
  datatype Store = Store(floats: map<nat, real>, bools: map<nat, bool>)

  function Lookup<T>(m: map<nat, T>, id: nat): Option<T> {
    if id in m then Some(m[id]) else None
  }

  // ---- Defining equations ----

  function FloatOperand(frame: CanonicalFrame, floats: map<nat, real>, o: Operand): Option<real> {
    match o
    case EyeOperand(f) => if BitOf(f) in frame.eye.valid then Some(frame.eye.Value(f)) else None
    case ExpressionOperand(e) => if frame.expressions.Has(e) then Some(frame.expressions.Value(e)) else None
    case ParameterOperand(d) => Lookup(floats, d)
    case ActiveOperand(_) => None
  }

  function BoolOperand(frame: CanonicalFrame, bools: map<nat, bool>, o: Operand): Option<bool> {
    match o
    case ActiveOperand(EyeTracking) => Some(frame.eyeActive)
    case ActiveOperand(ExpressionTracking) => Some(frame.expressionActive)
    case ActiveOperand(LipTracking) => Some(frame.lipActive)
    case ParameterOperand(d) => Lookup(bools, d)
    case _ => None
  }

  /** All operand values in order, or None as soon as one is missing. */
  function OperandValues(frame: CanonicalFrame, floats: map<nat, real>, os: seq<Operand>): (r: Option<seq<real>>)
    ensures r.Some? ==> |r.value| == |os|
  {
    if os == [] then Some([]) else
      var init := OperandValues(frame, floats, os[..|os| - 1]);
      var last := FloatOperand(frame, floats, os[|os| - 1]);
      if init.Some? && last.Some? then Some(init.value + [last.value]) else None
  }

  function Sum(values: seq<real>): real {
    if values == [] then 0.0 else Sum(values[..|values| - 1]) + values[|values| - 1]
  }

  function Largest(values: seq<real>): (r: real)
    requires values != []
    ensures r in values && forall v | v in values :: v <= r
  {
    var last := values[|values| - 1];
    if |values| == 1 then last else
      assert values == values[..|values| - 1] + [last];
      var rest := Largest(values[..|values| - 1]);
      if last > rest then last else rest
  }

  /** The five operations on a list of operand values. */
  function Combine(operation: Operation, values: seq<real>): real
    requires |values| > 0 && (operation.SignedPair? ==> |values| >= 2)
  {
    match operation
    case Direct => values[0]
    case Average => Sum(values) / |values| as real
    case Max => Largest(values)
    case SignedPair => Largest(values[..|values| - 1]) - values[|values| - 1]
    case SumClamp => Sum(values)
    case UnknownOperation(_) => 0.0
  }

  function Clamp(definition: Definition, value: real): real {
    if !definition.hasRange then value
    else if value < definition.min then definition.min
    else if value > definition.max then definition.max
    else value
  }

  function DefinedFloat(world: World, frame: CanonicalFrame, floats: map<nat, real>, id: nat): Option<real>
    requires Compiles(world, id)
  {
    var values := OperandValues(frame, floats, Operands(world.plans[id]));
    if values.None? then None
    else Some(Clamp(world.definitions[id], Combine(world.plans[id].operation, values.value)))
  }

  function DefinedBool(world: World, frame: CanonicalFrame, bools: map<nat, bool>, id: nat): Option<bool>
    requires Compiles(world, id) && world.definitions[id].valueType.BoolValue?
  {
    BoolOperand(frame, bools, Operands(world.plans[id])[0])
  }

  ghost predicate FloatParameter(world: World, id: nat) {
    id < |world.definitions| && world.definitions[id].valueType.FloatValue?
  }

  ghost predicate BoolParameter(world: World, id: nat) {
    id < |world.definitions| && world.definitions[id].valueType.BoolValue?
  }

  /** store gives every parameter of ids the value its definition prescribes, and no other parameter a value. */
  ghost predicate Solves(world: World, frame: CanonicalFrame, ids: seq<nat>, store: Store)
    requires forall id | id in ids :: Compiles(world, id)
  {
    && (forall id | id in store.floats :: id in ids && FloatParameter(world, id))
    && (forall id | id in store.bools :: id in ids && BoolParameter(world, id))
    && (forall id | id in ids && FloatParameter(world, id) ::
          Lookup(store.floats, id) == DefinedFloat(world, frame, store.floats, id))
    && (forall id | id in ids && BoolParameter(world, id) ::
          Lookup(store.bools, id) == DefinedBool(world, frame, store.bools, id))
  }

  // ---- The flat program ----

  function Put<T>(m: map<nat, T>, id: nat, value: Option<T>): map<nat, T> {
    if value.Some? then m[id := value.value] else m
  }

  function Execute(world: World, frame: CanonicalFrame, store: Store, i: Instruction): Store
    requires Compiles(world, i.parameter)
  {
    if world.definitions[i.parameter].valueType.FloatValue?
    then store.(floats := Put(store.floats, i.parameter, DefinedFloat(world, frame, store.floats, i.parameter)))
    else store.(bools := Put(store.bools, i.parameter, DefinedBool(world, frame, store.bools, i.parameter)))
  }

  function Run(world: World, frame: CanonicalFrame, instructions: seq<Instruction>): Store
    requires forall k | 0 <= k < |instructions| :: Compiles(world, instructions[k].parameter)
  {
    if instructions == [] then Store(map[], map[])
    else Execute(world, frame, Run(world, frame, instructions[..|instructions| - 1]), instructions[|instructions| - 1])
  }

  /** A definition reads only its dependencies. */
  lemma {:induction false} OperandValuesLocal(frame: CanonicalFrame, a: map<nat, real>, b: map<nat, real>, os: seq<Operand>)
    requires forall d | ParameterOperand(d) in os :: Lookup(a, d) == Lookup(b, d)
    ensures OperandValues(frame, a, os) == OperandValues(frame, b, os)
  {
    if os != [] {
      var init := os[..|os| - 1];
      assert forall o | o in init :: o in os;
      OperandValuesLocal(frame, a, b, init);
      assert os[|os| - 1] in os;
    }
  }

  lemma DefinitionsLocal(world: World, frame: CanonicalFrame, a: Store, b: Store, id: nat)
    requires Compiles(world, id)
    requires forall d | d in world.plans[id].dependsOn :: Lookup(a.floats, d) == Lookup(b.floats, d)
    ensures DefinedFloat(world, frame, a.floats, id) == DefinedFloat(world, frame, b.floats, id)
    ensures BoolParameter(world, id) ==> DefinedBool(world, frame, a.bools, id) == DefinedBool(world, frame, b.bools, id)
  {
    var os := Operands(world.plans[id]);
    forall d | ParameterOperand(d) in os ensures d in world.plans[id].dependsOn {
      OperandsExact(world.plans[id], ParameterOperand(d));
    }
    OperandValuesLocal(frame, a.floats, b.floats, os);
  }

  lemma PrefixIsStraightLine(world: World, instructions: seq<Instruction>)
    requires StraightLine(world, instructions) && |instructions| > 0
    ensures StraightLine(world, instructions[..|instructions| - 1])
    ensures Parameters(instructions) == Parameters(instructions[..|instructions| - 1]) + [instructions[|instructions| - 1].parameter]
  {
    var n := |instructions| - 1;
    var order := Parameters(instructions);
    assert Parameters(instructions[..n]) == order[..n];
    forall k, d | 0 <= k < n && Edge(world.plans, order[..n][k], d) ensures d in order[..n][..k] {
      assert order[..n][..k] == order[..k];
    }
  }

  /** Executing id's instruction does not change what any definition in the order prescribes. */
  lemma DefinitionsKept(world: World, frame: CanonicalFrame, order: seq<nat>, id: nat, before: Store, x: nat)
    requires DependencyFirst(world.plans, order + [id]) && x in order + [id]
    requires Compiles(world, id) && Compiles(world, x)
    ensures id !in order
    ensures var after := Execute(world, frame, before, InstructionFor(world, id));
            && DefinedFloat(world, frame, after.floats, x) == DefinedFloat(world, frame, before.floats, x)
            && (BoolParameter(world, x) ==>
                  DefinedBool(world, frame, after.bools, x) == DefinedBool(world, frame, before.bools, x))
  {
    var after := Execute(world, frame, before, InstructionFor(world, id));
    NewestIsNoDependency(world.plans, order, id, x);
    DefinitionsLocal(world, frame, after, before, x);
  }

  /** Executing one more instruction, whose dependencies are already computed, extends a solution. */
  lemma ExtendSolution(world: World, frame: CanonicalFrame, order: seq<nat>, id: nat, before: Store)
    requires DependencyFirst(world.plans, order + [id])
    requires Compiles(world, id) && forall x | x in order :: Compiles(world, x)
    requires Solves(world, frame, order, before)
    ensures forall x | x in order + [id] :: Compiles(world, x)
    ensures Solves(world, frame, order + [id], Execute(world, frame, before, InstructionFor(world, id)))
  {
    var longer := order + [id];
    var after := Execute(world, frame, before, InstructionFor(world, id));
    assert forall x :: x in longer <==> x in order || x == id;
    DefinitionsKept(world, frame, order, id, before, id);
    forall x | x in longer && FloatParameter(world, x)
      ensures Lookup(after.floats, x) == DefinedFloat(world, frame, after.floats, x)
    {
      DefinitionsKept(world, frame, order, id, before, x);
    }
    forall x | x in longer && BoolParameter(world, x)
      ensures Lookup(after.bools, x) == DefinedBool(world, frame, after.bools, x)
    {
      DefinitionsKept(world, frame, order, id, before, x);
    }
  }

  /** The flat run satisfies the defining equation of every parameter it computes. */
  lemma {:induction false} RunSolves(world: World, frame: CanonicalFrame, instructions: seq<Instruction>)
    requires StraightLine(world, instructions)
    ensures forall id | id in Parameters(instructions) :: Compiles(world, id)
    ensures Solves(world, frame, Parameters(instructions), Run(world, frame, instructions))
  {
    MembersCompile(world, instructions);
    if instructions != [] {
      var n := |instructions| - 1;
      PrefixIsStraightLine(world, instructions);
      RunSolves(world, frame, instructions[..n]);
      ExtendSolution(world, frame, Parameters(instructions[..n]), instructions[n].parameter, Run(world, frame, instructions[..n]));
    }
  }

  /** Two solutions agree on every prefix of a dependency-first order. */
  lemma {:induction false} SolutionsAgree(world: World, frame: CanonicalFrame, instructions: seq<Instruction>, a: Store, b: Store, n: nat)
    requires StraightLine(world, instructions) && n <= |instructions|
    requires forall id | id in Parameters(instructions) :: Compiles(world, id)
    requires Solves(world, frame, Parameters(instructions), a)
    requires Solves(world, frame, Parameters(instructions), b)
    ensures forall id | id in Parameters(instructions)[..n] ::
              Lookup(a.floats, id) == Lookup(b.floats, id) && Lookup(a.bools, id) == Lookup(b.bools, id)
  {
    if n > 0 {
      SolutionsAgree(world, frame, instructions, a, b, n - 1);
      var order := Parameters(instructions);
      NextAgrees(world, frame, order, a, b, n - 1);
      assert order[..n] == order[..n - 1] + [order[n - 1]];
    }
  }

  /** Solutions that agree before an entry of the order agree at it. */
  lemma NextAgrees(world: World, frame: CanonicalFrame, order: seq<nat>, a: Store, b: Store, k: nat)
    requires DependencyFirst(world.plans, order) && k < |order|
    requires forall id | id in order :: Compiles(world, id)
    requires Solves(world, frame, order, a) && Solves(world, frame, order, b)
    requires forall id | id in order[..k] :: Lookup(a.floats, id) == Lookup(b.floats, id)
    ensures Lookup(a.floats, order[k]) == Lookup(b.floats, order[k]) && Lookup(a.bools, order[k]) == Lookup(b.bools, order[k])
  {
    var id := order[k];
    assert id in order && Compiles(world, id);
    forall d | d in world.plans[id].dependsOn ensures Lookup(a.floats, d) == Lookup(b.floats, d) {
      assert Edge(world.plans, order[k], d);
    }
    DefinitionsLocal(world, frame, a, b, id);
  }

  /** Compilation preserves meaning: the flat run is the unique solution of the defining equations. */
  lemma MeaningIsUnique(world: World, frame: CanonicalFrame, instructions: seq<Instruction>, store: Store)
    requires StraightLine(world, instructions)
    requires forall id | id in Parameters(instructions) :: Compiles(world, id)
    ensures Solves(world, frame, Parameters(instructions), store) <==> store == Run(world, frame, instructions)
  {
    RunSolves(world, frame, instructions);
    var run := Run(world, frame, instructions);
    var order := Parameters(instructions);
    if Solves(world, frame, order, store) {
      SolutionsAgree(world, frame, instructions, store, run, |instructions|);
      assert order[..|order|] == order;
      SameLookups(store.floats, run.floats, order);
      SameLookups(store.bools, run.bools, order);
    }
  }

  lemma SameLookups<T>(a: map<nat, T>, b: map<nat, T>, ids: seq<nat>)
    requires forall id | id in a || id in b :: id in ids
    requires forall id | id in ids :: Lookup(a, id) == Lookup(b, id)
    ensures a == b
  {
    forall id ensures id in a <==> id in b {
      if id in a || id in b { assert Lookup(a, id) == Lookup(b, id); }
    }
    forall id | id in a ensures a[id] == b[id] {
      assert Lookup(a, id) == Lookup(b, id);
    }
  }

  // ---- The dense-array evaluator ----

  /** The valid entries of a dense value array. */
  ghost function Dense<T>(values: array<T>, valid: array<bool>): map<nat, T>
    requires values.Length == valid.Length
    reads values, valid
  {
    map i: nat | i < values.Length && valid[i] :: values[i]
  }

  /** The accumulating loop over one instruction's operands computes the defining equation. */
  method EvaluateFloat(world: World, i: Instruction, frame: CanonicalFrame, floats: array<real>, floatValid: array<bool>)
    returns (value: real, ok: bool)
    requires floats.Length == floatValid.Length == |world.definitions|
    requires Compiles(world, i.parameter) && i == InstructionFor(world, i.parameter)
    requires FloatParameter(world, i.parameter)
    ensures (if ok then Some(value) else None) == DefinedFloat(world, frame, Dense(floats, floatValid), i.parameter)
  {
    forall o | o in i.operands ensures Readable(o, |world.definitions|) { assert TypeOf(world, o) == Some(FloatValue); }
    value, ok := CombineOperands(i.operation, i.operands, frame, floats, floatValid);
    if ok { value := Clamp(world.definitions[i.parameter], value); }
  }

  /** A float operand, naming at most an existing parameter. */
  predicate Readable(o: Operand, count: nat) {
    o.ParameterOperand? ==> o.parameter < count
  }

  method CombineOperands(operation: Operation, operands: seq<Operand>, frame: CanonicalFrame, floats: array<real>, floatValid: array<bool>)
    returns (result: real, ok: bool)
    requires floats.Length == floatValid.Length
    requires ArityValid(operation, operands) && forall o | o in operands :: Readable(o, floats.Length)
    ensures OperandValues(frame, Dense(floats, floatValid), operands).Some? <==> ok
    ensures ok ==> |OperandValues(frame, Dense(floats, floatValid), operands).value| == |operands|
    ensures ok ==> result == Combine(operation, OperandValues(frame, Dense(floats, floatValid), operands).value)
  {
    ghost var seen;
    result, ok, seen := AccumulateOperands(operation, operands, frame, floats, floatValid);
    if ok {
      PartialIsCombine(operation, seen);
      result := Finished(operation, result, |operands|);
    }
  }

  /** What is left to do after the last operand. */
  function Finished(operation: Operation, result: real, n: nat): real
    requires n > 0
  {
    if operation.Average? then result / n as real else result
  }

  method AccumulateOperands(operation: Operation, operands: seq<Operand>, frame: CanonicalFrame, floats: array<real>, floatValid: array<bool>)
    returns (result: real, ok: bool, ghost seen: seq<real>)
    requires floats.Length == floatValid.Length
    requires ArityValid(operation, operands) && forall o | o in operands :: Readable(o, floats.Length)
    ensures ok ==> |seen| == |operands| && result == Partial(operation, seen, |operands|)
    ensures OperandValues(frame, Dense(floats, floatValid), operands) == if ok then Some(seen) else None
  {
    ghost var dense := Dense(floats, floatValid);
    seen := [];
    result := 0.0;
    var n := |operands|;
    for index := 0 to n
      invariant |seen| == index
      invariant OperandValues(frame, dense, operands[..index]) == Some(seen)
      invariant result == Partial(operation, seen, n)
    {
      assert Readable(operands[index], floats.Length);
      var current, found := FloatOperandValue(operands[index], frame, floats, floatValid);
      if !found {
        MissingOperand(frame, dense, operands, index);
        return 0.0, false, seen;
      }
      FoundOperand(frame, dense, operands, index, seen, current);
      result := Accumulate(operation, result, current, index, n, seen);
      seen := seen + [current];
    }
    assert operands[..n] == operands;
    ok := true;
  }

  /** The body of the accumulating loop. */
  method Accumulate(operation: Operation, result: real, current: real, index: nat, n: nat, ghost seen: seq<real>) returns (next: real)
    requires |seen| == index < n && (operation.SignedPair? ==> n >= 2) && !operation.UnknownOperation?
    requires result == Partial(operation, seen, n)
    ensures next == Partial(operation, seen + [current], n)
  {
    PartialStep(operation, seen, current, n);
    next := result;
    match operation {
      case Direct => next := current;
      case Average | SumClamp => next := result + current;
      case Max => if index == 0 || current > result { next := current; }
      case SignedPair =>
        if index == n - 1 { next := result - current; }
        else if index == 0 || current > result { next := current; }
    }
  }

  /** The accumulator after the operand values seen so far, out of n. */
  ghost function Partial(operation: Operation, seen: seq<real>, n: nat): real {
    if seen == [] then 0.0 else
      match operation
      case Direct => seen[|seen| - 1]
      case Average | SumClamp => Sum(seen)
      case Max => Largest(seen)
      case SignedPair =>
        if |seen| == n && n >= 2 then Largest(seen[..n - 1]) - seen[n - 1] else Largest(seen)
      case UnknownOperation(_) => 0.0
  }

  /** The accumulator after one more operand value. */
  function Accumulated(operation: Operation, result: real, current: real, index: nat, n: nat): real {
    match operation
    case Direct => current
    case Average | SumClamp => result + current
    case Max => if index == 0 || current > result then current else result
    case SignedPair =>
      if n >= 2 && index == n - 1 then result - current
      else if index == 0 || current > result then current else result
    case UnknownOperation(_) => 0.0
  }

  lemma SumAppend(seen: seq<real>, current: real)
    ensures Sum(seen + [current]) == Sum(seen) + current
  {
    assert (seen + [current])[..|seen|] == seen;
  }

  lemma LargestAppend(seen: seq<real>, current: real)
    ensures Largest(seen + [current]) == if seen == [] || current > Largest(seen) then current else Largest(seen)
  {
    assert (seen + [current])[..|seen|] == seen;
  }

  /** One loop turn moves the accumulator to the next prefix. */
  lemma PartialStep(operation: Operation, seen: seq<real>, current: real, n: nat)
    requires |seen| < n && (operation.SignedPair? ==> n >= 2)
    ensures Partial(operation, seen + [current], n) == Accumulated(operation, Partial(operation, seen, n), current, |seen|, n)
  {
    var next := seen + [current];
    assert next[..|seen|] == seen && next[|next| - 1] == current;
    match operation
    case Average | SumClamp => SumAppend(seen, current);
    case Max => LargestAppend(seen, current);
    case SignedPair => LargestAppend(seen, current);
    case _ =>
  }

  lemma PartialIsCombine(operation: Operation, seen: seq<real>)
    requires |seen| > 0 && (operation.SignedPair? ==> |seen| >= 2) && (operation.Direct? ==> |seen| == 1)
    ensures Combine(operation, seen) == Finished(operation, Partial(operation, seen, |seen|), |seen|)
  {
  }

  lemma {:induction false} MissingOperand(frame: CanonicalFrame, floats: map<nat, real>, os: seq<Operand>, index: nat)
    requires index < |os| && FloatOperand(frame, floats, os[index]).None?
    ensures OperandValues(frame, floats, os).None?
    decreases |os|
  {
    if index < |os| - 1 { MissingOperand(frame, floats, os[..|os| - 1], index); }
  }

  lemma FoundOperand(frame: CanonicalFrame, floats: map<nat, real>, os: seq<Operand>, index: nat, seen: seq<real>, current: real)
    requires index < |os| && OperandValues(frame, floats, os[..index]) == Some(seen)
    requires FloatOperand(frame, floats, os[index]) == Some(current)
    ensures OperandValues(frame, floats, os[..index + 1]) == Some(seen + [current])
  {
    assert os[..index + 1][..index] == os[..index];
  }

  method FloatOperandValue(o: Operand, frame: CanonicalFrame, floats: array<real>, floatValid: array<bool>)
    returns (value: real, ok: bool)
    requires floats.Length == floatValid.Length
    requires o.ParameterOperand? ==> o.parameter < floats.Length
    ensures (if ok then Some(value) else None) == FloatOperand(frame, Dense(floats, floatValid), o)
  {
    match o {
      case EyeOperand(f) => return frame.eye.Value(f), BitOf(f) in frame.eye.valid;
      case ExpressionOperand(e) =>
        if !frame.expressions.Has(e) { return 0.0, false; }
        return frame.expressions.Value(e), true;
      case ParameterOperand(d) =>
        if !floatValid[d] { return 0.0, false; }
        return floats[d], true;
      case ActiveOperand(_) => return 0.0, false;
    }
  }

  method BoolOperandValue(o: Operand, frame: CanonicalFrame, bools: array<bool>, boolValid: array<bool>)
    returns (value: bool, ok: bool)
    requires bools.Length == boolValid.Length
    requires o.ParameterOperand? ==> o.parameter < bools.Length
    ensures (if ok then Some(value) else None) == BoolOperand(frame, Dense(bools, boolValid), o)
    ensures value ==> ok
  {
    match o {
      case ActiveOperand(EyeTracking) => return frame.eyeActive, true;
      case ActiveOperand(ExpressionTracking) => return frame.expressionActive, true;
      case ActiveOperand(LipTracking) => return frame.lipActive, true;
      case ParameterOperand(d) =>
        if !boolValid[d] { return false, false; }
        return bools[d], true;
      case _ => return false, false;
    }
  }

  function Requested<T>(m: map<nat, T>, requested: set<nat>): map<nat, T> {
    map id | id in m && id in requested :: m[id]
  }

  function Snapshot(store: Store, requested: set<nat>): Store {
    Store(Requested(store.floats, requested), Requested(store.bools, requested))
  }

  ghost function StoreOf(floats: array<real>, floatValid: array<bool>, bools: array<bool>, boolValid: array<bool>): Store
    requires floats.Length == floatValid.Length && bools.Length == boolValid.Length
    reads floats, floatValid, bools, boolValid
  {
    Store(Dense(floats, floatValid), Dense(bools, boolValid))
  }

  /** One iteration of the instruction loop, updating the working arrays in place. */
  method ExecuteInstruction(world: World, i: Instruction, frame: CanonicalFrame,
                            floats: array<real>, floatValid: array<bool>, bools: array<bool>, boolValid: array<bool>)
    requires floats.Length == floatValid.Length == bools.Length == boolValid.Length == |world.definitions|
    requires floatValid != bools && floatValid != boolValid && bools != boolValid
    requires Compiles(world, i.parameter) && i == InstructionFor(world, i.parameter)
    modifies floats, floatValid, bools, boolValid
    ensures StoreOf(floats, floatValid, bools, boolValid) ==
            Execute(world, frame, old(StoreOf(floats, floatValid, bools, boolValid)), i)
  {
    match i.valueType {
      case FloatValue => ExecuteFloat(world, i, frame, floats, floatValid);
      case BoolValue => ExecuteBool(world, i, frame, bools, boolValid);
    }
  }

  method ExecuteFloat(world: World, i: Instruction, frame: CanonicalFrame, floats: array<real>, floatValid: array<bool>)
    requires floats.Length == floatValid.Length == |world.definitions|
    requires Compiles(world, i.parameter) && i == InstructionFor(world, i.parameter) && i.valueType.FloatValue?
    modifies floats, floatValid
    ensures Dense(floats, floatValid) ==
            Put(old(Dense(floats, floatValid)), i.parameter, DefinedFloat(world, frame, old(Dense(floats, floatValid)), i.parameter))
  {
    ghost var before := Dense(floats, floatValid);
    var value, ok := EvaluateFloat(world, i, frame, floats, floatValid);
    if ok {
      floats[i.parameter] := value;
      floatValid[i.parameter] := true;
      assert Dense(floats, floatValid) == before[i.parameter := value];
    }
  }

  method ExecuteBool(world: World, i: Instruction, frame: CanonicalFrame, bools: array<bool>, boolValid: array<bool>)
    requires bools.Length == boolValid.Length == |world.definitions| && bools != boolValid
    requires Compiles(world, i.parameter) && i == InstructionFor(world, i.parameter) && i.valueType.BoolValue?
    modifies bools, boolValid
    ensures Dense(bools, boolValid) ==
            Put(old(Dense(bools, boolValid)), i.parameter, DefinedBool(world, frame, old(Dense(bools, boolValid)), i.parameter))
  {
    ghost var before := Dense(bools, boolValid);
    assert TypeOf(world, i.operands[0]) == Some(BoolValue);
    var value, ok := BoolOperandValue(i.operands[0], frame, bools, boolValid);
    if ok {
      bools[i.parameter] := value;
      boolValid[i.parameter] := true;
      assert Dense(bools, boolValid) == before[i.parameter := value];
    }
  }

  /** The instruction loop over fresh arrays. */
  method RunCode(world: World, code: seq<Instruction>, frame: CanonicalFrame)
    returns (floats: array<real>, floatValid: array<bool>, bools: array<bool>, boolValid: array<bool>)
    requires forall k | 0 <= k < |code| :: Compiles(world, code[k].parameter) && code[k] == InstructionFor(world, code[k].parameter)
    ensures floats.Length == floatValid.Length == bools.Length == boolValid.Length == |world.definitions|
    ensures StoreOf(floats, floatValid, bools, boolValid) == Run(world, frame, code)
  {
    var n := |world.definitions|;
    floats := new real[n](_ => 0.0);
    bools := new bool[n](_ => false);
    floatValid := new bool[n](_ => false);
    boolValid := new bool[n](_ => false);
    for k := 0 to |code|
      invariant StoreOf(floats, floatValid, bools, boolValid) == Run(world, frame, code[..k])
    {
      assert code[..k + 1][..k] == code[..k];
      ExecuteInstruction(world, code[k], frame, floats, floatValid, bools, boolValid);
    }
    assert code[..|code|] == code;
  }

  lemma ValidEntriesAreTyped(world: World, frame: CanonicalFrame, code: seq<Instruction>,
                             floats: array<real>, floatValid: array<bool>, bools: array<bool>, boolValid: array<bool>)
    requires StraightLine(world, code)
    requires floats.Length == floatValid.Length == bools.Length == boolValid.Length == |world.definitions|
    requires StoreOf(floats, floatValid, bools, boolValid) == Run(world, frame, code)
    ensures forall i | 0 <= i < floats.Length && floatValid[i] :: FloatParameter(world, i)
    ensures forall i | 0 <= i < bools.Length && boolValid[i] :: BoolParameter(world, i)
  {
    RunSolves(world, frame, code);
    forall i | 0 <= i < floats.Length && floatValid[i] ensures FloatParameter(world, i) {
      assert i in Dense(floats, floatValid);
    }
    forall i | 0 <= i < bools.Length && boolValid[i] ensures BoolParameter(world, i) {
      assert i in Dense(bools, boolValid);
    }
  }

  /** Evaluating a compiled plan gives each requested parameter its defined value, and nothing else. */
  method Evaluate(world: World, plan: Plan, frame: CanonicalFrame) returns (snapshot: Store)
    requires StraightLine(world, plan.instructions)
    ensures forall id | id in Parameters(plan.instructions) :: Compiles(world, id)
    ensures forall store | Solves(world, frame, Parameters(plan.instructions), store) ::
              snapshot == Snapshot(store, plan.requested)
    ensures snapshot == Snapshot(Run(world, frame, plan.instructions), plan.requested)
  {
    var code := plan.instructions;
    MembersCompile(world, code);
    var floats, floatValid, bools, boolValid := RunCode(world, code, frame);
    ValidEntriesAreTyped(world, frame, code, floats, floatValid, bools, boolValid);
    snapshot := Collect(plan.requested, floats, floatValid, bools, boolValid, world);
    AnySolutionShows(world, frame, code, plan.requested);
  }

  lemma AnySolutionShows(world: World, frame: CanonicalFrame, code: seq<Instruction>, requested: set<nat>)
    requires StraightLine(world, code)
    requires forall id | id in Parameters(code) :: Compiles(world, id)
    ensures forall store | Solves(world, frame, Parameters(code), store) ::
              Snapshot(store, requested) == Snapshot(Run(world, frame, code), requested)
  {
    forall store | Solves(world, frame, Parameters(code), store)
      ensures Snapshot(store, requested) == Snapshot(Run(world, frame, code), requested)
    {
      MeaningIsUnique(world, frame, code, store);
    }
  }

  /** Copies the requested valid entries of the working arrays into the snapshot. */
  method Collect(requested: set<nat>, floats: array<real>, floatValid: array<bool>, bools: array<bool>, boolValid: array<bool>, world: World)
    returns (snapshot: Store)
    requires floats.Length == floatValid.Length == bools.Length == boolValid.Length == |world.definitions|
    requires forall i | 0 <= i < floats.Length && floatValid[i] :: FloatParameter(world, i)
    requires forall i | 0 <= i < bools.Length && boolValid[i] :: BoolParameter(world, i)
    ensures snapshot == Snapshot(Store(Dense(floats, floatValid), Dense(bools, boolValid)), requested)
  {
    snapshot := Store(map[], map[]);
    for id := 0 to floats.Length
      invariant snapshot.floats == map i: nat | i < id && floatValid[i] && i in requested :: floats[i]
      invariant snapshot.bools == map i: nat | i < id && boolValid[i] && i in requested :: bools[i]
    {
      if id in requested {
        match world.definitions[id].valueType {
          case FloatValue => if floatValid[id] { snapshot := snapshot.(floats := snapshot.floats[id := floats[id]]); }
          case BoolValue => if boolValid[id] { snapshot := snapshot.(bools := snapshot.bools[id := bools[id]]); }
          case OtherValue(_) =>
        }
      }
    }
  }
}
