/**
 Parameter dependency plans as a directed graph: paths, reachability, cycles and
 dependency-first orders. Both the plan compiler and the leaf analysis are
 specified against these definitions, never against their own traversals.
 */
module DependencyGraph {
  import opened TrackingModel

  datatype ActiveState = EyeTracking | ExpressionTracking | LipTracking

  datatype Inputs = Inputs(eye: set<EyeField>, expressions: set<nat>, active: set<ActiveState>)

  datatype Operation = Direct | Average | Max | SignedPair | SumClamp | UnknownOperation(code: nat)

  datatype DependencyPlan = DependencyPlan(inputs: Inputs, dependsOn: seq<nat>, operation: Operation)

  type Plans = map<nat, DependencyPlan>

  predicate Edge(plans: Plans, a: nat, b: nat) {
    a in plans && b in plans[a].dependsOn
  }

  /** p is a nonempty walk along dependency edges from a to b. */
  ghost predicate IsPath(plans: Plans, p: seq<nat>, a: nat, b: nat) {
    && |p| > 0 && p[0] == a && p[|p| - 1] == b
    && forall i | 0 <= i < |p| - 1 :: Edge(plans, p[i], p[i + 1])
  }

  ghost predicate Reach(plans: Plans, a: nat, b: nat) {
    exists p :: IsPath(plans, p, a, b)
  }

  ghost predicate OnCycle(plans: Plans, x: nat) {
    exists y :: Edge(plans, x, y) && Reach(plans, y, x)
  }

  /** Every parameter appears once, has a plan, and comes after everything it depends on. */
  ghost predicate DependencyFirst(plans: Plans, order: seq<nat>) {
    && (forall i, j | 0 <= i < j < |order| :: order[i] != order[j])
    && (forall k | 0 <= k < |order| :: order[k] in plans)
    && (forall k, d | 0 <= k < |order| && Edge(plans, order[k], d) :: d in order[..k])
  }

  lemma ReachSelf(plans: Plans, a: nat)
    ensures Reach(plans, a, a)
  {
    assert IsPath(plans, [a], a, a);
  }

  lemma ReachPrepend(plans: Plans, a: nat, b: nat, c: nat)
    requires Edge(plans, a, b) && Reach(plans, b, c)
    ensures Reach(plans, a, c)
  {
    var p :| IsPath(plans, p, b, c);
    assert IsPath(plans, [a] + p, a, c);
  }

  /** Reachability unfolds at its first edge. */
  lemma ReachUnfold(plans: Plans, a: nat, b: nat)
    ensures Reach(plans, a, b) <==> a == b || exists d :: Edge(plans, a, d) && Reach(plans, d, b)
  {
    if a == b {
      ReachSelf(plans, a);
    } else if Reach(plans, a, b) {
      var p :| IsPath(plans, p, a, b);
      assert IsPath(plans, p[1..], p[1], b);
      assert Edge(plans, a, p[1]) && Reach(plans, p[1], b);
    } else if exists d :: Edge(plans, a, d) && Reach(plans, d, b) {
      var d :| Edge(plans, a, d) && Reach(plans, d, b);
      ReachPrepend(plans, a, d, b);
    }
  }

  /** A path from the k-th entry of a dependency-first order stays at or before k; it moves strictly before unless trivial. */
  lemma {:induction false} PathStaysBefore(plans: Plans, order: seq<nat>, k: nat, p: seq<nat>, b: nat)
    requires DependencyFirst(plans, order) && k < |order|
    requires IsPath(plans, p, order[k], b)
    ensures if |p| == 1 then b == order[k] else b in order[..k]
    decreases |p|
  {
    if |p| > 1 {
      assert Edge(plans, p[0], p[1]);
      var j :| 0 <= j < k && order[j] == p[1];
      PathStaysBefore(plans, order, j, p[1..], b);
      assert order[..j] <= order[..k];
    }
  }

  /** The last entry of a dependency-first order is new and nothing in the order depends on it. */
  lemma NewestIsNoDependency(plans: Plans, order: seq<nat>, id: nat, x: nat)
    requires DependencyFirst(plans, order + [id]) && x in order + [id] && x in plans
    ensures id !in order && id !in plans[x].dependsOn
  {
    var longer := order + [id];
    assert longer[|order|] == id && forall i | 0 <= i < |order| :: longer[i] == order[i];
    var k :| 0 <= k < |longer| && longer[k] == x;
    if id in plans[x].dependsOn {
      assert Edge(plans, longer[k], id);
    }
  }

  /** Everything reachable from a member of a dependency-first order is a member, and none is on a cycle. */
  lemma OrderClosed(plans: Plans, order: seq<nat>, a: nat, b: nat)
    requires DependencyFirst(plans, order) && a in order && Reach(plans, a, b)
    ensures b in order && !OnCycle(plans, b)
  {
    var k :| 0 <= k < |order| && order[k] == a;
    var p :| IsPath(plans, p, a, b);
    PathStaysBefore(plans, order, k, p, b);
    assert b in order;
    if OnCycle(plans, b) {
      var y :| Edge(plans, b, y) && Reach(plans, y, b);
      var q :| IsPath(plans, q, y, b);
      var m :| 0 <= m < |order| && order[m] == b;
      assert IsPath(plans, [b] + q, b, b);
      PathStaysBefore(plans, order, m, [b] + q, b);
      assert false;
    }
  }
}
