/**
 Mutual exclusion seen from one channel: what projecting all groups does to it, and
 when leaving some channels out of the candidates changes that.
 */
module Exclusion {
  import opened Common
  import opened TrackingModel
  import opened Pipeline

  lemma {:induction false} WinnerDependsOnGroup(a: seq<Candidate>, b: seq<Candidate>, group: seq<nat>)
    requires |a| == |b| && Within(group, |a|)
    requires forall i | i in group :: a[i] == b[i]
    ensures Winner(a, group) == Winner(b, group)
  {
    if group != [] {
      var init := group[..|group| - 1];
      assert forall i | i in init :: i in group;
      WinnerDependsOnGroup(a, b, init);
      assert group[|group| - 1] in group;
    }
  }

  /** The winner is the valid member that no valid member outranks. */
  lemma WinnerIsUnbeaten(c: seq<Candidate>, group: seq<nat>, r: nat)
    requires Within(group, |c|) && r in group
    ensures Winner(c, group) == Some(r) <==> c[r].valid && forall m | m in group && c[m].valid :: !Outranks(c, m, r)
  {
    WinnerIsLargest(c, group);
  }

  /** A channel that no group names is left alone. */
  lemma {:induction false} UngroupedIsKept(c: seq<Candidate>, groups: seq<seq<nat>>, r: nat)
    requires AllWithin(groups, |c|) && r < |c|
    requires forall g | g in groups :: r !in g
    ensures Project(c, groups)[r] == c[r]
  {
    if groups != [] {
      var init := groups[..|groups| - 1];
      assert forall g | g in init :: g in groups;
      UngroupedIsKept(c, init, r);
    }
  }

  lemma GroupsStayValid(groups: seq<seq<nat>>)
    requires GroupsValid(groups) && groups != []
    ensures GroupsValid(groups[..|groups| - 1])
    ensures forall g, r | g in groups[..|groups| - 1] && r in g :: r !in groups[|groups| - 1]
  {
    var init := groups[..|groups| - 1];
    assert forall g | g in init :: g in groups;
    assert forall i | 0 <= i < |init| :: init[i] == groups[i];
  }

  /** No channel is in two groups, so a channel's own group alone decides what it shows. */
  lemma {:induction false} OwnGroupDecides(c: seq<Candidate>, groups: seq<seq<nat>>, group: seq<nat>, r: nat)
    requires |c| == CHANNEL_COUNT && GroupsValid(groups) && group in groups && r in group
    ensures r < |c| && Project(c, groups)[r] == ProjectGroup(c, group)[r]
  {
    var init, last := groups[..|groups| - 1], groups[|groups| - 1];
    GroupsStayValid(groups);
    var before := Project(c, init);
    if group == last {
      forall i | i in last ensures before[i] == c[i] {
        UngroupedIsKept(c, init, i);
      }
      WinnerDependsOnGroup(before, c, last);
    } else {
      assert group in init;
      OwnGroupDecides(c, init, group, r);
    }
  }

  /** trimmed has the kept candidates, and none in place of the others. */
  ghost predicate Restricts(full: seq<Candidate>, trimmed: seq<Candidate>, kept: set<nat>) {
    && |full| == |trimmed| == CHANNEL_COUNT
    && forall i | 0 <= i < CHANNEL_COUNT :: trimmed[i] == if i in kept then full[i] else Candidate(0.0, false)
  }

  /** The channel would show a value, were it not for channels of its group that are not kept. */
  ghost predicate Overshadowed(c: seq<Candidate>, group: seq<nat>, kept: set<nat>, r: nat)
    requires Within(group, |c|) && r < |c|
  {
    && r in group && c[r].valid && c[r].value != 0.0
    && (forall m | m in group && m in kept && c[m].valid :: !Outranks(c, m, r))
    && (exists u :: u in group && u !in kept && c[u].valid && Outranks(c, u, r))
  }

  lemma RestrictedWinner(full: seq<Candidate>, trimmed: seq<Candidate>, kept: set<nat>, group: seq<nat>, r: nat)
    requires Restricts(full, trimmed, kept) && Within(group, CHANNEL_COUNT) && r in group && r in kept
    ensures Winner(trimmed, group) == Some(r) <==>
              full[r].valid && forall m | m in group && m in kept && full[m].valid :: !Outranks(full, m, r)
  {
    WinnerIsUnbeaten(trimmed, group, r);
    forall m | m in group && m in kept ensures Outranks(trimmed, m, r) <==> Outranks(full, m, r) {
    }
  }

  /** Within its group: leaving channels out changes what a kept channel shows exactly when it was overshadowed. */
  lemma GroupAgrees(full: seq<Candidate>, trimmed: seq<Candidate>, kept: set<nat>, group: seq<nat>, r: nat)
    requires Restricts(full, trimmed, kept) && Within(group, CHANNEL_COUNT) && r in group && r in kept
    ensures Overshadowed(full, group, kept, r) ==>
              ProjectGroup(full, group)[r] == Candidate(0.0, true) && ProjectGroup(trimmed, group)[r] == full[r]
    ensures !Overshadowed(full, group, kept, r) ==> ProjectGroup(full, group)[r] == ProjectGroup(trimmed, group)[r]
  {
    WinnerIsUnbeaten(full, group, r);
    RestrictedWinner(full, trimmed, kept, group, r);
  }

  /** The channel is overshadowed in some exclusion group. */
  ghost predicate OvershadowedIn(c: seq<Candidate>, groups: seq<seq<nat>>, kept: set<nat>, r: nat)
    requires AllWithin(groups, |c|) && r < |c|
  {
    exists g | g in groups :: Overshadowed(c, g, kept, r)
  }

  /** A channel whose group is kept whole is never overshadowed. */
  lemma WholeGroupsHideNothing(c: seq<Candidate>, groups: seq<seq<nat>>, kept: set<nat>, r: nat)
    requires AllWithin(groups, |c|) && r < |c|
    requires forall g | g in groups && r in g :: KeptWhole(g, kept)
    ensures !OvershadowedIn(c, groups, kept, r)
  {
  }

  predicate KeptWhole(group: seq<nat>, kept: set<nat>) {
    forall u | u in group :: u in kept
  }

  lemma OnlyGroup(c: seq<Candidate>, groups: seq<seq<nat>>, group: seq<nat>, kept: set<nat>, r: nat)
    requires |c| == CHANNEL_COUNT && GroupsValid(groups) && group in groups && r in group
    ensures OvershadowedIn(c, groups, kept, r) <==> Overshadowed(c, group, kept, r)
  {
    forall g | g in groups && r in g ensures g == group {
      var i, j :| 0 <= i < |groups| && 0 <= j < |groups| && groups[i] == g && groups[j] == group;
      assert i <= j && j <= i;
    }
  }

  /**
   Over all groups: leaving channels out changes what a kept channel shows exactly
   when it was overshadowed, and then shows a value where there was zero.
   */
  lemma ProjectionAgrees(full: seq<Candidate>, trimmed: seq<Candidate>, kept: set<nat>, groups: seq<seq<nat>>, r: nat)
    requires Restricts(full, trimmed, kept) && GroupsValid(groups) && r < CHANNEL_COUNT && r in kept
    ensures var a, b := Project(full, groups)[r], Project(trimmed, groups)[r];
            if OvershadowedIn(full, groups, kept, r) then a == Candidate(0.0, true) && b == full[r] && b.valid && b.value != 0.0
            else a == b
  {
    if g :| g in groups && r in g {
      OwnGroupDecides(full, groups, g, r);
      OwnGroupDecides(trimmed, groups, g, r);
      GroupAgrees(full, trimmed, kept, g, r);
      OnlyGroup(full, groups, g, kept, r);
    } else {
      UngroupedIsKept(full, groups, r);
      UngroupedIsKept(trimmed, groups, r);
    }
  }
}
