/**
 Compiling the settings of a pipeline: one configuration per channel, overrides by
 channel id, and exclusion groups. Channel ids count from 1, channels from 0.
 */
module PipelineConfig {
  import opened Common
  import opened Pipeline

  datatype Settings = Settings(
    defaultChannel: ChannelConfig, overrides: map<nat, ChannelConfig>, activeStaleAfter: int, mutualExclusion: seq<seq<nat>>)

  predicate KnownChannel(id: nat) {
    1 <= id <= CHANNEL_COUNT
  }

  predicate GroupAccepted(group: seq<nat>) {
    |group| >= 2 && forall i | 0 <= i < |group| :: KnownChannel(group[i])
  }

  /** No channel is named twice, in one group or in two. */
  predicate NamedOnce(groups: seq<seq<nat>>) {
    forall g, h, i, j | 0 <= g < |groups| && 0 <= h < |groups| && 0 <= i < |groups[g]| && 0 <= j < |groups[h]|
      && groups[g][i] == groups[h][j] :: g == h && i == j
  }

  predicate GroupsAccepted(groups: seq<seq<nat>>) {
    (forall g | 0 <= g < |groups| :: GroupAccepted(groups[g])) && NamedOnce(groups)
  }

  predicate OverridesAccepted(overrides: map<nat, ChannelConfig>) {
    forall id | id in overrides :: KnownChannel(id) && ChannelValid(overrides[id])
  }

  /** What compiles. */
  predicate SettingsAccepted(s: Settings) {
    s.activeStaleAfter > 0 && ChannelValid(s.defaultChannel) && OverridesAccepted(s.overrides) && GroupsAccepted(s.mutualExclusion)
  }

  function Indices(group: seq<nat>): (r: seq<nat>)
    requires GroupAccepted(group)
    ensures |r| == |group| && forall i | 0 <= i < |r| :: r[i] + 1 == group[i]
  {
    seq(|group|, i requires 0 <= i < |group| => assert KnownChannel(group[i]); group[i] - 1)
  }

  function AllIndices(groups: seq<seq<nat>>): (r: seq<seq<nat>>)
    requires forall g | 0 <= g < |groups| :: GroupAccepted(groups[g])
    ensures |r| == |groups| && forall g | 0 <= g < |r| :: r[g] == Indices(groups[g])
  {
    seq(|groups|, g requires 0 <= g < |groups| => Indices(groups[g]))
  }

  lemma AcceptedGroupsAreValid(groups: seq<seq<nat>>)
    requires GroupsAccepted(groups)
    ensures GroupsValid(AllIndices(groups))
  {
    var r := AllIndices(groups);
    forall g, h, c | 0 <= g < h < |r| && c in r[g] ensures c !in r[h] {
      var i :| 0 <= i < |r[g]| && r[g][i] == c;
      forall j | 0 <= j < |r[h]| ensures r[h][j] != c {
        assert groups[g][i] != groups[h][j];
      }
    }
  }

  /** The place (g, i) comes before the place (a, b) of the groups. */
  predicate Earlier(g: nat, i: nat, a: nat, b: nat) {
    g < a || (g == a && i < b)
  }

  ghost predicate NamedOnceBefore(groups: seq<seq<nat>>, a: nat, b: nat) {
    forall g, h, i, j | 0 <= g < |groups| && 0 <= h < |groups| && 0 <= i < |groups[g]| && 0 <= j < |groups[h]|
      && Earlier(g, i, a, b) && Earlier(h, j, a, b) && groups[g][i] == groups[h][j] :: g == h && i == j
  }

  ghost predicate SeenBefore(groups: seq<seq<nat>>, a: nat, b: nat, seen: set<nat>) {
    && (forall g, i | 0 <= g < |groups| && 0 <= i < |groups[g]| && Earlier(g, i, a, b) :: groups[g][i] in seen)
    && (forall id | id in seen :: exists g, i :: 0 <= g < |groups| && 0 <= i < |groups[g]| && Earlier(g, i, a, b) && groups[g][i] == id)
  }

  /** `compileMutualExclusion`. */
  method CompileMutualExclusion(groups: seq<seq<nat>>) returns (compiled: Option<seq<seq<nat>>>)
    ensures compiled.Some? <==> GroupsAccepted(groups)
    ensures compiled.Some? ==> compiled.value == AllIndices(groups)
  {
    var result: seq<seq<nat>> := [];
    var seen: set<nat> := {};
    for g := 0 to |groups|
      invariant forall h | 0 <= h < g :: GroupAccepted(groups[h])
      invariant result == AllIndices(groups[..g])
      invariant NamedOnceBefore(groups, g, 0) && SeenBefore(groups, g, 0, seen)
    {
      var indices;
      indices, seen := CompileGroup(groups, g, seen);
      if indices.None? { return None; }
      result := result + [indices.value];
    }
    assert groups[..|groups|] == groups;
    compiled := Some(result);
  }

  /** One group, whose channels must be known and not seen before. */
  method CompileGroup(groups: seq<seq<nat>>, g: nat, before: set<nat>) returns (indices: Option<seq<nat>>, seen: set<nat>)
    requires g < |groups| && NamedOnceBefore(groups, g, 0) && SeenBefore(groups, g, 0, before)
    ensures indices.None? ==> !GroupAccepted(groups[g]) || !NamedOnce(groups)
    ensures indices.Some? ==> GroupAccepted(groups[g]) && indices.value == Indices(groups[g])
    ensures indices.Some? ==> NamedOnceBefore(groups, g + 1, 0)
    ensures indices.Some? ==> SeenBefore(groups, g + 1, 0, seen)
  {
    var group := groups[g];
    seen := before;
    if |group| < 2 { return None, seen; }
    var result: seq<nat> := [];
    for i := 0 to |group|
      invariant |result| == i && forall k | 0 <= k < i :: KnownChannel(group[k]) && result[k] + 1 == group[k]
      invariant NamedOnceBefore(groups, g, i) && SeenBefore(groups, g, i, seen)
    {
      if !KnownChannel(group[i]) || group[i] in seen { return None, seen; }
      NextPlace(groups, g, i, seen);
      seen := seen + {group[i]};
      result := result + [group[i] - 1];
    }
    NextGroup(groups, g, seen);
    assert result == Indices(group);
    indices := Some(result);
  }

  lemma NextPlace(groups: seq<seq<nat>>, a: nat, b: nat, seen: set<nat>)
    requires a < |groups| && b < |groups[a]| && groups[a][b] !in seen
    requires NamedOnceBefore(groups, a, b) && SeenBefore(groups, a, b, seen)
    ensures NamedOnceBefore(groups, a, b + 1) && SeenBefore(groups, a, b + 1, seen + {groups[a][b]})
  {
    forall g, i | 0 <= g < |groups| && 0 <= i < |groups[g]| && Earlier(g, i, a, b + 1)
      ensures Earlier(g, i, a, b) || (g == a && i == b)
    {
    }
    forall id | id in seen + {groups[a][b]}
      ensures exists g, i :: 0 <= g < |groups| && 0 <= i < |groups[g]| && Earlier(g, i, a, b + 1) && groups[g][i] == id
    {
      if id in seen {
        var g, i :| 0 <= g < |groups| && 0 <= i < |groups[g]| && Earlier(g, i, a, b) && groups[g][i] == id;
        assert Earlier(g, i, a, b + 1);
      } else {
        assert Earlier(a, b, a, b + 1);
      }
    }
  }

  lemma NextGroup(groups: seq<seq<nat>>, a: nat, seen: set<nat>)
    requires a < |groups| && NamedOnceBefore(groups, a, |groups[a]|) && SeenBefore(groups, a, |groups[a]|, seen)
    ensures NamedOnceBefore(groups, a + 1, 0) && SeenBefore(groups, a + 1, 0, seen)
  {
    forall g, i | 0 <= g < |groups| && 0 <= i < |groups[g]| ensures Earlier(g, i, a + 1, 0) <==> Earlier(g, i, a, |groups[a]|) {
    }
    forall id | id in seen
      ensures exists g, i :: 0 <= g < |groups| && 0 <= i < |groups[g]| && Earlier(g, i, a + 1, 0) && groups[g][i] == id
    {
      var g, i :| 0 <= g < |groups| && 0 <= i < |groups[g]| && Earlier(g, i, a, |groups[a]|) && groups[g][i] == id;
      assert Earlier(g, i, a + 1, 0);
    }
  }

  /** What channel i is configured with. */
  function ChannelFor(s: Settings, i: nat): ChannelConfig {
    if i + 1 in s.overrides then s.overrides[i + 1] else s.defaultChannel
  }

  /** The overrides are applied in whatever order the map is walked. */
  method ApplyOverrides(s: Settings) returns (channels: Option<seq<ChannelConfig>>)
    requires ChannelValid(s.defaultChannel)
    ensures channels.Some? <==> OverridesAccepted(s.overrides)
    ensures channels.Some? ==> |channels.value| == CHANNEL_COUNT && forall i | 0 <= i < CHANNEL_COUNT ::
              channels.value[i] == ChannelFor(s, i) && ChannelValid(channels.value[i])
  {
    var compiled := seq(CHANNEL_COUNT, _ => s.defaultChannel);
    var remaining := s.overrides.Keys;
    while remaining != {}
      invariant remaining <= s.overrides.Keys && |compiled| == CHANNEL_COUNT
      invariant forall id | id in s.overrides && id !in remaining :: KnownChannel(id) && ChannelValid(s.overrides[id])
      invariant forall i | 0 <= i < CHANNEL_COUNT ::
                  compiled[i] == (if i + 1 in remaining then s.defaultChannel else ChannelFor(s, i)) && ChannelValid(compiled[i])
      decreases remaining
    {
      var id :| id in remaining;
      if !KnownChannel(id) || !ChannelValid(s.overrides[id]) { return None; }
      compiled := compiled[id - 1 := s.overrides[id]];
      remaining := remaining - {id};
    }
    channels := Some(compiled);
  }

  /** `compileConfig`: settings compile exactly when everything in them validates, to one configuration per channel. */
  method CompileConfig(s: Settings, pi: real, pow: (real, real) -> real) returns (config: Option<Config>)
    requires pi > 0.0
    ensures config.Some? <==> SettingsAccepted(s)
    ensures config.Some? ==> ConfigValid(config.value) && config.value.mutualExclusion == AllIndices(s.mutualExclusion)
    ensures config.Some? ==> forall i | 0 <= i < CHANNEL_COUNT :: config.value.channels[i] == ChannelFor(s, i)
    ensures config.Some? ==> config.value.activeStaleAfter == s.activeStaleAfter && config.value.pi == pi && config.value.pow == pow
  {
    if s.activeStaleAfter <= 0 || !ChannelValid(s.defaultChannel) { return None; }
    var channels := ApplyOverrides(s);
    if channels.None? { return None; }
    var groups := CompileMutualExclusion(s.mutualExclusion);
    if groups.None? { return None; }
    AcceptedGroupsAreValid(s.mutualExclusion);
    config := Some(Config(channels.value, s.activeStaleAfter, groups.value, pi, pow));
  }

  /** `NewPipeline`: settings that do not compile are refused; a new pipeline has no history. */
  method NewPipeline(s: Settings, pi: real, pow: (real, real) -> real) returns (pipeline: ProcessingPipeline?)
    requires pi > 0.0
    ensures pipeline == null <==> !SettingsAccepted(s)
    ensures pipeline != null ==> fresh(pipeline) && pipeline.Valid() && pipeline.state == NewState()
    ensures pipeline != null ==> pipeline.config.mutualExclusion == AllIndices(s.mutualExclusion)
    ensures pipeline != null ==> forall i | 0 <= i < CHANNEL_COUNT :: pipeline.config.channels[i] == ChannelFor(s, i)
  {
    var config := CompileConfig(s, pi, pow);
    if config.None? { return null; }
    pipeline := new ProcessingPipeline(config.value);
  }
}
