/**
 The coordinator's clock (internal/application/clock.go), which makes processing times
 that strictly increase. The pipeline demands as well that no frame is processed before
 its publication: whether that holds is up to the wall, see module CoordinatorRuns.
 */
module HostClock {
  import opened Common

  type Nanos = t: int | -0x8000_0000_0000_0000 <= t <= MAX_INT64

  class MonotonicClock {
    var last: Nanos
    var hasLast: bool

    constructor ()
      ensures !hasLast
    {
      last, hasLast := 0, false;
    }

    /** The wall time, held back by nothing but earlier samples; a strict sample moves on until the counter is exhausted. */
    method Sample(wall: Nanos, strict: bool) returns (now: Nanos)
      modifies this
      ensures hasLast && last == now && now >= wall
      ensures !old(hasLast) ==> now == wall
      ensures old(hasLast) ==> now >= old(last) && (strict && old(last) < MAX_INT64 ==> now > old(last))
      ensures old(hasLast) && wall > old(last) ==> now == wall
      ensures old(hasLast) && wall <= old(last) ==> now <= old(last) + 1 && (!strict ==> now == old(last))
    {
      now := wall;
      if !hasLast {
        last, hasLast := now, true;
        return;
      }
      if now < last { now := last; }
      if strict && now <= last && last < MAX_INT64 { now := last + 1; }
      last := now;
    }
  }

  /** However the wall clock jumps, processing times strictly increase until the counter is exhausted, and none lags the wall. */
  method RunClock(walls: seq<Nanos>) returns (times: seq<Nanos>)
    ensures |times| == |walls|
    ensures forall i | 0 <= i < |times| :: times[i] >= walls[i]
    ensures forall i, j | 0 <= i < j < |times| :: times[i] < times[j] || times[i] == times[j] == MAX_INT64
  {
    var clock := new MonotonicClock();
    times := [];
    for i := 0 to |walls|
      invariant fresh(clock) && |times| == i && (clock.hasLast <==> i > 0)
      invariant i > 0 ==> clock.last == times[i - 1]
      invariant forall k | 0 <= k < i :: times[k] >= walls[k]
      invariant forall j, k | 0 <= j < k < i :: times[j] < times[k] || times[j] == times[k] == MAX_INT64
    {
      var now := clock.Sample(walls[i], true);
      times := times + [now];
    }
  }
}
