/**
 * The frame-scoped load tracker as a value: two generations of per-path
 * load counts and the frame tick they belong to, and the step taken on
 * every asset load.
 */
module FrameTracker {
  import opened Wrappers

  /** Load counts of the frame being tracked, of the frame tracked before it, and the tracked tick. */
  datatype Generation = Generation(current: map<string, int>, previous: map<string, int>, frameId: int)

  /** The performance warning: the path, its count in the previous generation
      and its count in the current one after this load. */
  datatype Warning = Warning(path: string, lastFrameCount: int, thisFrameCount: int)

  datatype Tracked = Tracked(gen: Generation, warning: Option<Warning>)

  /** Both maps empty and the tick zero: the default values of the tracker's static fields. */
  function Initial(): Generation {
    Generation(map[], map[], 0)
  }

  /** Every stored count is at least one. */
  predicate Positive(counts: map<string, int>) {
    forall p :: p in counts ==> counts[p] >= 1
  }

  /** The tracker's invariant: both generations hold positive counts only. */
  predicate Valid(g: Generation) {
    Positive(g.current) && Positive(g.previous)
  }

  /** The generation that a load at `tick` counts into: rotated when the tick differs from the tracked one. */
  function Rotate(g: Generation, tick: int): Generation {
    if tick != g.frameId then Generation(map[], g.current, tick) else g
  }

  /**
   * One load of `path` observed at frame tick `tick`: rotate on any change
   * of tick, count the load, and warn when the previous generation has a
   * positive count for the path.
   */
  function Track(g: Generation, path: string, tick: int): (r: Tracked)
    ensures r.gen.frameId == tick
    ensures r.gen.previous == if tick != g.frameId then g.current else g.previous
    ensures tick != g.frameId ==> r.gen.current == map[path := 1]
    ensures tick == g.frameId ==>
              && path in r.gen.current
              && r.gen.current[path] == (if path in g.current then g.current[path] + 1 else 1)
              && r.gen.current - {path} == g.current - {path}
    ensures Valid(g) ==> Valid(r.gen)
    ensures r.warning.Some? <==> path in r.gen.previous && r.gen.previous[path] > 0
    ensures r.warning.Some? ==>
              r.warning.value == Warning(path, r.gen.previous[path], r.gen.current[path])
  {
    var rotated := Rotate(g, tick);
    var count := if path in rotated.current then rotated.current[path] + 1 else 1;
    var next := rotated.(current := rotated.current[path := count]);
    var warning :=
      if path in next.previous && next.previous[path] > 0
      then Some(Warning(path, next.previous[path], count))
      else None;
    Tracked(next, warning)
  }
}
