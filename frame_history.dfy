/**
 * What the load tracker remembers, stated over the whole history of loads.
 * A frame, for the tracker, is a maximal block of consecutive loads that
 * observed the same tick: the tracker rotates on any change of tick, so the
 * "previous frame" is the last block of loads before the current one,
 * whatever ticks lay between them.
 */
module FrameHistory {
  import opened Wrappers
  import opened FrameTracker

  /** One call of the tracker: the path loaded and the tick it observed. */
  datatype Load = Load(path: string, tick: int)

  function Last(loads: seq<Load>): Load
    requires loads != []
  {
    loads[|loads| - 1]
  }

  function Front(loads: seq<Load>): seq<Load>
    requires loads != []
  {
    loads[..|loads| - 1]
  }

  /** The generation after tracking every load of `loads`, in order, from `g`. */
  function Replay(g: Generation, loads: seq<Load>): Generation
    decreases |loads|
  {
    if loads == [] then g
    else Track(Replay(g, Front(loads)), Last(loads).path, Last(loads).tick).gen
  }

  /** How many loads of `path` the history holds. */
  function Occurrences(loads: seq<Load>, path: string): nat
    decreases |loads|
  {
    if loads == [] then 0
    else Occurrences(Front(loads), path) + if Last(loads).path == path then 1 else 0
  }

  /** The longest suffix of `loads` whose loads all observed `tick`. */
  function Run(loads: seq<Load>, tick: int): (r: seq<Load>)
    decreases |loads|
    ensures |r| <= |loads| && r == loads[|loads| - |r|..]
    ensures forall i :: 0 <= i < |r| ==> r[i].tick == tick
    ensures |r| < |loads| ==> loads[|loads| - |r| - 1].tick != tick
  {
    if loads == [] || Last(loads).tick != tick then []
    else Run(Front(loads), tick) + [Last(loads)]
  }

  /** The loads of the frame being tracked after `loads`. */
  function CurrentFrame(loads: seq<Load>): seq<Load> {
    if loads == [] then [] else Run(loads, Last(loads).tick)
  }

  /** The loads before the current frame. */
  function Before(loads: seq<Load>): seq<Load> {
    loads[..|loads| - |CurrentFrame(loads)|]
  }

  /** The loads of the frame tracked before the current one. */
  function PreviousFrame(loads: seq<Load>): seq<Load> {
    CurrentFrame(Before(loads))
  }

  /** `counts` holds exactly the paths loaded in `loads`, each with its number of loads. */
  ghost predicate Tallies(counts: map<string, int>, loads: seq<Load>) {
    && (forall p :: p in counts <==> Occurrences(loads, p) > 0)
    && (forall p :: p in counts ==> counts[p] == Occurrences(loads, p))
  }

  /** Loads that observed a different tick from the current frame's start a new frame. */
  lemma {:induction false} FramesAfterLoad(loads: seq<Load>, x: Load)
    ensures loads != [] && x.tick == Last(loads).tick ==>
              && CurrentFrame(loads + [x]) == CurrentFrame(loads) + [x]
              && Before(loads + [x]) == Before(loads)
    ensures loads == [] || x.tick != Last(loads).tick ==>
              && CurrentFrame(loads + [x]) == [x]
              && Before(loads + [x]) == loads
  {
    var l := loads + [x];
    assert Front(l) == loads && Last(l) == x;
    if loads != [] && x.tick == Last(loads).tick {
      var c := CurrentFrame(loads);
      assert Run(l, x.tick) == Run(loads, x.tick) + [x];
      assert |l| - |c + [x]| == |loads| - |c|;
      assert l[..|loads| - |c|] == loads[..|loads| - |c|];
    } else {
      assert Run(l, x.tick) == Run(loads, x.tick) + [x];
      assert Run(loads, x.tick) == [] by {
        if loads != [] {
          assert Last(loads).tick != x.tick;
        }
      }
    }
  }

  /** Counting one more load adds one to its path's count and leaves the others. */
  lemma OccurrencesAfterLoad(loads: seq<Load>, x: Load, p: string)
    ensures Occurrences(loads + [x], p) == Occurrences(loads, p) + if x.path == p then 1 else 0
  {
    assert Front(loads + [x]) == loads;
  }

  /** A load in the current frame adds one to its path's tally and leaves the previous frame alone. */
  lemma {:induction false} SameFrameStep(g: Generation, front: seq<Load>, x: Load)
    requires front != [] && x.tick == Last(front).tick == g.frameId
    requires Tallies(g.current, CurrentFrame(front)) && Tallies(g.previous, PreviousFrame(front))
    ensures Tallies(Track(g, x.path, x.tick).gen.current, CurrentFrame(front + [x]))
    ensures Tallies(Track(g, x.path, x.tick).gen.previous, PreviousFrame(front + [x]))
  {
    FramesAfterLoad(front, x);
    var r := Track(g, x.path, x.tick).gen;
    forall p
      ensures p in r.current <==> Occurrences(CurrentFrame(front + [x]), p) > 0
      ensures p in r.current ==> r.current[p] == Occurrences(CurrentFrame(front + [x]), p)
    {
      OccurrencesAfterLoad(CurrentFrame(front), x, p);
      if p != x.path {
        assert p in r.current <==> p in g.current by {
          assert p in r.current - {x.path} <==> p in g.current - {x.path};
        }
        if p in r.current {
          assert r.current[p] == (r.current - {x.path})[p] == (g.current - {x.path})[p];
        }
      }
    }
  }

  /** A load that observes another tick starts a frame holding only itself;
      the frame it ends becomes the previous one. */
  lemma {:induction false} NewFrameStep(g: Generation, front: seq<Load>, x: Load)
    requires front == [] || x.tick != Last(front).tick
    requires front == [] ==> g.current == map[] && g.previous == map[]
    requires front != [] ==> g.frameId == Last(front).tick
    requires Tallies(g.current, CurrentFrame(front))
    ensures Tallies(Track(g, x.path, x.tick).gen.current, CurrentFrame(front + [x]))
    ensures Tallies(Track(g, x.path, x.tick).gen.previous, PreviousFrame(front + [x]))
  {
    var r := Track(g, x.path, x.tick).gen;
    assert r.current == map[x.path := 1] && r.previous == g.current by {
      if x.tick == g.frameId {
        assert front == [];
      }
    }
    assert CurrentFrame(front + [x]) == [x] && PreviousFrame(front + [x]) == CurrentFrame(front) by {
      FramesAfterLoad(front, x);
    }
    SingleLoadTallies(x);
  }

  /** A frame of one load is tallied by a single count of one. */
  lemma SingleLoadTallies(x: Load)
    ensures Tallies(map[x.path := 1], [x])
  {
    forall p
      ensures p in map[x.path := 1] <==> Occurrences([x], p) > 0
      ensures p in map[x.path := 1] ==> map[x.path := 1][p] == Occurrences([x], p)
    {
      OccurrencesAfterLoad([], x, p);
    }
  }

  /**
   * After any history that starts from empty counts, the tracker's current
   * generation tallies the loads of the current frame and its previous
   * generation tallies the loads of the frame before it.
   */
  lemma {:induction false} ReplayTallies(frameId: int, loads: seq<Load>)
    ensures Replay(Generation(map[], map[], frameId), loads).frameId ==
              if loads == [] then frameId else Last(loads).tick
    ensures Tallies(Replay(Generation(map[], map[], frameId), loads).current, CurrentFrame(loads))
    ensures Tallies(Replay(Generation(map[], map[], frameId), loads).previous, PreviousFrame(loads))
  {
    if loads == [] {
      return;
    }
    var front, x := Front(loads), Last(loads);
    assert loads == front + [x];
    ReplayTallies(frameId, front);
    var g := Replay(Generation(map[], map[], frameId), front);
    if front != [] && x.tick == Last(front).tick {
      SameFrameStep(g, front, x);
    } else {
      NewFrameStep(g, front, x);
    }
  }

  /**
   * A load warns exactly when its path was loaded in the frame tracked
   * before the load's own frame, and the warning carries the path's count in
   * that frame and its count in the load's frame so far, this load included.
   */
  lemma {:induction false} WarnsIffLoadedInPreviousFrame(frameId: int, history: seq<Load>, x: Load)
    ensures Track(Replay(Generation(map[], map[], frameId), history), x.path, x.tick).warning.Some? <==>
              Occurrences(PreviousFrame(history + [x]), x.path) > 0
    ensures Track(Replay(Generation(map[], map[], frameId), history), x.path, x.tick).warning.Some? ==>
              Track(Replay(Generation(map[], map[], frameId), history), x.path, x.tick).warning.value ==
                Warning(x.path,
                        Occurrences(PreviousFrame(history + [x]), x.path),
                        Occurrences(CurrentFrame(history + [x]), x.path))
  {
    var loads := history + [x];
    assert Front(loads) == history && Last(loads) == x;
    ReplayTallies(frameId, loads);
  }

  /** Appending a sequence that ends in `y` is appending its front, then `y`. */
  lemma AppendLast(a: seq<Load>, b: seq<Load>, y: Load)
    ensures a + (b + [y]) == (a + b) + [y]
  {
  }

  /** Loading `m` and then `rest` is loading `[m] + rest`. */
  lemma AppendFirst(a: seq<Load>, m: Load, rest: seq<Load>)
    ensures (a + [m]) + rest == a + ([m] + rest)
  {
  }

  /** One load on the tick of the current frame leaves the previous frame as it was. */
  lemma PreviousFrameStep(loads: seq<Load>, y: Load)
    requires loads != [] && y.tick == Last(loads).tick
    ensures PreviousFrame(loads + [y]) == PreviousFrame(loads)
  {
    FramesAfterLoad(loads, y);
  }

  /** Loads on the tick of the current frame leave the previous frame as it was. */
  lemma {:induction false} PreviousFrameFixed(history: seq<Load>, mid: seq<Load>)
    requires history != []
    requires forall l :: l in mid ==> l.tick == Last(history).tick
    ensures PreviousFrame(history + mid) == PreviousFrame(history)
    decreases |mid|
  {
    if mid == [] {
      assert history + mid == history;
    } else {
      var m, rest := mid[0], mid[1..];
      assert mid == [m] + rest;
      PreviousFrameStep(history, m);
      assert Last(history + [m]) == m;
      PreviousFrameFixed(history + [m], rest);
      AppendFirst(history, m, rest);
    }
  }

  /** A later load in the frame of `x` has the same previous frame as `x`. */
  lemma PreviousFrameOfLaterLoad(history: seq<Load>, x: Load, mid: seq<Load>, y: Load)
    requires y.tick == x.tick
    requires forall l :: l in mid ==> l.tick == x.tick
    ensures PreviousFrame(history + [x] + mid + [y]) == PreviousFrame(history + [x])
  {
    var h := history + [x];
    var rest := mid + [y];
    assert Last(h) == x;
    assert forall l :: l in rest ==> l.tick == x.tick by {
      forall l | l in rest ensures l.tick == x.tick {
        if l != y {
          assert l in mid;
        }
      }
    }
    PreviousFrameFixed(h, rest);
    AppendLast(h, mid, y);
  }

  /**
   * Within one frame the previous frame stays fixed, so a later load of a
   * path in the same frame, whatever other loads of that frame came in
   * between, gets the same verdict as an earlier one: a path absent from the
   * previous frame never warns in this frame, and a path present there warns
   * on every load.
   */
  lemma {:induction false} SameFrameSameVerdict(frameId: int, history: seq<Load>, x: Load, mid: seq<Load>, y: Load)
    requires x.tick == y.tick && x.path == y.path
    requires forall l :: l in mid ==> l.tick == x.tick
    ensures Track(Replay(Generation(map[], map[], frameId), history + [x] + mid), y.path, y.tick).warning.Some? ==
            Track(Replay(Generation(map[], map[], frameId), history), x.path, x.tick).warning.Some?
  {
    PreviousFrameOfLaterLoad(history, x, mid, y);
    WarnsIffLoadedInPreviousFrame(frameId, history, x);
    WarnsIffLoadedInPreviousFrame(frameId, history + [x] + mid, y);
  }

  /** Loads of "a" at ticks 5 and 6: the second warns with counts 1 and 1. */
  lemma ConsecutiveFramesWarn()
    ensures Track(Track(Initial(), "a", 5).gen, "a", 6).warning == Some(Warning("a", 1, 1))
  {
  }

  /** Loads of "a" twice at tick 5, nothing before: neither warns. */
  lemma SameFrameRepeatsAreSilent()
    ensures Track(Initial(), "a", 5).warning == None
    ensures Track(Track(Initial(), "a", 5).gen, "a", 5).warning == None
  {
  }

  /** Loads of "a" at ticks 5 and 7 with no load at tick 6: the second still
      warns, since tick 5 was the last tracked frame. */
  lemma SkippedFrameStillWarns()
    ensures Track(Track(Initial(), "a", 5).gen, "a", 7).warning == Some(Warning("a", 1, 1))
  {
  }

  /** Loads of "a" at 5, then "b" at 6, then "a" at 7: no warning, the
      previous frame (tick 6) did not load "a". */
  lemma InterveningFrameSilences()
    ensures Track(Track(Track(Initial(), "a", 5).gen, "b", 6).gen, "a", 7).warning == None
  {
  }

  /** Loads of "a" at 5, then twice at 6: both loads at 6 warn, the second with count 2. */
  lemma EveryLoadInFrameWarns()
    ensures Track(Track(Initial(), "a", 5).gen, "a", 6).warning == Some(Warning("a", 1, 1))
    ensures Track(Track(Track(Initial(), "a", 5).gen, "a", 6).gen, "a", 6).warning ==
              Some(Warning("a", 1, 2))
  {
  }
}
