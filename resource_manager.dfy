/**
 * The resource manager's load path: every load is first tracked per frame,
 * then the blocking load is issued and its completion status mapped to the
 * asset or to nothing. The asset-loading subsystem is reduced to the
 * completed handle it hands back; the frame tick is a parameter.
 */
module ResourceManager {
  import opened Wrappers
  import opened FrameTracker

  /** Completion status of an asynchronous load handle. */
  datatype AsyncOperationStatus = NoStatus | Succeeded | Failed

  /** A load handle after waiting for completion: its status and its result. */
  datatype Handle<T> = Handle(status: AsyncOperationStatus, result: T)

  /** What the load path reports to the error log, in order. */
  datatype Diagnostic = RepeatedLoad(warning: Warning) | LoadFailed(path: string)

  /** The tracker's static state: two generations of counts and the tracked frame tick. */
  class CronicaResourceManager {
    var loadCountThisFrame: map<string, int>
    var loadCountLastFrame: map<string, int>
    var currentFrameCount: int

    /** The tracker state as a value. */
    function State(): Generation
      reads this
    {
      Generation(loadCountThisFrame, loadCountLastFrame, currentFrameCount)
    }

    /** Every stored count is at least one. */
    ghost predicate Valid()
      reads this
    {
      FrameTracker.Valid(State())
    }

    /** The fields' default values: empty maps and frame tick zero. */
    constructor ()
      ensures State() == Initial() && Valid()
    {
      loadCountThisFrame := map[];
      loadCountLastFrame := map[];
      currentFrameCount := 0;
    }

    /**
     * Records one load of `path` in the frame `frameCount`: on a new frame
     * the counts move to the last-frame map and the this-frame map is
     * cleared; the path's count is then inserted or incremented, and a
     * warning is returned when the last-frame count for the path is positive.
     */
    method TrackFrameLoad(path: string, frameCount: int) returns (warning: Option<Warning>)
      requires Valid()
      modifies this
      ensures Valid()
      ensures Tracked(State(), warning) == Track(old(State()), path, frameCount)
    {
      if frameCount != currentFrameCount {
        loadCountLastFrame := loadCountThisFrame;
        loadCountThisFrame := map[];
        currentFrameCount := frameCount;
      }

      if path in loadCountThisFrame {
        loadCountThisFrame := loadCountThisFrame[path := loadCountThisFrame[path] + 1];
      } else {
        loadCountThisFrame := loadCountThisFrame[path := 1];
      }

      if path in loadCountLastFrame && loadCountLastFrame[path] > 0 {
        warning := Some(Warning(path, loadCountLastFrame[path], loadCountThisFrame[path]));
      } else {
        warning := None;
      }
    }

    /**
     * Tracks the load, then maps the completed handle: its result on
     * success, nothing (and a failure diagnostic) on any other status. The
     * tracking warning, if any, is logged first and never changes the result.
     */
    method LoadAsset<T>(path: string, frameCount: int, handle: Handle<T>)
      returns (asset: Option<T>, log: seq<Diagnostic>)
      requires Valid()
      modifies this
      ensures Valid()
      ensures State() == Track(old(State()), path, frameCount).gen
      ensures asset == if handle.status == Succeeded then Some(handle.result) else None
      ensures log ==
                (match Track(old(State()), path, frameCount).warning
                 case Some(w) => [RepeatedLoad(w)]
                 case None => [])
                + (if handle.status == Succeeded then [] else [LoadFailed(path)])
    {
      var warning := TrackFrameLoad(path, frameCount);
      log := if warning.Some? then [RepeatedLoad(warning.value)] else [];

      if handle.status == Succeeded {
        asset := Some(handle.result);
      } else {
        log := log + [LoadFailed(path)];
        asset := None;
      }
    }
  }
}
