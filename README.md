# Cronica animator helpers and frame load tracker, in Dafny

This project models two pieces of game-side logic from Cronica.Core and proves properties of them.

**The animator-parameter helpers** (`AnimatorHelper`):
- `HasParameter` checks whether an animator declares a parameter with a given name and type.
- `RegisterParameter` derives a parameter's hash and records it in a caller-owned hash set, but only when the parameter exists.
- Three tiers of setters write to the animator:
  - `SetValue` is unchecked and writes by name.
  - `SafeSetValue` writes by hash, and only when the hash is in the caller's set.
  - `TrySetValue` searches the parameter list again on every call.
- The four C# overloads of each setter become one method over a tagged `Value`. The trigger overload is `TriggerValue`.
- The animator is reduced to two things: its list of `(name, type)` descriptors and a log of the setter calls it receives.
- The engine's name-to-hash function is a parameter `stringToHash`. Nothing assumes it is injective.

**The resource manager's frame load tracker** (`CronicaResourceManager`):
- It keeps two generations of per-path load counts ("this frame" and "last frame") and the frame tick they belong to.
- `TrackFrameLoad` rotates the generations whenever the observed tick differs from the stored one.
- It then counts the load.
- It returns a warning when the path's count in the last-frame map is positive.
- `LoadAsset` tracks the load first. It then maps the completed load handle to the asset, or to nothing plus a failure diagnostic.

Files:
- `wrappers.dfy`: `Option`.
- `animator_helper.dfy`: module `AnimatorHelper`. It holds the descriptor, value and setter-call datatypes, the `Animator` and `HashSet` classes, the reference predicate `Declared`, the helper methods, and a client method `SpeedJumpClient`.
- `frame_tracker.dfy`: module `FrameTracker`. The tracker's state is a `Generation` value, and `Track` is one tracking step.
- `frame_history.dfy`: module `FrameHistory`. These are theorems over a whole history of loads. For the tracker, a *frame* is a maximal block of consecutive loads that saw the same tick, because rotation happens on any change of tick.
- `resource_manager.dfy`: module `ResourceManager`. The class `CronicaResourceManager` holds the three static fields and implements `TrackFrameLoad` and `LoadAsset` in place. Each method is proved against `Track`.

## Model

| member | source | states |
|---|---|---|
| AnimatorHelper.HasParameter | Runtime/GameUtils/Animation/AnimatorHelper.cs:11-24 | The linear search returns true iff the name is non-empty and the parameter list holds a descriptor with exactly that name and that type. |
| AnimatorHelper.EmptyNameNeverDeclared | Runtime/GameUtils/Animation/AnimatorHelper.cs:13 | An empty name is never declared, whatever the animator holds. |
| AnimatorHelper.DeclaredParameterFound | Runtime/GameUtils/Animation/AnimatorHelper.cs:15-21 | A descriptor with a non-empty name is found under its own type, for any parameter list. |
| AnimatorHelper.DeclaredIsTypeSensitive | Runtime/GameUtils/Animation/AnimatorHelper.cs:15-23 | With unique parameter names, a declared descriptor's name is not found under any type other than its own. |
| AnimatorHelper.RegisterParameter | Runtime/GameUtils/Animation/AnimatorHelper.cs:29-40 | The out-parameter is -1 for an empty name and otherwise the name's hash, whether or not the parameter exists. The set gains that hash exactly when the parameter is declared with the requested type, and otherwise stays the same. Nothing is removed. The invariant "every key is the hash of a declared name" is preserved. |
| AnimatorHelper.SetValue | Runtime/GameUtils/Animation/AnimatorHelper.cs:43-52 | Always appends exactly one by-name setter call for the value's type, with no check at all. |
| AnimatorHelper.SafeSetValue | Runtime/GameUtils/Animation/AnimatorHelper.cs:55-81 | Returns whether the hash is in the caller's set. On true it appends exactly one by-hash setter call of the value. On false it appends nothing. The set is unchanged. |
| AnimatorHelper.TrySetValue | Runtime/GameUtils/Animation/AnimatorHelper.cs:84-110 | Returns `Declared(name, type of the value)`. It appends exactly one by-name setter call when that holds and none when it does not. |
| FrameTracker.Track | Runtime/ResourceManager/CronicaResourceManager.cs:39-66 | The stored tick becomes the observed tick. On a tick change, the last-frame map becomes the old this-frame map and the path's count is 1 in an otherwise empty map. On the same tick, the last-frame map is untouched, the path's count goes from absent to 1 or up by one, and every other entry is unchanged. Positive counts stay positive. A warning occurs iff the last-frame count for the path exists and is positive, and it carries the path, that count and the new this-frame count. |
| FrameHistory.SameFrameStep | Runtime/ResourceManager/CronicaResourceManager.cs:42-58 | A load on the tracked tick adds one to its path's tally of the current frame and keeps the previous frame's tally. |
| FrameHistory.NewFrameStep | Runtime/ResourceManager/CronicaResourceManager.cs:42-58 | A load on another tick leaves a current frame holding only itself. The frame it ends becomes the previous one. |
| FrameHistory.ReplayTallies | Runtime/ResourceManager/CronicaResourceManager.cs:42-58 | After any history starting from empty maps, three things hold. The stored tick is the last load's tick. The this-frame map holds exactly the paths loaded in the current block of equal ticks, each with its number of loads. The last-frame map holds the same for the block before it. |
| FrameHistory.WarnsIffLoadedInPreviousFrame | Runtime/ResourceManager/CronicaResourceManager.cs:42-66 | A load warns iff its path was loaded in the block of loads just before its own block, whatever ticks were skipped in between. The warning carries the path's count in that block and its count in the load's own block so far. |
| FrameHistory.PreviousFrameFixed | Runtime/ResourceManager/CronicaResourceManager.cs:42-48 | Any number of further loads on the current tick leave the previous frame unchanged, because no rotation happens. |
| FrameHistory.SameFrameSameVerdict | Runtime/ResourceManager/CronicaResourceManager.cs:42-66 | A load of a path gets the same verdict as an earlier load of that path in the same frame, whatever other loads of that frame came in between. So a path with no load in the previous frame never warns in this frame, however often it is loaded. A path that was loaded there warns on every load. |
| FrameHistory.ConsecutiveFramesWarn | Runtime/ResourceManager/CronicaResourceManager.cs:42-66 | "a" at tick 5 and again at tick 6: the second load warns with counts 1 and 1. |
| FrameHistory.SameFrameRepeatsAreSilent | Runtime/ResourceManager/CronicaResourceManager.cs:50-66 | "a" twice at tick 5, from the initial state: neither load warns. |
| FrameHistory.SkippedFrameStillWarns | Runtime/ResourceManager/CronicaResourceManager.cs:42-66 | "a" at tick 5 and at tick 7, with nothing at tick 6: the second load warns. |
| FrameHistory.InterveningFrameSilences | Runtime/ResourceManager/CronicaResourceManager.cs:42-66 | "a" at 5, "b" at 6, "a" at 7: no warning. |
| FrameHistory.EveryLoadInFrameWarns | Runtime/ResourceManager/CronicaResourceManager.cs:50-66 | "a" at 5 and then twice at 6: both loads at 6 warn, with this-frame counts 1 and 2. |
| ResourceManager.CronicaResourceManager.constructor | Runtime/ResourceManager/CronicaResourceManager.cs:11-13 | Both maps start empty and the stored tick starts at 0, which are the C# default values. |
| ResourceManager.CronicaResourceManager.TrackFrameLoad | Runtime/ResourceManager/CronicaResourceManager.cs:39-67 | The in-place updates of the three fields produce exactly the state and warning of `Track`, and they keep every count positive. |
| ResourceManager.CronicaResourceManager.LoadAsset | Runtime/ResourceManager/CronicaResourceManager.cs:16-36 | Tracking always happens, with the state of `Track`. The result is the handle's result on `Succeeded` and nothing on any other status, whatever the tracker warned. The log is the tracking warning, if any, followed by a failure entry when the load did not succeed. |

## Where the tracker differs from a one-frame-lag reading

The tracker is easy to read as a one-frame-lag detector:
- In that reading, a skipped tick forgets earlier loads.
- In that reading, only the first load of a path in a frame can warn.

The code does neither:
- Rotation is triggered by any change of tick (CronicaResourceManager.cs:42). So "last frame" means the last tick at which anything was loaded. `SkippedFrameStillWarns` shows this: a load at tick 5 followed by one at tick 7 warns.
- The check at line 61 runs on every load. So every load of a path in a frame warns when the path was loaded in the previous tracked frame (`EveryLoadInFrameWarns`).
- Repeated loads within one frame of a path that was absent from the previous frame never warn (`SameFrameRepeatsAreSilent`, `SameFrameSameVerdict`).

The model follows the code.

## Left out

- Null strings: `string.IsNullOrEmpty` also rejects null. Names here are non-null strings, so only the empty name takes that branch.
- Null references: paths, animators and key sets are non-null in the model. So these C# exceptions are not modelled:
  - `LoadAsset` with a null path throws `ArgumentNullException` at the dictionary lookup (CronicaResourceManager.cs:51), before any load is issued.
  - A null `parameterSet` throws `NullReferenceException` in `RegisterParameter` when the parameter exists (AnimatorHelper.cs:38).
  - A null `validParameters` throws in `SafeSetValue` (AnimatorHelper.cs:57).
  - A null animator throws in `HasParameter` (AnimatorHelper.cs:15) and in the unchecked setters (AnimatorHelper.cs:43-52).
- The engine's `Animator.StringToHash` algorithm: it is the parameter `stringToHash`. The only property it has in the model is being a function, so a collision between two names is possible. `SpeedJumpClient` shows what such a collision means for `SafeSetValue`.
- The setters' effect on the animation state machine, and the engine's behaviour on an unknown name: a setter call is only an entry in the animator's call log.
- Float values are carried as their 32 bits and never interpreted.
- Addressables `LoadAssetAsync` and `WaitForCompletion`: these are blocking asynchronous I/O. The completed handle, meaning its status and its result, is an input of `LoadAsset`.
- `Debug.LogError`: the warning and the failure are returned as values. The message text is not modelled.
- `Time.frameCount`: it is the parameter `frameCount`.
- The process-wide static state is an instance of `CronicaResourceManager`. Nothing here is concurrent.
- Load counts are unbounded integers. The C# `int` counter would wrap only after 2^31 loads of one path within one frame.
