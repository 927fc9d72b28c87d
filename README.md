# Plugin core of the game front-end, in Dafny

This project models the three plugins that every other part of the game front-end depends on:

- **Ticker** (`src/plugins/Ticker.ts`) is the frame scheduler.
  - A `TickerTask` is a countdown with a repeat count, a speed multiplier and a pause flag.
    It reports its life on four signals: start, repeat, complete and dispose.
  - The `Ticker` plugin keeps an ordered list of per-frame callbacks and calls each of them on a
    frame with the frame's timestamp and its speed-scaled delta. It does this on every frame, or,
    under a frame-rate cap, only once enough time has accumulated.
  - `addTask` wires a task's complete and dispose signals to the ticker's `removeTask`.
- **PluginsManager** (`src/plugins/PluginsManager.ts`) is the plugin registry.
  - It is an insertion-ordered map from plugin name to plugin.
  - Start-up runs in two passes: every `init`, then every `onPluginsManagerInit`.
  - Removal calls the removed plugin's teardown hook.
  - The role accessors throw "<Name> plugin is not initialized" when their plugin is missing.
- **Preload** (`src/plugins/Preload.ts`) does the asset-bundle bookkeeping.
  - Requested bundles are checked against the assets manifest.
  - Only the bundles not loaded yet go to the loader, in request order.
  - `loadedBundles` records what has been loaded.

The files:

| file | contents |
|---|---|
| `wrappers.dfy` | `Option` and `Result` |
| `array_ops.dfy` | JavaScript `indexOf` and `splice`, and `Remove`, their composition as one function |
| `ticker.dfy` | value-level specification of a task (`TaskState`, `UpdateOutcome`, …), the classes `TickerTask` and `Ticker`, the frame-rate cap |
| `plugins_manager.dfy` | the registry map as a sequence of entries with distinct names, the hook passes, the class `Manager` |
| `preload.dfy` | manifest lookup, the not-yet-loaded filter, the class `Preload` |

How the state-changing code is modelled:

- It is modelled by classes whose methods update fields in place.
- Each method's `ensures` ties its new state to a function of the old state.
  - `TickerTask.Update` moves the task to `UpdateOutcome(old(State()), delay, dt).state`.
  - `Manager.Add` leaves `Put(old(entries), name, p)`.
- The lemmas prove what the source promises about those functions.

Time is explicit:

- A frame is a call of `Ticker.Frame` with the frame's timestamp.
- A clock reading is a parameter.

Effects are recorded, not run:

- Signal emissions are recorded in the task's `deliveries` trace.
- Callback calls are recorded in the ticker's `invocations` trace.
- Plugin hook calls are recorded in the manager's `calls` trace.
- Loader calls are recorded in the preload plugin's `loaderCalls` trace.

## Model

| member | source | states |
|---|---|---|
| `ArrayOps.IndexOf` | src/plugins/Ticker.ts:334-336 | `indexOf` gives the first position holding the element, or -1 exactly when the element is absent |
| `ArrayOps.Splice` | src/plugins/Ticker.ts:335 | `splice(start, 1)` at a valid index takes out just that element, and `splice(-1, 1)` on a non-empty array takes out the last one; no splice adds elements or deletes more than asked |
| `ArrayOps.Remove` | src/plugins/Ticker.ts:334-336 | what `remove` leaves is one element shorter, except from an empty list; the element it takes out is fixed by `SpliceAtIndexOf` |
| `ArrayOps.SpliceAtIndexOf` | src/plugins/Ticker.ts:334-336 | `splice(indexOf(x), 1)` takes out the first occurrence of `x` when it is present. When `x` is absent, the index is -1 and the splice removes the last element |
| `ArrayOps.RemoveFirstOrLast` | src/plugins/Ticker.ts:334-336 | `remove` cuts the list at `indexOf(x)` when `x` is present; otherwise it drops the last element, and an empty list stays empty |
| `ArrayOps.RemovePresentIsPermutation` | src/plugins/Ticker.ts:334-336 | removing a registered callback removes exactly one copy of it and keeps every other element (length and multiset) |
| `ArrayOps.RemoveSoleOccurrence` | src/plugins/Ticker.ts:334-336 | a callback registered once is gone after one `remove` |
| `ArrayOps.AddThenRemove` | src/plugins/Ticker.ts:330-336 | `add` of a new callback followed by its `remove` restores the list |
| `ArrayOps.RemovedTimesAdd` | src/plugins/Ticker.ts:334-336 | `a` removals followed by `b` more are `a + b` removals |
| `Ticker.DeliveriesInOrder` | src/plugins/Ticker.ts:127-163 | an emission calls the connected subscribers in connection order, once each, and only on its own channel |
| `Ticker.Disposal` | src/plugins/Ticker.ts:165-175 | `_dispose` leaves the terminal state (countdown and repeat 0, update the no-op, no subscribers) and keeps the started and paused flags and the speed |
| `Ticker.CountdownOutcome` | src/plugins/Ticker.ts:142-150 | the countdown never changes the started and paused flags or the speed, emits only repeat or complete, and the task dies exactly when it runs out with no repeats left |
| `Ticker.UpdateOutcome` | src/plugins/Ticker.ts:132-151 | an update never emits dispose and never revives a disposed task; afterwards the task counts as started exactly when it had started already or the update was effective |
| `Ticker.DisposeOutcome` | src/plugins/Ticker.ts:127-130 | `dispose()` leaves the terminal state, keeps the started and paused flags and the speed, and makes exactly as many removeTask calls as are connected to dispose |
| `Ticker.IneffectiveUpdateIsNoop` | src/plugins/Ticker.ts:132-135 | an update of a paused task, a task at speed 0 or a disposed task changes nothing and emits nothing, start included |
| `Ticker.StartEmittedOnce` | src/plugins/Ticker.ts:137-140 | the first effective update emits start to every start subscriber before anything else it emits; the following update emits no start |
| `Ticker.NoStartAfterStart` | src/plugins/Ticker.ts:137-140 | once a task has started, no update emits start again |
| `Ticker.CountdownOnly` | src/plugins/Ticker.ts:142-144 | while time remains, an effective update lowers `remaining` by exactly `dt * speed` and changes nothing else. The only thing it can emit is the first start |
| `Ticker.RepeatKeepsTaskLive` | src/plugins/Ticker.ts:137-163 | when the countdown runs out with repeats left, `remaining` restarts from the configured delay and `repeat` drops by one. The task stays live. Repeat is emitted to every repeat subscriber; on the task's first effective update start is emitted before it. Nothing else is emitted, and the removeTask calls are exactly the connected ones |
| `Ticker.CompletionDoesNotDispose` | src/plugins/Ticker.ts:137-175 | when the countdown runs out with no repeats left, complete is emitted to every complete subscriber and dispose is not emitted; on the task's first effective update (a delay of 0, say) start is emitted before complete. The removeTask calls are exactly the connected ones. The task is left terminal, and later updates and disposals do nothing |
| `Ticker.DisposeTwice` | src/plugins/Ticker.ts:127-175 | `dispose()` emits exactly `DeliveriesOf(OnDispose, onDispose)`: the `k`-th delivery goes to the `k`-th dispose subscriber, once each, on the dispose channel only. It leaves the terminal state; a second `dispose()` emits nothing and changes nothing |
| `Ticker.CompletesAfterRepeats` | src/plugins/Ticker.ts:132-163 | a task with repeat count `r` whose every update uses up at least a whole delay completes on exactly its `r + 1`-th update. It is still live after `r` updates and terminal after `r + 1` |
| `Ticker.CountdownTimes` | src/plugins/Ticker.ts:132-151 | updates that leave time on the countdown accumulate: after `n` updates of `dt`, `remaining` is down by exactly `n * dt * speed`, the task has started if `n > 0`, and nothing else has changed |
| `Ticker.CompletesAfterCountdown` | src/plugins/Ticker.ts:132-157 | a task with no repeats left completes on the first update at which the accumulated `dt * speed` reaches what remained of its countdown, however small each update: when `n` updates leave time on the countdown but at most one update's `dt * speed`, it is live after `n` updates and terminal after `n + 1` |
| `Ticker.UpdatedTimesFirst` | src/plugins/Ticker.ts:132-151 | `n + 1` updates are one update followed by `n` more |
| `Ticker.AddedTaskLeavesNoTrace` | src/plugins/Ticker.ts:338-351 | the single removeTask call that completing or disposing a task made by `addTask` triggers restores the ticker's callback list to what it was before `addTask` |
| `Ticker.LateRemoveTaskDropsLast` | src/plugins/Ticker.ts:334-351 | once a task is disposed its `update` is the no-op, so a later removeTask for it drops the list's last callback |
| `Ticker.Broadcast` | src/plugins/Ticker.ts:411 | one pass over the callbacks calls each of them once, in list order, with the same time and delta |
| `Ticker.PassesBounded` | src/plugins/Ticker.ts:376-396 | under a frame-rate cap, each pass of the callbacks is paid for by a whole interval of accumulated time. Over any run of frames there are never more passes than the elapsed time allows |
| `Ticker.CappedPassesDrift` | src/plugins/Ticker.ts:383-393 | the accumulator is reset to 0 with no remainder kept. At a 30 fps cap, six frames 16 ms apart run the callbacks twice, not nearly three times |
| `Ticker.TickerTask.constructor` | src/plugins/Ticker.ts:91-105 | a new task starts with `remaining = delay`, repeat defaulting to 0, speed defaulting to 1, not started and not paused; `running` holds exactly when the delay is positive |
| `Ticker.TickerTask.Running` | src/plugins/Ticker.ts:103-105 | a completed or disposed task is not running |
| `Ticker.TickerTask.Connect` | src/plugins/Ticker.ts:341-342 | connecting appends the subscriber to that signal only |
| `Ticker.TickerTask.Pause` | src/plugins/Ticker.ts:115-117 | sets the pause flag |
| `Ticker.TickerTask.Resume` | src/plugins/Ticker.ts:119-121 | clears the pause flag |
| `Ticker.TickerTask.SetSpeed` | src/plugins/Ticker.ts:123-125 | sets the speed |
| `Ticker.TickerTask.Emit` | src/plugins/Ticker.ts:127-163 | an emission calls every subscriber of the signal in order. Each removeTask among them removes the task's current `update` from the owning ticker's list once more |
| `Ticker.TickerTask.Deliver` | src/plugins/Ticker.ts:128 | one subscriber call of an emission is recorded; when the subscriber is the owner's removeTask, the task's current update leaves the owner's list |
| `Ticker.TickerTask.Teardown` | src/plugins/Ticker.ts:165-175 | `_dispose` leaves the terminal state: countdown and repeat 0, `update` the no-op, all four signals disconnected |
| `Ticker.TickerTask.ProcessComplete` | src/plugins/Ticker.ts:153-157 | complete is emitted and then the task is torn down, without a dispose emission |
| `Ticker.TickerTask.ProcessRepeat` | src/plugins/Ticker.ts:159-163 | the countdown restarts from the configured delay with one repeat fewer, then repeat is emitted |
| `Ticker.TickerTask.Begin` | src/plugins/Ticker.ts:137-140 | start is emitted only if the task has not started yet, and afterwards it has |
| `Ticker.TickerTask.Countdown` | src/plugins/Ticker.ts:142-150 | the countdown moves the task to the state `CountdownOutcome` gives, with its emissions and removals; `update` either stays or becomes the no-op |
| `Ticker.TickerTask.Update` | src/plugins/Ticker.ts:132-151 | the task reaches the state `UpdateOutcome` gives and its subscribers receive exactly that outcome's calls. The owning ticker loses the task's update once per removeTask call, so the lemmas above hold of every call |
| `Ticker.TickerTask.Dispose` | src/plugins/Ticker.ts:127-130 | dispose is emitted, then the terminal state, as `DisposeOutcome` gives |
| `Ticker.Ticker.constructor` | src/plugins/Ticker.ts:199-223 | a missing or zero limit means no cap. A positive limit gives the interval `1000 / limit`. A missing or zero speed means 1. Nothing is started and the list is empty |
| `Ticker.Ticker.ElapsedMS` | src/plugins/Ticker.ts:231-233 | the elapsed time is the frame time accumulated since the epoch whenever the frame clock and the last frame time agree, as they do from construction on |
| `Ticker.Ticker.ResetDelta` | src/plugins/Ticker.ts:361-370 | time, now and last time become the clock reading; the next fps update is a second later and the delta is 0 |
| `Ticker.Ticker.Start` | src/plugins/Ticker.ts:305-320 | `start` is idempotent; the first call sets the epoch and the frame clock to the reading and requests frames, so the elapsed time is 0 |
| `Ticker.Ticker.Stop` | src/plugins/Ticker.ts:322-328 | `stop` clears `started` and cancels frames but leaves `running` as it was |
| `Ticker.Ticker.Pause` | src/plugins/Ticker.ts:279-287 | `pause` cancels frames, clears `running` and records the pause instant |
| `Ticker.Ticker.Resume` | src/plugins/Ticker.ts:289-303 | `resume` is a no-op while running. Otherwise it restarts frames and moves the epoch forward by the paused interval, so the elapsed time right after resuming is `pauseTime - startTime`: the clock time from the epoch to the instant of the pause (not the `elapsedMS` of the last frame before it) |
| `Ticker.Ticker.Add` | src/plugins/Ticker.ts:330-332 | appends the callback, duplicates included |
| `Ticker.Ticker.Remove` | src/plugins/Ticker.ts:334-336 | the list becomes `Remove(old list, cb)`: the first occurrence goes, or the last element when `cb` is absent |
| `Ticker.Ticker.RemoveTask` | src/plugins/Ticker.ts:349-351 | removes the task's current `update` |
| `Ticker.Ticker.AddTask` | src/plugins/Ticker.ts:338-347 | a fresh task configured from `config`, whose complete and dispose signals each call this ticker's removeTask, is appended to the list |
| `Ticker.Ticker.Destroy` | src/plugins/Ticker.ts:353-359 | stops, cancels frames, replaces the frame callback with the no-op for good (so no later frame reaches the ticker) and empties the list |
| `Ticker.Ticker.OnRemoveFromPluginsManager` | src/plugins/Ticker.ts:271-273 | the teardown hook destroys the ticker, with the same effects as `Destroy` |
| `Ticker.Ticker.Notify` | src/plugins/Ticker.ts:390 | the `forEach` over the callbacks makes exactly the calls of `Broadcast` |
| `Ticker.Ticker.Step` | src/plugins/Ticker.ts:398-414 | an uncapped frame calls every callback once, in order, with `(time, (time - lastTime) * speed)`. It advances the frame clock and the elapsed time by the raw delta and sets `lastTime` to the frame's time |
| `Ticker.Ticker.StepLimitFPS` | src/plugins/Ticker.ts:376-396 | a capped frame adds its raw delta to the accumulator and calls the callbacks only when the accumulator reaches the interval, then resets it to 0. The elapsed time grows by the raw delta and `lastTime` always becomes the frame's time |
| `Ticker.Ticker.Frame` | src/plugins/Ticker.ts:62-74 | a frame reaches the ticker only while frames are requested and the ticker has not been destroyed (after `destroy()` the frame callback is the no-op, even once `start()` requests frames again); it then goes to the capped or uncapped step as configured. Either way the clock reading becomes `now`, the frame time becomes `lastTime`, `time` and the elapsed time grow by the raw delta (so `time == lastTime` survives every frame), and the once-a-second fps deadline moves on when reached; the uncapped step sets `delta` to the raw delta, the capped one accumulates it |
| `PluginsManager.Lookup` | src/plugins/PluginsManager.ts:52-54 | `get` finds a plugin exactly when the name is a key, and the plugin found is the one stored under it |
| `PluginsManager.Put` | src/plugins/PluginsManager.ts:47 | after `set`, the map holds the new entry |
| `PluginsManager.Delete` | src/plugins/PluginsManager.ts:64 | after `delete` the name is not a key, and the map has not grown |
| `PluginsManager.PutAll` | src/plugins/PluginsManager.ts:39-41 | after `addList` the last plugin of the list is stored under its name |
| `PluginsManager.Pass` | src/plugins/PluginsManager.ts:19-23 | a pass makes no more hook calls than there are plugins |
| `PluginsManager.PutLookup` | src/plugins/PluginsManager.ts:46-50 | `set` changes what its own key maps to and nothing else |
| `PluginsManager.PutNames` | src/plugins/PluginsManager.ts:46-50 | re-adding an existing name keeps every key in place (same entry count); a new name goes last |
| `PluginsManager.PutKeepsDistinct` | src/plugins/PluginsManager.ts:46-50 | keys stay unique |
| `PluginsManager.DeleteLookup` | src/plugins/PluginsManager.ts:64 | `delete` removes exactly its key |
| `PluginsManager.DeleteAbsent` | src/plugins/PluginsManager.ts:56-61 | deleting an absent name changes nothing |
| `PluginsManager.DeleteKeepsOthers` | src/plugins/PluginsManager.ts:64 | deleting keeps exactly the entries under the other names |
| `PluginsManager.DeleteFromDistinct` | src/plugins/PluginsManager.ts:64 | deleting keeps keys unique and removes one entry when the key was present |
| `PluginsManager.PutThenDelete` | src/plugins/PluginsManager.ts:46-70 | adding a new plugin and removing it by name gives back the registry |
| `PluginsManager.PutAllLookup` | src/plugins/PluginsManager.ts:36-44 | after `addList`, every name maps to the last plugin of the list with that name, and other names are untouched |
| `PluginsManager.PutAllKeepsDistinct` | src/plugins/PluginsManager.ts:36-44 | `addList` keeps keys unique |
| `PluginsManager.PassSplit` | src/plugins/PluginsManager.ts:16-34 | a pass over the registry is the pass over its front followed by the pass over the rest |
| `PluginsManager.PassOnlyDefined` | src/plugins/PluginsManager.ts:19-33 | a pass calls only its own hook, and only on plugins that define it; the others are skipped |
| `PluginsManager.PassInOrder` | src/plugins/PluginsManager.ts:16-34 | a pass calls the hook of every plugin that defines it, the last plugin's included, in insertion order: the `i`-th plugin's call sits at the position given by the length of `Pass(es[..i], h)` and comes before every later plugin's call |
| `PluginsManager.StartupPhases` | src/plugins/PluginsManager.ts:11-14 | in the start-up trace, every `init` call precedes every `onPluginsManagerInit` call |
| `PluginsManager.RegisteredMatchesGet` | src/plugins/PluginsManager.ts:122-130 | the plugin `registeredPlugins` lists at a position is what `get` returns for that position's name |
| `PluginsManager.Manager.constructor` | src/plugins/PluginsManager.ts:9 | the registry starts empty |
| `PluginsManager.Manager.Add` | src/plugins/PluginsManager.ts:46-50 | stores the plugin under its own name, keeping keys unique, and returns that same plugin |
| `PluginsManager.Manager.AddList` | src/plugins/PluginsManager.ts:36-44 | adds every plugin in order, as repeated `add` would, and returns an empty list |
| `PluginsManager.Manager.Get` | src/plugins/PluginsManager.ts:52-54 | returns the stored plugin, or nothing exactly when the name is not a key |
| `PluginsManager.Manager.IsInitialized` | src/plugins/PluginsManager.ts:132-134 | holds exactly when `get` finds a plugin under the name |
| `PluginsManager.Manager.Remove` | src/plugins/PluginsManager.ts:56-70 | an absent name changes nothing and calls no hook. A present name is deleted, and then the plugin's teardown hook is called once if it defines one |
| `PluginsManager.Manager.RunPass` | src/plugins/PluginsManager.ts:16-34 | one pass over a snapshot of the registry makes exactly the hook calls `Pass` lists |
| `PluginsManager.Manager.Init` | src/plugins/PluginsManager.ts:11-14 | start-up is the `init` pass followed by the `onPluginsManagerInit` pass |
| `PluginsManager.Manager.RolePlugin` | src/plugins/PluginsManager.ts:72-120 | a role accessor succeeds exactly when a plugin is stored under the role's name and returns that plugin; otherwise it fails with "<Name> plugin is not initialized" |
| `PluginsManager.Manager.RegisteredPlugins` | src/plugins/PluginsManager.ts:122-130 | the stored plugins, in insertion order |
| `Preload.Find` | src/plugins/Preload.ts:37 | finds a bundle exactly when the manifest has one with that name |
| `Preload.FirstInvalid` | src/plugins/Preload.ts:48-52 | nothing is reported exactly when every requested bundle is in the manifest; otherwise it is the first missing one in request order |
| `Preload.NotLoaded` | src/plugins/Preload.ts:55 | the filter never lengthens the request |
| `Preload.NotLoadedMembers` | src/plugins/Preload.ts:55 | the filter keeps exactly the requested names that are not loaded |
| `Preload.NotLoadedAppend` | src/plugins/Preload.ts:55 | the filter keeps request order |
| `Preload.NothingLeftIffAllLoaded` | src/plugins/Preload.ts:55-58 | nothing is left to load exactly when every requested bundle is loaded already |
| `Preload.LoadedAfterLoad` | src/plugins/Preload.ts:55-68 | after a load every requested bundle is loaded, so the same request again loads nothing |
| `Preload.Preload.constructor` | src/plugins/Preload.ts:11-16 | an empty manifest and nothing loaded |
| `Preload.Preload.CheckBundleExists` | src/plugins/Preload.ts:36-38 | holds exactly when some manifest bundle has that name |
| `Preload.Preload.LoadBundles` | src/plugins/Preload.ts:44-69 | with a requested bundle missing from the manifest, it fails with "[Assets] Invalid bundle: <first missing>" before loading anything. Otherwise it calls the loader once with the requested bundles not loaded yet, or not at all when there are none, and appends them to `loadedBundles` in request order |
| `Preload.Preload.BundlesLoaded` | src/plugins/Preload.ts:75-85 | true exactly when every named bundle is loaded, and true for none |
| `Preload.Preload.Init` | src/plugins/Preload.ts:19-30 | without a manifest URL it does nothing. With one, it takes the fetched manifest and loads the "default" bundle: when the manifest lacks it, it fails without calling the loader or changing `loadedBundles`; otherwise the loader is called once with "default" unless it is loaded already |

## Left out

- The host's animation frames (`RequestAnimationFrame`, `src/plugins/Ticker.ts:31-75`) are window I/O. The model keeps its `isRunning` flag as `frameRequested`, and a delivered frame is an explicit call of `Ticker.Frame`.
- The clock (`performance.now()`) is a parameter. `start` reads the clock twice, once in `_resetDelta` and once for the epoch; the model uses one reading for both.
- Time is `real`, so the model has no floating-point rounding. The `fps` getter (`1000 / delta`) and the other plain getters are not modelled.
- The `visibilitychange` listener (DOM) is not modelled; it only calls `pause`/`resume`, which are.
- Callbacks and signal subscribers are recorded, not executed. `Ticker.Notify` is plain iteration over the list as it stands when the frame begins. A callback that removes itself from the list in the middle of a `forEach` (a task completing during a frame) is not modelled; JavaScript would then skip the next callback.
- A callback that throws is not modelled, since callbacks are recorded, not run. In the source (`src/plugins/Ticker.ts:68-74`) such a throw skips the next frame request, so frames stop while `isRunning` stays true, and `start`/`resume` then do nothing until a `stop` or `pause`.
- A `Listener` subscriber's own effects are outside the model; only the ticker's `removeTask` acts.
- The `typed-signals` library is modelled as one subscriber list per channel.
- A task's `removeTask` subscriber always acts on the ticker that created it, held in the task's `owner` field. A task built directly has no owner.
- `Ticker.TickerTask.ProcessRepeat`: the task copies the configured delay into `delay` when it is built. The source keeps a reference to the caller's config object and reads its `delay` on each repeat, so a caller that changed that object later would change the reset value there but not in the model.
- `async`/`await` is not modelled. Hooks and the loader are sequential steps that succeed; rejection propagation is not modelled.
- Plugin hooks are recorded in `calls`, not run. They therefore cannot change the registry during a pass, and iterating a snapshot is the same as iterating the registry.
- `PluginsManager.HookCall`: the manager argument of `onPluginsManagerInit` is implicit (always the manager whose trace records the call).
- `Preload.Preload.Init`: fetching the manifest (`fetchAssetsManifest`, network I/O, with its "[Assets] Invalid assets manifest" error) is replaced by the parameter `fetched`. `Assets.init`, the loader's internals and the progress callback scaling are not modelled.
- `Ticker.TaskConfig`: the repeat count is an integer. In the source it is a `number`, and a fractional count never reaches `=== 0` (`src/plugins/Ticker.ts:145`), so such a task repeats forever; the model has no such counts.
- `Ticker.Ticker.constructor`: `config.speed || 1` and `config.limit || 0` also replace `NaN`; reals have no `NaN`.
- Renderer, UI, DevTools, layout, screens and bootstrap code are not part of this model.

Behaviour of the code that a reader might not expect, which the model keeps:

- Completion emits complete but never dispose.
- `remove` of an absent callback drops the last element.
- `stop` leaves `running` as it was: true once `start` has run, until a `pause`.
- The capped step resets its accumulator to 0 instead of keeping the remainder.
- `addList` returns an empty list.
