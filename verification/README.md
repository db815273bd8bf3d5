# LCARS live wallpaper: engine and pausable worker, modelled in Dafny

This project models the core of the LCARS live wallpaper for Android.
It has two parts:

- `CubeEngine`, the wallpaper engine. It reacts to surface, visibility, offset, touch and battery callbacks. It draws one frame per second through the message handler's `mDrawCube` redraw, and it turns sampler readings into fixed-width text.
- `AbstractThread`, a polling thread that can be paused, resumed and stopped through a semaphore created with one permit. The engine's samplers, `MemoryThread` and `StatsThread`, are driven through `pauseCollection`, `resumeCollection` and `stopCollection`. Those classes are not part of this model, so the engine model treats the sampler calls as actions and does not tie them to `AbstractThread`.

The modules follow the program's structure:

| file | module | what it holds |
|---|---|---|
| `wrappers.dfy` | `Wrappers` | `Option` |
| `java_arith.dfy` | `JavaArith` | Java `int`/`long` ranges, truncating `/` and `%`, the `(int)` cast, `x++` with wrap-around |
| `decimal.dfy` | `Decimal` | `String.valueOf` of an integer, and the value a decimal text denotes |
| `readouts.dfy` | `Readouts` | the zero-padded usage, uptime and speed texts of `drawText` and `drawButtonText` |
| `proc_list.dfy` | `ProcList` | the service/app merge of `drawProcText`, as two loops and as a reference definition |
| `engine.dfy` | `Engine` | the engine's fields as an immutable record; one pure function per callback, returning the new record and the calls the callback makes, in order, as `Action`s |
| `render_loop.dfy` | `RenderLoop` | the engine driven by events, together with the handler's queue of pending redraws, and the invariant every event keeps |
| `abstract_thread.dfy` | `AbstractThread` | the worker as a state machine over the permit count, the `run` flag and the worker's position in `run()` |

Things the engine cannot compute itself are inputs to the model:

- whether `lockCanvas` returned a canvas (`FrameInput.canvas`);
- what the samplers last published (`Samples`);
- whether a press falls in the mode button's hot-zone (`inHotZone`);
- how many times a `join` is interrupted (`memInterrupts`, `statsInterrupts`).

A blocking call becomes a guarded transition. For example, `PauseThread` is `None` while no permit is available, and a `Tick` is not enabled while no redraw is pending. A call that is impossible in the current state is also `None`: a second `Thread.start` (see `AbstractThread.StartThread` under "## Left out"), or a worker step at the wrong point of `run()`.

Some behaviour of the code is easy to miss, and the model states it as it is:

- **A stopped thread can still do work.** A worker blocked in `acquire` on a paused thread takes the permit that `stopThread` releases. It then runs `doStuff` once more before it sees the cleared flag and returns (`AbstractThread.StopReleasesBlockedWorker`).
- **A stop can be undone.** The comment on `stopThread` (AbstractThread.java:31-34) says it stops the thread. But a stop issued before the thread enters `run()` is overwritten by `run.set(true)`, and the loop runs (`AbstractThread.StopBeforeRunIsOverwritten`).
- **There can be two permits.** The semaphore is commented as having a single permit (AbstractThread.java:16). But `stopThread` releases unconditionally, so stopping a thread that was never paused leaves two permits (`AbstractThread.StopIdleGivesTwoPermits`).
- **The stats sampler is never joined.** In `onSurfaceDestroyed`, both join loops share one `retry` flag. The first loop always leaves it false, so the second loop never runs (`Engine.SurfaceDestroyedSkipsStats`).
- **The row budget depends on the apps.** `drawProcText` draws services while fewer than `23 - |apps|` are drawn, then scans up to 23 apps (`ProcList.MergedRows`, `ProcList.MergedRowsShape`).
- **The orbit has 361 positions.** The angle counts 0 through 360 and then wraps to 0, so its period is 361, not 360 (`Engine.AngleAfterTicksWraps`).

## Model

| member | source | states |
|---|---|---|
| Readouts.PadTwo | lcarswallpaper/src/com/example/android/maxpapers/lcars/LCARSWallpaper.java:444-451 | a counter in 0..99 becomes two digits that denote it, with a '0' first below 10; any non-negative counter reads back as itself; a negative counter gives a text that is no number |
| Readouts.PadUsage | lcarswallpaper/src/com/example/android/maxpapers/lcars/LCARSWallpaper.java:434-441 | a non-negative reading becomes three digits that denote min(reading, 100); every reading of 100 or more shows as "100"; a negative reading gives no number |
| Readouts.UsageText | lcarswallpaper/src/com/example/android/maxpapers/lcars/LCARSWallpaper.java:461 | the drawn usage text ends in a percent sign; for a non-negative reading it is three digits denoting min(reading, 100) and then the sign; for a negative reading the part before the sign is no number |
| Readouts.PadSpeed | lcarswallpaper/src/com/example/android/maxpapers/lcars/LCARSWallpaper.java:385-395 | a non-negative speed reads back as itself; below 10000 it is exactly four characters; from 1000 on it has no leading zero; a negative speed gives no number |
| Readouts.SplitUptime | lcarswallpaper/src/com/example/android/maxpapers/lcars/LCARSWallpaper.java:428-433 | within the range where the day count fits an `int`, days, hours, minutes and seconds add back up to the uptime; a non-negative uptime gives hours under 24 and minutes and seconds under 60; a negative uptime gives fields that are 0 or negative, because Java's `%` and `/` truncate |
| Readouts.SplitUptimeUnique | lcarswallpaper/src/com/example/android/maxpapers/lcars/LCARSWallpaper.java:430-433 | for a non-negative uptime, the split is the only decomposition with in-range hours, minutes and seconds that adds back up to it |
| Readouts.UptimeTexts | lcarswallpaper/src/com/example/android/maxpapers/lcars/LCARSWallpaper.java:444-447 | within the range where the day count fits an `int`, the day text of a non-negative uptime reads back as the day count; the clock text is 8 characters with colons at positions 2 and 5 |
| Readouts.Clock | lcarswallpaper/src/com/example/android/maxpapers/lcars/LCARSWallpaper.java:466-467 | with every field in 0..99, "hh:mm:ss" is 8 characters, colons at 2 and 5, and each two-digit field denotes its counter |
| Readouts.ClockLayout | lcarswallpaper/src/com/example/android/maxpapers/lcars/LCARSWallpaper.java:446-451 | for a non-negative uptime the "hh:mm:ss" text is 8 characters, with colons at positions 2 and 5, and each two-digit field denotes its counter |
| Decimal.IntToString | lcarswallpaper/src/com/example/android/maxpapers/lcars/LCARSWallpaper.java:105-106 | `String.valueOf` of a non-negative integer is a digit string denoting it; the text starts with a minus sign exactly when the integer is negative |
| Decimal.IntToStringRoundTrip | lcarswallpaper/src/com/example/android/maxpapers/lcars/LCARSWallpaper.java:126-127 | reading back the decimal text of any integer gives that integer |
| Decimal.IntToStringInjective | lcarswallpaper/src/com/example/android/maxpapers/lcars/LCARSWallpaper.java:126-127 | different integers get different decimal texts |
| Decimal.CanonicalIsNatToString | lcarswallpaper/src/com/example/android/maxpapers/lcars/LCARSWallpaper.java:444-445 | a digit string without a leading zero is the decimal text of the value it denotes |
| Decimal.NatToStringWidth | lcarswallpaper/src/com/example/android/maxpapers/lcars/LCARSWallpaper.java:387-394 | the decimal text of n has at most k digits exactly when n < 10^k |
| JavaArith.Div | lcarswallpaper/src/com/example/android/maxpapers/lcars/LCARSWallpaper.java:430-432 | Java's `/` rounds toward zero: for a non-negative dividend the quotient times the divisor is the largest multiple not above it, for a negative dividend the smallest multiple not below it |
| JavaArith.Rem | lcarswallpaper/src/com/example/android/maxpapers/lcars/LCARSWallpaper.java:431-433 | Java's remainder: the dividend equals divisor times the truncated quotient plus the remainder, and the remainder takes the dividend's sign |
| JavaArith.ToInt | lcarswallpaper/src/com/example/android/maxpapers/lcars/LCARSWallpaper.java:430 | the `(int)` cast keeps any value in `int` range and otherwise differs from its argument by a multiple of 2^32 |
| JavaArith.Inc | lcarswallpaper/src/com/example/android/maxpapers/lcars/LCARSWallpaper.java:94 | `x++` adds one, except that the largest `int` wraps to the smallest |
| ProcList.ServiceCount | lcarswallpaper/src/com/example/android/maxpapers/lcars/LCARSWallpaper.java:407-408 | the number of service rows never exceeds the services or the budget left after the apps; it is all the services when they fit in 23 minus the number of apps, and 23 minus the number of apps when there are more |
| ProcList.AppCount | lcarswallpaper/src/com/example/android/maxpapers/lcars/LCARSWallpaper.java:416 | all apps are scanned, up to 23 of them |
| ProcList.UnlistedMember | lcarswallpaper/src/com/example/android/maxpapers/lcars/LCARSWallpaper.java:416-418 | an app is kept exactly when it is in the scanned apps and its id is not among the listed ids |
| ProcList.UnlistedMultiplicity | lcarswallpaper/src/com/example/android/maxpapers/lcars/LCARSWallpaper.java:416-418 | a kept app occurs as often as among the scanned apps; an app with a listed id occurs not at all |
| ProcList.UnlistedIsSubsequence | lcarswallpaper/src/com/example/android/maxpapers/lcars/LCARSWallpaper.java:416-424 | the kept apps keep their relative order |
| ProcList.DrawServiceRows | lcarswallpaper/src/com/example/android/maxpapers/lcars/LCARSWallpaper.java:406-415 | the first loop draws the first `ServiceCount` services and collects exactly their ids |
| ProcList.DrawAppRows | lcarswallpaper/src/com/example/android/maxpapers/lcars/LCARSWallpaper.java:416-424 | the second loop draws the apps among the first 23 whose id was not collected, in order |
| ProcList.DrawProcRows | lcarswallpaper/src/com/example/android/maxpapers/lcars/LCARSWallpaper.java:401-425 | the rows drawn top to bottom are exactly the reference merge `MergedRows` |
| ProcList.MergedRowsShape | lcarswallpaper/src/com/example/android/maxpapers/lcars/LCARSWallpaper.java:404-424 | the merge starts with the service prefix; every later row is one of the first 23 apps, shares no id with a drawn service, and keeps the apps' order |
| ProcList.MergedRowsWithinBudget | lcarswallpaper/src/com/example/android/maxpapers/lcars/LCARSWallpaper.java:407-416 | at most 23 rows are drawn in all |
| ProcList.MergedAppMultiplicity | lcarswallpaper/src/com/example/android/maxpapers/lcars/LCARSWallpaper.java:416-424 | after the service rows, each app occurs as often as among the first 23 apps, or not at all if a drawn service has its id |
| ProcList.DuplicateAppsBothDrawn | lcarswallpaper/src/com/example/android/maxpapers/lcars/LCARSWallpaper.java:416-418 | only service ids are filtered out, so two apps with the same id are both drawn |
| Engine.CanvasDraws | lcarswallpaper/src/com/example/android/maxpapers/lcars/LCARSWallpaper.java:315-331 | at most four calls are made on a locked canvas, all of them drawing calls |
| Engine.CanvasDrawsDispatch | lcarswallpaper/src/com/example/android/maxpapers/lcars/LCARSWallpaper.java:317-330 | on a canvas: the background exactly when the position changed; text and button exactly in portrait; the process list exactly in portrait mode 0; the deuterium display exactly in portrait mode 1; nothing else |
| Engine.CanvasDrawsOrder | lcarswallpaper/src/com/example/android/maxpapers/lcars/LCARSWallpaper.java:317-329 | on a canvas the background, when drawn, comes first; in portrait the text comes next, then the button, then the display of the mode last; other modes draw no display; no call is made twice |
| Engine.Reschedule | lcarswallpaper/src/com/example/android/maxpapers/lcars/LCARSWallpaper.java:337-341 | the end of a frame only calls the handler |
| Engine.RescheduleContents | lcarswallpaper/src/com/example/android/maxpapers/lcars/LCARSWallpaper.java:338-341 | the end of a frame always removes pending redraws, never posts an immediate one, and posts a delayed one exactly when visible |
| Engine.DrawFrame | lcarswallpaper/src/com/example/android/maxpapers/lcars/LCARSWallpaper.java:309-341 | a frame ends with the removal of pending redraws, followed while visible by a redraw posted 1000 ms ahead; with a canvas, the canvas is handed back just before that; without one, nothing else happens |
| Engine.DrawFrameContents | lcarswallpaper/src/com/example/android/maxpapers/lcars/LCARSWallpaper.java:309-341 | the canvas is handed back exactly when one was obtained; the frame's draws are exactly those of `CanvasDraws`, and nothing is drawn after them; no sampler is called; pending redraws are removed, and a 1000 ms redraw is posted exactly when visible |
| Engine.DrawFrameDispatch | lcarswallpaper/src/com/example/android/maxpapers/lcars/LCARSWallpaper.java:313-331 | each of the five displays is drawn exactly under its condition, and only when a canvas was obtained |
| Engine.DrawFrameOrder | lcarswallpaper/src/com/example/android/maxpapers/lcars/LCARSWallpaper.java:313-341 | every canvas operation comes before every handler call, and nothing is drawn after the canvas is handed back |
| Engine.Create | lcarswallpaper/src/com/example/android/maxpapers/lcars/LCARSWallpaper.java:132-188 | a new engine is hidden and in landscape, with mode 0, angle 0, offset 0 and no battery texts |
| Engine.OnDestroy | lcarswallpaper/src/com/example/android/maxpapers/lcars/LCARSWallpaper.java:201-206 | exactly three calls: pending redraws are removed, then the memory sampler is stopped, then the stats sampler; nothing is drawn or joined |
| Engine.OnVisibilityChanged | lcarswallpaper/src/com/example/android/maxpapers/lcars/LCARSWallpaper.java:209-220 | only visibility changes; on show both samplers resume, memory first, then a frame is drawn; on hide exactly three calls: pending redraws are removed, then the memory sampler is paused, then the stats sampler |
| Engine.OnSurfaceChanged | lcarswallpaper/src/com/example/android/maxpapers/lcars/LCARSWallpaper.java:223-231 | portrait exactly when the width is at most the height; nothing else changes; a frame follows |
| Engine.OnSurfaceCreated | lcarswallpaper/src/com/example/android/maxpapers/lcars/LCARSWallpaper.java:234-238 | exactly two calls: the memory sampler is started, then the stats sampler |
| Engine.JoinLoop | lcarswallpaper/src/com/example/android/maxpapers/lcars/LCARSWallpaper.java:247-254 | the loop runs only if `retry` is set; it retries the join after each interruption, ends with one successful join, and always leaves `retry` false |
| Engine.OnSurfaceDestroyed | lcarswallpaper/src/com/example/android/maxpapers/lcars/LCARSWallpaper.java:241-262 | the engine becomes hidden; pending redraws are removed, then both samplers are stopped; then the memory sampler's join is retried until it succeeds |
| Engine.SurfaceDestroyedSkipsStats | lcarswallpaper/src/com/example/android/maxpapers/lcars/LCARSWallpaper.java:247-261 | the memory sampler is joined, the stats sampler is never joined, and nothing is drawn or posted |
| Engine.OnOffsetsChanged | lcarswallpaper/src/com/example/android/maxpapers/lcars/LCARSWallpaper.java:265-269 | only the pixel offset changes, and a frame follows |
| Engine.NextMode | lcarswallpaper/src/com/example/android/maxpapers/lcars/LCARSWallpaper.java:283-286 | mode 0 becomes 1 and mode 1 becomes 0; -1 and every mode from 1 up to below the `int` maximum become 0; a mode below -1 just steps up by one, since nothing resets it; the `int` maximum wraps to the minimum |
| Engine.OnTouch | lcarswallpaper/src/com/example/android/maxpapers/lcars/LCARSWallpaper.java:276-296 | a press records the point; a press in the hot-zone advances the mode, removes pending redraws, and posts one at once exactly when visible; any other press or event changes no mode and makes no call; a non-press resets the point to (-1, -1) |
| Engine.HotZonePressesCycle | lcarswallpaper/src/com/example/android/maxpapers/lcars/LCARSWallpaper.java:280-286 | n presses in the hot-zone starting from a valid mode m leave mode (m + n) mod 2, and change nothing but the mode and the touch point |
| Engine.NextAngle | lcarswallpaper/src/com/example/android/maxpapers/lcars/LCARSWallpaper.java:94-97 | from 0..360 the angle advances by one modulo 361; from -1 up to 359 it steps up by one, and from 360 up to below the `int` maximum it resets to 0; an angle below -1 just steps up by one; the `int` maximum wraps to the minimum |
| Engine.OnTick | lcarswallpaper/src/com/example/android/maxpapers/lcars/LCARSWallpaper.java:90-100 | the angle advances even when nothing is drawn, and nothing else changes; a frame follows |
| Engine.AngleAfterTicksWraps | lcarswallpaper/src/com/example/android/maxpapers/lcars/LCARSWallpaper.java:94-97 | from any angle in 0..360, n ticks advance it by n modulo 361 |
| Engine.StatusText | lcarswallpaper/src/com/example/android/maxpapers/lcars/LCARSWallpaper.java:107-125 | each of the five battery status codes gets a status line; any other code keeps the previous line |
| Engine.StatusTextDistinct | lcarswallpaper/src/com/example/android/maxpapers/lcars/LCARSWallpaper.java:108-125 | the five known codes get five different lines |
| Engine.OnBattery | lcarswallpaper/src/com/example/android/maxpapers/lcars/LCARSWallpaper.java:104-128 | the level text reads back as the level followed by '%'; the pressure text reads back as the voltage; the status line follows `StatusText`; no other field changes |
| RenderLoop.Schedule | lcarswallpaper/src/com/example/android/maxpapers/lcars/LCARSWallpaper.java:338-340 | the handler's queue never grows by more than the calls made, and every pending delay was already pending, or is 0 with a `post` among the calls, or was posted with `postDelayed` |
| RenderLoop.DrawFrameReschedules | lcarswallpaper/src/com/example/android/maxpapers/lcars/LCARSWallpaper.java:337-341 | whatever was pending, a frame leaves exactly one redraw, 1000 ms ahead, while visible, and none while hidden |
| RenderLoop.HotZoneReschedules | lcarswallpaper/src/com/example/android/maxpapers/lcars/LCARSWallpaper.java:287-291 | a hot-zone press replaces whatever was pending with one immediate redraw while visible, and with nothing while hidden |
| RenderLoop.Step | lcarswallpaper/src/com/example/android/maxpapers/lcars/LCARSWallpaper.java:90-100 | a queued redraw can run only while one is pending; every other event is always enabled |
| RenderLoop.ReactSchedule | lcarswallpaper/src/com/example/android/maxpapers/lcars/LCARSWallpaper.java:200-296 | the effect of each callback on the pending redraws matches the independent table `PendingAfter` |
| RenderLoop.ReactSamplers | lcarswallpaper/src/com/example/android/maxpapers/lcars/LCARSWallpaper.java:200-262 | every callback makes exactly the sampler calls of the independent table `SamplersAfter`, in order: each sampler is resumed, paused, started or stopped at most once per callback, the memory sampler first, and only `onSurfaceDestroyed` joins, the memory sampler alone |
| RenderLoop.StepPreservesInv | lcarswallpaper/src/com/example/android/maxpapers/lcars/LCARSWallpaper.java:200-341 | every event keeps these facts: the mode is 0 or 1, the angle is in 0..360, at most one redraw is pending, and none is pending while hidden |
| RenderLoop.VisibleTickCadence | lcarswallpaper/src/com/example/android/maxpapers/lcars/LCARSWallpaper.java:90-100 | while visible, running the pending redraw leaves exactly one redraw pending, 1000 ms ahead |
| RenderLoop.HideShowNoBacklog | lcarswallpaper/src/com/example/android/maxpapers/lcars/LCARSWallpaper.java:209-220 | hiding empties the queue, and showing again leaves exactly one redraw pending, however many were pending before |
| AbstractThread.Create | trunk/lcarswallpaper/src/com/example/android/maxpapers/lcars/AbstractThread.java:24-29 | a new thread has one permit, `run` and `pause` false, is not started, and holds no permit |
| AbstractThread.StartThread | trunk/lcarswallpaper/src/com/example/android/maxpapers/lcars/AbstractThread.java:13 | `Thread.start` is enabled only on a thread not yet started, and changes nothing but its position |
| AbstractThread.PauseThread | trunk/lcarswallpaper/src/com/example/android/maxpapers/lcars/AbstractThread.java:44-50 | a pause is enabled exactly when a permit is available, takes one, and changes nothing else |
| AbstractThread.PauseInterrupted | trunk/lcarswallpaper/src/com/example/android/maxpapers/lcars/AbstractThread.java:45-49 | an interrupted pause, whether interrupted before the call or while waiting, returns whatever the permit count and changes nothing |
| AbstractThread.InterruptedPauseLeavesWorkerRunning | trunk/lcarswallpaper/src/com/example/android/maxpapers/lcars/AbstractThread.java:44-50 | with one permit available, an interrupted pause leaves the worker able to acquire it, whereas a completed pause makes it wait |
| AbstractThread.ResumeThread | trunk/lcarswallpaper/src/com/example/android/maxpapers/lcars/AbstractThread.java:55-58 | a resume makes exactly one permit available when none was, and otherwise changes nothing |
| AbstractThread.StopThread | trunk/lcarswallpaper/src/com/example/android/maxpapers/lcars/AbstractThread.java:35-39 | a stop always adds a permit and clears `run` |
| AbstractThread.Begin | trunk/lcarswallpaper/src/com/example/android/maxpapers/lcars/AbstractThread.java:61-62 | entering `run()` sets `run` whatever it was, goes to the loop test, and changes nothing else |
| AbstractThread.Check | trunk/lcarswallpaper/src/com/example/android/maxpapers/lcars/AbstractThread.java:63 | the loop test exits exactly when `run` is false and otherwise goes on to the acquire; nothing else changes |
| AbstractThread.Acquire | trunk/lcarswallpaper/src/com/example/android/maxpapers/lcars/AbstractThread.java:65 | the worker's acquire is enabled exactly when a permit is available, takes it and goes on to `doStuff`; `run` and `pause` are unchanged |
| AbstractThread.DoStuff | trunk/lcarswallpaper/src/com/example/android/maxpapers/lcars/AbstractThread.java:66 | a `doStuff` that returns runs only after the acquire, goes on to the release, and changes neither the permits nor the flags |
| AbstractThread.DoStuffThrows | trunk/lcarswallpaper/src/com/example/android/maxpapers/lcars/AbstractThread.java:64-72 | a `doStuff` that throws an unchecked exception, which the handler at :69 does not catch, ends `run()` with the acquired permit never given back, so available plus held permits drop by one |
| AbstractThread.ThrowingWorkBlocksPause | trunk/lcarswallpaper/src/com/example/android/maxpapers/lcars/AbstractThread.java:44-72 | after the worker dies in `doStuff` on a thread with no spare permit, `pauseThread` waits until a resume |
| AbstractThread.Release | trunk/lcarswallpaper/src/com/example/android/maxpapers/lcars/AbstractThread.java:67 | the worker's release gives back one permit and goes on to `sleep`; `run` and `pause` are unchanged |
| AbstractThread.Wake | trunk/lcarswallpaper/src/com/example/android/maxpapers/lcars/AbstractThread.java:68 | a `sleep` that returns normally leads back to the loop test, and nothing else changes |
| AbstractThread.Interrupt | trunk/lcarswallpaper/src/com/example/android/maxpapers/lcars/AbstractThread.java:64-71 | an interrupt of `acquire` or `sleep` leads back to the loop test, and nothing else changes |
| AbstractThread.WorkerStepConservesPermits | trunk/lcarswallpaper/src/com/example/android/maxpapers/lcars/AbstractThread.java:60-73 | the worker's own steps conserve the available permits plus the one it holds, except a throwing `doStuff`, which loses one |
| AbstractThread.CreateAllowsOnePause | trunk/lcarswallpaper/src/com/example/android/maxpapers/lcars/AbstractThread.java:24-58 | a new thread can be paused once; a second pause waits; a resume restores the initial state |
| AbstractThread.ResumeIdempotent | trunk/lcarswallpaper/src/com/example/android/maxpapers/lcars/AbstractThread.java:55-58 | resuming twice is the same as resuming once |
| AbstractThread.PausesCollapse | trunk/lcarswallpaper/src/com/example/android/maxpapers/lcars/AbstractThread.java:44-58 | after a pause, a further pause waits; one resume restores a single permit, and a second resume adds none |
| AbstractThread.StopIdleGivesTwoPermits | trunk/lcarswallpaper/src/com/example/android/maxpapers/lcars/AbstractThread.java:35-39 | stopping a running thread that was never paused leaves two permits |
| AbstractThread.IterationRestoresState | trunk/lcarswallpaper/src/com/example/android/maxpapers/lcars/AbstractThread.java:63-73 | one undisturbed iteration (acquire, work, release, sleep) returns to the loop test with the permits unchanged; the test continues exactly when `run` is set |
| AbstractThread.StopBeforeRunIsOverwritten | trunk/lcarswallpaper/src/com/example/android/maxpapers/lcars/AbstractThread.java:35-63 | a stop before `run()` starts is undone by `run.set(true)`: the loop runs, with the extra permit |
| AbstractThread.StopReleasesBlockedWorker | trunk/lcarswallpaper/src/com/example/android/maxpapers/lcars/AbstractThread.java:35-73 | a worker blocked in acquire on a paused thread is released by a stop, does its work once more, and then returns |
| AbstractThread.ExitPoints | trunk/lcarswallpaper/src/com/example/android/maxpapers/lcars/AbstractThread.java:63-73 | the worker ends only at the loop test with `run` false, or by an exception out of `doStuff` |
| AbstractThread.InterruptContinues | trunk/lcarswallpaper/src/com/example/android/maxpapers/lcars/AbstractThread.java:64-71 | an interrupt never ends the loop, and leaves `run` and the permits unchanged |
| AbstractThread.StopThenDrain | trunk/lcarswallpaper/src/com/example/android/maxpapers/lcars/AbstractThread.java:35-73 | after a stop, a running worker reaches its return by its own steps, whatever the permit count, and gives back the permit it held |
| AbstractThread.DrainFrom | trunk/lcarswallpaper/src/com/example/android/maxpapers/lcars/AbstractThread.java:63-73 | with `run` false, the worker finishes its iteration and returns, holding no permit |

## Left out

- Canvas, `Paint` and bitmap rendering, pixel coordinates and the display density `scale` are left out. A drawing call is an `Action` carrying the values it draws. The texts of those values are the `Readouts` functions.
- The hot-zone rectangle test compares float coordinates against `scale`-dependent bounds. It is the boolean input `inHotZone`.
- The deuterium orbit's trigonometry and the text positions inside it are left out. Only the angle counter is modelled.
- `DateCalc` and the stardate and terran-date texts of `drawText` are left out. `DateCalc` is not part of this model.
- The samplers' own data collection (`MemoryThread`, `StatsThread`) is left out. Their published values are the `Samples` input. `MemoryThread` and `StatsThread` are not part of this model.
- Splitting the sampler's rows at ";" and parsing the id with `new Integer` are left out. A row is already a `ProcEntry` with an integer id, so a malformed row, and the exception it would raise, is not modelled.
- A `null` status, level or pressure passed to `drawText` in the deuterium display is left out. The model only records the `Option` value drawn.
- Real threads and their interleavings are left out. Examples are the non-atomic release-then-clear in `stopThread`, the check-then-release race in `resumeThread`, and the visibility of the `AtomicBoolean` fields. Each method is one atomic transition.
- The length of `sleep(poll)` and the wall-clock delay of `postDelayed` are left out. The delay is only recorded in the queue.
- Android plumbing is left out: `onCreate`, receiver registration, window manager and resources.
- The `Semaphore` permit ceiling is left out. Permits are unbounded, so the `Error` on exceeding `Integer.MAX_VALUE` permits is not modelled.
- Readouts.PadSpeed: the `Math.round(speed)` of an `int` in the last branch goes through `float` and is taken as the identity. This only differs for speeds of 2^24 and above.
- Readouts.SplitUptime: the sum property holds only while the day count fits an `int`. Beyond that, the `(int)` cast wraps the day count.
- ProcList.Unlisted: its own contract only bounds the length. Membership, multiplicity and order are the separate lemmas `UnlistedMember`, `UnlistedMultiplicity` and `UnlistedIsSubsequence`.
- Engine.DrawFrame: a drawing call that throws inside `drawFrame` still hands the canvas back in the `finally` block (LCARSWallpaper.java:332-335). The exception then escapes `drawFrame` and its caller, because neither the `mDrawCube` runnable (:90-100) nor the callbacks that draw (:209-231, :265-269) catch it. The `removeCallbacks` and `postDelayed` at :338-341 are skipped, so no new redraw is posted, and a redraw already pending before the frame stays pending. The model takes every drawing call to return, which is why every modelled frame reschedules.
- AbstractThread.StartThread: a second `Thread.start` throws `IllegalThreadStateException`. This happens, for example, when `onSurfaceCreated` runs again on a recreated surface. The model renders it as "not enabled" (`None`), like a blocking call, and does not model the exception reaching the caller.
- Engine.JoinLoop: a `join` of the memory sampler is taken to return after `memInterrupts` interruptions. This need not hold. A thread stopped before it enters `run()` is never stopped at all, because `run.set(true)` overwrites the stop (`AbstractThread.StopBeforeRunIsOverwritten`). Its loop never ends, so the join in `onSurfaceDestroyed` (LCARSWallpaper.java:250) would wait for ever. Whether the samplers are such threads depends on `MemoryThread`, which is not part of this model.
- The pixel offset `mPixels` is a `float` in the source (LCARSWallpaper.java:72). It is assigned only from the `int` offset of `onOffsetsChanged` (:267), so the model keeps it as that `int`.
