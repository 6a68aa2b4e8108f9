# three-perf: a Dafny model of the profiling core

three-perf is a performance monitor for three.js applications. Its core is
the `GLPerf` engine (src/GLPerf.ts). On every rendered frame it:

- counts the frame;
- measures the frame rate;
- reads heap usage;
- polls a WebGL2 GPU timer query;
- takes a CPU time measure between two performance marks.

It queues these samples. At a fixed log rate it hands their means to a
`paramLogger` callback. At a chart rate it writes them into four ring-buffer
charts. Two front ends wire the engine into three.js:

- the `ThreePerf` class (src/ThreePerf.ts);
- the package entry (src/index.ts).

Both patch `Scene.prototype.onBeforeRender` and `onAfterRender` so that each
render opens and closes a `'profiler'` measurement and advances the engine by
one frame. Both use the same `paramLogger`, which folds every log into
running sums and running maxima. src/helpers/Utils.ts adds three helpers:

- `isUUID`, a UUID validator;
- `addMuiPerfID`, which tags a material;
- `getMUIIndex`, the tag-key test.

The model is a set of pure functions over immutable records. Everything the
host supplies is a parameter:

- the clocks;
- `performance.memory`;
- the `cpu-duration` measure;
- the GPU's answers to a timer-query poll;
- `renderer.info.render`;
- the time an idle callback has left.

Module by module:

- **JsNum**: JavaScript number helpers.
  - `Math.round` and `Math.ceil`.
  - The engine's `average`, whose empty-queue `NaN` is modelled: `Num = Option<real>`, where None is `NaN`.
  - `+` and `>` on such numbers.
- **Overclock**: the module-level `overLimitFps` record together with the two profiler fields it drives (`overclockingFps`, `fpsLimit`).
  - `nextFps`.
  - The per-period hysteresis step.
  - The two-second fps-ceiling recalibration.
  - The refresh-rate formula of `is120hz`.
- **Registry**: the named-measurement arrays `names`, `gpuAccums` and `activeAccums`, with `addUI` and `updateAccums`.
  - It reproduces their JavaScript quirks. `names` starts as `['']` while the other two start empty. Toggling one slot past the end appends `true`.
- **GpuQuery**: the timer-query state machine of `initGpu`, `startGpu` and `endGpu`.
  - Query objects are numbered in creation order, so the model can count live queries.
- **ChartRing**: the four chart arrays and their shared `circularId` cursor.
- **GLPerf**: the engine.
  - The constructor.
  - The animation-frame loop of `is120hz`.
  - `nextFrame`, split into its phases: sampling, settling, log emission, recalibration and the chart.
  - `begin` and `end`.
- **Aggregator**: the `paramLogger` closure. It is the same in src/ThreePerf.ts:146-209 and src/index.ts:133-194, except for the `ui.update()` call at src/ThreePerf.ts:207. The model takes that call to return; as written it throws (see Findings).
- **Hooks**: both front ends.
  - A hook becomes a list of steps, such as `BeginProfiler`, `NextFrame` or `Forward(callback)`.
  - An interpreter runs the steps against the engine, the overclock state and the aggregator.
  - `Apply` and `Replay` drive a front end through events: setter calls, renders, idle callbacks and animation frames.
- **Utils**: `isUUID`, `addMuiPerfID` and `getMUIIndex`.

## Model

| member | source | states |
|---|---|---|
| JsNum.Quot | src/GLPerf.ts:225 | a non-zero divisor gives the exact quotient; a zero divisor gives 0 (see Left out) |
| JsNum.JsRound | src/GLPerf.ts:245 | `Math.round` lands within half a unit of its argument, with halves rounded up |
| JsNum.Ceil | src/GLPerf.ts:148 | `Math.ceil` gives the least integer not below its argument |
| JsNum.Average | src/GLPerf.ts:22 | `average` is defined exactly when the queue is non-empty, and the mean times the length is the left-to-right sum |
| JsNum.AddNum | src/ThreePerf.ts:169-172 | `+=` on numbers: `NaN` on either side gives `NaN`, otherwise the difference from the old value is the addend |
| JsNum.SumBounds | src/GLPerf.ts:22 | the sum of a queue lies between length times its lower bound and length times its upper bound |
| JsNum.AverageBounds | src/GLPerf.ts:22 | the mean of a non-empty queue lies between any bounds of its samples |
| JsNum.AverageOfConstant | src/GLPerf.ts:22 | a queue holding one value throughout averages to that value |
| JsNum.SumPush | src/GLPerf.ts:259-262 | pushing a sample onto a queue adds exactly that sample to its sum |
| Overclock.Initial | src/GLPerf.ts:16-20 | the shared record starts with its counter in bounds and the overclock flag off |
| Overclock.Estimate | src/GLPerf.ts:180-182 | the idle-time estimate times the elapsed part of the 1000/60 ms budget equals budget × fpsLimit / 10 |
| Overclock.NextFps | src/GLPerf.ts:178-198 | a negative estimate changes nothing. Otherwise the estimate is stored, and the counter climbs by one below 25, or at 25 the flag is raised. The counter stays in [0, 25], and the flag is only raised from a saturated counter |
| Overclock.Settle | src/GLPerf.ts:264-276 | when enabled, the counter drops by one if positive and fps beats fpsFixed; otherwise the flag clears. The estimate and limits are unchanged and the counter stays in bounds |
| Overclock.Requantize | src/GLPerf.ts:309-310 | the profiler's fps limit becomes a multiple of ten within 5 of the mean fixed fps, and `overLimitFps.fpsLimit` is ten times it |
| Overclock.RefreshMultiplier | src/GLPerf.ts:148 | for a positive span, the multiplier m puts the measured frame rate in (70(m−1), 70m], and m ≥ 1 when frames were counted |
| Overclock.FlagNeedsSaturation | src/GLPerf.ts:188-196 | from counter c with the flag off, raising the flag takes more than 25 − c idle callbacks |
| Overclock.CounterStaysBounded | src/GLPerf.ts:186-276 | however idle callbacks and frame periods interleave, the hysteresis counter stays in [0, 25] |
| Registry.Initial | src/GLPerf.ts:28-40 | the registry starts with the empty name and satisfies the registry invariant |
| Registry.IndexOf | src/GLPerf.ts:168 | `indexOf` gives −1 exactly for an absent name, and otherwise the first position holding it |
| Registry.AddUI | src/GLPerf.ts:166-176 | a present name changes nothing. An absent name is appended, with a 0 GPU time and an inactive flag. No name ever appears twice |
| Registry.Toggle | src/GLPerf.ts:507 | the slot's flag is negated, where one past the end reads `undefined` and so appends `true`. Every other flag is kept |
| Registry.Slot | src/GLPerf.ts:496-503 | the slot is the name's index, or the next free index for a new name |
| Registry.UpdateAccums | src/GLPerf.ts:494-510 | the name is registered as by `addUI` and its flag alone flips. A new name's flag is toggled from `undefined` to true, extending the flags by one when `addUI` has not already; every other new flag is false. The registry invariant is kept |
| Registry.WriteGpu | src/GLPerf.ts:433-435 | every index of `activeAccums` receives the timer result, possibly growing `gpuAccums`; other entries are kept |
| Registry.ResetHead | src/GLPerf.ts:230-232 | `gpuAccums[0] = 0` zeroes the head (appending if empty) and keeps the rest |
| Registry.TogglePairRestores | src/GLPerf.ts:476-492 | two toggles of one name restore every flag when the name already had one, and leave a new flag false |
| Registry.UpdateAll | src/GLPerf.ts:494-510 | a run of `updateAccums` keeps the invariant and only appends names |
| Registry.RegistryHoldsCalledNames | src/GLPerf.ts:494-503 | after any run of calls, the registry holds each called name exactly once and nothing else new |
| GpuQuery.Init | src/GLPerf.ts:108-130 | the extension is held exactly when a context offers it, and `isWebGL2` is false exactly when a context lacks it |
| GpuQuery.StartGpu | src/GLPerf.ts:391-456 | the old query is deleted exactly when its result is available and not disjoint, and a positive result is reported in ms (ns / 10^6). A new query is begun exactly when there was none or the old result was available. Nothing happens without context, extension and WebGL2 |
| GpuQuery.EndGpu | src/GLPerf.ts:458-470 | `endQuery` is issued only for a query the engine has begun: whenever it is issued, `this.query` holds a query number below the creation count (with `GpuQuery.Valid`, `queryCreated` is set exactly when a query exists) |
| GpuQuery.EndClosesBegunQuery | src/GLPerf.ts:445-466 | after any run of polls, an `endQuery` closes a query that a poll created with `createQuery` and began |
| GpuQuery.NoEndBeforeStart | src/GLPerf.ts:458-470 | before the first poll, `queryCreated` is false, so no `endQuery` is issued |
| GpuQuery.Run | src/GLPerf.ts:391-456 | polling keeps every handed-out query number below the creation count |
| GpuQuery.AtMostOneLiveQuery | src/GLPerf.ts:412-452 | without disjoint results, at most one query object is alive, the one `this.query` holds |
| GpuQuery.DisjointResultKeepsQueryAlive | src/GLPerf.ts:412-452 | an available but disjoint result is neither reported nor deleted, yet a new query is begun, so two query objects are alive |
| ChartRing.Empty | src/GLPerf.ts:97-100 | the four charts start as 60 zeros with the cursor at 0 |
| ChartRing.Written | src/GLPerf.ts:342-364 | fps is always written; gpu, cpu and mem are written exactly when strictly positive, and the written value is the sample itself |
| ChartRing.Put | src/GLPerf.ts:348-364 | a conditional write changes at most the one cell |
| ChartRing.Write | src/GLPerf.ts:337-385 | one iteration writes slot `circularId % 60` of each chart as above, leaves every other cell alone, and advances the cursor |
| ChartRing.WriteAll | src/GLPerf.ts:337-385 | n iterations advance the cursor by n and keep the chart lengths |
| ChartRing.FpsHoldsLatest | src/GLPerf.ts:342 | fps cell i holds the sample written (circularId − 1 − i) mod 60 writes back, or its old value if fewer were written: the ring keeps the most recent 60 samples |
| ChartRing.CellsComeFromSamples | src/GLPerf.ts:342-364 | every cell holds its old value or a value some sample wrote there |
| ChartRing.ChartIterations | src/GLPerf.ts:335-337 | `while (--hz > 0)` runs n times, where n is 0 or below hz, and hz ≤ n + 1 |
| ChartRing.CountIterations | src/GLPerf.ts:337 | the pre-decrement loop, transcribed, runs exactly `ChartIterations(hz)` times |
| GLPerf.New | src/GLPerf.ts:85-106 | the constructor's engine satisfies the invariant: empty queues, frame 0, no detection, zeroed charts, CPU profiling off, the GPU tracker as `initGpu` leaves it, and overClock and logsPerSecond copied from the settings |
| GLPerf.CompleteDetection | src/GLPerf.ts:146-149 | the detector's last frame sets `detected` to the multiplier of 20 frames since `t0` (at least 1 for a positive span) and changes nothing else |
| GLPerf.DetectFrame | src/GLPerf.ts:140-155 | a frame after the twentieth changes nothing. Otherwise the frame count climbs, an unset `t0` takes the frame's time, and the twentieth frame sets `detected` |
| GLPerf.DetectionCompletes | src/GLPerf.ts:140-155 | from a set `t0`, the loop completes after exactly the remaining frames, rating 20 frames over the span from `t0` to the last of them |
| GLPerf.DetectionIdle | src/GLPerf.ts:146-149 | once the loop is cancelled, animation frames change nothing |
| GLPerf.DetectionFromStart | src/GLPerf.ts:136-159 | from the constructor, twenty positive animation frames rate 20 frames over the span from the first frame to the twentieth |
| GLPerf.Push | src/GLPerf.ts:221-262 | one sample each is pushed onto mem, fpsFixed, fps and gpu. fpsFixed × duration = 1000 × frameCount. fps is the idle estimate while overclocking. A CPU sample is pushed only when profiling was armed, and profiling is disarmed. On WebGL2 `gpuAccums[0]` resets to 0. maxMemory follows the heap limit in MB. The pushed gpu sample is the head of `gpuAccums` (WebGL2) or that head over the duration (otherwise), as `GLPerf.GpuSample` states; `currentMem` is the used heap in MB rounded, or 0 without a heap reading, as `GLPerf.MemSample` states |
| GLPerf.GpuSample | src/GLPerf.ts:228 | the gpu sample is the head of `gpuAccums` with WebGL2, and that head divided by the frame duration without it |
| GLPerf.MemSample | src/GLPerf.ts:245 | `currentMem` is the used heap in MB (1048576 bytes), rounded, and 0 without a heap reading |
| GLPerf.DisjointResultNotLogged | src/GLPerf.ts:412-437 | a `begin` whose timer result is disjoint leaves the next pushed gpu sample as it would have been without that `begin` |
| GLPerf.Emit | src/GLPerf.ts:280-300 | a log is emitted exactly when `t ≥ paramTime + 1000/logsPerSecond`. It carries the mean of each queue, the frame count, maxMemory and the rounded duration. The emitted queues empty, fpsFixed is kept, and the period restarts at this frame and time |
| GLPerf.Recalibrate | src/GLPerf.ts:302-318 | every two seconds with overClock on, the fps ceiling requantizes to the mean fixed fps, fpsFixed empties, `lastCalculateFixed` takes `now`, and the period restarts; otherwise nothing changes |
| GLPerf.ChartSamples | src/GLPerf.ts:339-346 | in one tick's iterations, only the first measures frames since `chartFrame` (later ones see 0). cpu is the current CPU. gpu exists exactly when `gpuAccums[1]` does, and is then `gpuAccums[1] * 2 + 4` with WebGL2, or `round(gpuAccums[1] / duration * 100) + 4` without. mem is 1000 / currentMem |
| GLPerf.Chart | src/GLPerf.ts:326-387 | before detection or on the first chart tick, the chart clock starts and the cursor resets, with no chart; otherwise the due iterations run. Only the chart fields change |
| GLPerf.ChartDue | src/GLPerf.ts:332-387 | the cursor advances by the due iteration count. With none due nothing changes. Otherwise the ring receives the tick's samples and `chartLogger` gets the arrays with the last cursor written |
| GLPerf.Sampled | src/GLPerf.ts:221-320 | a sampling frame keeps the invariant and the settings. It emits exactly when a log is due, and an emitted log has defined mem, fps and gpu means. CPU profiling ends disarmed and the hysteresis counter stays in bounds |
| GLPerf.Params | src/GLPerf.ts:205-322 | the frame counter advances by one. The first frame only starts the log period. A clock behind `paramTime` leaves the queues alone. An emitted log empties the queues and restarts the period at this frame's time. An idle CPU profiler stays idle with an empty queue |
| GLPerf.EmissionRestartsPeriod | src/GLPerf.ts:280-298 | with a logger that returns, no frame earlier than one log period after an emitting frame emits again |
| GLPerf.SampledAsWritten | src/GLPerf.ts:280-298 | with the class front end's logger, which throws at src/ThreePerf.ts:207, a frame throws exactly when a log is due. It throws after the samples are pushed, with the queues unreset and `paramTime` and `paramFrame` unchanged; otherwise it is the ordinary frame |
| GLPerf.ParamsAsWritten | src/GLPerf.ts:205-322 | the whole parameter phase with that logger: it throws exactly when the ordinary phase would emit, leaving the period unrestarted and one more fps sample queued |
| GLPerf.ThrowingLoggerNeverRecovers | src/GLPerf.ts:280-298 | with that logger, a frame at the same or a later time than a throwing frame throws too, with `paramTime` still unchanged and one more fps sample queued |
| GLPerf.NextFrame | src/GLPerf.ts:205-389 | one frame advances the counter by one, keeps the invariant and the settings, and never touches the registry's names or flags |
| GLPerf.Begin | src/GLPerf.ts:476-481 | `begin` polls the timer first: a result goes to every region that has a flag, running or not. Then the name's flag toggles and `t0` takes the clock |
| GLPerf.BeginAccums | src/GLPerf.ts:476-481 | a timer result is written to every region that has a flag, running or not, before the name is registered and its flag toggled |
| GLPerf.End | src/GLPerf.ts:487-492 | `end` issues `endQuery` exactly as `endGpu` decides, toggles the name's flag and sets `t0` |
| GLPerf.BeginEndRestoresFlags | src/GLPerf.ts:476-492 | a `begin`/`end` pair on a registered name restores every flag |
| Aggregator.TrackedKeys | src/ThreePerf.ts:26-27 | `maxGl` and `maxLog` list exactly the tracked keys |
| Aggregator.Initial | src/ThreePerf.ts:53-91 | all accumulators and maxima start at 0 and no frame is counted |
| Aggregator.Publish | src/ThreePerf.ts:148-158 | the published log is the snapshot renamed (`duration` becomes `totalTime`), and reading it back gives the snapshot |
| Aggregator.RaiseGl | src/ThreePerf.ts:176-187 | the `maxGl` loop raises each listed key to the larger of max and renderer value, and leaves other keys alone |
| Aggregator.RaiseLog | src/ThreePerf.ts:189-200 | the `maxLog` loop raises each listed key when the logged value compares greater, where `NaN` never does, and leaves other keys alone |
| Aggregator.SumGl | src/ThreePerf.ts:163-167 | each tracked renderer counter grows by the renderer's value; `counts` never does |
| Aggregator.SumLog | src/ThreePerf.ts:169-172 | each tracked log sum grows by the logged value, `NaN` absorbing; other keys are kept |
| Aggregator.MaxGlOf | src/ThreePerf.ts:176-187 | each tracked renderer maximum dominates both its old value and the renderer's, and is one of them |
| Aggregator.MaxGlLoopAgrees | src/ThreePerf.ts:176-187 | the loop over `maxGl` computes exactly the key-by-key maxima |
| Aggregator.MaxLogOf | src/ThreePerf.ts:189-200 | a defined tracked log maximum stays defined, dominates its old value and every defined logged value, and is one of the two |
| Aggregator.MaxLogLoopAgrees | src/ThreePerf.ts:189-200 | the loop over `maxLog` computes exactly the key-by-key maxima |
| Aggregator.ParamLogger | src/ThreePerf.ts:146-209 | `paramLogger` publishes the snapshot and counts one more frame |
| Aggregator.FramesCounted | src/ThreePerf.ts:163 | after n calls, `totalFrames` has grown by n |
| Aggregator.LogMaximumDominates | src/ThreePerf.ts:189-200 | a tracked log maximum never decreases, stays defined, and dominates every defined value ever logged for its key |
| Aggregator.GlMaximumDominates | src/ThreePerf.ts:176-187 | a tracked renderer maximum never decreases and dominates every value ever seen for its key |
| Aggregator.NaNSumIsAbsorbing | src/ThreePerf.ts:170 | one log without CPU samples (mean `NaN`) poisons the accumulated CPU total for good |
| Hooks.AfterRenderSteps | src/ThreePerf.ts:314-339 | `afterRender` runs one frame exactly when not paused, and requests an idle callback exactly when not paused, overclocking and the API exists. The class version then ends the profiler region and arms CPU profiling; the index version does neither |
| Hooks.ForwardStored | src/ThreePerf.ts:269 | the stored callback, when the setter stored one, is forwarded, and nothing else |
| Hooks.BeforeSteps | src/ThreePerf.ts:254-280 | the before-hook begins the profiler first, in the class only for scenes with `useStats !== false` and always through the entry. It then forwards the stored callback last and never runs a frame |
| Hooks.AfterSteps | src/ThreePerf.ts:282-304 | the after-hook forwards the stored callback last and never begins the profiler |
| Hooks.IndexAfterSteps | src/index.ts:261-275 | through the entry, the after-hook ends the profiler region first and exactly once, runs one frame unless paused, and never arms CPU profiling |
| Hooks.ThreePerfAfterSteps | src/ThreePerf.ts:282-304 | in the class, a scene with stats on gets one frame unless paused and arms CPU profiling; a scene with stats off gets only its callback |
| Hooks.Do | src/ThreePerf.ts:314-339 | only `NextFrame` advances the frame, `Forward` only forwards, and only `MarkCpuStarted` arms profiling. The settings never change |
| Hooks.RunCountsFrames | src/ThreePerf.ts:318 | the frame counter advances once per frame step |
| Hooks.RunForwards | src/ThreePerf.ts:293 | user callbacks are called exactly as the steps forward them, in order |
| Hooks.RunOnlyForwards | src/ThreePerf.ts:259-269 | steps that only forward callbacks change nothing else |
| Hooks.RunStaysQuiet | src/GLPerf.ts:247-257 | without a `cpu-started` mark, CPU profiling stays disarmed and the CPU queue empty |
| Hooks.Configure | src/ThreePerf.ts:130-139 | GPU tracking is on, overClock defaults to true, and the log rate defaults to 10 when unset and is replaced by 10 when 0, so the rate is never 0 |
| Hooks.Start | src/index.ts:117-127 | a fresh front end has a valid, CPU-quiet engine with the configured overClock, no stored callbacks and nothing forwarded |
| Hooks.Apply | src/ThreePerf.ts:254-304 | every event keeps the engine invariant, the front end and the pause switch |
| Hooks.RunArmsAt | src/ThreePerf.ts:334-339 | arming CPU profiling followed only by forwarded callbacks leaves it armed |
| Hooks.ThreePerfAfterStepsArm | src/ThreePerf.ts:285-295 | the class's after-hook steps for a scene with stats on end with CPU profiling armed |
| Hooks.ThreePerfAfterRenderArmsCpu | src/ThreePerf.ts:334-339 | in the class, a render with stats on leaves CPU profiling armed |
| Hooks.ThreePerfStatsOffOnlyForwards | src/ThreePerf.ts:259-293 | in the class, a scene with `useStats === false` only gets its stored callbacks; nothing else changes |
| Hooks.AfterRenderAdvancesFrame | src/ThreePerf.ts:285-296 | an after-hook advances the frame counter by one exactly when the hook is active for the scene and the engine is not paused |
| Hooks.BeforeRenderKeepsFrame | src/ThreePerf.ts:254-271 | a before-hook never advances the frame counter |
| Hooks.AfterRenderForwardsStored | src/ThreePerf.ts:293-301 | a render's after-hook calls its scene's stored callback, once and last |
| Hooks.BeforeRenderForwardsStored | src/ThreePerf.ts:269-277 | a render's before-hook calls its scene's stored callback, once and last |
| Hooks.StoredCallbackIsForwarded | src/ThreePerf.ts:274-301 | the callback a setter stores is the one the next render forwards, last |
| Hooks.IndexNeverSamplesCpu | src/index.ts:294-314 | through the entry no event arms CPU profiling, so no CPU sample is ever queued |
| Utils.MatchesIffLaid | src/helpers/Utils.ts:6 | reading the pattern left to right agrees with the positional reading of the string |
| Utils.UuidSeparators | src/helpers/Utils.ts:6 | the separators of the 8-4-4-4-12 pattern sit at positions 8, 13, 18 and 23 |
| Utils.IsUUIDIffLayout | src/helpers/Utils.ts:2-16 | `isUUID` holds exactly for 36 characters with `-` at 8, 13, 18 and 23 and a hex digit everywhere else |
| Utils.IsUUIDCaseInsensitive | src/helpers/Utils.ts:6 | upper-casing a string never changes the verdict |
| Utils.AddMuiPerfID | src/helpers/Utils.ts:18-49 | the uuid is returned and `needsUpdate` ends false. `defines` exists and carries `muiPerf`: the uuid if the old tag was falsy, the old tag otherwise. Every other key is kept. The uuid is registered afterwards, with a fresh entry exactly when no truthy slot was there |
| Utils.AddMuiPerfIDIdempotent | src/helpers/Utils.ts:18-49 | a second call changes nothing |
| Utils.GetMUIIndex | src/helpers/Utils.ts:51 | the key test accepts exactly `muiPerf` |
| Utils.TagKeyIsRecognised | src/helpers/Utils.ts:26-51 | the only `defines` key `addMuiPerfID` adds or changes is the one `getMUIIndex` accepts |

Where the code differs from what its comments and call sites suggest, the model follows the code:

- **Chart size and rate.** The ThreePerf front end passes `chartLen: 120` and `chartHz: 60` (src/ThreePerf.ts:137-138). The constructor never copies them, so the field initialisers stay in effect: the chart length is 60 and the chart rate is 10 per second (src/GLPerf.ts:55-58, 85-106).
- **GPU results.** A timer result overwrites the `gpuAccums` entry of every region that has a flag. It does not add to it (src/GLPerf.ts:433-435).
- **Disjoint results.** The "clean up the query object" branch tests `available || disjoint`, but it sits inside `available && !disjoint` (src/GLPerf.ts:412-420). So a disjoint result is dropped and its query object is never deleted. A new query is begun all the same (src/GLPerf.ts:445-450).
- **Recalibration time.** The recalibration stores the `now` argument in `lastCalculateFixed` (src/GLPerf.ts:308). It does not store the resolved time `t` that the rest of the frame uses (src/GLPerf.ts:208).

## Left out

- JsNum.Quot: a division by zero gives `Infinity` or `NaN` in JavaScript; the model gives 0. This touches:
  - `fpsFixed` when `duration` is 0;
  - the idle estimate of `nextFps` when no time has elapsed;
  - the refresh multiplier for a zero span;
  - the non-WebGL2 GPU figure.
- GLPerf.ChartSamples: with `currentMem` at 0 the source writes `1000 / 0 = Infinity` into the memory chart. The model writes nothing there.
- GLPerf.Push: the non-WebGL2 path resets `gpuAccums[0]` later, when a `Promise.all` settles. The model leaves the asynchronous reset out.
- GLPerf.Push: with `gpuAccums` still empty the source reads `undefined`, and the gpu mean becomes `NaN`; the model reads 0 (GLPerf.GpuSample). This happens only before any `begin`, which the front ends never reach: they begin before every frame.
- GLPerf.Push: `window.performance` is assumed to exist. The model has the heap reading optional and the CPU measure always available.
- GLPerf.ChartDue: `chartLogger` is called once per registered name per iteration, with an index `i` and the live arrays. The front ends only keep the last call, so the model passes one snapshot without `i`.
- GLPerf.Recalibrate: `now` is a `real`, and a missing argument is modelled as 0, which falls back to the engine clock as `now || this.now()` does. When `nextFrame` is called without an argument, the source stores `undefined` in `lastCalculateFixed`, so `t - lastCalculateFixed` is `NaN` and no recalibration fires again. The model instead keeps recalibrating whenever two seconds have passed since time 0. The front ends always pass `performance.now()`, so only direct engine callers see the difference.
- Aggregator.ParamLogger: the class front end's closure ends with `ui.update()`, which throws (see Findings). The contract assumes the call returns, as the index front end's closure does.
- Hooks.AfterRenderSteps: assumes the class logger's `ui.update()` returns. As written, a frame that emits a log throws out of `nextFrame`, skipping the idle-callback request, `end('profiler')` and the CPU arming (src/ThreePerf.ts:320-337).
- Hooks.ThreePerfAfterSteps: assumes `ui.update()` returns. As written, an emitting frame throws before the CPU arming and the forward of the stored callback (src/ThreePerf.ts:286-293).
- Hooks.ThreePerfAfterStepsArm: assumes `ui.update()` returns; as written, an emitting frame throws before CPU profiling is armed.
- Hooks.ThreePerfAfterRenderArmsCpu: assumes `ui.update()` returns; as written, an emitting frame throws before CPU profiling is armed (src/ThreePerf.ts:337).
- Hooks.AfterRenderForwardsStored: assumes `ui.update()` returns; as written, an emitting frame throws before the stored callback is forwarded (src/ThreePerf.ts:293).
- Hooks.StoredCallbackIsForwarded: assumes `ui.update()` returns; as written, an emitting frame throws before the stored callback is forwarded.
- Aggregator.ParamLogger: its contract states the published log and the frame count. The sums and maxima are stated through SumLog, SumGl, MaxLogOf and MaxGlOf and the lemmas about `Feed`.
- Scheduling by `requestAnimationFrame` and `requestIdleCallback` is reduced to events. An idle request is a counter, and `AnimationFrame` and `IdleCallback` events run the callbacks in any order the caller chooses.
- The WebGL calls are oracle answers in `GpuQuery.Answers`. These are `getQueryParameter`, `getParameter`, `createQuery`, `beginQuery`, `deleteQuery`, `getQuery` and `endQuery`. `endQuery` is reported, not tracked in the world.
- three.js's `needsUpdate` setter bumps the material's version. The model treats the flag as a plain boolean.
- `addMuiPerfID` mutates the caller's `defines` object in place. The model returns a new map, so aliasing is not modelled.
- `isUUID` coerces its argument with `'' + uuid`. The model takes a string.
- The DOM and UI are left out: `ThreePerfUI`, the pause toggle, the `deepAnalyze` placeholder and console output.
- The renderer-info probing of the constructors only produces display strings, so it is left out.
- `MathUtils.generateUUID` in `initGpu` is left out.

## Findings

| source | as written | input that shows it | evidently intended | confidence | as-written member | corrected member |
|---|---|---|---|---|---|---|
| src/ThreePerf.ts:207 | the class front end's `paramLogger` ends with `this.ui.update()`, but `ThreePerfUI` (src/ui/UI.ts:1-31) defines no `update`. The TypeError leaves `nextFrame` at the logger call (src/GLPerf.ts:282), before the queues reset and `paramTime = t`. So every later frame is due again and throws again | a `ThreePerf` front end with stats on, at the first frame where `t >= paramTime + 1000 / logsPerSecond` | the logger returns after folding in the snapshot, as the index front end's closure does, and the period restarts | not executed; medium (the TypeScript as given would not type-check this call, so a published build may ship a different UI) | GLPerf.ParamsAsWritten, GLPerf.ThrowingLoggerNeverRecovers | GLPerf.Params, GLPerf.EmissionRestartsPeriod |
