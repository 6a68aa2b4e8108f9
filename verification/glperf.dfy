/** The frame-sampling engine of src/GLPerf.ts as an immutable state record
    and pure step functions. Clock readings, heap readings, the CPU measure
    and the GPU's answers are parameters; the shared overclock state goes in
    and comes out of every step. */
module GLPerf {
  import opened Wrappers
  import opened JsNum
  import Overclock
  import Registry
  import GpuQuery
  import ChartRing

  /** The chart rate in effect: `settings.chartHz` is never copied. */
  const ChartHz: real := 10.0
  const BytesPerMB: real := 1048576.0
  /** How often the fps ceiling is recalibrated, in milliseconds. */
  const RecalibratePeriod: real := 2000.0
  /** Animation frames the refresh-rate detector counts. */
  const DetectionFrames: nat := 20

  /** The constructor's settings; `chartLen` and `chartHz` are accepted and ignored. */
  datatype Settings = Settings(
    trackGPU: bool, overClock: bool, logsPerSecond: real,
    hasGl: bool, extAvailable: bool,
    chartLen: Option<int>, chartHz: Option<real>)

  /** The per-metric sample queues of the open log period. */
  datatype LogsAccums = LogsAccums(mem: seq<real>, gpu: seq<real>, cpu: seq<real>, fps: seq<real>, fpsFixed: seq<real>)

  datatype Engine = Engine(
    acc: Registry.Accums,
    gpu: GpuQuery.Tracker,
    logs: LogsAccums,
    ring: ChartRing.Ring,
    paused: bool,
    overClock: bool,
    trackGPU: bool,
    logsPerSecond: real,
    maxMemory: real,
    startCpuProfiling: bool,
    lastCalculateFixed: real,
    chartFrame: int,
    chartTime: real,
    detected: int,
    frameId: int,
    currentCpu: real,
    currentMem: int,
    paramFrame: int,
    paramTime: real,
    t0: real)

  predicate Valid(e: Engine)
  {
    Registry.Valid(e.acc) && GpuQuery.Valid(e.gpu) && ChartRing.Valid(e.ring)
  }

  /** The fields no frame changes: the pause switch and the settings. */
  predicate SameConfig(a: Engine, b: Engine)
  {
    a.paused == b.paused && a.overClock == b.overClock && a.trackGPU == b.trackGPU && a.logsPerSecond == b.logsPerSecond
  }

  /** The fields the logging phases of a frame leave alone: the settings, the
      frame counter and the chart state. */
  predicate Untouched(a: Engine, b: Engine)
  {
    SameConfig(a, b) && b.frameId == a.frameId && b.ring == a.ring && b.chartFrame == a.chartFrame
    && b.chartTime == a.chartTime && b.detected == a.detected
  }

  /** Heap introspection (`performance.memory`), in bytes. */
  datatype Heap = Heap(usedJSHeapSize: real, jsHeapSizeLimit: real)

  /** What the host supplies to one `nextFrame`: the `now` argument, the
      engine's own clock, the heap reading, the `cpu-duration` measure and
      whether `requestIdleCallback` exists. */
  datatype FrameInput = FrameInput(now: real, clock: real, memory: Option<Heap>, cpuMeasure: real, idleCallbacks: bool)

  /** The record handed to `paramLogger`; a None mean is the source's `NaN`. */
  datatype LogSnapshot = LogSnapshot(cpu: Num, gpu: Num, mem: Num, fps: Num, duration: int, maxMemory: real, frameCount: int)

  /** The record handed to `chartLogger`. */
  datatype ChartSnapshot = ChartSnapshot(fps: seq<real>, gpu: seq<real>, cpu: seq<real>, mem: seq<real>, circularId: int)

  datatype Tick = Tick(engine: Engine, shared: Overclock.Shared, log: Option<LogSnapshot>, chart: Option<ChartSnapshot>)

  function EmptyLogs(): LogsAccums
  {
    LogsAccums([], [], [], [], [])
  }

  /** The constructor followed by `initGpu`. */
  function New(s: Settings): (e: Engine)
    ensures Valid(e)
    ensures e.ring == ChartRing.Empty() && |e.ring.fps| == ChartRing.Len
    ensures e.logs == EmptyLogs() && e.frameId == 0 && e.detected == 0 && e.chartFrame == 0
    ensures !e.startCpuProfiling && !e.paused
    ensures e.overClock == s.overClock && e.logsPerSecond == s.logsPerSecond
    ensures e.gpu == GpuQuery.Init(s.hasGl, s.extAvailable)
  {
    Engine(Registry.Initial(), GpuQuery.Init(s.hasGl, s.extAvailable), EmptyLogs(), ChartRing.Empty(),
           false, s.overClock, s.trackGPU, s.logsPerSecond, 1500.0,
           false, 0.0, 0, 0.0, 0, 0, 0.0, 0, 0, 0.0, 0.0)
  }

  /** `now || this.now()`: a zero argument falls back to the engine's clock. */
  function Time(inp: FrameInput): (t: real)
    ensures inp.now != 0.0 ==> t == inp.now
    ensures inp.now == 0.0 ==> t == inp.clock
  {
    if inp.now != 0.0 then inp.now else inp.clock
  }

  /** The end of the detector's animation-frame loop: `detected` becomes the
      refresh multiplier of 20 frames since `t0`. */
  function CompleteDetection(e: Engine, t: real): (r: Engine)
    ensures r == e.(detected := r.detected)
    ensures t - e.t0 > 0.0 ==> r.detected >= 1
    ensures r.detected == Overclock.RefreshMultiplier(DetectionFrames, t - e.t0)
  {
    e.(detected := Overclock.RefreshMultiplier(DetectionFrames, t - e.t0))
  }

  /** The animation-frame loop of `is120hz`, reduced to the frames it has
      seen: it runs from the constructor until its twentieth frame. */
  datatype Detector = Detector(frames: nat)

  /** One animation frame of the detector at time `t`: the twentieth
      completes the detection; every frame of the loop sets `t0` to `t`
      when it is still unset (zero). */
  function DetectFrame(e: Engine, d: Detector, t: real): (r: (Engine, Detector))
    ensures d.frames >= DetectionFrames ==> r == (e, d)
    ensures d.frames < DetectionFrames ==>
      && r.1.frames == d.frames + 1
      && r.0.t0 == (if e.t0 == 0.0 then t else e.t0)
      && r.0.detected == (if r.1.frames == DetectionFrames then Overclock.RefreshMultiplier(DetectionFrames, t - e.t0) else e.detected)
    ensures r.0 == e.(detected := r.0.detected, t0 := r.0.t0)
  {
    if d.frames >= DetectionFrames then (e, d)
    else
      var n := d.frames + 1;
      var e1 := if n < DetectionFrames then e else CompleteDetection(e, t);
      (e1.(t0 := if e.t0 == 0.0 then t else e.t0), Detector(n))
  }

  /** A run of animation frames. */
  function DetectAll(e: Engine, d: Detector, ts: seq<real>): (Engine, Detector)
    decreases |ts|
  {
    if |ts| == 0 then (e, d)
    else
      var r := DetectFrame(e, d, ts[0]);
      DetectAll(r.0, r.1, ts[1..])
  }

  /** From a started clock, the loop completes after `20 - frames` more
      frames, measuring the span from `t0` to the last of them; `t0` stays put. */
  lemma {:induction false} DetectionCompletes(e: Engine, d: Detector, ts: seq<real>)
    requires e.t0 != 0.0 && d.frames < DetectionFrames && |ts| >= DetectionFrames - d.frames
    ensures var r := DetectAll(e, d, ts);
      && r.1.frames == DetectionFrames && r.0.t0 == e.t0
      && r.0.detected == Overclock.RefreshMultiplier(DetectionFrames, ts[DetectionFrames - d.frames - 1] - e.t0)
    decreases |ts|
  {
    var r := DetectFrame(e, d, ts[0]);
    if d.frames + 1 < DetectionFrames {
      DetectionCompletes(r.0, r.1, ts[1..]);
      assert ts[1..][DetectionFrames - r.1.frames - 1] == ts[DetectionFrames - d.frames - 1];
    } else {
      DetectionIdle(r.0, r.1, ts[1..]);
    }
  }

  /** Once the loop has stopped, further frames change nothing. */
  lemma {:induction false} DetectionIdle(e: Engine, d: Detector, ts: seq<real>)
    requires d.frames >= DetectionFrames
    ensures DetectAll(e, d, ts) == (e, d)
    decreases |ts|
  {
    if |ts| > 0 {
      DetectionIdle(e, d, ts[1..]);
    }
  }

  /** From the constructor's state (no `t0` yet), twenty animation frames
      with positive timestamps complete the detection: the multiplier rates
      twenty frames over the span from the first frame to the twentieth. */
  lemma DetectionFromStart(e: Engine, ts: seq<real>)
    requires e.t0 == 0.0 && |ts| >= DetectionFrames && ts[0] > 0.0
    ensures var r := DetectAll(e, Detector(0), ts);
      && r.1.frames == DetectionFrames
      && r.0.detected == Overclock.RefreshMultiplier(DetectionFrames, ts[DetectionFrames - 1] - ts[0])
  {
    var r := DetectFrame(e, Detector(0), ts[0]);
    DetectionCompletes(r.0, r.1, ts[1..]);
    assert ts[1..][DetectionFrames - 1 - 1] == ts[DetectionFrames - 1];
  }

  // ---------------------------------------------------------------- nextFrame, by phase

  datatype Measured = Measured(engine: Engine, fps: real, fpsFixed: real, frameCount: int)

  /** The sampling phase (src/GLPerf.ts:223-262) of a frame with `t >= paramTime`:
      one sample each onto `mem`, `fpsFixed`, `fps` and `gpu`, and one onto
      `cpu` only when CPU profiling was armed. */
  function Push(e: Engine, sh: Overclock.Shared, inp: FrameInput, duration: real): (r: Measured)
    requires Valid(e)
    ensures Valid(r.engine)
    ensures r.frameCount == e.frameId - e.paramFrame
    ensures duration != 0.0 ==> r.fpsFixed * duration == (r.frameCount * 1000) as real
    ensures r.fps == if sh.overclocking then sh.value else r.fpsFixed
    ensures r.engine.logs.mem == e.logs.mem + [r.engine.currentMem as real]
    ensures r.engine.currentMem == MemSample(inp)
    ensures r.engine.logs.fpsFixed == e.logs.fpsFixed + [r.fpsFixed]
    ensures r.engine.logs.fps == e.logs.fps + [r.fps]
    ensures |r.engine.logs.gpu| == |e.logs.gpu| + 1 && r.engine.logs.gpu[..|e.logs.gpu|] == e.logs.gpu
    ensures r.engine.logs.gpu[|e.logs.gpu|] == GpuSample(e, duration)
    ensures r.engine.logs.cpu == if e.startCpuProfiling then e.logs.cpu + [inp.cpuMeasure] else e.logs.cpu
    ensures !r.engine.startCpuProfiling
    ensures r.engine.maxMemory == if inp.memory.Some? then inp.memory.value.jsHeapSizeLimit / BytesPerMB else 0.0
    ensures r.engine.acc.names == e.acc.names && r.engine.acc.activeAccums == e.acc.activeAccums
    ensures e.gpu.isWebGL2 ==> |r.engine.acc.gpuAccums| >= 1 && r.engine.acc.gpuAccums[0] == 0.0
    ensures r.engine == e.(logs := r.engine.logs, acc := r.engine.acc, maxMemory := r.engine.maxMemory,
                           currentMem := r.engine.currentMem, currentCpu := r.engine.currentCpu,
                           startCpuProfiling := false)
  {
    var maxMemory := if inp.memory.Some? then inp.memory.value.jsHeapSizeLimit / BytesPerMB else 0.0;
    var frameCount := e.frameId - e.paramFrame;
    var fpsFixed := Quot((frameCount * 1000) as real, duration);
    var fps := if sh.overclocking then sh.value else fpsFixed;
    var gpu := GpuSample(e, duration);
    var acc := if e.gpu.isWebGL2 then Registry.ResetHead(e.acc) else e.acc;
    var mem := MemSample(inp);
    var cpu := if e.startCpuProfiling then inp.cpuMeasure else e.currentCpu;
    var cpuQueue := if e.startCpuProfiling then e.logs.cpu + [inp.cpuMeasure] else e.logs.cpu;
    var logs := LogsAccums(e.logs.mem + [mem as real], e.logs.gpu + [gpu], cpuQueue,
                           e.logs.fps + [fps], e.logs.fpsFixed + [fpsFixed]);
    assert (e.logs.gpu + [gpu])[..|e.logs.gpu|] == e.logs.gpu;
    Measured(e.(logs := logs, acc := acc, maxMemory := maxMemory, currentMem := mem,
                currentCpu := cpu, startCpuProfiling := false),
             fps, fpsFixed, frameCount)
  }

  /** The gpu sample of a frame: the head of `gpuAccums`, divided by the
      frame duration without WebGL2. An empty array reads as 0 (see the
      README). */
  function GpuSample(e: Engine, duration: real): (g: real)
    ensures |e.acc.gpuAccums| > 0 ==>
      g == if e.gpu.isWebGL2 then e.acc.gpuAccums[0] else Quot(e.acc.gpuAccums[0], duration)
  {
    var head := Registry.At(e.acc, 0).GetOr(0.0);
    if e.gpu.isWebGL2 then head else Quot(head, duration)
  }

  /** The heap in use, in whole megabytes; 0 without a heap reading. */
  function MemSample(inp: FrameInput): (m: int)
    ensures inp.memory.Some? ==> m == JsRound(inp.memory.value.usedJSHeapSize / BytesPerMB)
    ensures inp.memory.None? ==> m == 0
  {
    JsRound(if inp.memory.Some? then inp.memory.value.usedJSHeapSize / BytesPerMB else 0.0)
  }

  /** Whether a log is due: `t >= paramTime + 1000 / logsPerSecond`; with a
      zero rate the bound is `Infinity` and nothing is ever due. */
  predicate LogDue(e: Engine, t: real)
  {
    e.logsPerSecond != 0.0 && t >= e.paramTime + 1000.0 / e.logsPerSecond
  }

  datatype Emitted = Emitted(engine: Engine, log: Option<LogSnapshot>)

  /** Log emission (src/GLPerf.ts:280-300): the snapshot holds the mean of
      each queue; afterwards the queues other than `fpsFixed` are empty and
      the log period restarts at the current frame and time. */
  function Emit(e: Engine, t: real, duration: real, frameCount: int): (r: Emitted)
    ensures Untouched(e, r.engine) && r.engine.acc == e.acc && r.engine.gpu == e.gpu
    ensures r.engine.startCpuProfiling == e.startCpuProfiling
    ensures r.log.Some? <==> LogDue(e, t)
    ensures r.log.None? ==> r.engine == e
    ensures r.log.Some? ==>
      && r.log.value.cpu == Average(e.logs.cpu)
      && r.log.value.gpu == Average(e.logs.gpu)
      && r.log.value.mem == Average(e.logs.mem)
      && r.log.value.fps == Average(e.logs.fps)
      && r.log.value.frameCount == frameCount
      && r.log.value.maxMemory == e.maxMemory
      && duration - 0.5 < r.log.value.duration as real <= duration + 0.5
      && r.engine.logs == LogsAccums([], [], [], [], e.logs.fpsFixed)
      && r.engine.paramFrame == e.frameId && r.engine.paramTime == t
      && r.engine == e.(logs := r.engine.logs, paramFrame := e.frameId, paramTime := t)
  {
    if LogDue(e, t) then
      var log := LogSnapshot(Average(e.logs.cpu), Average(e.logs.gpu), Average(e.logs.mem),
                             Average(e.logs.fps), JsRound(duration), e.maxMemory, frameCount);
      Emitted(e.(logs := e.logs.(mem := [], fps := [], gpu := [], cpu := []),
                 paramFrame := e.frameId, paramTime := t), Some(log))
    else Emitted(e, None)
  }

  predicate RecalibrationDue(e: Engine, t: real)
  {
    e.overClock && t - e.lastCalculateFixed >= RecalibratePeriod
  }

  datatype Calibrated = Calibrated(engine: Engine, shared: Overclock.Shared)

  /** The two-second fps-ceiling recalibration (src/GLPerf.ts:302-318). The
      queue is non-empty here because a sample was pushed earlier in the tick. */
  function Recalibrate(e: Engine, sh: Overclock.Shared, t: real, now: real): (r: Calibrated)
    requires |e.logs.fpsFixed| > 0
    ensures Untouched(e, r.engine) && r.engine.acc == e.acc && r.engine.gpu == e.gpu
    ensures r.engine.startCpuProfiling == e.startCpuProfiling
    ensures !RecalibrationDue(e, t) ==> r == Calibrated(e, sh)
    ensures RecalibrationDue(e, t) ==>
      && r.shared == Overclock.Requantize(sh, Average(e.logs.fpsFixed).value)
      && r.engine.logs == e.logs.(fpsFixed := [])
      && r.engine.lastCalculateFixed == now
      && r.engine.paramFrame == e.frameId && r.engine.paramTime == t
      && r.engine == e.(logs := r.engine.logs, lastCalculateFixed := now, paramFrame := e.frameId, paramTime := t)
  {
    if RecalibrationDue(e, t) then
      var mean := Average(e.logs.fpsFixed).value;
      Calibrated(e.(lastCalculateFixed := now, logs := e.logs.(fpsFixed := []),
                    paramFrame := e.frameId, paramTime := t),
                 Overclock.Requantize(sh, mean))
    else Calibrated(e, sh)
  }

  /** The samples of one tick's chart loop. The first iteration measures the
      frames since `chartFrame`; it then sets `chartFrame` to the current
      frame, so every later iteration sees a frame count of zero. */
  function ChartSamples(e: Engine, sh: Overclock.Shared, timespan: real, duration: real, n: nat): (ss: seq<ChartRing.Sample>)
    ensures |ss| == n
    ensures forall j :: 0 <= j < n ==>
      && ss[j].fps == (if sh.overclocking then sh.value else if j == 0 then Quot(((e.frameId - e.chartFrame) * 1000) as real, timespan) else 0.0)
      && ss[j].cpu == e.currentCpu
      && ss[j].gpu.Some? == (|e.acc.gpuAccums| > 1)
      && (|e.acc.gpuAccums| > 1 ==>
            ss[j].gpu.value == if e.gpu.isWebGL2 then e.acc.gpuAccums[1] * 2.0 + 4.0
                               else (JsRound(Quot(e.acc.gpuAccums[1], duration) * 100.0) + 4) as real)
      && (ss[j].mem.Some? <==> e.currentMem != 0)
      && (ss[j].mem.Some? ==> ss[j].mem.value * (e.currentMem as real) == 1000.0)
  {
    var memS := if e.currentMem == 0 then None else Some(1000.0 / (e.currentMem as real));
    var second := Registry.At(e.acc, 1);
    var gpuS := if second.None? then None
                else if e.gpu.isWebGL2 then Some(second.value * 2.0 + 4.0)
                else Some((JsRound(Quot(second.value, duration) * 100.0) + 4) as real);
    var firstFps := if sh.overclocking then sh.value else Quot(((e.frameId - e.chartFrame) * 1000) as real, timespan);
    var laterFps := if sh.overclocking then sh.value else 0.0;
    seq(n, j => ChartRing.Sample(if j == 0 then firstFps else laterFps, gpuS, e.currentCpu, memS))
  }

  /** The number of chart iterations a tick at time `t` performs. */
  function DueSamples(e: Engine, t: real): nat
  {
    ChartRing.ChartIterations(ChartHz * (t - e.chartTime) / 1000.0)
  }

  datatype Charted = Charted(engine: Engine, chart: Option<ChartSnapshot>)

  /** The chart phase (src/GLPerf.ts:326-387): the first charted tick after
      detection only starts the clock; later ticks write the due samples. */
  function Chart(e: Engine, sh: Overclock.Shared, t: real, duration: real): (r: Charted)
    requires Valid(e)
    ensures Valid(r.engine)
    ensures r.engine == e.(ring := r.engine.ring, chartFrame := r.engine.chartFrame, chartTime := r.engine.chartTime)
    ensures e.detected == 0 || e.chartFrame == 0 ==>
      && r.engine.chartFrame == e.frameId && r.engine.chartTime == t
      && r.engine.ring == e.ring.(circularId := 0) && r.chart.None?
    ensures e.detected != 0 && e.chartFrame != 0 ==> r == ChartDue(e, sh, t, duration)
  {
    if e.detected == 0 || e.chartFrame == 0 then
      Charted(e.(chartFrame := e.frameId, chartTime := t, ring := e.ring.(circularId := 0)), None)
    else ChartDue(e, sh, t, duration)
  }

  /** The chart loop of a tick after the clock has started: one ring write
      per due iteration, then the ring's arrays go to `chartLogger`. */
  function ChartDue(e: Engine, sh: Overclock.Shared, t: real, duration: real): (r: Charted)
    requires Valid(e)
    ensures Valid(r.engine)
    ensures r.engine == e.(ring := r.engine.ring, chartFrame := r.engine.chartFrame, chartTime := r.engine.chartTime)
    ensures var n := DueSamples(e, t);
      && r.engine.ring.circularId == e.ring.circularId + n
      && (n == 0 ==> r.engine == e && r.chart.None?)
      && (n > 0 ==>
          && t - e.chartTime > 0.0
          && r.engine.chartFrame == e.frameId && r.engine.chartTime == t
          && r.engine.ring == ChartRing.WriteAll(e.ring, ChartSamples(e, sh, t - e.chartTime, duration, n))
          && r.chart == Some(ChartSnapshot(r.engine.ring.fps, r.engine.ring.gpu, r.engine.ring.cpu,
                                           r.engine.ring.mem, r.engine.ring.circularId - 1)))
  {
    var n := DueSamples(e, t);
    if n == 0 then Charted(e, None)
    else
      var ring := ChartRing.WriteAll(e.ring, ChartSamples(e, sh, t - e.chartTime, duration, n));
      Charted(e.(ring := ring, chartFrame := e.frameId, chartTime := t),
              Some(ChartSnapshot(ring.fps, ring.gpu, ring.cpu, ring.mem, ring.circularId - 1)))
  }

  // ---------------------------------------------------------------- nextFrame

  /** The parameter phase of a frame that is neither the first nor earlier
      than the period start: sample, settle the hysteresis counter, emit,
      recalibrate. */
  function Sampled(e: Engine, sh: Overclock.Shared, inp: FrameInput, t: real, duration: real): (r: Tick)
    requires Valid(e)
    ensures Valid(r.engine)
    ensures r.engine.frameId == e.frameId && r.engine.ring == e.ring && r.engine.chartFrame == e.chartFrame
    ensures SameConfig(e, r.engine)
    ensures r.log.Some? <==> LogDue(e, t)
    ensures r.log.Some? ==>
      && r.log.value.frameCount == e.frameId - e.paramFrame
      && r.log.value.mem.Some? && r.log.value.fps.Some? && r.log.value.gpu.Some?
      && r.engine.logs.mem == [] && r.engine.logs.fps == [] && r.engine.logs.gpu == [] && r.engine.logs.cpu == []
      && r.engine.paramFrame == e.frameId && r.engine.paramTime == t
    ensures r.engine.logs.fpsFixed == [] || |r.engine.logs.fpsFixed| == |e.logs.fpsFixed| + 1
    ensures !r.engine.startCpuProfiling
    ensures !e.startCpuProfiling ==> r.engine.logs.cpu == [] || r.engine.logs.cpu == e.logs.cpu
    ensures Overclock.Bounded(sh) ==> Overclock.Bounded(r.shared)
    ensures r.chart.None?
  {
    var p := Push(e, sh, inp, duration);
    var sh1 := Overclock.Settle(sh, p.fps, p.fpsFixed, e.overClock && inp.idleCallbacks);
    Conclude(p, sh1, t, duration, inp.now)
  }

  /** The end of a sampled frame, once the queues hold this frame's samples:
      log emission, then the fps recalibration. */
  function Conclude(p: Measured, sh: Overclock.Shared, t: real, duration: real, now: real): (r: Tick)
    requires Valid(p.engine) && !p.engine.startCpuProfiling
    requires |p.engine.logs.fpsFixed| > 0 && |p.engine.logs.mem| > 0 && |p.engine.logs.fps| > 0 && |p.engine.logs.gpu| > 0
    ensures Valid(r.engine) && Untouched(p.engine, r.engine) && !r.engine.startCpuProfiling
    ensures r.log.Some? <==> LogDue(p.engine, t)
    ensures r.log.Some? ==>
      && r.log.value.frameCount == p.frameCount
      && r.log.value.mem.Some? && r.log.value.fps.Some? && r.log.value.gpu.Some?
      && r.engine.logs.mem == [] && r.engine.logs.fps == [] && r.engine.logs.gpu == [] && r.engine.logs.cpu == []
      && r.engine.paramFrame == p.engine.frameId && r.engine.paramTime == t
    ensures r.engine.logs.fpsFixed == [] || r.engine.logs.fpsFixed == p.engine.logs.fpsFixed
    ensures r.engine.logs.cpu == [] || r.engine.logs.cpu == p.engine.logs.cpu
    ensures Overclock.Bounded(sh) ==> Overclock.Bounded(r.shared)
    ensures r.chart.None?
  {
    var em := Emit(p.engine, t, duration, p.frameCount);
    var cal := Recalibrate(em.engine, sh, t, now);
    Tick(cal.engine, cal.shared, em.log, None)
  }

  /** The parameter part of `nextFrame` (src/GLPerf.ts:207-322), before the chart. */
  function Params(e: Engine, sh: Overclock.Shared, inp: FrameInput): (r: Tick)
    requires Valid(e)
    ensures Valid(r.engine)
    ensures r.engine.frameId == e.frameId + 1 && r.engine.ring == e.ring && r.engine.chartFrame == e.chartFrame
    ensures r.engine.detected == e.detected && r.engine.chartTime == e.chartTime
    ensures SameConfig(e, r.engine)
    ensures r.chart.None?
    ensures e.frameId + 1 <= 1 ==>
      && r.engine.paramFrame == e.frameId + 1 && r.engine.paramTime == Time(inp)
      && r.engine.logs == e.logs && r.shared == sh && r.log.None?
    ensures r.log.Some? <==> e.frameId + 1 > 1 && Time(inp) >= e.paramTime && LogDue(e, Time(inp))
    ensures r.log.Some? ==>
      && r.log.value.frameCount == e.frameId + 1 - e.paramFrame
      && r.log.value.mem.Some? && r.log.value.fps.Some? && r.log.value.gpu.Some?
      && r.engine.logs.mem == [] && r.engine.logs.fps == [] && r.engine.logs.gpu == [] && r.engine.logs.cpu == []
      && r.engine.paramTime == Time(inp)
    ensures Time(inp) < e.paramTime ==> r.engine.logs == e.logs && r.shared == sh
    ensures !e.startCpuProfiling && e.logs.cpu == [] ==> !r.engine.startCpuProfiling && r.engine.logs.cpu == []
    ensures Overclock.Bounded(sh) ==> Overclock.Bounded(r.shared)
    ensures r.engine.acc.names == e.acc.names && r.engine.acc.activeAccums == e.acc.activeAccums
  {
    var e1 := e.(frameId := e.frameId + 1);
    var t := Time(inp);
    if e1.frameId <= 1 then Tick(e1.(paramFrame := e1.frameId, paramTime := t), sh, None, None)
    else if t >= e.paramTime then
      assert LogDue(e1, t) == LogDue(e, t);
      Sampled(e1, sh, inp, t, t - e.paramTime)
    else Tick(e1, sh, None, None)
  }

  /** `nextFrame`: one frame of the engine. */
  function NextFrame(e: Engine, sh: Overclock.Shared, inp: FrameInput): (r: Tick)
    requires Valid(e)
    ensures Valid(r.engine)
    ensures r.engine.frameId == e.frameId + 1
    ensures SameConfig(e, r.engine)
    ensures r.shared == Params(e, sh, inp).shared && r.log == Params(e, sh, inp).log
    ensures r.engine.logs == Params(e, sh, inp).engine.logs
    ensures r.engine.startCpuProfiling == Params(e, sh, inp).engine.startCpuProfiling
    ensures r.engine.acc.names == e.acc.names && r.engine.acc.activeAccums == e.acc.activeAccums
  {
    var s := Params(e, sh, inp);
    var c := Chart(s.engine, s.shared, Time(inp), Time(inp) - e.paramTime);
    Tick(c.engine, s.shared, s.log, c.chart)
  }

  /** With a logger that returns, an emitted log restarts the period: no
      frame earlier than one log period later emits again. */
  lemma EmissionRestartsPeriod(e: Engine, sh: Overclock.Shared, inp: FrameInput, sh2: Overclock.Shared, inp2: FrameInput)
    requires Valid(e) && Params(e, sh, inp).log.Some?
    requires Time(inp) <= Time(inp2) < Time(inp) + 1000.0 / e.logsPerSecond
    ensures Params(Params(e, sh, inp).engine, sh2, inp2).log.None?
  {
  }

  // ---------------------------------------------------------------- a logger that throws

  /** How the parameter phase of a frame ends when `paramLogger` may throw.
      The class front end's logger ends with `this.ui.update()`
      (src/ThreePerf.ts:207), a method `ThreePerfUI` does not define
      (src/ui/UI.ts:1-31): the call raises a TypeError after the logger has
      folded in the snapshot, and the error leaves `nextFrame`. */
  datatype Outcome = Returned(tick: Tick) | Threw(engine: Engine, shared: Overclock.Shared, log: LogSnapshot)

  /** `Sampled` with that logger: an emitting frame stops at the logger
      call (src/GLPerf.ts:282), after the samples are pushed and the
      hysteresis counter settles, and before the queues reset and the period
      restarts (src/GLPerf.ts:292-298). */
  function SampledAsWritten(e: Engine, sh: Overclock.Shared, inp: FrameInput, t: real, duration: real): (r: Outcome)
    requires Valid(e)
    ensures r.Threw? <==> LogDue(e, t)
    ensures r.Threw? ==>
      && Valid(r.engine) && Untouched(e, r.engine)
      && r.engine.paramTime == e.paramTime && r.engine.paramFrame == e.paramFrame
      && |r.engine.logs.fps| == |e.logs.fps| + 1
      && r.log.frameCount == e.frameId - e.paramFrame
    ensures r.Returned? ==> r.tick.log.None? && r.tick == Sampled(e, sh, inp, t, duration)
  {
    var p := Push(e, sh, inp, duration);
    var sh1 := Overclock.Settle(sh, p.fps, p.fpsFixed, e.overClock && inp.idleCallbacks);
    if LogDue(p.engine, t) then Threw(p.engine, sh1, Emit(p.engine, t, duration, p.frameCount).log.value)
    else Returned(Conclude(p, sh1, t, duration, inp.now))
  }

  /** `Params` with that logger. */
  function ParamsAsWritten(e: Engine, sh: Overclock.Shared, inp: FrameInput): (r: Outcome)
    requires Valid(e)
    ensures r.Threw? <==> e.frameId + 1 > 1 && Time(inp) >= e.paramTime && LogDue(e, Time(inp))
    ensures r.Threw? ==>
      && Valid(r.engine) && SameConfig(e, r.engine) && r.engine.frameId == e.frameId + 1
      && r.engine.paramTime == e.paramTime && r.engine.paramFrame == e.paramFrame
      && |r.engine.logs.fps| == |e.logs.fps| + 1
    ensures r.Returned? ==> r.tick == Params(e, sh, inp)
  {
    var e1 := e.(frameId := e.frameId + 1);
    var t := Time(inp);
    if e1.frameId > 1 && t >= e.paramTime then
      assert LogDue(e1, t) == LogDue(e, t);
      SampledAsWritten(e1, sh, inp, t, t - e.paramTime)
    else Returned(Params(e, sh, inp))
  }

  /** With the throwing logger, the first emitting frame never restarts the
      period, so the next frame is due again and throws again, one fps
      sample further behind: no later log completes. */
  lemma ThrowingLoggerNeverRecovers(e: Engine, sh: Overclock.Shared, inp: FrameInput, sh2: Overclock.Shared, inp2: FrameInput)
    requires Valid(e) && ParamsAsWritten(e, sh, inp).Threw? && Time(inp2) >= Time(inp)
    ensures var r := ParamsAsWritten(e, sh, inp);
      var r2 := ParamsAsWritten(r.engine, sh2, inp2);
      && r2.Threw? && r2.engine.paramTime == e.paramTime
      && |r2.engine.logs.fps| == |e.logs.fps| + 2
  {
  }

  // ---------------------------------------------------------------- begin / end

  /** `begin(name)`: poll and restart the GPU timer, then toggle the name's flag. */
  function Begin(e: Engine, name: string, ans: GpuQuery.Answers, clock: real): (r: Engine)
    requires Valid(e)
    ensures Valid(r)
    ensures var p := GpuQuery.StartGpu(e.gpu, ans);
      && r.gpu == p.tracker
      && r.acc.names == Registry.AddUI(e.acc, name).names
      && r.acc.activeAccums == Registry.UpdateAccums(e.acc, name).activeAccums
      && (p.ms.None? ==> r.acc.gpuAccums == Registry.AddUI(e.acc, name).gpuAccums)
      && (p.ms.Some? ==>
            && |r.acc.gpuAccums| >= |e.acc.activeAccums|
            && forall i :: 0 <= i < |e.acc.activeAccums| ==> r.acc.gpuAccums[i] == p.ms.value)
    ensures r == e.(gpu := r.gpu, acc := r.acc, t0 := clock)
  {
    var p := GpuQuery.StartGpu(e.gpu, ans);
    e.(gpu := p.tracker, acc := BeginAccums(e.acc, p.ms, name), t0 := clock)
  }

  /** The accumulator half of `begin`: a timer result, when there is one, is
      written to every region that has a flag, running or not, before the
      name's flag toggles. */
  function BeginAccums(a: Registry.Accums, ms: Option<real>, name: string): (r: Registry.Accums)
    requires Registry.Valid(a)
    ensures Registry.Valid(r)
    ensures r.names == Registry.AddUI(a, name).names
    ensures r.activeAccums == Registry.UpdateAccums(a, name).activeAccums
    ensures ms.None? ==> r.gpuAccums == Registry.AddUI(a, name).gpuAccums
    ensures ms.Some? ==>
      && |r.gpuAccums| >= |a.activeAccums|
      && forall i :: 0 <= i < |a.activeAccums| ==> r.gpuAccums[i] == ms.value
  {
    var acc := if ms.Some? then Registry.WriteGpu(a, ms.value) else a;
    assert acc.names == a.names && acc.activeAccums == a.activeAccums;
    var acc2 := Registry.UpdateAccums(acc, name);
    assert acc2.gpuAccums[..|acc.gpuAccums|] == acc.gpuAccums;
    acc2
  }

  datatype Ended = Ended(engine: Engine, endQuery: bool)

  /** `end(name)`: close the timer region if one is open, then toggle the name's flag. */
  function End(e: Engine, name: string, currentQuery: bool, clock: real): (r: Ended)
    requires Valid(e)
    ensures Valid(r.engine)
    ensures r.endQuery <==> GpuQuery.EndGpu(e.gpu, currentQuery)
    ensures r.engine.acc == Registry.UpdateAccums(e.acc, name)
    ensures r.engine == e.(acc := r.engine.acc, t0 := clock)
  {
    Ended(e.(acc := Registry.UpdateAccums(e.acc, name), t0 := clock), GpuQuery.EndGpu(e.gpu, currentQuery))
  }

  /** A disjoint timer result is dropped: after a `begin` whose poll
      reports a disjoint event, the next frame pushes the same gpu sample as
      it would have without that `begin`. */
  lemma DisjointResultNotLogged(e: Engine, name: string, ans: GpuQuery.Answers, clock: real,
                                sh: Overclock.Shared, inp: FrameInput, duration: real)
    requires Valid(e) && ans.disjoint && |e.acc.gpuAccums| > 0
    ensures var b := Begin(e, name, ans, clock);
      Push(b, sh, inp, duration).engine.logs.gpu[|b.logs.gpu|] == Push(e, sh, inp, duration).engine.logs.gpu[|e.logs.gpu|]
  {
  }

  /** A `begin`/`end` pair on a name that already has a flag restores every flag. */
  lemma BeginEndRestoresFlags(e: Engine, name: string, ans: GpuQuery.Answers, currentQuery: bool, c1: real, c2: real)
    requires Valid(e)
    requires Registry.Slot(e.acc, name) < |e.acc.activeAccums|
    ensures End(Begin(e, name, ans, c1), name, currentQuery, c2).engine.acc.activeAccums == e.acc.activeAccums
  {
  }
}
