/** The scene hooks and `afterRender` of the two front ends, src/ThreePerf.ts
    and src/index.ts. The prototype patching is modelled as explicit hook
    functions: a hook turns into a sequence of steps on the engine, and an
    interpreter runs those steps against the engine, the shared overclock
    state and the statistics aggregator. The host's answers for one hook
    invocation (clock, heap, GPU answers, renderer counters) are a parameter. */
module Hooks {
  import opened Wrappers
  import Overclock
  import GpuQuery
  import GLPerf
  import Aggregator

  /** The two front ends: the `ThreePerf` class of src/ThreePerf.ts, which
      honours `userData.useStats`, and the package entry src/index.ts. */
  datatype FrontEnd = ThreePerfClass | IndexEntry

  /** `scene.userData.useStats`: only an explicit `false` switches the hooks off. */
  datatype UseStats = Unset | Given(enabled: bool)

  predicate Gated(u: UseStats)
  {
    u != Given(false)
  }

  datatype Scene = Scene(id: nat, useStats: UseStats)

  /** One effect of a hook, in the order the hook performs it. */
  datatype Step =
    | BeginProfiler        // perfEngine.begin('profiler')
    | EndProfiler          // perfEngine.end('profiler')
    | NextFrame            // perfEngine.nextFrame(performance.now())
    | RequestIdle          // requestIdleCallback(perfEngine.nextFps)
    | MarkCpuStarted       // performance.mark('cpu-started'); startCpuProfiling = true
    | Forward(callback: nat)  // the user's own callback for the scene

  /** The callbacks a step list forwards, in order. */
  function Forwards(s: seq<Step>): seq<nat>
    decreases |s|
  {
    if |s| == 0 then []
    else (if s[0].Forward? then [s[0].callback] else []) + Forwards(s[1..])
  }

  /** How many times a step occurs in a step list. */
  function Count(s: seq<Step>, x: Step): nat
    decreases |s|
  {
    if |s| == 0 then 0 else (if s[0] == x then 1 else 0) + Count(s[1..], x)
  }

  lemma {:induction false} CountAppend(a: seq<Step>, b: seq<Step>, x: Step)
    ensures Count(a + b, x) == Count(a, x) + Count(b, x)
    decreases |a|
  {
    if |a| > 0 {
      assert (a + b)[0] == a[0];
      assert (a + b)[1..] == a[1..] + b;
      CountAppend(a[1..], b, x);
    } else {
      assert a + b == b;
    }
  }

  lemma {:induction false} CountAbsent(s: seq<Step>, x: Step)
    requires x !in s
    ensures Count(s, x) == 0
    decreases |s|
  {
    if |s| > 0 {
      assert x !in s[1..] by {
        assert forall i :: 0 <= i < |s[1..]| ==> s[1..][i] == s[i + 1];
      }
      CountAbsent(s[1..], x);
    }
  }

  /** `afterRender`: the frame and the idle request only while not paused;
      the `ThreePerf` class then always ends the profiler region and arms CPU
      profiling. */
  function AfterRenderSteps(fe: FrontEnd, paused: bool, overClock: bool, idleAvailable: bool): (s: seq<Step>)
    ensures Count(s, NextFrame) == if paused then 0 else 1
    ensures RequestIdle in s <==> !paused && overClock && idleAvailable
    ensures !paused ==> s[0] == NextFrame
    ensures BeginProfiler !in s && forall i :: 0 <= i < |s| ==> !s[i].Forward?
    ensures fe == ThreePerfClass ==> |s| >= 2 && s[|s| - 2] == EndProfiler && s[|s| - 1] == MarkCpuStarted
    ensures fe == IndexEntry ==> EndProfiler !in s && MarkCpuStarted !in s
  {
    var frame := if paused then [] else [NextFrame] + (if overClock && idleAvailable then [RequestIdle] else []);
    assert Count(frame, NextFrame) == if paused then 0 else 1 by {
      if !paused {
        CountAppend([NextFrame], if overClock && idleAvailable then [RequestIdle] else [], NextFrame);
        CountAbsent(if overClock && idleAvailable then [RequestIdle] else [], NextFrame);
      }
    }
    if fe == ThreePerfClass then
      CountAppend(frame, [EndProfiler, MarkCpuStarted], NextFrame);
      CountAbsent([EndProfiler, MarkCpuStarted], NextFrame);
      frame + [EndProfiler, MarkCpuStarted]
    else frame
  }

  /** The stored callback, forwarded when the setter has stored one for the scene. */
  function ForwardStored(callbacks: map<nat, nat>, scene: nat): (s: seq<Step>)
    ensures Forwards(s) == if scene in callbacks then [callbacks[scene]] else []
    ensures |s| <= 1 && forall i :: 0 <= i < |s| ==> s[i].Forward?
  {
    if scene in callbacks then [Forward(callbacks[scene])] else []
  }

  /** The getter of `onBeforeRender`. */
  function BeforeSteps(fe: FrontEnd, scene: Scene, callbacks: map<nat, nat>): (s: seq<Step>)
    ensures BeginProfiler in s <==> fe == IndexEntry || Gated(scene.useStats)
    ensures BeginProfiler in s ==> s[0] == BeginProfiler
    ensures Forwards(s) == if scene.id in callbacks then [callbacks[scene.id]] else []
    ensures scene.id in callbacks ==> |s| > 0 && s[|s| - 1] == Forward(callbacks[scene.id])
    ensures NextFrame !in s && MarkCpuStarted !in s && EndProfiler !in s
  {
    var fwd := ForwardStored(callbacks, scene.id);
    if fe == IndexEntry || Gated(scene.useStats) then [BeginProfiler] + fwd else fwd
  }

  /** The getter of `onAfterRender`: src/index.ts ends the profiler region
      before `afterRender`; the `ThreePerf` class runs `afterRender`, which
      ends it, only for scenes with stats on. */
  function AfterSteps(fe: FrontEnd, scene: Scene, callbacks: map<nat, nat>,
                      paused: bool, overClock: bool, idleAvailable: bool): (s: seq<Step>)
    ensures Forwards(s) == if scene.id in callbacks then [callbacks[scene.id]] else []
    ensures scene.id in callbacks ==> |s| > 0 && s[|s| - 1] == Forward(callbacks[scene.id])
    ensures BeginProfiler !in s
  {
    var fwd := ForwardStored(callbacks, scene.id);
    var body := AfterRenderSteps(fe, paused, overClock, idleAvailable);
    NoForwards(body);
    ForwardsAppend(body, fwd);
    if fe == IndexEntry then
      ForwardsAppend([EndProfiler], body + fwd);
      [EndProfiler] + (body + fwd)
    else if Gated(scene.useStats) then body + fwd
    else fwd
  }

  /** In src/index.ts the after-hook ends the profiler region first and
      exactly once, runs one frame unless paused, and never arms CPU profiling. */
  lemma IndexAfterSteps(scene: Scene, callbacks: map<nat, nat>, paused: bool, overClock: bool, idleAvailable: bool)
    ensures var s := AfterSteps(IndexEntry, scene, callbacks, paused, overClock, idleAvailable);
      && |s| > 0 && s[0] == EndProfiler && Count(s, EndProfiler) == 1
      && Count(s, NextFrame) == (if paused then 0 else 1)
      && MarkCpuStarted !in s
  {
    var fwd := ForwardStored(callbacks, scene.id);
    var body := AfterRenderSteps(IndexEntry, paused, overClock, idleAvailable);
    var s := [EndProfiler] + (body + fwd);
    assert AfterSteps(IndexEntry, scene, callbacks, paused, overClock, idleAvailable) == s;
    CountAppend([EndProfiler], body + fwd, EndProfiler);
    CountAppend([EndProfiler], body + fwd, NextFrame);
    CountAppend(body, fwd, EndProfiler);
    CountAppend(body, fwd, NextFrame);
    CountAbsent(body, EndProfiler);
    CountAbsent(fwd, EndProfiler);
    CountAbsent(fwd, NextFrame);
  }

  /** In the `ThreePerf` class, a scene with stats on gets `afterRender`
      (one frame unless paused, then CPU profiling armed); a scene with
      stats off gets only its own callback. */
  lemma ThreePerfAfterSteps(scene: Scene, callbacks: map<nat, nat>, paused: bool, overClock: bool, idleAvailable: bool)
    ensures var s := AfterSteps(ThreePerfClass, scene, callbacks, paused, overClock, idleAvailable);
      && (Gated(scene.useStats) ==>
            && Count(s, NextFrame) == (if paused then 0 else 1)
            && MarkCpuStarted in s)
      && (!Gated(scene.useStats) ==> Count(s, NextFrame) == 0 && forall i :: 0 <= i < |s| ==> s[i].Forward?)
  {
    var fwd := ForwardStored(callbacks, scene.id);
    var body := AfterRenderSteps(ThreePerfClass, paused, overClock, idleAvailable);
    if Gated(scene.useStats) {
      var s := body + fwd;
      assert AfterSteps(ThreePerfClass, scene, callbacks, paused, overClock, idleAvailable) == s;
      CountAppend(body, fwd, NextFrame);
      CountAbsent(fwd, NextFrame);
      assert s[|body| - 1] == MarkCpuStarted;
    } else {
      CountAbsent(fwd, NextFrame);
    }
  }

  lemma {:induction false} NoForwards(s: seq<Step>)
    requires forall i :: 0 <= i < |s| ==> !s[i].Forward?
    ensures Forwards(s) == []
    decreases |s|
  {
    if |s| > 0 {
      NoForwards(s[1..]);
    }
  }

  lemma {:induction false} ForwardsAppend(a: seq<Step>, b: seq<Step>)
    ensures Forwards(a + b) == Forwards(a) + Forwards(b)
    decreases |a|
  {
    if |a| > 0 {
      var head := if a[0].Forward? then [a[0].callback] else [];
      assert (a + b)[0] == a[0];
      assert (a + b)[1..] == a[1..] + b;
      ForwardsAppend(a[1..], b);
      calc {
        Forwards(a + b);
        head + Forwards(a[1..] + b);
        head + (Forwards(a[1..]) + Forwards(b));
        (head + Forwards(a[1..])) + Forwards(b);
        Forwards(a) + Forwards(b);
      }
    } else {
      assert a + b == b;
    }
  }

  // ---------------------------------------------------------------- running the steps

  /** What the host answers during one hook invocation. */
  datatype Host = Host(
    frame: GLPerf.FrameInput,          // performance.now(), the heap and the cpu measure
    answers: GpuQuery.Answers,         // the timer query's answers at `begin`
    currentQuery: bool,                // whether a timer query is open at `end`
    clock: real,                       // the engine's clock at `begin`/`end`
    info: Aggregator.RenderInfo)       // renderer.info.render when a log is emitted

  /** Everything a front end's hooks touch. */
  datatype World = World(
    engine: GLPerf.Engine,
    shared: Overclock.Shared,
    acc: Aggregator.Accumulated,
    log: Option<Aggregator.PublicLog>,      // this.log
    chart: Option<GLPerf.ChartSnapshot>,    // this.chart
    idleRequests: nat,                      // idle callbacks requested and not yet run
    detector: GLPerf.Detector,              // the refresh-rate detector's frame loop
    forwarded: seq<nat>)                    // user callbacks called so far, in order

  /** One step. A log emitted by `nextFrame` goes through `paramLogger`; a
      chart goes to `chartLogger`. */
  function Do(w: World, step: Step, host: Host): (r: World)
    requires GLPerf.Valid(w.engine)
    ensures GLPerf.Valid(r.engine)
    ensures r.engine.frameId == w.engine.frameId + (if step == NextFrame then 1 else 0)
    ensures r.forwarded == w.forwarded + (if step.Forward? then [step.callback] else [])
    ensures step == MarkCpuStarted ==> r.engine.startCpuProfiling
    ensures step != MarkCpuStarted && !w.engine.startCpuProfiling && w.engine.logs.cpu == [] ==>
      !r.engine.startCpuProfiling && r.engine.logs.cpu == []
    ensures step.Forward? ==> r == w.(forwarded := r.forwarded)
    ensures GLPerf.SameConfig(w.engine, r.engine)
  {
    match step
    case BeginProfiler =>
      w.(engine := GLPerf.Begin(w.engine, "profiler", host.answers, host.clock))
    case EndProfiler =>
      w.(engine := GLPerf.End(w.engine, "profiler", host.currentQuery, host.clock).engine)
    case NextFrame =>
      var t := GLPerf.NextFrame(w.engine, w.shared, host.frame);
      var w1 := w.(engine := t.engine, shared := t.shared,
                   chart := if t.chart.Some? then t.chart else w.chart);
      if t.log.Some? then
        var logged := Aggregator.ParamLogger(w.acc, t.log.value, host.info);
        w1.(acc := logged.acc, log := Some(logged.log))
      else w1
    case RequestIdle =>
      w.(idleRequests := w.idleRequests + 1)
    case MarkCpuStarted =>
      w.(engine := w.engine.(startCpuProfiling := true))
    case Forward(c) =>
      w.(forwarded := w.forwarded + [c])
  }

  function Run(w: World, steps: seq<Step>, host: Host): (r: World)
    requires GLPerf.Valid(w.engine)
    ensures GLPerf.Valid(r.engine)
    ensures GLPerf.SameConfig(w.engine, r.engine)
    decreases |steps|
  {
    if |steps| == 0 then w else Run(Do(w, steps[0], host), steps[1..], host)
  }

  lemma {:induction false} RunAppend(w: World, a: seq<Step>, b: seq<Step>, host: Host)
    requires GLPerf.Valid(w.engine)
    ensures Run(w, a + b, host) == Run(Run(w, a, host), b, host)
    decreases |a|
  {
    if |a| > 0 {
      assert (a + b)[0] == a[0];
      assert (a + b)[1..] == a[1..] + b;
      RunAppend(Do(w, a[0], host), a[1..], b, host);
    } else {
      assert a + b == b;
    }
  }

  /** The frame counter advances once per `NextFrame` step. */
  lemma {:induction false} RunCountsFrames(w: World, s: seq<Step>, host: Host)
    requires GLPerf.Valid(w.engine)
    ensures Run(w, s, host).engine.frameId == w.engine.frameId + Count(s, NextFrame)
    decreases |s|
  {
    if |s| > 0 {
      assert s == [s[0]] + s[1..];
      RunCountsFrames(Do(w, s[0], host), s[1..], host);
    }
  }

  lemma AppendAssoc(a: seq<nat>, b: seq<nat>, c: seq<nat>)
    ensures (a + b) + c == a + (b + c)
  {
  }

  /** The user callbacks are called exactly as the steps forward them. */
  lemma {:induction false} RunForwards(w: World, s: seq<Step>, host: Host)
    requires GLPerf.Valid(w.engine)
    ensures Run(w, s, host).forwarded == w.forwarded + Forwards(s)
    decreases |s|
  {
    if |s| > 0 {
      RunForwards(Do(w, s[0], host), s[1..], host);
      AppendAssoc(w.forwarded, if s[0].Forward? then [s[0].callback] else [], Forwards(s[1..]));
    }
  }

  /** Steps that only forward callbacks change nothing else. */
  lemma {:induction false} RunOnlyForwards(w: World, s: seq<Step>, host: Host)
    requires GLPerf.Valid(w.engine)
    requires forall i :: 0 <= i < |s| ==> s[i].Forward?
    ensures Run(w, s, host) == w.(forwarded := w.forwarded + Forwards(s))
    decreases |s|
  {
    if |s| > 0 {
      RunOnlyForwards(Do(w, s[0], host), s[1..], host);
      AppendAssoc(w.forwarded, [s[0].callback], Forwards(s[1..]));
    }
  }

  /** CPU profiling not armed and no CPU sample queued. */
  predicate Quiet(e: GLPerf.Engine)
  {
    !e.startCpuProfiling && e.logs.cpu == []
  }

  /** Without a `MarkCpuStarted` step, a quiet engine stays quiet. */
  lemma {:induction false} RunStaysQuiet(w: World, s: seq<Step>, host: Host)
    requires GLPerf.Valid(w.engine) && Quiet(w.engine)
    requires MarkCpuStarted !in s
    ensures Quiet(Run(w, s, host).engine)
    decreases |s|
  {
    if |s| > 0 {
      assert MarkCpuStarted !in s[1..] by {
        assert forall x :: x in s[1..] ==> x in s;
      }
      RunStaysQuiet(Do(w, s[0], host), s[1..], host);
    }
  }

  // ---------------------------------------------------------------- the front ends

  /** The options both constructors read. */
  datatype Options = Options(overClock: Option<bool>, logsPerSecond: Option<real>)

  /** The engine settings a front end's constructor builds: `overClock`
      defaults to true; `logsPerSecond ?? 10` and then `|| 10`, so 0 also
      becomes 10. The `ThreePerf` class passes chart settings the engine ignores. */
  function Configure(fe: FrontEnd, opts: Options, hasGl: bool, extAvailable: bool): (s: GLPerf.Settings)
    ensures s.trackGPU
    ensures s.overClock <==> opts.overClock != Some(false)
    ensures s.logsPerSecond == 10.0 <==> opts.logsPerSecond.None? || opts.logsPerSecond == Some(0.0) || opts.logsPerSecond == Some(10.0)
    ensures s.logsPerSecond != 10.0 ==> Some(s.logsPerSecond) == opts.logsPerSecond
    ensures s.logsPerSecond != 0.0
    ensures s.hasGl == hasGl && s.extAvailable == extAvailable
  {
    var lps := opts.logsPerSecond.GetOr(10.0);
    GLPerf.Settings(true, opts.overClock.GetOr(true), if lps == 0.0 then 10.0 else lps, hasGl, extAvailable,
                    if fe == ThreePerfClass then Some(120) else None,
                    if fe == ThreePerfClass then Some(60.0) else None)
  }

  /** A front end: its world and the callbacks the two setters stored per scene. */
  datatype Perf = Perf(fe: FrontEnd, world: World, before: map<nat, nat>, after: map<nat, nat>)

  function Start(fe: FrontEnd, opts: Options, hasGl: bool, extAvailable: bool): (p: Perf)
    ensures GLPerf.Valid(p.world.engine) && Quiet(p.world.engine)
    ensures p.world.engine.overClock == Configure(fe, opts, hasGl, extAvailable).overClock
    ensures p.before == map[] && p.after == map[] && p.world.forwarded == []
  {
    var e := GLPerf.New(Configure(fe, opts, hasGl, extAvailable));
    Perf(fe, World(e, Overclock.Initial(), Aggregator.Initial(), None, None, 0, GLPerf.Detector(0), []), map[], map[])
  }

  datatype Event =
    | SetBeforeRender(sceneId: nat, callback: nat)   // scene.onBeforeRender = callback
    | SetAfterRender(sceneId: nat, callback: nat)    // scene.onAfterRender = callback
    | BeforeRender(scene: Scene, host: Host)         // the renderer calls scene.onBeforeRender
    | AfterRender(scene: Scene, host: Host)          // the renderer calls scene.onAfterRender
    | IdleCallback(timeRemaining: real)              // a requested idle callback runs `nextFps`
    | AnimationFrame(time: real)                     // an animation frame reaches the detector loop

  function HookSteps(p: Perf, ev: Event): seq<Step>
    requires ev.BeforeRender? || ev.AfterRender?
  {
    if ev.BeforeRender? then BeforeSteps(p.fe, ev.scene, p.before)
    else AfterSteps(p.fe, ev.scene, p.after, p.world.engine.paused, p.world.engine.overClock, ev.host.frame.idleCallbacks)
  }

  function Apply(p: Perf, ev: Event): (r: Perf)
    requires GLPerf.Valid(p.world.engine)
    ensures GLPerf.Valid(r.world.engine) && r.fe == p.fe
    ensures r.world.engine.paused == p.world.engine.paused
  {
    match ev
    case SetBeforeRender(id, cb) => p.(before := p.before[id := cb])
    case SetAfterRender(id, cb) => p.(after := p.after[id := cb])
    case BeforeRender(_, host) => p.(world := Run(p.world, HookSteps(p, ev), host))
    case AfterRender(_, host) => p.(world := Run(p.world, HookSteps(p, ev), host))
    case IdleCallback(d) =>
      if p.world.idleRequests == 0 then p
      else p.(world := p.world.(shared := Overclock.NextFps(p.world.shared, d), idleRequests := p.world.idleRequests - 1))
    case AnimationFrame(t) =>
      var r := GLPerf.DetectFrame(p.world.engine, p.world.detector, t);
      p.(world := p.world.(engine := r.0, detector := r.1))
  }

  function Replay(p: Perf, evs: seq<Event>): (r: Perf)
    requires GLPerf.Valid(p.world.engine)
    ensures GLPerf.Valid(r.world.engine) && r.fe == p.fe
    decreases |evs|
  {
    if |evs| == 0 then p else Replay(Apply(p, evs[0]), evs[1..])
  }

  // ---------------------------------------------------------------- properties of the hooks

  /** Steps that arm CPU profiling and afterwards only forward callbacks
      leave it armed. */
  lemma {:induction false} RunArmsAt(w: World, s: seq<Step>, j: nat, host: Host)
    requires GLPerf.Valid(w.engine)
    requires j < |s| && s[j] == MarkCpuStarted
    requires forall i :: j < i < |s| ==> s[i].Forward?
    ensures Run(w, s, host).engine.startCpuProfiling
    decreases |s|
  {
    if j == 0 {
      assert forall i :: 0 <= i < |s[1..]| ==> s[1..][i] == s[i + 1];
      RunOnlyForwards(Do(w, s[0], host), s[1..], host);
    } else {
      RunArmsAt(Do(w, s[0], host), s[1..], j - 1, host);
    }
  }

  /** The after-hook steps of the `ThreePerf` class for a scene with stats
      on leave CPU profiling armed, whatever callback follows them. */
  lemma ThreePerfAfterStepsArm(w: World, scene: Scene, callbacks: map<nat, nat>, paused: bool, overClock: bool,
                               idleAvailable: bool, host: Host)
    requires GLPerf.Valid(w.engine) && Gated(scene.useStats)
    ensures Run(w, AfterSteps(ThreePerfClass, scene, callbacks, paused, overClock, idleAvailable), host).engine.startCpuProfiling
  {
    var body := AfterRenderSteps(ThreePerfClass, paused, overClock, idleAvailable);
    var fwd := ForwardStored(callbacks, scene.id);
    var s := body + fwd;
    assert AfterSteps(ThreePerfClass, scene, callbacks, paused, overClock, idleAvailable) == s;
    assert s[|body| - 1] == MarkCpuStarted;
    assert forall i :: |body| - 1 < i < |s| ==> s[i] == fwd[i - |body|];
    RunArmsAt(w, s, |body| - 1, host);
  }

  /** In the `ThreePerf` class, a render with stats on leaves CPU profiling armed. */
  lemma ThreePerfAfterRenderArmsCpu(p: Perf, scene: Scene, host: Host)
    requires GLPerf.Valid(p.world.engine) && p.fe == ThreePerfClass && Gated(scene.useStats)
    ensures Apply(p, AfterRender(scene, host)).world.engine.startCpuProfiling
  {
    var e := p.world.engine;
    var s := AfterSteps(ThreePerfClass, scene, p.after, e.paused, e.overClock, host.frame.idleCallbacks);
    assert Apply(p, AfterRender(scene, host)).world == Run(p.world, s, host);
    ThreePerfAfterStepsArm(p.world, scene, p.after, e.paused, e.overClock, host.frame.idleCallbacks, host);
  }

  /** In the `ThreePerf` class, a scene with `useStats === false` gets only
      its own callbacks: the engine and everything else is untouched. */
  lemma ThreePerfStatsOffOnlyForwards(p: Perf, scene: Scene, host: Host, after: bool)
    requires GLPerf.Valid(p.world.engine) && p.fe == ThreePerfClass && !Gated(scene.useStats)
    ensures var ev := if after then AfterRender(scene, host) else BeforeRender(scene, host);
      var callbacks := if after then p.after else p.before;
      Apply(p, ev).world == p.world.(forwarded := p.world.forwarded + (if scene.id in callbacks then [callbacks[scene.id]] else []))
  {
    var ev := if after then AfterRender(scene, host) else BeforeRender(scene, host);
    RunOnlyForwards(p.world, HookSteps(p, ev), host);
  }

  /** A render's after-hook advances the frame counter by one exactly when the
      engine is not paused and the hook is active for the scene. */
  lemma AfterRenderAdvancesFrame(p: Perf, scene: Scene, host: Host)
    requires GLPerf.Valid(p.world.engine)
    ensures var active := p.fe == IndexEntry || Gated(scene.useStats);
      Apply(p, AfterRender(scene, host)).world.engine.frameId
        == p.world.engine.frameId + (if active && !p.world.engine.paused then 1 else 0)
  {
    var e := p.world.engine;
    var s := AfterSteps(p.fe, scene, p.after, e.paused, e.overClock, host.frame.idleCallbacks);
    assert Apply(p, AfterRender(scene, host)).world == Run(p.world, s, host);
    RunCountsFrames(p.world, s, host);
    if p.fe == IndexEntry {
      IndexAfterSteps(scene, p.after, e.paused, e.overClock, host.frame.idleCallbacks);
    } else {
      ThreePerfAfterSteps(scene, p.after, e.paused, e.overClock, host.frame.idleCallbacks);
    }
  }

  /** The before-hook never advances the frame counter. */
  lemma BeforeRenderKeepsFrame(p: Perf, scene: Scene, host: Host)
    requires GLPerf.Valid(p.world.engine)
    ensures Apply(p, BeforeRender(scene, host)).world.engine.frameId == p.world.engine.frameId
  {
    var s := HookSteps(p, BeforeRender(scene, host));
    RunCountsFrames(p.world, s, host);
    CountAbsent(s, NextFrame);
  }

  /** A render's after-hook calls the callback stored for its scene, and calls it last. */
  lemma AfterRenderForwardsStored(q: Perf, scene: Scene, host: Host)
    requires GLPerf.Valid(q.world.engine) && scene.id in q.after
    ensures var s := HookSteps(q, AfterRender(scene, host));
      && Apply(q, AfterRender(scene, host)).world.forwarded == q.world.forwarded + [q.after[scene.id]]
      && s[|s| - 1] == Forward(q.after[scene.id])
  {
    var s := HookSteps(q, AfterRender(scene, host));
    assert Apply(q, AfterRender(scene, host)).world == Run(q.world, s, host);
    RunForwards(q.world, s, host);
  }

  /** A render's before-hook calls the callback stored for its scene, and calls it last. */
  lemma BeforeRenderForwardsStored(q: Perf, scene: Scene, host: Host)
    requires GLPerf.Valid(q.world.engine) && scene.id in q.before
    ensures var s := HookSteps(q, BeforeRender(scene, host));
      && Apply(q, BeforeRender(scene, host)).world.forwarded == q.world.forwarded + [q.before[scene.id]]
      && s[|s| - 1] == Forward(q.before[scene.id])
  {
    var s := HookSteps(q, BeforeRender(scene, host));
    assert Apply(q, BeforeRender(scene, host)).world == Run(q.world, s, host);
    RunForwards(q.world, s, host);
  }

  /** The callback a setter stores is the one the next render forwards, and
      it is the last thing the hook does. */
  lemma StoredCallbackIsForwarded(p: Perf, scene: Scene, cb: nat, host: Host, after: bool)
    requires GLPerf.Valid(p.world.engine)
    ensures var setter := if after then SetAfterRender(scene.id, cb) else SetBeforeRender(scene.id, cb);
      var render := if after then AfterRender(scene, host) else BeforeRender(scene, host);
      var q := Apply(p, setter);
      && Apply(q, render).world.forwarded == p.world.forwarded + [cb]
      && HookSteps(q, render)[|HookSteps(q, render)| - 1] == Forward(cb)
  {
    var setter := if after then SetAfterRender(scene.id, cb) else SetBeforeRender(scene.id, cb);
    var q := Apply(p, setter);
    assert q.world == p.world;
    if after {
      AfterRenderForwardsStored(q, scene, host);
    } else {
      BeforeRenderForwardsStored(q, scene, host);
    }
  }

  /** Through src/index.ts no hook ever arms CPU profiling, so no CPU sample
      is ever queued, whatever the renders, setters and idle callbacks. */
  lemma {:induction false} IndexNeverSamplesCpu(p: Perf, evs: seq<Event>)
    requires GLPerf.Valid(p.world.engine) && p.fe == IndexEntry && Quiet(p.world.engine)
    ensures Quiet(Replay(p, evs).world.engine)
    decreases |evs|
  {
    if |evs| > 0 {
      var ev := evs[0];
      if ev.BeforeRender? || ev.AfterRender? {
        RunStaysQuiet(p.world, HookSteps(p, ev), ev.host);
      }
      IndexNeverSamplesCpu(Apply(p, ev), evs[1..]);
    }
  }
}
