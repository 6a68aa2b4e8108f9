/** The process-wide overclock state of src/GLPerf.ts (`overLimitFps`) together
    with the two fields of the owning profiler it drives (`perf.overclockingFps`,
    `perf.fpsLimit`), passed explicitly into and out of every step. */
module Overclock {
  import opened Wrappers
  import opened JsNum

  /** The saturation bound of the hysteresis counter `isOverLimit`. */
  const HysteresisBound: int := 25

  /** The idle-callback frame budget, `1000 / 60` milliseconds. */
  const IdleGoal: real := 1000.0 / 60.0

  /** The reference rate separating 60 Hz from faster displays. */
  const ReferenceHz: real := 70.0

  datatype Shared = Shared(
    value: real,                   // overLimitFps.value: the last idle-time estimate
    fpsLimit: real,                // overLimitFps.fpsLimit
    isOverLimit: int,              // overLimitFps.isOverLimit: the hysteresis counter
    overclocking: bool,            // perf.overclockingFps (initially undefined, i.e. falsy)
    perfFpsLimit: Option<real>     // perf.fpsLimit (initially undefined)
  )

  function Initial(): (sh: Shared)
    ensures Bounded(sh) && !sh.overclocking
  {
    Shared(0.0, 60.0, 0, false, None)
  }

  predicate Bounded(sh: Shared)
  {
    0 <= sh.isOverLimit <= HysteresisBound
  }

  /** The uncapped-fps estimate `(goal * fpsLimit) / 10 / elapsed` of one idle callback. */
  function Estimate(fpsLimit: real, timeRemaining: real): (fps: real)
    ensures IdleGoal - timeRemaining != 0.0 ==>
      fps * (IdleGoal - timeRemaining) == IdleGoal * fpsLimit / 10.0
  {
    Quot(IdleGoal * fpsLimit / 10.0, IdleGoal - timeRemaining)
  }

  /** `nextFps`: one idle callback whose deadline reports `timeRemaining`. */
  function NextFps(sh: Shared, timeRemaining: real): (r: Shared)
    ensures Estimate(sh.fpsLimit, timeRemaining) < 0.0 ==> r == sh
    ensures Estimate(sh.fpsLimit, timeRemaining) >= 0.0 ==>
      && r.value == Estimate(sh.fpsLimit, timeRemaining)
      && r.fpsLimit == sh.fpsLimit && r.perfFpsLimit == sh.perfFpsLimit
      && (sh.isOverLimit < HysteresisBound ==> r.isOverLimit == sh.isOverLimit + 1 && r.overclocking == sh.overclocking)
      && (sh.isOverLimit >= HysteresisBound ==> r.isOverLimit == sh.isOverLimit && r.overclocking)
    ensures Bounded(sh) ==> Bounded(r)
    ensures r.overclocking && !sh.overclocking ==> sh.isOverLimit >= HysteresisBound
  {
    var fps := Estimate(sh.fpsLimit, timeRemaining);
    if fps < 0.0 then sh
    else
      var sh1 := sh.(value := fps);
      if sh1.isOverLimit < HysteresisBound then sh1.(isOverLimit := sh1.isOverLimit + 1)
      else sh1.(overclocking := true)
  }

  /** The per-period hysteresis step of `nextFrame`; `enabled` is
      `overClock && requestIdleCallback exists`. */
  function Settle(sh: Shared, fps: real, fpsFixed: real, enabled: bool): (r: Shared)
    ensures r.value == sh.value && r.fpsLimit == sh.fpsLimit && r.perfFpsLimit == sh.perfFpsLimit
    ensures r.isOverLimit == if enabled && sh.isOverLimit > 0 && fps > fpsFixed then sh.isOverLimit - 1 else sh.isOverLimit
    ensures r.overclocking <==> sh.overclocking && !(enabled && sh.isOverLimit <= 0) && !(enabled && fps <= fpsFixed)
    ensures Bounded(sh) ==> Bounded(r)
  {
    if !enabled then sh
    else if sh.isOverLimit > 0 && fps > fpsFixed then sh.(isOverLimit := sh.isOverLimit - 1)
    else if sh.overclocking then sh.(overclocking := false)
    else sh
  }

  /** The two-second recalibration: the fps ceiling snaps to the multiple of
      ten nearest the mean fixed fps; `overLimitFps.fpsLimit` holds it times ten. */
  function Requantize(sh: Shared, meanFixed: real): (r: Shared)
    ensures r.perfFpsLimit.Some?
    ensures var p := r.perfFpsLimit.value;
      && meanFixed - 5.0 < p <= meanFixed + 5.0
      && p == 10.0 * ((p / 10.0).Floor as real)
      && r.fpsLimit == 10.0 * p
    ensures r.value == sh.value && r.isOverLimit == sh.isOverLimit && r.overclocking == sh.overclocking
  {
    var limit := (JsRound(meanFixed / 10.0) * 100) as real;
    var p := limit / 10.0;
    assert p == 10.0 * (JsRound(meanFixed / 10.0) as real);
    assert (p / 10.0).Floor == JsRound(meanFixed / 10.0);
    sh.(fpsLimit := limit, perfFpsLimit := Some(p))
  }

  /** The refresh multiplier of `is120hz` (src/GLPerf.ts:148): `frames` animation
      frames spanning `elapsed` milliseconds, bucketed by multiples of 70 Hz. */
  function RefreshMultiplier(frames: nat, elapsed: real): (m: int)
    ensures elapsed > 0.0 ==>
      var rate := (1000 * frames) as real / elapsed;
      ReferenceHz * ((m - 1) as real) < rate <= ReferenceHz * (m as real)
    ensures elapsed > 0.0 && frames > 0 ==> m >= 1
  {
    var rate := Quot((1000 * frames) as real, elapsed);
    assert elapsed > 0.0 ==> rate >= 0.0;
    Ceil(rate / ReferenceHz)
  }

  /** A run of idle callbacks. */
  function IdleRun(sh: Shared, deadlines: seq<real>): Shared
    decreases |deadlines|
  {
    if |deadlines| == 0 then sh else IdleRun(NextFps(sh, deadlines[0]), deadlines[1..])
  }

  /** The flag is only raised after the counter has climbed all the way to its
      bound: from a counter `c`, more than `25 - c` idle callbacks are needed,
      so a single outlier cannot flip it. */
  lemma {:induction false} FlagNeedsSaturation(sh: Shared, deadlines: seq<real>)
    requires Bounded(sh) && !sh.overclocking
    requires IdleRun(sh, deadlines).overclocking
    ensures |deadlines| > HysteresisBound - sh.isOverLimit
    decreases |deadlines|
  {
    var next := NextFps(sh, deadlines[0]);
    if !next.overclocking {
      FlagNeedsSaturation(next, deadlines[1..]);
    }
  }

  datatype Event = Idle(timeRemaining: real) | Period(fps: real, fpsFixed: real, enabled: bool)

  function Apply(sh: Shared, ev: Event): Shared
  {
    match ev
    case Idle(d) => NextFps(sh, d)
    case Period(fps, fixed, enabled) => Settle(sh, fps, fixed, enabled)
  }

  function Replay(sh: Shared, evs: seq<Event>): Shared
    decreases |evs|
  {
    if |evs| == 0 then sh else Replay(Apply(sh, evs[0]), evs[1..])
  }

  /** However idle callbacks and frame periods interleave, the counter stays in [0, 25]. */
  lemma {:induction false} CounterStaysBounded(sh: Shared, evs: seq<Event>)
    requires Bounded(sh)
    ensures Bounded(Replay(sh, evs))
    decreases |evs|
  {
    if |evs| > 0 {
      CounterStaysBounded(Apply(sh, evs[0]), evs[1..]);
    }
  }
}
