/** The `paramLogger` closure of the two front ends (src/ThreePerf.ts and
    src/index.ts), the same in both but for the class's closing
    `ui.update()` call: it republishes each emitted log
    snapshot and folds it into running sums and running per-key maxima. */
module Aggregator {
  import opened Wrappers
  import opened JsNum
  import GLPerf

  datatype GlKey = Calls | Triangles | Points | Lines | Counts

  /** `IGLLogger`. */
  datatype GlRecord = GlRecord(calls: int, triangles: int, points: int, lines: int, counts: int) {
    function Get(k: GlKey): int
    {
      match k
      case Calls => calls
      case Triangles => triangles
      case Points => points
      case Lines => lines
      case Counts => counts
    }

    function Set(k: GlKey, v: int): (r: GlRecord)
      ensures r.Get(k) == v
      ensures forall k' :: k' != k ==> r.Get(k') == Get(k')
    {
      match k
      case Calls => this.(calls := v)
      case Triangles => this.(triangles := v)
      case Points => this.(points := v)
      case Lines => this.(lines := v)
      case Counts => this.(counts := v)
    }
  }

  datatype LogKey = I | MaxMemory | Gpu | Mem | Cpu | Fps | Duration | FrameCount

  /** `ILogger`, whose entries may become `NaN` (None). */
  datatype LogRecord = LogRecord(i: Num, maxMemory: Num, gpu: Num, mem: Num, cpu: Num, fps: Num, duration: Num, frameCount: Num) {
    function Get(k: LogKey): Num
    {
      match k
      case I => i
      case MaxMemory => maxMemory
      case Gpu => gpu
      case Mem => mem
      case Cpu => cpu
      case Fps => fps
      case Duration => duration
      case FrameCount => frameCount
    }

    function Set(k: LogKey, v: Num): (r: LogRecord)
      ensures r.Get(k) == v
      ensures forall k' :: k' != k ==> r.Get(k') == Get(k')
    {
      match k
      case I => this.(i := v)
      case MaxMemory => this.(maxMemory := v)
      case Gpu => this.(gpu := v)
      case Mem => this.(mem := v)
      case Cpu => this.(cpu := v)
      case Fps => this.(fps := v)
      case Duration => this.(duration := v)
      case FrameCount => this.(frameCount := v)
    }
  }

  /** The keys whose maxima are tracked (`maxGl`, `maxLog`). */
  const MaxGl: seq<GlKey> := [Calls, Triangles, Points, Lines]
  const MaxLog: seq<LogKey> := [Gpu, Cpu, Mem, Fps]

  predicate GlTracked(k: GlKey)
  {
    k != Counts
  }

  predicate LogTracked(k: LogKey)
  {
    k == Gpu || k == Cpu || k == Mem || k == Fps
  }

  /** The two key lists hold exactly the tracked keys. */
  lemma TrackedKeys()
    ensures forall k :: GlTracked(k) <==> k in MaxGl
    ensures forall k :: LogTracked(k) <==> k in MaxLog
  {
  }

  /** `renderer.info.render`; it has no `counts` entry. */
  datatype RenderInfo = RenderInfo(calls: int, triangles: int, points: int, lines: int) {
    function Get(k: GlKey): int
      requires GlTracked(k)
    {
      match k
      case Calls => calls
      case Triangles => triangles
      case Points => points
      case Lines => lines
    }
  }

  /** `logger[key]` on an emitted snapshot; it has no `i` entry. */
  function SnapshotValue(s: GLPerf.LogSnapshot, k: LogKey): Num
  {
    match k
    case I => None
    case MaxMemory => Some(s.maxMemory)
    case Gpu => s.gpu
    case Mem => s.mem
    case Cpu => s.cpu
    case Fps => s.fps
    case Duration => Some(s.duration as real)
    case FrameCount => Some(s.frameCount as real)
  }

  /** `this.log`, the republished snapshot. */
  datatype PublicLog = PublicLog(maxMemory: real, gpu: Num, cpu: Num, mem: Num, fps: Num, totalTime: int, frameCount: int)

  datatype Accumulated = Accumulated(totalFrames: int, log: LogRecord, gl: GlRecord, maxLog: LogRecord, maxGl: GlRecord)

  function ZeroLog(): LogRecord
  {
    var z := Some(0.0);
    LogRecord(z, z, z, z, z, z, z, z)
  }

  function Initial(): (a: Accumulated)
    ensures a.totalFrames == 0
    ensures forall k :: a.maxLog.Get(k) == Some(0.0) && a.log.Get(k) == Some(0.0)
    ensures forall k :: a.maxGl.Get(k) == 0 && a.gl.Get(k) == 0
  {
    Accumulated(0, ZeroLog(), GlRecord(0, 0, 0, 0, 0), ZeroLog(), GlRecord(0, 0, 0, 0, 0))
  }

  /** The renamed copy of the snapshot: `duration` becomes `totalTime`. */
  function Publish(s: GLPerf.LogSnapshot): (p: PublicLog)
    ensures Unpublish(p) == s
  {
    PublicLog(s.maxMemory, s.gpu, s.cpu, s.mem, s.fps, s.duration, s.frameCount)
  }

  /** Reading a published log back as a snapshot. */
  function Unpublish(p: PublicLog): GLPerf.LogSnapshot
  {
    GLPerf.LogSnapshot(p.cpu, p.gpu, p.mem, p.fps, p.totalTime, p.maxMemory, p.frameCount)
  }

  /** `value > max ? value : max` on renderer counters. */
  function Larger(m: int, v: int): int
  {
    if v > m then v else m
  }

  /** `value > max ? value : max` on possibly-`NaN` numbers: the
      comparison is false when either side is `NaN`. */
  function MaxNum(m: Num, v: Num): Num
  {
    if GtNum(v, m) then v else m
  }

  /** The `maxGl` loop: each listed key is raised to the renderer's value
      when that is larger; a key the renderer lacks compares false. */
  function RaiseGl(max: GlRecord, info: RenderInfo, keys: seq<GlKey>): (r: GlRecord)
    ensures forall k :: k !in keys || !GlTracked(k) ==> r.Get(k) == max.Get(k)
    ensures forall k :: k in keys && GlTracked(k) ==> r.Get(k) == Larger(max.Get(k), info.Get(k))
    decreases |keys|
  {
    if |keys| == 0 then max
    else
      var k := keys[0];
      var raised := if GlTracked(k) && info.Get(k) > max.Get(k) then max.Set(k, info.Get(k)) else max;
      assert keys == [k] + keys[1..];
      RaiseGl(raised, info, keys[1..])
  }

  /** The `maxLog` loop: `value > max[key]` is false when either side is
      `NaN`, so a `NaN` never enters a maximum. */
  function RaiseLog(max: LogRecord, s: GLPerf.LogSnapshot, keys: seq<LogKey>): (r: LogRecord)
    ensures forall k :: k !in keys ==> r.Get(k) == max.Get(k)
    ensures forall k :: k in keys ==> r.Get(k) == MaxNum(max.Get(k), SnapshotValue(s, k))
    decreases |keys|
  {
    if |keys| == 0 then max
    else
      var k := keys[0];
      var v := SnapshotValue(s, k);
      var raised := if GtNum(v, max.Get(k)) then max.Set(k, v) else max;
      assert keys == [k] + keys[1..];
      RaiseLog(raised, s, keys[1..])
  }

  /** The running sums of the renderer counters; `counts` is never summed. */
  function SumGl(gl: GlRecord, info: RenderInfo): (r: GlRecord)
    ensures forall k :: GlTracked(k) ==> r.Get(k) - gl.Get(k) == info.Get(k)
    ensures r.counts == gl.counts
  {
    GlRecord(gl.calls + info.calls, gl.triangles + info.triangles,
             gl.points + info.points, gl.lines + info.lines, gl.counts)
  }

  /** The running sums of the logged values: `+=` on numbers, so a `NaN`
      on either side makes the sum `NaN`. */
  function SumLog(log: LogRecord, s: GLPerf.LogSnapshot): (r: LogRecord)
    ensures forall k :: LogTracked(k) ==> r.Get(k) == AddNum(log.Get(k), SnapshotValue(s, k))
    ensures forall k :: !LogTracked(k) ==> r.Get(k) == log.Get(k)
  {
    log.(gpu := AddNum(log.gpu, s.gpu), cpu := AddNum(log.cpu, s.cpu),
         mem := AddNum(log.mem, s.mem), fps := AddNum(log.fps, s.fps))
  }

  /** The maxima the `maxGl` loop leaves, key by key: each tracked maximum
      dominates its old value and the renderer's, and is one of the two. */
  function MaxGlOf(max: GlRecord, info: RenderInfo): (r: GlRecord)
    ensures forall k :: !GlTracked(k) ==> r.Get(k) == max.Get(k)
    ensures forall k :: GlTracked(k) ==> r.Get(k) >= max.Get(k) && r.Get(k) >= info.Get(k)
    ensures forall k :: GlTracked(k) ==> r.Get(k) == max.Get(k) || r.Get(k) == info.Get(k)
  {
    GlRecord(Larger(max.calls, info.calls), Larger(max.triangles, info.triangles),
             Larger(max.points, info.points), Larger(max.lines, info.lines), max.counts)
  }

  /** The loop over `MaxGl` computes exactly the key-by-key maxima. */
  lemma MaxGlLoopAgrees(max: GlRecord, info: RenderInfo)
    ensures RaiseGl(max, info, MaxGl) == MaxGlOf(max, info)
  {
    var r := RaiseGl(max, info, MaxGl);
    assert MaxGl[0] == Calls && MaxGl[1] == Triangles && MaxGl[2] == Points && MaxGl[3] == Lines;
    assert r.calls == r.Get(Calls) && r.triangles == r.Get(Triangles) && r.points == r.Get(Points)
      && r.lines == r.Get(Lines) && r.counts == r.Get(Counts);
    var q := MaxGlOf(max, info);
    assert r == GlRecord(q.calls, q.triangles, q.points, q.lines, q.counts);
  }

  /** The maxima the `maxLog` loop leaves, key by key: a defined tracked
      maximum stays defined, dominates its old value and every defined
      logged value, and is one of the two. */
  function MaxLogOf(max: LogRecord, s: GLPerf.LogSnapshot): (r: LogRecord)
    ensures forall k :: !LogTracked(k) ==> r.Get(k) == max.Get(k)
    ensures forall k :: LogTracked(k) && max.Get(k).Some? ==>
      && r.Get(k).Some? && r.Get(k).value >= max.Get(k).value
      && (SnapshotValue(s, k).Some? ==> r.Get(k).value >= SnapshotValue(s, k).value)
    ensures forall k :: LogTracked(k) ==> r.Get(k) == max.Get(k) || r.Get(k) == SnapshotValue(s, k)
  {
    max.(gpu := MaxNum(max.gpu, s.gpu), cpu := MaxNum(max.cpu, s.cpu),
         mem := MaxNum(max.mem, s.mem), fps := MaxNum(max.fps, s.fps))
  }

  /** The loop over `MaxLog` computes exactly the key-by-key maxima. */
  lemma MaxLogLoopAgrees(max: LogRecord, s: GLPerf.LogSnapshot)
    ensures RaiseLog(max, s, MaxLog) == MaxLogOf(max, s)
  {
  }

  datatype Logged = Logged(acc: Accumulated, log: PublicLog)

  /** `paramLogger`: one emitted snapshot, with the renderer's counters at that moment. */
  function ParamLogger(a: Accumulated, s: GLPerf.LogSnapshot, info: RenderInfo): (r: Logged)
    ensures r.log == Publish(s)
    ensures r.acc.totalFrames == a.totalFrames + 1
  {
    Logged(Accumulated(a.totalFrames + 1, SumLog(a.log, s), SumGl(a.gl, info),
                       MaxLogOf(a.maxLog, s), MaxGlOf(a.maxGl, info)), Publish(s))
  }

  /** One call of `paramLogger`: the snapshot and the renderer's counters. */
  datatype Call = Call(snapshot: GLPerf.LogSnapshot, info: RenderInfo)

  /** Feeds a run of calls, oldest first. */
  function Feed(a: Accumulated, calls: seq<Call>): Accumulated
    decreases |calls|
  {
    if |calls| == 0 then a
    else
      var last := calls[|calls| - 1];
      ParamLogger(Feed(a, calls[..|calls| - 1]), last.snapshot, last.info).acc
  }

  /** One more call extends the fold by one `paramLogger` step. */
  lemma FeedStep(a: Accumulated, calls: seq<Call>)
    requires |calls| > 0
    ensures var last := calls[|calls| - 1];
      Feed(a, calls) == ParamLogger(Feed(a, calls[..|calls| - 1]), last.snapshot, last.info).acc
  {
  }

  /** `totalFrames` counts the calls. */
  lemma {:induction false} FramesCounted(a: Accumulated, calls: seq<Call>)
    ensures Feed(a, calls).totalFrames == a.totalFrames + |calls|
    decreases |calls|
  {
    if |calls| > 0 {
      FramesCounted(a, calls[..|calls| - 1]);
    }
  }

  /** A tracked log maximum that starts defined stays defined, never
      decreases, and dominates every defined value ever seen for its key. */
  lemma {:induction false} LogMaximumDominates(a: Accumulated, calls: seq<Call>, k: LogKey)
    requires LogTracked(k) && a.maxLog.Get(k).Some?
    ensures var r := Feed(a, calls).maxLog.Get(k);
      && r.Some? && r.value >= a.maxLog.Get(k).value
      && (forall j :: 0 <= j < |calls| && SnapshotValue(calls[j].snapshot, k).Some? ==>
            r.value >= SnapshotValue(calls[j].snapshot, k).value)
    decreases |calls|
  {
    if |calls| > 0 {
      var n := |calls|;
      var p := calls[..n - 1];
      LogMaximumDominates(a, p, k);
      var m := Feed(a, p).maxLog;
      var r := MaxLogOf(m, calls[n - 1].snapshot);
      FeedStep(a, calls);
      forall j | 0 <= j < n - 1 && SnapshotValue(calls[j].snapshot, k).Some?
        ensures r.Get(k).value >= SnapshotValue(calls[j].snapshot, k).value
      {
        assert calls[j] == p[j];
      }
    }
  }

  /** A tracked renderer maximum never decreases and dominates every
      counter value ever seen for its key. */
  lemma {:induction false} GlMaximumDominates(a: Accumulated, calls: seq<Call>, k: GlKey)
    requires GlTracked(k)
    ensures var r := Feed(a, calls).maxGl.Get(k);
      && r >= a.maxGl.Get(k)
      && (forall j :: 0 <= j < |calls| ==> r >= calls[j].info.Get(k))
    decreases |calls|
  {
    if |calls| > 0 {
      var n := |calls|;
      var p := calls[..n - 1];
      GlMaximumDominates(a, p, k);
      var m := Feed(a, p).maxGl;
      FeedStep(a, calls);
      var r := Feed(a, calls).maxGl;
      assert r == MaxGlOf(m, calls[n - 1].info);
      assert r.Get(k) >= m.Get(k) && r.Get(k) >= calls[n - 1].info.Get(k);
      forall j | 0 <= j < n
        ensures r.Get(k) >= calls[j].info.Get(k)
      {
        if j < n - 1 {
          assert calls[j] == p[j];
        }
      }
    }
  }

  /** A sum that has once been `NaN` stays `NaN`: a snapshot with no CPU
      sample poisons the accumulated CPU total for good. */
  lemma {:induction false} NaNSumIsAbsorbing(a: Accumulated, calls: seq<Call>, j: nat)
    requires j < |calls| && calls[j].snapshot.cpu.None?
    ensures Feed(a, calls).log.cpu.None?
    decreases |calls|
  {
    var n := |calls|;
    var p := calls[..n - 1];
    var m := Feed(a, p);
    var last := calls[n - 1];
    FeedStep(a, calls);
    if j < n - 1 {
      assert p[j] == calls[j];
      NaNSumIsAbsorbing(a, p, j);
    }
    assert SumLog(m.log, last.snapshot).cpu == AddNum(m.log.cpu, last.snapshot.cpu);
  }
}
