/** The chart ring buffer of src/GLPerf.ts: four arrays (`fpsChart`,
    `gpuChart`, `cpuChart`, `memChart`) of a fixed length sharing one write
    cursor `circularId`. */
module ChartRing {
  import opened Wrappers
  import JsNum

  /** The buffer length. The constructor never copies `settings.chartLen`,
      so the field initialiser 60 is the length in effect. */
  const Len: nat := 60

  datatype Metric = Fps | Gpu | Cpu | Mem

  /** The values one chart iteration computes; None stands for a value
      that is `NaN` or infinite in the source. */
  datatype Sample = Sample(fps: real, gpu: Option<real>, cpu: real, mem: Option<real>)

  datatype Ring = Ring(fps: seq<real>, gpu: seq<real>, cpu: seq<real>, mem: seq<real>, circularId: nat)

  predicate Valid(r: Ring)
  {
    |r.fps| == Len && |r.gpu| == Len && |r.cpu| == Len && |r.mem| == Len
  }

  /** The four arrays as built by the constructor: `new Array(chartLen).fill(0)`. */
  function Empty(): (r: Ring)
    ensures Valid(r) && r.circularId == 0
    ensures forall i :: 0 <= i < Len ==> r.fps[i] == 0.0 && r.gpu[i] == 0.0 && r.cpu[i] == 0.0 && r.mem[i] == 0.0
  {
    var z := seq(Len, _ => 0.0);
    Ring(z, z, z, z, 0)
  }

  function Cells(r: Ring, m: Metric): seq<real>
  {
    match m
    case Fps => r.fps
    case Gpu => r.gpu
    case Cpu => r.cpu
    case Mem => r.mem
  }

  /** The value a sample writes into metric `m`'s cell: fps always, the
      others only when strictly positive. */
  function Written(s: Sample, m: Metric): (v: Option<real>)
    ensures m == Fps ==> v == Some(s.fps)
    ensures m != Fps && v.Some? ==> v.value > 0.0
    ensures m == Gpu ==> (v.Some? <==> s.gpu.Some? && s.gpu.value > 0.0) && (v.Some? ==> v == s.gpu)
    ensures m == Cpu ==> (v.Some? <==> s.cpu > 0.0) && (v.Some? ==> v.value == s.cpu)
    ensures m == Mem ==> (v.Some? <==> s.mem.Some? && s.mem.value > 0.0) && (v.Some? ==> v == s.mem)
  {
    match m
    case Fps => Some(s.fps)
    case Gpu => if s.gpu.Some? && s.gpu.value > 0.0 then s.gpu else None
    case Cpu => if s.cpu > 0.0 then Some(s.cpu) else None
    case Mem => if s.mem.Some? && s.mem.value > 0.0 then s.mem else None
  }

  function Put(a: seq<real>, k: nat, v: Option<real>): (b: seq<real>)
    requires k < |a|
    ensures |b| == |a|
    ensures b[k] == if v.Some? then v.value else a[k]
    ensures forall i :: 0 <= i < |a| && i != k ==> b[i] == a[i]
  {
    if v.Some? then a[k := v.value] else a
  }

  /** One iteration of the chart loop: write the slot `circularId % Len`, then advance the cursor. */
  function Write(r: Ring, s: Sample): (w: Ring)
    requires Valid(r)
    ensures Valid(w) && w.circularId == r.circularId + 1
    ensures forall m: Metric, i :: 0 <= i < Len ==>
      Cells(w, m)[i] == if i == r.circularId % Len && Written(s, m).Some? then Written(s, m).value else Cells(r, m)[i]
  {
    var k := r.circularId % Len;
    Ring(Put(r.fps, k, Written(s, Fps)), Put(r.gpu, k, Written(s, Gpu)),
         Put(r.cpu, k, Written(s, Cpu)), Put(r.mem, k, Written(s, Mem)), r.circularId + 1)
  }

  /** The iterations of one tick, in order. */
  function WriteAll(r: Ring, ss: seq<Sample>): (w: Ring)
    requires Valid(r)
    ensures Valid(w) && w.circularId == r.circularId + |ss|
    decreases |ss|
  {
    if |ss| == 0 then r else Write(WriteAll(r, ss[..|ss| - 1]), ss[|ss| - 1])
  }

  /** Position arithmetic on the ring: the slot written last is the one at distance 0. */
  lemma Distance(c: nat, i: nat)
    requires i < Len
    ensures (c - i) % Len == 0 <==> i == c % Len
    ensures i != c % Len ==> (c - 1 - i) % Len == (c - i) % Len - 1
  {
  }

  /** The ring holds the most recent samples: fps cell `i` holds the sample
      written `(circularId - 1 - i) mod Len` iterations before the last one,
      or its old value when fewer samples were written since. In particular,
      after `Len` or more writes it holds only the last `Len` samples. */
  lemma {:induction false} FpsHoldsLatest(r: Ring, ss: seq<Sample>, i: nat)
    requires Valid(r) && i < Len
    ensures var w := WriteAll(r, ss);
      var back := (w.circularId - 1 - i) % Len;
      w.fps[i] == if back < |ss| then ss[|ss| - 1 - back].fps else r.fps[i]
    decreases |ss|
  {
    if |ss| > 0 {
      var n := |ss|;
      var p := ss[..n - 1];
      var m := WriteAll(r, p);
      var w := WriteAll(r, ss);
      assert w == Write(m, ss[n - 1]);
      var c := m.circularId;
      assert w.fps[i] == if i == c % Len then ss[n - 1].fps else m.fps[i] by {
        assert Cells(w, Fps) == w.fps && Cells(m, Fps) == m.fps;
        assert Written(ss[n - 1], Fps) == Some(ss[n - 1].fps);
      }
      Distance(c, i);
      var back := (c - i) % Len;
      assert (w.circularId - 1 - i) % Len == back by {
        assert w.circularId - 1 - i == c - i;
      }
      if i == c % Len {
        assert back == 0;
        assert w.fps[i] == ss[n - 1 - back].fps;
      } else {
        FpsHoldsLatest(r, p, i);
        assert (m.circularId - 1 - i) % Len == back - 1;
        if back < n {
          assert ss[n - 1 - back] == p[|p| - 1 - (back - 1)];
          assert w.fps[i] == ss[n - 1 - back].fps;
        } else {
          assert w.fps[i] == r.fps[i];
        }
      }
    }
  }

  /** Every cell holds its old value or a value some sample wrote there;
      so gpu, cpu and mem cells only ever receive strictly positive values. */
  lemma {:induction false} CellsComeFromSamples(r: Ring, ss: seq<Sample>, m: Metric, i: nat)
    requires Valid(r) && i < Len
    ensures var w := WriteAll(r, ss);
      || Cells(w, m)[i] == Cells(r, m)[i]
      || exists j :: 0 <= j < |ss| && Written(ss[j], m) == Some(Cells(w, m)[i])
    decreases |ss|
  {
    if |ss| > 0 {
      var n := |ss|;
      var p := ss[..n - 1];
      var mid := WriteAll(r, p);
      CellsComeFromSamples(r, p, m, i);
      var w := WriteAll(r, ss);
      if Cells(w, m)[i] != Cells(mid, m)[i] {
        assert Written(ss[n - 1], m) == Some(Cells(w, m)[i]);
      } else if Cells(mid, m)[i] != Cells(r, m)[i] {
        var j :| 0 <= j < |p| && Written(p[j], m) == Some(Cells(mid, m)[i]);
        assert ss[j] == p[j];
      }
    }
  }

  /** The number of iterations of `while (--hz > 0)`: the positive integers below `hz`. */
  function ChartIterations(hz: real): (n: nat)
    ensures n == 0 || (n as real) < hz
    ensures hz <= (n + 1) as real
  {
    if hz <= 1.0 then 0 else JsNum.Ceil(hz) - 1
  }

  /** The chart loop's pre-decrement test transcribed literally; it runs
      exactly `ChartIterations(hz)` times. */
  method CountIterations(hz0: real) returns (n: nat)
    ensures n == ChartIterations(hz0)
  {
    var hz := hz0;
    n := 0;
    hz := hz - 1.0;
    while hz > 0.0
      invariant hz == hz0 - (n + 1) as real
      invariant n <= ChartIterations(hz0)
      decreases ChartIterations(hz0) - n
    {
      n := n + 1;
      hz := hz - 1.0;
    }
  }
}
