/** JavaScript number helpers shared by every component: the rounding
    functions of `Math`, the mean of a sample queue, and a `Num` type whose
    `None` stands for `NaN` where the profiler lets a `NaN` flow on. */
module JsNum {
  import opened Wrappers

  /** A JavaScript number that may be `NaN` (None). */
  type Num = Option<real>

  /** Division where a zero divisor yields 0 instead of an IEEE infinity. */
  function Quot(a: real, b: real): (r: real)
    ensures b != 0.0 ==> r * b == a
  {
    if b == 0.0 then 0.0 else a / b
  }

  /** `Math.round`: the nearest integer, halves rounded up. */
  function JsRound(x: real): (r: int)
    ensures x - 0.5 < r as real <= x + 0.5
  {
    (x + 0.5).Floor
  }

  /** `Math.ceil`: the least integer not below `x`. */
  function Ceil(x: real): (r: int)
    ensures x <= r as real < x + 1.0
  {
    -((-x).Floor)
  }

  /** Left-to-right sum, the order of `arr.reduce((a, b) => a + b, 0)`. */
  function Sum(s: seq<real>): real
  {
    if |s| == 0 then 0.0 else Sum(s[..|s| - 1]) + s[|s| - 1]
  }

  /** `average` of src/GLPerf.ts: the mean of a queue, `NaN` (None) when empty. */
  function Average(s: seq<real>): (r: Option<real>)
    ensures r.Some? <==> |s| > 0
    ensures r.Some? ==> r.value * (|s| as real) == Sum(s)
  {
    if |s| == 0 then None else Some(Sum(s) / (|s| as real))
  }

  /** `a + b` on JavaScript numbers: NaN absorbs. */
  function AddNum(a: Num, b: Num): (r: Num)
    ensures r.Some? <==> a.Some? && b.Some?
    ensures r.Some? ==> r.value - a.value == b.value
  {
    if a.Some? && b.Some? then Some(a.value + b.value) else None
  }

  /** `a > b` on JavaScript numbers: false whenever either side is NaN. */
  predicate GtNum(a: Num, b: Num)
  {
    a.Some? && b.Some? && a.value > b.value
  }

  lemma {:induction false} SumBounds(s: seq<real>, lo: real, hi: real)
    requires forall i :: 0 <= i < |s| ==> lo <= s[i] <= hi
    ensures lo * (|s| as real) <= Sum(s) <= hi * (|s| as real)
  {
    if |s| > 0 {
      var p := s[..|s| - 1];
      assert forall i :: 0 <= i < |p| ==> p[i] == s[i];
      SumBounds(p, lo, hi);
      assert (|s| as real) == (|p| as real) + 1.0;
    }
  }

  /** The mean of a non-empty queue lies between the queue's bounds. */
  lemma AverageBounds(s: seq<real>, lo: real, hi: real)
    requires |s| > 0
    requires forall i :: 0 <= i < |s| ==> lo <= s[i] <= hi
    ensures Average(s).Some? && lo <= Average(s).value <= hi
  {
    SumBounds(s, lo, hi);
    var n := |s| as real;
    var m := Average(s).value;
    assert m * n == Sum(s);
  }

  /** A queue holding one value throughout averages to that value. */
  lemma AverageOfConstant(s: seq<real>, c: real)
    requires |s| > 0
    requires forall i :: 0 <= i < |s| ==> s[i] == c
    ensures Average(s) == Some(c)
  {
    AverageBounds(s, c, c);
  }

  /** Pushing one sample onto a queue adds exactly that sample to its sum. */
  lemma SumPush(s: seq<real>, x: real)
    ensures Sum(s + [x]) == Sum(s) + x
  {
  }
}
