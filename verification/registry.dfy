/** The named-measurement registry of src/GLPerf.ts: `names`, `gpuAccums` and
    `activeAccums`, grown by `addUI` and toggled by `updateAccums`.

    The three arrays start out of step: `names` holds the empty name while the
    other two are empty, and an assignment one past the end of `activeAccums`
    appends `!undefined`, i.e. `true`. */
module Registry {
  import opened Wrappers

  datatype Accums = Accums(names: seq<string>, gpuAccums: seq<real>, activeAccums: seq<bool>)

  function Initial(): (a: Accums)
    ensures Valid(a)
  {
    Accums([""], [], [])
  }

  predicate NoDup(s: seq<string>)
  {
    forall i, j :: 0 <= i < j < |s| ==> s[i] != s[j]
  }

  /** `activeAccums` lags `names` by at most one entry, and no name is registered twice. */
  predicate Valid(a: Accums)
  {
    && |a.names| >= 1
    && |a.names| - 1 <= |a.activeAccums| <= |a.names|
    && NoDup(a.names)
  }

  /** `Array.prototype.indexOf`: the first position of `n`, or -1. */
  function IndexOf(names: seq<string>, n: string): (r: int)
    ensures -1 <= r < |names|
    ensures r == -1 <==> n !in names
    ensures r >= 0 ==> names[r] == n && n !in names[..r]
  {
    if |names| == 0 then -1
    else if names[|names| - 1] == n && n !in names[..|names| - 1] then |names| - 1
    else
      assert names == names[..|names| - 1] + [names[|names| - 1]];
      IndexOf(names[..|names| - 1], n)
  }

  /** `addUI`: registers a name that is not yet present. */
  function AddUI(a: Accums, name: string): (r: Accums)
    ensures name in a.names ==> r == a
    ensures name !in a.names ==>
      && r.names == a.names + [name]
      && r.gpuAccums == a.gpuAccums + [0.0]
      && r.activeAccums == a.activeAccums + [false]
    ensures NoDup(a.names) ==> NoDup(r.names)
  {
    if IndexOf(a.names, name) == -1 then
      Accums(a.names + [name], a.gpuAccums + [0.0], a.activeAccums + [false])
    else a
  }

  /** `flags[i] = !flags[i]`, where index `|flags|` reads `undefined`. */
  function Toggle(flags: seq<bool>, i: nat): (r: seq<bool>)
    requires i <= |flags|
    ensures |r| == if i < |flags| then |flags| else |flags| + 1
    ensures r[i] == !(i < |flags| && flags[i])
    ensures forall j :: 0 <= j < |flags| && j != i ==> r[j] == flags[j]
  {
    if i < |flags| then flags[i := !flags[i]] else flags + [true]
  }

  /** The slot `updateAccums` toggles: the name's index, or the next free one. */
  function Slot(a: Accums, name: string): (i: nat)
    requires Valid(a)
    ensures name in a.names ==> i < |a.names| && a.names[i] == name
    ensures name !in a.names ==> i == |a.names|
  {
    var k := IndexOf(a.names, name);
    if k == -1 then |a.names| else k
  }

  /** `updateAccums`: registers the name if needed, then toggles its flag. */
  function UpdateAccums(a: Accums, name: string): (r: Accums)
    requires Valid(a)
    ensures Valid(r)
    ensures r.names == AddUI(a, name).names
    ensures r.gpuAccums == AddUI(a, name).gpuAccums
    ensures |r.activeAccums| >= |a.activeAccums|
    ensures var i := Slot(a, name);
      && i < |r.activeAccums| && r.names[i] == name
      && r.activeAccums[i] == !(i < |a.activeAccums| && a.activeAccums[i])
      && (forall j :: 0 <= j < |a.activeAccums| && j != i ==> r.activeAccums[j] == a.activeAccums[j])
    ensures var n := |AddUI(a, name).activeAccums|;
      |r.activeAccums| == if Slot(a, name) < n then n else n + 1
    ensures forall j :: |a.activeAccums| <= j < |r.activeAccums| && j != Slot(a, name) ==> !r.activeAccums[j]
  {
    var i := Slot(a, name);
    var b := AddUI(a, name);
    b.(activeAccums := Toggle(b.activeAccums, i))
  }

  /** The write-back of a valid timer result: every index of `activeAccums`
      receives `ms` (the `forEach` assigns, possibly one past the end of
      `gpuAccums`); other entries keep their value. */
  function WriteGpu(a: Accums, ms: real): (r: Accums)
    ensures r.names == a.names && r.activeAccums == a.activeAccums
    ensures |r.gpuAccums| == if |a.gpuAccums| < |a.activeAccums| then |a.activeAccums| else |a.gpuAccums|
    ensures forall i :: 0 <= i < |a.activeAccums| ==> r.gpuAccums[i] == ms
    ensures forall i :: |a.activeAccums| <= i < |a.gpuAccums| ==> r.gpuAccums[i] == a.gpuAccums[i]
  {
    var n := if |a.gpuAccums| < |a.activeAccums| then |a.activeAccums| else |a.gpuAccums|;
    a.(gpuAccums := seq(n, i requires 0 <= i < n => if i < |a.activeAccums| then ms else a.gpuAccums[i]))
  }

  /** `gpuAccums[i]`, None where the source reads `undefined`. */
  function At(a: Accums, i: nat): (r: Option<real>)
    ensures r.Some? <==> i < |a.gpuAccums|
    ensures r.Some? ==> r.value == a.gpuAccums[i]
  {
    if i < |a.gpuAccums| then Some(a.gpuAccums[i]) else None
  }

  /** `gpuAccums[0] = 0`, which appends when the array is still empty. */
  function ResetHead(a: Accums): (r: Accums)
    ensures r.names == a.names && r.activeAccums == a.activeAccums
    ensures |r.gpuAccums| >= 1 && r.gpuAccums[0] == 0.0
    ensures |r.gpuAccums| == if |a.gpuAccums| == 0 then 1 else |a.gpuAccums|
    ensures forall i :: 1 <= i < |a.gpuAccums| ==> r.gpuAccums[i] == a.gpuAccums[i]
  {
    if |a.gpuAccums| == 0 then a.(gpuAccums := [0.0]) else a.(gpuAccums := a.gpuAccums[0 := 0.0])
  }

  /** Two `updateAccums` calls on one name, as a `begin`/`end` pair makes,
      leave the flags exactly as they were when the name already had a flag,
      and leave its new flag false otherwise. */
  lemma TogglePairRestores(a: Accums, name: string)
    requires Valid(a)
    ensures var r := UpdateAccums(UpdateAccums(a, name), name);
      && r.names == AddUI(a, name).names
      && (Slot(a, name) < |a.activeAccums| ==> r.activeAccums == a.activeAccums)
      && r.activeAccums[Slot(a, name)] == (Slot(a, name) < |a.activeAccums| && a.activeAccums[Slot(a, name)])
  {
  }

  function UpdateAll(a: Accums, calls: seq<string>): (r: Accums)
    requires Valid(a)
    ensures Valid(r)
    ensures |r.names| >= |a.names| && r.names[..|a.names|] == a.names
    decreases |calls|
  {
    if |calls| == 0 then a
    else
      var b := UpdateAccums(a, calls[0]);
      var r := UpdateAll(b, calls[1..]);
      assert r.names[..|a.names|] == r.names[..|b.names|][..|a.names|];
      r
  }

  /** Any sequence of `begin`/`end` calls registers exactly the names used, once each. */
  lemma {:induction false} RegistryHoldsCalledNames(a: Accums, calls: seq<string>)
    requires Valid(a)
    ensures NoDup(UpdateAll(a, calls).names)
    ensures forall n :: n in calls ==> n in UpdateAll(a, calls).names
    ensures forall n :: n in UpdateAll(a, calls).names ==> n in a.names || n in calls
    decreases |calls|
  {
    if |calls| > 0 {
      var b := UpdateAccums(a, calls[0]);
      RegistryHoldsCalledNames(b, calls[1..]);
      var r := UpdateAll(b, calls[1..]);
      assert calls == [calls[0]] + calls[1..];
      assert forall n :: n in b.names ==> n in r.names by {
        forall n | n in b.names ensures n in r.names {
          var k :| 0 <= k < |b.names| && b.names[k] == n;
          assert r.names[..|b.names|][k] == n;
        }
      }
    }
  }
}
