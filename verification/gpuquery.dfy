/** The `EXT_disjoint_timer_query_webgl2` state machine of `startGpu` and
    `endGpu` in src/GLPerf.ts. The WebGL calls are oracle answers: whether
    the polled query's result is available, whether the GPU reported a
    disjoint event, and the elapsed nanoseconds. Query objects are numbered
    in creation order. */
module GpuQuery {
  import opened Wrappers

  const NsPerMs: real := 1000000.0

  datatype Tracker = Tracker(
    hasGl: bool,               // a WebGL context was supplied
    hasExt: bool,              // `getExtension` returned the timer-query extension
    isWebGL2: bool,
    query: Option<nat>,        // `this.query`: the last query created (never cleared)
    queryCreated: bool,
    queryHasResult: bool,
    created: nat               // number of queries created so far; the next handle
  )

  /** Answers the GPU gives to one poll. */
  datatype Answers = Answers(available: bool, disjoint: bool, ns: real)

  /** The outcome of one `startGpu`: the tracker, the query handed to
      `deleteQuery`, the query created and begun, and the milliseconds
      written to `gpuAccums`. */
  datatype Poll = Poll(tracker: Tracker, deleted: Option<nat>, begun: Option<nat>, ms: Option<real>)

  /** `initGpu`: `isWebGL2` becomes false only when a context lacks the extension. */
  function Init(hasGl: bool, extAvailable: bool): (q: Tracker)
    ensures q.hasExt <==> hasGl && extAvailable
    ensures !q.isWebGL2 <==> hasGl && !extAvailable
    ensures q.query.None? && !q.queryCreated && q.created == 0
  {
    Tracker(hasGl, hasGl && extAvailable, !(hasGl && !extAvailable), None, false, false, 0)
  }

  /** Whether `startGpu` gets past its guards at all. */
  predicate Enabled(q: Tracker)
  {
    q.hasGl && q.hasExt && q.isWebGL2
  }

  /** Every handle ever given out is below `created`, and `queryCreated`
      is set exactly when a query has been created. */
  predicate Valid(q: Tracker)
  {
    (q.query.Some? ==> q.query.value < q.created) && (q.queryCreated <==> q.query.Some?)
  }

  function StartGpu(q: Tracker, ans: Answers): (p: Poll)
    requires Valid(q)
    ensures Valid(p.tracker)
    ensures p.tracker.hasGl == q.hasGl && p.tracker.hasExt == q.hasExt && p.tracker.isWebGL2 == q.isWebGL2
    ensures !Enabled(q) ==> p == Poll(q, None, None, None)
    ensures p.deleted.Some? <==> Enabled(q) && q.query.Some? && ans.available && !ans.disjoint
    ensures p.deleted.Some? ==> p.deleted == q.query
    ensures p.ms.Some? <==> p.deleted.Some? && ans.ns > 0.0
    ensures p.ms.Some? ==> p.ms.value * NsPerMs == ans.ns
    ensures p.begun.Some? <==> Enabled(q) && (q.query.None? || ans.available)
    ensures p.begun.Some? ==>
      && p.begun.value == q.created && p.tracker.query == p.begun
      && p.tracker.created == q.created + 1 && p.tracker.queryCreated
    ensures p.begun.None? ==> p.tracker.query == q.query && p.tracker.created == q.created
  {
    if !(q.hasGl && q.hasExt) || !q.isWebGL2 then Poll(q, None, None, None)
    else
      var q1 := if q.query.Some? then q.(queryHasResult := false) else q;
      var available := q.query.Some? && ans.available;
      var valid := available && !ans.disjoint;
      var ms := ans.ns / NsPerMs;
      var deleted := if valid then q.query else None;
      var written := if valid && ms > 0.0 then Some(ms) else None;
      if available || q.query.None? then
        var q2 := q1.(queryCreated := true, query := Some(q.created), created := q.created + 1);
        Poll(q2, deleted, Some(q.created), written)
      else Poll(q1, deleted, None, written)
  }

  /** `endGpu`: whether `endQuery` is issued, given the oracle answer of
      `getQuery(TIME_ELAPSED_EXT, CURRENT_QUERY)`. */
  function EndGpu(q: Tracker, currentQuery: bool): (ended: bool)
    ensures ended ==> q.queryCreated && q.isWebGL2
    ensures ended <==> q.isWebGL2 && q.queryCreated && currentQuery
  {
    q.isWebGL2 && q.queryCreated && currentQuery
  }

  /** `endQuery` only ever closes a query that `startGpu` created and began:
      from `initGpu` on, the tracker holds one whenever `endGpu` issues it. */
  lemma EndClosesBegunQuery(hasGl: bool, extAvailable: bool, answers: seq<Answers>, currentQuery: bool)
    ensures var q := Run(Init(hasGl, extAvailable), {}, answers).0;
      EndGpu(q, currentQuery) ==> q.query.Some? && q.query.value < q.created
  {
  }

  /** No query has been begun before the first `startGpu`, so `endGpu`
      issues nothing. */
  lemma NoEndBeforeStart(hasGl: bool, extAvailable: bool, currentQuery: bool)
    ensures !EndGpu(Init(hasGl, extAvailable), currentQuery)
  {
  }

  /** Query objects created and not yet deleted, after one `startGpu`. */
  function Live(live: set<nat>, p: Poll): set<nat>
  {
    var kept := if p.deleted.Some? then live - {p.deleted.value} else live;
    if p.begun.Some? then kept + {p.begun.value} else kept
  }

  /** Polls a sequence of frames, returning the tracker and the live query set. */
  function Run(q: Tracker, live: set<nat>, answers: seq<Answers>): (r: (Tracker, set<nat>))
    requires Valid(q)
    ensures Valid(r.0)
    decreases |answers|
  {
    if |answers| == 0 then (q, live)
    else
      var p := StartGpu(q, answers[0]);
      Run(p.tracker, Live(live, p), answers[1..])
  }

  predicate NoDisjointResult(answers: seq<Answers>)
  {
    forall i :: 0 <= i < |answers| ==> !(answers[i].available && answers[i].disjoint)
  }

  /** Without a disjoint result, at most one query object is alive at a time:
      the one held in `this.query`. */
  lemma {:induction false} AtMostOneLiveQuery(q: Tracker, live: set<nat>, answers: seq<Answers>)
    requires Valid(q)
    requires live <= (if q.query.Some? then {q.query.value} else {})
    requires NoDisjointResult(answers)
    ensures var r := Run(q, live, answers);
      r.1 <= (if r.0.query.Some? then {r.0.query.value} else {})
    decreases |answers|
  {
    if |answers| > 0 {
      var p := StartGpu(q, answers[0]);
      assert NoDisjointResult(answers[1..]) by {
        forall i | 0 <= i < |answers[1..]|
          ensures !(answers[1..][i].available && answers[1..][i].disjoint)
        {
          assert answers[1..][i] == answers[i + 1];
        }
      }
      AtMostOneLiveQuery(p.tracker, Live(live, p), answers[1..]);
    }
  }

  /** A disjoint result is dropped without deleting its query, yet a new
      query is begun: the old query object stays alive beside the new one. */
  lemma DisjointResultKeepsQueryAlive(q: Tracker, ans: Answers)
    requires Valid(q) && Enabled(q) && q.query.Some?
    requires ans.available && ans.disjoint
    ensures var p := StartGpu(q, ans);
      && p.deleted.None? && p.ms.None? && p.begun.Some?
      && Live({q.query.value}, p) == {q.query.value, p.begun.value}
      && q.query.value != p.begun.value
  {
  }
}
