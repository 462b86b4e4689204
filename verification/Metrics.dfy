/**
 The API's request metrics: counters, two bounded sample buffers and quantiles.
 */
module Metrics {
  import opened Options

  const MAX_LAT_SAMPLES := 512
  const MAX_DBQ_SAMPLES := 256

  function LastOf<T>(xs: seq<T>, n: nat): seq<T> {
    if |xs| <= n then xs else xs[|xs| - n..]
  }

  /** Dropping from the front after every push keeps the last `n` of all that was pushed. */
  lemma PushKeepsLast<T>(all: seq<T>, x: T, n: nat)
    ensures LastOf(LastOf(all, n) + [x], n) == LastOf(all + [x], n)
  {
  }

  /** `push`, then `splice` what exceeds the capacity off the front. */
  method Push<T>(buffer: seq<T>, x: T, capacity: nat, ghost all: seq<T>) returns (pushed: seq<T>)
    requires buffer == LastOf(all, capacity)
    ensures pushed == LastOf(all + [x], capacity) && |pushed| <= capacity
  {
    pushed := buffer + [x];
    if |pushed| > capacity { pushed := pushed[|pushed| - capacity..]; }
    PushKeepsLast(all, x, capacity);
  }

  // ---------- quantiles ----------

  function Below(xs: seq<int>, v: int): (n: nat)
    ensures n <= |xs|
  {
    if xs == [] then 0 else Below(xs[..|xs| - 1], v) + if xs[|xs| - 1] < v then 1 else 0
  }

  function AtMost(xs: seq<int>, v: int): nat {
    if xs == [] then 0 else AtMost(xs[..|xs| - 1], v) + if xs[|xs| - 1] <= v then 1 else 0
  }

  /** `v` stands at position `k` when the samples are put in order. */
  ghost predicate IsRank(xs: seq<int>, k: nat, v: int) {
    v in xs && Below(xs, v) <= k < AtMost(xs, v)
  }

  /** The position that a percentile reads. */
  function Position(p: nat, n: nat): (k: nat)
    requires n > 0
    ensures k < n
  {
    var k := p * n / 100;
    if k > n - 1 then n - 1 else k
  }

  lemma {:induction false} BelowIsAtMost(xs: seq<int>, v: int, w: int)
    requires w < v
    ensures AtMost(xs, w) <= Below(xs, v)
  {
    if xs != [] { BelowIsAtMost(xs[..|xs| - 1], v, w); }
  }

  /** There is only one value at a position, and later positions hold no smaller values. */
  lemma RanksOrdered(xs: seq<int>, j: nat, k: nat, v: int, w: int)
    requires j <= k && IsRank(xs, j, v) && IsRank(xs, k, w)
    ensures v <= w && (j == k ==> v == w)
  {
    if w < v { BelowIsAtMost(xs, v, w); }
    if v < w { BelowIsAtMost(xs, w, v); }
  }

  lemma ProductMonotone(p: nat, q: nat, n: nat)
    requires p <= q
    ensures p * n <= q * n
  {
  }

  lemma PercentileMonotone(xs: seq<int>, p: nat, q: nat, v: int, w: int)
    requires xs != [] && p <= q
    requires IsRank(xs, Position(p, |xs|), v) && IsRank(xs, Position(q, |xs|), w)
    ensures v <= w
  {
    ProductMonotone(p, q, |xs|);
    RanksOrdered(xs, Position(p, |xs|), Position(q, |xs|), v, w);
  }

  ghost predicate Ordered(xs: seq<int>) {
    forall i, j | 0 <= i < j < |xs| :: xs[i] <= xs[j]
  }

  /** In an ordered list the element at a position has that rank. */
  lemma {:induction false} OrderedRank(xs: seq<int>, k: nat, v: int)
    requires Ordered(xs) && k < |xs|
    ensures xs[k] <= v ==> AtMost(xs, v) > k
    ensures xs[k] >= v ==> Below(xs, v) <= k
  {
    var n := |xs| - 1;
    if k < n {
      OrderedRank(xs[..n], k, v);
    } else if xs[k] <= v {
      AllAtMost(xs[..n], v);
    }
  }

  lemma {:induction false} AllAtMost(xs: seq<int>, v: int)
    requires forall i | 0 <= i < |xs| :: xs[i] <= v
    ensures AtMost(xs, v) == |xs|
  {
    if xs != [] { AllAtMost(xs[..|xs| - 1], v); }
  }

  // ---------- ranks by counting ----------

  lemma {:induction false} BelowCounts(xs: seq<int>, v: int)
    ensures Below(xs, v) == |set i | 0 <= i < |xs| && xs[i] < v|
  {
    if xs != [] {
      var n := |xs| - 1;
      var ys := xs[..n];
      BelowCounts(ys, v);
      assert (set i | 0 <= i < |xs| && xs[i] < v) == (set i | 0 <= i < |ys| && ys[i] < v) + if xs[n] < v then {n} else {};
    }
  }

  lemma {:induction false} AtMostCounts(xs: seq<int>, v: int)
    ensures AtMost(xs, v) == |set i | 0 <= i < |xs| && xs[i] <= v|
  {
    if xs != [] {
      var n := |xs| - 1;
      var ys := xs[..n];
      AtMostCounts(ys, v);
      assert (set i | 0 <= i < |xs| && xs[i] <= v) == (set i | 0 <= i < |ys| && ys[i] <= v) + if xs[n] <= v then {n} else {};
    }
  }

  /**
   At most p percent of the samples are less than `v`, and more than p percent are
   at most `v`, or all of them.
   */
  ghost predicate IsPercentile(xs: seq<int>, p: nat, v: int) {
    && v in xs
    && 100 * |set i | 0 <= i < |xs| && xs[i] < v| <= p * |xs|
    && (|| 100 * |set i | 0 <= i < |xs| && xs[i] <= v| > p * |xs|
        || forall i | 0 <= i < |xs| :: xs[i] <= v)
  }

  lemma PositionBounds(p: nat, n: nat)
    requires n > 0
    ensures 100 * Position(p, n) <= p * n
    ensures 100 * (Position(p, n) + 1) > p * n || Position(p, n) == n - 1
  {
  }

  lemma {:induction false} AllAtMostWhen(xs: seq<int>, v: int)
    requires AtMost(xs, v) == |xs|
    ensures forall i | 0 <= i < |xs| :: xs[i] <= v
  {
    if xs != [] {
      AtMostLength(xs[..|xs| - 1], v);
      AllAtMostWhen(xs[..|xs| - 1], v);
    }
  }

  lemma {:induction false} AtMostLength(xs: seq<int>, v: int)
    ensures AtMost(xs, v) <= |xs|
  {
    if xs != [] { AtMostLength(xs[..|xs| - 1], v); }
  }

  lemma RankIsPercentile(xs: seq<int>, p: nat, v: int)
    requires xs != [] && IsRank(xs, Position(p, |xs|), v)
    ensures IsPercentile(xs, p, v)
  {
    PositionBounds(p, |xs|);
    BelowCounts(xs, v);
    AtMostCounts(xs, v);
    AtMostLength(xs, v);
    if AtMost(xs, v) == |xs| { AllAtMostWhen(xs, v); }
  }

  // ---------- counting does not depend on order ----------

  lemma {:induction false} CountsOfInsert(xs: seq<int>, i: nat, x: int, v: int)
    requires i <= |xs|
    ensures Below(xs[..i] + [x] + xs[i..], v) == Below(xs, v) + if x < v then 1 else 0
    ensures AtMost(xs[..i] + [x] + xs[i..], v) == AtMost(xs, v) + if x <= v then 1 else 0
    decreases |xs|
  {
    var ys := xs[..i] + [x] + xs[i..];
    if i == |xs| {
      assert ys[..|ys| - 1] == xs;
    } else {
      var n := |xs| - 1;
      CountsOfInsert(xs[..n], i, x, v);
      assert ys[..|ys| - 1] == xs[..n][..i] + [x] + xs[..n][i..];
    }
  }

  method Insert(sorted: seq<int>, x: int) returns (more: seq<int>)
    requires Ordered(sorted)
    ensures Ordered(more) && |more| == |sorted| + 1
    ensures forall v :: v in more <==> v in sorted || v == x
    ensures forall v :: Below(more, v) == Below(sorted, v) + if x < v then 1 else 0
    ensures forall v :: AtMost(more, v) == AtMost(sorted, v) + if x <= v then 1 else 0
  {
    var i := 0;
    while i < |sorted| && sorted[i] < x
      invariant 0 <= i <= |sorted| && forall j | 0 <= j < i :: sorted[j] < x
    {
      i := i + 1;
    }
    more := sorted[..i] + [x] + sorted[i..];
    forall v
      ensures Below(more, v) == Below(sorted, v) + if x < v then 1 else 0
      ensures AtMost(more, v) == AtMost(sorted, v) + if x <= v then 1 else 0
    {
      CountsOfInsert(sorted, i, x, v);
    }
  }

  method Sort(xs: seq<int>) returns (sorted: seq<int>)
    ensures Ordered(sorted) && |sorted| == |xs|
    ensures forall v :: v in sorted <==> v in xs
    ensures forall v :: Below(sorted, v) == Below(xs, v) && AtMost(sorted, v) == AtMost(xs, v)
  {
    sorted := [];
    for i := 0 to |xs|
      invariant Ordered(sorted) && |sorted| == i
      invariant forall v :: v in sorted <==> v in xs[..i]
      invariant forall v :: Below(sorted, v) == Below(xs[..i], v) && AtMost(sorted, v) == AtMost(xs[..i], v)
    {
      assert xs[..i + 1][..i] == xs[..i];
      sorted := Insert(sorted, xs[i]);
    }
    assert xs[..|xs|] == xs;
  }

  /** Copies, sorts and indexes; the answer is defined by the samples alone, whatever their order. */
  method Percentile(samples: seq<int>, p: nat) returns (r: Option<int>)
    ensures r.None? <==> samples == []
    ensures r.Some? ==> IsRank(samples, Position(p, |samples|), r.value) && IsPercentile(samples, p, r.value)
  {
    var sorted := Sort(samples);
    var n := |sorted|;
    if n == 0 { return None; }
    var idx := Position(p, n);
    r := Some(sorted[idx]);
    OrderedRank(sorted, idx, sorted[idx]);
    RankIsPercentile(samples, p, sorted[idx]);
  }

  class MetricsService {
    var requestTotal: nat
    var errorTotal: nat
    var latencies: seq<int>
    var dbQueriesPerRequest: seq<nat>
    ghost var durations: seq<int>
    ghost var queries: seq<nat>

    /** The buffers hold the last samples of everything recorded. */
    ghost predicate Valid()
      reads this
    {
      && requestTotal == |durations| == |queries| && errorTotal <= requestTotal
      && latencies == LastOf(durations, 512)
      && dbQueriesPerRequest == LastOf(queries, 256)
    }

    constructor ()
      ensures Valid() && durations == [] && queries == []
    {
      requestTotal, errorTotal, latencies, dbQueriesPerRequest, durations, queries := 0, 0, [], [], [], [];
    }

    method RecordRequest(statusCode: int, durationMs: int, dbQueryCount: Option<nat>)
      requires Valid()
      modifies this
      ensures Valid()
      ensures durations == old(durations) + [durationMs]
      ensures queries == old(queries) + [if dbQueryCount.Some? then dbQueryCount.value else 0]
      ensures errorTotal == old(errorTotal) + if statusCode >= 500 then 1 else 0
    {
      requestTotal := requestTotal + 1;
      if statusCode >= 500 { errorTotal := errorTotal + 1; }
      latencies := Push(latencies, durationMs, MAX_LAT_SAMPLES, durations);
      var dq := if dbQueryCount.Some? then dbQueryCount.value else 0;
      dbQueriesPerRequest := Push(dbQueriesPerRequest, dq, MAX_DBQ_SAMPLES, queries);
      durations, queries := durations + [durationMs], queries + [dq];
    }

    /** The three latency percentiles are those of the last 512 requests, and in order. */
    method LatencyPercentiles() returns (p50: Option<int>, p95: Option<int>, p99: Option<int>, samples: nat)
      requires Valid()
      ensures samples == if requestTotal <= 512 then requestTotal else 512
      ensures samples == 0 ==> p50 == p95 == p99 == None
      ensures
        samples > 0 ==>
          var last := durations[|durations| - samples..];
          && p50.Some? && p95.Some? && p99.Some? && p50.value <= p95.value <= p99.value
          && IsPercentile(last, 50, p50.value)
          && IsPercentile(last, 95, p95.value)
          && IsPercentile(last, 99, p99.value)
    {
      samples := |latencies|;
      p50 := Percentile(latencies, 50);
      p95 := Percentile(latencies, 95);
      p99 := Percentile(latencies, 99);
      if samples > 0 {
        PercentileMonotone(latencies, 50, 95, p50.value, p95.value);
        PercentileMonotone(latencies, 95, 99, p95.value, p99.value);
      }
    }
  }
}
