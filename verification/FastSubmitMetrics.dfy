/** The sliding window of submit durations, its percentiles and the outcome counters. */
module FastSubmitMetrics {
  import opened Wrappers

  const METRICS_WINDOW_SIZE: nat := 200

  datatype Outcome = Success | OutcomeRejected | OutcomeUnknown | FailedPreSubmit

  datatype Counters = Counters(success: nat, rejected: nat, unknown: nat, failedPreSubmit: nat)

  datatype Metrics = Metrics(durationsMs: seq<nat>, counters: Counters)

  const NO_METRICS := Metrics([], Counters(0, 0, 0, 0))

  // ---------------------------------------------------------------------------------------------
  // Sorting and nearest-rank percentiles
  // ---------------------------------------------------------------------------------------------

  ghost predicate Sorted(s: seq<nat>) {
    forall i, j :: 0 <= i < j < |s| ==> s[i] <= s[j]
  }

  function Insert(s: seq<nat>, x: nat): seq<nat> {
    if s == [] || x <= s[0] then [x] + s else [s[0]] + Insert(s[1..], x)
  }

  function Sort(s: seq<nat>): seq<nat> {
    if s == [] then [] else Insert(Sort(s[1..]), s[0])
  }

  lemma {:induction false} InsertKeepsElements(s: seq<nat>, x: nat)
    ensures multiset(Insert(s, x)) == multiset(s) + multiset{x}
  {
    if s != [] && x > s[0] {
      InsertKeepsElements(s[1..], x);
      assert s == [s[0]] + s[1..];
    }
  }

  lemma {:induction false} InsertSorts(s: seq<nat>, x: nat)
    requires Sorted(s)
    ensures Sorted(Insert(s, x))
  {
    if s != [] && x > s[0] {
      InsertSorts(s[1..], x);
      InsertKeepsElements(s[1..], x);
      var rest := Insert(s[1..], x);
      forall j | 0 <= j < |rest|
        ensures s[0] <= rest[j]
      {
        assert rest[j] in multiset(rest);
      }
    }
  }

  lemma {:induction false} SortSorts(s: seq<nat>)
    ensures Sorted(Sort(s)) && multiset(Sort(s)) == multiset(s) && |Sort(s)| == |s|
  {
    if s != [] {
      SortSorts(s[1..]);
      InsertSorts(Sort(s[1..]), s[0]);
      InsertKeepsElements(Sort(s[1..]), s[0]);
      assert s == [s[0]] + s[1..];
    }
    assert |multiset(Sort(s))| == |multiset(s)|;
  }

  /** The quantile num / den as an exact fraction; the ceiling of `n` times it. */
  function CeilRank(n: nat, num: nat, den: nat): nat
    requires den > 0
  {
    (n * num + den - 1) / den
  }

  function Percentile(values: seq<nat>, num: nat, den: nat): Option<nat>
    requires 0 < num <= den
  {
    if values == [] then None else
    var sorted := Sort(values);
    SortSorts(values);
    var rank := CeilRank(|sorted|, num, den);
    CeilRankInRange(|sorted|, num, den);
    Some(sorted[if rank - 1 > 0 then rank - 1 else 0])
  }

  lemma TimesMonotone(a: int, b: int, d: nat)
    ensures a <= b ==> a * d <= b * d
  {
    if a <= b {
      assert (b - a) * d >= 0;
    }
  }

  lemma CeilRankInRange(n: nat, num: nat, den: nat)
    requires 0 < num <= den && n > 0
    ensures 1 <= CeilRank(n, num, den) <= n
    ensures (CeilRank(n, num, den) - 1) * den < n * num <= CeilRank(n, num, den) * den
  {
    var r := CeilRank(n, num, den);
    var top := n * num + den - 1;
    assert top == r * den + top % den;
    assert n * num >= 1 by {
      assert (n - 1) * num >= 0;
    }
    TimesMonotone(num, den, n);
    TimesMonotone(r, 0, den);
    TimesMonotone(n, r - 1, den);
  }

  /** How many values satisfy a bound. */
  ghost function CountAtMost(s: seq<nat>, v: nat): nat {
    if s == [] then 0 else CountAtMost(s[1..], v) + if s[0] <= v then 1 else 0
  }

  ghost function CountBelow(s: seq<nat>, v: nat): nat {
    if s == [] then 0 else CountBelow(s[1..], v) + if s[0] < v then 1 else 0
  }

  lemma {:induction false} CountInsert(s: seq<nat>, x: nat, v: nat)
    ensures CountAtMost(Insert(s, x), v) == CountAtMost(s, v) + if x <= v then 1 else 0
    ensures CountBelow(Insert(s, x), v) == CountBelow(s, v) + if x < v then 1 else 0
  {
    if s == [] || x <= s[0] {
      assert ([x] + s)[1..] == s;
    } else {
      CountInsert(s[1..], x, v);
      assert ([s[0]] + Insert(s[1..], x))[1..] == Insert(s[1..], x);
    }
  }

  lemma {:induction false} CountSort(s: seq<nat>, v: nat)
    ensures CountAtMost(Sort(s), v) == CountAtMost(s, v) && CountBelow(Sort(s), v) == CountBelow(s, v)
  {
    if s != [] {
      CountSort(s[1..], v);
      CountInsert(Sort(s[1..]), s[0], v);
    }
  }

  /** In a sorted sequence at least k + 1 values are at most the k-th, and at most k are below it. */
  lemma {:induction false} CountsAtIndex(s: seq<nat>, k: nat)
    requires Sorted(s) && k < |s|
    ensures CountAtMost(s, s[k]) >= k + 1
    ensures CountBelow(s, s[k]) <= k
  {
    if k > 0 {
      CountsAtIndex(s[1..], k - 1);
    } else {
      NoneBelow(s, s[0]);
    }
  }

  lemma {:induction false} NoneBelow(s: seq<nat>, v: nat)
    requires forall i :: 0 <= i < |s| ==> v <= s[i]
    ensures CountBelow(s, v) == 0
  {
    if s != [] {
      NoneBelow(s[1..], v);
    }
  }

  /** The percentile is the nearest-rank element of the unsorted values. */
  lemma PercentileIsNearestRank(values: seq<nat>, num: nat, den: nat)
    requires values != [] && 0 < num <= den
    ensures var p := Percentile(values, num, den);
            && p.Some? && p.value in values
            && CountAtMost(values, p.value) >= CeilRank(|values|, num, den)
            && CountBelow(values, p.value) < CeilRank(|values|, num, den)
  {
    SortSorts(values);
    CeilRankInRange(|values|, num, den);
    var sorted, k := Sort(values), CeilRank(|values|, num, den) - 1;
    CountsAtIndex(sorted, k);
    CountSort(values, sorted[k]);
    assert sorted[k] in multiset(sorted);
  }

  /** A larger quantile never gives a smaller percentile; in particular p50 is at most p95. */
  lemma PercentileMonotone(values: seq<nat>, num: nat, num': nat, den: nat)
    requires values != [] && 0 < num <= num' <= den
    ensures Percentile(values, num, den).Some? && Percentile(values, num', den).Some?
    ensures Percentile(values, num, den).value <= Percentile(values, num', den).value
  {
    SortSorts(values);
    var n := |values|;
    CeilRankInRange(n, num, den);
    CeilRankInRange(n, num', den);
    var r, r' := CeilRank(n, num, den), CeilRank(n, num', den);
    TimesMonotone(num, num', n);
    TimesMonotone(r', r - 1, den);
  }

  // ---------------------------------------------------------------------------------------------
  // Recording
  // ---------------------------------------------------------------------------------------------

  function LastOf(s: seq<nat>, n: nat): seq<nat> {
    if |s| <= n then s else s[|s| - n..]
  }

  function Count(c: Counters, outcome: Outcome): Counters {
    match outcome
    case Success => c.(success := c.success + 1)
    case OutcomeRejected => c.(rejected := c.rejected + 1)
    case OutcomeUnknown => c.(unknown := c.unknown + 1)
    case FailedPreSubmit => c.(failedPreSubmit := c.failedPreSubmit + 1)
  }

  function Record(m: Metrics, durationMs: nat, outcome: Outcome): Metrics {
    Metrics(LastOf(m.durationsMs + [durationMs], METRICS_WINDOW_SIZE), Count(m.counters, outcome))
  }

  function RecordAll(m: Metrics, calls: seq<(nat, Outcome)>): Metrics {
    if calls == [] then m else
    Record(RecordAll(m, calls[..|calls| - 1]), calls[|calls| - 1].0, calls[|calls| - 1].1)
  }

  ghost function Durations(calls: seq<(nat, Outcome)>): seq<nat> {
    seq(|calls|, i requires 0 <= i < |calls| => calls[i].0)
  }

  ghost function CallsWith(calls: seq<(nat, Outcome)>, outcome: Outcome): nat {
    if calls == [] then 0 else
    CallsWith(calls[..|calls| - 1], outcome) + if calls[|calls| - 1].1 == outcome then 1 else 0
  }

  /** After any calls the window is the last 200 durations and each counter counts its outcome. */
  lemma {:induction false} WindowAndCounters(calls: seq<(nat, Outcome)>)
    ensures var m := RecordAll(NO_METRICS, calls);
            && m.durationsMs == LastOf(Durations(calls), 200)
            && m.counters == Counters(CallsWith(calls, Success), CallsWith(calls, OutcomeRejected),
                                      CallsWith(calls, OutcomeUnknown), CallsWith(calls, FailedPreSubmit))
  {
    if calls != [] {
      var n := |calls| - 1;
      WindowAndCounters(calls[..n]);
      assert Durations(calls) == Durations(calls[..n]) + [calls[n].0];
    }
  }

  datatype Snapshot = Snapshot(
    sampleCount: nat, p50Ms: Option<nat>, p95Ms: Option<nat>, lastMs: Option<nat>, counters: Counters)

  class AdeFastSubmitMetrics {
    var durationsMs: seq<nat>
    var successCount: nat
    var rejectedCount: nat
    var unknownCount: nat
    var failedPreSubmitCount: nat

    ghost function State(): Metrics
      reads this
    {
      Metrics(durationsMs, Counters(successCount, rejectedCount, unknownCount, failedPreSubmitCount))
    }

    constructor ()
      ensures State() == NO_METRICS
    {
      durationsMs, successCount, rejectedCount, unknownCount, failedPreSubmitCount := [], 0, 0, 0, 0;
    }

    method Store(duration: nat, outcome: Outcome)
      modifies this
      ensures State() == Record(old(State()), duration, outcome)
      ensures durationsMs != [] && durationsMs[|durationsMs| - 1] == duration
    {
      durationsMs := durationsMs + [duration];
      if |durationsMs| > METRICS_WINDOW_SIZE {
        durationsMs := durationsMs[|durationsMs| - METRICS_WINDOW_SIZE..];
      }
      match outcome {
        case Success => successCount := successCount + 1;
        case OutcomeRejected => rejectedCount := rejectedCount + 1;
        case OutcomeUnknown => unknownCount := unknownCount + 1;
        case FailedPreSubmit => failedPreSubmitCount := failedPreSubmitCount + 1;
      }
    }

    /** `durationMs` is the measured time rounded to whole milliseconds; the clock may run backwards. */
    method RecordOutcome(durationMs: int, outcome: Outcome) returns (snapshot: Snapshot)
      modifies this
      ensures State() == Record(old(State()), if durationMs < 0 then 0 else durationMs, outcome)
      ensures snapshot.sampleCount == |durationsMs| && snapshot.counters == State().counters
      ensures snapshot.lastMs == Some(if durationMs < 0 then 0 else durationMs)
      ensures snapshot.p50Ms.Some? && snapshot.p95Ms.Some? && snapshot.p50Ms.value <= snapshot.p95Ms.value
    {
      Store(if durationMs < 0 then 0 else durationMs, outcome);
      snapshot := TakeSnapshot();
    }

    method TakeSnapshot() returns (snapshot: Snapshot)
      ensures snapshot.sampleCount == |durationsMs|
      ensures snapshot.counters == State().counters
      ensures durationsMs == [] ==> snapshot.p50Ms.None? && snapshot.p95Ms.None? && snapshot.lastMs.None?
      ensures durationsMs != [] ==>
                && snapshot.lastMs == Some(durationsMs[|durationsMs| - 1])
                && snapshot.p50Ms == Percentile(durationsMs, 50, 100)
                && snapshot.p95Ms == Percentile(durationsMs, 95, 100)
                && snapshot.p50Ms.Some? && snapshot.p95Ms.Some?
                && snapshot.p50Ms.value <= snapshot.p95Ms.value
    {
      if durationsMs != [] {
        PercentileMonotone(durationsMs, 50, 95, 100);
      }
      snapshot := Snapshot(
        |durationsMs|, Percentile(durationsMs, 50, 100), Percentile(durationsMs, 95, 100),
        if durationsMs == [] then None else Some(durationsMs[|durationsMs| - 1]),
        Counters(successCount, rejectedCount, unknownCount, failedPreSubmitCount));
    }
  }
}
