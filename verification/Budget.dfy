/**
 * Test runtimes and timeout budgets. Seconds are exact reals; a duration is a
 * whole number of nanoseconds, truncated where the program truncates.
 */
module Budget {
  import opened Options
  import opened Sorting
  import opened Ordering

  const SECOND := 1_000_000_000

  /** Conversion of a float to `time.Duration`: the fraction is dropped. */
  function Truncated(x: real): int {
    if x >= 0.0 then x.Floor else -((-x).Floor)
  }

  function Nanoseconds(seconds: real): int {
    Truncated(seconds * SECOND as real)
  }

  lemma TruncatedMonotone(x: real, y: real)
    requires x <= y
    ensures Truncated(x) <= Truncated(y)
  {
  }

  lemma NanosecondsMonotone(x: real, y: real)
    requires x <= y
    ensures Nanoseconds(x) <= Nanoseconds(y)
  {
    assert x * SECOND as real <= y * SECOND as real;
    TruncatedMonotone(x * SECOND as real, y * SECOND as real);
  }

  // ----- percentiles -----

  function RealOrder(): (real, real) -> bool {
    (x: real, y: real) => x <= y
  }

  predicate Ascending(s: seq<real>) {
    forall i, j | 0 <= i <= j < |s| :: s[i] <= s[j]
  }

  /** The value at a fractional index, on the line between its neighbours. */
  function At(s: seq<real>, rank: real): real
    requires s != [] && 0.0 <= rank <= (|s| - 1) as real
  {
    var lower := rank.Floor;
    if rank == lower as real then s[lower]
    else
      var frac := rank - lower as real;
      s[lower] * (1.0 - frac) + s[lower + 1] * frac
  }

  /** An index outside the samples would be a panic; every caller asks for a fraction. */
  function Percentile(sorted: seq<real>, p: real): real
    requires 0.0 <= p <= 1.0
  {
    if |sorted| == 0 then 0.0
    else if |sorted| == 1 then sorted[0]
    else
      RankInRange(|sorted| - 1, p);
      At(sorted, Rank(|sorted| - 1, p))
  }

  function Rank(n: nat, p: real): real {
    p * n as real
  }

  lemma NonNegative(x: real, y: real)
    requires x >= 0.0 && y >= 0.0
    ensures x * y >= 0.0
  {
  }

  lemma RankInRange(n: nat, p: real)
    requires 0.0 <= p <= 1.0
    ensures 0.0 <= Rank(n, p) <= n as real
  {
    NonNegative(p, n as real);
    NonNegative(1.0 - p, n as real);
  }

  /** Between two neighbouring samples the value moves on the straight line from one to the other. */
  lemma AtIsOnTheLine(s: seq<real>, k: nat, f: real)
    requires k + 1 < |s| && 0.0 <= f <= 1.0
    ensures k as real + f <= (|s| - 1) as real
    ensures At(s, k as real + f) == s[k] + f * (s[k + 1] - s[k])
  {
    var rank := k as real + f;
    if f < 1.0 {
      assert rank.Floor == k;
    } else {
      assert rank.Floor == k + 1;
    }
  }

  /** So the percentile at rank `k + f` is that far along the way from the k-th sample to the next. */
  lemma PercentileIsOnTheLine(s: seq<real>, p: real, k: nat, f: real)
    requires 0.0 <= p <= 1.0 && k + 1 < |s| && 0.0 <= f <= 1.0 && p * (|s| - 1) as real == k as real + f
    ensures Percentile(s, p) == s[k] + f * (s[k + 1] - s[k])
  {
    AtIsOnTheLine(s, k, f);
    hide At;
  }

  lemma RanksInOrder(n: nat, p: real, q: real)
    requires 0.0 <= p <= q <= 1.0
    ensures 0.0 <= Rank(n, p) <= Rank(n, q) <= n as real
  {
    RankInRange(n, p);
    RankInRange(n, q);
    NonNegative(q - p, n as real);
    assert q * n as real - p * n as real == (q - p) * n as real;
  }

  lemma Between(a: real, b: real, f: real)
    requires a <= b && 0.0 <= f <= 1.0
    ensures a <= a * (1.0 - f) + b * f <= b
  {
    assert a * (1.0 - f) + b * f == a + (b - a) * f == b - (b - a) * (1.0 - f);
    NonNegative(b - a, f);
    NonNegative(b - a, 1.0 - f);
  }

  lemma Along(a: real, b: real, f: real, g: real)
    requires a <= b && f <= g
    ensures a * (1.0 - f) + b * f <= a * (1.0 - g) + b * g
  {
    NonNegative(b - a, g - f);
    assert (b - a) * (g - f) == (a * (1.0 - g) + b * g) - (a * (1.0 - f) + b * f);
  }

  lemma AtIsBracketed(s: seq<real>, rank: real)
    requires s != [] && Ascending(s) && 0.0 <= rank <= (|s| - 1) as real
    ensures s[rank.Floor] <= At(s, rank)
    ensures rank.Floor + 1 < |s| ==> At(s, rank) <= s[rank.Floor + 1]
    ensures s[0] <= At(s, rank) <= s[|s| - 1]
  {
    var lower := rank.Floor;
    assert 0 <= lower < |s| && s[0] <= s[lower] <= s[|s| - 1];
    if rank != lower as real {
      var f := rank - lower as real;
      assert 0.0 <= f <= 1.0 && lower + 1 < |s|;
      Between(s[lower], s[lower + 1], f);
      assert At(s, rank) == s[lower] * (1.0 - f) + s[lower + 1] * f;
      assert s[lower + 1] <= s[|s| - 1];
    } else if lower + 1 < |s| {
      assert s[lower] <= s[lower + 1];
    }
  }

  lemma AtMonotone(s: seq<real>, x: real, y: real)
    requires s != [] && Ascending(s) && 0.0 <= x <= y <= (|s| - 1) as real
    ensures At(s, x) <= At(s, y)
  {
    AtIsBracketed(s, x);
    AtIsBracketed(s, y);
    if x.Floor == y.Floor {
      if x != x.Floor as real {
        Along(s[x.Floor], s[x.Floor + 1], x - x.Floor as real, y - y.Floor as real);
      }
    } else {
      assert x.Floor + 1 <= y.Floor;
    }
  }

  lemma PercentileMonotone(s: seq<real>, p: real, q: real)
    requires Ascending(s) && 0.0 <= p <= q <= 1.0
    ensures Percentile(s, p) <= Percentile(s, q)
    ensures s != [] ==> s[0] <= Percentile(s, p) && Percentile(s, q) <= s[|s| - 1]
  {
    if |s| > 1 {
      hide At, Ascending, Rank;
      var n := |s| - 1;
      RanksInOrder(n, p, q);
      AtMonotone(s, Rank(n, p), Rank(n, q));
      AtIsBracketed(s, Rank(n, p));
      AtIsBracketed(s, Rank(n, q));
    }
  }

  // ----- runtimes -----

  datatype DurationSeries = DurationSeries(name: string, suite: string, buildID: string, values: seq<real>)

  datatype TestRuntime = TestRuntime(name: string, suite: string, p50: int, p95: int, p99: int, max: int, samples: nat)

  datatype TestId = TestId(name: string, suite: string)

  function IdOf(s: DurationSeries): TestId {
    TestId(s.name, s.suite)
  }

  /** All durations observed for a test, in the order of the query. */
  function ValuesFor(series: seq<DurationSeries>, id: TestId): seq<real> {
    if series == [] then []
    else
      var last, before := series[|series| - 1], ValuesFor(series[..|series| - 1], id);
      if IdOf(last) == id then before + last.values else before
  }

  function RuntimeOf(id: TestId, values: seq<real>): TestRuntime
    requires values != []
  {
    var sorted := StableSort(RealOrder(), values);
    SortPermutes(RealOrder(), values);
    TestRuntime(id.name, id.suite,
                Nanoseconds(Percentile(sorted, 0.50)),
                Nanoseconds(Percentile(sorted, 0.95)),
                Nanoseconds(Percentile(sorted, 0.99)),
                Nanoseconds(sorted[|sorted| - 1]),
                |values|)
  }

  lemma SortedAscends(values: seq<real>)
    ensures Ascending(StableSort(RealOrder(), values))
  {
    SortSorts(RealOrder(), values);
  }

  /** For every test aggregated, the percentiles are in order. */
  lemma PercentilesOrdered(id: TestId, values: seq<real>)
    requires values != []
    ensures var r := RuntimeOf(id, values); r.p50 <= r.p95 <= r.p99 <= r.max
  {
    var sorted := StableSort(RealOrder(), values);
    SortPermutes(RealOrder(), values);
    SortedAscends(values);
    hide Percentile, Nanoseconds;
    PercentileMonotone(sorted, 0.50, 0.95);
    PercentileMonotone(sorted, 0.95, 0.99);
    PercentileMonotone(sorted, 0.99, 1.0);
    NanosecondsMonotone(Percentile(sorted, 0.50), Percentile(sorted, 0.95));
    NanosecondsMonotone(Percentile(sorted, 0.95), Percentile(sorted, 0.99));
    NanosecondsMonotone(Percentile(sorted, 0.99), sorted[|sorted| - 1]);
  }

  /** The order in which durations were read does not show. */
  lemma RuntimeForgetsOrder(id: TestId, values: seq<real>, others: seq<real>)
    requires values != [] && multiset(values) == multiset(others)
    ensures others != [] && RuntimeOf(id, values) == RuntimeOf(id, others)
  {
    assert |multiset(values)| == |values| && |multiset(others)| == |others|;
    SortForgetsOrder(RealOrder(), values, others);
  }

  method AggregateRuntimes(series: seq<DurationSeries>) returns (results: seq<TestRuntime>)
    ensures forall r :: r in results <==>
                        exists id: TestId :: ValuesFor(series, id) != [] && r == RuntimeOf(id, ValuesFor(series, id))
    ensures forall i, j | 0 <= i < j < |results| ::
              (results[i].name, results[i].suite) != (results[j].name, results[j].suite)
  {
    var grouped: map<TestId, seq<real>> := map[];
    for i := 0 to |series|
      invariant forall id :: (if id in grouped then grouped[id] else []) == ValuesFor(series[..i], id)
    {
      assert series[..i + 1][..i] == series[..i];
      var s := series[i];
      var k := IdOf(s);
      var values := if k in grouped then grouped[k] else [];
      ghost var before := grouped;
      grouped := grouped[k := values + s.values];
      assert forall id | id != k :: ValuesFor(series[..i + 1], id) == ValuesFor(series[..i], id);
    }
    assert series[..|series|] == series;
    results := [];
    var pending := grouped.Keys;
    while pending != {}
      invariant pending <= grouped.Keys
      invariant forall r | r in results :: TestId(r.name, r.suite) in grouped && TestId(r.name, r.suite) !in pending
      invariant forall r :: r in results <==>
                            exists id | id in grouped && id !in pending ::
                              grouped[id] != [] && r == RuntimeOf(id, grouped[id])
      invariant forall i, j | 0 <= i < j < |results| ::
                  TestId(results[i].name, results[i].suite) != TestId(results[j].name, results[j].suite)
      decreases pending
    {
      var k :| k in pending;
      pending := pending - {k};
      if |grouped[k]| == 0 {
        continue;
      }
      results := results + [RuntimeOf(k, grouped[k])];
    }
    hide RuntimeOf, ValuesFor;
    forall r
      ensures r in results <==>
              exists id: TestId :: ValuesFor(series, id) != [] && r == RuntimeOf(id, ValuesFor(series, id))
    {
      if id: TestId :| ValuesFor(series, id) != [] && r == RuntimeOf(id, ValuesFor(series, id)) {
        assert id in grouped;
      }
    }
  }

  // ----- recommendations -----

  datatype Action = Raise | Lower

  datatype Recommendation = Recommendation(
    name: string, suite: string, action: Action, current: int, suggested: int, p95: int, p99: int)

  const HEADROOM := 1.5
  const LOWER_THRESHOLD := 0.30
  const DEFAULT_THRESHOLD := 0.80

  function Utilisation(used: int, timeout: int): real
    requires timeout > 0
  {
    used as real / timeout as real
  }

  function Headroom(p99: int): real {
    p99 as real * HEADROOM
  }

  function WithHeadroom(p99: int): int {
    Truncated(Headroom(p99))
  }

  /** What `computeRecommendations` says about one test with a positive timeout. */
  function Advice(rt: TestRuntime, timeout: int, threshold: real): Option<Recommendation>
    requires timeout > 0
  {
    var used := Utilisation(rt.p95, timeout);
    if used >= threshold then
      Some(Recommendation(rt.name, rt.suite, Raise, timeout, WithHeadroom(rt.p99), rt.p95, rt.p99))
    else if used <= LOWER_THRESHOLD && rt.samples >= 5 then
      Some(Recommendation(rt.name, rt.suite, Lower, timeout,
                          if WithHeadroom(rt.p99) > SECOND then WithHeadroom(rt.p99) else SECOND, rt.p95, rt.p99))
    else None
  }

  function AdviceFor(rt: TestRuntime, timeouts: map<string, int>, threshold: real): seq<Recommendation> {
    if rt.name !in timeouts || timeouts[rt.name] <= 0 then []
    else match Advice(rt, timeouts[rt.name], threshold) case None => [] case Some(r) => [r]
  }

  function AllAdvice(rts: seq<TestRuntime>, timeouts: map<string, int>, threshold: real): seq<Recommendation> {
    if rts == [] then [] else AdviceFor(rts[0], timeouts, threshold) + AllAdvice(rts[1..], timeouts, threshold)
  }

  /** Raises first, then by name. */
  function Presentation(): (Recommendation, Recommendation) -> bool {
    (x: Recommendation, y: Recommendation) => if x.action != y.action then x.action == Raise else Leq(x.name, y.name)
  }

  method ComputeRecommendations(rts: seq<TestRuntime>, timeouts: map<string, int>, threshold: real)
    returns (results: seq<Recommendation>)
    ensures multiset(results) == multiset(AllAdvice(rts, timeouts, threshold))
    ensures Sorted(Presentation(), results)
  {
    results := [];
    if |timeouts| == 0 {
      NoTimeoutsNoAdvice(rts, timeouts, threshold);
      return;
    }
    hide AdviceFor;
    for i := 0 to |rts|
      invariant results + AllAdvice(rts[i..], timeouts, threshold) == AllAdvice(rts, timeouts, threshold)
    {
      assert rts[i..][0] == rts[i] && rts[i..][1..] == rts[i + 1..];
      var advice := Recommend(rts[i], timeouts, threshold);
      results := results + advice;
    }
    results := Presented(results);
  }

  method Presented(rs: seq<Recommendation>) returns (results: seq<Recommendation>)
    ensures multiset(results) == multiset(rs) && Sorted(Presentation(), results)
  {
    PresentationIsTotal();
    SortSorts(Presentation(), rs);
    SortPermutes(Presentation(), rs);
    results := StableSort(Presentation(), rs);
  }

  /** One pass of the loop over runtimes. */
  method Recommend(rt: TestRuntime, timeouts: map<string, int>, threshold: real) returns (advice: seq<Recommendation>)
    ensures advice == AdviceFor(rt, timeouts, threshold)
  {
    if rt.name !in timeouts || timeouts[rt.name] <= 0 {
      return [];
    }
    var timeout := timeouts[rt.name];
    var utilisation := Utilisation(rt.p95, timeout);
    hide Utilisation, Truncated;
    if utilisation >= threshold {
      var suggested := Truncated(rt.p99 as real * HEADROOM);
      return [Recommendation(rt.name, rt.suite, Raise, timeout, suggested, rt.p95, rt.p99)];
    }
    if utilisation <= LOWER_THRESHOLD && rt.samples >= 5 {
      var suggested := Truncated(rt.p99 as real * HEADROOM);
      if suggested < SECOND {
        suggested := SECOND;
      }
      return [Recommendation(rt.name, rt.suite, Lower, timeout, suggested, rt.p95, rt.p99)];
    }
    return [];
  }

  // ----- runtimes and advice, from the durations -----

  /** Seconds become whole nanoseconds, rounded towards zero. */
  lemma NanosecondsSays(x: real)
    ensures var n := Nanoseconds(x) as real;
            if x >= 0.0 then n <= x * 1000000000.0 < n + 1.0 else n - 1.0 < x * 1000000000.0 <= n
  {
  }

  /** The durations of a test are those of its series, one after the other. */
  lemma ValuesForSays(series: seq<DurationSeries>, s: DurationSeries, id: TestId)
    ensures ValuesFor([], id) == []
    ensures ValuesFor(series + [s], id) ==
            ValuesFor(series, id) + if s.name == id.name && s.suite == id.suite then s.values else []
  {
    assert (series + [s])[..|series|] == series;
  }

  /** What is reported of a test: its durations in ascending order at three fractions, the longest, and how many. */
  lemma RuntimeSays(id: TestId, values: seq<real>, sorted: seq<real>)
    requires values != [] && multiset(sorted) == multiset(values) && Ascending(sorted)
    ensures |sorted| == |values|
    ensures RuntimeOf(id, values) ==
            TestRuntime(id.name, id.suite, Nanoseconds(Percentile(sorted, 0.50)), Nanoseconds(Percentile(sorted, 0.95)),
                        Nanoseconds(Percentile(sorted, 0.99)), Nanoseconds(sorted[|sorted| - 1]), |values|)
  {
    assert |multiset(sorted)| == |sorted| && |multiset(values)| == |values|;
    SortForgetsOrder(RealOrder(), values, sorted);
    SortOfSorted(RealOrder(), sorted);
  }

  /** `t` is one and a half times `p99`, rounded towards zero. */
  predicate IsHeadroom(t: int, p99: int) {
    if p99 >= 0 then 2 * t <= 3 * p99 < 2 * t + 2 else 2 * t - 2 < 3 * p99 <= 2 * t
  }

  lemma HeadroomSays(p99: int)
    ensures IsHeadroom(WithHeadroom(p99), p99)
  {
    assert Headroom(p99) == p99 as real * 1.5;
  }

  /**
   * The advice for a test with a timeout: a raise when its P95 comes near the
   * timeout, a lower when it stays under three tenths of it over five runs or
   * more, and otherwise none. Both suggest the P99 with half of it on top, a lower
   * at least a second.
   */
  lemma AdviceSays(rt: TestRuntime, timeout: int, threshold: real)
    requires timeout > 0
    ensures var advice := Advice(rt, timeout, threshold);
            var near, far := rt.p95 as real >= threshold * timeout as real, 10 * rt.p95 <= 3 * timeout;
            && (advice.Some? && advice.value.action == Raise <==> near)
            && (advice.Some? && advice.value.action == Lower <==> !near && far && rt.samples >= 5)
            && (advice.Some? ==>
                  var r := advice.value;
                  && (r.name, r.suite, r.current, r.p95, r.p99) == (rt.name, rt.suite, timeout, rt.p95, rt.p99)
                  && (r.action == Raise ==> IsHeadroom(r.suggested, rt.p99))
                  && (r.action == Lower ==>
                        r.suggested >= 1000000000
                        && (r.suggested > 1000000000 ==> IsHeadroom(r.suggested, rt.p99))
                        && forall t | IsHeadroom(t, rt.p99) :: t <= r.suggested))
  {
    HeadroomSays(rt.p99);
    UtilisationScales(rt.p95, timeout, threshold);
    UtilisationScales(rt.p95, timeout, 0.30);
    hide WithHeadroom, Utilisation;
  }

  /** Advice is given for every runtime of a test with a positive timeout that calls for it. */
  lemma {:induction false} AllAdviceSays(rts: seq<TestRuntime>, timeouts: map<string, int>, threshold: real)
    ensures forall r :: r in AllAdvice(rts, timeouts, threshold) <==>
              exists rt | rt in rts ::
                rt.name in timeouts && timeouts[rt.name] > 0 && Advice(rt, timeouts[rt.name], threshold) == Some(r)
  {
    hide Advice;
    if rts != [] {
      AllAdviceSays(rts[1..], timeouts, threshold);
      assert forall rt :: rt in rts <==> rt == rts[0] || rt in rts[1..];
    }
  }

  /** Raises come before lowers, and each of them by name. */
  lemma PresentationSays(rs: seq<Recommendation>)
    ensures Sorted(Presentation(), rs) <==>
            && (forall i, j | 0 <= i < j < |rs| :: rs[j].action == Raise ==> rs[i].action == Raise)
            && (forall i, j | 0 <= i < j < |rs| && rs[i].action == rs[j].action :: Leq(rs[i].name, rs[j].name))
  {
  }

  lemma {:induction false} NoTimeoutsNoAdvice(rts: seq<TestRuntime>, timeouts: map<string, int>, threshold: real)
    requires |timeouts| == 0
    ensures AllAdvice(rts, timeouts, threshold) == []
  {
    if rts != [] {
      NoTimeoutsNoAdvice(rts[1..], timeouts, threshold);
      assert timeouts.Keys == {};
      assert rts[0].name !in timeouts.Keys;
    }
  }

  lemma PresentationIsTotal()
    ensures TotalPreorder(Presentation())
  {
    StringOrderIsTotal();
    forall x: Recommendation, y: Recommendation ensures Presentation()(x, y) || Presentation()(y, x) {
      assert StringOrder()(x.name, y.name) || StringOrder()(y.name, x.name);
    }
    forall x: Recommendation, y: Recommendation, z: Recommendation | Presentation()(x, y) && Presentation()(y, z)
      ensures Presentation()(x, z)
    {
      if x.action == y.action == z.action {
        LeqTransitive(x.name, y.name, z.name);
      }
    }
  }

  lemma UtilisationScales(used: int, timeout: int, threshold: real)
    requires timeout > 0
    ensures Utilisation(used, timeout) >= threshold <==> used as real >= threshold * timeout as real
    ensures Utilisation(used, timeout) <= threshold <==> used as real <= threshold * timeout as real
  {
    var u := Utilisation(used, timeout);
    assert u * timeout as real == used as real;
    if u >= threshold {
      assert (u - threshold) * timeout as real >= 0.0;
    }
    if u <= threshold {
      assert (threshold - u) * timeout as real >= 0.0;
    }
    if u < threshold {
      assert (threshold - u) * timeout as real > 0.0;
    }
    if u > threshold {
      assert (u - threshold) * timeout as real > 0.0;
    }
  }

  /**
   * From a threshold of two thirds up, raising never suggests less than the
   * current timeout; the margin is what the threshold leaves beyond two thirds.
   */
  lemma RaiseNeverShrinks(rt: TestRuntime, timeout: int, threshold: real)
    requires timeout > 0 && rt.p95 <= rt.p99 && 3.0 * threshold >= 2.0
    requires Advice(rt, timeout, threshold).Some? && Advice(rt, timeout, threshold).value.action == Raise
    ensures Advice(rt, timeout, threshold).value.suggested >= timeout
    ensures (HEADROOM * threshold - 1.0) * timeout as real >= 1.0 ==>
              Advice(rt, timeout, threshold).value.suggested > timeout
  {
    hide Utilisation;
    var margin := (HEADROOM * threshold - 1.0) * timeout as real;
    RaiseHasMargin(timeout, rt.p95, rt.p99, threshold, margin);
    TruncatedMonotone(timeout as real + margin, Headroom(rt.p99));
    TruncatedMonotone(timeout as real, timeout as real + margin);
    if margin >= 1.0 {
      TruncatedMonotone((timeout + 1) as real, timeout as real + margin);
    }
  }

  lemma RaiseHasMargin(timeout: int, p95: int, p99: int, threshold: real, margin: real)
    requires timeout > 0 && p95 <= p99 && 3.0 * threshold >= 2.0 && Utilisation(p95, timeout) >= threshold
    requires margin == (HEADROOM * threshold - 1.0) * timeout as real
    ensures margin >= 0.0 && Headroom(p99) >= timeout as real + margin
  {
    UtilisationScales(p95, timeout, threshold);
    hide Utilisation;
    NonNegative(HEADROOM * threshold - 1.0, timeout as real);
    var goal := threshold * timeout as real;
    assert p99 as real >= p95 as real >= goal;
    assert (HEADROOM * threshold - 1.0) * timeout as real == HEADROOM * goal - timeout as real;
  }

  /** Before truncation: every raise suggests strictly more if and only if the threshold is above two thirds. */
  lemma RaiseIsStrictBeforeTruncation(threshold: real)
    ensures 3.0 * threshold > 2.0 <==>
            forall timeout: int, p95: int, p99: int |
              timeout > 0 && p95 <= p99 && Utilisation(p95, timeout) >= threshold ::
              Headroom(p99) > timeout as real
  {
    if 3.0 * threshold > 2.0 {
      forall timeout: int, p95: int, p99: int | timeout > 0 && p95 <= p99 && Utilisation(p95, timeout) >= threshold
        ensures Headroom(p99) > timeout as real
      {
        RaiseWithMargin(timeout, p95, p99, threshold);
      }
    } else {
      UtilisationScales(2, 3, threshold);
      assert Utilisation(2, 3) >= threshold && Headroom(2) == 3 as real;
    }
  }

  lemma RaiseWithMargin(timeout: int, p95: int, p99: int, threshold: real)
    requires 3.0 * threshold > 2.0 && timeout > 0 && p95 <= p99 && Utilisation(p95, timeout) >= threshold
    ensures Headroom(p99) > timeout as real
  {
    UtilisationScales(p95, timeout, threshold);
    hide Utilisation;
    var goal := threshold * timeout as real;
    Positive(3.0 * threshold - 2.0, timeout as real);
    assert (3.0 * threshold - 2.0) * timeout as real == 3.0 * goal - 2.0 * timeout as real;
  }

  lemma Positive(x: real, y: real)
    requires x > 0.0 && y > 0.0
    ensures x * y > 0.0
  {
  }

  /** The least P95 that is reported as a raise. */
  function Least(timeout: int, threshold: real): int {
    var goal := threshold * timeout as real;
    if goal.Floor as real == goal then goal.Floor else goal.Floor + 1
  }

  lemma LeastIsRaised(timeout: int, threshold: real, p95: int)
    requires timeout > 0
    ensures Utilisation(p95, timeout) >= threshold <==> p95 >= Least(timeout, threshold)
  {
    UtilisationScales(p95, timeout, threshold);
  }

  /** After truncation: every raise of this timeout is strict if and only if the raise of the least P95 is. */
  lemma RaiseIsStrictExactlyWhen(timeout: int, threshold: real)
    requires timeout > 0
    ensures (forall p95: int, p99: int | p95 <= p99 && Utilisation(p95, timeout) >= threshold ::
              WithHeadroom(p99) > timeout)
       <==> WithHeadroom(Least(timeout, threshold)) > timeout
  {
    var least := Least(timeout, threshold);
    LeastIsRaised(timeout, threshold, least);
    forall p95: int, p99: int | p95 <= p99 && Utilisation(p95, timeout) >= threshold
      ensures WithHeadroom(p99) >= WithHeadroom(least)
    {
      LeastIsRaised(timeout, threshold, p95);
      TruncatedMonotone(least as real * HEADROOM, p99 as real * HEADROOM);
    }
  }

  /** At the default threshold every raise is strict if and only if the timeout is more than a nanosecond. */
  lemma DefaultRaiseIsStrictExactlyWhen(timeout: int)
    requires timeout > 0
    ensures (forall p95: int, p99: int | p95 <= p99 && Utilisation(p95, timeout) >= DEFAULT_THRESHOLD ::
               WithHeadroom(p99) > timeout)
       <==> timeout >= 2
  {
    RaiseIsStrictExactlyWhen(timeout, DEFAULT_THRESHOLD);
    var least := Least(timeout, DEFAULT_THRESHOLD);
    if timeout == 1 {
      assert least == 1 && WithHeadroom(1) == 1;
    } else {
      assert least as real >= DEFAULT_THRESHOLD * timeout as real;
      assert least as real * HEADROOM >= (timeout + 1) as real by {
        if timeout == 2 {
          assert least == 2;
        } else if timeout == 3 {
          assert least == 3;
        } else if timeout == 4 {
          assert least == 4;
        }
      }
      TruncatedMonotone((timeout + 1) as real, least as real * HEADROOM);
    }
  }

  /** So it is for every aggregated test. */
  lemma DefaultRaiseIsStrict(id: TestId, values: seq<real>, timeout: int)
    requires values != [] && timeout >= 2
    ensures var advice := Advice(RuntimeOf(id, values), timeout, DEFAULT_THRESHOLD);
            advice.Some? && advice.value.action == Raise ==> advice.value.suggested > timeout
  {
    PercentilesOrdered(id, values);
    var rt := RuntimeOf(id, values);
    hide RuntimeOf, WithHeadroom, Utilisation;
    DefaultRaiseIsStrictExactlyWhen(timeout);
  }

  /**
   * Below two thirds, zero and negative thresholds included, some raise suggests
   * less than the timeout it is meant to raise.
   */
  lemma LowThresholdCanShrink(threshold: real, rt: TestRuntime) returns (timeout: int, used: int)
    requires 3.0 * threshold < 2.0
    ensures timeout > 0
    ensures var advice := Advice(rt.(p95 := used, p99 := used), timeout, threshold);
            advice.Some? && advice.value.action == Raise && advice.value.suggested < timeout
  {
    if threshold <= 0.0 {
      timeout, used := 1, 0;
      UtilisationScales(used, timeout, threshold);
    } else {
      timeout, used := Shrinking(threshold);
    }
  }

  lemma Shrinking(threshold: real) returns (timeout: int, used: int)
    requires 0.0 < threshold && 3.0 * threshold < 2.0
    ensures timeout > 0 && Utilisation(used, timeout) >= threshold && WithHeadroom(used) < timeout
  {
    var slack := 1.0 - HEADROOM * threshold;
    timeout := (HEADROOM / slack).Floor + 1;
    assert timeout as real * slack > HEADROOM by {
      Positive(timeout as real - HEADROOM / slack, slack);
    }
    var goal := threshold * timeout as real;
    used := goal.Floor + 1;
    UtilisationScales(used, timeout, threshold);
    assert used as real <= goal + 1.0;
    assert used as real * HEADROOM <= HEADROOM * threshold * timeout as real + HEADROOM;
    assert used as real * HEADROOM < timeout as real;
    assert (used as real * HEADROOM).Floor < timeout;
  }

  /**
   * A "lower" recommendation suggests a longer timeout exactly when the floor of
   * one second or the headroom exceeds it.
   */
  lemma LowerSuggestsMoreExactlyWhen(rt: TestRuntime, timeout: int, threshold: real)
    requires timeout > 0 && Advice(rt, timeout, threshold).Some? && Advice(rt, timeout, threshold).value.action == Lower
    ensures Advice(rt, timeout, threshold).value.suggested > timeout <==>
            timeout < SECOND || rt.p99 as real * HEADROOM >= (timeout + 1) as real
  {
    var x := rt.p99 as real * HEADROOM;
    if x >= (timeout + 1) as real {
      TruncatedMonotone((timeout + 1) as real, x);
    }
  }

  /** Equal durations are their own percentiles. */
  lemma FlatRuntime(id: TestId, values: seq<real>, v: real)
    requires values != [] && forall x | x in values :: x == v
    ensures RuntimeOf(id, values) ==
            TestRuntime(id.name, id.suite, Nanoseconds(v), Nanoseconds(v), Nanoseconds(v), Nanoseconds(v), |values|)
  {
    var sorted := StableSort(RealOrder(), values);
    SortPermutes(RealOrder(), values);
    SortKeepsMembers(RealOrder(), values);
    SortedAscends(values);
    hide Percentile, StableSort, Nanoseconds;
    assert sorted[0] in sorted && sorted[|sorted| - 1] in sorted;
    PercentileMonotone(sorted, 0.50, 0.95);
    PercentileMonotone(sorted, 0.95, 0.99);
  }

  /** It does happen: any five or more runs of a tenth of a second under a timeout of half a second. */
  lemma LowerCanRaise(id: TestId, values: seq<real>)
    requires |values| >= 5 && forall x | x in values :: x == 0.1
    ensures var advice := Advice(RuntimeOf(id, values), SECOND / 2, DEFAULT_THRESHOLD);
            advice.Some? && advice.value.action == Lower && advice.value.suggested > advice.value.current
  {
    FlatRuntime(id, values, 0.1);
    assert Nanoseconds(0.1) == 100_000_000;
    hide RuntimeOf, Truncated;
    UtilisationScales(100_000_000, SECOND / 2, DEFAULT_THRESHOLD);
    UtilisationScales(100_000_000, SECOND / 2, LOWER_THRESHOLD);
  }

  datatype NearTimeout = NearTimeout(name: string, suite: string, p95: int, timeout: int, utilisation: real)

  function NearFor(rt: TestRuntime, timeouts: map<string, int>, threshold: real): seq<NearTimeout> {
    if rt.name !in timeouts || timeouts[rt.name] <= 0 then []
    else
      var u := Utilisation(rt.p95, timeouts[rt.name]);
      if u >= threshold then [NearTimeout(rt.name, rt.suite, rt.p95, timeouts[rt.name], u)] else []
  }

  /** A test is flagged as near its timeout exactly when a raise is recommended for it. */
  lemma NearTimeoutMeansRaise(rt: TestRuntime, timeouts: map<string, int>, threshold: real)
    ensures NearFor(rt, timeouts, threshold) != [] <==>
            exists r | r in AdviceFor(rt, timeouts, threshold) :: r.action == Raise
  {
    if NearFor(rt, timeouts, threshold) != [] {
      var r := AdviceFor(rt, timeouts, threshold)[0];
      assert r in AdviceFor(rt, timeouts, threshold);
    }
  }

  // ----- builds -----

  /** The sum of a map's values over some of its keys. */
  ghost function SumOver(ks: set<string>, m: map<string, real>): real
    requires ks <= m.Keys
    decreases |ks|
  {
    if ks == {} then 0.0
    else
      var k :| k in ks;
      m[k] + SumOver(ks - {k}, m)
  }

  /** Any key may be taken out first, so the map's iteration order does not matter. */
  lemma {:induction false} SumTakesOut(ks: set<string>, m: map<string, real>, k: string)
    requires ks <= m.Keys && k in ks
    ensures SumOver(ks, m) == m[k] + SumOver(ks - {k}, m)
    decreases |ks|
  {
    var first :| first in ks && SumOver(ks, m) == m[first] + SumOver(ks - {first}, m);
    if first != k {
      SumTakesOut(ks - {first}, m, k);
      SumTakesOut(ks - {k}, m, first);
      assert ks - {first} - {k} == ks - {k} - {first};
    }
  }

  lemma {:induction false} SumAgrees(ks: set<string>, m: map<string, real>, n: map<string, real>)
    requires ks <= m.Keys && ks <= n.Keys && forall k | k in ks :: m[k] == n[k]
    ensures SumOver(ks, m) == SumOver(ks, n)
    decreases |ks|
  {
    if ks != {} {
      var k :| k in ks;
      SumTakesOut(ks, m, k);
      SumTakesOut(ks, n, k);
      SumAgrees(ks - {k}, m, n);
    }
  }

  function Sum(vs: seq<real>): real {
    if vs == [] then 0.0 else Sum(vs[..|vs| - 1]) + vs[|vs| - 1]
  }

  const UNKNOWN_BUILD := "_unknown"

  function BuildOf(s: DurationSeries): string {
    if s.buildID == "" then UNKNOWN_BUILD else s.buildID
  }

  /** Everything that ran in a build, in seconds. */
  function BuildTotal(series: seq<DurationSeries>, build: string): real {
    if series == [] then 0.0
    else
      var last, before := series[|series| - 1], BuildTotal(series[..|series| - 1], build);
      if BuildOf(last) == build then before + Sum(last.values) else before
  }

  /** What one suite took in a build. */
  function SuiteTotal(series: seq<DurationSeries>, build: string, suite: string): real {
    if series == [] then 0.0
    else
      var last, before := series[|series| - 1], SuiteTotal(series[..|series| - 1], build, suite);
      if BuildOf(last) == build && last.suite == suite then before + Sum(last.values) else before
  }

  function Builds(series: seq<DurationSeries>): set<string> {
    set s | s in series :: BuildOf(s)
  }

  type Totals = map<string, map<string, real>>

  function Spent(suites: map<string, real>, suite: string): real {
    if suite in suites then suites[suite] else 0.0
  }

  lemma SpendingAddsUp(suites: map<string, real>, suite: string, extra: real)
    ensures var after := suites[suite := Spent(suites, suite) + extra];
            SumOver(after.Keys, after) == SumOver(suites.Keys, suites) + extra
  {
    var after := suites[suite := Spent(suites, suite) + extra];
    SumTakesOut(after.Keys, after, suite);
    SumAgrees(after.Keys - {suite}, after, suites);
    if suite in suites {
      SumTakesOut(suites.Keys, suites, suite);
      assert after.Keys == suites.Keys;
    } else {
      assert after.Keys - {suite} == suites.Keys;
    }
  }

  /** The inner loop: the values of one series added to its suite; without values the suite is not mentioned. */
  method AddValues(suites: map<string, real>, suite: string, values: seq<real>) returns (after: map<string, real>)
    ensures after == if values == [] then suites else suites[suite := Spent(suites, suite) + Sum(values)]
  {
    after := suites;
    for i := 0 to |values|
      invariant after == if i == 0 then suites else suites[suite := Spent(suites, suite) + Sum(values[..i])]
    {
      assert values[..i + 1][..i] == values[..i];
      after := after[suite := Spent(after, suite) + values[i]];
    }
    assert values[..|values|] == values;
  }

  /** Totals of a longer query: only the build and suite of the new series move. */
  lemma TotalsStep(series: seq<DurationSeries>, s: DurationSeries, b: string, t: string)
    ensures var more := if BuildOf(s) == b then Sum(s.values) else 0.0;
            BuildTotal(series + [s], b) == BuildTotal(series, b) + more
    ensures var more := if BuildOf(s) == b && s.suite == t then Sum(s.values) else 0.0;
            SuiteTotal(series + [s], b, t) == SuiteTotal(series, b, t) + more
  {
    assert (series + [s])[..|series|] == series;
  }

  /** One build's suites agree with the query, suite by suite and in total. */
  ghost predicate Tallies(suites: map<string, real>, series: seq<DurationSeries>, b: string) {
    && SumOver(suites.Keys, suites) == BuildTotal(series, b)
    && forall t :: Spent(suites, t) == SuiteTotal(series, b, t)
  }

  /** Grouping loses and invents no time: every build is there, and its suites add up to all that ran in it. */
  ghost predicate Groups(builds: Totals, series: seq<DurationSeries>) {
    && builds.Keys == Builds(series)
    && forall b | b in builds :: Tallies(builds[b], series, b)
  }

  lemma GroupTallies(builds: Totals, series: seq<DurationSeries>, b: string)
    requires Groups(builds, series)
    ensures Tallies(if b in builds then builds[b] else map[], series, b)
  {
    if b !in builds {
      NotYetBuilt(series, b);
      forall t ensures SuiteTotal(series, b, t) == 0.0 { NotYetSpent(series, b, t); }
    }
  }

  lemma TalliesStep(suites: map<string, real>, series: seq<DurationSeries>, s: DurationSeries, after: map<string, real>)
    requires Tallies(suites, series, BuildOf(s))
    requires after == if s.values == [] then suites else suites[s.suite := Spent(suites, s.suite) + Sum(s.values)]
    ensures Tallies(after, series + [s], BuildOf(s))
  {
    hide BuildTotal, SuiteTotal, SumOver;
    SpendingAddsUp(suites, s.suite, Sum(s.values));
    forall t { TotalsStep(series, s, BuildOf(s), t); }
    assert Sum([]) == 0.0;
  }

  lemma OtherBuildsKeep(suites: map<string, real>, series: seq<DurationSeries>, s: DurationSeries, b: string)
    requires Tallies(suites, series, b) && b != BuildOf(s)
    ensures Tallies(suites, series + [s], b)
  {
    hide BuildTotal, SuiteTotal, SumOver, Spent;
    TotalsStep(series, s, b, "");
    forall t ensures SuiteTotal(series + [s], b, t) == SuiteTotal(series, b, t) { TotalsStep(series, s, b, t); }
  }

  lemma GroupsStep(builds: Totals, series: seq<DurationSeries>, s: DurationSeries, after: map<string, real>)
    requires Groups(builds, series) && Tallies(after, series + [s], BuildOf(s))
    ensures Groups(builds[BuildOf(s) := after], series + [s])
  {
    hide Tallies;
    forall b | b in builds && b != BuildOf(s) ensures Tallies(builds[b], series + [s], b) {
      OtherBuildsKeep(builds[b], series, s, b);
    }
    assert Builds(series + [s]) == Builds(series) + {BuildOf(s)};
  }

  lemma {:induction false} NotYetBuilt(series: seq<DurationSeries>, b: string)
    requires b !in Builds(series)
    ensures BuildTotal(series, b) == 0.0
  {
    if series != [] {
      var front := series[..|series| - 1];
      assert series[|series| - 1] in series;
      assert BuildOf(series[|series| - 1]) in Builds(series);
      assert Builds(front) <= Builds(series);
      NotYetBuilt(front, b);
    }
  }

  lemma {:induction false} NotYetSpent(series: seq<DurationSeries>, b: string, t: string)
    requires b !in Builds(series)
    ensures SuiteTotal(series, b, t) == 0.0
  {
    if series != [] {
      var front := series[..|series| - 1];
      assert series[|series| - 1] in series;
      assert BuildOf(series[|series| - 1]) in Builds(series);
      assert Builds(front) <= Builds(series);
      NotYetSpent(front, b, t);
    }
  }

  method GroupByBuild(series: seq<DurationSeries>) returns (builds: Totals)
    ensures Groups(builds, series)
  {
    builds := map[];
    for i := 0 to |series|
      invariant Groups(builds, series[..i])
    {
      assert series[..i + 1] == series[..i] + [series[i]];
      var s := series[i];
      var build := s.buildID;
      if build == "" {
        build := UNKNOWN_BUILD;
      }
      assert build == BuildOf(s);
      hide *;
      var suites: map<string, real> := map[];
      if build in builds {
        suites := builds[build];
      }
      var after := AddValues(suites, s.suite, s.values);
      GroupTallies(builds, series[..i], build);
      TalliesStep(suites, series[..i], s, after);
      GroupsStep(builds, series[..i], s, after);
      builds := builds[build := after];
    }
    assert series[..|series|] == series;
  }

  method BuildSum(suites: map<string, real>) returns (total: real)
    ensures total == SumOver(suites.Keys, suites)
  {
    total := 0.0;
    var pending := suites.Keys;
    while pending != {}
      invariant pending <= suites.Keys && total + SumOver(pending, suites) == SumOver(suites.Keys, suites)
      decreases pending
    {
      var k :| k in pending;
      SumTakesOut(pending, suites, k);
      total := total + suites[k];
      pending := pending - {k};
    }
  }

  datatype BudgetUtilisation = BudgetUtilisation(name: string, actual: int, configured: int, utilisation: real)

  /** The pipeline's use of its budget is that of the build in which most time was spent. */
  method ComputePipelineBudget(builds: Totals, timeout: int, ghost series: seq<DurationSeries>)
    returns (r: BudgetUtilisation)
    requires timeout > 0 && Groups(builds, series)
    ensures r.name == "pipeline" && r.configured == timeout && r.utilisation == Utilisation(r.actual, timeout)
    ensures forall b | b in Builds(series) :: Nanoseconds(BuildTotal(series, b)) <= r.actual
    ensures r.actual == 0 || exists b | b in Builds(series) :: r.actual == Nanoseconds(BuildTotal(series, b))
  {
    var maxTotal := 0.0;
    var pending := builds.Keys;
    while pending != {}
      invariant pending <= builds.Keys && maxTotal >= 0.0
      invariant forall b | b in builds && b !in pending :: BuildTotal(series, b) <= maxTotal
      invariant maxTotal == 0.0 || exists b | b in builds :: maxTotal == BuildTotal(series, b)
      decreases pending
    {
      var b :| b in pending;
      var buildTotal := BuildSum(builds[b]);
      if buildTotal > maxTotal {
        maxTotal := buildTotal;
      }
      pending := pending - {b};
    }
    forall b | b in Builds(series) ensures Nanoseconds(BuildTotal(series, b)) <= Nanoseconds(maxTotal) {
      NanosecondsMonotone(BuildTotal(series, b), maxTotal);
    }
    var actual := Nanoseconds(maxTotal);
    r := BudgetUtilisation("pipeline", actual, timeout, Utilisation(actual, timeout));
  }

  /** The most a suite took in any of some builds, for suites that took time at all. */
  ghost predicate Peaks(peak: map<string, real>, series: seq<DurationSeries>, seen: set<string>) {
    && (forall s | s in peak :: peak[s] > 0.0 && exists b | b in seen :: peak[s] == SuiteTotal(series, b, s))
    && (forall s, b | b in seen :: SuiteTotal(series, b, s) <= Spent(peak, s))
  }

  /** The inner loop over the suites of one build. */
  method RaisePeaks(peak: map<string, real>, suites: map<string, real>) returns (after: map<string, real>)
    ensures forall s ::
              Spent(after, s) ==
              if Spent(suites, s) > Spent(peak, s) && s in suites then suites[s] else Spent(peak, s)
    ensures forall s :: s in after <==> s in peak || (s in suites && suites[s] > Spent(peak, s))
  {
    after := peak;
    var pending := suites.Keys;
    while pending != {}
      invariant pending <= suites.Keys
      invariant forall s :: s in after <==> s in peak || (s in suites && s !in pending && suites[s] > Spent(peak, s))
      invariant forall s :: Spent(after, s) ==
                            if s in suites && s !in pending && suites[s] > Spent(peak, s) then suites[s]
                                else Spent(peak, s)
      decreases pending
    {
      var s :| s in pending;
      if suites[s] > Spent(after, s) {
        after := after[s := suites[s]];
      }
      pending := pending - {s};
    }
  }

  lemma PeaksStep(
      builds: Totals, series: seq<DurationSeries>, seen: set<string>, b: string, peak: map<string, real>,
      after: map<string, real>)
    requires Groups(builds, series) && b in builds && Peaks(peak, series, seen)
    requires forall s :: Spent(after, s) ==
                         if Spent(builds[b], s) > Spent(peak, s) && s in builds[b] then builds[b][s] else Spent(peak, s)
    requires forall s :: s in after <==> s in peak || (s in builds[b] && builds[b][s] > Spent(peak, s))
    ensures Peaks(after, series, seen + {b})
  {
    hide SuiteTotal, SumOver, BuildTotal;
    assert forall s :: SuiteTotal(series, b, s) == Spent(builds[b], s);
    forall s | s in after ensures after[s] > 0.0 && exists c | c in seen + {b} :: after[s] == SuiteTotal(series, c, s) {
      assert after[s] == Spent(after, s);
      if s in builds[b] && builds[b][s] > Spent(peak, s) {
        assert b in seen + {b} && after[s] == SuiteTotal(series, b, s);
        if s in peak {
          assert peak[s] > 0.0;
        }
      } else {
        var c :| c in seen && peak[s] == SuiteTotal(series, c, s);
        assert c in seen + {b};
      }
    }
    forall s, c | c in seen + {b} ensures SuiteTotal(series, c, s) <= Spent(after, s) {
      if c in seen {
        assert SuiteTotal(series, c, s) <= Spent(peak, s);
      }
      if s in peak {
        assert peak[s] > 0.0;
      }
    }
  }

  method SuitePeaks(builds: Totals, ghost series: seq<DurationSeries>) returns (peak: map<string, real>)
    requires Groups(builds, series)
    ensures Peaks(peak, series, Builds(series))
  {
    peak := map[];
    var pending := builds.Keys;
    while pending != {}
      invariant pending <= builds.Keys && Peaks(peak, series, builds.Keys - pending)
      decreases pending
    {
      hide Peaks, Groups;
      var b :| b in pending;
      var after := RaisePeaks(peak, builds[b]);
      PeaksStep(builds, series, builds.Keys - pending, b, peak, after);
      assert builds.Keys - (pending - {b}) == builds.Keys - pending + {b};
      peak := after;
      pending := pending - {b};
    }
    assert builds.Keys - pending == Builds(series);
  }

  /** A configured suite is reported, with its peak over all builds, exactly when it took time in some build. */
  method ComputeSuiteBudgets(builds: Totals, timeouts: map<string, int>, ghost series: seq<DurationSeries>)
    returns (results: seq<BudgetUtilisation>)
    requires Groups(builds, series)
    ensures forall r | r in results ::
              && r.name in timeouts && r.configured == timeouts[r.name] > 0
              && r.utilisation == Utilisation(r.actual, r.configured)
              && (exists b | b in Builds(series) :: r.actual == Nanoseconds(SuiteTotal(series, b, r.name)))
              && (forall b | b in Builds(series) :: Nanoseconds(SuiteTotal(series, b, r.name)) <= r.actual)
    ensures forall s | s in timeouts && timeouts[s] > 0 ::
              (exists r | r in results :: r.name == s) <==>
                  exists b | b in Builds(series) :: SuiteTotal(series, b, s) > 0.0
    ensures forall i, j | 0 <= i < j < |results| ::
              results[i].utilisation >= results[j].utilisation && results[i].name != results[j].name
  {
    results := [];
    if |timeouts| == 0 {
      assert timeouts.Keys == {};
      return;
    }
    var peak := SuitePeaks(builds, series);
    var reports := Reported(timeouts, peak);
    hide Reports, Peaks, Builds, SuiteTotal, Nanoseconds, Utilisation, Groups;
    results := StableSort(MostUsed(), reports);
    SortSorts(MostUsed(), reports);
    SortKeepsMembers(MostUsed(), reports);
    SortPermutes(MostUsed(), reports);
    DistinctPermutes(reports, results);
    hide StableSort;
    forall r | r in results { ReportFacts(r, timeouts, peak, series); }
    forall i, j | 0 <= i < j < |results| ensures results[i].name != results[j].name {
      assert results[i] in results && results[j] in results;
      if results[i].name == results[j].name {
        OneReportPerSuite(results[i], results[j], timeouts, peak);
        assert false;
      }
    }
    forall s | s in timeouts && timeouts[s] > 0
      ensures (exists r | r in results :: r.name == s) <==>
                exists b | b in Builds(series) :: SuiteTotal(series, b, s) > 0.0
    {
      PeakPresent(peak, series, s);
    }
  }

  /** The loop over the configured suites. */
  method Reported(timeouts: map<string, int>, peak: map<string, real>) returns (results: seq<BudgetUtilisation>)
    ensures forall r | r in results :: Reports(r, timeouts, peak)
    ensures forall s | s in timeouts && timeouts[s] > 0 && s in peak :: exists r | r in results :: r.name == s
    ensures Distinct(results)
  {
    results := [];
    var pending := timeouts.Keys;
    while pending != {}
      invariant pending <= timeouts.Keys && Distinct(results)
      invariant forall r | r in results :: Reports(r, timeouts, peak) && r.name !in pending
      invariant forall s | s in timeouts && s !in pending && timeouts[s] > 0 && s in peak ::
                  exists r | r in results :: r.name == s
      decreases pending
    {
      var suite :| suite in pending;
      pending := pending - {suite};
      var timeout := timeouts[suite];
      ghost var before := results;
      if timeout > 0 && suite in peak {
        var actual := Nanoseconds(peak[suite]);
        var r := BudgetUtilisation(suite, actual, timeout, Utilisation(actual, timeout));
        hide Nanoseconds, Utilisation;
        results := results + [r];
        assert r in results;
      }
      assert forall r | r in before :: r in results;
    }
  }

  lemma OneReportPerSuite(
      r: BudgetUtilisation, q: BudgetUtilisation, timeouts: map<string, int>, peak: map<string, real>)
    requires Reports(r, timeouts, peak) && Reports(q, timeouts, peak) && r.name == q.name
    ensures r == q
  {
  }

  function MostUsed(): (BudgetUtilisation, BudgetUtilisation) -> bool {
    (x: BudgetUtilisation, y: BudgetUtilisation) => x.utilisation >= y.utilisation
  }

  ghost predicate Reports(r: BudgetUtilisation, timeouts: map<string, int>, peak: map<string, real>) {
    && r.name in timeouts && r.configured == timeouts[r.name] > 0 && r.name in peak
    && r.actual == Nanoseconds(peak[r.name]) && r.utilisation == Utilisation(r.actual, r.configured)
  }

  lemma ReportFacts(
      r: BudgetUtilisation, timeouts: map<string, int>, peak: map<string, real>, series: seq<DurationSeries>)
    requires Reports(r, timeouts, peak) && Peaks(peak, series, Builds(series))
    ensures r.name in timeouts && r.configured == timeouts[r.name] > 0 && r.name in peak
    ensures r.utilisation == Utilisation(r.actual, r.configured)
    ensures exists b | b in Builds(series) :: r.actual == Nanoseconds(SuiteTotal(series, b, r.name))
    ensures forall b | b in Builds(series) :: Nanoseconds(SuiteTotal(series, b, r.name)) <= r.actual
  {
    forall b | b in Builds(series) ensures Nanoseconds(SuiteTotal(series, b, r.name)) <= r.actual {
      NanosecondsMonotone(SuiteTotal(series, b, r.name), peak[r.name]);
    }
  }

  lemma PeakPresent(peak: map<string, real>, series: seq<DurationSeries>, s: string)
    requires Peaks(peak, series, Builds(series))
    ensures s in peak <==> exists b | b in Builds(series) :: SuiteTotal(series, b, s) > 0.0
  {
  }
}
