/**
 * Flakiness analysis: accumulating test records from time series, and telling a
 * regression (a step from passing to failing) from scattered failures.
 */
module Classification {
  import opened Options
  import opened Sorting
  import opened Ordering
  import opened Quarantine
  import opened QuarantineLaws

  /** Milliseconds since 1970 of Go's zero time. */
  const ZERO_TIME := -62135596800000

  datatype RunOutcome = RunOutcome(timestamp: int, failed: bool, buildID: string, commitSHA: string, prNumber: string)

  datatype TestRecord = TestRecord(
    name: string, suite: string, job: string,
    totalRuns: int, failedRuns: int, passedRuns: int,
    lastSeen: int, lastFailed: int,
    history: seq<RunOutcome>)

  datatype TestOutcome = OutcomePass | OutcomeFail | OutcomeError | OtherOutcome(text: string)

  /** A time series: its labels and the time of each sample. */
  datatype Series = Series(
    name: string, suite: string, job: string, result: TestOutcome,
    buildID: string, commitSHA: string, prNumber: string, times: seq<int>)

  // ----- accumulation -----

  predicate Analyzable(s: Series) {
    s.name != "" && !s.result.OtherOutcome?
  }

  datatype Sample = Sample(name: string, suite: string, job: string, run: RunOutcome)

  function KeyOfSample(x: Sample): string {
    TestKey(x.name, x.suite, x.job)
  }

  function SamplesOf(s: Series): seq<Sample> {
    seq(|s.times|, i requires 0 <= i < |s.times| =>
      Sample(s.name, s.suite, s.job,
             RunOutcome(s.times[i], s.result != OutcomePass, s.buildID, s.commitSHA, s.prNumber)))
  }

  /** Every sample the analysis counts, in the order of the query. */
  function Samples(series: seq<Series>): seq<Sample> {
    if series == [] then []
    else
      var last := series[|series| - 1];
      Samples(series[..|series| - 1]) + if Analyzable(last) then SamplesOf(last) else []
  }

  function RunsFor(xs: seq<Sample>, key: string): seq<RunOutcome> {
    if xs == [] then []
    else
      var last, before := xs[|xs| - 1], RunsFor(xs[..|xs| - 1], key);
      if KeyOfSample(last) == key then before + [last.run] else before
  }

  function Fails(runs: seq<RunOutcome>): nat {
    if runs == [] then 0 else Fails(runs[..|runs| - 1]) + if runs[|runs| - 1].failed then 1 else 0
  }

  function Later(a: int, b: int): int {
    if a < b then b else a
  }

  function LastSeen(runs: seq<RunOutcome>): int {
    if runs == [] then ZERO_TIME else Later(LastSeen(runs[..|runs| - 1]), runs[|runs| - 1].timestamp)
  }

  function LastFailed(runs: seq<RunOutcome>): int {
    if runs == [] then ZERO_TIME
    else
      var before, last := LastFailed(runs[..|runs| - 1]), runs[|runs| - 1];
      if last.failed then Later(before, last.timestamp) else before
  }

  /** The record's counters agree with its history. */
  predicate Accounts(r: TestRecord) {
    && r.totalRuns == |r.history|
    && r.failedRuns == Fails(r.history)
    && r.passedRuns == |r.history| - Fails(r.history)
    && r.lastSeen == LastSeen(r.history)
    && r.lastFailed == LastFailed(r.history)
  }

  /** The report holds one correct record for every test with a sample, and nothing else. */
  ghost predicate Books(tests: map<string, TestRecord>, xs: seq<Sample>) {
    && (forall k :: k in tests <==> RunsFor(xs, k) != [])
    && (forall k | k in tests ::
          && Accounts(tests[k]) && tests[k].history == RunsFor(xs, k)
          && TestKey(tests[k].name, tests[k].suite, tests[k].job) == k)
  }

  // ----- what the report says of the series -----

  /** The series is one of the test's. */
  predicate Concerns(s: Series, key: string) {
    s.name != "" && s.result in {OutcomePass, OutcomeFail, OutcomeError} && TestKey(s.name, s.suite, s.job) == key
  }

  /** How often the test ended in one of these ways. */
  function Total(series: seq<Series>, key: string, results: set<TestOutcome>): nat {
    if series == [] then 0
    else
      var last := series[|series| - 1];
      Total(series[..|series| - 1], key, results)
      + if Concerns(last, key) && last.result in results then |last.times| else 0
  }

  /** `run` is one of the samples of the series, with its labels; failing and ending in an error are both failures. */
  predicate IsRunOf(run: RunOutcome, s: Series) {
    && run.timestamp in s.times
    && (run.failed <==> s.result == OutcomeFail || s.result == OutcomeError)
    && run.buildID == s.buildID && run.commitSHA == s.commitSHA && run.prNumber == s.prNumber
  }

  /** The latest of these times, or Go's zero time if none is later. */
  ghost predicate IsLatest(t: int, times: set<int>) {
    (forall u | u in times :: u <= t) && ZERO_TIME <= t && (t == ZERO_TIME || t in times)
  }

  /** A record of the series, told from the series alone. */
  ghost predicate Reports(r: TestRecord, series: seq<Series>, key: string) {
    && TestKey(r.name, r.suite, r.job) == key
    && r.failedRuns == Total(series, key, {OutcomeFail, OutcomeError})
    && r.passedRuns == Total(series, key, {OutcomePass})
    && r.totalRuns == |r.history| == r.failedRuns + r.passedRuns
    && (forall run | run in r.history :: exists s | s in series :: Concerns(s, key) && IsRunOf(run, s))
    && (forall s, t | s in series && Concerns(s, key) && t in s.times :: HasRun(r.history, s, t))
    && IsLatest(r.lastSeen, set run | run in r.history :: run.timestamp)
    && IsLatest(r.lastFailed, set run | run in r.history && run.failed :: run.timestamp)
  }

  lemma {:induction false} RunsForAppend(xs: seq<Sample>, ys: seq<Sample>, key: string)
    ensures RunsFor(xs + ys, key) == RunsFor(xs, key) + RunsFor(ys, key)
    decreases |ys|
  {
    if ys == [] {
      assert xs + ys == xs;
    } else {
      assert xs + ys == xs + ys[..|ys| - 1] + [ys[|ys| - 1]];
      RunsForStep(xs + ys[..|ys| - 1], ys[|ys| - 1], key);
      RunsForAppend(xs, ys[..|ys| - 1], key);
      assert ys == ys[..|ys| - 1] + [ys[|ys| - 1]];
      RunsForStep(ys[..|ys| - 1], ys[|ys| - 1], key);
    }
  }

  lemma {:induction false} FailsOfUniform(runs: seq<RunOutcome>, failed: bool)
    requires forall run | run in runs :: run.failed == failed
    ensures Fails(runs) == if failed then |runs| else 0
  {
    if runs != [] {
      assert runs[|runs| - 1] in runs;
      FailsOfUniform(runs[..|runs| - 1], failed);
    }
  }

  /** What one series adds to the history of a test. */
  function Added(s: Series, key: string): seq<RunOutcome> {
    RunsFor(if Analyzable(s) then SamplesOf(s) else [], key)
  }

  lemma {:induction false} RunsForSome(xs: seq<Sample>, key: string)
    ensures (forall x | x in xs :: KeyOfSample(x) == key) ==>
              |RunsFor(xs, key)| == |xs| && forall i | 0 <= i < |xs| :: RunsFor(xs, key)[i] == xs[i].run
    ensures (forall x | x in xs :: KeyOfSample(x) != key) ==> RunsFor(xs, key) == []
  {
    if xs != [] {
      RunsForSome(xs[..|xs| - 1], key);
      assert xs[|xs| - 1] in xs && forall x | x in xs[..|xs| - 1] :: x in xs;
    }
  }

  lemma AddedIsRuns(s: Series, key: string)
    ensures var runs := Added(s, key);
            && |runs| == (if Concerns(s, key) then |s.times| else 0)
            && (forall i | 0 <= i < |runs| :: IsRunOf(runs[i], s) && runs[i].timestamp == s.times[i])
            && Fails(runs) == (if s.result == OutcomeFail || s.result == OutcomeError then |runs| else 0)
  {
    if Analyzable(s) {
      var xs := SamplesOf(s);
      RunsForSome(xs, key);
      assert forall x | x in xs :: KeyOfSample(x) == TestKey(s.name, s.suite, s.job);
    }
    FailsOfUniform(Added(s, key), s.result == OutcomeFail || s.result == OutcomeError);
  }

  lemma SamplesStep(series: seq<Series>, key: string)
    requires series != []
    ensures var init, last := series[..|series| - 1], series[|series| - 1];
            RunsFor(Samples(series), key) == RunsFor(Samples(init), key) + Added(last, key)
  {
    var last := series[|series| - 1];
    RunsForAppend(Samples(series[..|series| - 1]), if Analyzable(last) then SamplesOf(last) else [], key);
  }

  lemma NoSeriesNoRuns(key: string)
    ensures RunsFor(Samples([]), key) == [] && Fails([]) == 0
  {
  }

  lemma {:induction false} CountsOfSeries(series: seq<Series>, key: string)
    ensures var runs := RunsFor(Samples(series), key);
            && Fails(runs) == Total(series, key, {OutcomeFail, OutcomeError})
            && |runs| - Fails(runs) == Total(series, key, {OutcomePass})
  {
    hide RunsFor, Samples, Added, Fails, TestKey;
    NoSeriesNoRuns(key);
    if series != [] {
      var init, last := series[..|series| - 1], series[|series| - 1];
      SamplesStep(series, key);
      CountsOfSeries(init, key);
      AddedIsRuns(last, key);
      FailsAppend(RunsFor(Samples(init), key), Added(last, key));
    }
  }

  /** Every run comes from a series of the test. */
  lemma {:induction false} RunsComeFromSeries(series: seq<Series>, key: string)
    ensures forall run | run in RunsFor(Samples(series), key) ::
              exists s | s in series :: Concerns(s, key) && IsRunOf(run, s)
  {
    if series != [] {
      var init, last := series[..|series| - 1], series[|series| - 1];
      SamplesStep(series, key);
      RunsComeFromSeries(init, key);
      AddedIsRuns(last, key);
      var before, added := RunsFor(Samples(init), key), Added(last, key);
      hide RunsFor, Samples, Added, Concerns, IsRunOf;
      assert last in series && forall s | s in init :: s in series;
      forall run | run in before + added ensures exists s | s in series :: Concerns(s, key) && IsRunOf(run, s) {
        if run in before {
          var s :| s in init && Concerns(s, key) && IsRunOf(run, s);
          assert s in series;
        }
      }
    }
  }

  /** And every sample of a series of the test is a run. */
  lemma {:induction false} SamplesBecomeRuns(series: seq<Series>, key: string, s: Series, t: int)
    requires s in series && Concerns(s, key) && t in s.times
    ensures exists run | run in RunsFor(Samples(series), key) :: run.timestamp == t && IsRunOf(run, s)
  {
    var init, last := series[..|series| - 1], series[|series| - 1];
    SamplesStep(series, key);
    AddedIsRuns(last, key);
    var before, added := RunsFor(Samples(init), key), Added(last, key);
    hide RunsFor, Samples, Added, IsRunOf;
    if s == last {
      var i :| 0 <= i < |s.times| && s.times[i] == t;
      assert added[i] in before + added;
    } else {
      SamplesBecomeRuns(init, key, s, t);
      var run: RunOutcome :| run in before && run.timestamp == t && IsRunOf(run, s);
      assert run in before + added;
    }
  }

  lemma {:induction false} LastSeenIsLatest(runs: seq<RunOutcome>)
    ensures IsLatest(LastSeen(runs), set run | run in runs :: run.timestamp)
  {
    if runs != [] {
      var init, last := runs[..|runs| - 1], runs[|runs| - 1];
      LastSeenIsLatest(init);
      assert runs == init + [last];
      assert (set run | run in runs :: run.timestamp) == (set run | run in init :: run.timestamp) + {last.timestamp};
    }
  }

  lemma {:induction false} LastFailedIsLatest(runs: seq<RunOutcome>)
    ensures IsLatest(LastFailed(runs), set run | run in runs && run.failed :: run.timestamp)
  {
    if runs != [] {
      var init, last := runs[..|runs| - 1], runs[|runs| - 1];
      LastFailedIsLatest(init);
      assert runs == init + [last];
      assert (set run | run in runs && run.failed :: run.timestamp)
          == (set run | run in init && run.failed :: run.timestamp) + (if last.failed then {last.timestamp} else {});
    }
  }

  /** Some run is this sample. */
  ghost predicate HasRun(runs: seq<RunOutcome>, s: Series, t: int) {
    exists run | run in runs :: run.timestamp == t && IsRunOf(run, s)
  }

  lemma NonemptyExactlyWhen(series: seq<Series>, key: string)
    ensures RunsFor(Samples(series), key) != [] <==> exists s | s in series :: Concerns(s, key) && s.times != []
  {
    hide RunsFor, Samples, Concerns;
    var runs := RunsFor(Samples(series), key);
    RunsComeFromSeries(series, key);
    if runs != [] {
      assert runs[0] in runs;
      var s :| s in series && Concerns(s, key) && IsRunOf(runs[0], s);
      assert s.times != [];
    }
    if s :| s in series && Concerns(s, key) && s.times != [] {
      SamplesBecomeRuns(series, key, s, s.times[0]);
    }
  }

  lemma RecordReports(r: TestRecord, series: seq<Series>, key: string)
    requires Accounts(r) && r.history == RunsFor(Samples(series), key) && TestKey(r.name, r.suite, r.job) == key
    ensures Reports(r, series, key)
  {
    CountsOfSeries(series, key);
    RunsComeFromSeries(series, key);
    LastSeenIsLatest(r.history);
    LastFailedIsLatest(r.history);
    hide RunsFor, Samples, TestKey, Concerns, IsRunOf, IsLatest, LastSeen, LastFailed, Fails, Total;
    forall s, t | s in series && Concerns(s, key) && t in s.times ensures HasRun(r.history, s, t) {
      SamplesBecomeRuns(series, key, s, t);
    }
  }

  /** What was counted is what the series say. */
  lemma BooksReport(tests: map<string, TestRecord>, series: seq<Series>)
    requires Books(tests, Samples(series))
    ensures forall k :: k in tests <==> exists s | s in series :: Concerns(s, k) && s.times != []
    ensures forall k | k in tests :: Reports(tests[k], series, k)
  {
    hide RunsFor, Samples, TestKey, Concerns, Reports, Accounts;
    forall k
      ensures k in tests <==> exists s | s in series :: Concerns(s, k) && s.times != []
      ensures k in tests ==> Reports(tests[k], series, k)
    {
      NonemptyExactlyWhen(series, k);
      if k in tests {
        RecordReports(tests[k], series, k);
      }
    }
  }

  /** One sample counted into its test's record. */
  method Count(r: TestRecord, run: RunOutcome) returns (record: TestRecord)
    requires Accounts(r)
    ensures Accounts(record) && record.history == r.history + [run]
    ensures record.name == r.name && record.suite == r.suite && record.job == r.job
  {
    record := r.(totalRuns := r.totalRuns + 1);
    if run.failed {
      record := record.(failedRuns := record.failedRuns + 1);
      if run.timestamp > record.lastFailed {
        record := record.(lastFailed := run.timestamp);
      }
    } else {
      record := record.(passedRuns := record.passedRuns + 1);
    }
    if run.timestamp > record.lastSeen {
      record := record.(lastSeen := run.timestamp);
    }
    record := record.(history := record.history + [run]);
    assert record.history[..|r.history|] == r.history;
  }

  lemma RunsForStep(xs: seq<Sample>, x: Sample, key: string)
    ensures RunsFor(xs + [x], key) == RunsFor(xs, key) + if KeyOfSample(x) == key then [x.run] else []
  {
    assert (xs + [x])[..|xs|] == xs;
  }

  lemma BooksStep(tests: map<string, TestRecord>, xs: seq<Sample>, x: Sample, record: TestRecord)
    requires Books(tests, xs) && Accounts(record) && record.history == RunsFor(xs, KeyOfSample(x)) + [x.run]
    requires TestKey(record.name, record.suite, record.job) == KeyOfSample(x)
    ensures Books(tests[KeyOfSample(x) := record], xs + [x])
  {
    hide Accounts, RunsFor, TestKey;
    forall k ensures RunsFor(xs + [x], k) == RunsFor(xs, k) + if KeyOfSample(x) == k then [x.run] else [] {
      RunsForStep(xs, x, k);
    }
  }

  method Accumulate(tests: map<string, TestRecord>, x: Sample, ghost xs: seq<Sample>)
    returns (after: map<string, TestRecord>)
    requires Books(tests, xs)
    ensures Books(after, xs + [x])
  {
    var key := KeyOfSample(x);
    var record := TestRecord(x.name, x.suite, x.job, 0, 0, 0, ZERO_TIME, ZERO_TIME, []);
    if key in tests {
      record := tests[key];
    }
    assert Accounts(record) && record.history == RunsFor(xs, key);
    hide Accounts, RunsFor, Books;
    record := Count(record, x.run);
    BooksStep(tests, xs, x, record);
    after := tests[key := record];
  }

  /** `Analyze`, on series already read. */
  method Analyze(series: seq<Series>) returns (tests: map<string, TestRecord>)
    ensures Books(tests, Samples(series))
    ensures forall k :: k in tests <==> exists s | s in series :: Concerns(s, k) && s.times != []
    ensures forall k | k in tests :: Reports(tests[k], series, k)
  {
    tests := map[];
    for i := 0 to |series|
      invariant Books(tests, Samples(series[..i]))
    {
      assert series[..i + 1][..i] == series[..i];
      var s := series[i];
      ghost var counted := Samples(series[..i]);
      if !Analyzable(s) {
        assert counted + [] == counted;
        continue;
      }
      assert counted + SamplesOf(s)[..0] == counted;
      for j := 0 to |s.times|
        invariant Books(tests, counted + SamplesOf(s)[..j])
      {
        var x := Sample(s.name, s.suite, s.job,
                        RunOutcome(s.times[j], s.result != OutcomePass, s.buildID, s.commitSHA, s.prNumber));
        assert x == SamplesOf(s)[j] && SamplesOf(s)[..j + 1] == SamplesOf(s)[..j] + [x];
        assert counted + SamplesOf(s)[..j + 1] == counted + SamplesOf(s)[..j] + [x];
        tests := Accumulate(tests, x, counted + SamplesOf(s)[..j]);
      }
      assert SamplesOf(s)[..|s.times|] == SamplesOf(s);
    }
    assert series[..|series|] == series;
    BooksReport(tests, series);
  }

  // ----- classification -----

  datatype ClassifyOptions = ClassifyOptions(minRecentFails: int, maxPreFailRate: real, minRuns: int)

  datatype AnalysisResult = AnalysisResult(pattern: FailurePattern, transition: Option<RunOutcome>)

  function WithDefaults(o: ClassifyOptions): ClassifyOptions {
    ClassifyOptions(if o.minRecentFails <= 0 then 3 else o.minRecentFails,
                    if o.maxPreFailRate <= 0.0 then 0.2 else o.maxPreFailRate,
                    if o.minRuns <= 0 then 1 else o.minRuns)
  }

  function ByTime(): (RunOutcome, RunOutcome) -> bool {
    (x: RunOutcome, y: RunOutcome) => x.timestamp <= y.timestamp
  }

  function SortedHistory(r: TestRecord): seq<RunOutcome> {
    StableSort(ByTime(), r.history)
  }

  function TrailingFailures(s: seq<RunOutcome>): (n: nat)
    ensures n <= |s|
  {
    if s == [] || !s[|s| - 1].failed then 0 else TrailingFailures(s[..|s| - 1]) + 1
  }

  method CountTrailingFailures(sorted: seq<RunOutcome>) returns (count: nat)
    ensures count == TrailingFailures(sorted)
  {
    count := 0;
    var i := |sorted|;
    assert sorted[..i] == sorted;
    while i > 0
      invariant 0 <= i <= |sorted|
      invariant count + TrailingFailures(sorted[..i]) == TrailingFailures(sorted)
    {
      assert sorted[..i][..i - 1] == sorted[..i - 1];
      i := i - 1;
      if !sorted[i].failed {
        break;
      }
      count := count + 1;
    }
  }

  function Rate(fails: nat, runs: nat): real
    requires runs > 0
  {
    fails as real / runs as real
  }

  function Analyzed(r: TestRecord, opts: ClassifyOptions): AnalysisResult {
    var o, sorted := WithDefaults(opts), SortedHistory(r);
    var start := |sorted| - TrailingFailures(sorted);
    if r.totalRuns < o.minRuns || r.failedRuns == 0 then AnalysisResult(PatternHealthy, None)
    else if r.passedRuns == 0 then AnalysisResult(PatternPersistent, None)
    else if |sorted| < 2 then AnalysisResult(PatternFlaky, None)
    else if TrailingFailures(sorted) < o.minRecentFails then AnalysisResult(PatternFlaky, None)
    else if start == 0 then AnalysisResult(PatternPersistent, None)
    else if Rate(Fails(sorted[..start]), start) <= o.maxPreFailRate then
      AnalysisResult(PatternRegression, Some(sorted[start]))
    else AnalysisResult(PatternFlaky, None)
  }

  method AnalyzeWith(r: TestRecord, options: ClassifyOptions) returns (a: AnalysisResult)
    ensures a == Analyzed(r, options)
  {
    var opts := WithDefaults(options);
    if r.totalRuns < opts.minRuns || r.failedRuns == 0 {
      return AnalysisResult(PatternHealthy, None);
    }
    if r.passedRuns == 0 {
      return AnalysisResult(PatternPersistent, None);
    }
    var sorted := SortedHistory(r);
    if |sorted| < 2 {
      return AnalysisResult(PatternFlaky, None);
    }
    var trailing := CountTrailingFailures(sorted);
    if trailing < opts.minRecentFails {
      return AnalysisResult(PatternFlaky, None);
    }
    var end := |sorted| - trailing;
    if end == 0 {
      return AnalysisResult(PatternPersistent, None);
    }
    var preFails := 0;
    for i := 0 to end
      invariant preFails == Fails(sorted[..i])
    {
      assert sorted[..i + 1][..i] == sorted[..i];
      if sorted[i].failed {
        preFails := preFails + 1;
      }
    }
    if Rate(preFails, end) <= opts.maxPreFailRate {
      return AnalysisResult(PatternRegression, Some(sorted[end]));
    }
    return AnalysisResult(PatternFlaky, None);
  }

  // ----- laws -----

  lemma {:induction false} FailsAppend(s: seq<RunOutcome>, t: seq<RunOutcome>)
    ensures Fails(s + t) == Fails(s) + Fails(t)
    decreases |t|
  {
    if t == [] {
      assert s + t == s;
    } else {
      assert (s + t)[..|s + t| - 1] == s + t[..|t| - 1];
      FailsAppend(s, t[..|t| - 1]);
    }
  }

  lemma FailsWithout(t: seq<RunOutcome>, i: nat)
    requires i < |t|
    ensures Fails(t) == Fails(t[..i] + t[i + 1..]) + Fails([t[i]])
    ensures multiset(t) == multiset(t[..i] + t[i + 1..]) + multiset{t[i]}
  {
    hide Fails;
    assert t == t[..i] + ([t[i]] + t[i + 1..]);
    FailsAppend(t[..i], [t[i]] + t[i + 1..]);
    FailsAppend([t[i]], t[i + 1..]);
    FailsAppend(t[..i], t[i + 1..]);
  }

  lemma SameRest<T>(s: seq<T>, t: seq<T>, i: nat)
    requires multiset(s) == multiset(t) && s != [] && i < |t| && t[i] == s[0]
    ensures multiset(s[1..]) == multiset(t[..i] + t[i + 1..])
  {
    TakenOut(s, 0);
    TakenOut(t, i);
    assert s[..0] + s[0 + 1..] == s[1..];
  }

  lemma TakenOut<T>(s: seq<T>, i: nat)
    requires i < |s|
    ensures multiset(s[..i] + s[i + 1..]) == multiset(s) - multiset{s[i]}
  {
    assert s == s[..i] + [s[i]] + s[i + 1..];
  }

  lemma {:induction false} FailsPermute(s: seq<RunOutcome>, t: seq<RunOutcome>)
    requires multiset(s) == multiset(t)
    ensures Fails(s) == Fails(t)
    decreases |s|
  {
    hide Fails;
    assert |multiset(s)| == |s| && |multiset(t)| == |t|;
    if s == [] {
      assert t == [];
    } else {
      assert s[0] in multiset(t);
      var i :| 0 <= i < |t| && t[i] == s[0];
      FailsWithout(t, i);
      FailsAppend([s[0]], s[1..]);
      assert s == [s[0]] + s[1..];
      SameRest(s, t, i);
      FailsPermute(s[1..], t[..i] + t[i + 1..]);
    }
  }

  lemma {:induction false} FailsBounds(s: seq<RunOutcome>)
    ensures Fails(s) <= |s|
    ensures Fails(s) == |s| <==> forall x | x in s :: x.failed
    ensures Fails(s) == 0 <==> forall x | x in s :: !x.failed
  {
    if s != [] {
      var front := s[..|s| - 1];
      FailsBounds(front);
      assert s == front + [s[|s| - 1]];
    }
  }

  /** The trailing streak: all failures, and the run before it passed. */
  lemma {:induction false} TrailingIsMaximal(s: seq<RunOutcome>)
    ensures var start := |s| - TrailingFailures(s);
            && (forall i | start <= i < |s| :: s[i].failed)
            && (start > 0 ==> !s[start - 1].failed)
  {
    if s != [] && s[|s| - 1].failed {
      TrailingIsMaximal(s[..|s| - 1]);
    }
  }

  lemma {:induction false} TrailingUnique(s: seq<RunOutcome>, p: nat)
    requires 0 < p <= |s| && !s[p - 1].failed && forall i | p <= i < |s| :: s[i].failed
    ensures |s| - TrailingFailures(s) == p
  {
    if p < |s| {
      TrailingUnique(s[..|s| - 1], p);
    }
  }

  lemma HistoryFacts(r: TestRecord)
    requires Accounts(r)
    ensures |SortedHistory(r)| == r.totalRuns && Fails(SortedHistory(r)) == r.failedRuns
    ensures multiset(SortedHistory(r)) == multiset(r.history)
    ensures r.failedRuns + r.passedRuns == r.totalRuns && 0 <= r.failedRuns <= r.totalRuns
  {
    SortPermutes(ByTime(), r.history);
    FailsPermute(SortedHistory(r), r.history);
    FailsBounds(r.history);
  }

  /** For accumulated records the short-history and empty-prefix branches are never taken. */
  lemma DefensiveBranchesAreDead(r: TestRecord)
    requires Accounts(r) && r.failedRuns > 0 && r.passedRuns > 0
    ensures |SortedHistory(r)| >= 2
    ensures TrailingFailures(SortedHistory(r)) < |SortedHistory(r)|
  {
    var s := SortedHistory(r);
    HistoryFacts(r);
    FailsBounds(s);
    TrailingIsMaximal(s);
    var x :| x in s && !x.failed;
    var i :| 0 <= i < |s| && s[i] == x;
    assert i < |s| - TrailingFailures(s);
  }

  lemma HealthyExactlyWhen(r: TestRecord, opts: ClassifyOptions)
    requires Accounts(r)
    ensures Analyzed(r, opts).pattern == PatternHealthy <==>
            r.totalRuns < WithDefaults(opts).minRuns || forall x | x in r.history :: !x.failed
  {
    FailsBounds(r.history);
  }

  lemma PersistentExactlyWhen(r: TestRecord, opts: ClassifyOptions)
    requires Accounts(r)
    ensures Analyzed(r, opts).pattern == PatternPersistent <==>
            r.totalRuns >= WithDefaults(opts).minRuns && forall x | x in r.history :: x.failed
  {
    FailsBounds(r.history);
    HistoryFacts(r);
    if r.failedRuns > 0 && r.passedRuns > 0 {
      DefensiveBranchesAreDead(r);
    }
  }

  /** The runs step from mostly passing to failing at `p`: the run before it passed, and none has since. */
  predicate StepsAt(s: seq<RunOutcome>, p: nat, o: ClassifyOptions)
    ensures StepsAt(s, p, o) ==> p < |s|
  {
    && 0 < p < |s| && !s[p - 1].failed && (forall i | p <= i < |s| :: s[i].failed)
    && |s| - p >= o.minRecentFails
    && Fails(s[..p]) as real <= o.maxPreFailRate * p as real
  }

  lemma RateBound(fails: nat, runs: nat, rate: real)
    requires runs > 0
    ensures Rate(fails, runs) <= rate <==> fails as real <= rate * runs as real
  {
    var q := fails as real / runs as real;
    assert q * runs as real == fails as real;
    if q <= rate {
      assert (rate - q) * runs as real >= 0.0;
    } else {
      assert (q - rate) * runs as real > 0.0;
    }
  }

  lemma RegressionIsStep(r: TestRecord, opts: ClassifyOptions) returns (p: nat)
    requires Accounts(r) && Analyzed(r, opts).pattern == PatternRegression
    ensures r.totalRuns >= WithDefaults(opts).minRuns && StepsAt(SortedHistory(r), p, WithDefaults(opts))
  {
    hide SortedHistory, Fails, TrailingFailures, Rate;
    var s := SortedHistory(r);
    TrailingIsMaximal(s);
    p := |s| - TrailingFailures(s);
    RateBound(Fails(s[..p]), p, WithDefaults(opts).maxPreFailRate);
  }

  lemma BothKindsOccur(s: seq<RunOutcome>, p: nat)
    requires 0 < p < |s| && s[p].failed && !s[p - 1].failed
    ensures 0 < Fails(s) < |s|
  {
    FailsBounds(s);
    assert s[p] in s && s[p - 1] in s;
  }

  /** What a step says: where the streak starts, and that both kinds of run occur. */
  lemma StepParts(s: seq<RunOutcome>, p: nat, o: ClassifyOptions)
    requires StepsAt(s, p, o)
    ensures 0 < p == |s| - TrailingFailures(s) && 2 <= |s| && 0 < Fails(s) < |s|
    ensures TrailingFailures(s) >= o.minRecentFails && Rate(Fails(s[..p]), p) <= o.maxPreFailRate
  {
    hide Fails, TrailingFailures, Rate;
    BothKindsOccur(s, p);
    TrailingUnique(s, p);
    RateBound(Fails(s[..p]), p, o.maxPreFailRate);
  }

  lemma StepIsRegression(r: TestRecord, opts: ClassifyOptions, p: nat)
    requires Accounts(r) && r.totalRuns >= WithDefaults(opts).minRuns
    requires StepsAt(SortedHistory(r), p, WithDefaults(opts))
    ensures Analyzed(r, opts) == AnalysisResult(PatternRegression, Some(SortedHistory(r)[p]))
  {
    hide SortedHistory, Fails, TrailingFailures, Accounts, Rate, StepsAt, WithDefaults;
    HistoryFacts(r);
    StepParts(SortedHistory(r), p, WithDefaults(opts));
  }

  /** A regression is exactly a step in the time-ordered runs, and its transition is the first run after the step. */
  lemma RegressionExactlyWhen(r: TestRecord, opts: ClassifyOptions)
    requires Accounts(r)
    ensures var o, s, a := WithDefaults(opts), SortedHistory(r), Analyzed(r, opts);
            && (a.pattern == PatternRegression <==> r.totalRuns >= o.minRuns && exists p: nat :: StepsAt(s, p, o))
            && (a.transition.Some? <==> a.pattern == PatternRegression)
            && (forall p: nat | a.pattern == PatternRegression && StepsAt(s, p, o) :: a.transition == Some(s[p]))
  {
    var o, s, a := WithDefaults(opts), SortedHistory(r), Analyzed(r, opts);
    assert a.transition.Some? <==> a.pattern == PatternRegression;
    hide Analyzed, SortedHistory, StepsAt, Accounts;
    if a.pattern == PatternRegression {
      var p := RegressionIsStep(r, opts);
    }
    forall p: nat | StepsAt(s, p, o) && r.totalRuns >= o.minRuns
      ensures p < |s| && a == AnalysisResult(PatternRegression, Some(s[p]))
    {
      StepIsRegression(r, opts, p);
    }
  }

  /** Once the newest run passes a regression is over. */
  lemma PassEndsRegression(r: TestRecord, opts: ClassifyOptions)
    requires Accounts(r) && r.history != [] && !SortedHistory(r)[|SortedHistory(r)| - 1].failed
    ensures Analyzed(r, opts).pattern in {PatternHealthy, PatternFlaky}
  {
    HistoryFacts(r);
    RegressionExactlyWhen(r, opts);
    PersistentExactlyWhen(r, opts);
    var s := SortedHistory(r);
    SortKeepsMembers(ByTime(), r.history);
    assert s[|s| - 1] in s;
  }

  ghost predicate DistinctTimes(runs: seq<RunOutcome>) {
    forall x, y | x in runs && y in runs && x.timestamp == y.timestamp :: x == y
  }

  /** The order in which runs were read does not matter when their times differ. */
  lemma ClassificationForgetsOrder(r: TestRecord, q: TestRecord, opts: ClassifyOptions)
    requires Accounts(r) && Accounts(q) && multiset(r.history) == multiset(q.history)
    requires DistinctTimes(r.history)
    ensures Analyzed(r, opts) == Analyzed(q, opts)
  {
    assert |multiset(r.history)| == |r.history| && |multiset(q.history)| == |q.history|;
    FailsPermute(r.history, q.history);
    SortForgetsOrder(ByTime(), r.history, q.history);
  }

  /** With equal times it does: a pass and a failure at one instant are a regression in one order only. */
  lemma TiesShowOrder(x: RunOutcome, y: RunOutcome, r: TestRecord, q: TestRecord)
    requires x.timestamp == y.timestamp && !x.failed && y.failed
    requires Accounts(r) && Accounts(q) && r.history == [x, y] && q.history == [y, x]
    ensures var opts := ClassifyOptions(1, 0.2, 1);
            && multiset(r.history) == multiset(q.history)
            && Analyzed(r, opts) == AnalysisResult(PatternRegression, Some(y))
            && Analyzed(q, opts) == AnalysisResult(PatternFlaky, None)
  {
    assert multiset([x, y]) == multiset{x, y} == multiset([y, x]);
    var opts := ClassifyOptions(1, 0.2, 1);
    SortOfSorted(ByTime(), [x, y]);
    SortOfSorted(ByTime(), [y, x]);
    assert [x, y][..1] == [x] && [x][..0] == [] && [y, x][..1] == [y] && [y][..0] == [];
    assert Fails([x]) == 0 && Fails([x, y]) == 1 && Fails([y, x]) == 1;
    assert TrailingFailures([x, y]) == 1 && TrailingFailures([y, x]) == 0;
  }

  // ----- the quarantine list -----

  function FlakeRate(r: TestRecord): real {
    if r.totalRuns == 0 then 0.0 else r.failedRuns as real / r.totalRuns as real
  }

  /** The commit a regression is blamed on: the build stands in for a commit that is not known. */
  function BlamedOn(t: RunOutcome): string {
    if t.commitSHA != "" then t.commitSHA else t.buildID
  }

  function Listed(r: TestRecord, opts: ClassifyOptions, threshold: real): Entry {
    var a := Analyzed(r, opts);
    Entry(r.name, r.suite, r.job, a.pattern == PatternFlaky && FlakeRate(r) > threshold, a.pattern, FlakeRate(r),
          r.totalRuns, r.failedRuns,
          if a.transition.Some? then BlamedOn(a.transition.value) else "",
          if a.transition.Some? then a.transition.value.prNumber else "",
          r.lastSeen, r.lastFailed, "")
  }

  /** The entry of a test, field by field; the flake rate is the share of failures in all runs. */
  predicate Describes(e: Entry, r: TestRecord, opts: ClassifyOptions, threshold: real) {
    var a := Analyzed(r, opts);
    && e.name == r.name && e.suite == r.suite && e.job == r.job
    && e.classification == a.pattern && e.jiraKey == ""
    && e.totalRuns == r.totalRuns && e.failedRuns == r.failedRuns
    && e.lastSeen == r.lastSeen && e.lastFailed == r.lastFailed
    && (r.totalRuns != 0 ==> e.flakeRate * r.totalRuns as real == r.failedRuns as real)
    && (r.totalRuns == 0 ==> e.flakeRate == 0.0)
    && (r.totalRuns > 0 ==>
          (e.quarantined <==> a.pattern == PatternFlaky && r.failedRuns as real > threshold * r.totalRuns as real))
    && match a.transition
       case None => e.regressionSHA == "" && e.regressionPR == ""
       case Some(t) =>
         && e.regressionPR == t.prNumber
         && (t.commitSHA != "" ==> e.regressionSHA == t.commitSHA)
         && (t.commitSHA == "" ==> e.regressionSHA == t.buildID)
  }

  lemma ListedDescribes(r: TestRecord, opts: ClassifyOptions, threshold: real)
    ensures Describes(Listed(r, opts, threshold), r, opts, threshold)
  {
    if r.totalRuns > 0 {
      RateExceeds(r.failedRuns, r.totalRuns, threshold);
    }
    hide Analyzed;
  }

  lemma RateExceeds(fails: int, runs: int, rate: real)
    requires runs > 0
    ensures fails as real / runs as real > rate <==> fails as real > rate * runs as real
  {
    var q := fails as real / runs as real;
    assert q * runs as real == fails as real;
    if q <= rate {
      assert (rate - q) * runs as real >= 0.0;
    } else {
      assert (q - rate) * runs as real > 0.0;
    }
  }

  /** For a record of `Analyze`: quarantined if and only if flaky and failing more often than the threshold allows. */
  lemma QuarantinedExactlyWhen(r: TestRecord, opts: ClassifyOptions, threshold: real)
    requires Accounts(r) && r.history != []
    ensures var e := Listed(r, opts, threshold);
            && (e.quarantined <==>
                  && Analyzed(r, opts).pattern == PatternFlaky
                  && Fails(r.history) as real > threshold * |r.history| as real)
            && e.flakeRate * |r.history| as real == Fails(r.history) as real
  {
    ListedDescribes(r, opts, threshold);
    hide Listed, Analyzed, Fails;
    var e := Listed(r, opts, threshold);
    SameShare(e, Analyzed(r, opts).pattern == PatternFlaky, r.totalRuns, r.failedRuns, |r.history|, Fails(r.history),
        threshold);
  }

  lemma SameShare(e: Entry, flaky: bool, total: int, failed: int, n: int, fails: int, threshold: real)
    requires total == n && failed == fails
    requires e.flakeRate * total as real == failed as real
    requires e.quarantined <==> flaky && failed as real > threshold * total as real
    ensures e.quarantined <==> flaky && fails as real > threshold * n as real
    ensures e.flakeRate * n as real == fails as real
  {
  }

  /** What stands in for options that are not positive. */
  lemma DefaultsFillIn(o: ClassifyOptions)
    ensures var d := WithDefaults(o);
            && d.minRecentFails == (if o.minRecentFails > 0 then o.minRecentFails else 3)
            && d.maxPreFailRate == (if o.maxPreFailRate > 0.0 then o.maxPreFailRate else 0.2)
            && d.minRuns == (if o.minRuns > 0 then o.minRuns else 1)
  {
  }

  /** The highest flake rate first, then by key. */
  function ByRate(): (Entry, Entry) -> bool {
    (x: Entry, y: Entry) => if x.flakeRate != y.flakeRate then x.flakeRate > y.flakeRate else Leq(KeyOf(x), KeyOf(y))
  }

  lemma ByRateIsTotal()
    ensures TotalPreorder(ByRate())
  {
    StringOrderIsTotal();
    forall x: Entry, y: Entry ensures ByRate()(x, y) || ByRate()(y, x) {
      assert StringOrder()(KeyOf(x), KeyOf(y)) || StringOrder()(KeyOf(y), KeyOf(x));
    }
    forall x: Entry, y: Entry, z: Entry | ByRate()(x, y) && ByRate()(y, z) ensures ByRate()(x, z) {
      if x.flakeRate == y.flakeRate == z.flakeRate {
        LeqTransitive(KeyOf(x), KeyOf(y), KeyOf(z));
      }
    }
  }

  /**
   * One entry for every test that is not healthy, quarantined exactly when it is
   * flaky beyond the threshold, no test twice, in a fixed order.
   */
  method QuarantineList(tests: map<string, TestRecord>, opts: ClassifyOptions, threshold: real)
    returns (entries: seq<Entry>)
    requires forall k | k in tests :: TestKey(tests[k].name, tests[k].suite, tests[k].job) == k
    ensures DistinctKeys(entries) && Sorted(ByRate(), entries)
    ensures forall e :: e in entries <==>
                        exists k | k in tests ::
                          Analyzed(tests[k], opts).pattern != PatternHealthy && e == Listed(tests[k], opts, threshold)
    ensures forall e | e in entries :: KeyOf(e) in tests && Describes(e, tests[KeyOf(e)], opts, threshold)
  {
    entries := [];
    var pending := tests.Keys;
    while pending != {}
      invariant pending <= tests.Keys
      invariant DistinctKeys(entries) && forall e | e in entries :: KeyOf(e) in tests && KeyOf(e) !in pending
      invariant forall e :: e in entries <==>
                            exists k | k in tests && k !in pending ::
                              && Analyzed(tests[k], opts).pattern != PatternHealthy
                              && e == Listed(tests[k], opts, threshold)
      decreases pending
    {
      var k :| k in pending;
      var a := AnalyzeWith(tests[k], opts);
      ghost var before := entries;
      if a.pattern != PatternHealthy {
        var entry := Entry(tests[k].name, tests[k].suite, tests[k].job,
                           a.pattern == PatternFlaky && FlakeRate(tests[k]) > threshold, a.pattern, FlakeRate(tests[k]),
                           tests[k].totalRuns, tests[k].failedRuns, "", "", tests[k].lastSeen, tests[k].lastFailed, "");
        if a.transition.Some? {
          var sha := a.transition.value.commitSHA;
          if sha == "" {
            sha := a.transition.value.buildID;
          }
          entry := entry.(regressionSHA := sha, regressionPR := a.transition.value.prNumber);
        }
        assert KeyOf(entry) == k;
        entries := entries + [entry];
      }
      pending := pending - {k};
    }
    ByRateIsTotal();
    SortSorts(ByRate(), entries);
    SortKeepsMembers(ByRate(), entries);
    SortPermutes(ByRate(), entries);
    PermutedKeysDistinct(entries, StableSort(ByRate(), entries));
    entries := StableSort(ByRate(), entries);
    forall e | e in entries ensures KeyOf(e) in tests && Describes(e, tests[KeyOf(e)], opts, threshold) {
      var k :| k in tests && Analyzed(tests[k], opts).pattern != PatternHealthy
               && e == Listed(tests[k], opts, threshold);
      ListedDescribes(tests[k], opts, threshold);
    }
  }

  lemma PermutedKeysDistinct(es: seq<Entry>, fs: seq<Entry>)
    requires DistinctKeys(es) && multiset(es) == multiset(fs)
    ensures DistinctKeys(fs)
  {
    DistinctPermutes(es, fs);
    forall i, j | 0 <= i < j < |fs| ensures KeyOf(fs[i]) != KeyOf(fs[j]) {
      assert fs[i] in multiset(fs) && fs[j] in multiset(fs);
      assert fs[i] in es && fs[j] in es;
    }
  }
}
