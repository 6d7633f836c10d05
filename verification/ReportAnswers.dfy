/** What the study's final report admits and counts, read off its records one attempt at a time. */
module ReportAnswers {
  import opened Common
  import opened StudyObserver
  import opened Tallies
  import opened Finalizer
  import opened FinalReport
  import ObserverAnswers

  // ---- what is admitted ----

  /** The record is of this study: a first run on main, of its host and policy, with nothing private kept. */
  ghost predicate OfStudy(env: Env, record: Record) {
    var r := record.receipt;
    && record.run.onMain && record.run.attempt == 1 && r.ownScope && r.schema == 2
    && r.host == env.host && r.policy == env.policy && !r.bodiesRetained && !r.credentials
  }

  /** Observed in the window, in UTC, and filed under its own hour. */
  ghost predicate OfHour(env: Env, r: Receipt) {
    && r.observedAt.utc && env.starts.instant <= r.observedAt.instant < env.ends.instant
    && r.slot == Number((r.observedAt.instant - env.starts.instant) / 3_600_000_000)
  }

  /** The hour's route, and a platform that its own trace confirms. */
  ghost predicate IsAttributed(slot: int, s: Sample) {
    && slot >= 0 && ObserverAnswers.IsTurnOf(s.route, slot)
    && (s.platform == Unobserved
        || (s.platform == Cold && s.trace == Some(Trace(true, Some(Cold))))
        || (s.platform == Warm && s.trace == Some(Trace(true, Some(Warm)))))
  }

  ghost predicate IsLawful(env: Env, record: Record) {
    var r := record.receipt;
    && OfStudy(env, record) && OfHour(env, r)
    && (|r.samples| == 1 || |r.samples| == 2)
    && r.samples[0].phase == First && (|r.samples| == 2 ==> r.samples[1].phase == Paired)
    && forall i :: 0 <= i < |r.samples| ==> IsAttributed(r.slot.n, r.samples[i])
  }

  lemma SampleRefusalMeaning(slot: nat, s: Sample)
    ensures SampleRefusal(slot, s).None? <==> IsAttributed(slot, s)
    ensures SampleRefusal(slot, s) == Some(RotatingRouteRefused) <==> !ObserverAnswers.IsTurnOf(s.route, slot)
    ensures SampleRefusal(slot, s) == Some(PlatformCohortRefused) <==>
      ObserverAnswers.IsTurnOf(s.route, slot) && s.platform == OtherPlatform
    ensures SampleRefusal(slot, s).Some? ==>
      SampleRefusal(slot, s).value in {RotatingRouteRefused, PlatformCohortRefused, PlatformAttributionRefused}
  {
  }

  lemma {:induction false} FirstRefusalMeaning(slot: nat, samples: seq<Sample>)
    ensures FirstRefusal(slot, samples).None? <==> forall i :: 0 <= i < |samples| ==> IsAttributed(slot, samples[i])
    ensures FirstRefusal(slot, samples).Some? ==> exists i ::
      && 0 <= i < |samples| && SampleRefusal(slot, samples[i]) == FirstRefusal(slot, samples)
      && forall j :: 0 <= j < i ==> IsAttributed(slot, samples[j])
  {
    if samples != [] {
      SampleRefusalMeaning(slot, samples[0]);
      FirstRefusalMeaning(slot, samples[1..]);
      if IsAttributed(slot, samples[0]) {
        if FirstRefusal(slot, samples).Some? {
          var i :| 0 <= i < |samples[1..]| && SampleRefusal(slot, samples[1..][i]) == FirstRefusal(slot, samples[1..])
                   && forall j :: 0 <= j < i ==> IsAttributed(slot, samples[1..][j]);
          assert samples[i + 1] == samples[1..][i];
          assert forall j :: 1 <= j < i + 1 ==> samples[j] == samples[1..][j - 1];
        }
        assert forall i :: 1 <= i < |samples| ==> samples[i] == samples[1..][i - 1];
      }
    }
  }

  /** A scheduled record is admitted exactly when it is of this study and of its hour, has a first and at most a
    * paired sample, and every sample is of the hour's route with a platform that its trace confirms. Otherwise
    * the first of these that fails is named.
    */
  lemma InspectMeaning(env: Env, record: Record)
    requires env.starts.utc && env.ends.utc
    ensures Inspect(env, record).None? <==> IsLawful(env, record)
    ensures Inspect(env, record) == Some(ProvenanceRefused) <==> !OfStudy(env, record)
    ensures Inspect(env, record) == Some(WindowRefused) <==> OfStudy(env, record) && !OfHour(env, record.receipt)
    ensures Inspect(env, record) == Some(SampleCountRefused) <==>
      OfStudy(env, record) && OfHour(env, record.receipt) && |record.receipt.samples| !in {1, 2}
    ensures Inspect(env, record) == Some(SamplePhaseRefused) <==>
      && OfStudy(env, record) && OfHour(env, record.receipt) && |record.receipt.samples| in {1, 2}
      && (record.receipt.samples[0].phase != First ||
          (|record.receipt.samples| == 2 && record.receipt.samples[1].phase != Paired))
  {
    if OfStudy(env, record) && OfHour(env, record.receipt) {
      FirstRefusalMeaning(record.receipt.slot.n, record.receipt.samples);
      forall i | 0 <= i < |record.receipt.samples|
        ensures SampleRefusal(record.receipt.slot.n, record.receipt.samples[i]).Some? ==>
          SampleRefusal(record.receipt.slot.n, record.receipt.samples[i]).value
            in {RotatingRouteRefused, PlatformCohortRefused, PlatformAttributionRefused}
      {
        SampleRefusalMeaning(record.receipt.slot.n, record.receipt.samples[i]);
      }
    }
  }

  // ---- what is counted ----

  /** One attempt: a sample with the record that holds it. */
  datatype Attempt = Attempt(record: Record, sample: Sample)

  function AttemptsIn(record: Record, samples: seq<Sample>): seq<Attempt> {
    if samples == [] then [] else [Attempt(record, samples[0])] + AttemptsIn(record, samples[1..])
  }

  /** Every sample of every scheduled record, in order. */
  function Attempts(records: seq<Record>): seq<Attempt> {
    if records == [] then []
    else
      (if records[0].run.scheduled then AttemptsIn(records[0], records[0].receipt.samples) else [])
      + Attempts(records[1..])
  }

  function Only(attempts: seq<Attempt>, test: Attempt -> bool): seq<Sample> {
    if attempts == [] then []
    else (if test(attempts[0]) then [attempts[0].sample] else []) + Only(attempts[1..], test)
  }

  /** The attempt was made under these seven circumstances; an absent one counts as unobserved. */
  predicate MadeUnder(k: Key, a: Attempt) {
    var r, s := a.record, a.sample;
    && k.commit == r.run.commit && k.route == s.route && k.phase == s.phase && k.edge == s.edge
    && k.platform == s.platform
    && k.database == (if r.receipt.lifecycle.Some? then r.receipt.lifecycle.value else UnobservedDatabase)
    && k.process == (if s.timing.Some? then s.timing.value.process else UnobservedProcess)
  }

  /** The figures are those of the measures of these attempts. */
  ghost predicate Measured(measures: seq<Measure>, attempts: seq<Attempt>) {
    |measures| == |attempts| && forall i :: 0 <= i < |measures| ==>
      measures[i].sample == attempts[i].sample && MadeUnder(measures[i].key, attempts[i])
  }

  lemma {:induction false} SamplesAreMeasured(record: Record, samples: seq<Sample>)
    ensures Measured(SampleMeasures(record, samples), AttemptsIn(record, samples))
  {
    if samples != [] {
      SamplesAreMeasured(record, samples[1..]);
    }
  }

  lemma {:induction false} AttemptsAreMeasured(records: seq<Record>)
    ensures Measured(Measures(Scheduled(records)), Attempts(records))
  {
    if records != [] {
      AttemptsAreMeasured(records[1..]);
      if records[0].run.scheduled {
        SamplesAreMeasured(records[0], records[0].receipt.samples);
        assert ([records[0]] + Scheduled(records[1..]))[1..] == Scheduled(records[1..]);
      } else {
        assert [] + Scheduled(records[1..]) == Scheduled(records[1..]);
        assert [] + Attempts(records[1..]) == Attempts(records[1..]);
      }
    }
  }

  lemma OneKeyEach(k: Key, l: Key, a: Attempt)
    requires MadeUnder(k, a) && MadeUnder(l, a)
    ensures k == l
  {
  }

  lemma {:induction false} UnderMeaning(measures: seq<Measure>, attempts: seq<Attempt>, k: Key)
    requires Measured(measures, attempts)
    ensures Under(measures, k) == Only(attempts, a => MadeUnder(k, a))
    decreases |measures|
  {
    if measures != [] {
      assert measures[0].sample == attempts[0].sample && MadeUnder(measures[0].key, attempts[0]);
      if MadeUnder(k, attempts[0]) { OneKeyEach(k, measures[0].key, attempts[0]); }
      UnderMeaning(measures[1..], attempts[1..], k);
    }
  }

  /** The counter counts the attempts that pass a test, when its file agrees with the test. */
  lemma {:induction false} CountMeaning<K>(measures: seq<Measure>, attempts: seq<Attempt>, file: Measure -> Option<K>,
                                           k: K, test: Attempt -> bool)
    requires Measured(measures, attempts)
    requires forall i :: 0 <= i < |measures| ==> (file(measures[i]) == Some(k) <==> test(attempts[i]))
    ensures CountUnder(measures, file, k) == |Only(attempts, test)|
    decreases |measures|
  {
    if measures != [] {
      CountMeaning(measures[1..], attempts[1..], file, k, test);
    }
  }

  /** The report keeps code, route, phase, edge, platform, database state and process apart: each cohort is the
    * list of exactly the attempts made under its seven circumstances, and every attempt is in one.
    */
  lemma CohortMeaning(metrics: set<string>, env: Env, records: seq<Record>, now: int, report: Report)
    requires IsReport(metrics, env, records, now, report)
    ensures forall k :: k in report.cohorts ==>
      var samples := Only(Attempts(records), a => MadeUnder(k, a));
      samples != [] && IsCohort(metrics, report.cohorts[k], samples)
    ensures forall a :: a in Attempts(records) ==> exists k :: k in report.cohorts && MadeUnder(k, a)
  {
    var measures, attempts := Measures(Scheduled(records)), Attempts(records);
    AttemptsAreMeasured(records);
    forall k | k in report.cohorts
      ensures Only(attempts, a => MadeUnder(k, a)) != []
      ensures IsCohort(metrics, report.cohorts[k], Only(attempts, a => MadeUnder(k, a)))
    {
      UnderMeaning(measures, attempts, k);
      assert Listed(report.totals.groups, k) == Under(measures, k);
    }
    forall a | a in attempts ensures exists k :: k in report.cohorts && MadeUnder(k, a) {
      var i :| 0 <= i < |attempts| && attempts[i] == a;
      var k := measures[i].key;
      UnderMembers(measures, k);
      assert measures[i] in measures && Listed(report.totals.groups, k) == Under(measures, k);
      assert measures[i] == Measure(k, measures[i].sample);
    }
  }

  predicate PassedUnder(k: Key, a: Attempt) {
    MadeUnder(k, a) && a.sample.passed
  }

  predicate FailedUnder(k: Key, a: Attempt) {
    MadeUnder(k, a) && !a.sample.passed
  }

  lemma {:induction false} PassedSamples(attempts: seq<Attempt>, k: Key)
    ensures var samples := Only(attempts, a => MadeUnder(k, a));
      && Good(samples) == Only(attempts, a => PassedUnder(k, a))
      && |samples| - |Good(samples)| == |Only(attempts, a => FailedUnder(k, a))|
  {
    if attempts != [] {
      PassedSamples(attempts[1..], k);
      var rest := Only(attempts[1..], a => MadeUnder(k, a));
      if MadeUnder(k, attempts[0]) {
        assert ([attempts[0].sample] + rest)[1..] == rest;
      } else {
        assert [] + rest == rest;
      }
    }
  }

  /** The values are the numbers of these samples, one for each. */
  ghost predicate AreElapsed(values: seq<int>, samples: seq<Sample>) {
    |values| == |samples| && forall i :: 0 <= i < |values| ==> samples[i].elapsed == Number(values[i])
  }

  ghost predicate AreMetric(values: seq<int>, samples: seq<Sample>, metric: string) {
    |values| == |samples| && forall i :: 0 <= i < |values| ==>
      && samples[i].timing.Some? && metric in samples[i].timing.value.metrics
      && samples[i].timing.value.metrics[metric] == Number(values[i])
  }

  ghost predicate HasElapsed(c: Cohort, passed: seq<Sample>) {
    exists values :: AreElapsed(values, passed) && IsQuantile(c.elapsed, values)
  }

  ghost predicate HasMetric(q: Option<Quantiles>, passed: seq<Sample>, metric: string) {
    exists values :: AreMetric(values, passed, metric) && IsQuantile(q, values)
  }

  lemma ElapsedAreThose(metrics: set<string>, passed: seq<Sample>)
    requires forall x :: x in passed ==> Numeric(metrics, x)
    ensures AreElapsed(ElapsedOf(passed), passed)
  {
    assert forall i :: 0 <= i < |passed| ==> passed[i] in passed && Numeric(metrics, passed[i]);
  }

  lemma MetricsAreThose(metrics: set<string>, passed: seq<Sample>, m: string)
    requires m in metrics && forall x :: x in passed ==> Numeric(metrics, x)
    ensures AreMetric(MetricOf(passed, m), passed, m)
  {
    assert forall i :: 0 <= i < |passed| ==> passed[i] in passed && Numeric(metrics, passed[i]);
  }

  lemma FiguresOf(metrics: set<string>, c: Cohort, samples: seq<Sample>, passed: seq<Sample>)
    requires IsCohort(metrics, c, samples) && Good(samples) == passed
    requires forall x :: x in passed ==> Numeric(metrics, x)
    ensures HasElapsed(c, passed) && c.metrics.Keys == metrics
    ensures forall m :: m in metrics ==> HasMetric(c.metrics[m], passed, m)
  {
    ElapsedAreThose(metrics, passed);
    forall m | m in metrics ensures HasMetric(c.metrics[m], passed, m) {
      MetricsAreThose(metrics, passed, m);
    }
  }

  /** A cohort's errors are its failed attempts, and its statistics are the nearest-rank quantiles of the elapsed
    * times and of each metric over its passed attempts alone.
    */
  lemma CohortFigures(metrics: set<string>, env: Env, records: seq<Record>, now: int, report: Report, k: Key)
    requires IsReport(metrics, env, records, now, report) && k in report.cohorts
    requires AllNumeric(metrics, Scheduled(records))
    ensures var c, passed := report.cohorts[k], Only(Attempts(records), a => PassedUnder(k, a));
      && c.attempts == |Only(Attempts(records), a => MadeUnder(k, a))|
      && c.errors == |Only(Attempts(records), a => FailedUnder(k, a))|
      && HasElapsed(c, passed) && c.metrics.Keys == metrics
      && forall m :: m in metrics ==> HasMetric(c.metrics[m], passed, m)
  {
    CohortMeaning(metrics, env, records, now, report);
    PassedSamples(Attempts(records), k);
    var c, passed := report.cohorts[k], Only(Attempts(records), a => PassedUnder(k, a));
    forall x | x in passed ensures Numeric(metrics, x) {
      PassedIsNumeric(metrics, records, k, x);
    }
    FiguresOf(metrics, c, Only(Attempts(records), a => MadeUnder(k, a)), passed);
  }

  lemma {:induction false} OnlyMembers(attempts: seq<Attempt>, test: Attempt -> bool, x: Sample)
    requires x in Only(attempts, test)
    ensures exists a :: a in attempts && test(a) && a.sample == x
  {
    if !(test(attempts[0]) && attempts[0].sample == x) {
      OnlyMembers(attempts[1..], test, x);
    } else {
      assert attempts[0] in attempts;
    }
  }

  lemma {:induction false} AttemptMembers(records: seq<Record>, a: Attempt)
    requires a in Attempts(records)
    ensures a.record in Scheduled(records) && a.sample in a.record.receipt.samples
  {
    var own := if records[0].run.scheduled then AttemptsIn(records[0], records[0].receipt.samples) else [];
    if a in own {
      SampleMembers(records[0], records[0].receipt.samples, a);
    } else {
      AttemptMembers(records[1..], a);
    }
  }

  lemma {:induction false} SampleMembers(record: Record, samples: seq<Sample>, a: Attempt)
    requires a in AttemptsIn(record, samples)
    ensures a.record == record && a.sample in samples
  {
    if a != Attempt(record, samples[0]) {
      SampleMembers(record, samples[1..], a);
    }
  }

  lemma PassedIsNumeric(metrics: set<string>, records: seq<Record>, k: Key, x: Sample)
    requires AllNumeric(metrics, Scheduled(records)) && x in Only(Attempts(records), a => PassedUnder(k, a))
    ensures Numeric(metrics, x)
  {
    OnlyMembers(Attempts(records), a => PassedUnder(k, a), x);
    var a :| a in Attempts(records) && PassedUnder(k, a) && a.sample == x;
    AttemptMembers(records, a);
  }

  /** What the totals say of the attempts: how many there were and how many failed, and how many fall under each
    * edge state, each platform and each reason; a failure without a reason is unclassified.
    */
  lemma TotalsMeaning(metrics: set<string>, env: Env, records: seq<Record>, now: int, report: Report)
    requires IsReport(metrics, env, records, now, report)
    ensures var attempts, t := Attempts(records), report.totals;
      && t.attempts == |attempts|
      && (forall e :: Get(t.edges, e) == |Only(attempts, (a: Attempt) => a.sample.edge == e)|)
      && (forall p :: Get(t.platforms, p) == |Only(attempts, (a: Attempt) => a.sample.platform == p)|)
      && (forall why :: Get(t.failures, why) == |Only(attempts, (a: Attempt) => FailedFor(why, a.sample))|)
  {
    var measures, attempts := Measures(Scheduled(records)), Attempts(records);
    AttemptsAreMeasured(records);
    forall e ensures Get(report.totals.edges, e) == |Only(attempts, (a: Attempt) => a.sample.edge == e)| {
      CountMeaning(measures, attempts, EdgeFile, e, (a: Attempt) => a.sample.edge == e);
    }
    forall p ensures Get(report.totals.platforms, p) == |Only(attempts, (a: Attempt) => a.sample.platform == p)| {
      CountMeaning(measures, attempts, PlatformFile, p, (a: Attempt) => a.sample.platform == p);
    }
    forall why ensures Get(report.totals.failures, why) == |Only(attempts, (a: Attempt) => FailedFor(why, a.sample))| {
      CountMeaning(measures, attempts, FailureFile, why, (a: Attempt) => FailedFor(why, a.sample));
    }
  }

  predicate FailedFor(why: Reason, s: Sample) {
    !s.passed && (s.reason == Some(why) || (s.reason.None? && why == Unclassified))
  }

  // ---- hours and databases ----

  /** The scheduled runs filed under the hour, in order. */
  function RunsOf(records: seq<Record>, slot: int): seq<int> {
    if records == [] then []
    else
      (if records[0].run.scheduled && records[0].receipt.slot == Number(slot) then [records[0].run.id] else [])
      + RunsOf(records[1..], slot)
  }

  /** How many scheduled records saw the database in this state; one without a lifecycle saw nothing. */
  function SeenIn(records: seq<Record>, d: Database): nat {
    if records == [] then 0
    else
      var r := records[0].receipt;
      var seen := if r.lifecycle.Some? then r.lifecycle.value else UnobservedDatabase;
      (if records[0].run.scheduled && seen == d then 1 else 0) + SeenIn(records[1..], d)
  }

  lemma {:induction false} RunsMeaning(records: seq<Record>, slot: int)
    ensures IdsAt(Scheduled(records), slot) == RunsOf(records, slot)
  {
    if records != [] {
      RunsMeaning(records[1..], slot);
      var rest := Scheduled(records[1..]);
      if records[0].run.scheduled {
        assert ([records[0]] + rest)[1..] == rest;
      } else {
        assert [] + rest == rest && [] + RunsOf(records[1..], slot) == RunsOf(records[1..], slot);
      }
    }
  }

  lemma {:induction false} SeenMeaning(records: seq<Record>, d: Database)
    ensures CountUnder(Scheduled(records), DatabaseFile, d) == SeenIn(records, d)
  {
    if records != [] {
      SeenMeaning(records[1..], d);
      var rest := Scheduled(records[1..]);
      if records[0].run.scheduled {
        assert ([records[0]] + rest)[1..] == rest;
      } else {
        assert [] + rest == rest;
      }
    }
  }

  /** An hour of the week is missing exactly when no scheduled run is filed under it, and a duplicate exactly when
    * several are, which are listed; each scheduled record counts once under the state of its database.
    */
  lemma HoursMeaning(metrics: set<string>, env: Env, records: seq<Record>, now: int, report: Report)
    requires IsReport(metrics, env, records, now, report)
    ensures forall h :: h in report.missing <==> 0 <= h < 168 && RunsOf(records, h) == []
    ensures forall h :: h in report.duplicates <==> |RunsOf(records, h)| > 1
    ensures forall h :: h in report.duplicates ==> report.duplicates[h] == RunsOf(records, h)
    ensures forall d :: Get(report.databases, d) == SeenIn(records, d)
  {
    forall h ensures IdsAt(Scheduled(records), h) == RunsOf(records, h) { RunsMeaning(records, h); }
    forall d ensures Get(report.databases, d) == SeenIn(records, d) { SeenMeaning(records, d); }
  }
}
