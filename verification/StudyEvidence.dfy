/** What the study's figures mean, and that the observer and the finaliser fit together. */
module StudyEvidence {
  import opened Common
  import opened StudyObserver
  import opened Tallies
  import opened Finalizer
  import opened FinalReport
  import TimingHeader

  // ---- conservation ----

  lemma {:induction false} CohortSizes(measures: seq<Measure>, key: Key)
    ensures |Under(measures, key)| == CountUnder(measures, CohortFile, key)
    ensures |Under(measures, key)| - |Good(Under(measures, key))| == CountUnder(measures, ErrorFile, key)
  {
    if measures != [] {
      CohortSizes(measures[1..], key);
      var rest := Under(measures[1..], key);
      if measures[0].key == key {
        assert ([measures[0].sample] + rest)[1..] == rest;
      } else {
        assert [] + rest == rest;
      }
    }
  }

  lemma {:induction false} AllFiled<T, K>(xs: seq<T>, file: T -> Option<K>)
    requires forall i :: 0 <= i < |xs| ==> file(xs[i]).Some?
    ensures CountFiled(xs, file) == |xs|
  {
    if xs != [] {
      AllFiled(xs[1..], file);
    }
  }

  lemma {:induction false} ErrorsAreFailures(measures: seq<Measure>)
    ensures CountFiled(measures, ErrorFile) == CountFiled(measures, FailureFile)
  {
    if measures != [] {
      ErrorsAreFailures(measures[1..]);
    }
  }

  function AttemptsOf(cohorts: map<Key, Cohort>): Key -> nat {
    k => if k in cohorts then cohorts[k].attempts else 0
  }

  function ErrorsOf(cohorts: map<Key, Cohort>): Key -> nat {
    k => if k in cohorts then cohorts[k].errors else 0
  }

  function CountsOf<K>(counter: map<K, nat>): K -> nat {
    k => Get(counter, k)
  }

  lemma CountersAddUp<T, K(!new)>(counter: map<K, nat>, xs: seq<T>, file: T -> Option<K>)
    requires Counts(counter, xs, file)
    ensures Sum(counter.Keys, CountsOf(counter)) == CountFiled(xs, file)
  {
    CounterIsConserved(counter, xs, file);
    SumSame(counter.Keys, CountsOf(counter), k => Get(counter, k));
  }

  lemma GroupsAreUsed(groups: map<Key, seq<Sample>>, measures: seq<Measure>)
    requires GroupsAgree(groups, measures)
    ensures forall m :: m in measures ==> m.key in groups
  {
    forall m | m in measures ensures m.key in groups {
      UnderMembers(measures, m.key);
      assert m == Measure(m.key, m.sample);
      assert Listed(groups, m.key) == Under(measures, m.key);
    }
  }

  lemma CohortAttemptsAddUp(metrics: set<string>, cohorts: map<Key, Cohort>, groups: map<Key, seq<Sample>>,
                            measures: seq<Measure>)
    requires GroupsAgree(groups, measures) && cohorts.Keys == groups.Keys
    requires forall k :: k in cohorts ==> IsCohort(metrics, cohorts[k], groups[k])
    ensures Sum(cohorts.Keys, AttemptsOf(cohorts)) == |measures|
  {
    GroupsAreUsed(groups, measures);
    forall k | k in cohorts.Keys ensures AttemptsOf(cohorts)(k) == CountUnder(measures, CohortFile, k) {
      CohortSizes(measures, k);
      assert Listed(groups, k) == groups[k];
    }
    SumSame(cohorts.Keys, AttemptsOf(cohorts), k => CountUnder(measures, CohortFile, k));
    CountsAddUp(cohorts.Keys, measures, CohortFile);
    AllFiled(measures, CohortFile);
  }

  lemma CohortErrorsAddUp(metrics: set<string>, cohorts: map<Key, Cohort>, groups: map<Key, seq<Sample>>,
                          measures: seq<Measure>)
    requires GroupsAgree(groups, measures) && cohorts.Keys == groups.Keys
    requires forall k :: k in cohorts ==> IsCohort(metrics, cohorts[k], groups[k])
    ensures Sum(cohorts.Keys, ErrorsOf(cohorts)) == CountFiled(measures, FailureFile)
  {
    GroupsAreUsed(groups, measures);
    forall k | k in cohorts.Keys ensures ErrorsOf(cohorts)(k) == CountUnder(measures, ErrorFile, k) {
      CohortSizes(measures, k);
      assert Listed(groups, k) == groups[k];
    }
    SumSame(cohorts.Keys, ErrorsOf(cohorts), k => CountUnder(measures, ErrorFile, k));
    CountsAddUp(cohorts.Keys, measures, ErrorFile);
    ErrorsAreFailures(measures);
  }

  /** Nothing is lost between the attempts and any of the report's breakdowns. */
  lemma ReportConserves(metrics: set<string>, env: Env, records: seq<Record>, now: int, report: Report)
    requires IsReport(metrics, env, records, now, report)
    ensures Sum(report.cohorts.Keys, AttemptsOf(report.cohorts)) == report.totals.attempts
    ensures Sum(report.cohorts.Keys, ErrorsOf(report.cohorts)) == report.totals.errors
    ensures Sum(report.totals.failures.Keys, CountsOf(report.totals.failures)) == report.totals.errors
    ensures Sum(report.totals.edges.Keys, CountsOf(report.totals.edges)) == report.totals.attempts
    ensures Sum(report.totals.platforms.Keys, CountsOf(report.totals.platforms)) == report.totals.attempts
    ensures Sum(report.databases.Keys, CountsOf(report.databases)) == |Scheduled(records)|
  {
    var measures, t := Measures(Scheduled(records)), report.totals;
    CohortAttemptsAddUp(metrics, report.cohorts, t.groups, measures);
    CohortErrorsAddUp(metrics, report.cohorts, t.groups, measures);
    CountersAddUp(t.failures, measures, FailureFile);
    CountersAddUp(t.edges, measures, EdgeFile);
    CountersAddUp(t.platforms, measures, PlatformFile);
    CountersAddUp(report.databases, Scheduled(records), DatabaseFile);
    AllFiled(measures, EdgeFile);
    AllFiled(measures, PlatformFile);
    AllFiled(Scheduled(records), DatabaseFile);
  }

  lemma SlotsAddUp(slots: map<int, seq<int>>, scheduled: seq<Record>)
    requires SlotsAgree(slots, scheduled)
    requires forall i :: 0 <= i < |scheduled| ==> SlotFile(scheduled[i]).Some?
    ensures Sum(slots.Keys, Sizes(slots)) == |scheduled|
  {
    forall i | 0 <= i < |scheduled| ensures SlotFile(scheduled[i]).value in slots.Keys {
      CountedIsInUse(scheduled, SlotFile, i);
      IdsAreCounted(scheduled, SlotFile(scheduled[i]).value);
      assert Listed(slots, SlotFile(scheduled[i]).value) != [];
    }
    forall s | s in slots.Keys ensures Sizes(slots)(s) == CountUnder(scheduled, SlotFile, s) {
      IdsAreCounted(scheduled, s);
    }
    SumSame(slots.Keys, Sizes(slots), s => CountUnder(scheduled, SlotFile, s));
    CountsAddUp(slots.Keys, scheduled, SlotFile);
    AllFiled(scheduled, SlotFile);
  }

  /** The observed pairs are the scheduled records. */
  lemma PairsAreRecords(metrics: set<string>, env: Env, records: seq<Record>, now: int, report: Report)
    requires WindowLawful(env) && Inspected(env, records) && IsReport(metrics, env, records, now, report)
    ensures report.observedPairs == |Scheduled(records)|
  {
    InspectedRecords(env, records);
    assert forall i :: 0 <= i < |Scheduled(records)| ==> Placed(Scheduled(records)[i]);
    SlotsAddUp(report.slots, Scheduled(records));
  }

  // ---- coverage ----

  lemma {:induction false} IdsAreCounted(scheduled: seq<Record>, slot: int)
    ensures |IdsAt(scheduled, slot)| == CountUnder(scheduled, SlotFile, slot)
  {
    if scheduled != [] {
      IdsAreCounted(scheduled[1..], slot);
    }
  }

  /** Every scheduled record of an inspected collection has a slot of the week and one or two samples. */
  lemma InspectedRecords(env: Env, records: seq<Record>)
    requires WindowLawful(env) && Inspected(env, records)
    ensures forall r :: r in Scheduled(records) ==> Placed(r) && Passes(env, r)
  {
    ScheduledMembers(records);
    forall r | r in Scheduled(records) ensures Placed(r) && Passes(env, r) {
      var i :| 0 <= i < |records| && records[i] == r;
      assert Passes(env, records[i]);
    }
  }

  ghost predicate Placed(r: Record) {
    r.receipt.slot.Number? && 0 <= r.receipt.slot.n < SLOTS && 1 <= |r.receipt.samples| <= 2
  }

  lemma {:induction false} MeasuresSize(scheduled: seq<Record>)
    requires forall r :: r in scheduled ==> Placed(r)
    ensures |scheduled| <= |Measures(scheduled)| <= 2 * |scheduled|
    ensures |Measures(scheduled)| == 2 * |scheduled| <==> forall r :: r in scheduled ==> |r.receipt.samples| == 2
  {
    if scheduled != [] {
      assert scheduled[0] in scheduled && Placed(scheduled[0]);
      assert forall r :: r in scheduled <==> r == scheduled[0] || r in scheduled[1..];
      MeasuresSize(scheduled[1..]);
      SampleMeasuresSize(scheduled[0], scheduled[0].receipt.samples);
    }
  }

  lemma {:induction false} SampleMeasuresSize(record: Record, samples: seq<Sample>)
    ensures |SampleMeasures(record, samples)| == |samples|
  {
    if samples != [] {
      SampleMeasuresSize(record, samples[1..]);
    }
  }

  /** Each slot of the week has exactly one scheduled record. */
  ghost predicate OnePerSlot(scheduled: seq<Record>) {
    forall s :: 0 <= s < SLOTS ==> |IdsAt(scheduled, s)| == 1
  }

  lemma OnePerSlotCount(scheduled: seq<Record>)
    requires forall r :: r in scheduled ==> Placed(r)
    requires OnePerSlot(scheduled)
    ensures |scheduled| == SLOTS
  {
    var slots := Upto(SLOTS);
    UptoIsARange(SLOTS);
    var count := s => CountUnder(scheduled, SlotFile, s);
    forall s | s in slots ensures count(s) == 1 {
      IdsAreCounted(scheduled, s);
      assert |IdsAt(scheduled, s)| == 1;
    }
    SumConstant(slots, count, 1);
    forall i | 0 <= i < |scheduled| ensures SlotFile(scheduled[i]).Some? && SlotFile(scheduled[i]).value in slots {
      assert Placed(scheduled[i]);
    }
    CountsAddUp(slots, scheduled, SlotFile);
    AllFiled(scheduled, SlotFile);
  }

  lemma {:induction false} RoutesRotate(slot: nat, samples: seq<Sample>)
    requires FirstRefusal(slot, samples).None?
    ensures forall s :: s in samples ==> s.route == RouteOf(slot)
  {
    if samples != [] {
      RoutesRotate(slot, samples[1..]);
      assert SampleRefusal(slot, samples[0]).None?;
    }
  }

  /** A first and a paired read of the slot's own route. */
  predicate PairOnRoute(r: Record) {
    && r.receipt.slot.Number? && 0 <= r.receipt.slot.n
    && |r.receipt.samples| == 2
    && r.receipt.samples[0].phase == First && r.receipt.samples[1].phase == Paired
    && forall s :: s in r.receipt.samples ==> s.route == RouteOf(r.receipt.slot.n)
  }

  lemma InspectedPair(env: Env, r: Record)
    requires WindowLawful(env) && Inspect(env, r).None? && |r.receipt.samples| == 2
    ensures PairOnRoute(r)
  {
    RoutesRotate(SlotOf(env, r.receipt), r.receipt.samples);
  }

  lemma AllPairsOnRoute(env: Env, scheduled: seq<Record>)
    requires WindowLawful(env) && forall r :: r in scheduled ==> Passes(env, r) && |r.receipt.samples| == 2
    ensures forall r :: r in scheduled ==> PairOnRoute(r)
  {
    forall r | r in scheduled ensures PairOnRoute(r) {
      InspectedPair(env, r);
    }
  }

  /** `coverage_complete` means: the week is over, each of its 168 slots has exactly one scheduled record,
    * and each of those has both samples; and then those are a first and a paired read of the one route
    * that the slot rotates to.
    */
  lemma CoverageMeaning(metrics: set<string>, env: Env, records: seq<Record>, now: int, report: Report)
    requires WindowLawful(env) && Inspected(env, records) && IsReport(metrics, env, records, now, report)
    ensures report.complete <==>
      && report.elapsed && OnePerSlot(Scheduled(records))
      && forall r :: r in Scheduled(records) ==> |r.receipt.samples| == 2
    ensures report.complete ==> |Scheduled(records)| == SLOTS
    ensures report.complete ==> forall r :: r in Scheduled(records) ==> PairOnRoute(r)
  {
    var scheduled := Scheduled(records);
    InspectedRecords(env, records);
    MeasuresSize(scheduled);
    SlotSetsMean(env, records, report);
    if OnePerSlot(scheduled) {
      OnePerSlotCount(scheduled);
    }
    if report.complete {
      AllPairsOnRoute(env, scheduled);
    }
  }

  lemma SlotSetsMean(env: Env, records: seq<Record>, report: Report)
    requires forall r :: r in Scheduled(records) ==> Placed(r)
    requires forall s :: s in report.missing <==> 0 <= s < SLOTS && IdsAt(Scheduled(records), s) == []
    requires forall s :: s in report.duplicates <==> |IdsAt(Scheduled(records), s)| > 1
    ensures report.missing == {} && report.duplicates == map[] <==> OnePerSlot(Scheduled(records))
  {
    var scheduled := Scheduled(records);
    if report.missing == {} && report.duplicates == map[] {
      forall s | 0 <= s < SLOTS ensures |IdsAt(scheduled, s)| == 1 {
        assert s !in report.missing && s !in report.duplicates;
      }
    }
    if OnePerSlot(scheduled) {
      forall s ensures s !in report.missing && s !in report.duplicates {
        if !(0 <= s < SLOTS) {
          NoIdsElsewhere(scheduled, s);
        } else {
          assert |IdsAt(scheduled, s)| == 1;
        }
      }
      assert report.missing == {};
      assert report.duplicates.Keys == {};
    }
  }

  lemma {:induction false} NoIdsElsewhere(scheduled: seq<Record>, s: int)
    requires forall r :: r in scheduled ==> Placed(r)
    requires !(0 <= s < SLOTS)
    ensures IdsAt(scheduled, s) == []
  {
    if scheduled != [] {
      assert Placed(scheduled[0]);
      NoIdsElsewhere(scheduled[1..], s);
    }
  }

  // ---- the observer's receipts are admitted ----

  lemma LawfulIsMicros(keys: set<string>, k: string, field: TimingHeader.Field)
    requires "process" !in keys && k in keys && TimingHeader.Lawful(keys, k, field)
    ensures field.Micros?
  {
  }

  /** An accepted header holds every metric as a number, besides the process marker. */
  lemma AcceptedIsNumeric(keys: set<string>, header: Option<string>, cache: string)
    requires "process" !in keys && TimingHeader.ParseWith(keys, header, cache).Some?
    ensures var t := Converted(TimingHeader.ParseWith(keys, header, cache).value);
      t.metrics.Keys == keys && forall k :: k in t.metrics ==> Nonnegative(t.metrics[k])
  {
    var found := TimingHeader.ParseWith(keys, header, cache).value;
    TimingHeader.AcceptedKinds(keys, header, cache);
    forall k | k in keys ensures found[k].Micros? {
      LawfulIsMicros(keys, k, found[k]);
    }
  }

  ghost predicate Matches(env: Env, config: Configuration) {
    && WindowLawful(env) && env.host == config.host && env.policy == config.policy
    && env.starts.instant == config.starts && env.ends.instant == config.expires
  }

  /** A read that passed carries a numeric timing for every metric. */
  lemma RequestIsNumeric(config: Configuration, route: Route, reply: Reply, elapsed: nat)
    ensures var s := Request(config, route, reply, elapsed);
      && s.route == route && s.platform == Unobserved && s.phase == First
      && (s.passed ==> Numeric(TimingHeader.TIMINGS, s))
  {
    var s := Request(config, route, reply, elapsed);
    if s.passed {
      TimingHeader.ProcessIsNoMetric();
      AcceptedIsNumeric(TimingHeader.TIMINGS, reply.header, CacheWord(reply.cache));
    }
  }

  /** What the finaliser asks of one sample. */
  ghost predicate GoodSample(metrics: set<string>, slot: nat, s: Sample) {
    SampleRefusal(slot, s).None? && (s.passed ==> Numeric(metrics, s))
  }

  lemma TracedIsGood(config: Configuration, slot: nat, reply: Reply, elapsed: nat, phase: Phase,
                     capture: Option<Capture>)
    ensures var s := Traced(Request(config, RouteOf(slot), reply, elapsed).(phase := phase), capture);
      && GoodSample(TimingHeader.TIMINGS, slot, s) && s.phase == phase
      && s.passed == Request(config, RouteOf(slot), reply, elapsed).passed
  {
    RequestIsNumeric(config, RouteOf(slot), reply, elapsed);
  }

  lemma FirstIsGood(config: Configuration, slot: nat, s: Surroundings)
    ensures var x := Traced(Request(config, RouteOf(slot), s.first, s.firstElapsed), CaptureOf(s, s.firstCapture));
      && GoodSample(TimingHeader.TIMINGS, slot, x) && x.phase == First
      && x.passed == Request(config, RouteOf(slot), s.first, s.firstElapsed).passed
  {
    RequestIsNumeric(config, RouteOf(slot), s.first, s.firstElapsed);
    TracedIsGood(config, slot, s.first, s.firstElapsed, First, CaptureOf(s, s.firstCapture));
    assert Request(config, RouteOf(slot), s.first, s.firstElapsed).(phase := First)
      == Request(config, RouteOf(slot), s.first, s.firstElapsed);
  }

  lemma GoodPair(metrics: set<string>, slot: nat, samples: seq<Sample>, first: Sample, second: Sample)
    requires 1 <= |samples| <= 2 && samples[0] == first && (|samples| == 2 ==> samples[1] == second)
    requires GoodSample(metrics, slot, first) && first.phase == First
    requires GoodSample(metrics, slot, second) && second.phase == Paired
    ensures PhasesInOrder(samples) && forall i :: 0 <= i < |samples| ==> GoodSample(metrics, slot, samples[i])
  {
  }

  lemma PairIsAdmitted(config: Configuration, slot: nat, s: Surroundings, samples: seq<Sample>)
    requires IsPair(config, RouteOf(slot), s, samples)
    ensures |samples| == 1 || |samples| == 2
    ensures PhasesInOrder(samples) && forall i :: 0 <= i < |samples| ==>
      GoodSample(TimingHeader.TIMINGS, slot, samples[i])
    ensures |samples| == 2 ==> samples[0].passed
  {
    FirstIsGood(config, slot, s);
    TracedIsGood(config, slot, s.second, s.secondElapsed, Paired, CaptureOf(s, s.secondCapture));
    GoodPair(TimingHeader.TIMINGS, slot, samples,
             Traced(Request(config, RouteOf(slot), s.first, s.firstElapsed), CaptureOf(s, s.firstCapture)),
             Traced(Request(config, RouteOf(slot), s.second, s.secondElapsed).(phase := Paired),
                    CaptureOf(s, s.secondCapture)));
  }

  lemma {:induction false} NoRefusal(slot: nat, samples: seq<Sample>)
    requires forall i :: 0 <= i < |samples| ==> SampleRefusal(slot, samples[i]).None?
    ensures FirstRefusal(slot, samples).None?
  {
    if samples != [] {
      NoRefusal(slot, samples[1..]);
    }
  }

  /** The receipt of a pair, before or after annotation, as the finaliser sees it. */
  ghost predicate Presentable(config: Configuration, r: Receipt) {
    && r.ownScope && r.schema == 2 && r.host == config.host && r.policy == config.policy && !r.bodiesRetained
    && !r.credentials
    && r.observedAt.utc && config.starts <= r.observedAt.instant < config.expires
    && r.slot == Number((r.observedAt.instant - config.starts) / HOUR)
    && (|r.samples| == 1 || |r.samples| == 2) && PhasesInOrder(r.samples)
    && (|r.samples| == 2 ==> r.samples[0].passed)
    && forall i :: 0 <= i < |r.samples| ==> GoodSample(TimingHeader.TIMINGS, r.slot.n, r.samples[i])
  }

  lemma ObservationIsPresentable(config: Configuration, now: int, s: Surroundings, r: Receipt)
    requires IsObservation(config, now, s, r)
    ensures Presentable(config, r)
  {
    PairIsAdmitted(config, (now - config.starts) / HOUR, s, r.samples);
  }

  /** Annotating changes neither a sample's verdict nor anything else that the finaliser checks. */
  lemma AnnotationIsPresentable(config: Configuration, r: Receipt, before: State, after: State, end: int)
    requires Presentable(config, r) && Annotate(r, before, after, end).Some?
    ensures Presentable(config, Annotate(r, before, after, end).value)
  {
    var a := Annotate(r, before, after, end).value;
    forall i | 0 <= i < |a.samples|
      ensures GoodSample(TimingHeader.TIMINGS, a.slot.n, a.samples[i]) && a.samples[i].phase == r.samples[i].phase
    {
      assert GoodSample(TimingHeader.TIMINGS, r.slot.n, r.samples[i]);
    }
  }

  lemma EmittedIsPresentable(config: Configuration, r: Receipt)
    requires Emitted(config, r)
    ensures Presentable(config, r)
  {
    var now, s, plain :| IsObservation(config, now, s, plain)
      && (r == plain ||
          exists before, after, end :: plain.samples != [] && Annotate(plain, before, after, end) == Some(r));
    ObservationIsPresentable(config, now, s, plain);
    if r != plain {
      var before, after, end :| plain.samples != [] && Annotate(plain, before, after, end) == Some(r);
      AnnotationIsPresentable(config, plain, before, after, end);
    }
  }

  /** Whatever the service, the provider and the database did, a receipt that the observer emitted passes
    * every check of the finaliser for the same window, host and policy.
    */
  lemma EmittedIsAdmitted(env: Env, config: Configuration, record: Record)
    requires Matches(env, config) && Emitted(config, record.receipt)
    requires record.run.onMain && record.run.attempt == 1
    ensures Inspect(env, record).None?
    ensures forall s :: s in record.receipt.samples && s.passed ==> Numeric(TimingHeader.TIMINGS, s)
  {
    EmittedIsPresentable(config, record.receipt);
    var r := record.receipt;
    assert InWindow(env, r);
    NoRefusal(r.slot.n, r.samples);
    forall s | s in r.samples && s.passed ensures Numeric(TimingHeader.TIMINGS, s) {
      var i :| 0 <= i < |r.samples| && r.samples[i] == s;
      assert GoodSample(TimingHeader.TIMINGS, r.slot.n, r.samples[i]);
    }
  }

  /** Complete coverage of observed receipts leaves no slot without a passed first read, so at most every
    * second attempt can have failed.
    */
  lemma CompleteMeansFirstReadsPassed(metrics: set<string>, env: Env, config: Configuration, records: seq<Record>,
                                      now: int, report: Report)
    requires Matches(env, config) && Inspected(env, records) && IsReport(metrics, env, records, now, report)
      && report.complete
    requires forall r :: r in Scheduled(records) ==> Emitted(config, r.receipt)
    ensures forall r :: r in Scheduled(records) ==> r.receipt.samples != [] && r.receipt.samples[0].passed
    ensures report.totals.errors <= SLOTS
  {
    CoverageMeaning(metrics, env, records, now, report);
    forall r | r in Scheduled(records) ensures |r.receipt.samples| == 2 && r.receipt.samples[0].passed {
      EmittedIsPresentable(config, r.receipt);
    }
    OneFailureEach(Scheduled(records));
  }

  lemma {:induction false} OneFailureEach(scheduled: seq<Record>)
    requires forall r :: r in scheduled ==> |r.receipt.samples| == 2 && r.receipt.samples[0].passed
    ensures CountFiled(Measures(scheduled), FailureFile) <= |scheduled|
  {
    if scheduled != [] {
      var r := scheduled[0];
      var a := Measure(KeyOf(r, r.receipt.samples[0]), r.receipt.samples[0]);
      var b := Measure(KeyOf(r, r.receipt.samples[1]), r.receipt.samples[1]);
      assert r.receipt.samples == [r.receipt.samples[0]] + [r.receipt.samples[1]];
      SampleMeasuresSnoc(r, [r.receipt.samples[0]], r.receipt.samples[1]);
      assert SampleMeasures(r, r.receipt.samples) == [a, b];
      assert ([a, b] + Measures(scheduled[1..]))[1..] == [b] + Measures(scheduled[1..]);
      assert ([b] + Measures(scheduled[1..]))[1..] == Measures(scheduled[1..]);
      OneFailureEach(scheduled[1..]);
    }
  }
}
