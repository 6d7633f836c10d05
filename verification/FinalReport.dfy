/** The final report as the finaliser computes it, and what its figures mean. */
module FinalReport {
  import opened Common
  import opened StudyObserver
  import opened Tallies
  import opened Finalizer
  import TimingHeader

  datatype Cohort = Cohort(attempts: nat, errors: nat, elapsed: Option<Quantiles>,
                           metrics: map<string, Option<Quantiles>>)

  datatype Report = Report(totals: Totals, databases: map<Database, nat>, slots: map<int, seq<int>>,
                           cohorts: map<Key, Cohort>, missing: set<int>, duplicates: map<int, seq<int>>,
                           observedPairs: nat, elapsed: bool, complete: bool)

  // ---- lists that grow at the end ----

  lemma {:induction false} SampleMeasuresSnoc(record: Record, samples: seq<Sample>, s: Sample)
    ensures SampleMeasures(record, samples + [s]) == SampleMeasures(record, samples) + [Measure(KeyOf(record, s), s)]
  {
    if samples != [] {
      SampleMeasuresSnoc(record, samples[1..], s);
      assert (samples + [s])[1..] == samples[1..] + [s];
    }
  }

  lemma {:induction false} MeasuresSnoc(scheduled: seq<Record>, r: Record)
    ensures Measures(scheduled + [r]) == Measures(scheduled) + SampleMeasures(r, r.receipt.samples)
  {
    if scheduled == [] {
      assert [r][1..] == [] && SampleMeasures(r, r.receipt.samples) + [] == SampleMeasures(r, r.receipt.samples);
    } else {
      MeasuresSnoc(scheduled[1..], r);
      assert (scheduled + [r])[1..] == scheduled[1..] + [r] && (scheduled + [r])[0] == scheduled[0];
      var head := SampleMeasures(scheduled[0], scheduled[0].receipt.samples);
      var last := SampleMeasures(r, r.receipt.samples);
      assert head + (Measures(scheduled[1..]) + last) == (head + Measures(scheduled[1..])) + last;
    }
  }

  lemma {:induction false} ScheduledSnoc(records: seq<Record>, r: Record)
    ensures Scheduled(records + [r]) == Scheduled(records) + (if r.run.scheduled then [r] else [])
  {
    if records != [] {
      ScheduledSnoc(records[1..], r);
      assert (records + [r])[1..] == records[1..] + [r];
    }
  }

  lemma {:induction false} IdsSnoc(scheduled: seq<Record>, r: Record, slot: int)
    ensures IdsAt(scheduled + [r], slot) == IdsAt(scheduled, slot)
      + (if SlotFile(r) == Some(slot) then [r.run.id] else [])
  {
    if scheduled != [] {
      IdsSnoc(scheduled[1..], r, slot);
      assert (scheduled + [r])[1..] == scheduled[1..] + [r];
    }
  }

  // ---- the first pass ----

  ghost predicate Passes(env: Env, record: Record) {
    Inspect(env, record).None?
  }

  /** One scheduled record: refused as `Inspect` says, else its attempts join the totals. */
  method AddRecord(env: Env, record: Record, before: Totals, ghost measures: seq<Measure>)
      returns (r: Result<Totals, Refusal>)
    requires Agrees(before, measures)
    ensures r.Ok? <==> Passes(env, record)
    ensures r.Ok? ==> record.receipt.slot.Number?
    ensures r.Ok? ==> Agrees(r.value, measures + SampleMeasures(record, record.receipt.samples))
  {
    var receipt := record.receipt;
    if !Provenance(env, record) { return Err(ProvenanceRefused); }
    if !InWindow(env, receipt) { return Err(WindowRefused); }
    var slot, samples := SlotOf(env, receipt), receipt.samples;
    if |samples| != 1 && |samples| != 2 { return Err(SampleCountRefused); }
    if !PhasesInOrder(samples) { return Err(SamplePhaseRefused); }
    var t := before;
    assert measures + SampleMeasures(record, samples[..0]) == measures;
    for i := 0 to |samples|
      invariant FirstRefusal(slot, samples) == FirstRefusal(slot, samples[i..])
      invariant Agrees(t, measures + SampleMeasures(record, samples[..i]))
    {
      var sample := samples[i];
      assert samples[i..][0] == sample && samples[i..][1..] == samples[i + 1..];
      var refusal := SampleRefusal(slot, sample);
      if refusal.Some? { return Err(refusal.value); }
      NextSample(record, samples, i, t, measures);
      t := AddSample(t, Measure(KeyOf(record, sample), sample));
    }
    assert samples[..|samples|] == samples;
    return Ok(t);
  }

  lemma NextMeasures(record: Record, samples: seq<Sample>, i: nat, measures: seq<Measure>)
    requires i < |samples|
    ensures measures + SampleMeasures(record, samples[..i + 1])
      == (measures + SampleMeasures(record, samples[..i])) + [Measure(KeyOf(record, samples[i]), samples[i])]
  {
    SampleMeasuresSnoc(record, samples[..i], samples[i]);
    assert samples[..i + 1] == samples[..i] + [samples[i]];
  }

  lemma NextSample(record: Record, samples: seq<Sample>, i: nat, t: Totals, measures: seq<Measure>)
    requires i < |samples| && Agrees(t, measures + SampleMeasures(record, samples[..i]))
    ensures Agrees(Added(t, Measure(KeyOf(record, samples[i]), samples[i])),
                   measures + SampleMeasures(record, samples[..i + 1]))
  {
    NextMeasures(record, samples, i, measures);
    AddedAgrees(t, measures + SampleMeasures(record, samples[..i]), Measure(KeyOf(record, samples[i]), samples[i]));
  }

  /** The counters that one attempt moves. */
  method AddSample(before: Totals, m: Measure) returns (t: Totals)
    ensures t == Added(before, m)
  {
    t := before.(attempts := before.attempts + 1);
    if !m.sample.passed {
      var reason := if m.sample.reason.None? then Unclassified else m.sample.reason.value;
      t := t.(errors := t.errors + 1, failures := Bump(t.failures, reason));
    }
    t := t.(platforms := Bump(t.platforms, m.sample.platform));
    t := t.(edges := Bump(t.edges, m.sample.edge));
    t := t.(groups := t.groups[m.key := Listed(t.groups, m.key) + [m.sample]]);
  }

  ghost predicate SlotsAgree(slots: map<int, seq<int>>, scheduled: seq<Record>) {
    forall s :: Listed(slots, s) == IdsAt(scheduled, s) && (s in slots ==> slots[s] != [])
  }

  lemma SlotsGrow(slots: map<int, seq<int>>, scheduled: seq<Record>, r: Record, slot: int)
    requires SlotsAgree(slots, scheduled) && SlotFile(r) == Some(slot)
    ensures SlotsAgree(slots[slot := Listed(slots, slot) + [r.run.id]], scheduled + [r])
  {
    var next := slots[slot := Listed(slots, slot) + [r.run.id]];
    forall s ensures Listed(next, s) == IdsAt(scheduled + [r], s) && (s in next ==> next[s] != []) {
      IdsSnoc(scheduled, r, s);
      assert Listed(slots, s) == IdsAt(scheduled, s);
    }
  }

  /** What the first pass knows of the records read so far. */
  ghost predicate Collected(totals: Totals, databases: map<Database, nat>, slots: map<int, seq<int>>,
                            scheduled: seq<Record>)
  {
    && Agrees(totals, Measures(scheduled))
    && Counts(databases, scheduled, DatabaseFile)
    && SlotsAgree(slots, scheduled)
  }

  ghost predicate Inspected(env: Env, records: seq<Record>) {
    forall i :: 0 <= i < |records| && records[i].run.scheduled ==> Passes(env, records[i])
  }

  lemma InspectedSnoc(env: Env, records: seq<Record>, i: nat)
    requires i < |records|
    ensures Inspected(env, records[..i + 1]) <==>
      Inspected(env, records[..i]) && (records[i].run.scheduled ==> Passes(env, records[i]))
    ensures Inspected(env, records) ==> Inspected(env, records[..i + 1])
    ensures Scheduled(records[..i + 1]) ==
      (if records[i].run.scheduled then Scheduled(records[..i]) + [records[i]] else Scheduled(records[..i]))
  {
    assert records[..i + 1] == records[..i] + [records[i]];
    ScheduledSnoc(records[..i], records[i]);
    if Inspected(env, records[..i + 1]) {
      assert forall j :: 0 <= j < i ==> records[..i][j] == records[..i + 1][j];
      assert records[..i + 1][i] == records[i];
    }
  }

  lemma CollectedGrows(totals: Totals, databases: map<Database, nat>, slots: map<int, seq<int>>, scheduled: seq<Record>,
                       r: Record, next: Totals)
    requires Collected(totals, databases, slots, scheduled) && r.receipt.slot.Number?
    requires Agrees(next, Measures(scheduled) + SampleMeasures(r, r.receipt.samples))
    ensures Collected(next, Bump(databases, DatabaseOf(r.receipt)), Filed(slots, r), scheduled + [r])
  {
    MeasuresSnoc(scheduled, r);
    BumpCounts(databases, scheduled, r, DatabaseFile);
    SlotsGrow(slots, scheduled, r, r.receipt.slot.n);
  }

  function Filed(slots: map<int, seq<int>>, r: Record): map<int, seq<int>>
    requires r.receipt.slot.Number?
  {
    slots[r.receipt.slot.n := Listed(slots, r.receipt.slot.n) + [r.run.id]]
  }

  /** The loop over the records. */
  method FirstPass(env: Env, records: seq<Record>)
    returns (r: Result<Totals, Refusal>, databases: map<Database, nat>, slots: map<int, seq<int>>)
    ensures r.Ok? <==> Inspected(env, records)
    ensures r.Ok? ==> Collected(r.value, databases, slots, Scheduled(records))
  {
    databases, slots := map[], map[];
    var totals := NOTHING;
    assert records[..0] == [];
    for i := 0 to |records|
      invariant Inspected(env, records[..i])
      invariant Collected(totals, databases, slots, Scheduled(records[..i]))
    {
      InspectedSnoc(env, records, i);
      if records[i].run.scheduled {
        var next := AddRecord(env, records[i], totals, Measures(Scheduled(records[..i])));
        if next.Err? { return Err(next.error), databases, slots; }
        CollectedGrows(totals, databases, slots, Scheduled(records[..i]), records[i], next.value);
        totals := next.value;
        databases := Bump(databases, DatabaseOf(records[i].receipt));
        slots := Filed(slots, records[i]);
      }
    }
    assert records[..|records|] == records;
    return Ok(totals), databases, slots;
  }

  // ---- the second pass ----

  function Good(samples: seq<Sample>): seq<Sample> {
    if samples == [] then [] else (if samples[0].passed then [samples[0]] else []) + Good(samples[1..])
  }

  lemma {:induction false} GoodMembers(samples: seq<Sample>)
    ensures forall s :: s in Good(samples) <==> s in samples && s.passed
    ensures |Good(samples)| <= |samples|
  {
    if samples != [] {
      GoodMembers(samples[1..]);
    }
  }

  function IntOf(v: Value): int {
    match v case Number(n) => n case Text => 0
  }

  function ElapsedOf(good: seq<Sample>): seq<int> {
    seq(|good|, i requires 0 <= i < |good| => IntOf(good[i].elapsed))
  }

  function MetricOf(good: seq<Sample>, metric: string): seq<int> {
    seq(|good|, i requires 0 <= i < |good| =>
      if good[i].timing.None? || metric !in good[i].timing.value.metrics then 0
      else IntOf(good[i].timing.value.metrics[metric]))
  }

  ghost predicate IsQuantile(q: Option<Quantiles>, values: seq<int>) {
    (q.None? <==> values == []) && (q.Some? ==> IsSummaryOf(q.value, values))
  }

  /** The cohort row of a group: its size, its failures, and statistics over its passed samples only. */
  ghost predicate IsCohort(metrics: set<string>, c: Cohort, samples: seq<Sample>) {
    && c.attempts == |samples| && c.errors == |samples| - |Good(samples)|
    && IsQuantile(c.elapsed, ElapsedOf(Good(samples)))
    && c.metrics.Keys == metrics
    && forall m :: m in metrics ==> IsQuantile(c.metrics[m], MetricOf(Good(samples), m))
  }

  /** One row; refused exactly when some passed sample is not numeric. */
  method MakeCohort(metrics: set<string>, samples: seq<Sample>) returns (r: Option<Cohort>)
    ensures r.Some? <==> forall s :: s in samples && s.passed ==> Numeric(metrics, s)
    ensures r.Some? ==> IsCohort(metrics, r.value, samples)
  {
    GoodMembers(samples);
    var good := Good(samples);
    for i := 0 to |good|
      invariant forall j :: 0 <= j < i ==> Numeric(metrics, good[j])
    {
      if !Numeric(metrics, good[i]) {
        assert good[i] in samples;
        return None;
      }
    }
    var elapsed := ComputeQuantiles(ElapsedOf(good));
    var rows := MetricRows(metrics, good);
    return Some(Cohort(|samples|, |samples| - |good|, elapsed, rows));
  }

  method MetricRows(metrics: set<string>, good: seq<Sample>) returns (rows: map<string, Option<Quantiles>>)
    ensures rows.Keys == metrics && forall m :: m in metrics ==> IsQuantile(rows[m], MetricOf(good, m))
  {
    rows := map[];
    var left := metrics;
    while left != {}
      invariant left <= metrics && rows.Keys == metrics - left
      invariant forall m :: m in rows ==> IsQuantile(rows[m], MetricOf(good, m))
      decreases |left|
    {
      var m :| m in left;
      var q := ComputeQuantiles(MetricOf(good, m));
      rows := rows[m := q];
      left := left - {m};
    }
  }

  ghost predicate GroupNumeric(metrics: set<string>, samples: seq<Sample>) {
    forall s :: s in samples && s.passed ==> Numeric(metrics, s)
  }

  method SecondPass(metrics: set<string>, groups: map<Key, seq<Sample>>) returns (r: Option<map<Key, Cohort>>)
    ensures r.Some? <==> forall k :: k in groups ==> GroupNumeric(metrics, groups[k])
    ensures r.Some? ==>
      r.value.Keys == groups.Keys && forall k :: k in groups ==> IsCohort(metrics, r.value[k], groups[k])
  {
    var cohorts: map<Key, Cohort> := map[];
    var left := groups.Keys;
    while left != {}
      invariant left <= groups.Keys && cohorts.Keys == groups.Keys - left
      invariant forall k :: k in cohorts ==>
        GroupNumeric(metrics, groups[k]) && IsCohort(metrics, cohorts[k], groups[k])
      decreases |left|
    {
      var key :| key in left;
      var cohort := MakeCohort(metrics, groups[key]);
      if cohort.None? {
        assert !GroupNumeric(metrics, groups[key]);
        return None;
      }
      cohorts := cohorts[key := cohort.value];
      left := left - {key};
    }
    return Some(cohorts);
  }

  lemma {:induction false} SampleMeasureMembers(record: Record, samples: seq<Sample>)
    ensures forall m :: m in SampleMeasures(record, samples) <==>
      m.sample in samples && m.key == KeyOf(record, m.sample)
  {
    if samples != [] {
      SampleMeasureMembers(record, samples[1..]);
    }
  }

  lemma {:induction false} MeasureMembers(scheduled: seq<Record>)
    ensures forall m :: m in Measures(scheduled) ==> exists r :: r in scheduled && m.sample in r.receipt.samples
    ensures forall r, s :: r in scheduled && s in r.receipt.samples ==> Measure(KeyOf(r, s), s) in Measures(scheduled)
  {
    if scheduled != [] {
      MeasureMembers(scheduled[1..]);
      SampleMeasureMembers(scheduled[0], scheduled[0].receipt.samples);
    }
  }

  lemma {:induction false} UnderMembers(measures: seq<Measure>, key: Key)
    ensures forall s :: s in Under(measures, key) <==> Measure(key, s) in measures
  {
    if measures != [] {
      UnderMembers(measures[1..], key);
      assert forall m :: m in measures <==> m == measures[0] || m in measures[1..];
    }
  }

  lemma {:induction false} ScheduledMembers(records: seq<Record>)
    ensures forall r :: r in Scheduled(records) <==> r in records && r.run.scheduled
  {
    if records != [] {
      ScheduledMembers(records[1..]);
    }
  }

  ghost predicate AllNumeric(metrics: set<string>, scheduled: seq<Record>) {
    forall r, s :: r in scheduled && s in r.receipt.samples && s.passed ==> Numeric(metrics, s)
  }

  /** Checking group by group is checking sample by sample. */
  lemma GroupsCoverSamples(metrics: set<string>, groups: map<Key, seq<Sample>>, scheduled: seq<Record>)
    requires GroupsAgree(groups, Measures(scheduled))
    ensures (forall k :: k in groups ==> GroupNumeric(metrics, groups[k])) <==> AllNumeric(metrics, scheduled)
  {
    MeasureMembers(scheduled);
    if forall k :: k in groups ==> GroupNumeric(metrics, groups[k]) {
      forall r, s | r in scheduled && s in r.receipt.samples && s.passed ensures Numeric(metrics, s) {
        var key := KeyOf(r, s);
        UnderMembers(Measures(scheduled), key);
        assert Measure(key, s) in Measures(scheduled);
        assert s in Listed(groups, key);
      }
    }
    if AllNumeric(metrics, scheduled) {
      forall k, s | k in groups && s in groups[k] && s.passed ensures Numeric(metrics, s) {
        UnderMembers(Measures(scheduled), k);
        assert Listed(groups, k) == groups[k];
        assert Measure(k, s).sample == s;
      }
    }
  }

  // ---- the report ----

  function DuplicateSlots(slots: map<int, seq<int>>): map<int, seq<int>> {
    map s | s in slots && |slots[s]| > 1 :: slots[s]
  }

  function Sizes<K>(lists: map<K, seq<int>>): K -> nat {
    k => |Listed(lists, k)|
  }

  method CountPairs(slots: map<int, seq<int>>) returns (n: nat)
    ensures n == Sum(slots.Keys, Sizes(slots))
  {
    n := 0;
    var left := slots.Keys;
    ghost var total := Sum(slots.Keys, Sizes(slots));
    while left != {}
      invariant left <= slots.Keys && n + Sum(left, Sizes(slots)) == total
      decreases |left|
    {
      var s := Pick(left);
      SumPick(left, Sizes(slots), s);
      n := n + |slots[s]|;
      left := left - {s};
    }
  }

  /** The report of an admitted collection. */
  ghost predicate IsReport(metrics: set<string>, env: Env, records: seq<Record>, now: int, report: Report) {
    && Collected(report.totals, report.databases, report.slots, Scheduled(records))
    && report.cohorts.Keys == report.totals.groups.Keys
    && (forall k :: k in report.cohorts ==> IsCohort(metrics, report.cohorts[k], report.totals.groups[k]))
    && (forall s :: s in report.missing <==> 0 <= s < SLOTS && IdsAt(Scheduled(records), s) == [])
    && (forall s :: s in report.duplicates <==> |IdsAt(Scheduled(records), s)| > 1)
    && (forall s :: s in report.duplicates ==> report.duplicates[s] == IdsAt(Scheduled(records), s))
    && report.observedPairs == Sum(report.slots.Keys, Sizes(report.slots))
    && (report.elapsed <==> now >= env.ends.instant)
    && (report.complete <==>
          && report.elapsed && report.missing == {} && report.duplicates == map[]
          && report.totals.attempts == EXPECTED_REQUESTS)
  }

  /** `summarize`, for a given list of metrics: it reports exactly when the window is lawful and every
    * scheduled record is admitted.
    */
  method SummarizeWith(metrics: set<string>, env: Env, records: seq<Record>, now: int)
      returns (r: Result<Report, Refusal>)
    ensures r.Ok? <==> WindowLawful(env) && Inspected(env, records) && AllNumeric(metrics, Scheduled(records))
    ensures r.Ok? ==> IsReport(metrics, env, records, now, r.value)
  {
    if !WindowLawful(env) { return Err(ConfigurationRefused); }
    var first, databases, slots := FirstPass(env, records);
    if first.Err? { return Err(first.error); }
    var totals := first.value;
    var cohorts := SecondPass(metrics, totals.groups);
    GroupsCoverSamples(metrics, totals.groups, Scheduled(records));
    if cohorts.None? { return Err(NumericTimingRefused); }
    var missing := set s | 0 <= s < SLOTS && s !in slots;
    var duplicates := DuplicateSlots(slots);
    var pairs := CountPairs(slots);
    var elapsed := now >= env.ends.instant;
    var complete := elapsed && missing == {} && duplicates == map[] && totals.attempts == EXPECTED_REQUESTS;
    return Ok(Report(totals, databases, slots, cohorts.value, missing, duplicates, pairs, elapsed, complete));
  }

  method Summarize(env: Env, records: seq<Record>, now: int) returns (r: Result<Report, Refusal>)
    ensures r.Ok? <==>
      WindowLawful(env) && Inspected(env, records) && AllNumeric(TimingHeader.TIMINGS, Scheduled(records))
    ensures r.Ok? ==> IsReport(TimingHeader.TIMINGS, env, records, now, r.value)
  {
    r := SummarizeWith(TimingHeader.TIMINGS, env, records, now);
  }
}
