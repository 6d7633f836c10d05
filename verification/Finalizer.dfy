/** The final report of the study: scheduled receipts folded into slots, counters and cohorts. */
module Finalizer {
  import opened Common
  import opened StudyObserver
  import opened Tallies
  import TimingHeader

  /** `lawful` covers the repository name and the spelling of the two digests. */
  datatype Env = Env(host: string, policy: string, starts: Stamp<int>, ends: Stamp<int>, lawful: bool)

  datatype RunFacts = RunFacts(id: int, scheduled: bool, onMain: bool, attempt: int, commit: string)

  datatype Record = Record(run: RunFacts, receipt: Receipt)

  datatype Refusal =
    | ConfigurationRefused | ProvenanceRefused | WindowRefused | SampleCountRefused | SamplePhaseRefused
    | RotatingRouteRefused | PlatformCohortRefused | PlatformAttributionRefused | NumericTimingRefused

  /** Code, route, phase, edge, platform, database state and process are kept apart. */
  datatype Key = Key(commit: string, route: Route, phase: Phase, edge: Edge, platform: Platform, database: Database,
                     process: Process)

  datatype Measure = Measure(key: Key, sample: Sample)

  const SLOTS: nat := 168
  const EXPECTED_REQUESTS: nat := 336

  predicate WindowLawful(env: Env) {
    env.lawful && env.starts.utc && env.ends.utc && env.ends.instant - env.starts.instant == WEEK
  }

  // ---- what a record must satisfy ----

  predicate Provenance(env: Env, record: Record) {
    var receipt := record.receipt;
    && record.run.onMain && record.run.attempt == 1 && receipt.ownScope && receipt.schema == 2
    && receipt.host == env.host && receipt.policy == env.policy && !receipt.bodiesRetained && !receipt.credentials
  }

  predicate InWindow(env: Env, receipt: Receipt) {
    && receipt.observedAt.utc && env.starts.instant <= receipt.observedAt.instant < env.ends.instant
    && receipt.slot == Number((receipt.observedAt.instant - env.starts.instant) / HOUR)
  }

  function SampleRefusal(slot: nat, s: Sample): Option<Refusal> {
    if s.route != RouteOf(slot) then Some(RotatingRouteRefused)
    else if s.platform.OtherPlatform? then Some(PlatformCohortRefused)
    else if s.platform != Unobserved && s.trace != Some(Trace(true, Some(s.platform))) then
      Some(PlatformAttributionRefused)
    else None
  }

  function FirstRefusal(slot: nat, samples: seq<Sample>): Option<Refusal> {
    if samples == [] then None
    else if SampleRefusal(slot, samples[0]).Some? then SampleRefusal(slot, samples[0])
    else FirstRefusal(slot, samples[1..])
  }

  predicate PhasesInOrder(samples: seq<Sample>) {
    (|samples| > 0 ==> samples[0].phase == First) && (|samples| > 1 ==> samples[1].phase == Paired)
  }

  /** The slot of a receipt inside the window. */
  function SlotOf(env: Env, receipt: Receipt): nat
    requires InWindow(env, receipt)
  {
    receipt.slot.n
  }

  /** Everything that the first pass demands of one scheduled record. */
  function Inspect(env: Env, record: Record): Option<Refusal> {
    var receipt := record.receipt;
    if !Provenance(env, record) then Some(ProvenanceRefused)
    else if !InWindow(env, receipt) then Some(WindowRefused)
    else if |receipt.samples| != 1 && |receipt.samples| != 2 then Some(SampleCountRefused)
    else if !PhasesInOrder(receipt.samples) then Some(SamplePhaseRefused)
    else FirstRefusal(SlotOf(env, receipt), receipt.samples)
  }

  predicate Nonnegative(v: Value) {
    v.Number? && v.n >= 0
  }

  /** What the second pass demands of a passed sample, for the metrics that it summarises. */
  predicate Numeric(metrics: set<string>, s: Sample) {
    && Nonnegative(s.elapsed) && s.timing.Some?
    && (forall k :: k in s.timing.value.metrics ==> Nonnegative(s.timing.value.metrics[k]))
    && metrics <= s.timing.value.metrics.Keys
  }

  // ---- what is counted ----

  function Scheduled(records: seq<Record>): seq<Record> {
    if records == [] then []
    else (if records[0].run.scheduled then [records[0]] else []) + Scheduled(records[1..])
  }

  function DatabaseOf(receipt: Receipt): Database {
    match receipt.lifecycle case None => UnobservedDatabase case Some(d) => d
  }

  function ProcessOf(s: Sample): Process {
    match s.timing case None => UnobservedProcess case Some(t) => t.process
  }

  function KeyOf(record: Record, s: Sample): Key {
    Key(record.run.commit, s.route, s.phase, s.edge, s.platform, DatabaseOf(record.receipt), ProcessOf(s))
  }

  function SampleMeasures(record: Record, samples: seq<Sample>): seq<Measure> {
    if samples == [] then []
    else [Measure(KeyOf(record, samples[0]), samples[0])] + SampleMeasures(record, samples[1..])
  }

  /** Every attempt of the scheduled records, in order. */
  function Measures(scheduled: seq<Record>): seq<Measure> {
    if scheduled == [] then []
    else SampleMeasures(scheduled[0], scheduled[0].receipt.samples) + Measures(scheduled[1..])
  }

  function FailureFile(m: Measure): Option<Reason> {
    if m.sample.passed then None
    else match m.sample.reason case None => Some(Unclassified) case Some(reason) => Some(reason)
  }

  function EdgeFile(m: Measure): Option<Edge> { Some(m.sample.edge) }
  function PlatformFile(m: Measure): Option<Platform> { Some(m.sample.platform) }
  function CohortFile(m: Measure): Option<Key> { Some(m.key) }
  function ErrorFile(m: Measure): Option<Key> { if m.sample.passed then None else Some(m.key) }
  function DatabaseFile(r: Record): Option<Database> { Some(DatabaseOf(r.receipt)) }
  function SlotFile(r: Record): Option<int> { if r.receipt.slot.Number? then Some(r.receipt.slot.n) else None }

  /** The samples filed under a cohort, in order. */
  function Under(measures: seq<Measure>, key: Key): seq<Sample> {
    if measures == [] then []
    else (if measures[0].key == key then [measures[0].sample] else []) + Under(measures[1..], key)
  }

  function IdsAt(scheduled: seq<Record>, slot: int): seq<int> {
    if scheduled == [] then []
    else (if SlotFile(scheduled[0]) == Some(slot) then [scheduled[0].run.id] else []) + IdsAt(scheduled[1..], slot)
  }

  function Listed<K, V>(lists: map<K, seq<V>>, k: K): seq<V> {
    if k in lists then lists[k] else []
  }

  // ---- the running totals ----

  datatype Totals = Totals(attempts: nat, errors: nat, failures: map<Reason, nat>, edges: map<Edge, nat>,
                           platforms: map<Platform, nat>, groups: map<Key, seq<Sample>>)

  const NOTHING: Totals := Totals(0, 0, map[], map[], map[], map[])

  function Added(t: Totals, m: Measure): Totals {
    var failure := FailureFile(m);
    Totals(t.attempts + 1, if failure.Some? then t.errors + 1 else t.errors,
           if failure.Some? then Bump(t.failures, failure.value) else t.failures,
           Bump(t.edges, m.sample.edge), Bump(t.platforms, m.sample.platform),
           t.groups[m.key := Listed(t.groups, m.key) + [m.sample]])
  }

  ghost predicate GroupsAgree(groups: map<Key, seq<Sample>>, measures: seq<Measure>) {
    forall k :: Listed(groups, k) == Under(measures, k) && (k in groups ==> groups[k] != [])
  }

  /** The totals are those of the measures. */
  ghost predicate Agrees(t: Totals, measures: seq<Measure>) {
    && t.attempts == |measures| && t.errors == CountFiled(measures, FailureFile)
    && Counts(t.failures, measures, FailureFile)
    && Counts(t.edges, measures, EdgeFile)
    && Counts(t.platforms, measures, PlatformFile)
    && GroupsAgree(t.groups, measures)
  }

  lemma {:induction false} UnderSnoc(measures: seq<Measure>, m: Measure, key: Key)
    ensures Under(measures + [m], key) == Under(measures, key) + (if m.key == key then [m.sample] else [])
  {
    if measures != [] {
      UnderSnoc(measures[1..], m, key);
      assert (measures + [m])[1..] == measures[1..] + [m];
    }
  }

  lemma {:induction false} FiledSnoc<T, K>(xs: seq<T>, x: T, file: T -> Option<K>)
    ensures CountFiled(xs + [x], file) == CountFiled(xs, file) + (if file(x).Some? then 1 else 0)
  {
    if xs != [] {
      FiledSnoc(xs[1..], x, file);
      assert (xs + [x])[1..] == xs[1..] + [x];
    }
  }

  lemma GroupsGrow(groups: map<Key, seq<Sample>>, measures: seq<Measure>, m: Measure)
    requires GroupsAgree(groups, measures)
    ensures GroupsAgree(groups[m.key := Listed(groups, m.key) + [m.sample]], measures + [m])
  {
    var next := groups[m.key := Listed(groups, m.key) + [m.sample]];
    forall k ensures Listed(next, k) == Under(measures + [m], k) && (k in next ==> next[k] != []) {
      UnderSnoc(measures, m, k);
      assert Listed(groups, k) == Under(measures, k);
    }
  }

  lemma AddedAgrees(t: Totals, measures: seq<Measure>, m: Measure)
    requires Agrees(t, measures)
    ensures Agrees(Added(t, m), measures + [m])
  {
    BumpCounts(t.failures, measures, m, FailureFile);
    BumpCounts(t.edges, measures, m, EdgeFile);
    BumpCounts(t.platforms, measures, m, PlatformFile);
    FiledSnoc(measures, m, FailureFile);
    GroupsGrow(t.groups, measures, m);
  }
}
