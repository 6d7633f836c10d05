/** The study's observer: up to two reads of the slot's route, an optional provider trace for each, and
  * an optional annotation with the database's lifecycle.
  */
module StudyObserver {
  import opened Common
  import StudyGate
  import TimingHeader

  /** Instants in microseconds. */
  const HOUR: int := 3_600_000_000
  const WEEK: int := 168 * HOUR
  const MAX_BODY: nat := 262144

  datatype Route = StatusRoute | Forecasts | TickerFilter | Performance | OtherRoute

  function RouteOf(slot: nat): Route {
    match slot % 4
    case 0 => StatusRoute
    case 1 => Forecasts
    case 2 => TickerFilter
    case _ => Performance
  }

  datatype Phase = First | Paired | OtherPhase
  datatype Platform = Cold | Warm | Unobserved | OtherPlatform
  datatype Edge = Hit | Miss | Bypass | Stale | Prerender | Revalidated | Unknown
  datatype Database = IdleToActive | ActiveThroughout | UnobservedDatabase
  datatype Process = FirstProcess | SubsequentProcess | UnobservedProcess
  datatype Reason =
    | SizeRefused | IdentityMismatch | CacheBoundaryChanged | ContractRefused | OriginTimingRefused
    | HttpFailure | TransportOrJson | Unclassified

  datatype Value = Number(n: int) | Text

  /** `origin_timing`: the process marker and the other entries. */
  datatype Timing = Timing(process: Process, metrics: map<string, Value>)

  datatype Trace = Trace(passed: bool, classification: Option<Platform>)

  datatype Sample = Sample(phase: Phase, route: Route, passed: bool, reason: Option<Reason>, edge: Edge,
                           platform: Platform, trace: Option<Trace>, timing: Option<Timing>,
                           elapsed: Value, resume: Database)

  datatype Receipt = Receipt(ownScope: bool, schema: int, host: string, policy: string, bodiesRetained: bool,
                             credentials: bool, observedAt: Stamp<int>, slot: Value, samples: seq<Sample>,
                             passed: bool, lifecycle: Option<Database>)

  datatype Configuration = Configuration(host: string, policy: string, starts: int, expires: int)

  // ---- one request ----

  /** What came back: an answer, an HTTP error, or neither. `cache` is the recognised cache header. */
  datatype Reply =
    | Answer(size: nat, json: bool, cache: Edge, policy: Option<string>, noStore: bool, cdnNoStore: Option<bool>,
             contract: bool, header: Option<string>)
    | HttpError
    | Broken

  /** The cache word handed to the header parser. */
  function CacheWord(edge: Edge): string {
    match edge
    case Miss => "MISS"
    case Bypass => "BYPASS"
    case _ => "OTHER"
  }

  function ProcessOfField(found: TimingHeader.Timings, marker: string): Process {
    if marker !in found || !found[marker].Process? then UnobservedProcess
    else if found[marker].first then FirstProcess else SubsequentProcess
  }

  function MetricsOf(found: TimingHeader.Timings, marker: string): map<string, Value> {
    map k | k in found && k != marker && found[k].Micros? :: Number(found[k].n)
  }

  function Converted(found: TimingHeader.Timings): Timing {
    Timing(ProcessOfField(found, "process"), MetricsOf(found, "process"))
  }

  function Failed(route: Route, reason: Reason, edge: Edge, elapsed: nat): Sample {
    Sample(First, route, false, Some(reason), edge, Unobserved, None, None, Number(elapsed), UnobservedDatabase)
  }

  /** `request`: the first check that fails names the reason. */
  function Request(config: Configuration, route: Route, reply: Reply, elapsed: nat): Sample {
    match reply
    case HttpError => Failed(route, HttpFailure, Unknown, elapsed)
    case Broken => Failed(route, TransportOrJson, Unknown, elapsed)
    case Answer(size, json, cache, policy, noStore, cdnNoStore, contract, header) =>
      if size > MAX_BODY then Failed(route, SizeRefused, Unknown, elapsed)
      else if !json then Failed(route, TransportOrJson, Unknown, elapsed)
      else if policy != Some(config.policy) then Failed(route, IdentityMismatch, cache, elapsed)
      else if !noStore || cdnNoStore == Some(false) || cache.Hit? || cache.Stale? || cache.Prerender? then
        Failed(route, CacheBoundaryChanged, cache, elapsed)
      else if !contract then Failed(route, ContractRefused, cache, elapsed)
      else match TimingHeader.Parse(header, CacheWord(cache))
        case None => Failed(route, OriginTimingRefused, cache, elapsed)
        case Some(found) => Sample(First, route, true, None, cache, Unobserved, None, Some(Converted(found)),
                                   Number(elapsed), UnobservedDatabase)
  }

  // ---- the pair ----

  /** What the trace capture concludes for one request: a classification or a refusal. */
  datatype Capture = Classified(cold: bool) | NotCaptured

  function Traced(sample: Sample, capture: Option<Capture>): Sample {
    match capture
    case None => sample
    case Some(Classified(cold)) =>
      var platform := if cold then Cold else Warm;
      sample.(trace := Some(Trace(true, Some(platform))), platform := platform)
    case Some(NotCaptured) => sample.(trace := Some(Trace(false, None)))
  }

  /** Everything outside the observer's control during one observation. */
  datatype Surroundings = Surroundings(first: Reply, firstElapsed: nat, inTime: bool, second: Reply, secondElapsed: nat,
                                       traced: bool, session: bool, firstCapture: Capture, secondCapture: Capture)

  function CaptureOf(s: Surroundings, capture: Capture): Option<Capture> {
    if s.traced then Some(capture) else None
  }

  predicate Clean(s: Surroundings, sample: Sample) {
    sample.passed && (!s.traced || (sample.trace.Some? && sample.trace.value.passed))
  }

  /** `observe`: None outside the absolute window or without a trace session that was asked for; the
    * second read follows a passed first one in time.
    */
  method Observe(config: Configuration, now: int, s: Surroundings) returns (r: Option<Receipt>)
    ensures r.Some? <==> config.starts <= now < config.expires && (s.traced ==> s.session)
    ensures r.Some? ==> IsObservation(config, now, s, r.value)
  {
    if !(config.starts <= now < config.expires) { return None; }
    var slot := (now - config.starts) / HOUR;
    var route := RouteOf(slot);
    if s.traced && !s.session { return None; }
    var first := Request(config, route, s.first, s.firstElapsed);
    var samples := [first];
    if first.passed && s.inTime {
      var paired := Request(config, route, s.second, s.secondElapsed).(phase := Paired);
      samples := samples + [paired];
    }
    var captures := [CaptureOf(s, s.firstCapture), CaptureOf(s, s.secondCapture)];
    var clean := true;
    for i := 0 to |samples|
      invariant |samples| == 1 || |samples| == 2
      invariant samples[0] == (if i > 0 then Traced(first, captures[0]) else first)
      invariant |samples| == 2 ==>
        var paired := Request(config, route, s.second, s.secondElapsed).(phase := Paired);
        samples[1] == (if i > 1 then Traced(paired, captures[1]) else paired)
      invariant |samples| == 2 <==> first.passed && s.inTime
      invariant clean <==> forall j :: 0 <= j < i ==> Clean(s, samples[j])
    {
      samples := samples[i := Traced(samples[i], captures[i])];
      clean := clean && Clean(s, samples[i]);
    }
    return Some(Receipt(true, 2, config.host, config.policy, false, false, Stamp(now, true), Number(slot), samples,
                        |samples| == 2 && clean, None));
  }

  /** A receipt that the observer can emit in these surroundings. */
  ghost predicate IsObservation(config: Configuration, now: int, s: Surroundings, r: Receipt) {
    && config.starts <= now < config.expires
    && r.ownScope && r.schema == 2 && r.host == config.host && r.policy == config.policy
    && !r.bodiesRetained && !r.credentials && r.lifecycle.None?
    && r.observedAt == Stamp(now, true) && r.slot == Number((now - config.starts) / HOUR)
    && IsPair(config, RouteOf((now - config.starts) / HOUR), s, r.samples)
    && (r.passed <==> |r.samples| == 2 && forall j :: 0 <= j < |r.samples| ==> Clean(s, r.samples[j]))
  }

  /** The samples: the first read, and the second exactly when the first passed and time was left. */
  ghost predicate IsPair(config: Configuration, route: Route, s: Surroundings, samples: seq<Sample>) {
    var first := Request(config, route, s.first, s.firstElapsed);
    && |samples| == (if first.passed && s.inTime then 2 else 1)
    && samples[0] == Traced(first, CaptureOf(s, s.firstCapture))
    && (|samples| == 2 ==>
          samples[1] == Traced(Request(config, route, s.second, s.secondElapsed).(phase := Paired),
                               CaptureOf(s, s.secondCapture)))
  }

  // ---- the lifecycle annotation ----

  /** An endpoint state file; `lawful` covers its hashes' spelling. */
  datatype State = State(ownScope: bool, passed: bool, endpoint: string, project: string, lawful: bool,
                         started: Stamp<int>, observed: Stamp<int>, active: Option<bool>)

  predicate Bracketed(r: Receipt, before: State, after: State, end: int) {
    && before.observed.instant <= r.observedAt.instant <= after.started.instant <= after.observed.instant <= end
    && before.observed.utc && r.observedAt.utc && after.started.utc && after.observed.utc
    && after.started.instant - before.observed.instant <= 300_000_000
  }

  /** The cohort of a pair read between two endpoint states. */
  function CohortOf(passed: bool, before: bool, after: bool): Database {
    if passed && after then (if before then ActiveThroughout else IdleToActive) else UnobservedDatabase
  }

  /** The first sample of a pair that saw the endpoint wake carries the cohort too. */
  function Marked(samples: seq<Sample>, cohort: Database): seq<Sample>
    requires samples != []
  {
    if cohort.IdleToActive? then samples[0 := samples[0].(resume := cohort)] else samples
  }

  /** `annotate`: a passed pair's cohort follows from the two endpoint states; None is a refusal. */
  function Annotate(r: Receipt, before: State, after: State, end: int): (a: Option<Receipt>)
    requires r.samples != []
    ensures a.Some? ==> a.value.lifecycle.Some? && a.value.(lifecycle := r.lifecycle, samples := r.samples) == r
    ensures a.Some? && a.value.lifecycle != Some(UnobservedDatabase) ==> r.passed && after.active == Some(true)
    ensures a.Some? && a.value.lifecycle == Some(IdleToActive) ==> before.active == Some(false)
    ensures a.Some? ==> |a.value.samples| == |r.samples|
    ensures a.Some? ==> forall i :: 0 <= i < |r.samples| ==>
      a.value.samples[i].(resume := r.samples[i].resume) == r.samples[i]
  {
    if !before.ownScope || !after.ownScope || !before.passed || !after.passed || before.endpoint != after.endpoint
       || before.project != after.project || !Bracketed(r, before, after, end) || !before.lawful || !after.lawful
       || before.active.None? || after.active.None?
    then None
    else
      var cohort := CohortOf(r.passed, before.active.value, after.active.value);
      Some(r.(lifecycle := Some(cohort), samples := Marked(r.samples, cohort)))
  }

  /** A receipt of the pipeline: an observation, annotated or not. */
  ghost predicate Emitted(config: Configuration, r: Receipt) {
    exists now, s, plain ::
      && IsObservation(config, now, s, plain)
      && (r == plain ||
          exists before, after, end :: plain.samples != [] && Annotate(plain, before, after, end) == Some(r))
  }

  // ---- stages shared with the service ----

  /** Refusal headers that the observer copies into its receipt. */
  const RECOGNISED_STAGES: set<string> := {
    "snapshot_postcheck_refused", "snapshot_deadline", "service_refused", "snapshot_ended_early",
    "snapshot_changed", "rollback_refused", "rollback_unconfirmed", "read_or_closure_refused",
    "contract_refused", "preparation_refused", "preparation_cache_not_used",
    "reader_absence_unconfirmed", "read_acknowledgement_refused", "read_refused"}

  /** The observer recognises every refusal the service can print, and nothing else. */
  lemma StagesAgree(service: StudyGate.Service, o: StudyGate.ReadOutcome, first: bool)
    requires service.config.Some?
    ensures RECOGNISED_STAGES == StudyGate.REFUSAL_CODES + {"read_refused"}
    ensures StudyGate.Answer(service, o, first).Error? ==>
      StudyGate.Answer(service, o, first).refusal in RECOGNISED_STAGES
  {
  }
}
