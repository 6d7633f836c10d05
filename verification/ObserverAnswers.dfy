/** What the observer reports: which reads pass, why the others fail, and what a trace and the endpoint's states
  * make of a sample.
  */
module ObserverAnswers {
  import opened Common
  import opened StudyObserver
  import StudyGate
  import TimingHeader

  // ---- one read ----

  /** An answer of lawful size that is JSON. */
  predicate IsDocument(reply: Reply) {
    reply.Answer? && reply.size <= 262144 && reply.json
  }

  predicate NamesPolicy(config: Configuration, reply: Reply)
    requires reply.Answer?
  {
    reply.policy == Some(config.policy)
  }

  /** Stored nowhere on the way: the client's cache header says so, the CDN's too if it came through, and the
    * edge did not answer from a copy.
    */
  predicate IsPrivate(reply: Reply)
    requires reply.Answer?
  {
    && reply.noStore && reply.cdnNoStore != Some(false)
    && !reply.cache.Hit? && !reply.cache.Stale? && !reply.cache.Prerender?
  }

  /** The edge passed the request on, and the header is one that the service prints. */
  predicate IsTimed(reply: Reply)
    requires reply.Answer?
  {
    (reply.cache.Miss? || reply.cache.Bypass?) && TimingHeader.Parse(reply.header, "MISS").Some?
  }

  predicate Passes(config: Configuration, reply: Reply) {
    IsDocument(reply) && NamesPolicy(config, reply) && IsPrivate(reply) && reply.contract && IsTimed(reply)
  }

  /** The one reason for a failed read, by the first thing wrong with the answer. */
  ghost predicate FailsWith(config: Configuration, reply: Reply, reason: Reason) {
    && (reason == HttpFailure <==> reply.HttpError?)
    && (reason == SizeRefused <==> reply.Answer? && reply.size > 262144)
    && (reason == TransportOrJson <==> reply.Broken? || (reply.Answer? && reply.size <= 262144 && !reply.json))
    && (reason == IdentityMismatch <==> IsDocument(reply) && !NamesPolicy(config, reply))
    && (reason == CacheBoundaryChanged <==> IsDocument(reply) && NamesPolicy(config, reply) && !IsPrivate(reply))
    && (reason == ContractRefused <==>
          IsDocument(reply) && NamesPolicy(config, reply) && IsPrivate(reply) && !reply.contract)
    && (reason == OriginTimingRefused <==>
          IsDocument(reply) && NamesPolicy(config, reply) && IsPrivate(reply) && reply.contract && !IsTimed(reply))
    && reason != Unclassified
  }

  /** The sample's timing holds this measurement: its marker, and the seven numbers under their keys. */
  ghost predicate Holds(timing: Timing, measured: map<string, nat>, first: bool) {
    && timing.process == (if first then FirstProcess else SubsequentProcess)
    && timing.metrics.Keys == TimingHeader.TIMINGS
    && forall n :: n in measured ==> n + "_us" in timing.metrics && timing.metrics[n + "_us"] == Number(measured[n])
  }

  lemma WordMeaning(header: Option<string>, edge: Edge)
    ensures edge.Miss? || edge.Bypass? ==>
      TimingHeader.Parse(header, CacheWord(edge)) == TimingHeader.Parse(header, "MISS")
    ensures !edge.Miss? && !edge.Bypass? ==> TimingHeader.Parse(header, CacheWord(edge)).None?
  {
    assert "OTHER"[0] != "MISS"[0] && "OTHER"[0] != "BYPASS"[0];
  }

  lemma ConvertedHolds(keys: set<string>, found: TimingHeader.Timings, measured: map<string, nat>, first: bool)
    requires "process" !in keys && found.Keys == keys + {"process"}
    requires forall k :: k in keys ==> found[k].Micros?
    requires TimingHeader.Reports(keys, found, measured, first)
    ensures Converted(found).process == (if first then FirstProcess else SubsequentProcess)
    ensures Converted(found).metrics.Keys == keys
    ensures forall n :: n in measured ==>
      n + "_us" in Converted(found).metrics && Converted(found).metrics[n + "_us"] == Number(measured[n])
  {
    forall n | n in measured ensures n + "_us" in keys {
      assert n + "_us" in found && found[n + "_us"].Micros?;
    }
  }

  lemma ParsedHolds(header: Option<string>) returns (measured: map<string, nat>, first: bool)
    requires TimingHeader.Parse(header, "MISS").Some?
    ensures TimingHeader.Acknowledged(measured)
    ensures TimingHeader.Reports(TimingHeader.TIMINGS, TimingHeader.Parse(header, "MISS").value, measured, first)
    ensures Holds(Converted(TimingHeader.Parse(header, "MISS").value), measured, first)
  {
    var found := TimingHeader.Parse(header, "MISS").value;
    measured, first := TimingHeader.AcceptedHeaderWasPrinted(header.value, "MISS");
    TimingHeader.ProcessIsNoMetric();
    TimingHeader.AcceptedKinds(TimingHeader.TIMINGS, header, "MISS");
    forall k | k in TimingHeader.TIMINGS ensures found[k].Micros? {
      MetricsAreMicros(TimingHeader.TIMINGS, k, found[k]);
    }
    ConvertedHolds(TimingHeader.TIMINGS, found, measured, first);
  }

  lemma MetricsAreMicros(keys: set<string>, k: string, field: TimingHeader.Field)
    requires "process" !in keys && k in keys && TimingHeader.Lawful(keys, k, field)
    ensures field.Micros?
  {
  }

  lemma PassMeaning(config: Configuration, route: Route, reply: Reply, elapsed: nat)
    ensures var s := Request(config, route, reply, elapsed);
      && (s.passed <==> Passes(config, reply)) && (s.passed <==> s.reason.None?) && (s.passed <==> s.timing.Some?)
      && (s.reason.Some? ==> FailsWith(config, reply, s.reason.value))
  {
    if reply.Answer? { WordMeaning(reply.header, reply.cache); }
  }

  /** A read passes if and only if the answer is a JSON document of lawful size under the policy in force, is
    * private, fulfils its contract and carries a timing header, and then it holds what that header measured; a
    * failed read names its first flaw. Nothing is claimed of the platform or the database yet.
    */
  lemma RequestMeaning(config: Configuration, route: Route, reply: Reply, elapsed: nat)
      returns (measured: map<string, nat>, first: bool)
    ensures var s := Request(config, route, reply, elapsed);
      && (s.passed <==> Passes(config, reply)) && (s.passed <==> s.reason.None?) && (s.passed <==> s.timing.Some?)
      && (s.reason.Some? ==> FailsWith(config, reply, s.reason.value))
      && s.route == route && s.elapsed == Number(elapsed) && s.phase == First && s.platform == Unobserved
      && s.trace.None? && s.resume == UnobservedDatabase
      && s.edge == (if IsDocument(reply) then reply.cache else Unknown)
    ensures Passes(config, reply) ==>
      && TimingHeader.Reports(TimingHeader.TIMINGS, TimingHeader.Parse(reply.header, "MISS").value, measured, first)
      && Holds(Request(config, route, reply, elapsed).timing.value, measured, first)
  {
    PassMeaning(config, route, reply, elapsed);
    measured, first := map[], false;
    if Passes(config, reply) {
      WordMeaning(reply.header, reply.cache);
      measured, first := ParsedHolds(reply.header);
    }
  }

  // ---- the trace ----

  /** A trace marks a sample cold exactly when it was classified cold, and warm exactly when warm; one that could
    * not be captured leaves the platform unobserved and says so, and without tracing nothing is marked. The
    * verdict of the read is not touched.
    */
  lemma TraceMeaning(sample: Sample, capture: Option<Capture>)
    requires sample.platform == Unobserved && sample.trace.None?
    ensures var s := Traced(sample, capture);
      && (s.platform == Cold <==> capture == Some(Classified(true)))
      && (s.platform == Warm <==> capture == Some(Classified(false)))
      && (s.platform == Unobserved <==> capture.None? || capture.value.NotCaptured?)
      && (s.trace.None? <==> capture.None?)
      && (s.trace.Some? ==> (s.trace.value.passed <==> capture.value.Classified?))
      && (s.trace.Some? ==> s.trace.value.classification == if s.platform == Unobserved then None else Some(s.platform))
      && s.(platform := sample.platform, trace := sample.trace) == sample
  {
  }

  // ---- one observation ----

  /** The slot's route: the four take turns, hour by hour. */
  predicate IsTurnOf(route: Route, slot: nat) {
    && (route == StatusRoute <==> slot % 4 == 0) && (route == Forecasts <==> slot % 4 == 1)
    && (route == TickerFilter <==> slot % 4 == 2) && (route == Performance <==> slot % 4 == 3)
  }

  /** A sample of the observation: the read of this reply, and the mark of its trace. */
  ghost predicate IsSampleOf(config: Configuration, slot: nat, phase: Phase, reply: Reply, capture: Option<Capture>,
                             x: Sample)
  {
    && IsTurnOf(x.route, slot) && x.phase == phase && (x.passed <==> Passes(config, reply))
    && (x.reason.Some? <==> !x.passed) && (x.reason.Some? ==> FailsWith(config, reply, x.reason.value))
    && (x.platform == Cold <==> capture == Some(Classified(true)))
    && (x.platform == Warm <==> capture == Some(Classified(false)))
    && (x.trace.Some? <==> capture.Some?) && (x.trace.Some? ==> (x.trace.value.passed <==> capture.value.Classified?))
  }

  lemma SampleMeaning(config: Configuration, slot: nat, phase: Phase, reply: Reply, elapsed: nat,
                      capture: Option<Capture>)
    ensures var x := Traced(Request(config, RouteOf(slot), reply, elapsed).(phase := phase), capture);
      IsSampleOf(config, slot, phase, reply, capture, x)
  {
    var measured, first := RequestMeaning(config, RouteOf(slot), reply, elapsed);
    TraceMeaning(Request(config, RouteOf(slot), reply, elapsed).(phase := phase), capture);
  }

  /** An observation: the first read of the hour's route, a paired one exactly when the first passed and time was
    * left, and passed exactly when both reads passed and every trace that was asked for was captured.
    */
  lemma ObservationMeaning(config: Configuration, now: int, s: Surroundings, r: Receipt)
    requires IsObservation(config, now, s, r)
    ensures var slot := (now - config.starts) / 3_600_000_000;
      && r.slot == Number(slot) && r.host == config.host && r.policy == config.policy
      && |r.samples| == (if Passes(config, s.first) && s.inTime then 2 else 1)
      && IsSampleOf(config, slot, First, s.first, if s.traced then Some(s.firstCapture) else None, r.samples[0])
      && (|r.samples| == 2 ==>
            IsSampleOf(config, slot, Paired, s.second, if s.traced then Some(s.secondCapture) else None, r.samples[1]))
      && (r.passed <==>
            && Passes(config, s.first) && s.inTime && Passes(config, s.second)
            && (s.traced ==> s.firstCapture.Classified? && s.secondCapture.Classified?))
  {
    var slot := (now - config.starts) / HOUR;
    PassMeaning(config, RouteOf(slot), s.first, s.firstElapsed);
    var measured, first := RequestMeaning(config, RouteOf(slot), s.first, s.firstElapsed);
    SampleMeaning(config, slot, First, s.first, s.firstElapsed, CaptureOf(s, s.firstCapture));
    SampleMeaning(config, slot, Paired, s.second, s.secondElapsed, CaptureOf(s, s.secondCapture));
  }

  // ---- the endpoint's states ----

  /** The two endpoint states belong to one endpoint, are sound, and bracket the observation within five minutes. */
  ghost predicate Bracket(r: Receipt, before: State, after: State, end: int) {
    && before.ownScope && after.ownScope && before.passed && after.passed && before.lawful && after.lawful
    && before.endpoint == after.endpoint && before.project == after.project
    && before.active.Some? && after.active.Some?
    && before.observed.utc && r.observedAt.utc && after.started.utc && after.observed.utc
    && before.observed.instant <= r.observedAt.instant <= after.started.instant
    && after.started.instant <= after.observed.instant <= end
    && after.started.instant - before.observed.instant <= 300_000_000
  }

  /** An annotation is made exactly between two states that bracket the observation. The pair saw the database
    * wake exactly when it passed, the endpoint was idle before and active after; it found it active throughout
    * exactly when it passed and the endpoint was active both times. Only a pair that saw it wake has its first
    * sample marked, and nothing else changes.
    */
  lemma AnnotationMeaning(r: Receipt, before: State, after: State, end: int)
    requires r.samples != []
    ensures var a := Annotate(r, before, after, end);
      && (a.Some? <==> Bracket(r, before, after, end))
      && (a.Some? ==>
            var woke := r.passed && before.active == Some(false) && after.active == Some(true);
            var stayed := r.passed && before.active == Some(true) && after.active == Some(true);
            var marked := if woke then [r.samples[0].(resume := IdleToActive)] + r.samples[1..] else r.samples;
            var cohort := if woke then IdleToActive else if stayed then ActiveThroughout else UnobservedDatabase;
            a.value == r.(lifecycle := Some(cohort), samples := marked))
  {
  }
}
