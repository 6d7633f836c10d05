/** What the middleware answers: which requests it lets read, why it turns the others away, and which reads it
  * passes on.
  */
module GateAnswers {
  import opened Common
  import opened TimingHeader
  import opened StudyGate

  // ---- arrivals ----

  /** One authorization header, with the service's token; a token shorter than 43 characters opens nothing. */
  predicate HasToken(s: Service, r: Request) {
    |s.bearer| >= 43 && r.authorization == ["Bearer " + s.bearer]
  }

  predicate InTime(w: Window, early: int, late: int) {
    w.startsAt <= early && late < w.expiresAt
  }

  predicate IsStudyPath(path: string) {
    path == "/v1/status" || path == "/v1/forecasts" || path == "/v1/ticker-filter" || path == "/v1/performance"
  }

  /** A plain GET of one of the four study paths, with the token, inside the window. */
  predicate MayRead(s: Service, r: Request, early: int, late: int) {
    && HasToken(s, r) && s.config.Some? && InTime(s.config.value, early, late)
    && r.httpMethod == "GET" && IsStudyPath(r.path) && r.query == ""
  }

  lemma TokenMeaning(s: Service, r: Request)
    ensures Authorized(s, r) <==> HasToken(s, r)
  {
    var expected := "Bearer " + s.bearer;
    assert |expected| == 7 + |s.bearer|;
    if Authorized(s, r) {
      assert r.authorization == [r.authorization[0]];
    }
  }

  /** The one status that turns a request away, by the first thing wrong with it. */
  ghost predicate TurnedWith(s: Service, stopped: bool, free: bool, r: Request, early: int, late: int, status: nat) {
    var known := HasToken(s, r);
    var open := known && s.config.Some? && InTime(s.config.value, early, late);
    && (status == 401 <==> !known)
    && (status == 503 <==> (known && s.config.None?) || (open && stopped))
    && (status == 425 <==> known && s.config.Some? && early < s.config.value.startsAt)
    && (status == 410 <==>
          known && s.config.Some? && s.config.value.startsAt <= early && s.config.value.expiresAt <= late)
    && (status == 405 <==> open && !stopped && r.httpMethod != "GET")
    && (status == 404 <==> open && !stopped && r.httpMethod == "GET" && !IsStudyPath(r.path))
    && (status == 400 <==> open && !stopped && r.httpMethod == "GET" && IsStudyPath(r.path) && r.query != "")
    && (status == 429 <==> MayRead(s, r, early, late) && !stopped && !free)
  }

  lemma ScreenMeaning(s: Service, stopped: bool, r: Request, early: int, late: int)
    ensures Screen(s, stopped, r, early, late).None? <==> MayRead(s, r, early, late) && !stopped
    ensures Screen(s, stopped, r, early, late).Some? ==>
      forall free :: TurnedWith(s, stopped, free, r, early, late, Screen(s, stopped, r, early, late).value)
  {
    TokenMeaning(s, r);
  }

  /** An arrival starts the reader exactly when the request may read, the process has not stopped and the permit
    * is free; it then takes the permit and is first exactly when none was admitted before. Any other arrival
    * leaves the gate as it is, with the one status that its first flaw calls for.
    */
  lemma ArrivalMeaning(s: Service, st: State, r: Request, early: int, late: int)
    ensures var next := Apply(s, st, Arrive(r, early, late));
      if MayRead(s, r, early, late) && !st.stopped && st.permits > 0 then
        next == State(st.permits - 1, st.reading + [st.admitted == 0], st.admitted + 1, false,
                      st.history + [Started(r, early, late, st.admitted == 0)])
      else exists status: nat ::
        && TurnedWith(s, st.stopped, st.permits > 0, r, early, late, status)
        && next == st.(history := st.history + [Turned(r, early, late, status)])
  {
    ScreenMeaning(s, st.stopped, r, early, late);
    var screened := Screen(s, st.stopped, r, early, late);
    if screened.Some? {
      assert TurnedWith(s, st.stopped, st.permits > 0, r, early, late, screened.value);
    } else if st.permits == 0 {
      assert TurnedWith(s, st.stopped, false, r, early, late, 429);
    }
  }

  // ---- returns ----

  predicate IsTimingName(n: string) {
    n == "preparation" || n == "observer_connect" || n == "reader_connect" || n == "integrity" || n == "service"
    || n == "snapshot" || n == "lifecycle"
  }

  /** Seven timings under their names, each at most twenty seconds. */
  ghost predicate SevenTimings(timing: map<string, nat>) {
    (forall n :: n in timing <==> IsTimingName(n)) && forall n :: n in timing ==> timing[n] <= 20_000_000
  }

  /** One snapshot throughout, the reader's absence confirmed, all timings sound, a body of lawful size. */
  ghost predicate Sound(o: ReadOutcome) {
    && o.Returned? && o.sameSnapshot && o.backendAbsent && 0 < o.bodyLength <= 262144
    && o.timing.Some? && SevenTimings(o.timing.value)
  }

  lemma NamesMeaning(n: string)
    ensures n in NAMES <==> IsTimingName(n)
  {
    assert NAMES[0] == "integrity" && NAMES[1] == "lifecycle" && NAMES[2] == "observer_connect";
    assert NAMES[3] == "preparation" && NAMES[4] == "reader_connect" && NAMES[5] == "service" && NAMES[6] == "snapshot";
  }

  lemma TimingsMeaning(timing: map<string, nat>)
    ensures Acknowledged(timing) <==> SevenTimings(timing)
  {
    forall n ensures n in NAMES <==> IsTimingName(n) { NamesMeaning(n); }
    var names := set n | n in NAMES;
    assert forall n :: n in names <==> IsTimingName(n);
    if SevenTimings(timing) {
      assert timing.Keys == names;
    }
  }

  lemma AcceptableMeaning(o: ReadOutcome)
    ensures Acceptable(o) <==> Sound(o)
  {
    if o.Returned? && o.timing.Some? { TimingsMeaning(o.timing.value); }
  }

  /** The refusal that the header names for an outcome that is not passed on. */
  ghost predicate Names(o: ReadOutcome, refusal: string) {
    match o
    case Returned(_, _, _, _) => refusal == "read_acknowledgement_refused"
    case Refused(reason) => if reason in REFUSAL_CODES then refusal == reason else refusal == "read_refused"
    case Crashed => refusal == "read_refused"
  }

  /** What a reader's return comes to: a sound read is passed on, under the policy in force and with a header
    * that parses back to its timings and its process marker; any other outcome stops the process for good and
    * is answered with 503 and its refusal. The permit is given back either way.
    */
  lemma ReturnMeaning(s: Service, st: State, k: nat, o: ReadOutcome)
    requires s.config.Some? && k < |st.reading|
    ensures var next := Apply(s, st, Return(k, o));
      && next.permits == st.permits + 1 && next.reading == st.reading[..k] + st.reading[k + 1..]
      && next.admitted == st.admitted && (next.stopped <==> st.stopped || !Sound(o))
      && next.history == st.history + [Answered(o, st.reading[k])]
    ensures var answer := Answer(s, o, st.reading[k]);
      if Sound(o) then
        && answer.Reading? && answer.policy == s.config.value.policy
        && Parse(Some(answer.timing), "MISS").Some?
        && Reports(TIMINGS, Parse(Some(answer.timing), "MISS").value, o.timing.value, st.reading[k])
      else answer.Error? && answer.status == 503 && Names(o, answer.refusal)
  {
    AcceptableMeaning(o);
    if Sound(o) {
      PrintedHeaderParses(o.timing.value, st.reading[k], "MISS");
    }
  }

  /** A failure is never forgotten: after any run the process has stopped exactly when some reader's return was
    * not sound.
    */
  lemma StoppedMeaning(s: Service, steps: seq<Step>)
    ensures var st := After(s, steps);
      st.stopped <==> exists i :: 0 <= i < |st.history| && st.history[i].Answered? && !Sound(st.history[i].outcome)
  {
    EveryRunIsLawful(s, steps);
    forall o ensures Acceptable(o) <==> Sound(o) { AcceptableMeaning(o); }
  }
}
