/** The study middleware: one reader at a time, and a latch that stops the process for good.
  *
  * The await of the reader is the only point at which requests interleave, so a run is a
  * sequence of two kinds of step: a request arrives (and is answered or starts the reader),
  * or a running reader returns and its request is answered.
  */
module StudyGate {
  import opened Common
  import opened TimingHeader

  datatype Request = Request(authorization: seq<string>, httpMethod: string, path: string, query: string)

  /** `config` is None when the policy or environment was refused. */
  datatype Service = Service(bearer: string, config: Option<Window>)
  datatype Window = Window(startsAt: int, expiresAt: int, policy: string)

  /** What the reader thread hands back; `timing` is None when a value is not a non-negative int. */
  datatype ReadOutcome =
    | Returned(bodyLength: nat, timing: Option<map<string, nat>>, sameSnapshot: bool, backendAbsent: bool)
    | Refused(reason: string)     // StudyRefusal
    | Crashed                     // any other exception

  datatype Response =
    | Error(status: nat, refusal: string)
    | Reading(timing: string, policy: string)

  const PATHS: set<string> := {"/v1/status", "/v1/forecasts", "/v1/ticker-filter", "/v1/performance"}

  const REFUSAL_CODES: set<string> := {
    "snapshot_postcheck_refused", "snapshot_deadline", "service_refused", "snapshot_ended_early",
    "snapshot_changed", "rollback_refused", "rollback_unconfirmed", "read_or_closure_refused",
    "contract_refused", "preparation_refused", "preparation_cache_not_used",
    "reader_absence_unconfirmed", "read_acknowledgement_refused"}

  const MAX_BODY: nat := 262144

  /** What happened, in order; the program does not read it. */
  datatype Event =
    | Turned(request: Request, early: int, late: int, status: nat)
    | Started(request: Request, early: int, late: int, first: bool)
    | Answered(outcome: ReadOutcome, first: bool)

  /** `permits` and `reading` are the semaphore and the request in its critical section;
    * a reader in flight remembers whether it was the first admitted.
    */
  datatype State = State(permits: nat, reading: seq<bool>, admitted: nat, stopped: bool, history: seq<Event>)

  datatype Step =
    | Arrive(request: Request, early: int, late: int)   // the two clock readings of the window test
    | Return(reader: nat, outcome: ReadOutcome)

  const START: State := State(1, [], 0, false, [])

  predicate Authorized(s: Service, r: Request) {
    |r.authorization| == 1 && |"Bearer " + s.bearer| >= 50 && r.authorization[0] == "Bearer " + s.bearer
  }

  /** The cascade before the gate: Some(status) refuses. */
  function Screen(s: Service, stopped: bool, r: Request, early: int, late: int): Option<nat> {
    if !Authorized(s, r) then Some(401)
    else if s.config.None? then Some(503)
    else if early < s.config.value.startsAt then Some(425)
    else if late >= s.config.value.expiresAt then Some(410)
    else if stopped then Some(503)
    else if r.httpMethod != "GET" then Some(405)
    else if r.path !in PATHS then Some(404)
    else if r.query != "" then Some(400)
    else None
  }

  function AfterArrival(s: Service, st: State, r: Request, early: int, late: int): State {
    match Screen(s, st.stopped, r, early, late)
    case Some(status) => st.(history := st.history + [Turned(r, early, late, status)])
    case None =>
      if st.permits == 0 then st.(history := st.history + [Turned(r, early, late, 429)])
      else
        var first := st.admitted == 0;
        st.(permits := st.permits - 1, reading := st.reading + [first], admitted := st.admitted + 1,
            history := st.history + [Started(r, early, late, first)])
  }

  predicate Acceptable(o: ReadOutcome) {
    && o.Returned? && o.sameSnapshot && o.backendAbsent && o.timing.Some? && Acknowledged(o.timing.value)
    && 0 < o.bodyLength <= MAX_BODY
  }

  function RefusalHeader(o: ReadOutcome): string {
    if o.Refused? && o.reason in REFUSAL_CODES then o.reason
    else if o.Returned? then "read_acknowledgement_refused"
    else "read_refused"
  }

  function Answer(s: Service, o: ReadOutcome, first: bool): Response
    requires s.config.Some?
  {
    if Acceptable(o) then
      assert forall n :: n in NAMES ==> n in o.timing.value;
      Reading(Print(o.timing.value, first), s.config.value.policy)
    else Error(503, RefusalHeader(o))
  }

  /** The reader numbered `k` among those in flight returns; the gate is released last. */
  function AfterReturn(s: Service, st: State, k: nat, o: ReadOutcome): State
    requires s.config.Some? && k < |st.reading|
  {
    var first := st.reading[k];
    State(st.permits + 1, st.reading[..k] + st.reading[k + 1..], st.admitted, st.stopped || !Acceptable(o),
          st.history + [Answered(o, first)])
  }

  /** A step that cannot happen (no such reader) changes nothing. */
  function Apply(s: Service, st: State, step: Step): State {
    match step
    case Arrive(r, early, late) => AfterArrival(s, st, r, early, late)
    case Return(k, o) => if s.config.None? || k >= |st.reading| then st else AfterReturn(s, st, k, o)
  }

  function After(s: Service, steps: seq<Step>): State {
    if steps == [] then START else Apply(s, After(s, steps[..|steps| - 1]), steps[|steps| - 1])
  }

  // ---- the invariant ----

  /** The request whose reader has started and not yet been answered, if any. */
  function InFlight(history: seq<Event>): Option<bool> {
    if history == [] then None
    else match history[|history| - 1]
      case Started(_, _, _, first) => Some(first)
      case Answered(_, _) => None
      case Turned(_, _, _, _) => InFlight(history[..|history| - 1])
  }

  ghost predicate Failed(history: seq<Event>) {
    exists i :: 0 <= i < |history| && history[i].Answered? && !Acceptable(history[i].outcome)
  }

  function Starts(history: seq<Event>): nat {
    if history == [] then 0
    else Starts(history[..|history| - 1]) + (if history[|history| - 1].Started? then 1 else 0)
  }

  /** Every start was admissible, found no reader in flight and no earlier failure; every answer
    * belongs to the reader in flight.
    */
  ghost predicate Lawful(s: Service, history: seq<Event>) {
    history == [] ||
    var before, e := history[..|history| - 1], history[|history| - 1];
    && Lawful(s, before)
    && (e.Started? ==> InFlight(before).None? && !Failed(before) && e.first == (Starts(before) == 0)
                       && Screen(s, false, e.request, e.early, e.late).None?)
    && (e.Answered? ==> InFlight(before) == Some(e.first))
  }

  ghost predicate Inv(s: Service, st: State) {
    && st.permits + |st.reading| == 1
    && st.admitted == Starts(st.history)
    && (st.stopped <==> Failed(st.history))
    && InFlight(st.history) == (if st.reading == [] then None else Some(st.reading[0]))
    && Lawful(s, st.history)
  }

  /** Appending one lawful event to the history. */
  lemma HistoryAppend(s: Service, history: seq<Event>, e: Event)
    ensures var all := history + [e];
      && (Failed(all) <==> Failed(history) || (e.Answered? && !Acceptable(e.outcome)))
      && Starts(all) == Starts(history) + (if e.Started? then 1 else 0)
      && InFlight(all) == (match e
                           case Started(_, _, _, first) => Some(first)
                           case Answered(_, _) => None
                           case Turned(_, _, _, _) => InFlight(history))
      && (Lawful(s, all) <==>
          && Lawful(s, history)
          && (e.Started? ==> InFlight(history).None? && !Failed(history) && e.first == (Starts(history) == 0)
                             && Screen(s, false, e.request, e.early, e.late).None?)
          && (e.Answered? ==> InFlight(history) == Some(e.first)))
  {
    var all := history + [e];
    assert all[..|all| - 1] == history && all[|all| - 1] == e;
  }

  lemma ArrivalKeepsInv(s: Service, st: State, r: Request, early: int, late: int)
    requires Inv(s, st)
    ensures Inv(s, AfterArrival(s, st, r, early, late))
  {
    var screened := Screen(s, st.stopped, r, early, late);
    if screened.Some? {
      HistoryAppend(s, st.history, Turned(r, early, late, screened.value));
    } else if st.permits == 0 {
      HistoryAppend(s, st.history, Turned(r, early, late, 429));
    } else {
      HistoryAppend(s, st.history, Started(r, early, late, st.admitted == 0));
    }
  }

  lemma ReturnKeepsInv(s: Service, st: State, k: nat, o: ReadOutcome)
    requires Inv(s, st) && s.config.Some? && k < |st.reading|
    ensures Inv(s, AfterReturn(s, st, k, o))
  {
    var first := st.reading[k];
    HistoryAppend(s, st.history, Answered(o, first));
  }

  lemma StepKeepsInv(s: Service, st: State, step: Step)
    requires Inv(s, st)
    ensures Inv(s, Apply(s, st, step))
  {
    match step
    case Arrive(r, early, late) => ArrivalKeepsInv(s, st, r, early, late);
    case Return(k, o) => if s.config.Some? && k < |st.reading| { ReturnKeepsInv(s, st, k, o); }
  }

  /** Every interleaving of arrivals and returns keeps the invariant. */
  lemma {:induction false} EveryRunIsLawful(s: Service, steps: seq<Step>)
    ensures Inv(s, After(s, steps))
  {
    if steps != [] {
      EveryRunIsLawful(s, steps[..|steps| - 1]);
      StepKeepsInv(s, After(s, steps[..|steps| - 1]), steps[|steps| - 1]);
    }
  }

  // ---- what the invariant says about a whole history ----

  lemma {:induction false} PrefixIsLawful(s: Service, history: seq<Event>, n: nat)
    requires Lawful(s, history) && n <= |history|
    ensures Lawful(s, history[..n])
  {
    if n < |history| {
      var before := history[..|history| - 1];
      PrefixIsLawful(s, before, n);
      assert before[..n] == history[..n];
    } else {
      assert history[..n] == history;
    }
  }

  /** A lawful event stands in the state its prefix describes. */
  lemma EventAt(s: Service, history: seq<Event>, i: nat)
    requires Lawful(s, history) && i < |history|
    ensures var before, e := history[..i], history[i];
      && (e.Started? ==> InFlight(before).None? && !Failed(before) && e.first == (Starts(before) == 0)
                         && Screen(s, false, e.request, e.early, e.late).None?)
      && (e.Answered? ==> InFlight(before) == Some(e.first))
  {
    PrefixIsLawful(s, history, i + 1);
    assert history[..i + 1][..i] == history[..i];
  }

  /** If nothing is in flight after a start, its answer came in between. */
  lemma {:induction false} AnsweredSince(history: seq<Event>, i: nat) returns (k: nat)
    requires i < |history| && history[i].Started? && InFlight(history).None?
    ensures i < k < |history| && history[k].Answered?
  {
    var n := |history| - 1;
    if history[n].Answered? {
      k := n;
    } else {
      assert history[n].Turned? && i < n;
      assert history[..n][i] == history[i];
      k := AnsweredSince(history[..n], i);
      assert history[..n][k] == history[k];
    }
  }

  /** Reads are serial, and a read that failed is the last one ever started. */
  lemma ReadsAreSerial(s: Service, steps: seq<Step>, i: nat, j: nat) returns (k: nat)
    requires var h := After(s, steps).history; i < j < |h| && h[i].Started? && h[j].Started?
    ensures var h := After(s, steps).history; i < k < j && h[k].Answered? && Acceptable(h[k].outcome)
    ensures var h := After(s, steps).history; forall m :: 0 <= m < j && h[m].Answered? ==> Acceptable(h[m].outcome)
  {
    var h := After(s, steps).history;
    EveryRunIsLawful(s, steps);
    EventAt(s, h, j);
    assert h[..j][i] == h[i];
    k := AnsweredSince(h[..j], i);
    forall m | 0 <= m < j && h[m].Answered? ensures Acceptable(h[m].outcome) {
      assert h[..j][m] == h[m];
    }
  }

  /** Once stopped, the process stays stopped and starts no reader again. */
  lemma {:induction false} StoppedForGood(s: Service, steps: seq<Step>, n: nat)
    requires n <= |steps| && After(s, steps[..n]).stopped
    ensures After(s, steps).stopped && After(s, steps[..n]).history <= After(s, steps).history
    ensures var h := After(s, steps).history;
      forall i :: |After(s, steps[..n]).history| <= i < |h| ==> !h[i].Started?
  {
    if n == |steps| {
      assert steps[..n] == steps;
    } else {
      var before := steps[..|steps| - 1];
      assert before[..n] == steps[..n];
      StoppedForGood(s, before, n);
      var st := After(s, before);
    }
  }

  /** At most one reader is in flight, and the free permits account for the rest. */
  lemma OneReaderAtATime(s: Service, steps: seq<Step>)
    ensures var st := After(s, steps); st.permits + |st.reading| == 1
  {
    EveryRunIsLawful(s, steps);
  }

  /** What every reader start had presented. */
  ghost predicate Admissible(s: Service, e: Event)
    requires e.Started?
  {
    && Authorized(s, e.request) && s.config.Some?
    && s.config.value.startsAt <= e.early && e.late < s.config.value.expiresAt
    && e.request.httpMethod == "GET" && e.request.path in PATHS && e.request.query == ""
  }

  /** Every start was authorized, well formed and, by a clock that never runs backwards, inside
    * the study window at both of its readings.
    */
  lemma EveryStartWasAdmissible(s: Service, steps: seq<Step>, i: nat)
    requires i < |After(s, steps).history| && After(s, steps).history[i].Started?
    ensures var e := After(s, steps).history[i];
      && Admissible(s, e)
      && (e.early <= e.late ==> s.config.value.startsAt <= e.late && e.early < s.config.value.expiresAt)
  {
    EveryRunIsLawful(s, steps);
    EventAt(s, After(s, steps).history, i);
  }

  lemma {:induction false} StartsGrow(history: seq<Event>, i: nat)
    requires i < |history| && history[i].Started?
    ensures Starts(history) >= Starts(history[..i]) + 1
  {
    var n := |history| - 1;
    if i < n {
      assert history[..n][i] == history[i] && history[..n][..i] == history[..i];
      StartsGrow(history[..n], i);
    }
  }

  /** An answer belongs to the start before it, with only refusals in between. */
  lemma {:induction false} StartOf(s: Service, history: seq<Event>) returns (i: nat)
    requires Lawful(s, history) && InFlight(history).Some?
    ensures i < |history| && history[i].Started? && InFlight(history) == Some(history[i].first)
    ensures forall m :: i < m < |history| ==> history[m].Turned?
  {
    var n := |history| - 1;
    if history[n].Started? {
      i := n;
    } else {
      i := StartOf(s, history[..n]);
      assert history[..n][i] == history[i];
      assert forall m :: i < m < n ==> history[..n][m] == history[m];
    }
  }

  /** Only the first answer of a process can carry process=first: every later reading says
    * process=subsequent, which is what the observer parses from its header.
    */
  lemma OneFirstResponse(s: Service, steps: seq<Step>, a: nat, b: nat)
    requires s.config.Some?
    requires var h := After(s, steps).history; a < b < |h| && h[a].Answered? && h[b].Answered?
    ensures var e := After(s, steps).history[b];
      && !e.first
      && (Acceptable(e.outcome) ==>
            var parsed := Parse(Some(Answer(s, e.outcome, e.first).timing), "MISS");
            parsed.Some? && parsed.value["process"] == Process(false))
  {
    var h := After(s, steps).history;
    EveryRunIsLawful(s, steps);
    EventAt(s, h, a);
    EventAt(s, h, b);
    PrefixIsLawful(s, h, a);
    PrefixIsLawful(s, h, b);
    var i := StartOf(s, h[..a]);
    var j := StartOf(s, h[..b]);
    assert h[..a][i] == h[i] && h[..b][j] == h[j];
    forall m | j < m < b ensures h[m].Turned? {
      assert h[..b][m] == h[m];
    }
    EventAt(s, h, j);
    assert h[..j][i] == h[i];
    StartsGrow(h[..j], i);
    if Acceptable(h[b].outcome) {
      PrintedHeaderParses(h[b].outcome.timing.value, false, "MISS");
    }
  }

  // ---- the object the middleware closes over ----

  class Boundary {
    const service: Service
    var permits: nat          // the BoundedSemaphore
    var admitted: nat
    var stopped: bool
    var reading: seq<bool>    // requests awaiting their reader
    ghost var history: seq<Event>

    constructor (service: Service)
      ensures this.service == service && Now() == START
    {
      this.service := service;
      permits, admitted, stopped, reading, history := 1, 0, false, [], [];
    }

    ghost function Now(): State
      reads this
    {
      State(permits, reading, admitted, stopped, history)
    }

    /** The handler up to its await: a refusal status, or None when the reader was started. */
    method Arrive(r: Request, early: int, late: int) returns (refused: Option<nat>)
      modifies this
      ensures Now() == Apply(service, old(Now()), Step.Arrive(r, early, late))
      ensures refused.None? <==> |reading| > |old(reading)|
      ensures refused.Some? ==> history == old(history) + [Turned(r, early, late, refused.value)]
    {
      refused := Screen(service, stopped, r, early, late);
      if refused.None? && permits == 0 { refused := Some(429); }
      if refused.Some? {
        history := history + [Turned(r, early, late, refused.value)];
        return;
      }
      permits := permits - 1;
      var first := admitted == 0;
      admitted := admitted + 1;
      reading := reading + [first];
      history := history + [Started(r, early, late, first)];
    }

    /** The handler after its await, down to the release in its finally clause. */
    method Finish(k: nat, o: ReadOutcome) returns (response: Response)
      requires service.config.Some? && k < |reading|
      modifies this
      ensures Now() == Apply(service, old(Now()), Step.Return(k, o))
      ensures response == Answer(service, o, old(reading[k]))
    {
      var first := reading[k];
      response := Answer(service, o, first);
      if !Acceptable(o) { stopped := true; }
      reading := reading[..k] + reading[k + 1..];
      permits := permits + 1;
      history := history + [Answered(o, first)];
    }
  }
}
