/** The closeout decision over published receipts. */
module Closeout {
  import opened Common
  import opened Scheduler
  import Snapshots

  /** Provenance that the run service reports next to a receipt. */
  datatype RunFacts = RunFacts(id: RunId, commit: string, dispatched: bool, onMain: bool, firstAttempt: bool,
                               ownRepository: bool, ownWorkflow: bool, succeeded: bool, created: real)

  /** `encoded` is the receipt's canonical JSON; there is none when it holds a number that is not finite. */
  datatype Record = Record(run: RunFacts, receipt: Receipt, encoded: Option<Bytes>)

  /** New York calendar facts: the local date of an instant, and whether it is a weekday's 09:30:00;
    * `isDigest` says that a string is 64 lower-case hexadecimal digits.
    */
  datatype Calendar = Calendar(date: real -> string, isOpening: real -> bool, isDigest: string -> bool)

  datatype Refusal = SlotRefused | ProvenanceRefused | DispatchTimeRefused | MarginRefused | EncodingRefused

  /** What the report says of one receipt: the values copied from it, and its digest. */
  datatype Observation = Observation(id: RunId, commit: string, qualifying: bool, margin: Option<real>,
                                     inserted: Option<int>, evidence: Option<string>, receipt: Digest)

  datatype Verdict = Skipped | Refused(error: Refusal) | Observed(day: int, row: Observation)

  /** The slot that a stamp names exactly. */
  function SlotOf(scheduled: Option<Stamp<real>>): (r: Option<nat>)
    ensures r.Some? <==> exists d :: 0 <= d < SLOTS && scheduled == Some(Stamp(SlotInstant(d), true))
    ensures r.Some? ==> r.value < SLOTS && scheduled == Some(Stamp(SlotInstant(r.value), true))
  {
    if scheduled == Some(Stamp(SlotInstant(0), true)) then Some(0)
    else if scheduled == Some(Stamp(SlotInstant(1), true)) then Some(1)
    else if scheduled == Some(Stamp(SlotInstant(2), true)) then Some(2)
    else None
  }

  predicate Provenance(run: RunFacts) {
    run.dispatched && run.onMain && run.firstAttempt && run.ownRepository && run.ownWorkflow
  }

  predicate Positive(calendar: Calendar, run: RunFacts, r: Receipt, slot: real) {
    && run.succeeded && r.status == Recorded
    && r.originVerified && r.cutoffRuleUnchanged && r.coverageUnchanged
    && r.forecastsRecorded && r.marginProven && r.recordsUnchanged
    && r.inserted.Some? && r.inserted.value > 0
    && r.margin.Some? && r.margin.value >= 5400.0
    && r.storage.Some? && 0 <= r.storage.value <= MAX_ARCHIVE_BYTES
    && r.evidence.Some? && calendar.isDigest(r.evidence.value)
    && r.cutoff == Some(calendar.date(slot))
  }

  function Least(a: real, b: real): real {
    if a <= b then a else b
  }

  predicate Consistent(calendar: Calendar, run: RunFacts, r: Receipt, slot: real, now: real) {
    && r.recordedAt.Some? && r.recordedAt.value.utc
    && r.opening.Some? && r.opening.value.utc && calendar.isOpening(r.opening.value.instant)
    && run.created <= r.recordedAt.value.instant <= Least(now, slot + 10800.0)
    && r.margin.Some?
    && -1.0 <= r.opening.value.instant - r.recordedAt.value.instant - r.margin.value <= 1.0
  }

  /** The evidence digest is copied only from a qualifying receipt. */
  function Row(run: RunFacts, r: Receipt, qualifying: bool, encoded: Bytes): Observation {
    Observation(run.id, run.commit, qualifying, r.margin, r.inserted, if qualifying then r.evidence else None,
                Digest(encoded))
  }

  function Classify(calendar: Calendar, record: Record, now: real): Verdict {
    var run, r := record.run, record.receipt;
    if !r.inScope then Skipped
    else
      var slot := SlotOf(r.scheduled);
      if slot.None? then Refused(SlotRefused)
      else
        var scheduled := SlotInstant(slot.value);
        if !Provenance(run) then Refused(ProvenanceRefused)
        else if !(scheduled <= run.created <= scheduled + 5400.0) || run.created > now then Refused(DispatchTimeRefused)
        else
          var positive := Positive(calendar, run, r, scheduled);
          if positive && !Consistent(calendar, run, r, scheduled, now) then Refused(MarginRefused)
          else if record.encoded.None? then Refused(EncodingRefused)
          else Observed(slot.value, Row(run, r, positive, record.encoded.value))
  }

  function Judge(calendar: Calendar, now: real): Record -> Verdict {
    record => Classify(calendar, record, now)
  }

  /** What one record adds to one date. */
  function Seen(judge: Record -> Verdict, record: Record, day: int): seq<Observation> {
    var verdict := judge(record);
    if verdict.Observed? && verdict.day == day then [verdict.row] else []
  }

  /** The observations of one date, in record order. */
  function OnDay(judge: Record -> Verdict, records: seq<Record>, day: int): seq<Observation> {
    if records == [] then [] else Seen(judge, records[0], day) + OnDay(judge, records[1..], day)
  }

  datatype Report = Report(observations: seq<seq<Observation>>, eligible: bool, missing: set<int>, duplicates: set<int>,
                           overdue: set<int>, failed: set<int>, attention: bool, finished: bool)

  lemma {:induction false} OnDayAppends(judge: Record -> Verdict, a: seq<Record>, b: seq<Record>, day: int)
    ensures OnDay(judge, a + b, day) == OnDay(judge, a, day) + OnDay(judge, b, day)
  {
    if a == [] {
      assert a + b == b;
      assert [] + OnDay(judge, b, day) == OnDay(judge, b, day);
    } else {
      OnDayAppends(judge, a[1..], b, day);
      assert (a + b)[1..] == a[1..] + b && (a + b)[0] == a[0];
      var head := Seen(judge, a[0], day);
      assert head + (OnDay(judge, a[1..], day) + OnDay(judge, b, day))
        == (head + OnDay(judge, a[1..], day)) + OnDay(judge, b, day);
    }
  }

  lemma OnDaySnoc(judge: Record -> Verdict, records: seq<Record>, i: nat, day: int)
    requires i < |records|
    ensures OnDay(judge, records[..i + 1], day) == OnDay(judge, records[..i], day) + Seen(judge, records[i], day)
  {
    assert records[..i + 1] == records[..i] + [records[i]];
    OnDayAppends(judge, records[..i], [records[i]], day);
    assert Seen(judge, records[i], day) + [] == Seen(judge, records[i], day);
  }

  predicate Accepts(rows: seq<Observation>) {
    |rows| == 1 && rows[0].qualifying
  }

  /** Each date is reported by its observations alone. */
  ghost predicate Reported(report: Report, d: int, rows: seq<Observation>, now: real)
    requires 0 <= d < SLOTS
  {
    && (d in report.missing <==> rows == [])
    && (d in report.duplicates <==> |rows| > 1)
    && (d in report.failed <==> rows != [] && !Accepts(rows))
    && (d in report.overdue <==> rows == [] && now > SlotInstant(d) + 10800.0)
  }

  /** The decision that the report states about its own observations. */
  ghost predicate Summarised(report: Report, now: real) {
    && |report.observations| == SLOTS
    && (forall d :: 0 <= d < SLOTS ==> Reported(report, d, report.observations[d], now))
    && report.missing + report.duplicates + report.failed + report.overdue <= {0, 1, 2}
    && (report.eligible <==> forall d :: 0 <= d < SLOTS ==> Accepts(report.observations[d]))
    && (report.attention <==> report.overdue != {} || report.failed != {})
    && (report.finished <==> now >= SlotInstant(SLOTS - 1) + 86400.0 || report.missing == {})
  }

  /** The report covers all and only the observed records of each date, and summarises them. */
  ghost predicate Describes(report: Report, judge: Record -> Verdict, records: seq<Record>, now: real) {
    && Summarised(report, now)
    && forall d :: 0 <= d < SLOTS ==> report.observations[d] == OnDay(judge, records, d)
  }

  predicate IsMissing(rows: seq<Observation>) {
    rows == []
  }

  predicate IsDuplicate(rows: seq<Observation>) {
    |rows| > 1
  }

  predicate IsFailed(rows: seq<Observation>) {
    rows != [] && !Accepts(rows)
  }

  /** The dates whose observations satisfy the predicate. */
  function Dates(observations: seq<seq<Observation>>, p: seq<Observation> -> bool): (r: set<int>)
    requires |observations| == SLOTS
    ensures forall d :: d in r <==> 0 <= d < SLOTS && p(observations[d])
  {
    set d | 0 <= d < SLOTS && p(observations[d])
  }

  function Conclude(observations: seq<seq<Observation>>, now: real): Report
    requires |observations| == SLOTS
  {
    var missing := Dates(observations, IsMissing);
    var failed := Dates(observations, IsFailed);
    var overdue := set d | d in missing && 0 <= d < SLOTS && now > SlotInstant(d) + 10800.0;
    Report(observations, forall d :: 0 <= d < SLOTS ==> Accepts(observations[d]), missing,
           Dates(observations, IsDuplicate), overdue, failed,
           overdue != {} || failed != {}, now >= SlotInstant(SLOTS - 1) + 86400.0 || missing == {})
  }

  lemma ConcludeSummarises(observations: seq<seq<Observation>>, now: real)
    requires |observations| == SLOTS
    ensures Conclude(observations, now).observations == observations && Summarised(Conclude(observations, now), now)
  {
    var report := Conclude(observations, now);
    forall d | 0 <= d < SLOTS ensures Reported(report, d, report.observations[d], now) {
    }
  }

  /** `evaluate`: it refuses exactly when some record is refused, and otherwise describes each date by
    * all and only its observed records.
    */
  method Evaluate(calendar: Calendar, records: seq<Record>, now: real) returns (r: Result<Report, Refusal>)
    ensures r.Err? <==> exists k :: 0 <= k < |records| && Judge(calendar, now)(records[k]).Refused?
    ensures r.Ok? ==> Describes(r.value, Judge(calendar, now), records, now)
  {
    var judge := Judge(calendar, now);
    r := EvaluateWith(judge, records, now);
  }

  method EvaluateWith(judge: Record -> Verdict, records: seq<Record>, now: real) returns (r: Result<Report, Refusal>)
    requires forall k :: 0 <= k < |records| && judge(records[k]).Observed? ==> 0 <= judge(records[k]).day < SLOTS
    ensures r.Err? <==> exists k :: 0 <= k < |records| && judge(records[k]).Refused?
    ensures r.Ok? ==> Describes(r.value, judge, records, now)
  {
    var observations: seq<seq<Observation>> := [[], [], []];
    for i := 0 to |records|
      invariant |observations| == SLOTS
      invariant forall k :: 0 <= k < i ==> !judge(records[k]).Refused?
      invariant forall d :: 0 <= d < SLOTS ==> observations[d] == OnDay(judge, records[..i], d)
    {
      var verdict := judge(records[i]);
      forall d | 0 <= d < SLOTS
        ensures OnDay(judge, records[..i + 1], d) == OnDay(judge, records[..i], d) + Seen(judge, records[i], d)
      {
        OnDaySnoc(judge, records, i, d);
      }
      match verdict
      case Skipped =>
      case Refused(error) => return Err(error);
      case Observed(day, row) =>
        observations := observations[day := observations[day] + [row]];
    }
    assert records[..|records|] == records;
    ConcludeSummarises(observations, now);
    return Ok(Conclude(observations, now));
  }

  /** Every date is missing, failed or accepted, and only one of them. */
  lemma DatesArePartitioned(report: Report, now: real)
    requires Summarised(report, now)
    ensures report.missing !! report.failed && report.overdue <= report.missing && report.duplicates <= report.failed
    ensures forall d :: 0 <= d < SLOTS ==> (Accepts(report.observations[d]) <==> d !in report.missing + report.failed)
  {
    assert Reported(report, 0, report.observations[0], now);
    assert Reported(report, 1, report.observations[1], now);
    assert Reported(report, 2, report.observations[2], now);
  }

  /** Eligibility is acceptance everywhere, and then nothing asks for attention and the scope is
    * finished; once the last slot is a day old, the only alternative to eligibility is attention.
    */
  lemma EligibleOrAttention(report: Report, now: real)
    requires Summarised(report, now)
    ensures report.eligible <==> report.missing + report.failed == {}
    ensures report.eligible ==> !report.attention && report.finished
    ensures now >= SlotInstant(SLOTS - 1) + 86400.0 ==> (report.eligible <==> !report.attention)
  {
    DatesArePartitioned(report, now);
    if report.eligible {
      assert forall d :: d !in report.missing + report.failed;
      assert forall d :: d in report.missing ==> d in report.missing + report.failed;
      assert report.missing == {} && report.failed == {};
    }
    if report.missing + report.failed == {} {
      assert forall d :: 0 <= d < SLOTS ==> Accepts(report.observations[d]);
    }
    if now >= SlotInstant(SLOTS - 1) + 86400.0 {
      forall d | d in report.missing ensures d in report.overdue {
        assert Reported(report, d, report.observations[d], now);
      }
      assert report.overdue == report.missing;
    }
  }

  lemma {:induction false} OnDayMembers(judge: Record -> Verdict, records: seq<Record>, day: int)
    ensures forall o :: o in OnDay(judge, records, day) <==>
      exists k :: 0 <= k < |records| && judge(records[k]) == Observed(day, o)
  {
    if records != [] {
      OnDayMembers(judge, records[1..], day);
      forall o | o in OnDay(judge, records[1..], day)
        ensures exists k :: 0 <= k < |records| && judge(records[k]) == Observed(day, o)
      {
        var k :| 0 <= k < |records[1..]| && judge(records[1..][k]) == Observed(day, o);
        assert records[k + 1] == records[1..][k];
      }
      forall k | 1 <= k < |records| ensures records[k] == records[1..][k - 1] {
      }
    }
  }

  /** One record more or less on a date: the multiset of a date's observations adds up record by record. */
  lemma {:induction false} DayIsAMultiset(judge: Record -> Verdict, a: seq<Record>, b: seq<Record>, day: int)
    requires multiset(a) == multiset(b)
    ensures multiset(OnDay(judge, a, day)) == multiset(OnDay(judge, b, day))
    decreases |a|
  {
    if a == [] {
      assert |multiset(b)| == |b| == 0;
    } else {
      assert a[0] in multiset(b);
      var i :| 0 <= i < |b| && b[i] == a[0];
      var rest := b[..i] + b[i + 1..];
      assert b == b[..i] + [b[i]] + b[i + 1..];
      assert a == [a[0]] + a[1..];
      assert multiset(a[1..]) == multiset(a) - multiset{a[0]};
      assert multiset(rest) == multiset(b) - multiset{a[0]};
      DayIsAMultiset(judge, a[1..], rest, day);
      OnDayAppends(judge, b[..i], b[i + 1..], day);
      OnDayAppends(judge, b[..i] + [b[i]], b[i + 1..], day);
      OnDayAppends(judge, b[..i], [b[i]], day);
      OnDayAppends(judge, [a[0]], a[1..], day);
    }
  }

  lemma SameAcceptance(a: seq<Observation>, b: seq<Observation>)
    requires multiset(a) == multiset(b)
    ensures |a| == |b| && Accepts(a) == Accepts(b)
  {
    assert |multiset(a)| == |a| && |multiset(b)| == |b|;
    if |a| == 1 {
      assert a[0] in multiset(b);
    }
  }

  /** The decision does not depend on the order in which the receipts are listed. */
  lemma DecisionIgnoresOrder(judge: Record -> Verdict, a: seq<Record>, b: seq<Record>, now: real, x: Report, y: Report)
    requires multiset(a) == multiset(b)
    requires Describes(x, judge, a, now) && Describes(y, judge, b, now)
    ensures x.eligible == y.eligible && x.missing == y.missing && x.failed == y.failed && x.duplicates == y.duplicates
    ensures x.overdue == y.overdue && x.attention == y.attention && x.finished == y.finished
  {
    forall d | 0 <= d < SLOTS
      ensures |x.observations[d]| == |y.observations[d]| && Accepts(x.observations[d]) == Accepts(y.observations[d])
    {
      DayIsAMultiset(judge, a, b, d);
      SameAcceptance(OnDay(judge, a, d), OnDay(judge, b, d));
    }
    SameSummary(x, y, now);
  }

  lemma SameSummary(x: Report, y: Report, now: real)
    requires Summarised(x, now) && Summarised(y, now)
    requires forall d :: 0 <= d < SLOTS ==>
      |x.observations[d]| == |y.observations[d]| && Accepts(x.observations[d]) == Accepts(y.observations[d])
    ensures x.eligible == y.eligible && x.missing == y.missing && x.failed == y.failed && x.duplicates == y.duplicates
    ensures x.overdue == y.overdue && x.attention == y.attention && x.finished == y.finished
  {
    SameDay(x, y, now, 0);
    SameDay(x, y, now, 1);
    SameDay(x, y, now, 2);
  }

  lemma SameDay(x: Report, y: Report, now: real, d: int)
    requires Summarised(x, now) && Summarised(y, now) && 0 <= d < SLOTS
    requires |x.observations[d]| == |y.observations[d]| && Accepts(x.observations[d]) == Accepts(y.observations[d])
    ensures (d in x.missing <==> d in y.missing) && (d in x.failed <==> d in y.failed)
    ensures (d in x.duplicates <==> d in y.duplicates) && (d in x.overdue <==> d in y.overdue)
  {
    assert Reported(x, d, x.observations[d], now) && Reported(y, d, y.observations[d], now);
  }

  /** The receipt a run publishes, if it gets that far: a loser's is the bare failure report. */
  function Published(run: Run): Option<Receipt> {
    match run.phase
    case Lost(report) => Some(report)
    case Closed(receipt, _, _) => receipt
    case _ => None
  }

  /** The records list published receipts of the world's runs, at most one for each run. */
  ghost predicate Collected(w: World, records: seq<Record>) {
    && (forall k :: 0 <= k < |records| ==>
          records[k].run.id in w.runs && Published(w.runs[records[k].run.id]) == Some(records[k].receipt))
    && forall j, k :: 0 <= j < k < |records| ==> records[j].run.id != records[k].run.id
  }

  /** A receipt published by a run names that run's slot, and qualifies only when it held the claim. */
  lemma QualifyingHeldTheClaim(calendar: Calendar, w: World, opening: nat, record: Record, now: real)
    requires Lawful(w, opening) && record.run.id in w.runs
    requires Published(w.runs[record.run.id]) == Some(record.receipt)
    ensures Classify(calendar, record, now).Observed? ==>
      Classify(calendar, record, now).day == w.runs[record.run.id].day
    ensures EarnedBy(w, record.run.id, Judge(calendar, now)(record))
  {
    var run := w.runs[record.run.id];
    assert RunIsLawful(w.claims, record.run.id, run);
  }

  /** In every interleaving a date has at most one qualifying receipt, and an eligible closeout rests, for
    * each date, on the one run that held the slot's claim.
    */
  lemma EligibleMeansOneHolderPerSlot(calendar: Calendar, registry: Snapshots.Registry, opening: nat,
                                      events: seq<Event>, records: seq<Record>, now: real, report: Report)
    requires Collected(RunAll(Start(registry, opening), events), records)
    requires Describes(report, Judge(calendar, now), records, now)
    ensures OneQualifyingPerDay(Judge(calendar, now), records)
    ensures report.eligible ==> forall d :: 0 <= d < SLOTS ==>
      SettledBy(RunAll(Start(registry, opening), events), report, d)
  {
    var w := RunAll(Start(registry, opening), events);
    var judge := Judge(calendar, now);
    StartIsLawful(registry, opening);
    EveryInterleavingIsLawful(Start(registry, opening), events, opening);
    forall k | 0 <= k < |records| ensures EarnedBy(w, records[k].run.id, judge(records[k])) {
      QualifyingHeldTheClaim(calendar, w, opening, records[k], now);
    }
    if report.eligible {
      forall d | 0 <= d < SLOTS ensures SettledBy(w, report, d) {
        EligibleIsSettled(w, judge, records, now, report, d);
      }
    }
  }

  predicate Qualifies(verdict: Verdict) {
    verdict.Observed? && verdict.row.qualifying
  }

  ghost predicate OneQualifyingPerDay(judge: Record -> Verdict, records: seq<Record>) {
    forall j, k :: 0 <= j < k < |records| && Qualifies(judge(records[j])) && Qualifies(judge(records[k])) ==>
      judge(records[j]).day != judge(records[k]).day
  }

  /** A qualifying verdict is of the holder of its slot's claim, which left the registry's earlier rows
    * alone and stayed within the ceiling.
    */
  ghost predicate EarnedBy(w: World, id: RunId, verdict: Verdict) {
    Qualifies(verdict) ==>
      (&& verdict.day in w.claims && w.claims[verdict.day] == id == verdict.row.id && id in w.runs
       && w.runs[id].phase.Closed? && w.runs[id].put <= MAX_ARCHIVE_BYTES
       && Snapshots.Preserved(w.runs[id].phase.before, w.runs[id].phase.after))
  }

  lemma EligibleIsSettled(w: World, judge: Record -> Verdict, records: seq<Record>, now: real, report: Report, day: nat)
    requires Describes(report, judge, records, now) && report.eligible && day < SLOTS
    requires forall k :: 0 <= k < |records| ==> EarnedBy(w, records[k].run.id, judge(records[k]))
    ensures SettledBy(w, report, day)
  {
    var rows := OnDay(judge, records, day);
    assert Accepts(rows) && report.observations[day] == rows;
    OnDayMembers(judge, records, day);
    assert rows[0] in rows;
    var k :| 0 <= k < |records| && judge(records[k]) == Observed(day, rows[0]);
    assert EarnedBy(w, records[k].run.id, judge(records[k]));
  }

  /** The date's only observation is of the run that holds its claim, which compared an unchanged
    * registry and stored no more than the ceiling.
    */
  ghost predicate SettledBy(w: World, report: Report, day: int) {
    && |report.observations| == SLOTS && 0 <= day < SLOTS && |report.observations[day]| == 1
    && day in w.claims && w.claims[day] == report.observations[day][0].id && w.claims[day] in w.runs
    && var run := w.runs[w.claims[day]];
      run.phase.Closed? && Snapshots.Preserved(run.phase.before, run.phase.after) && run.put <= MAX_ARCHIVE_BYTES
  }

  /** Two receipts in evidence for one date make it a duplicate, whatever they say. */
  lemma TwoReceiptsBlockCloseout(judge: Record -> Verdict, records: seq<Record>, now: real, report: Report, j: nat,
                                 k: nat)
    requires j < k < |records| && Describes(report, judge, records, now)
    requires judge(records[j]).Observed? && judge(records[k]).Observed?
    requires 0 <= judge(records[j]).day == judge(records[k]).day < SLOTS
    ensures !report.eligible && judge(records[j]).day in report.duplicates
  {
    var day := judge(records[j]).day;
    var front, back := records[..k], records[k..];
    assert records == front + back && front == front[..j] + front[j..];
    OnDayAppends(judge, front, back, day);
    OnDayAppends(judge, front[..j], front[j..], day);
    assert |OnDay(judge, front[j..], day)| >= 1 && |OnDay(judge, back, day)| >= 1;
    assert !Accepts(OnDay(judge, records, day));
  }

  /** A run that lost its claim publishes a bare failure report. */
  lemma LostNeverQualifies(calendar: Calendar, w: World, opening: nat, record: Record, now: real)
    requires Lawful(w, opening) && record.run.id in w.runs && w.runs[record.run.id].phase.Lost?
    requires Published(w.runs[record.run.id]) == Some(record.receipt)
    ensures !Qualifies(Classify(calendar, record, now))
  {
    assert RunIsLawful(w.claims, record.run.id, w.runs[record.run.id]);
  }

  /** A second dispatch for a slot loses the claim and touches nothing; yet in every interleaving its
    * receipt, once it is observed, makes the closeout ineligible, alone or next to the holder's.
    */
  lemma LoserReceiptBlocksCloseout(calendar: Calendar, registry: Snapshots.Registry, opening: nat, events: seq<Event>,
                                   records: seq<Record>, now: real, report: Report, k: nat)
    requires var w := RunAll(Start(registry, opening), events);
      && k < |records| && records[k].run.id in w.runs && w.runs[records[k].run.id].phase.Lost?
      && Published(w.runs[records[k].run.id]) == Some(records[k].receipt)
    requires Describes(report, Judge(calendar, now), records, now) && Judge(calendar, now)(records[k]).Observed?
    ensures !report.eligible && Judge(calendar, now)(records[k]).day in report.failed
  {
    var w := RunAll(Start(registry, opening), events);
    StartIsLawful(registry, opening);
    EveryInterleavingIsLawful(Start(registry, opening), events, opening);
    LostNeverQualifies(calendar, w, opening, records[k], now);
    var verdict := Judge(calendar, now)(records[k]);
    OnDayMembers(Judge(calendar, now), records, verdict.day);
    assert verdict.row in OnDay(Judge(calendar, now), records, verdict.day);
    assert Reported(report, verdict.day, report.observations[verdict.day], now);
  }

  // ---- what an eligible report says ----

  /** The date's one observation recorded forecasts, at least ninety minutes early, with its evidence kept
    * by digest: what the closing text claims of it.
    */
  predicate Evident(calendar: Calendar, rows: seq<Observation>) {
    && |rows| == 1
    && rows[0].inserted.Some? && rows[0].inserted.value > 0
    && rows[0].margin.Some? && rows[0].margin.value >= 5400.0
    && rows[0].evidence.Some? && calendar.isDigest(rows[0].evidence.value)
  }

  /** Everything that the closing text of an eligible report prints is there and meets the criteria. */
  lemma EligibleIsEvident(calendar: Calendar, records: seq<Record>, now: real, report: Report)
    requires Describes(report, Judge(calendar, now), records, now) && report.eligible
    ensures forall d :: 0 <= d < SLOTS ==> Evident(calendar, report.observations[d])
  {
    forall d | 0 <= d < SLOTS ensures Evident(calendar, report.observations[d]) {
      var rows := OnDay(Judge(calendar, now), records, d);
      assert Accepts(rows) && report.observations[d] == rows && rows[0] in rows;
      OnDayMembers(Judge(calendar, now), records, d);
      var k :| 0 <= k < |records| && Judge(calendar, now)(records[k]) == Observed(d, rows[0]);
      QualifyingValues(calendar, records[k], now);
    }
  }

  lemma QualifyingValues(calendar: Calendar, record: Record, now: real)
    requires Qualifies(Classify(calendar, record, now))
    ensures Evident(calendar, [Classify(calendar, record, now).row])
  {
  }

  // ---- which receipts qualify ----

  /** The run service says that this is a first, successful dispatch of the program's own workflow on main. */
  predicate IsProper(run: RunFacts) {
    && run.dispatched && run.onMain && run.firstAttempt && run.ownRepository && run.ownWorkflow && run.succeeded
  }

  /** Forecasts were recorded, at least ninety minutes early, with every rule kept, every record unchanged, bounded
    * storage, and the evidence kept by digest; for the New York date of the slot.
    */
  ghost predicate ClaimsSuccess(calendar: Calendar, r: Receipt, d: nat)
    requires d < 3
  {
    && r.status == Recorded && r.originVerified && r.cutoffRuleUnchanged && r.coverageUnchanged
    && r.forecastsRecorded && r.marginProven && r.recordsUnchanged
    && (exists n :: r.inserted == Some(n) && n > 0) && (exists m :: r.margin == Some(m) && m >= 5400.0)
    && (exists b :: r.storage == Some(b) && 0 <= b <= 1_000_000_000)
    && (exists e :: r.evidence == Some(e) && calendar.isDigest(e))
    && r.cutoff == Some(calendar.date([0.0, 259200.0, 345600.0][d]))
  }

  /** Recorded in UTC between the dispatch and three hours after the slot, and not in the future; the margin is the
    * time left to a weekday's opening, to the second.
    */
  ghost predicate TimesAgree(calendar: Calendar, run: RunFacts, r: Receipt, d: nat, now: real)
    requires d < 3
  {
    exists recorded, opening, margin ::
      && r.recordedAt == Some(Stamp(recorded, true)) && r.opening == Some(Stamp(opening, true))
      && r.margin == Some(margin)
      && calendar.isOpening(opening) && run.created <= recorded <= now
      && recorded <= [0.0, 259200.0, 345600.0][d] + 10800.0
      && -1.0 <= (opening - recorded) - margin <= 1.0
  }

  /** Dispatched within ninety minutes of the slot, and not in the future. */
  ghost predicate InTime(run: RunFacts, d: nat, now: real)
    requires d < 3
  {
    [0.0, 259200.0, 345600.0][d] <= run.created <= [0.0, 259200.0, 345600.0][d] + 5400.0 && run.created <= now
  }

  /** A receipt qualifies for a date if and only if it is in scope and names that date's slot, its run is proper and
    * in time, it claims success, its times agree, and it can be encoded.
    */
  lemma QualifyingMeaning(calendar: Calendar, record: Record, now: real, d: nat)
    requires d < 3
    ensures var verdict := Classify(calendar, record, now);
      (Qualifies(verdict) && verdict.day == d) <==>
        (&& record.receipt.inScope && record.receipt.scheduled == Some(Stamp([0.0, 259200.0, 345600.0][d], true))
         && IsProper(record.run) && InTime(record.run, d, now) && ClaimsSuccess(calendar, record.receipt, d)
         && TimesAgree(calendar, record.run, record.receipt, d, now) && record.encoded.Some?)
  {
    var r, slot := record.receipt, SlotInstant(d);
    assert slot == [0.0, 259200.0, 345600.0][d];
    SuccessMeaning(calendar, record.run, r, d);
    TimesMeaning(calendar, record.run, r, d, now);
    assert SlotOf(r.scheduled) == Some(d) <==> r.scheduled == Some(Stamp(slot, true));
  }

  /** What becomes of any receipt. One of another scope is passed over; one in scope is refused for the first of
    * these that fails: a known slot, its run's provenance, a dispatch in time, times that agree with a claimed
    * success, an encoding. All others are observed on their slot's date, with the values copied from them.
    */
  lemma VerdictMeaning(calendar: Calendar, record: Record, now: real)
    ensures var verdict, r, run := Classify(calendar, record, now), record.receipt, record.run;
      && (verdict.Skipped? <==> !r.inScope)
      && (verdict == Refused(SlotRefused) <==>
            r.inScope && forall d :: 0 <= d < 3 ==> r.scheduled != Some(Stamp([0.0, 259200.0, 345600.0][d], true)))
      && forall d :: 0 <= d < 3 && r.inScope && r.scheduled == Some(Stamp([0.0, 259200.0, 345600.0][d], true)) ==>
           DayVerdict(calendar, record, now, d, verdict)
  {
    assert SlotInstant(0) == 0.0 && SlotInstant(1) == 259200.0 && SlotInstant(2) == 345600.0;
    assert [0.0, 259200.0, 345600.0][0] == 0.0 && [0.0, 259200.0, 345600.0][1] == 259200.0;
    assert [0.0, 259200.0, 345600.0][2] == 345600.0;
    forall d | 0 <= d < 3 && record.receipt.inScope
               && record.receipt.scheduled == Some(Stamp([0.0, 259200.0, 345600.0][d], true))
      ensures DayVerdict(calendar, record, now, d, Classify(calendar, record, now))
    {
      DayMeaning(calendar, record, now, d);
    }
  }

  ghost predicate DayVerdict(calendar: Calendar, record: Record, now: real, d: nat, verdict: Verdict)
    requires d < 3
  {
    var r, run := record.receipt, record.run;
    var known := run.dispatched && run.onMain && run.firstAttempt && run.ownRepository && run.ownWorkflow;
    var claims := run.succeeded && ClaimsSuccess(calendar, r, d);
    var agree := TimesAgree(calendar, run, r, d, now);
    if !known then verdict == Refused(ProvenanceRefused)
    else if !InTime(run, d, now) then verdict == Refused(DispatchTimeRefused)
    else if claims && !agree then verdict == Refused(MarginRefused)
    else if record.encoded.None? then verdict == Refused(EncodingRefused)
    else
      verdict == Observed(d, Observation(run.id, run.commit, claims, r.margin, r.inserted,
                                         if claims then r.evidence else None, Digest(record.encoded.value)))
  }

  lemma DayMeaning(calendar: Calendar, record: Record, now: real, d: nat)
    requires d < 3 && record.receipt.inScope
    requires record.receipt.scheduled == Some(Stamp([0.0, 259200.0, 345600.0][d], true))
    ensures DayVerdict(calendar, record, now, d, Classify(calendar, record, now))
  {
    assert SlotInstant(d) == [0.0, 259200.0, 345600.0][d];
    SuccessMeaning(calendar, record.run, record.receipt, d);
    TimesMeaning(calendar, record.run, record.receipt, d, now);
    assert SlotOf(record.receipt.scheduled) == Some(d);
  }

  lemma SuccessMeaning(calendar: Calendar, run: RunFacts, r: Receipt, d: nat)
    requires d < 3
    ensures Positive(calendar, run, r, SlotInstant(d)) <==> run.succeeded && ClaimsSuccess(calendar, r, d)
  {
    assert SlotInstant(d) == [0.0, 259200.0, 345600.0][d];
  }

  lemma TimesMeaning(calendar: Calendar, run: RunFacts, r: Receipt, d: nat, now: real)
    requires d < 3
    ensures Consistent(calendar, run, r, SlotInstant(d), now) <==> TimesAgree(calendar, run, r, d, now)
  {
    assert SlotInstant(d) == [0.0, 259200.0, 345600.0][d];
    if Consistent(calendar, run, r, SlotInstant(d), now) {
      var recorded, opening := r.recordedAt.value.instant, r.opening.value.instant;
      assert r.recordedAt == Some(Stamp(recorded, true)) && r.opening == Some(Stamp(opening, true));
      assert -1.0 <= (opening - recorded) - r.margin.value <= 1.0;
    }
  }

  // ---- a holder's receipt ----

  /** The events by which a run that has looked at the registry ends: its outcome, and its evidence stored. */
  function Ending(id: RunId, outcome: Outcome, size: nat, kept: nat, digest: string): seq<Event> {
    [Finish(id, outcome), Archive(id, size, kept, true, digest)]
  }

  /** What the holder of a slot publishes: success exactly when it recorded forecasts, and, when no earlier record
    * has changed, the figures of its outcome; else a bare failure. Its storage bound covers all that it reserved.
    */
  ghost predicate Publishes(w: World, run: Run, outcome: Outcome, size: nat, digest: string, r: Receipt)
    requires run.day < 3 && run.phase.Working? && run.phase.seen.Some?
  {
    var intact := Snapshots.Preserved(run.phase.seen.value, w.registry);
    && r.inScope && r.scheduled == Some(Stamp([0.0, 259200.0, 345600.0][run.day], true))
    && r.originVerified && r.cutoffRuleUnchanged && r.coverageUnchanged
    && (r.recordsUnchanged <==> intact)
    && (r.status == Recorded <==> intact && outcome.inserted > 0)
    && (r.status == Failed <==> !intact)
    && (r.forecastsRecorded <==> intact && outcome.inserted > 0)
    && (r.marginProven <==> intact && outcome.inserted > 0 && outcome.passed)
    && r.inserted == (if intact then Some(outcome.inserted as int) else None)
    && r.margin == (if intact then Some(outcome.margin) else None)
    && r.cutoff == (if intact then Some(outcome.cutoff) else None)
    && r.recordedAt == (if intact then Some(outcome.recordedAt) else None)
    && r.opening == (if intact then Some(outcome.opening) else None)
    && r.evidence == Some(digest) && r.storage == Some(run.reserved + size + 1024)
  }

  /** From any state, the holder's ending publishes such a receipt exactly when its evidence fits the budget. */
  lemma HolderPublishes(w: World, id: RunId, outcome: Outcome, size: nat, kept: nat, digest: string)
    requires id in w.runs && w.runs[id].day < 3 && w.runs[id].phase.Working? && w.runs[id].phase.seen.Some?
    requires kept <= size
    ensures var end := RunAll(w, Ending(id, outcome, size, kept, digest));
      && id in end.runs
      && (Published(end.runs[id]).Some? <==> w.runs[id].reserved + size + 1024 <= 1_000_000_000)
      && (Published(end.runs[id]).Some? ==>
            Publishes(w, w.runs[id], outcome, size, digest, Published(end.runs[id]).value))
  {
    var first, last := Finish(id, outcome), Archive(id, size, kept, true, digest);
    var events := Ending(id, outcome, size, kept, digest);
    assert events[1..] == [last] && [last][1..] == [];
    assert RunAll(w, events) == RunAll(Step(w, first), [last]) == Step(Step(w, first), last);
  }

  /** A sound holder does qualify: one that recorded forecasts in time over an unchanged registry, whose run is
    * proper and in time and whose evidence fits the budget, publishes a receipt that qualifies for its date.
    */
  lemma SoundHolderQualifies(calendar: Calendar, w: World, id: RunId, outcome: Outcome, size: nat, kept: nat,
                             digest: string, run: RunFacts, encoded: Bytes, now: real)
    requires id in w.runs && w.runs[id].day < 3 && w.runs[id].phase.Working? && w.runs[id].phase.seen.Some?
    requires kept <= size && w.runs[id].reserved + size + 1024 <= 1_000_000_000
    requires Snapshots.Preserved(w.runs[id].phase.seen.value, w.registry) && calendar.isDigest(digest)
    requires outcome.inserted > 0 && outcome.passed && outcome.margin >= 5400.0
    requires outcome.cutoff == calendar.date([0.0, 259200.0, 345600.0][w.runs[id].day])
    requires outcome.recordedAt.utc && outcome.opening.utc && calendar.isOpening(outcome.opening.instant)
    requires run.created <= outcome.recordedAt.instant <= now
    requires outcome.recordedAt.instant <= [0.0, 259200.0, 345600.0][w.runs[id].day] + 10800.0
    requires -1.0 <= (outcome.opening.instant - outcome.recordedAt.instant) - outcome.margin <= 1.0
    requires IsProper(run) && InTime(run, w.runs[id].day, now)
    ensures var end := RunAll(w, Ending(id, outcome, size, kept, digest));
      && id in end.runs && Published(end.runs[id]).Some?
      && var verdict := Classify(calendar, Record(run, Published(end.runs[id]).value, Some(encoded)), now);
         Qualifies(verdict) && verdict.day == w.runs[id].day
  {
    HolderPublishes(w, id, outcome, size, kept, digest);
    var d := w.runs[id].day;
    var r := Published(RunAll(w, Ending(id, outcome, size, kept, digest)).runs[id]).value;
    assert r.recordedAt == Some(Stamp(outcome.recordedAt.instant, true));
    assert r.opening == Some(Stamp(outcome.opening.instant, true));
    assert ClaimsSuccess(calendar, r, d) && TimesAgree(calendar, run, r, d, now);
    QualifyingMeaning(calendar, Record(run, r, Some(encoded)), now, d);
  }
}
