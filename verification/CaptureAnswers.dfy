/** When the capture command starts, when it ends in a result, and what that result holds. */
module CaptureAnswers {
  import opened Common
  import opened SourceTypes
  import opened CacheMachine
  import opened Collector
  import opened Capture
  import opened ReplayVerdicts

  /** The binding of a call: the first members of the roster, as many as asked for and as there are. */
  ghost predicate BindsFirst(job: Job, limit: nat, b: Binding) {
    && b.roster == job.roster && b.cutoff == job.lib.cutoff && b.sourceCount == |job.ordered|
    && b.members <= job.ordered
    && |b.members| <= limit && (|b.members| < limit ==> b.members == job.ordered)
  }

  /** A call starts within its bounds, in a new directory or beside its own binding, and with a contact if live. */
  ghost predicate MayStart(job: Job, s: Setup, place: Option<Directory>, call: Call, b: Binding) {
    && 1 <= call.limit <= 503 && 1 <= s.maxRequests <= 2000
    && (if call.resume then place.Some? && Holds(place.value, BindingFile, job.bindingBytes(b), 1024 * 1024)
        else place.None?)
    && (s.server.Some? ==> call.identified)
  }

  /** The directory that the member loop starts from: a resumed one as it is, a new one with its binding alone. */
  function Opened(job: Job, place: Option<Directory>, b: Binding): Directory {
    if place.Some? then place.value else map[BindingFile := job.bindingBytes(b)]
  }

  lemma PlannedBindsFirst(job: Job, limit: nat)
    ensures BindsFirst(job, limit, Planned(job, limit))
  {
  }

  /** A call starts exactly when it may, with an unused cache over its directory; otherwise nothing was requested,
    * and nothing but the binding was written.
    */
  lemma StartMeaning(job: Job, s: Setup, place: Option<Directory>, call: Call)
    ensures var b := Planned(job, call.limit); var (c, begun) := Begin(job, s, place, call);
      && BindsFirst(job, call.limit, b)
      && (begun.Ok? <==> MayStart(job, s, place, call, b))
      && (begun.Ok? ==> begun.value == b && c.dir == Opened(job, place, b))
      && c.requests == 0 && c.bytes == 0 && c.failures == 0 && c.used == map[] && c.deferred == map[] && c.log == []
      && (begun.Err? ==> c.dir == FilesOf(place) || (place.None? && c.dir == Opened(job, place, b)))
  {
    PlannedBindsFirst(job, call.limit);
  }

  /** Why a call does not start: the first of these that applies, in this order. */
  lemma StartRefusals(job: Job, s: Setup, place: Option<Directory>, call: Call)
    ensures var begun := Begin(job, s, place, call).1; var b := Planned(job, call.limit);
      var inBounds := 1 <= call.limit <= 503 && 1 <= s.maxRequests <= 2000;
      var opens := if call.resume then place.Some? && Holds(place.value, BindingFile, job.bindingBytes(b), 1024 * 1024)
                   else place.None?;
      && (!inBounds ==> begun == Err(Refused("invalid_collection_bounds")))
      && (inBounds && !call.resume && place.Some? ==> begun == Err(Refused("capture output already exists")))
      && (inBounds && call.resume && (place.None? || BindingFile !in place.value) ==> begun == Err(FileMissing))
      && (inBounds && call.resume && place.Some? && BindingFile in place.value
            && 0 < |place.value[BindingFile]| <= 1024 * 1024 && !opens ==>
          begun == Err(Identity(OtherCode("capture_binding_mismatch"))))
      && (inBounds && opens && s.server.Some? && !call.identified ==>
          begun == Err(Refused("identified_SEC_contact_required")))
  {
  }

  /** What a capture holds when its member loop has ended in these rows. */
  ghost predicate Concludes(job: Job, b: Binding, c: Cache, rows: seq<MemberResult>, v: RunResult) {
    && v.binding == b && v.results == rows && v.liveSources == c.used && v.unavailable == c.deferred
    && Reports(job, v.report, rows) && ResultFile(job.resultBytes(v)) !in c.dir
  }

  lemma ConcludeMeaning(job: Job, b: Binding, c: Cache, rows: seq<MemberResult>, codeUnchanged: bool, v: RunResult)
    ensures Conclude(job, b, c, rows, codeUnchanged).1 == Ok(v) <==> codeUnchanged && Concludes(job, b, c, rows, v)
    ensures var (end, concluded) := Conclude(job, b, c, rows, codeUnchanged);
      match concluded
      case Ok(result) => end.dir == c.dir[ResultFile(job.resultBytes(result)) := job.resultBytes(result)]
      case Err(_) => end.dir == c.dir
    ensures !codeUnchanged ==>
      Conclude(job, b, c, rows, codeUnchanged)
        == (c, Err(Raised(Identity(OtherCode("algorithms_changed_during_capture")))))
  {
    ReportMeaning(job, v.report, rows);
    ReportMeaning(job, ReportOf(job, rows), rows);
    if Concludes(job, b, c, rows, v) {
      SameReport(job, v.report, ReportOf(job, rows), rows);
    }
  }

  lemma SameReport(job: Job, a: Report, b: Report, rows: seq<MemberResult>)
    requires Reports(job, a, rows) && Reports(job, b, rows)
    ensures a == b
  {
    TalliesAreUnique(a.statuses, b.statuses, StatusesOf(rows));
  }

  /** A capture ends in a result exactly when it may start, its member loop ends in rows, the program's files are
    * unchanged and the result's own file is new; the result then holds the binding, those rows, the sources and
    * failures of the loop and their counts, and is the last file written.
    */
  lemma CaptureMeaning(job: Job, s: Setup, place: Option<Directory>, call: Call, v: RunResult)
    ensures var b := Planned(job, call.limit); var (end, captured) := CaptureRun(job, s, place, call);
      var (c1, rows) := CaptureMembers(job, s, b, Begin(job, s, place, call).0, b.members, []);
      && (captured == Ok(v) <==>
            MayStart(job, s, place, call, b) && rows.Ok? && call.codeUnchanged && Concludes(job, b, c1, rows.value, v))
      && (captured == Ok(v) ==> end.dir == c1.dir[ResultFile(job.resultBytes(v)) := job.resultBytes(v)])
  {
    StartMeaning(job, s, place, call);
    var b := Planned(job, call.limit);
    var (c1, rows) := CaptureMembers(job, s, b, Begin(job, s, place, call).0, b.members, []);
    if rows.Ok? {
      ConcludeMeaning(job, b, c1, rows.value, call.codeUnchanged, v);
    }
  }

  /** Why a readable, bound result is refused after its members were recomputed: its rows, then its sources and
    * failures, then its report.
    */
  lemma ReplayRefusals(job: Job, dir: Directory, name: Bytes, v: RunResult)
    requires Holds(dir, ResultFile(name), name, MAX_RESULT_BYTES) && job.resultOf(name) == Some(v)
    requires BoundToRoster(job, v) && Holds(dir, BindingFile, job.bindingBytes(v.binding), MAX_BINDING_BYTES)
    ensures var (r, rows) := ReplayMembers(job, v.unavailable, Fresh(dir), v.binding.members, []);
      var verdict := ReplayRun(job, dir, name);
      var sameSources := r.used == v.liveSources && r.deferred == v.unavailable;
      && (rows.Err? ==> verdict == rows)
      && (rows.Ok? && rows.value != v.results ==>
            verdict == Err(Raised(Identity(OtherCode("identity_result_replay_mismatch")))))
      && (rows == Ok(v.results) && !sameSources ==>
            verdict == Err(Raised(Identity(OtherCode("result_source_receipt_set_mismatch")))))
      && (rows == Ok(v.results) && sameSources && !Reports(job, v.report, v.results) ==>
            verdict == Err(Raised(Identity(OtherCode("invalid_identity_result_report")))))
  {
    ReopensExactly(job, dir, name, v);
    ReportMeaning(job, v.report, v.results);
  }
}
