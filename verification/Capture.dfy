/** The capture command, its offline replay, and the theorem that ties them together. */
module Capture {
  import opened Common
  import opened SourceTypes
  import opened CacheMachine
  import opened CacheSafety
  import opened ReplaySimulation
  import opened Collector

  datatype Binding = Binding(roster: string, cutoff: int, members: seq<Member>, sourceCount: nat)

  datatype Report = Report(roster: string, sourceCount: nat, processed: nat, statuses: map<Status, nat>,
                           issueComplete: bool, continuityVerified: bool, datasetBound: bool, assetDirectoryUsed: bool)

  datatype RunResult = RunResult(binding: Binding, results: seq<MemberResult>, liveSources: map<Url, Meta>,
                                 unavailable: map<Url, Receipt>, report: Report)

  /** What an invocation is bound to, and the canonical encodings of its own files. */
  datatype Job = Job(lib: Library, roster: string, ordered: seq<Member>,
                     bindingBytes: Binding -> Bytes,
                     memberBytes: (Binding, MemberResult) -> Bytes,
                     resultBytes: RunResult -> Bytes,
                     resultOf: Bytes -> Option<RunResult>)

  ghost predicate FaithfulJob(job: Job) {
    && Faithful(job.lib.codec)
    && (forall r :: job.resultOf(job.resultBytes(r)) == Some(r))
    && (forall r :: job.resultBytes(r) != [])
    && (forall b :: job.bindingBytes(b) != [])
  }

  const MAX_MEMBERS: nat := 503
  const MAX_BINDING_BYTES: nat := 1024 * 1024
  const MAX_RESULT_BYTES: nat := 32 * 1024 * 1024

  function Bind(job: Job, count: nat): Binding
    requires count <= |job.ordered|
  {
    Binding(job.roster, job.lib.cutoff, job.ordered[..count], |job.ordered|)
  }

  function CountStatuses(results: seq<MemberResult>): map<Status, nat> {
    if results == [] then map[]
    else
      var before := CountStatuses(results[..|results| - 1]);
      var status := results[|results| - 1].status;
      before[status := (if status in before then before[status] else 0) + 1]
  }

  function ReportOf(job: Job, results: seq<MemberResult>): Report {
    Report(job.roster, |job.ordered|, |results|, CountStatuses(results), false, false, false, false)
  }

  /** The refusals that leave a member unresolved instead of ending the command. */
  function Settle(m: Member, r: Result<MemberResult, Outcome>): Result<MemberResult, Outcome> {
    match r
    case Ok(result) => Ok(result)
    case Err(o) =>
      if o.Raised? && Recoverable(o) then
        Ok(MemberResult(m.key, if SizeError(o.error) then SizeUnresolved else Unavailable, "", map[o.error.code := 1]))
      else Err(o)
  }

  /** The receipt of a finished member; an identical one from an earlier run is accepted. */
  function SaveMember(job: Job, binding: Binding, c: Cache, result: MemberResult): Result<Cache, Error> {
    var receipt := job.memberBytes(binding, result);
    if MemberFile(receipt) !in c.dir then Ok(Save(c, MemberFile(receipt), receipt))
    else
      match ReadFile(c.dir, MemberFile(receipt), MAX_BINDING_BYTES)
      case Err(e) => Err(e)
      case Ok(content) => if content == receipt then Ok(c) else Err(Identity(OtherCode("member_receipt_changed")))
  }

  /** One member: collect, settle, save the receipt, then look at the circuit breaker. */
  ghost function MemberStep(job: Job, s: Setup, binding: Binding, c: Cache, m: Member)
      : (Cache, Result<MemberResult, Outcome>)
  {
    var (c1, collected) := Run(job.lib.codec, s, c, CollectClient(job.lib, m));
    match Settle(m, collected)
    case Err(o) => (c1, Err(o))
    case Ok(result) =>
      match SaveMember(job, binding, c1, result)
      case Err(e) => (c1, Err(Raised(e)))
      case Ok(c2) => if c2.failures >= 3 then (c2, Err(Raised(Identity(CircuitOpen)))) else (c2, Ok(result))
  }

  ghost function CaptureMembers(job: Job, s: Setup, binding: Binding, c: Cache,
                                members: seq<Member>, done: seq<MemberResult>)
      : (Cache, Result<seq<MemberResult>, Outcome>)
    decreases |members|
  {
    if members == [] then (c, Ok(done))
    else
      var (c1, taken) := MemberStep(job, s, binding, c, members[0]);
      match taken
      case Err(o) => (c1, Err(o))
      case Ok(result) => CaptureMembers(job, s, binding, c1, members[1..], done + [result])
  }

  /** How the command is called: its flags, whether the settings name a contact, and whether the
    * program's own files still have their digests when the member loop has ended.
    */
  datatype Call = Call(resume: bool, limit: nat, identified: bool, codeUnchanged: bool)

  predicate InBounds(s: Setup, call: Call) {
    1 <= call.limit <= MAX_MEMBERS && 1 <= s.maxRequests <= 2000
  }

  function Planned(job: Job, limit: nat): Binding {
    Bind(job, if limit <= |job.ordered| then limit else |job.ordered|)
  }

  /** The output directory may not exist yet; then there are no files in it. */
  function FilesOf(place: Option<Directory>): Directory {
    if place.Some? then place.value else map[]
  }

  /** A new capture creates its directory, which must not exist, and writes its binding; a resumed
    * one must find the same binding.
    */
  function Open(job: Job, binding: Binding, place: Option<Directory>, resume: bool): Result<Cache, Error> {
    if !resume then
      if place.Some? then Err(Refused("capture output already exists"))
      else Ok(Save(Fresh(map[]), BindingFile, job.bindingBytes(binding)))
    else if place.None? then Err(FileMissing)
    else
      match ReadFile(place.value, BindingFile, MAX_BINDING_BYTES)
      case Err(e) => Err(e)
      case Ok(content) =>
        if content != job.bindingBytes(binding) then Err(Identity(OtherCode("capture_binding_mismatch")))
        else Ok(Fresh(place.value))
  }

  /** `main` up to the member loop; with --live a contact is looked for once the directory is open. */
  function Begin(job: Job, s: Setup, place: Option<Directory>, call: Call): (Cache, Result<Binding, Error>) {
    if !InBounds(s, call) then (Fresh(FilesOf(place)), Err(Refused("invalid_collection_bounds")))
    else
      var binding := Planned(job, call.limit);
      match Open(job, binding, place, call.resume)
      case Err(e) => (Fresh(FilesOf(place)), Err(e))
      case Ok(c) =>
        (c, if s.server.Some? && !call.identified then Err(Refused("identified_SEC_contact_required")) else Ok(binding))
  }

  /** `main` after the member loop. */
  function Conclude(job: Job, binding: Binding, c: Cache, results: seq<MemberResult>, codeUnchanged: bool)
      : (Cache, Result<RunResult, Outcome>)
  {
    if !codeUnchanged then (c, Err(Raised(Identity(OtherCode("algorithms_changed_during_capture")))))
    else
      var result := RunResult(binding, results, c.used, c.deferred, ReportOf(job, results));
      var encoded := job.resultBytes(result);
      if ResultFile(encoded) in c.dir then (c, Err(Raised(FileExists)))
      else (Save(c, ResultFile(encoded), encoded), Ok(result))
  }

  /** `main`: `s.server` is None without --live. */
  ghost function CaptureRun(job: Job, s: Setup, place: Option<Directory>, call: Call)
      : (Cache, Result<RunResult, Outcome>)
  {
    var (c, begun) := Begin(job, s, place, call);
    match begun
    case Err(e) => (c, Err(Raised(e)))
    case Ok(binding) =>
      var (c1, collected) := CaptureMembers(job, s, binding, c, binding.members, []);
      match collected
      case Err(o) => (c1, Err(o))
      case Ok(results) => Conclude(job, binding, c1, results, call.codeUnchanged)
  }

  /** The output directory afterwards: only a new capture within the bounds creates it. */
  function Remains(s: Setup, place: Option<Directory>, call: Call, files: Directory): Option<Directory> {
    if place.None? && (call.resume || !InBounds(s, call)) then None else Some(files)
  }

  ghost function ReplayMember(job: Job, recorded: map<Url, Receipt>, r: Cache, m: Member)
      : (Cache, Result<MemberResult, Outcome>)
  {
    var (r1, collected) := Run(job.lib.codec, Replaying(recorded), r, CollectClient(job.lib, m));
    (r1, Settle(m, collected))
  }

  ghost function ReplayMembers(job: Job, recorded: map<Url, Receipt>, r: Cache,
                               members: seq<Member>, done: seq<MemberResult>)
      : (Cache, Result<seq<MemberResult>, Outcome>)
    decreases |members|
  {
    if members == [] then (r, Ok(done))
    else
      var (r1, taken) := ReplayMember(job, recorded, r, members[0]);
      match taken
      case Err(o) => (r1, Err(o))
      case Ok(result) => ReplayMembers(job, recorded, r1, members[1..], done + [result])
  }

  predicate SoundReport(job: Job, report: Report, results: seq<MemberResult>) {
    && !report.issueComplete && !report.continuityVerified && !report.datasetBound && !report.assetDirectoryUsed
    && report.roster == job.roster && report.statuses == CountStatuses(results)
    && report.processed == |results| && report.sourceCount == |job.ordered|
  }

  /** The first half of `replay`: the named result, and the binding it must share with the directory. */
  function Reopen(job: Job, dir: Directory, name: Bytes): Result<RunResult, Error> {
    match ReadFile(dir, ResultFile(name), MAX_RESULT_BYTES)
    case Err(e) => Err(e)
    case Ok(raw) =>
      if raw != name then Err(Identity(OtherCode("result_digest_mismatch")))
      else match job.resultOf(raw)
        case None => Err(Malformed)
        case Some(value) =>
          if !(1 <= |value.results| <= |job.ordered|) then Err(Identity(OtherCode("invalid_result_count")))
          else
            var expected := Bind(job, |value.results|);
            if value.binding != expected then Err(Identity(OtherCode("result_source_binding_mismatch")))
            else
              match ReadFile(dir, BindingFile, MAX_BINDING_BYTES)
              case Err(e) => Err(e)
              case Ok(bound) =>
                if bound != job.bindingBytes(expected) then
                  Err(Identity(OtherCode("result_source_binding_mismatch")))
                else Ok(value)
  }

  /** The second half: what the recomputed rows and sources are compared with. */
  function Compared(job: Job, value: RunResult, r: Cache, results: seq<MemberResult>)
      : Result<seq<MemberResult>, Error>
  {
    if results != value.results then Err(Identity(OtherCode("identity_result_replay_mismatch")))
    else if r.used != value.liveSources || r.deferred != value.unavailable then
      Err(Identity(OtherCode("result_source_receipt_set_mismatch")))
    else if !SoundReport(job, value.report, results) then Err(Identity(OtherCode("invalid_identity_result_report")))
    else Ok(results)
  }

  /** `replay`: reads the named result back, recomputes every member offline and compares. */
  ghost function ReplayRun(job: Job, dir: Directory, name: Bytes): Result<seq<MemberResult>, Outcome> {
    match Reopen(job, dir, name)
    case Err(e) => Err(Raised(e))
    case Ok(value) =>
      var (r, recomputed) := ReplayMembers(job, value.unavailable, Fresh(dir), value.binding.members, []);
      match recomputed
      case Err(o) => Err(o)
      case Ok(results) =>
        match Compared(job, value, r, results)
        case Err(e) => Err(Raised(e))
        case Ok(rows) => Ok(rows)
  }

  // ---- the capture keeps the cache invariants ----

  lemma SaveKeeps(s: Setup, c: Cache, name: FileName, content: Bytes)
    requires Safe(s, c) && name !in c.dir && !name.MetaFile? && !name.BodyFile?
    ensures Safe(s, Save(c, name, content)) && Extends(c, Save(c, name, content))
  {
    var c' := Save(c, name, content);
    forall i | 0 <= i < |c.log| && Settles(c.log[i].fate) ensures Settled(c', c.log[i].url) {
      assert Settled(c, c.log[i].url);
    }
  }

  lemma SaveMemberKeeps(job: Job, s: Setup, binding: Binding, c: Cache, result: MemberResult)
    requires Safe(s, c) && SaveMember(job, binding, c, result).Ok?
    ensures var c' := SaveMember(job, binding, c, result).value;
      Safe(s, c') && Extends(c, c') && c'.used == c.used && c'.deferred == c.deferred
  {
    var receipt := job.memberBytes(binding, result);
    if MemberFile(receipt) !in c.dir {
      SaveKeeps(s, c, MemberFile(receipt), receipt);
    }
  }

  lemma MemberStepIsSafe(job: Job, s: Setup, binding: Binding, c: Cache, m: Member)
    requires s.recorded.None? && Safe(s, c)
    ensures var c' := MemberStep(job, s, binding, c, m).0; Safe(s, c') && Extends(c, c')
  {
    var client := CollectClient(job.lib, m);
    var (c1, collected) := Run(job.lib.codec, s, c, client);
    RunIsSafe(job.lib.codec, s, c, client);
    var settled := Settle(m, collected);
    if settled.Ok? && SaveMember(job, binding, c1, settled.value).Ok? {
      SaveMemberKeeps(job, s, binding, c1, settled.value);
      ExtendsTransitive(c, c1, SaveMember(job, binding, c1, settled.value).value);
    }
  }

  lemma {:induction false} CaptureIsSafe(job: Job, s: Setup, binding: Binding, c: Cache,
                                         members: seq<Member>, done: seq<MemberResult>)
    requires s.recorded.None? && Safe(s, c)
    ensures var c' := CaptureMembers(job, s, binding, c, members, done).0;
      Safe(s, c') && Extends(c, c')
    decreases |members|
  {
    if members != [] {
      MemberStepIsSafe(job, s, binding, c, members[0]);
      var (c1, taken) := MemberStep(job, s, binding, c, members[0]);
      if taken.Ok? {
        CaptureIsSafe(job, s, binding, c1, members[1..], done + [taken.value]);
        ExtendsTransitive(c, c1, CaptureMembers(job, s, binding, c, members, done).0);
      }
    }
  }

  // ---- replay ----

  /** A member that the capture finished is recomputed by one member of the replay. */
  lemma MemberStepSimulates(job: Job, s: Setup, binding: Binding, recorded: map<Url, Receipt>, c: Cache, r: Cache,
                            m: Member)
    requires Faithful(job.lib.codec) && s.recorded.None? && Safe(s, c) && InStep(c, r)
    requires MemberStep(job, s, binding, c, m).1.Ok?
    requires Retained(job.lib.codec, MemberStep(job, s, binding, c, m).0, r.dir, recorded)
    ensures var (c', result) := MemberStep(job, s, binding, c, m);
      var (r', replayed) := ReplayMember(job, recorded, r, m);
      replayed == result && InStep(c', r') && r'.dir == r.dir
  {
    var w, client := job.lib.codec, CollectClient(job.lib, m);
    var (c1, collected) := Run(w, s, c, client);
    RunIsSafe(w, s, c, client);
    SaveMemberKeeps(job, s, binding, c1, Settle(m, collected).value);
    RetainedBefore(w, c1, MemberStep(job, s, binding, c, m).0, r.dir, recorded);
    CollectIsPrudent(job.lib, m);
    RunSimulates(w, s, recorded, c, r, client);
  }

  lemma {:induction false} MembersSimulate(job: Job, s: Setup, binding: Binding, recorded: map<Url, Receipt>,
                                           c: Cache, r: Cache, members: seq<Member>, done: seq<MemberResult>)
    requires Faithful(job.lib.codec) && s.recorded.None? && Safe(s, c) && InStep(c, r)
    requires var (c', results) := CaptureMembers(job, s, binding, c, members, done);
      results.Ok? && Retained(job.lib.codec, c', r.dir, recorded)
    ensures var (c', results) := CaptureMembers(job, s, binding, c, members, done);
      var (r', replayed) := ReplayMembers(job, recorded, r, members, done);
      replayed == results && InStep(c', r')
    decreases |members|
  {
    if members != [] {
      var (c1, taken) := MemberStep(job, s, binding, c, members[0]);
      MemberStepIsSafe(job, s, binding, c, members[0]);
      CaptureIsSafe(job, s, binding, c1, members[1..], done + [taken.value]);
      RetainedBefore(job.lib.codec, c1, CaptureMembers(job, s, binding, c, members, done).0, r.dir, recorded);
      MemberStepSimulates(job, s, binding, recorded, c, r, members[0]);
      var r1 := ReplayMember(job, recorded, r, members[0]).0;
      MembersSimulate(job, s, binding, recorded, c1, r1, members[1..], done + [taken.value]);
    }
  }

  lemma {:induction false} MembersReadBack(job: Job, recorded: map<Url, Receipt>, r: Cache,
                                           members: seq<Member>, done: seq<MemberResult>)
    requires ReadBack(job.lib.codec, r)
    ensures var r' := ReplayMembers(job, recorded, r, members, done).0;
      && ReadBack(job.lib.codec, r')
      && r'.dir == r.dir && r'.requests == r.requests && r'.log == r.log && r'.writes == r.writes
    decreases |members|
  {
    if members != [] {
      ReplayIsOffline(job.lib.codec, recorded, r, CollectClient(job.lib, members[0]));
      var (r1, taken) := ReplayMember(job, recorded, r, members[0]);
      if taken.Ok? {
        MembersReadBack(job, recorded, r1, members[1..], done + [taken.value]);
      }
    }
  }

  /** The files a replay must read are within the bounds of its readers; the writers have none. */
  ghost predicate Readable(job: Job, dir: Directory, result: RunResult) {
    && |job.resultBytes(result)| <= MAX_RESULT_BYTES
    && |job.bindingBytes(result.binding)| <= MAX_BINDING_BYTES
    && Fits(job.lib.codec, dir, result.liveSources.Keys, result.unavailable)
  }

  lemma MemberCount(job: Job, s: Setup, binding: Binding, c: Cache, members: seq<Member>, done: seq<MemberResult>)
    requires CaptureMembers(job, s, binding, c, members, done).1.Ok?
    ensures |CaptureMembers(job, s, binding, c, members, done).1.value| == |done| + |members|
    decreases |members|
  {
  }

  /** The member loop starts from a new cache over a directory that holds the binding. */
  lemma BeginIsFresh(job: Job, s: Setup, place: Option<Directory>, call: Call)
    ensures var c := Begin(job, s, place, call).0;
      Safe(s, c) && c == Fresh(FilesOf(place)).(dir := c.dir, writes := c.writes)
    ensures var (c, begun) := Begin(job, s, place, call);
      begun.Ok? ==>
        && begun.value == Planned(job, call.limit)
        && BindingFile in c.dir && c.dir[BindingFile] == job.bindingBytes(begun.value)
  {
  }

  /** A directory that still holds what a capture wrote about itself. */
  ghost predicate HoldsResult(job: Job, dir: Directory, result: RunResult) {
    && ResultFile(job.resultBytes(result)) in dir
    && dir[ResultFile(job.resultBytes(result))] == job.resultBytes(result)
    && BindingFile in dir && dir[BindingFile] == job.bindingBytes(result.binding)
  }

  /** What a finished capture leaves: the member loop it ran, from `c` to `c1`, and its own two files. */
  lemma CaptureLeaves(job: Job, s: Setup, place: Option<Directory>, call: Call) returns (c: Cache, c1: Cache)
    requires s.recorded.None? && CaptureRun(job, s, place, call).1.Ok?
    ensures var (end, result) := CaptureRun(job, s, place, call);
      && Safe(s, c) && InStep(c, Fresh(end.dir)) && Safe(s, c1)
      && CaptureMembers(job, s, result.value.binding, c, result.value.binding.members, [])
        == (c1, Ok(result.value.results))
      && Extends(c1, end) && result.value.liveSources == c1.used && result.value.unavailable == c1.deferred
      && HoldsResult(job, end.dir, result.value)
      && result.value.binding == Planned(job, call.limit) && 1 <= call.limit
      && |result.value.results| == |result.value.binding.members|
      && result.value.report == ReportOf(job, result.value.results)
  {
    var (end, captured) := CaptureRun(job, s, place, call);
    var result := captured.value;
    BeginIsFresh(job, s, place, call);
    c := Begin(job, s, place, call).0;
    c1 := CaptureMembers(job, s, result.binding, c, result.binding.members, []).0;
    CaptureIsSafe(job, s, result.binding, c, result.binding.members, []);
    MemberCount(job, s, result.binding, c, result.binding.members, []);
    SaveKeeps(s, c1, ResultFile(job.resultBytes(result)), job.resultBytes(result));
  }

  /** The result of a capture is read back exactly when its own two files are within the bounds. */
  lemma ReopenMeaning(job: Job, dir: Directory, result: RunResult)
    requires FaithfulJob(job) && HoldsResult(job, dir, result)
    requires 1 <= |result.results| <= |job.ordered| && result.binding == Bind(job, |result.results|)
    ensures Reopen(job, dir, job.resultBytes(result)).Ok? <==>
      |job.resultBytes(result)| <= MAX_RESULT_BYTES && |job.bindingBytes(result.binding)| <= MAX_BINDING_BYTES
    ensures Reopen(job, dir, job.resultBytes(result)).Ok? ==> Reopen(job, dir, job.resultBytes(result)).value == result
  {
    assert job.resultOf(job.resultBytes(result)) == Some(result);
    assert job.resultBytes(result) != [] && job.bindingBytes(result.binding) != [];
  }

  /** The situation of the theorem: a completed capture, and a directory that still holds its files. */
  ghost predicate Finished(job: Job, s: Setup, place: Option<Directory>, call: Call, later: Directory) {
    && FaithfulJob(job) && s.recorded.None? && job.ordered != []
    && CaptureRun(job, s, place, call).1.Ok?
    && Submap(CaptureRun(job, s, place, call).0.dir, later)
  }

  lemma Reopened(job: Job, s: Setup, place: Option<Directory>, call: Call, later: Directory)
    requires Finished(job, s, place, call, later)
    ensures var result := CaptureRun(job, s, place, call).1.value;
      && (Reopen(job, later, job.resultBytes(result)).Ok? <==>
          |job.resultBytes(result)| <= MAX_RESULT_BYTES && |job.bindingBytes(result.binding)| <= MAX_BINDING_BYTES)
      && (Reopen(job, later, job.resultBytes(result)).Ok? ==>
          Reopen(job, later, job.resultBytes(result)).value == result)
  {
    var result := CaptureRun(job, s, place, call).1.value;
    var c, c1 := CaptureLeaves(job, s, place, call);
    assert |result.results| == if call.limit <= |job.ordered| then call.limit else |job.ordered|;
    ReopenMeaning(job, later, result);
  }

  /** The recomputation succeeds when every record and receipt that the run used can be read. */
  lemma RecomputedIsCaptured(job: Job, s: Setup, place: Option<Directory>, call: Call, later: Directory)
    requires Finished(job, s, place, call, later)
    requires var result := CaptureRun(job, s, place, call).1.value;
      Fits(job.lib.codec, later, result.liveSources.Keys, result.unavailable)
    ensures var result := CaptureRun(job, s, place, call).1.value;
      var (r, rows) := ReplayMembers(job, result.unavailable, Fresh(later), result.binding.members, []);
      rows == Ok(result.results) && Compared(job, result, r, result.results).Ok?
  {
    var (end, captured) := CaptureRun(job, s, place, call);
    var result := captured.value;
    var c, c1 := CaptureLeaves(job, s, place, call);
    assert Retained(job.lib.codec, c1, later, result.unavailable);
    MembersSimulate(job, s, result.binding, result.unavailable, c, Fresh(later), result.binding.members, []);
  }

  /** A completed capture verifies offline over any directory that still holds its files, with
    * no request and the same rows, sources and failures, exactly when those files are within
    * the bounds of the replay's readers.
    */
  lemma CompletedCaptureReplays(job: Job, s: Setup, place: Option<Directory>, call: Call, later: Directory)
    requires FaithfulJob(job) && s.recorded.None? && job.ordered != []
    requires CaptureRun(job, s, place, call).1.Ok?
    requires Submap(CaptureRun(job, s, place, call).0.dir, later)
    ensures var result := CaptureRun(job, s, place, call).1.value;
      var replayed := ReplayRun(job, later, job.resultBytes(result));
      && (replayed.Ok? <==> Readable(job, later, result))
      && (replayed.Ok? ==> replayed.value == result.results)
  {
    var result := CaptureRun(job, s, place, call).1.value;
    Reopened(job, s, place, call, later);
    if Readable(job, later, result) {
      RecomputedIsCaptured(job, s, place, call, later);
    } else if Reopen(job, later, job.resultBytes(result)).Ok? {
      MembersReadBack(job, result.unavailable, Fresh(later), result.binding.members, []);
    }
  }

  // ---- one request per source ----

  lemma MemberStepSettles(job: Job, s: Setup, binding: Binding, c: Cache, m: Member)
    requires s.recorded.None? && AllSettle(c.log)
    ensures var (c', taken) := MemberStep(job, s, binding, c, m);
      SettlesBeforeEnd(c'.log) && (taken.Ok? ==> AllSettle(c'.log))
  {
    CollectIsPrudent(job.lib, m);
    PrudentRunSettles(job.lib.codec, s, c, CollectClient(job.lib, m));
  }

  lemma {:induction false} CaptureSettles(job: Job, s: Setup, binding: Binding, c: Cache,
                                          members: seq<Member>, done: seq<MemberResult>)
    requires s.recorded.None? && AllSettle(c.log)
    ensures SettlesBeforeEnd(CaptureMembers(job, s, binding, c, members, done).0.log)
    decreases |members|
  {
    if members != [] {
      MemberStepSettles(job, s, binding, c, members[0]);
      var (c1, taken) := MemberStep(job, s, binding, c, members[0]);
      if taken.Ok? {
        CaptureSettles(job, s, binding, c1, members[1..], done + [taken.value]);
      }
    }
  }

  /** One invocation, finished or not, never requests the same source twice. */
  lemma CaptureAsksOnce(job: Job, s: Setup, place: Option<Directory>, call: Call)
    requires s.recorded.None?
    ensures var log := CaptureRun(job, s, place, call).0.log;
      && |log| <= s.maxRequests
      && forall i, j :: 0 <= i < j < |log| ==> log[i].url != log[j].url
  {
    var (c, begun) := Begin(job, s, place, call);
    BeginIsFresh(job, s, place, call);
    if begun.Ok? {
      MembersAskOnce(job, s, begun.value, c);
      assert CaptureRun(job, s, place, call).0.log
          == CaptureMembers(job, s, begun.value, c, begun.value.members, []).0.log;
    }
  }

  lemma MembersAskOnce(job: Job, s: Setup, binding: Binding, start: Cache)
    requires s.recorded.None? && start.log == [] && Safe(s, start)
    ensures var log := CaptureMembers(job, s, binding, start, binding.members, []).0.log;
      |log| <= s.maxRequests && forall i, j :: 0 <= i < j < |log| ==> log[i].url != log[j].url
  {
    CaptureSettles(job, s, binding, start, binding.members, []);
    CaptureIsSafe(job, s, binding, start, binding.members, []);
  }
}
