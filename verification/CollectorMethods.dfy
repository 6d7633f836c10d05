/** The collector, the capture command and the replay command as the programs run them,
  * updating the cache object as they go.
  */
module CollectorMethods {
  import opened Common
  import opened SourceTypes
  import opened CacheMachine
  import opened CacheSafety
  import opened ReplaySimulation
  import opened SourceCacheClass
  import opened FilingSelection
  import opened FilingMethods
  import opened Collector
  import opened Capture
  import CollectorRows
  import ReplayVerdicts

  /** An exception of the program as the end of a client's run. */
  function Lift<R>(r: Result<R, Error>): Result<R, Outcome> {
    match r
    case Ok(value) => Ok(value)
    case Err(e) => Err(Raised(e))
  }

  method FollowArchives(lib: Library, cache: SourceCache, cik: string, files: seq<Descriptor>, recent: seq<Row>)
      returns (r: Result<seq<Row>, Error>)
    requires cache.codec == lib.codec
    modifies cache, cache.disk
    ensures (cache.State(), Lift(r)) == Run(lib.codec, cache.setup, old(cache.State()),
                                            ArchiveClient(lib, cik, files, recent))
  {
    var rows := recent;
    for i := 0 to |files|
      invariant Run(lib.codec, cache.setup, cache.State(), ArchiveClient(lib, cik, files[i..], rows))
             == Run(lib.codec, cache.setup, old(cache.State()), ArchiveClient(lib, cik, files, recent))
    {
      var descriptor := files[i];
      assert files[i..][0] == descriptor && files[i..][1..] == files[i + 1..];
      if OutsideCoverage(lib, descriptor) { continue; }
      if !IsArchiveName(cik, descriptor.name) { return Err(Identity(InvalidArchiveDescriptor)); }
      var o := cache.Get("https://data.sec.gov/submissions/" + descriptor.name);
      if o.Raised? { return Err(o.error); }
      var more := lib.decodeArchive(o.body, cik);
      if more.Err? { return Err(more.error); }
      rows := rows + more.value;
    }
    return Ok(rows);
  }

  method Expand(lib: Library, cache: SourceCache, cik: string, body: Bytes, live: bool)
      returns (r: Result<seq<Row>, Error>)
    requires cache.codec == lib.codec
    modifies cache, cache.disk
    ensures (cache.State(), Lift(r)) == Run(lib.codec, cache.setup, old(cache.State()), Expanded(lib, cik, body, live))
  {
    var decoded := lib.decodeSubmissions(body, cik);
    if decoded.Err? { return Err(decoded.error); }
    if decoded.value.issuer != cik { return Err(Identity(IssuerMismatch)); }
    if decoded.value.recent.Err? { return Err(decoded.value.recent.error); }
    if !live { return Ok(decoded.value.recent.value); }
    r := FollowArchives(lib, cache, cik, decoded.value.files, decoded.value.recent.value);
  }

  /** `submissions` */
  method ReadSubmissions(lib: Library, cache: SourceCache, cik: string) returns (r: Result<seq<Row>, Error>)
    requires cache.codec == lib.codec
    modifies cache, cache.disk
    ensures (cache.State(), Lift(r)) == Run(lib.codec, cache.setup, old(cache.State()), SubmissionsClient(lib, cik))
  {
    var retained := lib.retainedSubmissions(cik);
    if retained.Err? { return Err(retained.error); }
    if retained.value.Some? {
      r := Expand(lib, cache, cik, retained.value.value, false);
      return;
    }
    var o := cache.Get("https://data.sec.gov/submissions/CIK" + cik + ".json");
    if o.Raised? { return Err(o.error); }
    r := Expand(lib, cache, cik, o.body, true);
  }

  /** One source of the periodic loop: retained if the checkpoint has it, fetched otherwise. */
  method PeriodicSource(lib: Library, cache: SourceCache, row: Row) returns (o: Outcome)
    requires cache.codec == lib.codec
    modifies cache, cache.disk
    ensures var retained := lib.retainedFiling(row);
      if retained.Err? then o == Raised(retained.error) && cache.State() == old(cache.State())
      else if retained.value.Some? then o == Payload(retained.value.value) && cache.State() == old(cache.State())
      else match FilingUrl(lib.codec, row)
        case Err(e) => o == Raised(e) && cache.State() == old(cache.State())
        case Ok(url) => (cache.State(), o) == CacheMachine.Get(lib.codec, cache.setup, old(cache.State()), url)
  {
    var retained := lib.retainedFiling(row);
    if retained.Err? { return Raised(retained.error); }
    if retained.value.Some? { return Payload(retained.value.value); }
    var url := FilingUrl(lib.codec, row);
    if url.Err? { return Raised(url.error); }
    o := cache.Get(url.value);
  }

  method FindPeriodic(lib: Library, cache: SourceCache, m: Member, filings: seq<Row>)
      returns (r: Result<Search<string>, Error>)
    requires cache.codec == lib.codec
    modifies cache, cache.disk
    ensures (cache.State(), Lift(r)) == Run(lib.codec, cache.setup, old(cache.State()),
                                            PeriodicClient(lib, m, filings, map[]))
  {
    var refusals: Refusals := map[];
    for i := 0 to |filings|
      invariant Run(lib.codec, cache.setup, cache.State(), PeriodicClient(lib, m, filings[i..], refusals))
             == Run(lib.codec, cache.setup, old(cache.State()), PeriodicClient(lib, m, filings, map[]))
    {
      assert filings[i..][0] == filings[i] && filings[i..][1..] == filings[i + 1..];
      var o := PeriodicSource(lib, cache, filings[i]);
      if o.Raised? {
        if !SizeError(o.error) { return Err(o.error); }
        refusals := Bump(refusals, o.error.code);
      } else {
        var anchor := lib.periodicAnchor(o.body, filings[i], m);
        if anchor.Ok? { return Ok(Search(Some(anchor.value), refusals)); }
        if !anchor.error.Identity? { return Err(anchor.error); }
        refusals := Bump(refusals, anchor.error.code);
      }
    }
    return Ok(Search(None, refusals));
  }

  method FindOwnership(lib: Library, cache: SourceCache, m: Member, anchor: string, filings: seq<Row>, before: Refusals)
      returns (r: Result<Search<string>, Error>)
    requires cache.codec == lib.codec
    modifies cache, cache.disk
    ensures (cache.State(), Lift(r)) == Run(lib.codec, cache.setup, old(cache.State()),
                                            OwnershipClient(lib, m, anchor, filings, before))
  {
    var refusals := before;
    for i := 0 to |filings|
      invariant Run(lib.codec, cache.setup, cache.State(), OwnershipClient(lib, m, anchor, filings[i..], refusals))
             == Run(lib.codec, cache.setup, old(cache.State()), OwnershipClient(lib, m, anchor, filings, before))
    {
      assert filings[i..][0] == filings[i] && filings[i..][1..] == filings[i + 1..];
      var url := SubmissionTextUrl(lib.codec, filings[i]);
      if url.Err? { return Err(url.error); }
      var o := cache.Get(url.value);
      if o.Raised? {
        if o.error != Identity(DocumentByteBound) { return Err(o.error); }
        refusals := Bump(refusals, DocumentByteBound);
      } else {
        var joined := lib.joinOwnership(o.body, filings[i], m, anchor);
        if joined.Ok? { return Ok(Search(Some(joined.value), refusals)); }
        if !joined.error.Identity? { return Err(joined.error); }
        refusals := Bump(refusals, joined.error.code);
      }
    }
    return Ok(Search(None, refusals));
  }

  /** `collect_member` */
  method CollectMember(lib: Library, cache: SourceCache, m: Member) returns (r: Result<MemberResult, Error>)
    requires cache.codec == lib.codec
    modifies cache, cache.disk
    ensures (cache.State(), Lift(r)) == Run(lib.codec, cache.setup, old(cache.State()), CollectClient(lib, m))
    ensures r.Ok? ==> CollectorRows.MemberRow(lib, cache.setup, old(cache.State()), m, r.value)
  {
    ghost var w, s := lib.codec, cache.setup;
    CollectorRows.SettledRow(lib, s, cache.State(), m);
    RunThen(w, s, cache.State(), SubmissionsClient(lib, m.cik), (rows: seq<Row>) => AfterSubmissions(lib, m, rows));
    var rows := ReadSubmissions(lib, cache, m.cik);
    if rows.Err? { return Err(rows.error); }
    var filings := ChooseNewest(rows.value, PERIODIC_FORMS, lib.cutoff, 4);
    if filings.Err? { return Err(Identity(filings.error)); }
    RunThen(w, s, cache.State(), PeriodicClient(lib, m, filings.value, map[]),
            (periodic: Search<string>) => AfterPeriodic(lib, m, rows.value, periodic));
    var periodic := FindPeriodic(lib, cache, m, filings.value);
    if periodic.Err? { return Err(periodic.error); }
    if periodic.value.found.None? { return Ok(Verdict(m, periodic.value, PeriodicUnresolved)); }
    var anchor := periodic.value.found.value;
    var ownership := ChooseOwnership(rows.value, lib.cutoff);
    if ownership.Err? { return Err(Identity(ownership.error)); }
    RunThen(w, s, cache.State(), OwnershipClient(lib, m, anchor, ownership.value, periodic.value.refusals),
            (found: Search<string>) => Done(Verdict(m, found, OwnershipUnresolved)));
    var found := FindOwnership(lib, cache, m, anchor, ownership.value, periodic.value.refusals);
    if found.Err? { return Err(found.error); }
    return Ok(Verdict(m, found.value, OwnershipUnresolved));
  }

  /** The member loop of `main`: each finished member is saved before the next request. */
  method CaptureAll(job: Job, cache: SourceCache, binding: Binding) returns (r: Result<seq<MemberResult>, Error>)
    requires cache.codec == job.lib.codec
    modifies cache, cache.disk
    ensures (cache.State(), Lift(r))
         == CaptureMembers(job, cache.setup, binding, old(cache.State()), binding.members, [])
  {
    var results: seq<MemberResult> := [];
    var members := binding.members;
    for i := 0 to |members|
      invariant CaptureMembers(job, cache.setup, binding, cache.State(), members[i..], results)
             == CaptureMembers(job, cache.setup, binding, old(cache.State()), members, [])
    {
      assert members[i..][0] == members[i] && members[i..][1..] == members[i + 1..];
      var collected := CollectMember(job.lib, cache, members[i]);
      var settled := Settle(members[i], Lift(collected));
      if settled.Err? { return Err(collected.error); }
      var receipt := job.memberBytes(binding, settled.value);
      var saved := cache.disk.WriteNew(MemberFile(receipt), receipt);
      if saved {
        cache.writes := cache.writes + [Write(MemberFile(receipt), receipt)];
      } else {
        var read := ReadFile(cache.disk.files, MemberFile(receipt), MAX_BINDING_BYTES);
        if read.Err? { return Err(read.error); }
        if read.value != receipt { return Err(Identity(OtherCode("member_receipt_changed"))); }
      }
      results := results + [settled.value];
      if cache.failures >= 3 { return Err(Identity(CircuitOpen)); }
    }
    return Ok(results);
  }

  /** The member loop of `replay`, over a cache that has no client. */
  method ReplayAll(job: Job, cache: SourceCache, members: seq<Member>) returns (r: Result<seq<MemberResult>, Error>)
    requires cache.codec == job.lib.codec && cache.setup.recorded.Some?
      && cache.setup == Replaying(cache.setup.recorded.value)
    modifies cache, cache.disk
    ensures (cache.State(), Lift(r)) == ReplayMembers(job, cache.setup.recorded.value, old(cache.State()), members, [])
  {
    var recomputed: seq<MemberResult> := [];
    for i := 0 to |members|
      invariant ReplayMembers(job, cache.setup.recorded.value, cache.State(), members[i..], recomputed)
             == ReplayMembers(job, cache.setup.recorded.value, old(cache.State()), members, [])
    {
      assert members[i..][0] == members[i] && members[i..][1..] == members[i + 1..];
      var collected := CollectMember(job.lib, cache, members[i]);
      var settled := Settle(members[i], Lift(collected));
      if settled.Err? { return Err(collected.error); }
      recomputed := recomputed + [settled.value];
    }
    return Ok(recomputed);
  }

  /** `main` up to the member loop: the new or reopened directory, and the cache over it. */
  method BeginCapture(job: Job, setup: Setup, place: Place, call: Call)
      returns (r: Result<Binding, Error>, cache: SourceCache?)
    modifies place, if place.directory == null then {} else {place.directory}
    ensures r == Begin(job, setup, old(place.Contents()), call).1
    ensures place.Contents() == Remains(setup, old(place.Contents()), call,
                                        Begin(job, setup, old(place.Contents()), call).0.dir)
    ensures r.Ok? ==>
      && cache != null && fresh(cache) && cache.codec == job.lib.codec && cache.setup == setup
      && place.directory == cache.disk && (cache.disk == old(place.directory) || fresh(cache.disk))
      && cache.State() == Begin(job, setup, old(place.Contents()), call).0
  {
    cache := null;
    if !InBounds(setup, call) { return Err(Refused("invalid_collection_bounds")), null; }
    var binding := Planned(job, call.limit);
    if call.resume {
      if place.directory == null { return Err(FileMissing), null; }
      var read := ReadFile(place.directory.files, BindingFile, MAX_BINDING_BYTES);
      if read.Err? { return Err(read.error), null; }
      if read.value != job.bindingBytes(binding) { return Err(Identity(OtherCode("capture_binding_mismatch"))), null; }
      cache := new SourceCache(job.lib.codec, setup, place.directory);
    } else {
      if place.directory != null { return Err(Refused("capture output already exists")), null; }
      var disk := place.Create();
      cache := new SourceCache(job.lib.codec, setup, disk);
      var _ := disk.WriteNew(BindingFile, job.bindingBytes(binding));
      cache.writes := cache.writes + [Write(BindingFile, job.bindingBytes(binding))];
    }
    if setup.server.Some? && !call.identified { return Err(Refused("identified_SEC_contact_required")), cache; }
    return Ok(binding), cache;
  }

  /** `main` after the member loop. */
  method ConcludeCapture(job: Job, cache: SourceCache, binding: Binding, results: seq<MemberResult>,
                         codeUnchanged: bool)
      returns (r: Result<RunResult, Error>)
    modifies cache, cache.disk
    ensures (cache.State(), Lift(r)) == Conclude(job, binding, old(cache.State()), results, codeUnchanged)
  {
    if !codeUnchanged { return Err(Identity(OtherCode("algorithms_changed_during_capture"))); }
    var result := RunResult(binding, results, cache.used, cache.deferred, ReportOf(job, results));
    var encoded := job.resultBytes(result);
    var ok := cache.disk.WriteNew(ResultFile(encoded), encoded);
    if !ok { return Err(FileExists); }
    cache.writes := cache.writes + [Write(ResultFile(encoded), encoded)];
    return Ok(result);
  }

  /** `main` */
  method CaptureCommand(job: Job, server: Option<Server>, maxRequests: nat, place: Place, call: Call)
      returns (r: Result<RunResult, Error>)
    modifies place, if place.directory == null then {} else {place.directory}
    ensures var s := Setup(maxRequests, server, None);
      var (end, captured) := CaptureRun(job, s, old(place.Contents()), call);
      Lift(r) == captured && place.Contents() == Remains(s, old(place.Contents()), call, end.dir)
  {
    var setup := Setup(maxRequests, server, None);
    var binding, cache := BeginCapture(job, setup, place, call);
    if binding.Err? { return Err(binding.error); }
    var results := CaptureAll(job, cache, binding.value);
    if results.Err? { return Err(results.error); }
    r := ConcludeCapture(job, cache, binding.value, results.value, call.codeUnchanged);
  }

  /** The second half of `replay`. */
  method RecomputeAll(job: Job, disk: Disk, value: RunResult) returns (r: Result<seq<MemberResult>, Error>)
    modifies disk
    ensures var (end, recomputed) :=
        ReplayMembers(job, value.unavailable, Fresh(old(disk.files)), value.binding.members, []);
      match recomputed
      case Err(o) => Lift(r) == Err(o)
      case Ok(results) => r == Compared(job, value, end, results)
    ensures disk.files == old(disk.files)
  {
    var cache := new SourceCache(job.lib.codec, Replaying(value.unavailable), disk);
    MembersReadBack(job, value.unavailable, Fresh(disk.files), value.binding.members, []);
    var recomputed := ReplayAll(job, cache, value.binding.members);
    if recomputed.Err? { return Err(recomputed.error); }
    if recomputed.value != value.results { return Err(Identity(OtherCode("identity_result_replay_mismatch"))); }
    if cache.used != value.liveSources || cache.deferred != value.unavailable {
      return Err(Identity(OtherCode("result_source_receipt_set_mismatch")));
    }
    if !SoundReport(job, value.report, recomputed.value) {
      return Err(Identity(OtherCode("invalid_identity_result_report")));
    }
    return Ok(recomputed.value);
  }

  /** `replay`: nothing in the directory changes, and no request is possible. */
  method ReplayCommand(job: Job, disk: Disk, name: Bytes) returns (r: Result<seq<MemberResult>, Error>)
    modifies disk
    ensures Lift(r) == ReplayRun(job, old(disk.files), name)
    ensures r.Ok? <==> exists v :: ReplayVerdicts.Accepts(job, old(disk.files), name, v)
    ensures disk.files == old(disk.files)
  {
    ReplayVerdicts.ReplayMeaning(job, disk.files, name);
    var raw := ReadFile(disk.files, ResultFile(name), MAX_RESULT_BYTES);
    if raw.Err? { return Err(raw.error); }
    if raw.value != name { return Err(Identity(OtherCode("result_digest_mismatch"))); }
    var decoded := job.resultOf(raw.value);
    if decoded.None? { return Err(Malformed); }
    var value := decoded.value;
    if !(1 <= |value.results| <= |job.ordered|) { return Err(Identity(OtherCode("invalid_result_count"))); }
    var expected := Bind(job, |value.results|);
    if value.binding != expected { return Err(Identity(OtherCode("result_source_binding_mismatch"))); }
    var bound := ReadFile(disk.files, BindingFile, MAX_BINDING_BYTES);
    if bound.Err? { return Err(bound.error); }
    if bound.value != job.bindingBytes(expected) {
      return Err(Identity(OtherCode("result_source_binding_mismatch")));
    }
    assert Reopen(job, disk.files, name) == Ok(value);
    r := RecomputeAll(job, disk, value);
  }
}
