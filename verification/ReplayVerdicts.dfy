/** What the replay command accepts, and what it refuses. */
module ReplayVerdicts {
  import opened Common
  import opened SourceTypes
  import opened CacheMachine
  import opened CacheSafety
  import opened ReplaySimulation
  import opened Collector
  import opened Capture

  // ---- the counter of a report ----

  function StatusesOf(results: seq<MemberResult>): seq<Status> {
    seq(|results|, i requires 0 <= i < |results| => results[i].status)
  }

  /** The counter holds how often each status occurs, and only statuses that do. */
  ghost predicate Tallies(counter: map<Status, nat>, statuses: seq<Status>) {
    && (forall s :: s in counter <==> s in statuses)
    && forall s :: s in counter ==> counter[s] == multiset(statuses)[s]
  }

  lemma {:induction false} StatusesAreTallied(results: seq<MemberResult>)
    ensures Tallies(CountStatuses(results), StatusesOf(results))
  {
    if results != [] {
      var n := |results| - 1;
      StatusesAreTallied(results[..n]);
      assert StatusesOf(results) == StatusesOf(results[..n]) + [results[n].status];
    }
  }

  lemma TalliesAreUnique(a: map<Status, nat>, b: map<Status, nat>, statuses: seq<Status>)
    requires Tallies(a, statuses) && Tallies(b, statuses)
    ensures a == b
  {
    assert forall s :: s in a ==> s in b && a[s] == b[s];
  }

  /** The report of these rows: how many members of which roster ended in which status, and nothing claimed. */
  ghost predicate Reports(job: Job, report: Report, rows: seq<MemberResult>) {
    && report.roster == job.roster && report.sourceCount == |job.ordered| && report.processed == |rows|
    && Tallies(report.statuses, StatusesOf(rows))
    && !report.issueComplete && !report.continuityVerified && !report.datasetBound && !report.assetDirectoryUsed
  }

  lemma ReportMeaning(job: Job, report: Report, rows: seq<MemberResult>)
    ensures SoundReport(job, report, rows) <==> Reports(job, report, rows)
  {
    StatusesAreTallied(rows);
    if Reports(job, report, rows) {
      TalliesAreUnique(report.statuses, CountStatuses(rows), StatusesOf(rows));
    }
  }

  // ---- acceptance ----

  /** A file is there, and a reader with this bound accepts it. */
  ghost predicate Holds(dir: Directory, name: FileName, content: Bytes, bound: nat) {
    name in dir && dir[name] == content && 0 < |content| <= bound
  }

  /** The result is bound to the first members of this roster, at least one of them. */
  ghost predicate BoundToRoster(job: Job, v: RunResult) {
    && 1 <= |v.results| <= |job.ordered|
    && v.binding == Binding(job.roster, job.lib.cutoff, job.ordered[..|v.results|], |job.ordered|)
  }

  /** Recomputing every member from the directory gives the rows, the sources and the failures of the result. */
  ghost predicate Recomputes(job: Job, dir: Directory, v: RunResult) {
    var (r, rows) := ReplayMembers(job, v.unavailable, Fresh(dir), v.binding.members, []);
    rows == Ok(v.results) && r.used == v.liveSources && r.deferred == v.unavailable
  }

  ghost predicate Accepts(job: Job, dir: Directory, name: Bytes, v: RunResult) {
    && Holds(dir, ResultFile(name), name, MAX_RESULT_BYTES) && job.resultOf(name) == Some(v)
    && BoundToRoster(job, v) && Holds(dir, BindingFile, job.bindingBytes(v.binding), MAX_BINDING_BYTES)
    && Recomputes(job, dir, v) && Reports(job, v.report, v.results)
  }

  lemma ReopensExactly(job: Job, dir: Directory, name: Bytes, v: RunResult)
    ensures Reopen(job, dir, name) == Ok(v) <==>
      && Holds(dir, ResultFile(name), name, MAX_RESULT_BYTES) && job.resultOf(name) == Some(v)
      && BoundToRoster(job, v) && Holds(dir, BindingFile, job.bindingBytes(v.binding), MAX_BINDING_BYTES)
  {
  }

  /** A replay succeeds exactly when the named file holds its own bytes, they decode to a result that is bound
    * to the roster and to the directory's binding, recomputation from the directory's files gives its rows,
    * sources and failures, and its report counts those rows; and then it returns those rows.
    */
  lemma ReplayMeaning(job: Job, dir: Directory, name: Bytes)
    ensures ReplayRun(job, dir, name).Ok? <==> exists v :: Accepts(job, dir, name, v)
    ensures forall v :: Accepts(job, dir, name, v) ==> ReplayRun(job, dir, name) == Ok(v.results)
  {
    forall v ensures Accepts(job, dir, name, v) ==> ReplayRun(job, dir, name) == Ok(v.results) {
      ReopensExactly(job, dir, name, v);
      ReportMeaning(job, v.report, v.results);
    }
    if ReplayRun(job, dir, name).Ok? {
      var v := Reopen(job, dir, name).value;
      ReopensExactly(job, dir, name, v);
      var (r, rows) := ReplayMembers(job, v.unavailable, Fresh(dir), v.binding.members, []);
      ReportMeaning(job, v.report, rows.value);
      assert Accepts(job, dir, name, v);
    }
  }

  /** Two results that both replay over one directory, with one binding and the same failures, are one. */
  lemma OneResultReplays(job: Job, dir: Directory, v: RunResult, x: RunResult)
    requires FaithfulJob(job) && v.binding == x.binding && v.unavailable == x.unavailable
    requires ReplayRun(job, dir, job.resultBytes(v)).Ok? && ReplayRun(job, dir, job.resultBytes(x)).Ok?
    ensures v == x
  {
    ReplayMeaning(job, dir, job.resultBytes(v));
    ReplayMeaning(job, dir, job.resultBytes(x));
    assert job.resultOf(job.resultBytes(v)) == Some(v) && job.resultOf(job.resultBytes(x)) == Some(x);
    var v' :| Accepts(job, dir, job.resultBytes(v), v');
    var x' :| Accepts(job, dir, job.resultBytes(x), x');
    TalliesAreUnique(v.report.statuses, x.report.statuses, StatusesOf(v.results));
  }

  /** Beside a completed capture a result of the same binding and failures replays exactly when it is the
    * capture's own: rows, sources, counts and claims cannot be exchanged.
    */
  lemma OnlyTheCapturedResultReplays(job: Job, s: Setup, place: Option<Directory>, call: Call, later: Directory,
                                     x: RunResult)
    requires Finished(job, s, place, call, later)
    requires Readable(job, later, CaptureRun(job, s, place, call).1.value)
    requires x.binding == CaptureRun(job, s, place, call).1.value.binding
    requires x.unavailable == CaptureRun(job, s, place, call).1.value.unavailable
    ensures ReplayRun(job, later, job.resultBytes(x)).Ok? <==> x == CaptureRun(job, s, place, call).1.value
  {
    CompletedCaptureReplays(job, s, place, call, later);
    if ReplayRun(job, later, job.resultBytes(x)).Ok? {
      OneResultReplays(job, later, CaptureRun(job, s, place, call).1.value, x);
    }
  }

  // ---- what an accepted result has on disk ----

  /** A used source is on disk as its record says: the record itself, and the body that it names. */
  ghost predicate OnDiskAs(w: Codec, dir: Directory, url: Url, meta: Meta) {
    && MetaFile(url) in dir && w.metaOf(dir[MetaFile(url)]) == Some(meta) && meta.url == Some(url)
    && (meta.refusal ||
        (&& BodyFile(url) in dir && 0 < |dir[BodyFile(url)]| <= MAX_DOCUMENT_BYTES
         && meta.sha256 == Some(Digest(dir[BodyFile(url)])) && meta.bytes == Some(|dir[BodyFile(url)]|)))
  }

  ghost predicate Intact(w: Codec, r: Cache) {
    && (forall url :: url in r.used ==> OnDiskAs(w, r.dir, url, r.used[url]))
    && forall url :: url in r.deferred ==>
         var content := w.receiptBytes(r.deferred[url]);
         ReceiptFile(content) in r.dir && r.dir[ReceiptFile(content)] == content
  }

  lemma FetchStaysIntact(w: Codec, s: Setup, r: Cache, url: Url)
    requires s.server.None? && Intact(w, r)
    ensures Intact(w, Fetch(w, s, r, url).0) && Fetch(w, s, r, url).0.dir == r.dir
    ensures Fetch(w, s, r, url).0.deferred == r.deferred
  {
  }

  lemma GetStaysIntact(w: Codec, recorded: map<Url, Receipt>, r: Cache, url: Url)
    requires Intact(w, r)
    ensures Intact(w, Get(w, Replaying(recorded), r, url).0) && Get(w, Replaying(recorded), r, url).0.dir == r.dir
  {
    if url !in recorded {
      FetchStaysIntact(w, Replaying(recorded), r, url);
    }
  }

  lemma {:induction false} RunStaysIntact<R>(w: Codec, recorded: map<Url, Receipt>, r: Cache, client: Client<R>)
    requires Intact(w, r)
    ensures Intact(w, Run(w, Replaying(recorded), r, client).0) && Run(w, Replaying(recorded), r, client).0.dir == r.dir
    decreases client
  {
    match client
    case Done(_) =>
    case Fail(_) =>
    case Ask(url, next) =>
      GetStaysIntact(w, recorded, r, url);
      var (r1, o) := Get(w, Replaying(recorded), r, url);
      if o in next {
        RunStaysIntact(w, recorded, r1, next[o]);
      }
  }

  lemma {:induction false} MembersStayIntact(job: Job, recorded: map<Url, Receipt>, r: Cache,
                                             members: seq<Member>, done: seq<MemberResult>)
    requires Intact(job.lib.codec, r)
    ensures var r' := ReplayMembers(job, recorded, r, members, done).0; Intact(job.lib.codec, r') && r'.dir == r.dir
    decreases |members|
  {
    if members != [] {
      RunStaysIntact(job.lib.codec, recorded, r, CollectClient(job.lib, members[0]));
      var (r1, taken) := ReplayMember(job, recorded, r, members[0]);
      if taken.Ok? {
        MembersStayIntact(job, recorded, r1, members[1..], done + [taken.value]);
      }
    }
  }

  /** Behind an accepted result every source it lists is on disk, record and body, as the result says, and so is
    * the receipt of every failure: a changed, exchanged or missing source is refused.
    */
  lemma AcceptedSourcesAreIntact(job: Job, dir: Directory, name: Bytes, v: RunResult)
    requires Accepts(job, dir, name, v)
    ensures forall url :: url in v.liveSources ==> OnDiskAs(job.lib.codec, dir, url, v.liveSources[url])
    ensures forall url :: url in v.unavailable ==>
      var content := job.lib.codec.receiptBytes(v.unavailable[url]);
      ReceiptFile(content) in dir && dir[ReceiptFile(content)] == content
  {
    MembersStayIntact(job, v.unavailable, Fresh(dir), v.binding.members, []);
  }
}
