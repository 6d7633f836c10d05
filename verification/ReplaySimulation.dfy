/** Replaying a run over the directory it left: the offline machine takes the same steps as
  * the live one, for every client that lets nothing but recoverable refusals pass.
  */
module ReplaySimulation {
  import opened Common
  import opened SourceTypes
  import opened CacheMachine
  import opened CacheSafety

  /** What a collector may survive: a payload, an oversize refusal, or a deferred source. */
  predicate Recoverable(o: Outcome) {
    o.Payload? ||
    (o.error.Identity? &&
     o.error.code in {DocumentByteBound, RetainedTooLarge, TemporarilyUnavailable, DeferredThisRun})
  }

  /** The client handles nothing else, so any other outcome of a call ends its run. */
  ghost predicate Prudent<R>(client: Client<R>)
    decreases client
  {
    client.Ask? ==> forall o :: o in client.next ==> Recoverable(o) && Prudent(client.next[o])
  }

  /** The replay machine over directory `dir` with the failures `recorded`. */
  function Replaying(recorded: map<Url, Receipt>): Setup {
    Setup(2000, None, Some(recorded))
  }

  /** The live state `c` and the replay state `r` agree on everything a result reports. */
  ghost predicate InStep(c: Cache, r: Cache) {
    r.used == c.used && r.deferred == c.deferred && r.failures == 0 && r.requests == 0
  }

  /** Every file the replay must read back is within its reader's bound. */
  ghost predicate Fits(w: Codec, dir: Directory, used: set<Url>, deferred: map<Url, Receipt>) {
    && (forall url :: url in used ==> MetaFile(url) in dir && |dir[MetaFile(url)]| <= MAX_META_BYTES)
    && (forall url :: url in deferred ==> |w.receiptBytes(deferred[url])| <= MAX_RECEIPT_BYTES)
  }

  /** What the directory and the recorded failures must still hold of the live state `c`. */
  ghost predicate Retained(w: Codec, c: Cache, dir: Directory, recorded: map<Url, Receipt>) {
    && Submap(c.dir, dir) && Submap(c.deferred, recorded)
    && (forall url :: url in recorded ==> MetaFile(url) !in c.dir)
    && Fits(w, dir, c.used.Keys, c.deferred)
  }

  /** The record of `url` is on disk, well formed, and noted as used in the step c -> c'. */
  ghost predicate Noted(w: Codec, c: Cache, c': Cache, url: Url) {
    && w.approved(url) && url !in c.deferred
    && MetaFile(url) in c'.dir && url in c'.used
    && w.metaOf(c'.dir[MetaFile(url)]) == Some(c'.used[url])
    && c'.used[url].url == Some(url) && c'.used[url].retrievedAt.Instant?
    && c'.used == c.used[url := c'.used[url]] && c'.deferred == c.deferred
  }

  lemma StoredRecord(w: Codec, s: Setup, c: Cache, url: Url)
    requires url !in c.deferred && MetaFile(url) in c.dir && Recoverable(Fetch(w, s, c, url).1)
    ensures Noted(w, c, Fetch(w, s, c, url).0, url)
    ensures Fetch(w, s, c, url).1.Payload? || Fetch(w, s, c, url).1 == Raised(Identity(DocumentByteBound))
    ensures Fetch(w, s, c, url).1.Raised? <==> Fetch(w, s, c, url).0.used[url].refusal
  {
  }

  lemma OversizeIsNoted(w: Codec, server: Server, c: Cache, url: Url)
    requires Faithful(w) && w.approved(url) && url !in c.deferred
    requires Download(w, server, c, url).1 == Err(Identity(DocumentByteBound))
    ensures Noted(w, c, Download(w, server, c, url).0, url) && Download(w, server, c, url).0.used[url].refusal
  {
  }

  lemma FreshRecord(w: Codec, s: Setup, c: Cache, url: Url)
    requires Faithful(w) && Reaches(w, s, c, url) && url !in c.deferred && Recoverable(Fetch(w, s, c, url).1)
    ensures Noted(w, c, Fetch(w, s, c, url).0, url)
    ensures Fetch(w, s, c, url).1.Payload? || Fetch(w, s, c, url).1 == Raised(Identity(DocumentByteBound))
    ensures Fetch(w, s, c, url).1.Raised? <==> Fetch(w, s, c, url).0.used[url].refusal
  {
    var (c1, got) := Download(w, s.server.value, c, url);
    if got.Ok? {
      DownloadStoresRecord(w, s.server.value, c, url);
    } else {
      OversizeIsNoted(w, s.server.value, c, url);
    }
  }

  /** The replay reads the same record, and the same body, back from its directory. */
  lemma ReplayReadsBack(w: Codec, recorded: map<Url, Receipt>, c: Cache, c': Cache, r: Cache, url: Url)
    requires Faithful(w) && InStep(c, r) && Retained(w, c', r.dir, recorded) && Noted(w, c, c', url)
    requires !c'.used[url].refusal ==>
      BodyFile(url) in c'.dir && 0 < |c'.dir[BodyFile(url)]| <= MAX_DOCUMENT_BYTES
      && c'.used[url].sha256 == Some(Digest(c'.dir[BodyFile(url)]))
      && c'.used[url].bytes == Some(|c'.dir[BodyFile(url)]|)
    ensures var (r', o) := Get(w, Replaying(recorded), r, url);
      && InStep(c', r') && r'.dir == r.dir
      && o == if c'.used[url].refusal then Raised(Identity(DocumentByteBound)) else Payload(c'.dir[BodyFile(url)])
  {
    assert url !in recorded;
    assert r.dir[MetaFile(url)] == c'.dir[MetaFile(url)];
  }

  /** A step of the live run that the collector may survive is matched by one replay step. */
  lemma GetSimulates(w: Codec, s: Setup, recorded: map<Url, Receipt>, c: Cache, r: Cache, url: Url)
    requires Faithful(w) && s.recorded.None? && InStep(c, r)
    requires Recoverable(Get(w, s, c, url).1)
    requires Retained(w, Get(w, s, c, url).0, r.dir, recorded)
    ensures var (c', o) := Get(w, s, c, url); var (r', p) := Get(w, Replaying(recorded), r, url);
      p == o && InStep(c', r') && r'.dir == r.dir
  {
    var (c', o) := Get(w, s, c, url);
    if url in c.deferred {
      assert url in recorded;
    } else {
      var (c1, o1) := Fetch(w, s, c, url);
      if o == Raised(Identity(TemporarilyUnavailable)) {
        TransientSimulates(w, s, recorded, c, r, url);
      } else {
        assert o == o1 && c'.used == c1.used && c'.dir == c1.dir && c'.deferred == c1.deferred;
        if MetaFile(url) in c.dir {
          StoredRecord(w, s, c, url);
        } else {
          FreshRecord(w, s, c, url);
        }
        if o.Payload? { PayloadIsGenuine(w, s, c, url); }
        ReplayReadsBack(w, recorded, c, c', r, url);
      }
    }
  }

  /** A transient failure leaves its receipt, on disk and among the deferred sources. */
  lemma TransientRecorded(w: Codec, s: Setup, c: Cache, url: Url) returns (receipt: Receipt)
    requires s.recorded.None? && url !in c.deferred
    requires Get(w, s, c, url).1 == Raised(Identity(TemporarilyUnavailable))
    ensures WellFormedReceipt(url, receipt) && receipt.observedAt.Instant?
    ensures var c' := Get(w, s, c, url).0;
      && c'.deferred == c.deferred[url := receipt] && c'.used == c.used
      && ReceiptFile(w.receiptBytes(receipt)) in c'.dir
      && c'.dir[ReceiptFile(w.receiptBytes(receipt))] == w.receiptBytes(receipt)
  {
    if !Reaches(w, s, c, url) { FetchQuiet(w, s, c, url); }
    var server := s.server.value;
    assert Fetch(w, s, c, url).1 == Raised(Download(w, server, c, url).1.error);
    receipt := FailureReceipt(url, Fetch(w, s, c, url).1.error, server(c.requests).at);
  }

  /** A recorded transient failure is reproduced from its receipt, without a request. */
  lemma TransientSimulates(w: Codec, s: Setup, recorded: map<Url, Receipt>, c: Cache, r: Cache, url: Url)
    requires Faithful(w) && s.recorded.None? && InStep(c, r) && url !in c.deferred
    requires Get(w, s, c, url).1 == Raised(Identity(TemporarilyUnavailable))
    requires Retained(w, Get(w, s, c, url).0, r.dir, recorded)
    ensures var c' := Get(w, s, c, url).0; var (r', p) := Get(w, Replaying(recorded), r, url);
      p == Raised(Identity(TemporarilyUnavailable)) && InStep(c', r') && r'.dir == r.dir
  {
    var receipt := TransientRecorded(w, s, c, url);
    assert recorded[url] == receipt;
    assert r.dir[ReceiptFile(w.receiptBytes(receipt))] == w.receiptBytes(receipt);
  }

  /** What is retained of the end of a run is retained of every state before it. */
  lemma RetainedBefore(w: Codec, c: Cache, c': Cache, dir: Directory, recorded: map<Url, Receipt>)
    requires Extends(c, c') && Retained(w, c', dir, recorded)
    ensures Retained(w, c, dir, recorded)
  {
  }

  /** Every client: if the live run survives, the replay takes the same steps to the same end. */
  lemma {:induction false} RunSimulates<R>(w: Codec, s: Setup, recorded: map<Url, Receipt>, c: Cache, r: Cache,
                                           client: Client<R>)
    requires Faithful(w) && s.recorded.None? && InStep(c, r) && Prudent(client) && Safe(s, c)
    requires var (c', result) := Run(w, s, c, client);
      (result.Err? ==> Recoverable(result.error)) && Retained(w, c', r.dir, recorded)
    ensures var (c', result) := Run(w, s, c, client); var (r', replayed) := Run(w, Replaying(recorded), r, client);
      replayed == result && InStep(c', r') && r'.dir == r.dir
    decreases client
  {
    match client
    case Done(_) =>
    case Fail(_) =>
    case Ask(url, next) =>
      var (c1, o) := Get(w, s, c, url);
      GetIsSafe(w, s, c, url);
      if o in next {
        RunIsSafe(w, s, c1, next[o]);
        RetainedBefore(w, c1, Run(w, s, c, client).0, r.dir, recorded);
        GetSimulates(w, s, recorded, c, r, url);
        RunSimulates(w, s, recorded, c1, Get(w, Replaying(recorded), r, url).0, next[o]);
      } else {
        GetSimulates(w, s, recorded, c, r, url);
      }
  }

  /** A replay only ever notes records and failures that its readers accepted. */
  ghost predicate ReadBack(w: Codec, r: Cache) {
    Fits(w, r.dir, r.used.Keys, r.deferred)
  }

  lemma GetReadsBack(w: Codec, recorded: map<Url, Receipt>, r: Cache, url: Url)
    requires ReadBack(w, r)
    ensures ReadBack(w, Get(w, Replaying(recorded), r, url).0) && Get(w, Replaying(recorded), r, url).0.dir == r.dir
    ensures Get(w, Replaying(recorded), r, url).0.requests == r.requests
    ensures Get(w, Replaying(recorded), r, url).0.log == r.log
      && Get(w, Replaying(recorded), r, url).0.writes == r.writes
  {
    var s := Replaying(recorded);
    if url !in recorded {
      FetchQuiet(w, s, r, url);
    }
  }

  /** A replay makes no request, writes nothing, and reads within bounds, whatever the client. */
  lemma {:induction false} ReplayIsOffline<R>(w: Codec, recorded: map<Url, Receipt>, r: Cache, client: Client<R>)
    requires ReadBack(w, r)
    ensures var r' := Run(w, Replaying(recorded), r, client).0;
      ReadBack(w, r') && r'.dir == r.dir && r'.requests == r.requests && r'.log == r.log && r'.writes == r.writes
    decreases client
  {
    match client
    case Done(_) =>
    case Fail(_) =>
    case Ask(url, next) =>
      GetReadsBack(w, recorded, r, url);
      var (r1, o) := Get(w, Replaying(recorded), r, url);
      if o in next {
        ReplayIsOffline(w, recorded, r1, next[o]);
      }
  }

  /** The writers have no bound on a record, the readers do: a source whose record is longer
    * was captured, and yet neither a replay nor the same run can read it a second time.
    */
  lemma LongRecordIsUnreadable(w: Codec, s: Setup, c: Cache, url: Url, later: Directory)
    requires Faithful(w) && s.recorded.None? && Get(w, s, c, url).1.Payload?
    requires Submap(Get(w, s, c, url).0.dir, later)
    requires |Get(w, s, c, url).0.dir[MetaFile(url)]| > MAX_META_BYTES
    ensures Get(w, s, Get(w, s, c, url).0, url).1 == Raised(FileBound)
    ensures Get(w, Replaying(map[]), Fresh(later), url).1 == Raised(FileBound)
  {
    var c' := Get(w, s, c, url).0;
    PayloadIsGenuine(w, s, c, url);
    if Reaches(w, s, c, url) {
      FreshRecord(w, s, c, url);
      var asked, fate, ws := LiveGetStep(w, s, c, url);
    } else {
      FetchQuiet(w, s, c, url);
    }
    assert later[MetaFile(url)] == c'.dir[MetaFile(url)];
  }

  /** And it happens: a source of an approved URL whose record encodes to more than 4096 bytes is captured
    * into an empty directory by the first request, and unreadable from then on.
    */
  lemma LongRecordArises(w: Codec, url: Url, body: Bytes, at: int)
    requires Faithful(w) && w.approved(url) && 0 < |body| <= MAX_DOCUMENT_BYTES
    requires |w.metaBytes(FreshMeta(url, body, at))| > MAX_META_BYTES
    ensures var s := Setup(1, Some(Answering(body, at)), None);
      var (c, o) := Get(w, s, Fresh(map[]), url);
      && o == Payload(body) && Get(w, s, c, url).1 == Raised(FileBound)
      && Get(w, Replaying(map[]), Fresh(c.dir), url).1 == Raised(FileBound)
  {
    OneBodyDrains(body);
    var s := Setup(1, Some(Answering(body, at)), None);
    var c := Get(w, s, Fresh(map[]), url).0;
    assert Get(w, s, Fresh(map[]), url).1 == Payload(body);
    assert c.dir[MetaFile(url)] == w.metaBytes(FreshMeta(url, body, at));
    LongRecordIsUnreadable(w, s, Fresh(map[]), url, c.dir);
  }

  ghost predicate AllSettle(log: seq<Request>) {
    forall i :: 0 <= i < |log| ==> Settles(log[i].fate)
  }

  /** All requests but possibly the last settled their source. */
  ghost predicate SettlesBeforeEnd(log: seq<Request>) {
    forall i :: 0 <= i < |log| - 1 ==> Settles(log[i].fate)
  }

  lemma SurvivedRequestSettles(w: Codec, s: Setup, c: Cache, url: Url)
    requires s.recorded.None? && AllSettle(c.log)
    ensures SettlesBeforeEnd(Get(w, s, c, url).0.log)
    ensures Recoverable(Get(w, s, c, url).1) ==> AllSettle(Get(w, s, c, url).0.log)
  {
    var asked, fate, ws := LiveGetStep(w, s, c, url);
    if asked && fate == OtherFate {
      var f, v := FetchAsked(w, s, c, url);
      var (c1, o) := Fetch(w, s, c, url);
      assert f == fate by { assert c1.log[|c.log|].fate == f; }
    }
  }

  lemma {:induction false} PrudentRunSettles<R>(w: Codec, s: Setup, c: Cache, client: Client<R>)
    requires s.recorded.None? && Prudent(client) && AllSettle(c.log)
    ensures var (c', result) := Run(w, s, c, client);
      SettlesBeforeEnd(c'.log) && (result.Ok? || Recoverable(result.error) || client.Fail? ==> AllSettle(c'.log))
    decreases client
  {
    match client
    case Done(_) =>
    case Fail(_) =>
    case Ask(url, next) =>
      SurvivedRequestSettles(w, s, c, url);
      var (c', o) := Get(w, s, c, url);
      if o in next {
        PrudentRunSettles(w, s, c', next[o]);
      }
  }
}
