/** What one call of the cache answers, reply by reply and file by file. */
module CacheAnswers {
  import opened Common
  import opened SourceTypes
  import opened CacheMachine
  import opened CacheSafety
  import opened ReplaySimulation

  // ---- the chunk loop ----

  /** The bytes of the chunks, one chunk after the other. */
  function Joined(chunks: seq<Bytes>): Bytes {
    if chunks == [] then [] else chunks[0] + Joined(chunks[1..])
  }

  /** With these chunks behind it, the document is within its ceiling and the run within its own. */
  predicate Within(body: Bytes, bytes: nat, chunks: seq<Bytes>) {
    |body| + |Joined(chunks)| <= MAX_DOCUMENT_BYTES && bytes + |Joined(chunks)| <= MAX_RUN_BYTES
  }

  /** The n-th chunk is the first that breaks a ceiling. */
  ghost predicate BreaksAt(chunks: seq<Bytes>, body: Bytes, bytes: nat, n: nat) {
    n < |chunks| && Within(body, bytes, chunks[..n]) && !Within(body, bytes, chunks[..n + 1])
  }

  /** What reading the chunks comes to. */
  ghost predicate Read(chunks: seq<Bytes>, body: Bytes, bytes: nat, d: Drained) {
    match d
    case Drained(all, total) =>
      Within(body, bytes, chunks) && all == body + Joined(chunks) && total == bytes + |Joined(chunks)|
    case OverBudget(total) =>
      total > MAX_RUN_BYTES
      && exists n: nat :: BreaksAt(chunks, body, bytes, n) && total == bytes + |Joined(chunks[..n + 1])|
    case OverSize(total) =>
      total <= MAX_RUN_BYTES
      && exists n: nat :: BreaksAt(chunks, body, bytes, n) && total == bytes + |Joined(chunks[..n + 1])|
  }

  lemma JoinedHead(chunks: seq<Bytes>, n: nat)
    requires n < |chunks|
    ensures Joined(chunks[..n + 1]) == chunks[0] + Joined(chunks[1..][..n])
  {
    assert chunks[..n + 1][1..] == chunks[1..][..n];
  }

  lemma {:induction false} JoinedGrows(chunks: seq<Bytes>, n: nat)
    requires n <= |chunks|
    ensures |Joined(chunks[..n])| <= |Joined(chunks)|
  {
    if n > 0 {
      JoinedHead(chunks, n - 1);
      JoinedGrows(chunks[1..], n - 1);
    }
  }

  /** A break behind the first chunk, seen from before it. */
  lemma BreakMoves(chunks: seq<Bytes>, body: Bytes, bytes: nat, n: nat)
    requires chunks != [] && BreaksAt(chunks[1..], body + chunks[0], bytes + |chunks[0]|, n)
    ensures BreaksAt(chunks, body, bytes, n + 1)
    ensures |Joined(chunks[..n + 2])| == |chunks[0]| + |Joined(chunks[1..][..n + 1])|
  {
    JoinedHead(chunks, n);
    JoinedHead(chunks, n + 1);
  }

  lemma {:induction false} DrainReads(chunks: seq<Bytes>, body: Bytes, bytes: nat)
    requires |body| <= MAX_DOCUMENT_BYTES && bytes <= MAX_RUN_BYTES
    ensures Read(chunks, body, bytes, Drain(chunks, body, bytes))
    decreases |chunks|
  {
    if chunks == [] {
      assert body + [] == body;
    } else {
      JoinedHead(chunks, 0);
      assert chunks[..0] == [] && chunks[1..][..0] == [];
      assert chunks[0] + [] == chunks[0];
      var body', bytes' := body + chunks[0], bytes + |chunks[0]|;
      if bytes' > MAX_RUN_BYTES || |body'| > MAX_DOCUMENT_BYTES {
        assert BreaksAt(chunks, body, bytes, 0);
      } else {
        DrainReads(chunks[1..], body', bytes');
        assert body' + Joined(chunks[1..]) == body + Joined(chunks);
        var d := Drain(chunks[1..], body', bytes');
        if !d.Drained? {
          var n: nat :| BreaksAt(chunks[1..], body', bytes', n) && d.bytes == bytes' + |Joined(chunks[1..][..n + 1])|;
          BreakMoves(chunks, body, bytes, n);
        }
      }
    }
  }

  /** The loop succeeds exactly when all chunks fit, and then hands over their bytes in order. A refusal names
    * the ceiling that the first chunk too many breaks, the run's before the document's.
    */
  lemma DrainMeaning(chunks: seq<Bytes>, body: Bytes, bytes: nat)
    requires |body| <= MAX_DOCUMENT_BYTES && bytes <= MAX_RUN_BYTES
    ensures Read(chunks, body, bytes, Drain(chunks, body, bytes))
    ensures Drain(chunks, body, bytes).Drained? <==> Within(body, bytes, chunks)
    ensures Within(body, bytes, chunks) ==>
      Drain(chunks, body, bytes) == Drained(body + Joined(chunks), bytes + |Joined(chunks)|)
  {
    DrainReads(chunks, body, bytes);
    if !Drain(chunks, body, bytes).Drained? {
      var n: nat :| BreaksAt(chunks, body, bytes, n);
      JoinedGrows(chunks, n + 1);
    }
  }

  // ---- a call that asks ----

  /** The source is neither stored, half stored nor deferred, and both budgets and the circuit allow a request. */
  ghost predicate Asks(w: Codec, s: Setup, c: Cache, url: Url) {
    && url !in c.deferred && c.failures < 3 && w.approved(url)
    && MetaFile(url) !in c.dir && BodyFile(url) !in c.dir
    && s.server.Some? && c.requests < s.maxRequests && c.bytes < MAX_RUN_BYTES
  }

  /** Nothing but the count of bytes has changed. */
  ghost predicate Leaves(c: Cache, total: nat, c': Cache) {
    c'.dir == c.dir && c'.used == c.used && c'.deferred == c.deferred && c'.failures == c.failures && c'.bytes == total
  }

  /** The source is put off for the rest of the run, with a receipt on disk. */
  ghost predicate Defers(w: Codec, c: Cache, url: Url, status: Option<int>, at: int, failures: nat, total: nat,
                         c': Cache, o: Outcome)
  {
    var receipt := Receipt(url, url, status, status.None?, Instant(at), false, false);
    var file := ReceiptFile(w.receiptBytes(receipt));
    && c'.used == c.used && c'.deferred == c.deferred[url := receipt] && c'.failures == failures && c'.bytes == total
    && (if file in c.dir then c'.dir == c.dir && o == Raised(FileExists)
        else c'.dir == c.dir[file := w.receiptBytes(receipt)] && o == Raised(Identity(TemporarilyUnavailable)))
  }

  /** The document was too long: its record says so. */
  ghost predicate StoresRefusal(w: Codec, c: Cache, url: Url, at: int, total: nat, c': Cache) {
    var meta := Meta(Some(url), true, None, None, Instant(at), "");
    && c'.dir == c.dir[MetaFile(url) := w.metaBytes(meta)] && c'.used == c.used[url := meta]
    && c'.deferred == c.deferred && c'.failures == c.failures && c'.bytes == total
  }

  /** The document and its record are stored. */
  ghost predicate StoresPair(w: Codec, c: Cache, url: Url, document: Bytes, at: int, c': Cache) {
    var meta := Meta(Some(url), false, Some(Digest(document)), Some(|document|), Instant(at), "");
    && c'.dir == c.dir[BodyFile(url) := document][MetaFile(url) := w.metaBytes(meta)]
    && c'.used == c.used[url := meta]
    && c'.deferred == c.deferred && c'.failures == 0 && c'.bytes == c.bytes + |document|
  }

  ghost predicate StreamAnswer(w: Codec, c: Cache, url: Url, chunks: seq<Bytes>, ending: Ending, at: int,
                               c': Cache, o: Outcome)
  {
    if !Within([], c.bytes, chunks) then
      exists n: nat :: BreaksAt(chunks, [], c.bytes, n) &&
        var total := c.bytes + |Joined(chunks[..n + 1])|;
        if total > MAX_RUN_BYTES then Leaves(c, total, c') && o == Raised(Identity(ResponseBudgetExhausted))
        else StoresRefusal(w, c, url, at, total, c') && o == Raised(Identity(DocumentByteBound))
    else
      var document := Joined(chunks);
      var total := c.bytes + |document|;
      match ending
      case TimedOut => Defers(w, c, url, None, at, c.failures + 1, total, c', o)
      case Broken => Leaves(c, total, c') && o == Raised(Transport)
      case Complete =>
        if document == [] then Leaves(c, total, c') && o == Raised(Identity(EmptySource))
        else StoresPair(w, c, url, document, at, c') && o == Payload(document)
  }

  /** What the call comes to, for each reply that a server can give. */
  ghost predicate ReplyAnswer(w: Codec, c: Cache, url: Url, reply: Reply, c': Cache, o: Outcome) {
    match reply.response
    case Status(code, retryAfter) =>
      if code == 500 || code == 502 || code == 503 || code == 504 then
        Defers(w, c, url, Some(code), reply.at, if retryAfter then 3 else c.failures + 1, c.bytes, c', o)
      else Leaves(c, c.bytes, c') && o == Raised(HttpStatus(code, retryAfter))
    case NoAnswer(timedOut) =>
      if timedOut then Defers(w, c, url, None, reply.at, c.failures + 1, c.bytes, c', o)
      else Leaves(c, c.bytes, c') && o == Raised(Transport)
    case Stream(chunks, ending) => StreamAnswer(w, c, url, chunks, ending, reply.at, c', o)
  }

  lemma StatusIsAnswered(w: Codec, s: Setup, c: Cache, url: Url)
    requires s.recorded.None? && Asks(w, s, c, url) && !s.server.value(c.requests).response.Stream?
    ensures var (c', o) := Get(w, s, c, url); ReplyAnswer(w, c, url, s.server.value(c.requests), c', o)
  {
    var (c1, got) := Download(w, s.server.value, c, url);
    assert Fetch(w, s, c, url) == (c1, Raised(got.error));
    assert c1 == Logged(c, url, c.bytes, c1.log[|c.log|].fate);
  }

  lemma OverflowIsAnswered(w: Codec, s: Setup, c: Cache, url: Url, chunks: seq<Bytes>, ending: Ending)
    requires s.recorded.None? && Asks(w, s, c, url) && s.server.value(c.requests).response == Stream(chunks, ending)
    requires !Within([], c.bytes, chunks)
    ensures var (c', o) := Get(w, s, c, url);
      StreamAnswer(w, c, url, chunks, ending, s.server.value(c.requests).at, c', o)
  {
    DrainMeaning(chunks, [], c.bytes);
    var d := Drain(chunks, [], c.bytes);
    var (c', o) := Get(w, s, c, url);
    if d.OverBudget? {
      assert Leaves(c, d.bytes, c') && o == Raised(Identity(ResponseBudgetExhausted));
    } else {
      assert StoresRefusal(w, c, url, s.server.value(c.requests).at, d.bytes, c');
      assert o == Raised(Identity(DocumentByteBound));
    }
  }

  lemma CutStreamIsAnswered(w: Codec, s: Setup, c: Cache, url: Url, chunks: seq<Bytes>, ending: Ending)
    requires s.recorded.None? && Asks(w, s, c, url) && s.server.value(c.requests).response == Stream(chunks, ending)
    requires Within([], c.bytes, chunks) && (ending != Complete || Joined(chunks) == [])
    ensures var (c', o) := Get(w, s, c, url);
      StreamAnswer(w, c, url, chunks, ending, s.server.value(c.requests).at, c', o)
  {
    DrainMeaning(chunks, [], c.bytes);
    assert [] + Joined(chunks) == Joined(chunks);
  }

  /** A pair that was just written passes its own check. */
  lemma FreshPairChecks(c: Cache, url: Url, document: Bytes, at: int)
    requires BodyFile(url) in c.dir && c.dir[BodyFile(url)] == document && 0 < |document| <= MAX_DOCUMENT_BYTES
    ensures var meta := FreshMeta(url, document, at);
      Check(c, url, meta) == (c.(used := c.used[url := meta]), Payload(document))
  {
  }

  /** The state once the document and its record are written. */
  function PairWritten(w: Codec, c: Cache, url: Url, document: Bytes, at: int): Cache {
    var c1 := Save(Logged(c, url, c.bytes + |document|, GavePayload), BodyFile(url), document);
    Save(c1, MetaFile(url), w.metaBytes(FreshMeta(url, document, at)))
  }

  lemma DocumentIsDownloaded(w: Codec, server: Server, c: Cache, url: Url, chunks: seq<Bytes>)
    requires c.bytes < MAX_RUN_BYTES && server(c.requests).response == Stream(chunks, Complete)
    requires Within([], c.bytes, chunks) && Joined(chunks) != []
    ensures var at := server(c.requests).at;
      Download(w, server, c, url)
        == (PairWritten(w, c, url, Joined(chunks), at), Ok(FreshMeta(url, Joined(chunks), at)))
  {
    DrainMeaning(chunks, [], c.bytes);
    assert [] + Joined(chunks) == Joined(chunks);
  }

  lemma DocumentIsFetched(w: Codec, s: Setup, c: Cache, url: Url, chunks: seq<Bytes>)
    requires Asks(w, s, c, url) && s.server.value(c.requests).response == Stream(chunks, Complete)
    requires Within([], c.bytes, chunks) && Joined(chunks) != []
    ensures var at := s.server.value(c.requests).at; var c2 := PairWritten(w, c, url, Joined(chunks), at);
      Fetch(w, s, c, url) == (c2.(used := c2.used[url := FreshMeta(url, Joined(chunks), at)]), Payload(Joined(chunks)))
  {
    var at := s.server.value(c.requests).at;
    DocumentIsDownloaded(w, s.server.value, c, url, chunks);
    FreshPairChecks(PairWritten(w, c, url, Joined(chunks), at), url, Joined(chunks), at);
  }

  lemma DocumentIsAnswered(w: Codec, s: Setup, c: Cache, url: Url, chunks: seq<Bytes>)
    requires s.recorded.None? && Asks(w, s, c, url) && s.server.value(c.requests).response == Stream(chunks, Complete)
    requires Within([], c.bytes, chunks) && Joined(chunks) != []
    ensures var (c', o) := Get(w, s, c, url);
      StoresPair(w, c, url, Joined(chunks), s.server.value(c.requests).at, c') && o == Payload(Joined(chunks))
  {
    DocumentIsFetched(w, s, c, url, chunks);
  }

  lemma StreamIsAnswered(w: Codec, s: Setup, c: Cache, url: Url)
    requires s.recorded.None? && Asks(w, s, c, url) && s.server.value(c.requests).response.Stream?
    ensures var (c', o) := Get(w, s, c, url); ReplyAnswer(w, c, url, s.server.value(c.requests), c', o)
  {
    var reply := s.server.value(c.requests);
    var chunks, ending := reply.response.chunks, reply.response.ending;
    if !Within([], c.bytes, chunks) {
      OverflowIsAnswered(w, s, c, url, chunks, ending);
    } else if ending != Complete || Joined(chunks) == [] {
      CutStreamIsAnswered(w, s, c, url, chunks, ending);
    } else {
      DocumentIsAnswered(w, s, c, url, chunks);
    }
  }

  /** A call makes a request exactly when all the guards allow one, and then its answer, its deferrals and its
    * files are those of the server's reply.
    */
  lemma AnswerMeaning(w: Codec, s: Setup, c: Cache, url: Url)
    requires s.recorded.None?
    ensures var (c', o) := Get(w, s, c, url);
      && c'.requests == c.requests + (if Asks(w, s, c, url) then 1 else 0)
      && (Asks(w, s, c, url) ==> ReplyAnswer(w, c, url, s.server.value(c.requests), c', o))
  {
    if Asks(w, s, c, url) {
      if s.server.value(c.requests).response.Stream? {
        StreamIsAnswered(w, s, c, url);
      } else {
        StatusIsAnswered(w, s, c, url);
      }
      RequestIsCounted(w, s, c, url);
    } else {
      NoRequest(w, s, c, url);
    }
  }

  lemma RequestIsCounted(w: Codec, s: Setup, c: Cache, url: Url)
    requires s.recorded.None? && Asks(w, s, c, url)
    ensures Get(w, s, c, url).0.requests == c.requests + 1
  {
    var fate, ws := FetchAsked(w, s, c, url);
  }

  lemma NoRequest(w: Codec, s: Setup, c: Cache, url: Url)
    requires s.recorded.None? && !Asks(w, s, c, url)
    ensures Quiet(c, Get(w, s, c, url).0)
  {
    if url !in c.deferred && c.failures < 3 { FetchQuiet(w, s, c, url); }
  }

  // ---- a call that does not ask ----

  /** The stored record of the source can be read, and is this one. */
  ghost predicate Records(w: Codec, c: Cache, url: Url, meta: Meta) {
    && MetaFile(url) in c.dir && 0 < |c.dir[MetaFile(url)]| <= MAX_META_BYTES
    && w.metaOf(c.dir[MetaFile(url)]) == Some(meta)
  }

  /** The record is of a document, not of a refusal, of this source. */
  predicate IsRefusal(meta: Meta, url: Url) {
    meta.url == Some(url) && meta.refusal
  }

  ghost predicate HasBody(c: Cache, url: Url) {
    BodyFile(url) in c.dir && 0 < |c.dir[BodyFile(url)]| <= MAX_DOCUMENT_BYTES
  }

  /** The record names its own source, and the digest and the length of the body beside it. */
  ghost predicate Matches(c: Cache, url: Url, meta: Meta)
    requires HasBody(c, url)
  {
    var body := c.dir[BodyFile(url)];
    meta.url == Some(url) && meta.sha256 == Some(Digest(body)) && meta.bytes == Some(|body|)
  }

  /** The answer from a record that can be read: what it says, checked against the body. */
  ghost predicate RecordAnswer(c: Cache, url: Url, meta: Meta, c': Cache, o: Outcome) {
    && (o.Payload? <==> !IsRefusal(meta, url) && HasBody(c, url) && Matches(c, url, meta) && meta.retrievedAt.Instant?)
    && (o.Payload? ==> o.body == c.dir[BodyFile(url)])
    && (o == Raised(Identity(DocumentByteBound)) <==> IsRefusal(meta, url) && meta.retrievedAt.Instant?)
    && (o == Raised(Identity(CacheTampered)) <==> !IsRefusal(meta, url) && HasBody(c, url) && !Matches(c, url, meta))
    && (o == Raised(Identity(InvalidTimestamp)) <==>
          meta.retrievedAt.NotAnInstant? && (IsRefusal(meta, url) || (HasBody(c, url) && Matches(c, url, meta))))
    && (o == Raised(FileMissing) <==> !IsRefusal(meta, url) && BodyFile(url) !in c.dir)
    && (o == Raised(FileBound) <==> !IsRefusal(meta, url) && BodyFile(url) in c.dir && !HasBody(c, url))
    && c' == if o.Payload? || o == Raised(Identity(DocumentByteBound)) then c.(used := c.used[url := meta]) else c
  }

  /** A stored record decides the answer. */
  lemma StoredAnswer(w: Codec, s: Setup, c: Cache, url: Url, meta: Meta)
    requires s.recorded.None? && url !in c.deferred && c.failures < 3 && w.approved(url) && Records(w, c, url, meta)
    ensures var (c', o) := Get(w, s, c, url); RecordAnswer(c, url, meta, c', o)
  {
  }

  /** A call that has no record to read and makes no request names the first reason against it. */
  ghost predicate GuardAnswer(w: Codec, s: Setup, c: Cache, url: Url, o: Outcome) {
    o == Raised(
      if url in c.deferred then Identity(DeferredThisRun)
      else if c.failures >= 3 then Identity(CircuitOpen)
      else if !w.approved(url) then Identity(UnapprovedSourceUrl)
      else if MetaFile(url) in c.dir then
        if 0 < |c.dir[MetaFile(url)]| <= MAX_META_BYTES then Malformed else FileBound
      else if BodyFile(url) in c.dir then Identity(IncompleteCachePair)
      else if s.server.None? then Identity(UncapturedSource)
      else Identity(RequestBudgetExhausted))
  }

  lemma GuardsAnswer(w: Codec, s: Setup, c: Cache, url: Url)
    requires s.recorded.None? && !Asks(w, s, c, url)
    requires url !in c.deferred && c.failures < 3 && w.approved(url) ==> forall meta :: !Records(w, c, url, meta)
    ensures var (c', o) := Get(w, s, c, url); c' == c && GuardAnswer(w, s, c, url, o)
  {
    if url !in c.deferred && c.failures < 3 && w.approved(url) && MetaFile(url) in c.dir {
      if w.metaOf(c.dir[MetaFile(url)]).Some? {
        assert !Records(w, c, url, w.metaOf(c.dir[MetaFile(url)]).value);
      }
    }
  }

  // ---- a recorded failure in a replay ----

  /** A failure that the live run can have recorded: of this source, with one of four statuses or a timeout. */
  ghost predicate CanHappen(url: Url, r: Receipt) {
    && r.url == url == r.sourceUrl && !r.bodyRetained && !r.retried && r.observedAt.Instant?
    && (r.status in {Some(500), Some(502), Some(503), Some(504)} <==> !r.timeout) && (r.timeout ==> r.status.None?)
  }

  /** A replay reproduces a recorded failure exactly when the record is genuine and its receipt is on disk; all
    * else that it can say of such a source ends the replay.
    */
  lemma RecordedFailureAnswer(w: Codec, recorded: map<Url, Receipt>, r: Cache, url: Url)
    requires url in recorded && url !in r.deferred
    ensures var (r', o) := Get(w, Replaying(recorded), r, url);
      var content := w.receiptBytes(recorded[url]);
      && (o == Raised(Identity(TemporarilyUnavailable)) <==>
            CanHappen(url, recorded[url]) && ReceiptFile(content) in r.dir && r.dir[ReceiptFile(content)] == content
            && 0 < |content| <= MAX_RECEIPT_BYTES)
      && o.Raised? && (o != Raised(Identity(TemporarilyUnavailable)) ==> r' == r)
      && (o == Raised(Identity(TemporarilyUnavailable)) ==> r' == r.(deferred := r.deferred[url := recorded[url]]))
      && o != Raised(Identity(DocumentByteBound)) && o != Raised(Identity(DeferredThisRun))
  {
  }
}
