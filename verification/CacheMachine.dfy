/** `SourceCache` and its subclass `ReplayCache` as a machine on values.
  *
  * One `Get` is one call of `get`. A live cache has a server, an offline cache has none,
  * and a replay cache has none but carries the recorded failures of the run it replays.
  */
module CacheMachine {
  import opened Common
  import opened SourceTypes

  datatype Setup = Setup(maxRequests: nat, server: Option<Server>, recorded: Option<map<Url, Receipt>>)

  /** How a request that reached the network ended. */
  datatype Fate = GavePayload | TooLarge | Transient(retryAfter: bool) | OtherFate

  datatype Request = Request(url: Url, bytesBefore: nat, fate: Fate)

  datatype Write = Write(name: FileName, content: Bytes)

  /** `log` and `writes` are the history of the run; the program does not read them. */
  datatype Cache = Cache(dir: Directory, requests: nat, bytes: nat, failures: nat,
                         used: map<Url, Meta>, deferred: map<Url, Receipt>,
                         log: seq<Request>, writes: seq<Write>)

  function Fresh(dir: Directory): Cache {
    Cache(dir, 0, 0, 0, map[], map[], [], [])
  }

  function Save(c: Cache, name: FileName, content: Bytes): Cache {
    c.(dir := c.dir[name := content], writes := c.writes + [Write(name, content)])
  }

  datatype Drained = OverBudget(bytes: nat) | OverSize(bytes: nat) | Drained(body: Bytes, bytes: nat)

  /** The chunk loop of `_get`: the run ceiling is tested before the document ceiling. */
  function Drain(chunks: seq<Bytes>, body: Bytes, bytes: nat): Drained {
    if chunks == [] then Drained(body, bytes)
    else
      var body' := body + chunks[0];
      var bytes' := bytes + |chunks[0]|;
      if bytes' > MAX_RUN_BYTES then OverBudget(bytes')
      else if |body'| > MAX_DOCUMENT_BYTES then OverSize(bytes')
      else Drain(chunks[1..], body', bytes')
  }

  function FreshMeta(url: Url, payload: Bytes, at: int): Meta {
    Meta(Some(url), false, Some(Digest(payload)), Some(|payload|), Instant(at), "")
  }

  function RefusalMeta(url: Url, at: int): Meta {
    Meta(Some(url), true, None, None, Instant(at), "")
  }

  function Logged(c: Cache, url: Url, bytes: nat, fate: Fate): Cache {
    c.(requests := c.requests + 1, bytes := bytes,
       log := c.log + [Request(url, c.bytes, fate)])
  }

  /** The network half of `_get`: one request, and the two writes of a captured pair. */
  function Download(w: Codec, server: Server, c: Cache, url: Url): (Cache, Result<Meta, Error>) {
    var reply := server(c.requests);
    match reply.response
    case Status(code, retryAfter) =>
      var fate := if code in TRANSIENT_STATUSES then Transient(retryAfter) else OtherFate;
      (Logged(c, url, c.bytes, fate), Err(HttpStatus(code, retryAfter)))
    case NoAnswer(timedOut) =>
      (Logged(c, url, c.bytes, if timedOut then Transient(false) else OtherFate),
       Err(if timedOut then Timeout else Transport))
    case Stream(chunks, ending) =>
      match Drain(chunks, [], c.bytes)
      case OverBudget(bytes) =>
        (Logged(c, url, bytes, OtherFate), Err(Identity(ResponseBudgetExhausted)))
      case OverSize(bytes) =>
        var meta := RefusalMeta(url, reply.at);
        var c' := Save(Logged(c, url, bytes, TooLarge), MetaFile(url), w.metaBytes(meta));
        (c'.(used := c'.used[url := meta]), Err(Identity(DocumentByteBound)))
      case Drained(body, bytes) =>
        if ending == TimedOut then (Logged(c, url, bytes, Transient(false)), Err(Timeout))
        else if ending == Broken then (Logged(c, url, bytes, OtherFate), Err(Transport))
        else if body == [] then (Logged(c, url, bytes, OtherFate), Err(Identity(EmptySource)))
        else
          var meta := FreshMeta(url, body, reply.at);
          var c1 := Save(Logged(c, url, bytes, GavePayload), BodyFile(url), body);
          (Save(c1, MetaFile(url), w.metaBytes(meta)), Ok(meta))
  }

  /** The verifying half of `_get`, run on stored and on fresh pairs alike. */
  function Check(c: Cache, url: Url, meta: Meta): (Cache, Outcome) {
    if meta.url == Some(url) && meta.refusal then
      if meta.retrievedAt.NotAnInstant? then (c, Raised(Identity(InvalidTimestamp)))
      else (c.(used := c.used[url := meta]), Raised(Identity(DocumentByteBound)))
    else
      match ReadFile(c.dir, BodyFile(url), MAX_DOCUMENT_BYTES)
      case Err(error) => (c, Raised(error))
      case Ok(payload) =>
        if meta.url != Some(url) || meta.sha256 != Some(Digest(payload)) || meta.bytes != Some(|payload|) then
          (c, Raised(Identity(CacheTampered)))
        else if meta.retrievedAt.NotAnInstant? then (c, Raised(Identity(InvalidTimestamp)))
        else (c.(used := c.used[url := meta]), Payload(payload))
  }

  /** `SourceCache._get`. */
  function Fetch(w: Codec, s: Setup, c: Cache, url: Url): (Cache, Outcome) {
    if !w.approved(url) then (c, Raised(Identity(UnapprovedSourceUrl)))
    else if MetaFile(url) in c.dir then
      match ReadFile(c.dir, MetaFile(url), MAX_META_BYTES)
      case Err(error) => (c, Raised(error))
      case Ok(content) =>
        (match w.metaOf(content)
         case None => (c, Raised(Malformed))
         case Some(meta) => Check(c, url, meta))
    else if BodyFile(url) in c.dir then (c, Raised(Identity(IncompleteCachePair)))
    else if s.server.None? then (c, Raised(Identity(UncapturedSource)))
    else if c.requests >= s.maxRequests || c.bytes >= MAX_RUN_BYTES then
      (c, Raised(Identity(RequestBudgetExhausted)))
    else
      var (c', got) := Download(w, s.server.value, c, url);
      match got
      case Err(error) => (c', Raised(error))
      case Ok(meta) => Check(c', url, meta)
  }

  predicate IsTransient(e: Error) {
    e.Timeout? || (e.HttpStatus? && e.status in TRANSIENT_STATUSES)
  }

  function FailureReceipt(url: Url, e: Error, at: int): Receipt
    requires IsTransient(e)
  {
    Receipt(url, url, if e.HttpStatus? then Some(e.status) else None, e.Timeout?, Instant(at), false, false)
  }

  /** `SourceCache.get`: deferral, the circuit breaker, and the receipt of a transient failure. */
  function LiveGet(w: Codec, s: Setup, c: Cache, url: Url): (Cache, Outcome) {
    if url in c.deferred then (c, Raised(Identity(DeferredThisRun)))
    else if c.failures >= 3 then (c, Raised(Identity(CircuitOpen)))
    else
      var (c', o) := Fetch(w, s, c, url);
      match o
      case Payload(_) => (if c'.requests > c.requests then c'.(failures := 0) else c', o)
      case Raised(e) =>
        if !IsTransient(e) || s.server.None? then (c', o)
        else
          var failures := if e.HttpStatus? && e.retryAfter then 3 else c'.failures + 1;
          var receipt := FailureReceipt(url, e, s.server.value(c.requests).at);
          var encoded := w.receiptBytes(receipt);
          var c2 := c'.(failures := failures, deferred := c'.deferred[url := receipt]);
          if ReceiptFile(encoded) in c2.dir then (c2, Raised(FileExists))
          else (Save(c2, ReceiptFile(encoded), encoded), Raised(Identity(TemporarilyUnavailable)))
  }

  predicate WellFormedReceipt(url: Url, r: Receipt) {
    && r.url == url && r.sourceUrl == url && !r.bodyRetained && !r.retried
    && (if r.status.Some? then r.status.value in TRANSIENT_STATUSES && !r.timeout else r.timeout)
  }

  /** `ReplayCache.get`: a recorded failure is reproduced from its receipt file. */
  function ReplayGet(w: Codec, s: Setup, recorded: map<Url, Receipt>, c: Cache, url: Url): (Cache, Outcome) {
    if url !in recorded then LiveGet(w, s, c, url)
    else if url in c.deferred then (c, Raised(Identity(DeferredThisRun)))
    else
      var receipt := recorded[url];
      if !WellFormedReceipt(url, receipt) then (c, Raised(Identity(InvalidRecordedFailure)))
      else if receipt.observedAt.NotAnInstant? then (c, Raised(Identity(InvalidTimestamp)))
      else
        var encoded := w.receiptBytes(receipt);
        match ReadFile(c.dir, ReceiptFile(encoded), MAX_RECEIPT_BYTES)
        case Err(error) => (c, Raised(error))
        case Ok(content) =>
          if content != encoded then (c, Raised(Identity(ReceiptChanged)))
          else (c.(deferred := c.deferred[url := receipt]), Raised(Identity(TemporarilyUnavailable)))
  }

  /** Dynamic dispatch between the class and its subclass. */
  function Get(w: Codec, s: Setup, c: Cache, url: Url): (Cache, Outcome) {
    match s.recorded
    case None => LiveGet(w, s, c, url)
    case Some(recorded) => ReplayGet(w, s, recorded, c, url)
  }
}
