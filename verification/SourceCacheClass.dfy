/** The cache as the program has it: an object whose fields every call updates in place. */
module SourceCacheClass {
  import opened Common
  import opened SourceTypes
  import opened CacheMachine
  import CacheAnswers

  /** The capture directory: files are created once and never replaced. */
  class Disk {
    var files: Directory

    constructor (files: Directory)
      ensures this.files == files
    {
      this.files := files;
    }

    /** `_write_new` opens with O_EXCL. */
    method WriteNew(name: FileName, content: Bytes) returns (ok: bool)
      modifies this
      ensures ok == (name !in old(files))
      ensures files == if ok then old(files)[name := content] else old(files)
    {
      ok := name !in files;
      if ok { files := files[name := content]; }
    }
  }

  /** The output directory of the command, null until it is created. */
  class Place {
    var directory: Disk?

    constructor (directory: Disk?)
      ensures this.directory == directory
    {
      this.directory := directory;
    }

    ghost function Contents(): Option<Directory>
      reads this, directory
    {
      if directory == null then None else Some(directory.files)
    }

    /** `_capture_directory` with `create`. */
    method Create() returns (disk: Disk)
      requires directory == null
      modifies this
      ensures fresh(disk) && directory == disk && disk.files == map[]
    {
      disk := new Disk(map[]);
      directory := disk;
    }
  }

  /** `SourceCache` when `setup.recorded` is None, its subclass `ReplayCache` otherwise. */
  class SourceCache {
    const codec: Codec
    const setup: Setup
    const disk: Disk
    var requests: nat
    var bytes: nat
    var failures: nat
    var used: map<Url, Meta>
    var deferred: map<Url, Receipt>
    ghost var log: seq<Request>
    ghost var writes: seq<Write>

    constructor (codec: Codec, setup: Setup, disk: Disk)
      ensures this.codec == codec && this.setup == setup && this.disk == disk
      ensures State() == Fresh(disk.files)
    {
      this.codec, this.setup, this.disk := codec, setup, disk;
      requests, bytes, failures, used, deferred := 0, 0, 0, map[], map[];
      log, writes := [], [];
    }

    ghost function State(): Cache
      reads this, disk
    {
      Cache(disk.files, requests, bytes, failures, used, deferred, log, writes)
    }

    /** The chunk loop of one answer. */
    method ReadChunks(chunks: seq<Bytes>) returns (d: Drained)
      modifies this`bytes
      ensures d == Drain(chunks, [], old(bytes)) && bytes == d.bytes
      ensures old(bytes) <= MAX_RUN_BYTES ==>
        if CacheAnswers.Within([], old(bytes), chunks) then
          d == Drained(CacheAnswers.Joined(chunks), old(bytes) + |CacheAnswers.Joined(chunks)|)
        else !d.Drained?
    {
      if bytes <= MAX_RUN_BYTES { CacheAnswers.DrainMeaning(chunks, [], bytes); }
      var body: Bytes := [];
      for i := 0 to |chunks|
        invariant Drain(chunks, [], old(bytes)) == Drain(chunks[i..], body, bytes)
      {
        assert chunks[i..][1..] == chunks[i + 1..];
        body := body + chunks[i];
        bytes := bytes + |chunks[i]|;
        if bytes > MAX_RUN_BYTES { return OverBudget(bytes); }
        if |body| > MAX_DOCUMENT_BYTES { return OverSize(bytes); }
      }
      return Drained(body, bytes);
    }

    /** Reads the answer of one request and stores the pair, or the refusal of an oversized document. */
    method Download(server: Server, url: Url) returns (got: Result<Meta, Error>)
      requires MetaFile(url) !in disk.files && BodyFile(url) !in disk.files
      modifies this, disk
      ensures (State(), got) == CacheMachine.Download(codec, server, old(State()), url)
    {
      var reply := server(requests);
      ghost var before := bytes;
      requests := requests + 1;
      match reply.response {
        case Status(code, retryAfter) =>
          log := log + [Request(url, before, if code in TRANSIENT_STATUSES then Transient(retryAfter) else OtherFate)];
          return Err(HttpStatus(code, retryAfter));
        case NoAnswer(timedOut) =>
          log := log + [Request(url, before, if timedOut then Transient(false) else OtherFate)];
          return Err(if timedOut then Timeout else Transport);
        case Stream(chunks, ending) =>
          var d := ReadChunks(chunks);
          if d.OverBudget? {
            log := log + [Request(url, before, OtherFate)];
            return Err(Identity(ResponseBudgetExhausted));
          }
          if d.OverSize? {
            var meta := RefusalMeta(url, reply.at);
            var _ := disk.WriteNew(MetaFile(url), codec.metaBytes(meta));
            log := log + [Request(url, before, TooLarge)];
            writes := writes + [Write(MetaFile(url), codec.metaBytes(meta))];
            used := used[url := meta];
            return Err(Identity(DocumentByteBound));
          }
          if ending == TimedOut {
            log := log + [Request(url, before, Transient(false))];
            return Err(Timeout);
          }
          if ending == Broken {
            log := log + [Request(url, before, OtherFate)];
            return Err(Transport);
          }
          if d.body == [] {
            log := log + [Request(url, before, OtherFate)];
            return Err(Identity(EmptySource));
          }
          var meta := FreshMeta(url, d.body, reply.at);
          var _ := disk.WriteNew(BodyFile(url), d.body);
          var _ := disk.WriteNew(MetaFile(url), codec.metaBytes(meta));
          log := log + [Request(url, before, GavePayload)];
          writes := (writes + [Write(BodyFile(url), d.body)]) + [Write(MetaFile(url), codec.metaBytes(meta))];
          return Ok(meta);
      }
    }

    /** Verifies a record against its URL and body before anything is returned. */
    method Check(url: Url, meta: Meta) returns (o: Outcome)
      modifies this`used
      ensures (State(), o) == CacheMachine.Check(old(State()), url, meta)
    {
      if meta.url == Some(url) && meta.refusal {
        if meta.retrievedAt.NotAnInstant? { return Raised(Identity(InvalidTimestamp)); }
        used := used[url := meta];
        return Raised(Identity(DocumentByteBound));
      }
      var read := ReadFile(disk.files, BodyFile(url), MAX_DOCUMENT_BYTES);
      if read.Err? { return Raised(read.error); }
      var payload := read.value;
      if meta.url != Some(url) || meta.sha256 != Some(Digest(payload)) || meta.bytes != Some(|payload|) {
        return Raised(Identity(CacheTampered));
      }
      if meta.retrievedAt.NotAnInstant? { return Raised(Identity(InvalidTimestamp)); }
      used := used[url := meta];
      return Payload(payload);
    }

    /** `_get` */
    method Fetch(url: Url) returns (o: Outcome)
      modifies this, disk
      ensures (State(), o) == CacheMachine.Fetch(codec, setup, old(State()), url)
    {
      if !codec.approved(url) { return Raised(Identity(UnapprovedSourceUrl)); }
      var meta;
      if MetaFile(url) in disk.files {
        var read := ReadFile(disk.files, MetaFile(url), MAX_META_BYTES);
        if read.Err? { return Raised(read.error); }
        var decoded := codec.metaOf(read.value);
        if decoded.None? { return Raised(Malformed); }
        meta := decoded.value;
      } else {
        if BodyFile(url) in disk.files { return Raised(Identity(IncompleteCachePair)); }
        if setup.server.None? { return Raised(Identity(UncapturedSource)); }
        if requests >= setup.maxRequests || bytes >= MAX_RUN_BYTES { return Raised(Identity(RequestBudgetExhausted)); }
        var got := Download(setup.server.value, url);
        if got.Err? { return Raised(got.error); }
        meta := got.value;
      }
      o := Check(url, meta);
    }

    /** `SourceCache.get` */
    method LiveGet(url: Url) returns (o: Outcome)
      modifies this, disk
      ensures (State(), o) == CacheMachine.LiveGet(codec, setup, old(State()), url)
    {
      if url in deferred { return Raised(Identity(DeferredThisRun)); }
      if failures >= 3 { return Raised(Identity(CircuitOpen)); }
      var previous := requests;
      o := Fetch(url);
      if o.Payload? {
        if requests > previous { failures := 0; }
        return;
      }
      if !IsTransient(o.error) || setup.server.None? { return; }
      failures := failures + 1;
      if o.error.HttpStatus? && o.error.retryAfter { failures := 3; }
      var receipt := FailureReceipt(url, o.error, setup.server.value(previous).at);
      deferred := deferred[url := receipt];
      var encoded := codec.receiptBytes(receipt);
      var ok := disk.WriteNew(ReceiptFile(encoded), encoded);
      if !ok { return Raised(FileExists); }
      writes := writes + [Write(ReceiptFile(encoded), encoded)];
      return Raised(Identity(TemporarilyUnavailable));
    }

    /** `get`, as overridden by `ReplayCache` when failures are recorded. */
    method Get(url: Url) returns (o: Outcome)
      modifies this, disk
      ensures (State(), o) == CacheMachine.Get(codec, setup, old(State()), url)
    {
      if setup.recorded.None? || url !in setup.recorded.value {
        o := LiveGet(url);
        return;
      }
      if url in deferred { return Raised(Identity(DeferredThisRun)); }
      var receipt := setup.recorded.value[url];
      if !WellFormedReceipt(url, receipt) { return Raised(Identity(InvalidRecordedFailure)); }
      if receipt.observedAt.NotAnInstant? { return Raised(Identity(InvalidTimestamp)); }
      var encoded := codec.receiptBytes(receipt);
      var read := ReadFile(disk.files, ReceiptFile(encoded), MAX_RECEIPT_BYTES);
      if read.Err? { return Raised(read.error); }
      if read.value != encoded { return Raised(Identity(ReceiptChanged)); }
      deferred := deferred[url := receipt];
      return Raised(Identity(TemporarilyUnavailable));
    }
  }
}
