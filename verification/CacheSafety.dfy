/** What every call of `get` keeps, for an arbitrary adaptive client, an arbitrary server
  * and an arbitrary (even tampered) directory.
  */
module CacheSafety {
  import opened Common
  import opened SourceTypes
  import opened CacheMachine

  /** A program that fetches sources: it stops with a result, raises an error of its own, or
    * asks for a URL and continues according to what the call returned or raised.
    */
  datatype Client<R> = Done(result: R) | Fail(error: Error) | Ask(url: Url, next: imap<Outcome, Client<R>>)

  /** Runs a client; an outcome that the client does not handle ends the run and propagates. */
  ghost function Run<R>(w: Codec, s: Setup, c: Cache, client: Client<R>): (Cache, Result<R, Outcome>)
    decreases client
  {
    match client
    case Done(r) => (c, Ok(r))
    case Fail(e) => (c, Err(Raised(e)))
    case Ask(url, next) =>
      var (c', o) := Get(w, s, c, url);
      if o in next then Run(w, s, c', next[o]) else (c', Err(o))
  }

  /** The source is on disk, half on disk, or deferred: it is never requested again. */
  ghost predicate Settled(c: Cache, url: Url) {
    MetaFile(url) in c.dir || BodyFile(url) in c.dir || url in c.deferred
  }

  predicate Settles(fate: Fate) {
    fate != OtherFate
  }

  ghost predicate BudgetsKept(s: Setup, c: Cache) {
    && c.requests == |c.log| <= s.maxRequests
    && c.failures == Streak(c.log)
    && forall i :: 0 <= i < |c.log| ==> c.log[i].bytesBefore < MAX_RUN_BYTES && Streak(c.log[..i]) < 3
  }

  /** A payload resets the count, a transient failure adds one, and a Retry-After header
    * makes it three. A size refusal or any other failure neither counts nor resets.
    */
  function Next(failures: nat, fate: Fate): nat {
    match fate
    case GavePayload => 0
    case Transient(retryAfter) => if retryAfter then 3 else failures + 1
    case _ => failures
  }

  function Streak(log: seq<Request>): nat {
    if log == [] then 0 else Next(Streak(log[..|log| - 1]), log[|log| - 1].fate)
  }

  /** Requests that settled a source are final, and a deferred source has no record on disk. */
  ghost predicate NoRepeats(c: Cache) {
    && (forall i :: 0 <= i < |c.log| && Settles(c.log[i].fate) ==> Settled(c, c.log[i].url))
    && (forall i, j :: 0 <= i < j < |c.log| && Settles(c.log[i].fate) ==> c.log[i].url != c.log[j].url)
    && (forall url :: url in c.deferred ==> MetaFile(url) !in c.dir && BodyFile(url) !in c.dir)
  }

  ghost predicate Safe(s: Setup, c: Cache) {
    BudgetsKept(s, c) && NoRepeats(c)
  }

  /** Everything a later state keeps of an earlier one of the same run. */
  ghost predicate Extends(c: Cache, c': Cache) {
    && Submap(c.dir, c'.dir)
    && Submap(c.deferred, c'.deferred)
    && c.log <= c'.log
    && c.writes <= c'.writes
    && c.used.Keys <= c'.used.Keys
  }

  /** The call stayed off the network: only `used` may have grown. */
  ghost predicate Quiet(c: Cache, c': Cache) {
    c' == c.(used := c'.used) && c.used.Keys <= c'.used.Keys
  }

  /** What a request writes: the body and then its record, a refusal record, a failure
    * receipt, or nothing.
    */
  ghost predicate WritesOf(w: Codec, url: Url, fate: Fate, ws: seq<Write>) {
    match fate
    case GavePayload =>
      && |ws| == 2 && ws[0].name == BodyFile(url) && ws[1].name == MetaFile(url)
      && 0 < |ws[0].content| <= MAX_DOCUMENT_BYTES
      && exists at :: ws[1].content == w.metaBytes(FreshMeta(url, ws[0].content, at))
    case TooLarge =>
      && |ws| == 1 && ws[0].name == MetaFile(url)
      && exists at :: ws[0].content == w.metaBytes(RefusalMeta(url, at))
    case Transient(_) => ws == [] || (|ws| == 1 && ws[0].name.ReceiptFile?)
    case OtherFate => ws == []
  }

  function Apply(dir: Directory, ws: seq<Write>): Directory {
    if ws == [] then dir else Apply(dir, ws[..|ws| - 1])[ws[|ws| - 1].name := ws[|ws| - 1].content]
  }

  predicate FreshNames(dir: Directory, ws: seq<Write>) {
    forall i :: 0 <= i < |ws| ==> ws[i].name !in dir
  }

  /** The call made one request, ending with `fate` and writing `ws`. */
  ghost predicate Asked(w: Codec, c: Cache, c': Cache, url: Url, fate: Fate, ws: seq<Write>) {
    && !Settled(c, url)
    && c.bytes < MAX_RUN_BYTES && c.failures < 3
    && c'.requests == c.requests + 1
    && c'.failures == Next(c.failures, fate)
    && c'.log == c.log + [Request(url, c.bytes, fate)]
    && c'.writes == c.writes + ws && c'.dir == Apply(c.dir, ws) && FreshNames(c.dir, ws)
    && WritesOf(w, url, fate, ws)
    && c.used.Keys <= c'.used.Keys
    && (if fate.Transient? then url in c'.deferred && c'.deferred == c.deferred[url := c'.deferred[url]]
        else c'.deferred == c.deferred)
  }

  lemma CheckStep(c: Cache, url: Url, meta: Meta)
    ensures Quiet(c, Check(c, url, meta).0)
  {
  }

  lemma ApplyTwo(dir: Directory, a: Write, b: Write)
    ensures Apply(dir, []) == dir
    ensures Apply(dir, [a]) == dir[a.name := a.content]
    ensures Apply(dir, [a, b]) == dir[a.name := a.content][b.name := b.content]
  {
    assert [a][..0] == [] && [a, b][..1] == [a];
  }

  /** The shape of a state after one request, before a failure is recorded. */
  ghost predicate Requested(c: Cache, c': Cache, url: Url, fate: Fate, ws: seq<Write>) {
    && c' == c.(dir := Apply(c.dir, ws), requests := c.requests + 1, bytes := c'.bytes, used := c'.used,
                log := c.log + [Request(url, c.bytes, fate)], writes := c.writes + ws)
    && FreshNames(c.dir, ws) && c.used.Keys <= c'.used.Keys
  }

  lemma SaveStep(c: Cache, c': Cache, url: Url, bytes: nat, fate: Fate, name: FileName, content: Bytes)
    requires name !in c.dir && c' == Save(Logged(c, url, bytes, fate), name, content)
    ensures Requested(c, c', url, fate, [Write(name, content)])
  {
    ApplyTwo(c.dir, Write(name, content), Write(name, content));
  }

  lemma SavePairStep(c: Cache, c': Cache, url: Url, bytes: nat, fate: Fate, a: Write, b: Write)
    requires a.name !in c.dir && b.name !in c.dir
    requires c' == Save(Save(Logged(c, url, bytes, fate), a.name, a.content), b.name, b.content)
    ensures Requested(c, c', url, fate, [a, b])
  {
    ApplyTwo(c.dir, a, b);
    assert (c.writes + [a]) + [b] == c.writes + [a, b];
  }

  predicate HoldsOff(e: Error) {
    e.HttpStatus? && e.retryAfter
  }

  lemma DrainedFits(chunks: seq<Bytes>, body: Bytes, bytes: nat)
    requires |body| <= MAX_DOCUMENT_BYTES
    ensures Drain(chunks, body, bytes).Drained? ==> |Drain(chunks, body, bytes).body| <= MAX_DOCUMENT_BYTES
  {
  }

  lemma DownloadStep(w: Codec, server: Server, c: Cache, url: Url) returns (fate: Fate, ws: seq<Write>)
    requires !Settled(c, url)
    ensures Requested(c, Download(w, server, c, url).0, url, fate, ws)
    ensures WritesOf(w, url, fate, ws) && (fate.Transient? ==> ws == [])
    ensures Download(w, server, c, url).1.Ok? <==> fate == GavePayload
    ensures fate.Transient? <==> Download(w, server, c, url).1.Err? && IsTransient(Download(w, server, c, url).1.error)
    ensures fate.Transient? ==> fate.retryAfter == HoldsOff(Download(w, server, c, url).1.error)
    ensures fate == GavePayload ==> var meta := Download(w, server, c, url).1.value;
      && ws[0].content != [] && |ws[0].content| <= MAX_DOCUMENT_BYTES
      && meta == FreshMeta(url, ws[0].content, server(c.requests).at) && ws[1].content == w.metaBytes(meta)
  {
    var (c', got) := Download(w, server, c, url);
    var reply := server(c.requests);
    assert c.writes + [] == c.writes;
    if reply.response.Stream? {
      match Drain(reply.response.chunks, [], c.bytes) {
        case OverBudget(bytes) =>
          fate, ws := OtherFate, [];
        case OverSize(bytes) =>
          var content := w.metaBytes(RefusalMeta(url, reply.at));
          fate, ws := TooLarge, [Write(MetaFile(url), content)];
          SaveStep(c, Save(Logged(c, url, bytes, TooLarge), MetaFile(url), content), url, bytes, fate, MetaFile(url),
                   content);
        case Drained(body, bytes) =>
          if got.Ok? {
            fate := GavePayload;
            DrainedFits(reply.response.chunks, [], c.bytes);
            var a, b := Write(BodyFile(url), body), Write(MetaFile(url), w.metaBytes(got.value));
            ws := [a, b];
            SavePairStep(c, c', url, bytes, fate, a, b);
          } else {
            fate, ws := if reply.response.ending == TimedOut then Transient(false) else OtherFate, [];
          }
      }
    } else {
      fate, ws := c'.log[|c.log|].fate, [];
    }
  }

  /** `_get` reaches the network only within both budgets and for an unsettled URL. */
  predicate Reaches(w: Codec, s: Setup, c: Cache, url: Url) {
    && w.approved(url) && MetaFile(url) !in c.dir && BodyFile(url) !in c.dir
    && s.server.Some? && c.requests < s.maxRequests && c.bytes < MAX_RUN_BYTES
  }

  lemma FetchQuiet(w: Codec, s: Setup, c: Cache, url: Url)
    requires !Reaches(w, s, c, url)
    ensures Quiet(c, Fetch(w, s, c, url).0)
    ensures Fetch(w, s, c, url).1.Raised? ==> !IsTransient(Fetch(w, s, c, url).1.error)
  {
  }

  lemma FetchAsked(w: Codec, s: Setup, c: Cache, url: Url) returns (fate: Fate, ws: seq<Write>)
    requires Reaches(w, s, c, url) && url !in c.deferred
    ensures var (c', o) := Fetch(w, s, c, url);
      && Requested(c, c', url, fate, ws) && WritesOf(w, url, fate, ws) && (fate.Transient? ==> ws == [])
      && (fate.Transient? <==> o.Raised? && IsTransient(o.error))
      && (fate.Transient? ==> fate.retryAfter == HoldsOff(o.error))
      && (o.Payload? <==> fate == GavePayload)
  {
    fate, ws := DownloadStep(w, s.server.value, c, url);
    var (c1, got) := Download(w, s.server.value, c, url);
    if got.Ok? {
      CheckStep(c1, url, got.value);
      ApplyTwo(c.dir, ws[0], ws[1]);
    }
  }

  /** One call of `get` either stays off the network or makes exactly one lawful request. */
  lemma LiveGetStep(w: Codec, s: Setup, c: Cache, url: Url) returns (asked: bool, fate: Fate, ws: seq<Write>)
    ensures var c' := LiveGet(w, s, c, url).0;
      if asked then Asked(w, c, c', url, fate, ws) && c.requests < s.maxRequests && s.server.Some? else Quiet(c, c')
  {
    asked, fate, ws := false, OtherFate, [];
    if url !in c.deferred && c.failures < 3 {
      asked := Reaches(w, s, c, url);
      if !asked {
        FetchQuiet(w, s, c, url);
      } else {
        fate, ws := FetchAsked(w, s, c, url);
        var (c1, o) := Fetch(w, s, c, url);
        if fate.Transient? {
          var encoded := w.receiptBytes(FailureReceipt(url, o.error, s.server.value(c.requests).at));
          ApplyTwo(c.dir, Write(ReceiptFile(encoded), encoded), Write(ReceiptFile(encoded), encoded));
          assert c.writes + [] == c.writes;
          if ReceiptFile(encoded) !in c.dir {
            ws := [Write(ReceiptFile(encoded), encoded)];
          }
        }
      }
    }
  }

  lemma ApplyKeeps(dir: Directory, ws: seq<Write>)
    requires FreshNames(dir, ws)
    ensures Submap(dir, Apply(dir, ws))
    ensures forall n :: n in Apply(dir, ws) <==> n in dir || exists i :: 0 <= i < |ws| && ws[i].name == n
  {
    if ws != [] {
      var rest := ws[..|ws| - 1];
      ApplyKeeps(dir, rest);
      assert ws == rest + [ws[|ws| - 1]];
    }
  }

  lemma AskedKeepsBudgets(w: Codec, s: Setup, c: Cache, c': Cache, url: Url, fate: Fate, ws: seq<Write>)
    requires BudgetsKept(s, c) && Asked(w, c, c', url, fate, ws) && c.requests < s.maxRequests
    ensures BudgetsKept(s, c')
  {
    assert c'.log[..|c'.log| - 1] == c.log;
    forall i | 0 <= i < |c'.log|
      ensures c'.log[i].bytesBefore < MAX_RUN_BYTES && Streak(c'.log[..i]) < 3
    {
      assert c'.log[..i] == c.log[..i];
      assert c.log[..|c.log|] == c.log;
    }
  }

  /** A request touches only the files of its own URL, and settles it if its fate says so. */
  lemma AskedFiles(w: Codec, c: Cache, c': Cache, url: Url, fate: Fate, ws: seq<Write>)
    requires Asked(w, c, c', url, fate, ws)
    ensures Submap(c.dir, c'.dir) && Submap(c.deferred, c'.deferred)
    ensures forall u :: u != url ==>
      (MetaFile(u) in c'.dir <==> MetaFile(u) in c.dir) && (BodyFile(u) in c'.dir <==> BodyFile(u) in c.dir)
    ensures fate.Transient? ==> url in c'.deferred && MetaFile(url) !in c'.dir && BodyFile(url) !in c'.dir
    ensures Settles(fate) ==> Settled(c', url)
  {
    ApplyKeeps(c.dir, ws);
    if fate == GavePayload || fate == TooLarge {
      assert ws[|ws| - 1].name == MetaFile(url);
    }
  }

  lemma AskedKeepsNoRepeats(w: Codec, c: Cache, c': Cache, url: Url, fate: Fate, ws: seq<Write>)
    requires NoRepeats(c) && Asked(w, c, c', url, fate, ws)
    ensures NoRepeats(c')
  {
    AskedFiles(w, c, c', url, fate, ws);
    var n := |c.log|;
    assert c'.log[n].url == url && c'.log[n].fate == fate;
    forall i | 0 <= i <= n && Settles(c'.log[i].fate)
      ensures Settled(c', c'.log[i].url)
      ensures i < n ==> c'.log[i].url != url
    {
      if i < n { assert Settled(c, c.log[i].url); }
    }
    forall u | u in c'.deferred
      ensures MetaFile(u) !in c'.dir && BodyFile(u) !in c'.dir
    {
      if u != url { assert u in c.deferred; }
    }
  }

  /** One call of `get` keeps every cache invariant and only ever adds files. */
  lemma GetIsSafe(w: Codec, s: Setup, c: Cache, url: Url)
    requires s.recorded.None? && Safe(s, c)
    ensures Safe(s, Get(w, s, c, url).0) && Extends(c, Get(w, s, c, url).0)
  {
    var c' := Get(w, s, c, url).0;
    var asked, fate, ws := LiveGetStep(w, s, c, url);
    if asked {
      AskedKeepsBudgets(w, s, c, c', url, fate, ws);
      AskedKeepsNoRepeats(w, c, c', url, fate, ws);
      AskedFiles(w, c, c', url, fate, ws);
    }
  }

  lemma ExtendsTransitive(a: Cache, b: Cache, c: Cache)
    requires Extends(a, b) && Extends(b, c)
    ensures Extends(a, c)
  {
  }

  /** `Safe` and create-only growth over a whole run, whatever the client does. */
  lemma {:induction false} RunIsSafe<R>(w: Codec, s: Setup, c: Cache, client: Client<R>)
    requires s.recorded.None? && Safe(s, c)
    ensures Safe(s, Run(w, s, c, client).0) && Extends(c, Run(w, s, c, client).0)
    decreases client
  {
    match client
    case Done(_) =>
    case Fail(_) =>
    case Ask(url, next) =>
      GetIsSafe(w, s, c, url);
      var (c', o) := Get(w, s, c, url);
      if o in next {
        RunIsSafe(w, s, c', next[o]);
        ExtendsTransitive(c, c', Run(w, s, c', next[o]).0);
      }
  }

  /** Once the circuit is open, no later call of the run reaches the network. */
  lemma {:induction false} OpenCircuitIsFinal<R>(w: Codec, s: Setup, c: Cache, client: Client<R>)
    requires s.recorded.None? && c.failures >= 3
    ensures Run(w, s, c, client).0 == c
    decreases client
  {
    match client
    case Done(_) =>
    case Fail(_) =>
    case Ask(url, next) =>
      var (c', o) := Get(w, s, c, url);
      if o in next {
        OpenCircuitIsFinal(w, s, c', next[o]);
      }
  }

  /** A returned payload is exactly the stored body that its stored record describes. */
  ghost predicate Genuine(w: Codec, c: Cache, url: Url, payload: Bytes) {
    && BodyFile(url) in c.dir && c.dir[BodyFile(url)] == payload
    && 0 < |payload| <= MAX_DOCUMENT_BYTES
    && MetaFile(url) in c.dir && url in c.used
    && w.metaOf(c.dir[MetaFile(url)]) == Some(c.used[url])
    && c.used[url].url == Some(url) && c.used[url].sha256 == Some(Digest(payload))
    && c.used[url].bytes == Some(|payload|)
  }

  lemma CheckIsGenuine(w: Codec, c: Cache, url: Url, meta: Meta)
    requires MetaFile(url) in c.dir && w.metaOf(c.dir[MetaFile(url)]) == Some(meta)
    ensures Check(c, url, meta).1.Payload? ==> Genuine(w, Check(c, url, meta).0, url, Check(c, url, meta).1.body)
  {
  }

  lemma DownloadStoresRecord(w: Codec, server: Server, c: Cache, url: Url)
    requires Faithful(w) && Download(w, server, c, url).1.Ok?
    ensures var (c', got) := Download(w, server, c, url);
      MetaFile(url) in c'.dir && w.metaOf(c'.dir[MetaFile(url)]) == Some(got.value)
  {
  }

  lemma FetchIsGenuine(w: Codec, s: Setup, c: Cache, url: Url)
    requires Faithful(w)
    ensures Fetch(w, s, c, url).1.Payload? ==> Genuine(w, Fetch(w, s, c, url).0, url, Fetch(w, s, c, url).1.body)
  {
    if MetaFile(url) in c.dir {
      var meta := w.metaOf(c.dir[MetaFile(url)]);
      if meta.Some? {
        CheckIsGenuine(w, c, url, meta.value);
      }
    } else if Reaches(w, s, c, url) {
      var (c', got) := Download(w, s.server.value, c, url);
      if got.Ok? {
        DownloadStoresRecord(w, s.server.value, c, url);
        CheckIsGenuine(w, c', url, got.value);
      }
    }
  }

  lemma PayloadIsGenuine(w: Codec, s: Setup, c: Cache, url: Url)
    requires Faithful(w) && Get(w, s, c, url).1.Payload?
    ensures Genuine(w, Get(w, s, c, url).0, url, Get(w, s, c, url).1.body)
  {
    FetchIsGenuine(w, s, c, url);
  }

  /** The server that answers every request with this body. */
  function Answering(body: Bytes, at: int): Server {
    (n: nat) => Reply(Stream([body], Complete), at)
  }

  lemma OneBodyDrains(body: Bytes)
    requires |body| <= MAX_DOCUMENT_BYTES
    ensures Drain([body], [], 0) == Drained(body, |body|)
  {
    assert [] + body == body;
    assert Drain([body][1..], body, |body|) == Drained(body, |body|);
  }
}
