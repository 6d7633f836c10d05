/** Crashes and resumes: whatever a history of interrupted runs leaves behind, the pairs in
  * the directory are sound, and a source once settled is never asked for again.
  */
module CacheHistory {
  import opened Common
  import opened SourceTypes
  import opened CacheMachine
  import opened CacheSafety

  /** A record on disk describes its own URL, and the body beside it when it is not a refusal. */
  ghost predicate SoundPair(w: Codec, dir: Directory, url: Url) {
    MetaFile(url) in dir ==>
      var meta := w.metaOf(dir[MetaFile(url)]);
      && meta.Some? && meta.value.url == Some(url) && meta.value.retrievedAt.Instant?
      && (meta.value.refusal ||
          (&& BodyFile(url) in dir && 0 < |dir[BodyFile(url)]| <= MAX_DOCUMENT_BYTES
           && meta.value.sha256 == Some(Digest(dir[BodyFile(url)]))
           && meta.value.bytes == Some(|dir[BodyFile(url)]|)))
  }

  ghost predicate SoundPairs(w: Codec, dir: Directory) {
    forall url :: SoundPair(w, dir, url)
  }

  /** What is on disk when a run that started in `dir` dies after its first k writes. */
  ghost predicate SoundAtEveryWrite(w: Codec, dir: Directory, c: Cache) {
    && c.dir == Apply(dir, c.writes)
    && forall k :: 0 <= k <= |c.writes| ==> SoundPairs(w, Apply(dir, c.writes[..k]))
  }

  lemma ApplyAppend(dir: Directory, ws: seq<Write>, more: seq<Write>)
    ensures Apply(dir, ws + more) == Apply(Apply(dir, ws), more)
  {
    if more == [] {
      assert ws + more == ws;
    } else {
      var n := |more| - 1;
      ApplyAppend(dir, ws, more[..n]);
      assert (ws + more)[..|ws + more| - 1] == ws + more[..n];
    }
  }

  /** Writing the body before its record keeps every intermediate directory sound. */
  lemma PrefixIsSound(w: Codec, c: Cache, c': Cache, url: Url, fate: Fate, ws: seq<Write>, k: nat)
    requires Faithful(w) && SoundPairs(w, c.dir) && Asked(w, c, c', url, fate, ws) && k <= |ws|
    ensures SoundPairs(w, Apply(c.dir, ws[..k]))
  {
    ApplyTwo(c.dir, Write(BodyFile(url), []), Write(BodyFile(url), []));
    if |ws| > 0 { ApplyTwo(c.dir, ws[0], ws[|ws| - 1]); }
    assert k == 0 || (k == 1 && ws[..k] == [ws[0]]) || (k == 2 && ws[..k] == [ws[0], ws[1]]);
    forall u
      ensures SoundPair(w, Apply(c.dir, ws[..k]), u)
    {
      assert SoundPair(w, c.dir, u);
    }
  }

  lemma StepIsSound(w: Codec, s: Setup, dir: Directory, c: Cache, url: Url)
    requires Faithful(w) && s.recorded.None? && SoundAtEveryWrite(w, dir, c)
    ensures SoundAtEveryWrite(w, dir, Get(w, s, c, url).0)
  {
    var c' := Get(w, s, c, url).0;
    var asked, fate, ws := LiveGetStep(w, s, c, url);
    if asked {
      ApplyAppend(dir, c.writes, ws);
      assert c.writes[..|c.writes|] == c.writes;
      forall k | 0 <= k <= |c'.writes|
        ensures SoundPairs(w, Apply(dir, c'.writes[..k]))
      {
        if k <= |c.writes| {
          assert c'.writes[..k] == c.writes[..k];
        } else {
          var extra := k - |c.writes|;
          assert c'.writes[..k] == c.writes + ws[..extra];
          ApplyAppend(dir, c.writes, ws[..extra]);
          PrefixIsSound(w, c, c', url, fate, ws, extra);
        }
      }
    }
  }

  lemma {:induction false} RunStaysSound<R>(w: Codec, s: Setup, dir: Directory, c: Cache, client: Client<R>)
    requires Faithful(w) && s.recorded.None? && SoundAtEveryWrite(w, dir, c)
    ensures SoundAtEveryWrite(w, dir, Run(w, s, c, client).0)
    decreases client
  {
    match client
    case Done(_) =>
    case Fail(_) =>
    case Ask(url, next) =>
      StepIsSound(w, s, dir, c, url);
      var (c', o) := Get(w, s, c, url);
      if o in next {
        RunStaysSound(w, s, dir, c', next[o]);
      }
  }

  /** How many of the writes reach the disk. */
  function Survived(survived: nat, ws: seq<Write>): (k: nat)
    ensures k <= |ws|
  {
    if survived <= |ws| then survived else |ws|
  }

  /** One invocation that died after `survived` writes (or finished, if it made fewer). */
  datatype Attempt<R> = Attempt(maxRequests: nat, server: Option<Server>, client: Client<R>, survived: nat)

  /** The run that it would have made. */
  ghost function RunOf<R>(w: Codec, dir: Directory, a: Attempt<R>): Cache {
    Run(w, Setup(a.maxRequests, a.server, None), Fresh(dir), a.client).0
  }

  ghost function AfterAttempt<R>(w: Codec, dir: Directory, a: Attempt<R>): Directory {
    var ws := RunOf(w, dir, a).writes;
    Apply(dir, ws[..Survived(a.survived, ws)])
  }

  /** What a sequence of such invocations makes of a directory. */
  ghost function Leftover<R>(w: Codec, dir: Directory, attempts: seq<Attempt<R>>): Directory {
    if attempts == [] then dir
    else AfterAttempt(w, Leftover(w, dir, attempts[..|attempts| - 1]), attempts[|attempts| - 1])
  }

  /** After any history of interrupted and resumed runs, every stored pair is sound. */
  lemma {:induction false} LeftoverIsSound<R>(w: Codec, dir: Directory, attempts: seq<Attempt<R>>)
    requires Faithful(w) && SoundPairs(w, dir)
    ensures SoundPairs(w, Leftover(w, dir, attempts))
  {
    if attempts != [] {
      var before := Leftover(w, dir, attempts[..|attempts| - 1]);
      var a := attempts[|attempts| - 1];
      LeftoverIsSound(w, dir, attempts[..|attempts| - 1]);
      assert SoundAtEveryWrite(w, before, Fresh(before));
      RunStaysSound(w, Setup(a.maxRequests, a.server, None), before, Fresh(before), a.client);
    }
  }

  /** A refusal that does not accuse the directory: no tampering, and no file that cannot be read
    * but for a record longer than the reader's 4096-byte bound.
    */
  predicate Blameless(dir: Directory, url: Url, e: Error) {
    && e != Identity(CacheTampered) && e != Identity(InvalidTimestamp) && e != Malformed && e != FileMissing
    && (e == FileBound ==> MetaFile(url) in dir && |dir[MetaFile(url)]| > MAX_META_BYTES)
  }

  lemma QuietIsBlameless(w: Codec, s: Setup, c: Cache, url: Url)
    requires Faithful(w) && SoundPair(w, c.dir, url) && !Reaches(w, s, c, url)
    ensures Fetch(w, s, c, url).1.Raised? ==> Blameless(c.dir, url, Fetch(w, s, c, url).1.error)
  {
  }

  lemma RequestIsBlameless(w: Codec, s: Setup, c: Cache, url: Url)
    requires Reaches(w, s, c, url) && url !in c.deferred
    ensures Fetch(w, s, c, url).1.Raised? ==> Blameless(c.dir, url, Fetch(w, s, c, url).1.error)
  {
    var (c1, got) := Download(w, s.server.value, c, url);
    if got.Ok? {
      var fate, ws := DownloadStep(w, s.server.value, c, url);
      ApplyTwo(c.dir, ws[0], ws[1]);
    }
  }

  /** In such a directory no call ever reports tampering or an unreadable record; the only
    * file refusal left is a record longer than the reader's 4096-byte bound.
    */
  lemma CrashesLookLikeNoTampering(w: Codec, s: Setup, c: Cache, url: Url)
    requires Faithful(w) && s.recorded.None? && SoundPairs(w, c.dir)
    requires Get(w, s, c, url).1.Raised?
    ensures var e := Get(w, s, c, url).1.error;
      && e != Identity(CacheTampered) && e != Identity(InvalidTimestamp) && e != Malformed && e != FileMissing
      && (e == FileBound ==> MetaFile(url) in c.dir && |c.dir[MetaFile(url)]| > MAX_META_BYTES)
  {
    assert SoundPair(w, c.dir, url);
    if url !in c.deferred {
      if Reaches(w, s, c, url) {
        RequestIsBlameless(w, s, c, url);
      } else {
        QuietIsBlameless(w, s, c, url);
      }
    }
  }

  /** A settled source stays settled, and no request of the run names it. */
  lemma {:induction false} SettledIsNeverAsked<R>(w: Codec, s: Setup, c: Cache, client: Client<R>, url: Url)
    requires s.recorded.None? && Settled(c, url)
    ensures Settled(Run(w, s, c, client).0, url)
    ensures c.log <= Run(w, s, c, client).0.log
    ensures forall i :: |c.log| <= i < |Run(w, s, c, client).0.log| ==> Run(w, s, c, client).0.log[i].url != url
    decreases client
  {
    match client
    case Done(_) =>
    case Fail(_) =>
    case Ask(u, next) =>
      var asked, fate, ws := LiveGetStep(w, s, c, u);
      var (c', o) := Get(w, s, c, u);
      if asked {
        AskedFiles(w, c, c', u, fate, ws);
      }
      if o in next {
        SettledIsNeverAsked(w, s, c', next[o], url);
      }
  }

  // ---- a crash between a body and its record ----

  ghost predicate Orphaned(dir: Directory, url: Url) {
    BodyFile(url) in dir && MetaFile(url) !in dir
  }

  /** Every write creates a file. */
  ghost predicate FreshWrites(dir: Directory, ws: seq<Write>) {
    forall i :: 0 <= i < |ws| ==> ws[i].name !in Apply(dir, ws[..i])
  }

  /** The very next write after the i-th, a body, is its record. */
  ghost predicate RecordFollows(ws: seq<Write>, i: nat)
    requires i < |ws| && ws[i].name.BodyFile?
  {
    i + 1 < |ws| && ws[i + 1].name == MetaFile(ws[i].name.url)
  }

  /** The i-th write keeps to the order of the program: a body is followed by its record, and no record is
    * written beside a body of an earlier run.
    */
  ghost predicate InOrder(dir: Directory, ws: seq<Write>, i: nat)
    requires i < |ws|
  {
    match ws[i].name
    case BodyFile(_) => RecordFollows(ws, i)
    case MetaFile(url) => BodyFile(url) !in dir
    case _ => true
  }

  /** The history of a run that started in `dir`. */
  ghost predicate Orderly(dir: Directory, c: Cache) {
    && c.dir == Apply(dir, c.writes) && FreshWrites(dir, c.writes)
    && forall i :: 0 <= i < |c.writes| ==> InOrder(dir, c.writes, i)
  }

  /** Which files there are after some writes. */
  lemma {:induction false} AppliedNames(dir: Directory, ws: seq<Write>, name: FileName)
    ensures name in Apply(dir, ws) <==> name in dir || exists i :: 0 <= i < |ws| && ws[i].name == name
  {
    if ws != [] {
      AppliedNames(dir, ws[..|ws| - 1], name);
    }
  }

  lemma AppendFresh(dir: Directory, ws: seq<Write>, more: seq<Write>)
    requires FreshWrites(dir, ws) && FreshWrites(Apply(dir, ws), more)
    ensures FreshWrites(dir, ws + more)
  {
    var all := ws + more;
    forall i | 0 <= i < |all| ensures all[i].name !in Apply(dir, all[..i]) {
      if i < |ws| {
        assert all[..i] == ws[..i];
      } else {
        assert all[..i] == ws + more[..i - |ws|];
        ApplyAppend(dir, ws, more[..i - |ws|]);
      }
    }
  }

  /** The writes of one request create files, and name records and bodies of its own source only. */
  lemma RequestIsFresh(w: Codec, c: Cache, c': Cache, url: Url, fate: Fate, ws: seq<Write>)
    requires Asked(w, c, c', url, fate, ws)
    ensures FreshWrites(c.dir, ws) && |ws| <= 2
    ensures forall i :: 0 <= i < |ws| && ws[i].name.MetaFile? ==> ws[i].name.url == url
    ensures forall i :: 0 <= i < |ws| && ws[i].name.BodyFile? ==> RecordFollows(ws, i)
  {
    if ws != [] {
      ApplyTwo(c.dir, ws[0], ws[|ws| - 1]);
      assert ws[..0] == [] && ws[..1] == [ws[0]];
    }
  }

  lemma AppendOrder(dir: Directory, ws: seq<Write>, more: seq<Write>, i: nat)
    requires i < |ws| && InOrder(dir, ws, i)
    ensures InOrder(dir, ws + more, i)
  {
  }

  lemma AskedStaysOrderly(w: Codec, dir: Directory, c: Cache, c': Cache, url: Url, fate: Fate, ws: seq<Write>)
    requires Orderly(dir, c) && Asked(w, c, c', url, fate, ws)
    ensures Orderly(dir, c')
  {
    RequestIsFresh(w, c, c', url, fate, ws);
    ApplyAppend(dir, c.writes, ws);
    AppendFresh(dir, c.writes, ws);
    AppliedNames(dir, c.writes, BodyFile(url));
    forall i | 0 <= i < |c'.writes| ensures InOrder(dir, c'.writes, i) {
      if i < |c.writes| {
        AppendOrder(dir, c.writes, ws, i);
      } else {
        assert c'.writes[i] == ws[i - |c.writes|];
      }
    }
  }

  lemma StepStaysOrderly(w: Codec, s: Setup, dir: Directory, c: Cache, url: Url)
    requires s.recorded.None? && Orderly(dir, c)
    ensures Orderly(dir, Get(w, s, c, url).0)
  {
    var asked, fate, ws := LiveGetStep(w, s, c, url);
    if asked {
      AskedStaysOrderly(w, dir, c, Get(w, s, c, url).0, url, fate, ws);
    }
  }

  lemma {:induction false} RunStaysOrderly<R>(w: Codec, s: Setup, dir: Directory, c: Cache, client: Client<R>)
    requires s.recorded.None? && Orderly(dir, c)
    ensures Orderly(dir, Run(w, s, c, client).0)
    decreases client
  {
    match client
    case Done(_) =>
    case Fail(_) =>
    case Ask(url, next) =>
      StepStaysOrderly(w, s, dir, c, url);
      var (c', o) := Get(w, s, c, url);
      if o in next {
        RunStaysOrderly(w, s, dir, c', next[o]);
      }
  }

  ghost predicate CutAfterBody(ws: seq<Write>, survived: nat, url: Url) {
    0 < survived <= |ws| && ws[survived - 1].name == BodyFile(url)
  }

  /** A body that was alone before the run stays alone. */
  lemma OldOrphanStays(dir: Directory, c: Cache, k: nat, url: Url)
    requires Orderly(dir, c) && k <= |c.writes| && Orphaned(dir, url)
    ensures Orphaned(Apply(dir, c.writes[..k]), url)
  {
    var done := c.writes[..k];
    AppliedNames(dir, done, BodyFile(url));
    AppliedNames(dir, done, MetaFile(url));
    forall i | 0 <= i < |done| ensures done[i].name != MetaFile(url) {
      assert InOrder(dir, c.writes, i);
    }
  }

  /** A body that was written last is alone: its record would have been the next write. */
  lemma LastBodyIsAlone(dir: Directory, c: Cache, k: nat, url: Url)
    requires Orderly(dir, c) && 0 < k <= |c.writes| && c.writes[k - 1].name == BodyFile(url)
    ensures Orphaned(Apply(dir, c.writes[..k]), url) && k < |c.writes| && c.writes[k].name == MetaFile(url)
  {
    assert InOrder(dir, c.writes, k - 1);
    assert c.writes[..k][k - 1].name == BodyFile(url);
    AppliedNames(dir, c.writes[..k], BodyFile(url));
  }

  /** Any other body has its record. */
  lemma NewOrphanIsLast(dir: Directory, c: Cache, k: nat, url: Url)
    requires Orderly(dir, c) && k <= |c.writes| && !Orphaned(dir, url) && Orphaned(Apply(dir, c.writes[..k]), url)
    ensures k > 0 && c.writes[k - 1].name == BodyFile(url)
  {
    var done := c.writes[..k];
    AppliedNames(dir, done, BodyFile(url));
    if BodyFile(url) in dir {
      AppliedNames(dir, done, MetaFile(url));
      assert false;
    }
    var i :| 0 <= i < k && done[i].name == BodyFile(url);
    assert InOrder(dir, c.writes, i);
    if i + 1 < k {
      assert done[i + 1].name == MetaFile(url);
      AppliedNames(dir, done, MetaFile(url));
    }
  }

  /** Wherever such a run is cut, the bodies without a record are those that were there before and the one
    * that it had just written, whose record would have been the very next write.
    */
  lemma CutMeaning(dir: Directory, c: Cache, survived: nat, url: Url)
    requires Orderly(dir, c)
    ensures Orphaned(Apply(dir, c.writes[..Survived(survived, c.writes)]), url) <==>
      Orphaned(dir, url) || CutAfterBody(c.writes, survived, url)
    ensures CutAfterBody(c.writes, survived, url) ==>
      survived < |c.writes| && c.writes[survived].name == MetaFile(url)
  {
    var k := Survived(survived, c.writes);
    if Orphaned(dir, url) {
      OldOrphanStays(dir, c, k, url);
    } else if Orphaned(Apply(dir, c.writes[..k]), url) {
      NewOrphanIsLast(dir, c, k, url);
      LastBodyIsAlone(dir, c, k, url);
    }
    if CutAfterBody(c.writes, survived, url) {
      LastBodyIsAlone(dir, c, k, url);
    }
  }

  /** An invocation leaves exactly these bodies without their record: the ones it found so, and the one
    * that it had written last when it died, a write before its record.
    */
  lemma CutLeavesOrphan<R>(w: Codec, dir: Directory, a: Attempt<R>, url: Url)
    ensures Orphaned(AfterAttempt(w, dir, a), url) <==>
      Orphaned(dir, url) || CutAfterBody(RunOf(w, dir, a).writes, a.survived, url)
    ensures CutAfterBody(RunOf(w, dir, a).writes, a.survived, url) ==>
      a.survived < |RunOf(w, dir, a).writes| && RunOf(w, dir, a).writes[a.survived].name == MetaFile(url)
  {
    RunStaysOrderly(w, Setup(a.maxRequests, a.server, None), dir, Fresh(dir), a.client);
    CutMeaning(dir, RunOf(w, dir, a), a.survived, url);
  }

  /** Whatever its state, a run refuses the orphan of its directory without a request or a write. */
  lemma OrphanIsRefused(w: Codec, s: Setup, c: Cache, url: Url)
    requires s.recorded.None? && Orphaned(c.dir, url)
    ensures Get(w, s, c, url) == (c, Get(w, s, c, url).1) && Get(w, s, c, url).1.Raised?
    ensures Get(w, s, c, url).1.error in {Identity(UnapprovedSourceUrl), Identity(IncompleteCachePair),
                                          Identity(DeferredThisRun), Identity(CircuitOpen)}
  {
  }

  ghost predicate NeverAsks<R>(w: Codec, dir: Directory, a: Attempt<R>, url: Url) {
    forall i :: 0 <= i < |RunOf(w, dir, a).log| ==> RunOf(w, dir, a).log[i].url != url
  }

  /** None of the invocations, each over what the earlier ones left, requests the source. */
  ghost predicate NoneAsks<R>(w: Codec, dir: Directory, attempts: seq<Attempt<R>>, url: Url) {
    attempts != [] ==>
      var earlier := attempts[..|attempts| - 1];
      NoneAsks(w, dir, earlier, url) && NeverAsks(w, Leftover(w, dir, earlier), attempts[|attempts| - 1], url)
  }

  /** The price of such a crash: through any later sequence of invocations, each cut anywhere, the body
    * stays without its record, and none of them ever requests the source again.
    */
  lemma {:induction false} OrphanIsPermanent<R>(w: Codec, dir: Directory, attempts: seq<Attempt<R>>, url: Url)
    requires Orphaned(dir, url)
    ensures Orphaned(Leftover(w, dir, attempts), url) && NoneAsks(w, dir, attempts, url)
  {
    if attempts != [] {
      var earlier, last := attempts[..|attempts| - 1], attempts[|attempts| - 1];
      OrphanIsPermanent(w, dir, earlier, url);
      var before := Leftover(w, dir, earlier);
      CutLeavesOrphan(w, before, last, url);
      SettledIsNeverAsked(w, Setup(last.maxRequests, last.server, None), Fresh(before), last.client, url);
    }
  }

  // ---- when a source can still be obtained ----

  /** Some server and some budget make a call of a new run return the source. */
  ghost predicate Obtainable(w: Codec, dir: Directory, url: Url) {
    exists n: nat, server: Server :: Get(w, Setup(n, Some(server), None), Fresh(dir), url).1.Payload?
  }

  /** The stored record is short enough for its reader, and not the record of a refusal. */
  ghost predicate Usable(w: Codec, content: Bytes) {
    |content| <= MAX_META_BYTES && w.metaOf(content).Some? && !w.metaOf(content).value.refusal
  }

  lemma StoredIsObtainable(w: Codec, dir: Directory, url: Url, n: nat, server: Server)
    requires Faithful(w) && w.approved(url) && SoundPair(w, dir, url) && MetaFile(url) in dir
    ensures Get(w, Setup(n, Some(server), None), Fresh(dir), url).1.Payload? <==> Usable(w, dir[MetaFile(url)])
  {
  }

  lemma AbsentIsObtainable(w: Codec, dir: Directory, url: Url)
    requires w.approved(url) && MetaFile(url) !in dir && BodyFile(url) !in dir
    ensures Obtainable(w, dir, url)
  {
    var body: Bytes := [0];
    OneBodyDrains(body);
    assert Get(w, Setup(1, Some(Answering(body, 0)), None), Fresh(dir), url).1 == Payload(body);
  }

  /** In any directory that histories of runs can leave, a later run can obtain an approved source exactly
    * when its body is not alone and its record, if there is one, can be used.
    */
  lemma ObtainableMeaning(w: Codec, dir: Directory, url: Url)
    requires Faithful(w) && w.approved(url) && SoundPairs(w, dir)
    ensures Obtainable(w, dir, url) <==>
      !Orphaned(dir, url) && (MetaFile(url) in dir ==> Usable(w, dir[MetaFile(url)]))
  {
    assert SoundPair(w, dir, url);
    if MetaFile(url) in dir {
      forall n: nat, server: Server {
        StoredIsObtainable(w, dir, url, n, server);
      }
      if Usable(w, dir[MetaFile(url)]) {
        assert Get(w, Setup(1, Some(Answering([0], 0)), None), Fresh(dir), url).1.Payload?;
      }
    } else if !Orphaned(dir, url) {
      AbsentIsObtainable(w, dir, url);
    }
  }
}
