/** Histories of the capture command itself: new, resumed and interrupted invocations, with the
  * binding, member and result files that it writes between the pairs of its cache.
  */
module CaptureHistory {
  import opened Common
  import opened SourceTypes
  import opened CacheMachine
  import opened CacheSafety
  import opened CacheHistory
  import opened Collector
  import opened Capture

  // ---- every write of the command keeps the pairs sound ----

  lemma AppendWrite(w: Codec, dir: Directory, c: Cache, name: FileName, content: Bytes, k: nat)
    requires SoundAtEveryWrite(w, dir, c) && !name.MetaFile? && !name.BodyFile? && k <= |c.writes| + 1
    ensures Save(c, name, content).dir == Apply(dir, Save(c, name, content).writes)
    ensures SoundPairs(w, Apply(dir, Save(c, name, content).writes[..k]))
  {
    var c' := Save(c, name, content);
    assert c'.writes[..|c.writes|] == c.writes == c.writes[..|c.writes|];
    if k <= |c.writes| {
      assert c'.writes[..k] == c.writes[..k];
    } else {
      assert c'.writes[..k] == c'.writes;
      forall u ensures SoundPair(w, c'.dir, u) {
        assert SoundPair(w, c.dir, u);
      }
    }
  }

  lemma SaveStaysSound(w: Codec, dir: Directory, c: Cache, name: FileName, content: Bytes)
    requires SoundAtEveryWrite(w, dir, c) && !name.MetaFile? && !name.BodyFile?
    ensures SoundAtEveryWrite(w, dir, Save(c, name, content))
  {
    var c' := Save(c, name, content);
    forall k | 0 <= k <= |c'.writes| ensures SoundPairs(w, Apply(dir, c'.writes[..k])) {
      AppendWrite(w, dir, c, name, content, k);
    }
    AppendWrite(w, dir, c, name, content, 0);
  }

  lemma MemberStepStaysSound(job: Job, s: Setup, binding: Binding, dir: Directory, c: Cache, m: Member)
    requires Faithful(job.lib.codec) && s.recorded.None? && SoundAtEveryWrite(job.lib.codec, dir, c)
    ensures SoundAtEveryWrite(job.lib.codec, dir, MemberStep(job, s, binding, c, m).0)
  {
    var client := CollectClient(job.lib, m);
    RunStaysSound(job.lib.codec, s, dir, c, client);
    var (c1, collected) := Run(job.lib.codec, s, c, client);
    var settled := Settle(m, collected);
    if settled.Ok? {
      var receipt := job.memberBytes(binding, settled.value);
      SaveStaysSound(job.lib.codec, dir, c1, MemberFile(receipt), receipt);
    }
  }

  lemma {:induction false} MembersStaySound(job: Job, s: Setup, binding: Binding, dir: Directory, c: Cache,
                                            members: seq<Member>, done: seq<MemberResult>)
    requires Faithful(job.lib.codec) && s.recorded.None? && SoundAtEveryWrite(job.lib.codec, dir, c)
    ensures SoundAtEveryWrite(job.lib.codec, dir, CaptureMembers(job, s, binding, c, members, done).0)
    decreases |members|
  {
    if members != [] {
      MemberStepStaysSound(job, s, binding, dir, c, members[0]);
      var (c1, taken) := MemberStep(job, s, binding, c, members[0]);
      if taken.Ok? {
        MembersStaySound(job, s, binding, dir, c1, members[1..], done + [taken.value]);
      }
    }
  }

  lemma BeginStaysSound(job: Job, s: Setup, place: Option<Directory>, call: Call)
    requires SoundPairs(job.lib.codec, FilesOf(place))
    ensures SoundAtEveryWrite(job.lib.codec, FilesOf(place), Begin(job, s, place, call).0)
  {
    var dir := FilesOf(place);
    assert SoundAtEveryWrite(job.lib.codec, dir, Fresh(dir));
    SaveStaysSound(job.lib.codec, dir, Fresh(dir), BindingFile, job.bindingBytes(Planned(job, call.limit)));
  }

  lemma ConcludeStaysSound(job: Job, binding: Binding, dir: Directory, c: Cache, results: seq<MemberResult>, same: bool)
    requires SoundAtEveryWrite(job.lib.codec, dir, c)
    ensures SoundAtEveryWrite(job.lib.codec, dir, Conclude(job, binding, c, results, same).0)
  {
    var encoded := job.resultBytes(RunResult(binding, results, c.used, c.deferred, ReportOf(job, results)));
    SaveStaysSound(job.lib.codec, dir, c, ResultFile(encoded), encoded);
  }

  /** One invocation of the command, from a directory with sound pairs: they are sound after its
    * every write, whichever of its files that write created.
    */
  lemma CaptureStaysSound(job: Job, s: Setup, place: Option<Directory>, call: Call)
    requires Faithful(job.lib.codec) && s.recorded.None? && SoundPairs(job.lib.codec, FilesOf(place))
    ensures SoundAtEveryWrite(job.lib.codec, FilesOf(place), CaptureRun(job, s, place, call).0)
  {
    var dir := FilesOf(place);
    BeginStaysSound(job, s, place, call);
    var (c, begun) := Begin(job, s, place, call);
    if begun.Ok? {
      MembersStaySound(job, s, begun.value, dir, c, begun.value.members, []);
      var (c1, collected) := CaptureMembers(job, s, begun.value, c, begun.value.members, []);
      if collected.Ok? {
        ConcludeStaysSound(job, begun.value, dir, c1, collected.value, call.codeUnchanged);
      }
    }
  }

  // ---- every write of the command creates a file, and a record follows its body ----

  lemma SaveStaysOrderly(dir: Directory, c: Cache, name: FileName, content: Bytes)
    requires Orderly(dir, c) && name !in c.dir && !name.MetaFile? && !name.BodyFile?
    ensures Orderly(dir, Save(c, name, content))
  {
    var more := [Write(name, content)];
    ApplyTwo(c.dir, more[0], more[0]);
    assert more[..0] == [];
    ApplyAppend(dir, c.writes, more);
    AppendFresh(dir, c.writes, more);
    forall i | 0 <= i <= |c.writes| ensures InOrder(dir, c.writes + more, i) {
      if i < |c.writes| { AppendOrder(dir, c.writes, more, i); }
    }
  }

  lemma MemberStepStaysOrderly(job: Job, s: Setup, binding: Binding, dir: Directory, c: Cache, m: Member)
    requires s.recorded.None? && Orderly(dir, c)
    ensures Orderly(dir, MemberStep(job, s, binding, c, m).0)
  {
    var client := CollectClient(job.lib, m);
    RunStaysOrderly(job.lib.codec, s, dir, c, client);
    var (c1, collected) := Run(job.lib.codec, s, c, client);
    var settled := Settle(m, collected);
    if settled.Ok? {
      var receipt := job.memberBytes(binding, settled.value);
      if MemberFile(receipt) !in c1.dir { SaveStaysOrderly(dir, c1, MemberFile(receipt), receipt); }
    }
  }

  lemma {:induction false} MembersStayOrderly(job: Job, s: Setup, binding: Binding, dir: Directory, c: Cache,
                                              members: seq<Member>, done: seq<MemberResult>)
    requires s.recorded.None? && Orderly(dir, c)
    ensures Orderly(dir, CaptureMembers(job, s, binding, c, members, done).0)
    decreases |members|
  {
    if members != [] {
      MemberStepStaysOrderly(job, s, binding, dir, c, members[0]);
      var (c1, taken) := MemberStep(job, s, binding, c, members[0]);
      if taken.Ok? {
        MembersStayOrderly(job, s, binding, dir, c1, members[1..], done + [taken.value]);
      }
    }
  }

  lemma BeginIsOrderly(job: Job, s: Setup, place: Option<Directory>, call: Call)
    ensures Orderly(FilesOf(place), Begin(job, s, place, call).0)
  {
    var dir := FilesOf(place);
    assert Orderly(dir, Fresh(dir));
    if place.None? {
      SaveStaysOrderly(dir, Fresh(dir), BindingFile, job.bindingBytes(Planned(job, call.limit)));
    }
  }

  lemma ConcludeStaysOrderly(job: Job, binding: Binding, dir: Directory, c: Cache, results: seq<MemberResult>,
                             same: bool)
    requires Orderly(dir, c)
    ensures Orderly(dir, Conclude(job, binding, c, results, same).0)
  {
    var encoded := job.resultBytes(RunResult(binding, results, c.used, c.deferred, ReportOf(job, results)));
    if ResultFile(encoded) !in c.dir { SaveStaysOrderly(dir, c, ResultFile(encoded), encoded); }
  }

  lemma CaptureStaysOrderly(job: Job, s: Setup, place: Option<Directory>, call: Call)
    requires s.recorded.None?
    ensures Orderly(FilesOf(place), CaptureRun(job, s, place, call).0)
  {
    var dir := FilesOf(place);
    BeginIsOrderly(job, s, place, call);
    var (c, begun) := Begin(job, s, place, call);
    if begun.Ok? {
      MembersStayOrderly(job, s, begun.value, dir, c, begun.value.members, []);
      var (c1, collected) := CaptureMembers(job, s, begun.value, c, begun.value.members, []);
      if collected.Ok? {
        ConcludeStaysOrderly(job, begun.value, dir, c1, collected.value, call.codeUnchanged);
      }
    }
  }

  // ---- histories ----

  /** One invocation, possibly for another roster, that died after `survived` writes (or finished,
    * if it made fewer).
    */
  datatype Invocation = Invocation(job: Job, maxRequests: nat, server: Option<Server>, call: Call, survived: nat)

  /** The run that it would have made. */
  ghost function CaptureOf(place: Option<Directory>, a: Invocation): Cache {
    CaptureRun(a.job, Setup(a.maxRequests, a.server, None), place, a.call).0
  }

  ghost function After(place: Option<Directory>, a: Invocation): Option<Directory> {
    var ws := CaptureOf(place, a).writes;
    Remains(Setup(a.maxRequests, a.server, None), place, a.call,
            Apply(FilesOf(place), ws[..Survived(a.survived, ws)]))
  }

  /** What a sequence of invocations makes of the output directory. */
  ghost function History(place: Option<Directory>, invocations: seq<Invocation>): Option<Directory> {
    if invocations == [] then place
    else After(History(place, invocations[..|invocations| - 1]), invocations[|invocations| - 1])
  }

  /** All invocations encode records alike. */
  ghost predicate SameCodec(w: Codec, invocations: seq<Invocation>) {
    forall i :: 0 <= i < |invocations| ==> invocations[i].job.lib.codec == w
  }

  /** After any history of new, resumed and interrupted captures, every stored pair is sound. */
  lemma {:induction false} HistoryIsSound(w: Codec, place: Option<Directory>, invocations: seq<Invocation>)
    requires Faithful(w) && SameCodec(w, invocations) && SoundPairs(w, FilesOf(place))
    ensures SoundPairs(w, FilesOf(History(place, invocations)))
  {
    if invocations != [] {
      var earlier, a := invocations[..|invocations| - 1], invocations[|invocations| - 1];
      HistoryIsSound(w, place, earlier);
      var before := History(place, earlier);
      CaptureStaysSound(a.job, Setup(a.maxRequests, a.server, None), before, a.call);
    }
  }

  ghost predicate OnDisk(place: Option<Directory>, url: Url) {
    MetaFile(url) in FilesOf(place) || BodyFile(url) in FilesOf(place)
  }

  /** From `c` on, the run keeps what it has of the source and does not ask for it. */
  ghost predicate KeepsSettled(c: Cache, c': Cache, url: Url) {
    && Settled(c', url) && c.log <= c'.log
    && forall i :: |c.log| <= i < |c'.log| ==> c'.log[i].url != url
  }

  lemma SaveMemberKeepsSettled(job: Job, binding: Binding, c: Cache, result: MemberResult, url: Url)
    requires SaveMember(job, binding, c, result).Ok? && Settled(c, url)
    ensures var c' := SaveMember(job, binding, c, result).value; Settled(c', url) && c'.log == c.log
  {
  }

  lemma MemberStepKeepsSettled(job: Job, s: Setup, binding: Binding, c: Cache, m: Member, url: Url)
    requires s.recorded.None? && Settled(c, url)
    ensures KeepsSettled(c, MemberStep(job, s, binding, c, m).0, url)
  {
    var client := CollectClient(job.lib, m);
    SettledIsNeverAsked(job.lib.codec, s, c, client, url);
    var (c1, collected) := Run(job.lib.codec, s, c, client);
    var settled := Settle(m, collected);
    if settled.Ok? && SaveMember(job, binding, c1, settled.value).Ok? {
      SaveMemberKeepsSettled(job, binding, c1, settled.value, url);
    }
  }

  lemma {:induction false} MembersKeepSettled(job: Job, s: Setup, binding: Binding, c: Cache,
                                              members: seq<Member>, done: seq<MemberResult>, url: Url)
    requires s.recorded.None? && Settled(c, url)
    ensures KeepsSettled(c, CaptureMembers(job, s, binding, c, members, done).0, url)
    decreases |members|
  {
    if members != [] {
      MemberStepKeepsSettled(job, s, binding, c, members[0], url);
      var (c1, taken) := MemberStep(job, s, binding, c, members[0]);
      if taken.Ok? {
        MembersKeepSettled(job, s, binding, c1, members[1..], done + [taken.value], url);
      }
    }
  }

  lemma CaptureSkipsStored(job: Job, s: Setup, place: Option<Directory>, call: Call, url: Url)
    requires s.recorded.None? && OnDisk(place, url)
    ensures forall i :: 0 <= i < |CaptureRun(job, s, place, call).0.log| ==>
      CaptureRun(job, s, place, call).0.log[i].url != url
  {
    BeginIsFresh(job, s, place, call);
    var (c, begun) := Begin(job, s, place, call);
    if begun.Ok? {
      MembersKeepSettled(job, s, begun.value, c, begun.value.members, [], url);
    }
  }

  /** What was on disk after the first writes is there, unchanged, after more of them. */
  lemma {:induction false} FreshWritesKeep(dir: Directory, ws: seq<Write>, j: nat, k: nat)
    requires FreshWrites(dir, ws) && j <= k <= |ws|
    ensures Submap(Apply(dir, ws[..j]), Apply(dir, ws[..k]))
    decreases k
  {
    if j < k {
      FreshWritesKeep(dir, ws, j, k - 1);
      assert ws[..k][..k - 1] == ws[..k - 1];
      assert ws[k - 1].name !in Apply(dir, ws[..k - 1]);
    }
  }

  /** One invocation, cut anywhere, changes no file that it finds. */
  lemma AfterKeepsFiles(place: Option<Directory>, a: Invocation)
    ensures Submap(FilesOf(place), FilesOf(After(place, a)))
  {
    CaptureStaysOrderly(a.job, Setup(a.maxRequests, a.server, None), place, a.call);
    var ws := CaptureOf(place, a).writes;
    FreshWritesKeep(FilesOf(place), ws, 0, Survived(a.survived, ws));
  }

  /** No history of invocations, each cut anywhere, changes or loses a file. */
  lemma {:induction false} HistoryKeepsFiles(place: Option<Directory>, invocations: seq<Invocation>)
    ensures Submap(FilesOf(place), FilesOf(History(place, invocations)))
  {
    if invocations != [] {
      var earlier, a := invocations[..|invocations| - 1], invocations[|invocations| - 1];
      HistoryKeepsFiles(place, earlier);
      AfterKeepsFiles(History(place, earlier), a);
    }
  }

  /** A completed capture replays after any later invocations, each cut anywhere, exactly when the files
    * that it must read are within the readers' bounds.
    */
  lemma FinishedCaptureReplaysLater(place: Option<Directory>, a: Invocation, later: seq<Invocation>)
    requires FaithfulJob(a.job) && a.job.ordered != [] && a.survived >= |CaptureOf(place, a).writes|
    requires CaptureRun(a.job, Setup(a.maxRequests, a.server, None), place, a.call).1.Ok?
    ensures var result := CaptureRun(a.job, Setup(a.maxRequests, a.server, None), place, a.call).1.value;
      var files := FilesOf(History(After(place, a), later));
      var replayed := ReplayRun(a.job, files, a.job.resultBytes(result));
      && (replayed.Ok? <==> Readable(a.job, files, result))
      && (replayed.Ok? ==> replayed.value == result.results)
  {
    var s := Setup(a.maxRequests, a.server, None);
    var c := CaptureOf(place, a);
    CaptureStaysOrderly(a.job, s, place, a.call);
    assert c.writes[..|c.writes|] == c.writes;
    HistoryKeepsFiles(After(place, a), later);
    CompletedCaptureReplays(a.job, s, place, a.call, FilesOf(History(After(place, a), later)));
  }

  /** Of the bodies that an invocation leaves, exactly these have no record: the ones it found so, and the
    * one that it had written last when it died.
    */
  lemma CutCaptureLeavesOrphan(place: Option<Directory>, a: Invocation, url: Url)
    ensures Orphaned(FilesOf(After(place, a)), url) <==>
      Orphaned(FilesOf(place), url) || CutAfterBody(CaptureOf(place, a).writes, a.survived, url)
  {
    CaptureStaysOrderly(a.job, Setup(a.maxRequests, a.server, None), place, a.call);
    CutMeaning(FilesOf(place), CaptureOf(place, a), a.survived, url);
  }

  lemma StaysOnDisk(place: Option<Directory>, a: Invocation, url: Url)
    requires OnDisk(place, url)
    ensures OnDisk(After(place, a), url)
  {
    AfterKeepsFiles(place, a);
  }

  /** The m-th invocation of a history requests the source. */
  ghost predicate Asks(place: Option<Directory>, invocations: seq<Invocation>, m: nat, url: Url)
    requires m < |invocations|
  {
    var log := CaptureOf(History(place, invocations[..m]), invocations[m]).log;
    exists i :: 0 <= i < |log| && log[i].url == url
  }

  lemma OneMore(place: Option<Directory>, invocations: seq<Invocation>, m: nat)
    requires 0 < m <= |invocations|
    ensures History(place, invocations[..m]) == After(History(place, invocations[..m - 1]), invocations[m - 1])
  {
    assert invocations[..m][..m - 1] == invocations[..m - 1];
  }

  lemma InvocationSkipsStored(place: Option<Directory>, invocations: seq<Invocation>, m: nat, url: Url)
    requires m < |invocations| && OnDisk(History(place, invocations[..m]), url)
    ensures !Asks(place, invocations, m, url)
  {
    var a := invocations[m];
    CaptureSkipsStored(a.job, Setup(a.maxRequests, a.server, None), History(place, invocations[..m]), a.call, url);
  }

  lemma StoredStep(place: Option<Directory>, invocations: seq<Invocation>, m: nat, url: Url)
    requires 0 < m <= |invocations| && OnDisk(History(place, invocations[..m - 1]), url)
    ensures OnDisk(History(place, invocations[..m]), url)
  {
    OneMore(place, invocations, m);
    StaysOnDisk(History(place, invocations[..m - 1]), invocations[m - 1], url);
  }

  lemma {:induction false} StoredStays(place: Option<Directory>, invocations: seq<Invocation>, n: nat, m: nat, url: Url)
    requires n <= m <= |invocations| && OnDisk(History(place, invocations[..n]), url)
    ensures OnDisk(History(place, invocations[..m]), url)
    decreases m
  {
    if m > n {
      StoredStays(place, invocations, n, m - 1, url);
      StoredStep(place, invocations, m, url);
    }
  }

  /** Once a body or a record of a source has reached the disk, it is there after any further
    * invocations, each cut anywhere, and none of them requests the source.
    */
  lemma StoredIsNeverAskedAgain(place: Option<Directory>, invocations: seq<Invocation>, n: nat, m: nat, url: Url)
    requires n <= m < |invocations| && OnDisk(History(place, invocations[..n]), url)
    ensures OnDisk(History(place, invocations[..m]), url) && !Asks(place, invocations, m, url)
  {
    StoredStays(place, invocations, n, m, url);
    InvocationSkipsStored(place, invocations, m, url);
  }

  // ---- a crash before the binding ----

  lemma UnboundIsRefused(dir: Directory, a: Invocation)
    requires BindingFile !in dir
    ensures CaptureOf(Some(dir), a) == Fresh(dir) && After(Some(dir), a) == Some(dir)
  {
  }

  /** A directory without a binding is refused by every invocation. */
  lemma {:induction false} UnboundStaysUnbound(dir: Directory, invocations: seq<Invocation>, m: nat, url: Url)
    requires BindingFile !in dir && m <= |invocations|
    ensures History(Some(dir), invocations[..m]) == Some(dir)
    ensures m < |invocations| ==> !Asks(Some(dir), invocations, m, url)
    decreases m
  {
    if m > 0 {
      UnboundStaysUnbound(dir, invocations, m - 1, url);
      OneMore(Some(dir), invocations, m);
      UnboundIsRefused(dir, invocations[m - 1]);
    }
    if m < |invocations| { UnboundIsRefused(dir, invocations[m]); }
  }

  /** A new capture that dies before its first write leaves an empty directory; no later invocation,
    * new or resumed, ever writes to it or makes a request.
    */
  lemma DeadBeforeBinding(a: Invocation, later: seq<Invocation>, m: nat, url: Url)
    requires !a.call.resume && InBounds(Setup(a.maxRequests, a.server, None), a.call) && a.survived == 0
    requires m <= |later|
    ensures History(After(None, a), later[..m]) == Some(map[])
    ensures m < |later| ==> !Asks(After(None, a), later, m, url)
  {
    assert After(None, a) == Some(map[]);
    UnboundStaysUnbound(map[], later, m, url);
  }

  /** The first write of a new capture is its binding. */
  lemma BindingComesFirst(a: Invocation)
    requires !a.call.resume && InBounds(Setup(a.maxRequests, a.server, None), a.call)
    ensures var ws := CaptureOf(None, a).writes;
      ws != [] && ws[0] == Write(BindingFile, a.job.bindingBytes(Planned(a.job, a.call.limit)))
  {
    var s := Setup(a.maxRequests, a.server, None);
    BeginIsFresh(a.job, s, None, a.call);
    var (c, begun) := Begin(a.job, s, None, a.call);
    if begun.Ok? {
      CaptureIsSafe(a.job, s, begun.value, c, begun.value.members, []);
    }
  }

  /** A new capture that died can be resumed, whatever invocations were tried since, exactly when it had
    * written its binding, and that is short enough for its reader.
    */
  lemma ResumableMeaning(a: Invocation, later: seq<Invocation>)
    requires FaithfulJob(a.job) && !a.call.resume && InBounds(Setup(a.maxRequests, a.server, None), a.call)
    ensures Open(a.job, Planned(a.job, a.call.limit), History(After(None, a), later), true).Ok? <==>
      a.survived > 0 && |a.job.bindingBytes(Planned(a.job, a.call.limit))| <= MAX_BINDING_BYTES
  {
    if a.survived == 0 {
      DeadBeforeBinding(a, later, |later|, "");
      assert later[..|later|] == later;
    } else {
      BindingSurvives(a);
      HistoryKeepsFiles(After(None, a), later);
      HistoryKeepsPlace(After(None, a), later);
    }
  }

  /** A directory is never removed. */
  lemma {:induction false} HistoryKeepsPlace(place: Option<Directory>, invocations: seq<Invocation>)
    requires place.Some?
    ensures History(place, invocations).Some?
  {
    if invocations != [] {
      HistoryKeepsPlace(place, invocations[..|invocations| - 1]);
    }
  }

  lemma BindingSurvives(a: Invocation)
    requires !a.call.resume && InBounds(Setup(a.maxRequests, a.server, None), a.call) && a.survived > 0
    ensures After(None, a).Some? && BindingFile in After(None, a).value
    ensures After(None, a).value[BindingFile] == a.job.bindingBytes(Planned(a.job, a.call.limit))
  {
    var ws := CaptureOf(None, a).writes;
    BindingComesFirst(a);
    CaptureStaysOrderly(a.job, Setup(a.maxRequests, a.server, None), None, a.call);
    FreshWritesKeep(map[], ws, 1, Survived(a.survived, ws));
    assert ws[..1] == [ws[0]];
    ApplyTwo(map[], ws[0], ws[0]);
  }
}
