/** What an accepted trace is, told by its spans alone. */
module TraceAnswers {
  import opened Common
  import opened TraceTree

  /** A span of the provider's serverless runtime with this name. */
  predicate RunsAs(s: Span, name: string) {
    s.service == "vercel.serverless-runtime" && s.resourceService == "vercel.serverless-runtime" && s.name == name
  }

  /** The three names that make a trace cold, and the five that a runtime span may have. */
  lemma RuntimeMeaning(s: Span)
    ensures IsInvocation(s) <==> RunsAs(s, "Invoke Function")
    ensures IsStartup(s) <==> RunsAs(s, "Start VM") || RunsAs(s, "Spawn Python") || RunsAs(s, "Init User Code")
    ensures IsUnknownRuntime(s) <==> IsRuntime(s) && !IsInvocation(s) && !IsStartup(s) && !RunsAs(s, "waitUntil")
  {
  }

  /** The only place of the list that passes the test. */
  ghost predicate OnlyAt(spans: seq<Span>, keep: Span -> bool, i: int) {
    0 <= i < |spans| && keep(spans[i]) && forall j :: 0 <= j < |spans| && j != i ==> !keep(spans[j])
  }

  lemma {:induction false} NoneKept(spans: seq<Span>, keep: Span -> bool)
    ensures Where(spans, keep) == [] <==> forall j :: 0 <= j < |spans| ==> !keep(spans[j])
  {
    if spans != [] {
      NoneKept(spans[1..], keep);
      assert forall j :: 0 < j < |spans| ==> spans[j] == spans[1..][j - 1];
      assert (forall j :: 0 <= j < |spans[1..]| ==> !keep(spans[1..][j])) ==>
        forall j :: 0 < j < |spans| ==> !keep(spans[j]);
      assert (forall j :: 0 <= j < |spans| ==> !keep(spans[j])) ==>
        forall j :: 0 <= j < |spans[1..]| ==> !keep(spans[1..][j]);
    }
  }

  /** One span is kept exactly when one place passes, and it is the span at that place. */
  lemma {:induction false} OneKept(spans: seq<Span>, keep: Span -> bool)
    ensures |Where(spans, keep)| == 1 <==> exists i :: OnlyAt(spans, keep, i)
    ensures forall i :: OnlyAt(spans, keep, i) ==> Where(spans, keep) == [spans[i]]
  {
    if spans != [] {
      var rest := spans[1..];
      OneKept(rest, keep);
      NoneKept(rest, keep);
      assert forall j :: 0 <= j < |rest| ==> rest[j] == spans[j + 1];
      if keep(spans[0]) {
        FirstIsOnly(spans, keep);
      } else {
        LaterIsOnly(spans, keep);
      }
    }
  }

  lemma FirstIsOnly(spans: seq<Span>, keep: Span -> bool)
    requires spans != [] && keep(spans[0])
    ensures (forall j :: 0 <= j < |spans[1..]| ==> !keep(spans[1..][j])) <==> OnlyAt(spans, keep, 0)
    ensures forall i :: OnlyAt(spans, keep, i) ==> i == 0
  {
    assert forall j :: 0 < j < |spans| ==> spans[j] == spans[1..][j - 1];
    if OnlyAt(spans, keep, 0) {
      forall j | 0 <= j < |spans[1..]| ensures !keep(spans[1..][j]) {
        assert spans[1..][j] == spans[j + 1];
      }
    }
  }

  lemma LaterIsOnly(spans: seq<Span>, keep: Span -> bool)
    requires spans != [] && !keep(spans[0])
    ensures forall i :: OnlyAt(spans[1..], keep, i) ==> OnlyAt(spans, keep, i + 1)
    ensures forall i :: OnlyAt(spans, keep, i) ==> i > 0 && OnlyAt(spans[1..], keep, i - 1)
  {
    var rest := spans[1..];
    forall i | OnlyAt(rest, keep, i) ensures OnlyAt(spans, keep, i + 1) {
      forall j | 0 <= j < |spans| && j != i + 1 ensures !keep(spans[j]) {
        assert j > 0 ==> spans[j] == rest[j - 1];
      }
    }
    forall i | OnlyAt(spans, keep, i) ensures i > 0 && OnlyAt(rest, keep, i - 1) {
      assert i > 0;
      forall j | 0 <= j < |rest| && j != i - 1 ensures !keep(rest[j]) {
        assert rest[j] == spans[j + 1];
      }
    }
  }

  /** A lawful span: sixteen hexadecimal digits in lower case, the target's own, and at most two minutes long. */
  predicate LawfulSpan(s: Span) {
    && |s.id| == 16 && (forall c :: c in s.id ==> '0' <= c <= '9' || 'a' <= c <= 'f')
    && s.ownedByTarget && s.duration.Some? && 0.0 <= s.duration.value <= 120_000.0
  }

  lemma LawfulSpanMeaning(s: Span)
    ensures SpanOk(s) <==> LawfulSpan(s)
  {
    assert forall i :: 0 <= i < |s.id| ==> s.id[i] in s.id;
  }

  /** A span that begins and ends at most five milliseconds outside another. */
  predicate FallsIn(s: Span, root: Span) {
    && s.startUtc.Some? && s.duration.Some? && root.startUtc.Some? && root.duration.Some?
    && var lead, lag := s.startUtc.value - root.startUtc.value, root.duration.value - s.duration.value;
       -5.0 <= lead <= lag + 5.0
  }

  /** One whole trace of this request: `r` is the place of its root, `v` the place of its one invocation. */
  ghost predicate IsTraceOf(d: Document, requestId: string, route: string, r: int, v: int) {
    && d.complete && 1 <= |d.spans| <= 128 && d.spanCount == |d.spans|
    && (forall s :: s in d.spans ==> LawfulSpan(s))
    && (forall i, j :: 0 <= i < j < |d.spans| ==> d.spans[i].id != d.spans[j].id)
    && OnlyAt(d.spans, IsRootSpan, r) && IsRootOf(d, d.spans[r], requestId, route)
    && OnlyAt(d.spans, IsInvocation, v) && RunsUnder(d, d.spans[v], d.spans[r])
  }

  ghost predicate IsRootOf(d: Document, root: Span, requestId: string, route: string) {
    && d.rootSpanId == Some(root.id) && root.requestId == requestId && root.name == "GET /v1/" + route
    && root.service == "vercel.edge-network" && IsTree(ParentsOf(d.spans), root.id)
  }

  /** No unknown runtime span; the invocation falls in the request, and so does each startup span below it. */
  ghost predicate RunsUnder(d: Document, invocation: Span, root: Span) {
    && FallsIn(invocation, root)
    && (forall s :: s in d.spans && IsStartup(s) ==> s.parent == Some(invocation.id) && FallsIn(s, root))
    && (forall s :: s in d.spans ==> !IsUnknownRuntime(s))
    && DistinctNames(Startups(d))
  }

  lemma AcceptedRuntime(d: Document, root: Span, v: int)
    requires OnlyAt(d.spans, IsInvocation, v)
    ensures RuntimeOk(d, root) <==> RunsUnder(d, d.spans[v], root)
  {
    OneKept(d.spans, IsInvocation);
    WhereMeaning(d.spans, IsStartup);
    assert forall s :: Within(s, root) <==> FallsIn(s, root);
    assert Invocations(d) == [d.spans[v]];
    assert forall s :: s in Invocations(d) + Startups(d) <==> s == d.spans[v] || s in Startups(d);
  }

  /** An accepted document is one whole trace of the request, and there is no other reading of it. */
  lemma AcceptedMeaning(d: Document, requestId: string, route: string)
    ensures Accepted(d, requestId, route) <==> exists r: int, v: int :: IsTraceOf(d, requestId, route, r, v)
  {
    OneKept(d.spans, IsRootSpan);
    OneKept(d.spans, IsInvocation);
    forall s: Span ensures SpanOk(s) <==> LawfulSpan(s) {
      LawfulSpanMeaning(s);
    }
    if Accepted(d, requestId, route) {
      var r :| OnlyAt(d.spans, IsRootSpan, r);
      var v :| OnlyAt(d.spans, IsInvocation, v);
      AcceptedRuntime(d, d.spans[r], v);
      assert IsTraceOf(d, requestId, route, r, v);
    }
    if r: int, v: int :| IsTraceOf(d, requestId, route, r, v) {
      AcceptedRuntime(d, d.spans[r], v);
    }
  }

  /** With distinct names, the recorded startup times are those of the startup spans. */
  lemma {:induction false} StartupTimesMeaning(spans: seq<Span>)
    requires DistinctNames(spans) && forall s :: s in spans ==> s.duration.Some?
    ensures StartupTimes(spans).Keys == set s | s in spans :: s.name
    ensures forall s :: s in spans ==> StartupTimes(spans)[s.name] == s.duration.value
  {
    if spans != [] {
      var n := |spans| - 1;
      StartupTimesMeaning(spans[..n]);
      assert spans == spans[..n] + [spans[n]];
      forall s | s in spans ensures s.name in StartupTimes(spans) && StartupTimes(spans)[s.name] == s.duration.value {
        if s in spans[..n] {
          var i :| 0 <= i < n && spans[i] == s;
        }
      }
    }
  }
}
