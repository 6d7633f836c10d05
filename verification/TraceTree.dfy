/** `summarize_trace`: which provider traces are accepted, and which of them are cold. */
module TraceTree {
  import opened Common

  type Id = string

  /** One normalised span. `timed` is None when the duration or timestamp is not usable;
    * instants and durations are exact milliseconds.
    */
  datatype Span = Span(id: Id, parent: Option<Id>, isRoot: bool, name: string, requestId: string,
                       service: string, resourceService: string, ownedByTarget: bool,
                       duration: Option<real>, startUtc: Option<real>)

  datatype Document = Document(complete: bool, spanCount: int, rootSpanId: Option<Id>, spans: seq<Span>)

  datatype Refusal =
    | TraceIncomplete | IdentityOrDuration | RequestIdentity | Ancestry
    | InvocationAmbiguous | RuntimeSchemaChanged | StartupAncestry | StartupOutsideRequest | StartupAmbiguous

  datatype Summary = Summary(cold: bool, vmStart: bool, pythonSpawn: bool, userInit: bool, startup: map<string, real>,
                             invocation: real)

  const MAX_SPANS: nat := 128
  const MAX_DURATION: real := 120_000.0
  const SLACK: real := 5.0

  const RUNTIME: string := "vercel.serverless-runtime"
  const EDGE: string := "vercel.edge-network"
  const START_VM: string := "Start VM"
  const SPAWN_PYTHON: string := "Spawn Python"
  const INIT_USER_CODE: string := "Init User Code"
  const STARTUP_NAMES: set<string> := {START_VM, SPAWN_PYTHON, INIT_USER_CODE}

  // ---- the ancestry walk ----

  /** Parent pointers by span identity. */
  type Parents = map<Id, Option<Id>>

  /** One inner loop: follow parents until the root; a repeat or an unknown span refuses. */
  function Climbs(parents: Parents, root: Id, at: Option<Id>, seen: set<Id>): bool
    requires seen <= parents.Keys
    decreases |parents.Keys - seen|
  {
    if at == Some(root) then true
    else if at.None? || at.value in seen || at.value !in parents then false
    else
      assert at.value in parents.Keys - seen;
      assert parents.Keys - (seen + {at.value}) == (parents.Keys - seen) - {at.value};
      Climbs(parents, root, parents[at.value], seen + {at.value})
  }

  /** The reference: every span but the root hangs one level below a span of the trace. */
  ghost predicate Depths(parents: Parents, root: Id, depth: map<Id, nat>) {
    && depth.Keys == parents.Keys && root in parents && depth[root] == 0
    && forall id :: id in parents && id != root ==>
         parents[id].Some? && parents[id].value in parents && depth[id] == depth[parents[id].value] + 1
  }

  ghost predicate IsTree(parents: Parents, root: Id) {
    exists depth :: Depths(parents, root, depth)
  }

  /** In a tree the climb never meets a span twice: everything seen lies deeper. */
  lemma {:induction false} TreeClimbs(parents: Parents, root: Id, depth: map<Id, nat>, at: Id, seen: set<Id>)
    requires Depths(parents, root, depth) && seen <= parents.Keys && at in parents
    requires forall id :: id in seen ==> depth[id] > depth[at]
    ensures Climbs(parents, root, Some(at), seen)
    decreases depth[at]
  {
    if at != root {
      var up := parents[at].value;
      TreeClimbs(parents, root, depth, up, seen + {at});
    }
  }

  /** Length of a climb that reaches the root. */
  function Height(parents: Parents, root: Id, at: Option<Id>, seen: set<Id>): nat
    requires seen <= parents.Keys && Climbs(parents, root, at, seen)
    decreases |parents.Keys - seen|
  {
    if at == Some(root) then 0
    else
      assert at.value in parents.Keys - seen;
      assert parents.Keys - (seen + {at.value}) == (parents.Keys - seen) - {at.value};
      1 + Height(parents, root, parents[at.value], seen + {at.value})
  }

  /** A successful climb does not depend on what was seen before it. */
  lemma {:induction false} ClimbForgets(parents: Parents, root: Id, at: Option<Id>, seen: set<Id>, fewer: set<Id>)
    requires fewer <= seen <= parents.Keys && Climbs(parents, root, at, seen)
    ensures Climbs(parents, root, at, fewer)
    ensures Height(parents, root, at, fewer) == Height(parents, root, at, seen)
    decreases |parents.Keys - seen|
  {
    if at != Some(root) {
      assert at.value in parents.Keys - seen;
      assert parents.Keys - (seen + {at.value}) == (parents.Keys - seen) - {at.value};
      ClimbForgets(parents, root, parents[at.value], seen + {at.value}, fewer + {at.value});
    }
  }

  /** The walk accepts exactly the trees rooted at the declared root. */
  lemma WalkAcceptsTrees(parents: Parents, root: Id)
    requires root in parents
    ensures (forall id :: id in parents ==> Climbs(parents, root, Some(id), {})) <==> IsTree(parents, root)
  {
    if forall id :: id in parents ==> Climbs(parents, root, Some(id), {}) {
      var depth := map id | id in parents :: Height(parents, root, Some(id), {});
      forall id | id in parents && id != root
        ensures parents[id].Some? && parents[id].value in parents && depth[id] == depth[parents[id].value] + 1
      {
        assert Climbs(parents, root, Some(id), {});
        ClimbForgets(parents, root, parents[id], {} + {id}, {});
      }
      assert Depths(parents, root, depth);
    }
    if IsTree(parents, root) {
      var depth :| Depths(parents, root, depth);
      forall id | id in parents ensures Climbs(parents, root, Some(id), {}) {
        TreeClimbs(parents, root, depth, id, {});
      }
    }
  }

  /** The inner loop of the walk. */
  method ClimbToRoot(parents: Parents, root: Id, start: Id) returns (ok: bool)
    ensures ok == Climbs(parents, root, Some(start), {})
  {
    var identity := Some(start);
    var seen: set<Id> := {};
    while identity != Some(root)
      invariant seen <= parents.Keys
      invariant Climbs(parents, root, identity, seen) == Climbs(parents, root, Some(start), {})
      decreases |parents.Keys - seen|
    {
      if identity.None? || identity.value in seen || identity.value !in parents { return false; }
      assert identity.value in parents.Keys - seen;
      assert parents.Keys - (seen + {identity.value}) == (parents.Keys - seen) - {identity.value};
      seen := seen + {identity.value};
      identity := parents[identity.value];
    }
    return true;
  }

  /** The walk from every span, in the order of the document. */
  method WalkAncestry(parents: Parents, ids: seq<Id>, root: Id) returns (ok: bool)
    requires root in parents && forall id :: id in parents <==> id in ids
    ensures ok <==> IsTree(parents, root)
  {
    WalkAcceptsTrees(parents, root);
    for i := 0 to |ids|
      invariant forall j :: 0 <= j < i ==> Climbs(parents, root, Some(ids[j]), {})
    {
      ok := ClimbToRoot(parents, root, ids[i]);
      if !ok {
        assert ids[i] in parents;
        return;
      }
    }
    return true;
  }

  // ---- the whole summary ----

  predicate IsHex16(id: Id) {
    |id| == 16 && forall i :: 0 <= i < 16 ==> '0' <= id[i] <= '9' || 'a' <= id[i] <= 'f'
  }

  predicate SpanOk(s: Span) {
    IsHex16(s.id) && s.ownedByTarget && s.duration.Some? && 0.0 <= s.duration.value <= MAX_DURATION
  }

  function ParentsOf(spans: seq<Span>): Parents {
    if spans == [] then map[] else ParentsOf(spans[..|spans| - 1])[spans[|spans| - 1].id := spans[|spans| - 1].parent]
  }

  function Where(spans: seq<Span>, keep: Span -> bool): seq<Span> {
    if spans == [] then []
    else if keep(spans[0]) then [spans[0]] + Where(spans[1..], keep)
    else Where(spans[1..], keep)
  }

  predicate IsRootSpan(s: Span) {
    s.isRoot
  }

  predicate IsRuntime(s: Span) {
    s.service == RUNTIME && s.resourceService == RUNTIME
  }

  predicate IsInvocation(s: Span) {
    IsRuntime(s) && s.name == "Invoke Function"
  }

  predicate IsStartup(s: Span) {
    IsRuntime(s) && s.name in STARTUP_NAMES
  }

  predicate IsUnknownRuntime(s: Span) {
    IsRuntime(s) && s.name !in STARTUP_NAMES + {"Invoke Function", "waitUntil"}
  }

  predicate Within(item: Span, root: Span)
  {
    && item.duration.Some? && root.duration.Some? && root.startUtc.Some? && item.startUtc.Some?
    && item.startUtc.value >= root.startUtc.value - SLACK
    && item.startUtc.value + item.duration.value <= root.startUtc.value + root.duration.value + SLACK
  }

  predicate DistinctIds(spans: seq<Span>) {
    forall i, j :: 0 <= i < j < |spans| ==> spans[i].id != spans[j].id
  }

  predicate DistinctNames(spans: seq<Span>) {
    forall i, j :: 0 <= i < j < |spans| ==> spans[i].name != spans[j].name
  }

  function StartupTimes(spans: seq<Span>): map<string, real>
    requires forall s :: s in spans ==> s.duration.Some?
  {
    if spans == [] then map[]
    else StartupTimes(spans[..|spans| - 1])[spans[|spans| - 1].name := spans[|spans| - 1].duration.value]
  }

  function Roots(d: Document): seq<Span> { Where(d.spans, IsRootSpan) }
  function Invocations(d: Document): seq<Span> { Where(d.spans, IsInvocation) }
  function Startups(d: Document): seq<Span> { Where(d.spans, IsStartup) }

  predicate Identified(spans: seq<Span>) {
    (forall s :: s in spans ==> SpanOk(s)) && DistinctIds(spans)
  }

  /** The one root span is the declared root and this request's edge span. */
  predicate Rooted(d: Document, requestId: string, route: string) {
    && |Roots(d)| == 1
    && d.rootSpanId == Some(Roots(d)[0].id) && Roots(d)[0].requestId == requestId
    && Roots(d)[0].name == "GET /v1/" + route && Roots(d)[0].service == EDGE
  }

  /** One invocation, known runtime spans only, and startup spans that are its distinctly named
    * children within five milliseconds of the request.
    */
  predicate RuntimeOk(d: Document, root: Span) {
    && |Invocations(d)| == 1
    && (forall s :: s in d.spans ==> !IsUnknownRuntime(s))
    && (forall s :: s in Startups(d) ==> s.parent == Some(Invocations(d)[0].id))
    && (forall s :: s in Invocations(d) + Startups(d) ==> Within(s, root))
    && DistinctNames(Startups(d))
  }

  /** What an accepted document is, stated without the code's loops. */
  ghost predicate Accepted(d: Document, requestId: string, route: string) {
    && d.complete && 1 <= |d.spans| <= MAX_SPANS && d.spanCount == |d.spans|
    && Identified(d.spans) && Rooted(d, requestId, route)
    && IsTree(ParentsOf(d.spans), Roots(d)[0].id)
    && RuntimeOk(d, Roots(d)[0])
  }

  lemma {:induction false} ParentsMeaning(spans: seq<Span>)
    requires DistinctIds(spans)
    ensures forall id :: id in ParentsOf(spans) <==> exists i :: 0 <= i < |spans| && spans[i].id == id
    ensures forall i :: 0 <= i < |spans| ==>
      spans[i].id in ParentsOf(spans) && ParentsOf(spans)[spans[i].id] == spans[i].parent
  {
    if spans != [] {
      ParentsMeaning(spans[..|spans| - 1]);
    }
  }

  lemma {:induction false} WhereMeaning(spans: seq<Span>, keep: Span -> bool)
    ensures forall s :: s in Where(spans, keep) <==> s in spans && keep(s)
  {
    if spans != [] {
      WhereMeaning(spans[1..], keep);
      assert spans == [spans[0]] + spans[1..];
    }
  }

  /** The identity loop: bounds, ownership and uniqueness of every span. */
  method CheckIdentities(spans: seq<Span>) returns (ok: bool, ids: seq<Id>)
    ensures ok <==> Identified(spans)
    ensures ok ==> |ids| == |spans| && forall j :: 0 <= j < |spans| ==> ids[j] == spans[j].id
  {
    ids := [];
    for i := 0 to |spans|
      invariant |ids| == i && forall j :: 0 <= j < i ==> ids[j] == spans[j].id && SpanOk(spans[j])
      invariant forall j, k :: 0 <= j < k < i ==> spans[j].id != spans[k].id
    {
      if !SpanOk(spans[i]) || spans[i].id in ids {
        assert spans[i] in spans;
        return false, ids;
      }
      ids := ids + [spans[i].id];
    }
    return true, ids;
  }

  predicate HasName(spans: seq<Span>, name: string) {
    exists s :: s in spans && s.name == name
  }

  /** The document holds a startup span of this name. */
  ghost predicate HasStartup(d: Document, name: string) {
    exists s :: s in d.spans && IsStartup(s) && s.name == name
  }

  lemma StartupIsNamed(d: Document, name: string)
    ensures HasName(Startups(d), name) <==> HasStartup(d, name)
  {
    WhereMeaning(d.spans, IsStartup);
  }

  /** The summary itself: what the startup spans say, and how long the invocation took. */
  method Describe(d: Document, invocation: Span) returns (r: Summary)
    requires invocation.duration.Some? && forall s :: s in d.spans ==> s.duration.Some?
    ensures r.cold <==> exists s :: s in d.spans && IsStartup(s)
    ensures r.vmStart <==> HasStartup(d, START_VM)
    ensures r.pythonSpawn <==> HasStartup(d, SPAWN_PYTHON)
    ensures r.userInit <==> HasStartup(d, INIT_USER_CODE)
    ensures (forall s :: s in Startups(d) ==> s.duration.Some?) && r.startup == StartupTimes(Startups(d))
    ensures invocation.duration == Some(r.invocation)
  {
    var startup := Startups(d);
    WhereMeaning(d.spans, IsStartup);
    assert startup != [] ==> startup[0] in startup;
    StartupIsNamed(d, START_VM);
    StartupIsNamed(d, SPAWN_PYTHON);
    StartupIsNamed(d, INIT_USER_CODE);
    r := Summary(startup != [], HasName(startup, START_VM), HasName(startup, SPAWN_PYTHON),
                 HasName(startup, INIT_USER_CODE), StartupTimes(startup), invocation.duration.value);
  }

  /** What the runtime checks object to first. */
  ghost predicate RuntimeRefusal(d: Document, root: Span, why: Refusal) {
    var one := |Invocations(d)| == 1;
    var known := forall s :: s in d.spans ==> !IsUnknownRuntime(s);
    var hung := one && forall s :: s in Startups(d) ==> s.parent == Some(Invocations(d)[0].id);
    var timely := forall s :: s in Invocations(d) + Startups(d) ==> Within(s, root);
    match why
    case InvocationAmbiguous => !one
    case RuntimeSchemaChanged => one && !known
    case StartupAncestry => one && known && !hung
    case StartupOutsideRequest => known && hung && !timely
    case StartupAmbiguous => known && hung && timely && !DistinctNames(Startups(d))
    case _ => false
  }

  /** The runtime checks, in the order of the code. */
  method CheckRuntime(d: Document, root: Span) returns (r: Result<Summary, Refusal>)
    requires forall s :: s in d.spans ==> SpanOk(s)
    ensures r.Ok? <==> RuntimeOk(d, root)
    ensures r.Ok? ==> (r.value.cold <==> exists s :: s in d.spans && IsStartup(s))
    ensures r.Ok? ==> (r.value.vmStart <==> HasStartup(d, START_VM))
    ensures r.Ok? ==> (r.value.pythonSpawn <==> HasStartup(d, SPAWN_PYTHON))
    ensures r.Ok? ==> (r.value.userInit <==> HasStartup(d, INIT_USER_CODE))
    ensures r.Ok? ==>
      (forall s :: s in Startups(d) ==> s.duration.Some?) && r.value.startup == StartupTimes(Startups(d))
    ensures r.Ok? ==> Invocations(d)[0].duration == Some(r.value.invocation)
    ensures r.Err? ==> RuntimeRefusal(d, root, r.error)
  {
    var invocations := Invocations(d);
    WhereMeaning(d.spans, IsInvocation);
    if |invocations| != 1 { return Err(InvocationAmbiguous); }
    var invocation := invocations[0];
    assert invocation in d.spans;
    if exists s :: s in d.spans && IsUnknownRuntime(s) { return Err(RuntimeSchemaChanged); }
    var startup := Startups(d);
    WhereMeaning(d.spans, IsStartup);
    if exists s :: s in startup && s.parent != Some(invocation.id) { return Err(StartupAncestry); }
    if exists s :: s in invocations + startup && !Within(s, root) { return Err(StartupOutsideRequest); }
    if !DistinctNames(startup) { return Err(StartupAmbiguous); }
    var summary := Describe(d, invocation);
    return Ok(summary);
  }

  /** What the whole summary objects to first: its size, its identities, its root, its tree, its runtime spans. */
  ghost predicate Refuses(d: Document, requestId: string, route: string, why: Refusal) {
    var whole := d.complete && 1 <= |d.spans| <= MAX_SPANS && d.spanCount == |d.spans|;
    match why
    case TraceIncomplete => !whole
    case IdentityOrDuration => whole && !Identified(d.spans)
    case RequestIdentity => whole && Identified(d.spans) && !Rooted(d, requestId, route)
    case Ancestry =>
      && whole && Identified(d.spans) && Rooted(d, requestId, route)
      && !IsTree(ParentsOf(d.spans), Roots(d)[0].id)
    case _ =>
      && whole && Identified(d.spans) && Rooted(d, requestId, route)
      && IsTree(ParentsOf(d.spans), Roots(d)[0].id) && RuntimeRefusal(d, Roots(d)[0], why)
  }

  /** `summarize_trace`: accepts exactly the well-formed trees, and calls a trace cold exactly
    * when it holds a startup span.
    */
  method Summarize(d: Document, requestId: string, route: string) returns (r: Result<Summary, Refusal>)
    ensures r.Ok? <==> Accepted(d, requestId, route)
    ensures r.Ok? ==> (r.value.cold <==> exists s :: s in d.spans && IsStartup(s))
    ensures r.Ok? ==> (r.value.vmStart <==> HasStartup(d, START_VM))
    ensures r.Ok? ==> (r.value.pythonSpawn <==> HasStartup(d, SPAWN_PYTHON))
    ensures r.Ok? ==> (r.value.userInit <==> HasStartup(d, INIT_USER_CODE))
    ensures r.Ok? ==>
      (forall s :: s in Startups(d) ==> s.duration.Some?) && r.value.startup == StartupTimes(Startups(d))
    ensures r.Ok? ==> Invocations(d)[0].duration == Some(r.value.invocation)
    ensures r.Err? ==> Refuses(d, requestId, route, r.error)
  {
    if !d.complete || !(1 <= |d.spans| <= MAX_SPANS) || d.spanCount != |d.spans| { return Err(TraceIncomplete); }
    var identified, ids := CheckIdentities(d.spans);
    if !identified { return Err(IdentityOrDuration); }
    if !Rooted(d, requestId, route) { return Err(RequestIdentity); }
    var root := Roots(d)[0];
    WhereMeaning(d.spans, IsRootSpan);
    assert root in Roots(d);
    assert root in d.spans;
    ParentsMeaning(d.spans);
    var tree := WalkAncestry(ParentsOf(d.spans), ids, root.id);
    if !tree { return Err(Ancestry); }
    r := CheckRuntime(d, root);
  }
}
