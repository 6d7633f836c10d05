/** Private scheduler cycles as interleaved steps over one object store and one registry: an atomic
  * put-if-absent claim per schedule slot, a byte-budgeted store, and append-only registry writes.
  */
module Scheduler {
  import opened Common
  import opened Snapshots

  const MAX_ARCHIVE_BYTES: nat := 1_000_000_000
  const CLAIM_BYTES: nat := 1024
  const UPLOAD_LIMIT: nat := MAX_ARCHIVE_BYTES - CLAIM_BYTES
  const SLOTS: nat := 3

  /** Schedule slots in seconds from the first one: 7, 10 and 11 November 2026, all at 07:17 UTC. */
  function SlotInstant(day: nat): real
    requires day < SLOTS
  {
    if day == 0 then 0.0 else if day == 1 then 259200.0 else 345600.0
  }

  datatype Status = Failed | Recorded | NoEligibleForecasts

  /** The published receipt; an absent field is None, an absent flag is false. */
  datatype Receipt = Receipt(inScope: bool, scheduled: Option<Stamp<real>>, status: Status,
                             originVerified: bool, cutoffRuleUnchanged: bool, coverageUnchanged: bool,
                             forecastsRecorded: bool, marginProven: bool, recordsUnchanged: bool,
                             inserted: Option<int>, margin: Option<real>, cutoff: Option<string>,
                             recordedAt: Option<Stamp<real>>, opening: Option<Stamp<real>>,
                             storage: Option<int>, evidence: Option<string>)

  /** The report that a run starts with. */
  function Blank(day: nat): Receipt
    requires day < SLOTS
  {
    Receipt(true, Some(Stamp(SlotInstant(day), true)), Failed, true, true, true, false, false, false,
            None, None, None, None, None, None, None)
  }

  /** What the forecast workflow reports back. */
  datatype Outcome = Outcome(inserted: nat, cutoff: string, recordedAt: Stamp<real>, opening: Stamp<real>, margin: real,
                             passed: bool)

  /** The report after a successful snapshot comparison. */
  function Filled(day: nat, o: Outcome): Receipt
    requires day < SLOTS
  {
    Blank(day).(status := if o.inserted > 0 then Recorded else NoEligibleForecasts,
                cutoff := Some(o.cutoff), inserted := Some(o.inserted), recordedAt := Some(o.recordedAt),
                opening := Some(o.opening), forecastsRecorded := o.inserted > 0,
                marginProven := o.inserted > 0 && o.passed, margin := Some(o.margin), recordsUnchanged := true)
  }

  /** `reserve`: the new reservation, or nothing when the budget would be passed. */
  function Reserve(reserved: nat, size: int): (r: Option<nat>)
    ensures r.Some? <==> 0 <= size <= UPLOAD_LIMIT - reserved
    ensures r.Some? ==> r.value - reserved == size && r.value <= UPLOAD_LIMIT
  {
    if size < 0 || reserved + size > UPLOAD_LIMIT then None else Some(reserved + size)
  }

  /** A sequence of attempts: the reservation that they leave, and which of them were granted. */
  function ReserveAll(reserved: nat, sizes: seq<int>): (nat, seq<bool>)
    decreases |sizes|
  {
    if sizes == [] then (reserved, [])
    else
      var next := Reserve(reserved, sizes[0]);
      var (end, granted) := ReserveAll(if next.Some? then next.value else reserved, sizes[1..]);
      (end, [next.Some?] + granted)
  }

  function TotalGranted(sizes: seq<int>, granted: seq<bool>): int
    requires |sizes| == |granted|
  {
    if sizes == [] then 0 else (if granted[0] then sizes[0] else 0) + TotalGranted(sizes[1..], granted[1..])
  }

  /** However the attempts are ordered, the reservation is the sum of the granted sizes and stays within
    * the limit, and a size that was refused at its turn is negative or does not fit at the end either.
    */
  lemma {:induction false} ReservationsAddUp(reserved: nat, sizes: seq<int>)
    requires reserved <= UPLOAD_LIMIT
    ensures var (end, granted) := ReserveAll(reserved, sizes);
      && |granted| == |sizes| && reserved <= end <= UPLOAD_LIMIT
      && end == reserved + TotalGranted(sizes, granted)
      && forall i :: 0 <= i < |sizes| ==>
           if granted[i] then sizes[i] >= 0 else sizes[i] < 0 || end + sizes[i] > UPLOAD_LIMIT
    decreases |sizes|
  {
    if sizes != [] {
      var next := Reserve(reserved, sizes[0]);
      var now := if next.Some? then next.value else reserved;
      ReservationsAddUp(now, sizes[1..]);
      var (end, granted) := ReserveAll(now, sizes[1..]);
      assert ([next.Some?] + granted)[1..] == granted;
      forall i | 0 < i < |sizes|
        ensures if granted[i - 1] then sizes[i] >= 0 else sizes[i] < 0 || end + sizes[i] > UPLOAD_LIMIT
      {
        assert sizes[i] == sizes[1..][i - 1];
      }
    }
  }

  /** The content-addressed store behind the budget. */
  class ObjectStore {
    var contents: set<string>
    var total: nat

    constructor ()
      ensures contents == {} && total == 0
    {
      contents, total := {}, 0;
    }

    method Put(content: string)
      modifies this
      ensures contents == old(contents) + {content}
      ensures total == old(total) + (if content in old(contents) then 0 else |content|)
    {
      if content !in contents {
        contents, total := contents + {content}, total + |content|;
      }
    }
  }

  /** `BudgetedStore`: what it lets into the store never exceeds what it has reserved. */
  class BudgetedStore {
    const store: ObjectStore
    const opening: nat
    var bytesReserved: nat

    ghost predicate Valid()
      reads this, store
    {
      bytesReserved <= UPLOAD_LIMIT && store.total <= opening + bytesReserved
    }

    constructor (store: ObjectStore)
      ensures Valid() && this.store == store && bytesReserved == 0 && opening == store.total
    {
      this.store, opening, bytesReserved := store, store.total, 0;
    }

    method PutBytes(content: string) returns (ok: bool)
      requires Valid()
      modifies this, store
      ensures Valid()
      ensures ok <==> old(bytesReserved) + |content| <= UPLOAD_LIMIT
      ensures ok ==>
        bytesReserved == old(bytesReserved) + |content| && store.contents == old(store.contents) + {content}
      ensures !ok ==>
        && bytesReserved == old(bytesReserved)
        && store.contents == old(store.contents) && store.total == old(store.total)
    {
      var reserved := Reserve(bytesReserved, |content|);
      if reserved.None? { return false; }
      bytesReserved := reserved.value;
      store.Put(content);
      return true;
    }
  }

  type RunId = int

  datatype Phase =
    | Admitted
    | Lost(report: Receipt)
    | Working(seen: Option<Registry>)
    | Closing(report: Receipt, before: Registry, after: Registry)
    | Closed(receipt: Option<Receipt>, before: Registry, after: Registry)

  /** `put` counts every byte that the run added to the store, its claim included. */
  datatype Run = Run(day: nat, phase: Phase, reserved: nat, put: nat)

  datatype World = World(claims: map<nat, RunId>, registry: Registry, stored: nat, runs: map<RunId, Run>)

  /** What the client sees of its conditional put: the store may have acted although the reply is lost. */
  datatype Reply = Delivered | Unsent | ReplyLost

  datatype Event =
    | Admit(id: RunId, day: nat)
    | Claim(id: RunId, size: nat, reply: Reply)
    | Look(id: RunId)
    | Change(id: RunId, registry: Registry)
    | Upload(id: RunId, amount: int, kept: nat)
    | Finish(id: RunId, outcome: Outcome)
    | Fail(id: RunId)
    | Archive(id: RunId, size: nat, kept: nat, sent: bool, digest: string)

  function Update(w: World, id: RunId, run: Run): World {
    w.(runs := w.runs[id := run])
  }

  /** The atomic conditional put of the claim object. */
  function ClaimStep(w: World, id: RunId, run: Run, size: nat, reply: Reply): World
    requires run.day < SLOTS
  {
    if reply == Unsent || run.day in w.claims then
      Update(w, id, run.(phase := Lost(Blank(run.day))))
    else
      var phase := if reply == Delivered then Working(None) else Lost(Blank(run.day));
      Update(w, id, run.(phase := phase, put := size)).(claims := w.claims[run.day := id], stored := w.stored + size)
  }

  /** A budgeted put: the store keeps at most what was reserved, less when it already has the object. */
  function UploadStep(w: World, id: RunId, run: Run, size: int, kept: nat): World {
    var reserved := Reserve(run.reserved, size);
    if reserved.None? || kept > size then w
    else Update(w, id, run.(reserved := reserved.value, put := run.put + kept)).(stored := w.stored + kept)
  }

  /** The final comparison: the report is filled only when every earlier row is unchanged. */
  ghost function FinishStep(w: World, id: RunId, run: Run, before: Registry, outcome: Outcome): World
    requires run.day < SLOTS
  {
    var report := if Preserved(before, w.registry) then Filled(run.day, outcome) else Blank(run.day);
    Update(w, id, run.(phase := Closing(report, before, w.registry)))
  }

  /** The evidence archive; a run that cannot store it, or does not learn that it is stored, publishes no
    * receipt, and then the store may keep it all the same.
    */
  function ArchiveStep(w: World, id: RunId, run: Run, size: nat, kept: nat, sent: bool, digest: string): World
    requires run.phase.Closing?
  {
    var none := run.(phase := Closed(None, run.phase.before, run.phase.after));
    var reserved := Reserve(run.reserved, size);
    if size > MAX_ARCHIVE_BYTES || reserved.None? || kept > size then Update(w, id, none)
    else if !sent then
      Update(w, id, none.(reserved := reserved.value, put := run.put + kept)).(stored := w.stored + kept)
    else
      var receipt := run.phase.report.(evidence := Some(digest), storage := Some(reserved.value + CLAIM_BYTES));
      var done := run.(phase := Closed(Some(receipt), run.phase.before, run.phase.after),
                       reserved := reserved.value, put := run.put + kept);
      Update(w, id, done).(stored := w.stored + kept)
  }

  /** One step of one run; a step that its run is not ready for changes nothing. */
  ghost function Step(w: World, e: Event): World {
    if e.Admit? then
      if e.id in w.runs || e.day >= SLOTS then w else Update(w, e.id, Run(e.day, Admitted, 0, 0))
    else if e.id !in w.runs || w.runs[e.id].day >= SLOTS then w
    else
      var run := w.runs[e.id];
      match e
      case Claim(id, size, reply) =>
        if run.phase.Admitted? && size <= CLAIM_BYTES then ClaimStep(w, id, run, size, reply) else w
      case Look(id) =>
        if run.phase == Working(None) then Update(w, id, run.(phase := Working(Some(w.registry)))) else w
      case Change(_, registry) =>
        if run.phase.Working? && run.phase.seen.Some? then w.(registry := registry) else w
      case Upload(id, size, kept) =>
        if run.phase.Working? then UploadStep(w, id, run, size, kept) else w
      case Finish(id, outcome) =>
        if run.phase.Working? && run.phase.seen.Some? then FinishStep(w, id, run, run.phase.seen.value, outcome) else w
      case Fail(id) =>
        if run.phase.Working? then Update(w, id, run.(phase := Closing(Blank(run.day), map[], map[]))) else w
      case Archive(id, size, kept, sent, digest) =>
        if run.phase.Closing? then ArchiveStep(w, id, run, size, kept, sent, digest) else w
      case Admit(_, _) => w
  }

  ghost function RunAll(w: World, events: seq<Event>): World
    decreases |events|
  {
    if events == [] then w else RunAll(Step(w, events[0]), events[1..])
  }

  function Start(registry: Registry, stored: nat): World {
    World(map[], registry, stored, map[])
  }

  /** Bytes that the holder of the slot's claim has added. */
  function Spent(w: World, day: nat): nat {
    if day in w.claims && w.claims[day] in w.runs then w.runs[w.claims[day]].put else 0
  }

  ghost predicate PastClaim(run: Run) {
    run.phase.Working? || run.phase.Closing? || run.phase.Closed?
  }

  ghost predicate Holds(claims: map<nat, RunId>, id: RunId, run: Run) {
    run.day in claims && claims[run.day] == id
  }

  /** A report that says the records are unchanged compared two snapshots that prove it. */
  ghost predicate Honest(day: nat, report: Receipt, before: Registry, after: Registry)
    requires day < SLOTS
  {
    && report.inScope && report.scheduled == Some(Stamp(SlotInstant(day), true))
    && (report.recordsUnchanged ==> Preserved(before, after))
  }

  /** What a run owes to the claims: only the holder gets past the claim or stores a byte. */
  ghost predicate Tied(claims: map<nat, RunId>, id: RunId, run: Run) {
    && (PastClaim(run) ==> Holds(claims, id, run))
    && (!Holds(claims, id, run) ==> run.put == 0)
    && (run.phase.Admitted? ==> !Holds(claims, id, run))
  }

  ghost predicate WithinBudget(run: Run) {
    && run.reserved <= UPLOAD_LIMIT && run.put <= run.reserved + CLAIM_BYTES
    && (!PastClaim(run) ==> run.reserved == 0)
  }

  ghost predicate ReportsHonestly(run: Run)
    requires run.day < SLOTS
  {
    match run.phase
    case Lost(report) => report == Blank(run.day)
    case Closing(report, before, after) => Honest(run.day, report, before, after)
    case Closed(Some(receipt), before, after) =>
      Honest(run.day, receipt, before, after) && receipt.storage == Some(run.reserved + CLAIM_BYTES)
    case _ => true
  }

  ghost predicate RunIsLawful(claims: map<nat, RunId>, id: RunId, run: Run) {
    run.day < SLOTS && Tied(claims, id, run) && WithinBudget(run) && ReportsHonestly(run)
  }

  ghost predicate RunsAreLawful(w: World) {
    forall id :: id in w.runs ==> RunIsLawful(w.claims, id, w.runs[id])
  }

  ghost predicate ClaimsAreRuns(w: World) {
    forall d :: d in w.claims ==> d < SLOTS && w.claims[d] in w.runs && w.runs[w.claims[d]].day == d
  }

  ghost predicate Balanced(w: World, opening: nat) {
    w.stored == opening + Spent(w, 0) + Spent(w, 1) + Spent(w, 2)
  }

  ghost predicate Lawful(w: World, opening: nat) {
    ClaimsAreRuns(w) && Balanced(w, opening) && RunsAreLawful(w)
  }

  function PutBy(w: World, id: RunId): nat {
    if id in w.runs then w.runs[id].put else 0
  }

  /** The books stay balanced when a run that holds its claim adds bytes, or nothing is added. */
  lemma UpdateBalances(w: World, id: RunId, run: Run, opening: nat)
    requires ClaimsAreRuns(w) && Balanced(w, opening)
    requires id in w.runs ==> w.runs[id].day == run.day
    requires run.put == PutBy(w, id) || (id in w.runs && Holds(w.claims, id, run) && run.put >= PutBy(w, id))
    ensures var next := Update(w, id, run).(stored := w.stored + run.put - PutBy(w, id));
      ClaimsAreRuns(next) && Balanced(next, opening)
  {
    var next := Update(w, id, run).(stored := w.stored + run.put - PutBy(w, id));
    var added := run.put - PutBy(w, id);
    forall d ensures Spent(next, d) == Spent(w, d) + (if d in w.claims && w.claims[d] == id then added else 0) {
    }
  }

  /** Replacing one run keeps the law when its own part does and the claims stay. */
  lemma UpdateIsLawful(w: World, id: RunId, run: Run, opening: nat)
    requires Lawful(w, opening) && RunIsLawful(w.claims, id, run)
    requires id in w.runs ==> w.runs[id].day == run.day
    requires run.put == PutBy(w, id) || (id in w.runs && Holds(w.claims, id, run) && run.put >= PutBy(w, id))
    ensures Lawful(Update(w, id, run).(stored := w.stored + run.put - PutBy(w, id)), opening)
  {
    UpdateBalances(w, id, run, opening);
  }

  /** Taking a free claim does not disturb the other runs. */
  lemma OthersStayTied(claims: map<nat, RunId>, day: nat, id: RunId, other: RunId, run: Run)
    requires day !in claims && other != id && Tied(claims, other, run)
    ensures Tied(claims[day := id], other, run)
  {
  }

  /** The state after `id` has taken the free claim of its slot. */
  ghost predicate Claimed(w: World, next: World, id: RunId, size: nat) {
    && id in w.runs && id in next.runs && w.runs[id].day !in w.claims
    && next.claims == w.claims[w.runs[id].day := id] && next.stored == w.stored + size
    && next.runs == w.runs[id := next.runs[id]]
    && next.runs[id].day == w.runs[id].day && next.runs[id].put == size
  }

  lemma ClaimBalances(w: World, next: World, id: RunId, size: nat, opening: nat)
    requires ClaimsAreRuns(w) && Balanced(w, opening) && Claimed(w, next, id, size) && w.runs[id].day < SLOTS
    ensures ClaimsAreRuns(next) && Balanced(next, opening)
  {
    assert forall d :: d in w.claims && w.claims[d] == id ==> w.runs[id].day == d;
    forall d ensures Spent(next, d) == if d == w.runs[id].day then size else Spent(w, d) {
    }
  }

  lemma ClaimKeepsRuns(w: World, next: World, id: RunId, size: nat)
    requires RunsAreLawful(w) && Claimed(w, next, id, size) && RunIsLawful(next.claims, id, next.runs[id])
    ensures RunsAreLawful(next)
  {
    forall other | other in next.runs && other != id ensures RunIsLawful(next.claims, other, next.runs[other]) {
      assert RunIsLawful(w.claims, other, w.runs[other]);
      OthersStayTied(w.claims, w.runs[id].day, id, other, w.runs[other]);
    }
  }

  lemma ClaimIsLawful(w: World, id: RunId, size: nat, reply: Reply, opening: nat)
    requires Lawful(w, opening) && id in w.runs && w.runs[id].phase.Admitted? && size <= CLAIM_BYTES
    ensures Lawful(ClaimStep(w, id, w.runs[id], size, reply), opening)
  {
    var run := w.runs[id];
    assert RunIsLawful(w.claims, id, run);
    if reply == Unsent || run.day in w.claims {
      UpdateIsLawful(w, id, run.(phase := Lost(Blank(run.day))), opening);
    } else {
      var next := ClaimStep(w, id, run, size, reply);
      assert Claimed(w, next, id, size);
      ClaimBalances(w, next, id, size, opening);
      ClaimKeepsRuns(w, next, id, size);
    }
  }

  lemma ArchiveIsLawful(w: World, id: RunId, size: nat, kept: nat, sent: bool, digest: string, opening: nat)
    requires Lawful(w, opening) && id in w.runs && w.runs[id].phase.Closing?
    ensures Lawful(ArchiveStep(w, id, w.runs[id], size, kept, sent, digest), opening)
  {
    var run := w.runs[id];
    assert RunIsLawful(w.claims, id, run);
    UpdateIsLawful(w, id, ArchiveStep(w, id, run, size, kept, sent, digest).runs[id], opening);
  }

  lemma UploadIsLawful(w: World, id: RunId, size: int, kept: nat, opening: nat)
    requires Lawful(w, opening) && id in w.runs && w.runs[id].phase.Working?
    ensures Lawful(UploadStep(w, id, w.runs[id], size, kept), opening)
  {
    assert RunIsLawful(w.claims, id, w.runs[id]);
    UpdateIsLawful(w, id, UploadStep(w, id, w.runs[id], size, kept).runs[id], opening);
  }

  /** Every step of any run keeps the law. */
  lemma StepIsLawful(w: World, e: Event, opening: nat)
    requires Lawful(w, opening)
    ensures Lawful(Step(w, e), opening)
  {
    if e.Admit? {
      if e.id !in w.runs && e.day < SLOTS {
        assert !Holds(w.claims, e.id, Run(e.day, Admitted, 0, 0));
        UpdateIsLawful(w, e.id, Run(e.day, Admitted, 0, 0), opening);
      }
    } else if e.id in w.runs {
      var run := w.runs[e.id];
      assert RunIsLawful(w.claims, e.id, run);
      match e
      case Claim(id, size, reply) =>
        if run.phase.Admitted? && size <= CLAIM_BYTES { ClaimIsLawful(w, id, size, reply, opening); }
      case Look(id) =>
        if run.phase.Working? { UpdateIsLawful(w, id, run.(phase := Working(Some(w.registry))), opening); }
      case Change(_, registry) =>
        RegistryIsFree(w, registry, opening);
      case Upload(id, size, kept) =>
        if run.phase.Working? { UploadIsLawful(w, id, size, kept, opening); }
      case Finish(id, outcome) =>
        if run.phase.Working? && run.phase.seen.Some? {
          UpdateIsLawful(w, id, Step(w, e).runs[id], opening);
        }
      case Fail(id) =>
        if run.phase.Working? { UpdateIsLawful(w, id, run.(phase := Closing(Blank(run.day), map[], map[])), opening); }
      case Archive(id, size, kept, sent, digest) =>
        if run.phase.Closing? { ArchiveIsLawful(w, id, size, kept, sent, digest, opening); }
    }
  }

  lemma RegistryIsFree(w: World, registry: Registry, opening: nat)
    requires Lawful(w, opening)
    ensures Lawful(w.(registry := registry), opening)
  {
    var next := w.(registry := registry);
    assert forall d :: Spent(next, d) == Spent(w, d);
  }

  /** In every interleaving of any number of runs the law holds, and claims are never taken back. */
  lemma {:induction false} EveryInterleavingIsLawful(w: World, events: seq<Event>, opening: nat)
    requires Lawful(w, opening)
    ensures Lawful(RunAll(w, events), opening)
    ensures Submap(w.claims, RunAll(w, events).claims)
    decreases |events|
  {
    if events != [] {
      StepIsLawful(w, events[0], opening);
      assert Submap(w.claims, Step(w, events[0]).claims);
      EveryInterleavingIsLawful(Step(w, events[0]), events[1..], opening);
    }
  }

  /** At most one run per slot gets past the claim. */
  lemma OneRunPerSlot(registry: Registry, opening: nat, events: seq<Event>, a: RunId, b: RunId)
    requires var w := RunAll(Start(registry, opening), events);
      a in w.runs && b in w.runs && PastClaim(w.runs[a]) && PastClaim(w.runs[b]) && w.runs[a].day == w.runs[b].day
    ensures a == b
  {
    StartIsLawful(registry, opening);
    EveryInterleavingIsLawful(Start(registry, opening), events, opening);
    var w := RunAll(Start(registry, opening), events);
    assert RunIsLawful(w.claims, a, w.runs[a]) && RunIsLawful(w.claims, b, w.runs[b]);
  }

  lemma StartIsLawful(registry: Registry, opening: nat)
    ensures Lawful(Start(registry, opening), opening)
  {
  }

  /** While another run holds its slot, no step of a run changes claims, registry or store. */
  lemma LosersChangeNothing(registry: Registry, opening: nat, events: seq<Event>, e: Event)
    requires var w := RunAll(Start(registry, opening), events);
      e.id in w.runs && w.runs[e.id].day in w.claims && w.claims[w.runs[e.id].day] != e.id
    ensures var w := RunAll(Start(registry, opening), events);
      Step(w, e).claims == w.claims && Step(w, e).registry == w.registry && Step(w, e).stored == w.stored
  {
    StartIsLawful(registry, opening);
    EveryInterleavingIsLawful(Start(registry, opening), events, opening);
    var w := RunAll(Start(registry, opening), events);
    assert RunIsLawful(w.claims, e.id, w.runs[e.id]);
  }

  /** All interleaved cycles together add at most three times the ceiling, and each published bound
    * covers what its run added.
    */
  lemma StorageIsBounded(registry: Registry, opening: nat, events: seq<Event>)
    ensures var w := RunAll(Start(registry, opening), events);
      && opening <= w.stored <= opening + SLOTS * MAX_ARCHIVE_BYTES
      && forall id :: id in w.runs && w.runs[id].phase.Closed? && w.runs[id].phase.receipt.Some? ==>
           var bound := w.runs[id].phase.receipt.value.storage;
           bound.Some? && w.runs[id].put <= bound.value <= MAX_ARCHIVE_BYTES
  {
    StartIsLawful(registry, opening);
    EveryInterleavingIsLawful(Start(registry, opening), events, opening);
    var w := RunAll(Start(registry, opening), events);
    forall id | id in w.runs ensures RunIsLawful(w.claims, id, w.runs[id]) && w.runs[id].put <= MAX_ARCHIVE_BYTES {
    }
    assert forall d :: Spent(w, d) <= MAX_ARCHIVE_BYTES;
  }
}
