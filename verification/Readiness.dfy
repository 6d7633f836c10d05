/** The release decision, split over a status report and the manifest validator that it relies on. */
module Readiness {
  import opened Common
  import opened ErrorCodes

  /** A JSON value read from the manifest; an absent key reads as Null. */
  datatype Value = Null | Truth(b: bool) | Number(n: int) | Text(s: string) | Compound

  const APPROVED: Value := Text("approved")
  const PENDING: Value := Text("operator_review_required")
  const SYNTHETIC: Value := Text("synthetic_fixture")
  const SNAPSHOT_PATH: string := "data/demo/snapshot.json"

  datatype Snapshot = Snapshot(path: Value, dataMode: Value, sha: Value, selectionHash: Value, lockedTestHash: Value,
                               researchOnly: Value, rawPublic: Value, derivedPublic: Value)
  datatype Review = Review(redistribution: Value, legal: Value, reviewedAt: Value)
  datatype Source = Source(id: Value, name: Value, role: Value, terms: Value, redistribution: Value)

  /** The manifest file: unreadable or not an object, or an object whose parts may have other types. */
  datatype Manifest =
    | Unreadable
    | Manifest(schema: Value, snapshot: Option<Snapshot>, review: Option<Review>, sources: Option<seq<Option<Source>>>)

  /** The patterns of both files and the spelling of a value as text. */
  datatype Patterns = Patterns(isTimestamp: string -> bool, isDigest: string -> bool, isHttps: string -> bool,
                               spell: Value -> string)

  // ---- the manifest validator ----

  datatype Finding =
    | NotReadable | BadSchema
    | NoSnapshot | BadPath | BadMode | BadDigest | SelectionHashShown | LockedTestHashShown
    | NotResearchOnly | RawSourcesPublic | OutputNotPublic
    | NoReview | BadRedistribution | BadLegal | ApprovedWithoutLegal | ApprovedWithoutTimestamp
    | PendingWithLegal | BadTimestamp
    | NoSources | NotASource(index: nat) | NoIdentity(index: nat) | NoTerms(index: nat) | BadSourceStatus(index: nat)

  /** A finding for each check that does not hold. */
  function Unless(holds: bool, finding: Finding): seq<Finding> {
    if holds then [] else [finding]
  }

  predicate IsTimestamp(p: Patterns, v: Value) {
    v.Text? && p.isTimestamp(v.s)
  }

  /** `x in {False, True}`: Python counts 0 and 1 as members. */
  predicate InBooleans(v: Value) {
    v.Truth? || v == Number(0) || v == Number(1)
  }

  predicate ReviewRaises(review: Option<Review>) {
    review.Some? && (review.value.redistribution.Compound? || review.value.legal.Compound?)
  }

  predicate SourceRaises(source: Option<Source>) {
    source.Some? && source.value.redistribution.Compound?
  }

  /** Testing an unhashable value for set membership raises. */
  predicate Raises(m: Manifest) {
    m.Manifest? &&
    (ReviewRaises(m.review) ||
     (m.sources.Some? && exists i :: 0 <= i < |m.sources.value| && SourceRaises(m.sources.value[i])))
  }

  function SnapshotFindings(p: Patterns, snapshot: Option<Snapshot>): seq<Finding> {
    match snapshot
    case None => [NoSnapshot]
    case Some(s) =>
      Unless(s.path == Text(SNAPSHOT_PATH), BadPath) + Unless(s.dataMode == SYNTHETIC, BadMode)
      + Unless(p.isDigest(p.spell(s.sha)), BadDigest)
      + Unless(s.selectionHash == Null, SelectionHashShown) + Unless(s.lockedTestHash == Null, LockedTestHashShown)
      + Unless(s.researchOnly == Truth(true), NotResearchOnly) + Unless(s.rawPublic == Truth(false), RawSourcesPublic)
      + Unless(s.derivedPublic == Truth(true), OutputNotPublic)
  }

  function ReviewFindings(p: Patterns, review: Option<Review>): seq<Finding> {
    match review
    case None => [NoReview]
    case Some(r) =>
      Unless(r.redistribution == PENDING || r.redistribution == APPROVED, BadRedistribution)
      + Unless(InBooleans(r.legal), BadLegal)
      + (if r.redistribution == APPROVED then
           Unless(r.legal == Truth(true), ApprovedWithoutLegal)
           + Unless(IsTimestamp(p, r.reviewedAt), ApprovedWithoutTimestamp)
         else
           Unless(r.legal == Truth(false), PendingWithLegal)
           + Unless(r.reviewedAt == Null || IsTimestamp(p, r.reviewedAt), BadTimestamp))
  }

  predicate SourceStatusKnown(v: Value) {
    v == Text("synthetic_only") || v == Text("review_required") || v == APPROVED
  }

  predicate IsName(v: Value) {
    v.Text? && v.s != ""
  }

  function SourceFindings(p: Patterns, index: nat, source: Option<Source>): seq<Finding> {
    match source
    case None => [NotASource(index)]
    case Some(s) =>
      Unless(IsName(s.id) && IsName(s.name) && IsName(s.role), NoIdentity(index))
      + Unless(p.isHttps(p.spell(s.terms)), NoTerms(index))
      + Unless(SourceStatusKnown(s.redistribution), BadSourceStatus(index))
  }

  /** The findings of the sources in order, for a finder that is told their index. */
  function FoundIn(find: (nat, Option<Source>) -> seq<Finding>, sources: seq<Option<Source>>): seq<Finding> {
    if sources == [] then []
    else
      var n := |sources| - 1;
      FoundIn(find, sources[..n]) + find(n, sources[n])
  }

  function SourceFinder(p: Patterns): (nat, Option<Source>) -> seq<Finding> {
    (index: nat, source: Option<Source>) => SourceFindings(p, index, source)
  }

  function AllSourceFindings(p: Patterns, sources: seq<Option<Source>>): seq<Finding> {
    FoundIn(SourceFinder(p), sources)
  }

  /** `== 1`: Python counts True as 1. */
  function SchemaFindings(schema: Value): seq<Finding> {
    Unless(schema == Number(1) || schema == Truth(true), BadSchema)
  }

  function SourcesFindings(p: Patterns, sources: Option<seq<Option<Source>>>): seq<Finding> {
    if sources.None? || sources.value == [] then [NoSources] else AllSourceFindings(p, sources.value)
  }

  function Findings(p: Patterns, m: Manifest): seq<Finding> {
    match m
    case Unreadable => [NotReadable]
    case Manifest(schema, snapshot, review, sources) =>
      SchemaFindings(schema) + SnapshotFindings(p, snapshot) + ReviewFindings(p, review) + SourcesFindings(p, sources)
  }

  /** `_validate_provenance_manifest` appends to the caller's list; None says that it raised. */
  method ValidateProvenance(p: Patterns, m: Manifest, before: seq<Finding>) returns (errors: Option<seq<Finding>>)
    ensures errors.None? <==> Raises(m)
    ensures errors.Some? ==> errors.value == before + Findings(p, m)
  {
    if m.Unreadable? { return Some(before + [NotReadable]); }
    var list := before + SchemaFindings(m.schema) + SnapshotFindings(p, m.snapshot);
    if ReviewRaises(m.review) { return None; }
    list := list + ReviewFindings(p, m.review);
    FindingsAssociate(before, SchemaFindings(m.schema), SnapshotFindings(p, m.snapshot), ReviewFindings(p, m.review),
                      SourcesFindings(p, m.sources));
    if m.sources.None? || m.sources.value == [] { return Some(list + [NoSources]); }
    errors := ValidateSources(p, m.sources.value, list);
  }

  lemma FindingsAssociate(before: seq<Finding>, a: seq<Finding>, b: seq<Finding>, c: seq<Finding>, d: seq<Finding>)
    ensures ((before + a + b) + c) + d == before + (a + b + c + d)
  {
  }

  method ValidateSources(p: Patterns, sources: seq<Option<Source>>, before: seq<Finding>)
      returns (errors: Option<seq<Finding>>)
    ensures errors.None? <==> exists i :: 0 <= i < |sources| && SourceRaises(sources[i])
    ensures errors.Some? ==> errors.value == before + AllSourceFindings(p, sources)
  {
    errors := ValidateEach(SourceFinder(p), SourceRaises, sources, before);
  }

  /** The loop over the sources, for any finder and any test of what raises. */
  method ValidateEach(find: (nat, Option<Source>) -> seq<Finding>, raises: Option<Source> -> bool,
                      sources: seq<Option<Source>>, before: seq<Finding>) returns (errors: Option<seq<Finding>>)
    ensures errors.None? <==> exists i :: 0 <= i < |sources| && raises(sources[i])
    ensures errors.Some? ==> errors.value == before + FoundIn(find, sources)
  {
    var list := before;
    for i := 0 to |sources|
      invariant forall j :: 0 <= j < i ==> !raises(sources[j])
      invariant list == before + FoundIn(find, sources[..i])
    {
      if raises(sources[i]) { return None; }
      assert sources[..i + 1][..i] == sources[..i];
      list := list + find(i, sources[i]);
    }
    assert sources[..|sources|] == sources;
    return Some(list);
  }

  // ---- what the findings say ----

  predicate IsApprovedReview(p: Patterns, r: Review) {
    && r.redistribution == Text("approved") && r.legal == Truth(true)
    && r.reviewedAt.Text? && p.isTimestamp(r.reviewedAt.s)
  }

  /** Pending, and then without an approval; a date, if there is one, is a timestamp. */
  predicate IsPendingReview(p: Patterns, r: Review) {
    && r.redistribution == Text("operator_review_required") && r.legal == Truth(false)
    && (r.reviewedAt == Null || (r.reviewedAt.Text? && p.isTimestamp(r.reviewedAt.s)))
  }

  /** A synthetic snapshot at its one path, with a digest and no private hash, declared as what it is. */
  predicate IsSyntheticSnapshot(p: Patterns, s: Snapshot) {
    && s.path == Text("data/demo/snapshot.json") && s.dataMode == Text("synthetic_fixture")
    && p.isDigest(p.spell(s.sha))
    && s.selectionHash == Null && s.lockedTestHash == Null
    && s.researchOnly == Truth(true) && s.rawPublic == Truth(false) && s.derivedPublic == Truth(true)
  }

  /** Named, with HTTPS terms and a known redistribution status. */
  predicate IsDocumented(p: Patterns, source: Option<Source>) {
    && source.Some?
    && source.value.id.Text? && source.value.id.s != "" && source.value.name.Text? && source.value.name.s != ""
    && source.value.role.Text? && source.value.role.s != "" && p.isHttps(p.spell(source.value.terms))
    && (source.value.redistribution == Text("synthetic_only") || source.value.redistribution == Text("review_required")
        || source.value.redistribution == Text("approved"))
  }

  /** A manifest that nothing is wrong with. */
  ghost predicate IsSoundManifest(p: Patterns, m: Manifest) {
    && m.Manifest? && (m.schema == Number(1) || m.schema == Truth(true))
    && m.snapshot.Some? && IsSyntheticSnapshot(p, m.snapshot.value)
    && m.review.Some? && (IsApprovedReview(p, m.review.value) || IsPendingReview(p, m.review.value))
    && m.sources.Some? && m.sources.value != []
    && forall i :: 0 <= i < |m.sources.value| ==> IsDocumented(p, m.sources.value[i])
  }

  lemma SnapshotMeaning(p: Patterns, s: Snapshot)
    ensures SnapshotFindings(p, Some(s)) == [] <==> IsSyntheticSnapshot(p, s)
  {
  }

  lemma ReviewMeaning(p: Patterns, r: Review)
    ensures ReviewFindings(p, Some(r)) == [] <==> IsApprovedReview(p, r) || IsPendingReview(p, r)
  {
  }

  lemma SourceMeaning(p: Patterns, index: nat, source: Option<Source>)
    ensures SourceFindings(p, index, source) == [] <==> IsDocumented(p, source)
  {
  }

  lemma {:induction false} SourcesMeaning(p: Patterns, sources: seq<Option<Source>>)
    ensures AllSourceFindings(p, sources) == [] <==> forall i :: 0 <= i < |sources| ==> IsDocumented(p, sources[i])
  {
    if sources != [] {
      var n := |sources| - 1;
      SourcesMeaning(p, sources[..n]);
      SourceMeaning(p, n, sources[n]);
      assert forall i :: 0 <= i < n ==> sources[..n][i] == sources[i];
    }
  }

  /** The validator finds nothing exactly in a sound manifest: snapshot, review and every source. */
  lemma NoFindingsMeaning(p: Patterns, m: Manifest)
    ensures Findings(p, m) == [] <==> IsSoundManifest(p, m)
  {
    if m.Manifest? {
      if m.snapshot.Some? { SnapshotMeaning(p, m.snapshot.value); }
      if m.review.Some? { ReviewMeaning(p, m.review.value); }
      if m.sources.Some? { SourcesMeaning(p, m.sources.value); }
    }
  }

  // ---- the review state ----

  datatype Check = Passed | FailedCheck | ReviewRequired

  /** `codes` are the error codes of the review check. */
  datatype State = State(check: Check, codes: seq<string>, redistribution: Value, legal: Value, required: nat,
                         approved: nat)

  function Statuses(sources: seq<Option<Source>>): seq<Value> {
    if sources == [] then []
    else (if sources[0].Some? then [sources[0].value.redistribution] else []) + Statuses(sources[1..])
  }

  function CountApproved(statuses: seq<Value>): nat {
    if statuses == [] then 0 else (if statuses[0] == APPROVED then 1 else 0) + CountApproved(statuses[1..])
  }

  function CountOthers(statuses: seq<Value>): nat {
    if statuses == [] then 0 else (if statuses[0] != APPROVED then 1 else 0) + CountOthers(statuses[1..])
  }

  predicate ApprovedReview(p: Patterns, r: Review, statuses: seq<Value>) {
    && r.redistribution == APPROVED && r.legal == Truth(true) && statuses != []
    && CountOthers(statuses) == 0 && IsTimestamp(p, r.reviewedAt)
  }

  const UNREADABLE_CODE: string := "provenance_manifest_unreadable"
  const INVALID_CODE: string := "provenance_review_contract_invalid"
  const PENDING_CODE: string := "redistribution_review_pending"

  /** `_review_state` */
  function ReviewState(p: Patterns, m: Manifest): State {
    if m.Unreadable? then State(FailedCheck, [UNREADABLE_CODE], Null, Null, 0, 0)
    else if m.review.None? || m.sources.None? then State(FailedCheck, [INVALID_CODE], Null, Null, 0, 0)
    else
      var statuses := Statuses(m.sources.value);
      var passed := ApprovedReview(p, m.review.value, statuses);
      State(if passed then Passed else ReviewRequired, if passed then [] else [PENDING_CODE],
            m.review.value.redistribution, m.review.value.legal, CountOthers(statuses), CountApproved(statuses))
  }

  // ---- the report ----

  datatype Blocked = BundleFailed | LockFailed | ReviewInvalid
  datatype Pending = RedistributionPending | SourceTermsPending
  datatype Status = BlockedStatus | ReviewStatus | Ready

  datatype CheckId = PublicBundle | SnapshotLock | RedistributionReview | UnknownCheck

  datatype CheckRow = CheckRow(id: CheckId, check: Check, codes: seq<string>)

  datatype Report = Report(status: Status, checks: seq<CheckRow>, review: State,
                           blocked: seq<Blocked>, pending: seq<Pending>, path: Value, sha: Value)

  function BlockedReasons(bundleFailed: bool, lockFailed: bool, s: State): seq<Blocked> {
    (if bundleFailed then [BundleFailed] else []) + (if lockFailed then [LockFailed] else [])
    + (if s.check.FailedCheck? then [ReviewInvalid] else [])
  }

  function PendingReasons(s: State): seq<Pending> {
    if !s.check.ReviewRequired? then []
    else
      (if s.redistribution != APPROVED then [RedistributionPending] else [])
      + (if s.required > 0 then [SourceTermsPending] else [])
  }

  function StatusFrom(blocked: seq<Blocked>, pending: seq<Pending>): Status {
    if blocked != [] then BlockedStatus else if pending != [] then ReviewStatus else Ready
  }

  function StatusOf(bundleFailed: bool, lockFailed: bool, s: State): Status {
    StatusFrom(BlockedReasons(bundleFailed, lockFailed, s), PendingReasons(s))
  }

  function Codes(lower: string -> string, messages: seq<string>): seq<string> {
    seq(|messages|, i requires 0 <= i < |messages| => ErrorCode(lower, messages[i]))
  }

  /** Three checks with known and different identifiers, only safe codes, and none on a passed check. */
  ghost predicate LawfulChecks(checks: seq<CheckRow>) {
    && |checks| == 3
    && (forall k :: 0 <= k < 3 ==> LawfulRow(checks[k]))
    && forall j, k :: 0 <= j < k < 3 ==> checks[j].id != checks[k].id
  }

  ghost predicate LawfulRow(row: CheckRow) {
    row.id != UnknownCheck && AreCodes(row.codes) && (row.check.Passed? ==> row.codes == [])
  }

  ghost predicate AreCodes(codes: seq<string>) {
    forall i :: 0 <= i < |codes| ==> IsCode(codes[i])
  }

  /** The copied fields of the manifest are among the allowed ones. */
  predicate LawfulCopies(p: Patterns, redistribution: Value, legal: Value, path: Value, sha: Value) {
    && (redistribution == Null || redistribution == PENDING || redistribution == APPROVED)
    && (legal == Null || InBooleans(legal))
    && (path == Null || path == Text(SNAPSHOT_PATH))
    && (sha == Null || (sha.Text? && p.isDigest(sha.s)))
  }

  /** What a saved report must satisfy besides its fixed fields and its hash: the status is the one that
    * its own reasons call for.
    */
  ghost predicate Verified(p: Patterns, r: Report) {
    && LawfulChecks(r.checks) && LawfulCopies(p, r.review.redistribution, r.review.legal, r.path, r.sha)
    && r.status == StatusFrom(r.blocked, r.pending)
  }

  function SnapshotOf(m: Manifest): (Value, Value) {
    if m.Manifest? && m.snapshot.Some? then (m.snapshot.value.path, m.snapshot.value.sha) else (Null, Null)
  }

  function Row(id: CheckId, codes: seq<string>): CheckRow {
    CheckRow(id, if codes == [] then Passed else FailedCheck, codes)
  }

  /** The report before it is verified. */
  function Assemble(p: Patterns, lower: string -> string, bundle: seq<string>, lock: seq<string>, m: Manifest): Report {
    var s := ReviewState(p, m);
    var checks := [Row(PublicBundle, Codes(lower, bundle)), Row(SnapshotLock, Codes(lower, lock)),
                   CheckRow(RedistributionReview, s.check, s.codes)];
    Report(StatusOf(bundle != [], lock != [], s), checks, s,
           BlockedReasons(bundle != [], lock != [], s), PendingReasons(s), SnapshotOf(m).0, SnapshotOf(m).1)
  }

  /** The manifest's own fields that a report copies are among the allowed ones. */
  predicate Copyable(p: Patterns, m: Manifest) {
    && (m.Manifest? && m.review.Some? && m.sources.Some? ==>
          LawfulCopies(p, m.review.value.redistribution, m.review.value.legal, Null, Null))
    && (m.Manifest? && m.snapshot.Some? ==>
          LawfulCopies(p, Null, Null, m.snapshot.value.path, m.snapshot.value.sha))
  }

  lemma UnreadableIsCode()
    ensures IsCode(UNREADABLE_CODE)
  {
  }

  lemma InvalidIsCode()
    ensures IsCode(INVALID_CODE)
  {
  }

  lemma PendingIsCode()
    ensures IsCode(PENDING_CODE)
  {
  }

  lemma CodesAreSafe(lower: string -> string, messages: seq<string>)
    ensures AreCodes(Codes(lower, messages))
  {
    forall i | 0 <= i < |messages| ensures IsCode(Codes(lower, messages)[i]) {
      ErrorCodeIsSafe(lower, messages[i]);
    }
  }

  lemma ReviewRowIsLawful(p: Patterns, m: Manifest)
    ensures LawfulRow(CheckRow(RedistributionReview, ReviewState(p, m).check, ReviewState(p, m).codes))
  {
    UnreadableIsCode();
    InvalidIsCode();
    PendingIsCode();
  }

  /** An assembled report passes its own verification exactly when the fields it copies are allowed:
    * its checks, codes, reasons and status always fit together.
    */
  lemma AssembledIsVerified(p: Patterns, lower: string -> string, bundle: seq<string>, lock: seq<string>, m: Manifest)
    ensures Verified(p, Assemble(p, lower, bundle, lock, m)) <==> Copyable(p, m)
  {
    CodesAreSafe(lower, bundle);
    CodesAreSafe(lower, lock);
    ReviewRowIsLawful(p, m);
    assert LawfulChecks(Assemble(p, lower, bundle, lock, m).checks);
  }

  /** Verification counts the checks: every one of the three is there, once. */
  lemma AllChecksArePresent(p: Patterns, r: Report, id: CheckId)
    requires Verified(p, r) && id != UnknownCheck
    ensures exists k :: 0 <= k < 3 && r.checks[k].id == id && forall j :: 0 <= j < 3 && j != k ==> r.checks[j].id != id
  {
    var a, b, c := r.checks[0], r.checks[1], r.checks[2];
    assert LawfulRow(a) && LawfulRow(b) && LawfulRow(c);
    assert a.id != b.id && a.id != c.id && b.id != c.id;
    assert a.id == id || b.id == id || c.id == id;
    var k := if a.id == id then 0 else if b.id == id then 1 else 2;
    assert r.checks[k].id == id;
  }

  /** But it never compares them with the status: with any lawful checks in their place, failed ones
    * included, a report verifies exactly as before.
    */
  lemma VerificationIgnoresOutcomes(p: Patterns, r: Report, checks: seq<CheckRow>)
    requires LawfulChecks(r.checks) && LawfulChecks(checks)
    ensures Verified(p, r) <==> Verified(p, r.(checks := checks))
  {
  }

  /** So a report with a failed check can verify as "ready"; one that the program assembled never does. */
  lemma SavedReadyCanBeFailed(p: Patterns)
    ensures var failed := CheckRow(PublicBundle, FailedCheck, []);
      var checks := [failed, CheckRow(SnapshotLock, Passed, []), CheckRow(RedistributionReview, Passed, [])];
      Verified(p, Report(Ready, checks, State(Passed, [], APPROVED, Truth(true), 0, 1), [], [], Null, Null))
    ensures forall lower, bundle, lock, m :: Assemble(p, lower, bundle, lock, m).status == Ready ==>
      forall k :: 0 <= k < 3 ==> Assemble(p, lower, bundle, lock, m).checks[k].check != FailedCheck
  {
  }

  // ---- what "ready" means ----

  /** The review is complete: everything approved, by a dated legal approval. */
  ghost predicate FullyApproved(p: Patterns, m: Manifest) {
    && m.Manifest? && m.review.Some? && m.sources.Some? && m.sources.value != []
    && m.review.value.redistribution == APPROVED && m.review.value.legal == Truth(true)
    && IsTimestamp(p, m.review.value.reviewedAt)
    && (forall i :: 0 <= i < |m.sources.value| ==> m.sources.value[i].Some? && IsApprovedSource(m.sources.value[i]))
  }

  predicate IsApprovedSource(source: Option<Source>) {
    source.Some? ==> source.value.redistribution == APPROVED
  }

  lemma {:induction false} NoOthers(sources: seq<Option<Source>>)
    ensures CountOthers(Statuses(sources)) == 0 <==> forall i :: 0 <= i < |sources| ==> IsApprovedSource(sources[i])
  {
    if sources != [] {
      NoOthers(sources[1..]);
      var rest := Statuses(sources[1..]);
      assert Statuses(sources) == (if sources[0].Some? then [sources[0].value.redistribution] + rest else rest);
      assert sources[0].Some? ==> ([sources[0].value.redistribution] + rest)[1..] == rest;
      assert (forall i :: 0 <= i < |sources| ==> IsApprovedSource(sources[i]))
        <==> IsApprovedSource(sources[0]) && forall i :: 0 <= i < |sources[1..]| ==> IsApprovedSource(sources[1..][i]);
    }
  }

  lemma {:induction false} NoneSkipped(sources: seq<Option<Source>>)
    requires forall i :: 0 <= i < |sources| ==> sources[i].Some?
    ensures |Statuses(sources)| == |sources|
  {
    if sources != [] {
      NoneSkipped(sources[1..]);
    }
  }

  lemma {:induction false} NoSourceFindings(p: Patterns, sources: seq<Option<Source>>)
    ensures AllSourceFindings(p, sources) == [] ==> forall i :: 0 <= i < |sources| ==> sources[i].Some?
  {
    if sources != [] {
      NoSourceFindings(p, sources[..|sources| - 1]);
    }
  }

  /** The condition under which the status logic alone says "ready". */
  ghost predicate LooksReady(m: Manifest) {
    && m.Manifest? && m.review.Some? && m.sources.Some? && m.review.value.redistribution == APPROVED
    && forall i :: 0 <= i < |m.sources.value| ==> IsApprovedSource(m.sources.value[i])
  }

  /** Without bundle and lock errors the status logic never asks for the legal approval, its date, or a
    * single source.
    */
  lemma StatusAloneMeaning(p: Patterns, m: Manifest)
    ensures StatusOf(false, false, ReviewState(p, m)) == Ready <==> LooksReady(m)
  {
    if m.Manifest? && m.review.Some? && m.sources.Some? {
      NoOthers(m.sources.value);
    }
  }

  /** A manifest that the status logic alone would release without any approval. */
  lemma StatusAloneIsUnsound(p: Patterns)
    ensures var m := Manifest(Number(1), None, Some(Review(APPROVED, Truth(false), Null)), Some([]));
      StatusOf(false, false, ReviewState(p, m)) == Ready && !FullyApproved(p, m) && Findings(p, m) != []
  {
    var m := Manifest(Number(1), None, Some(Review(APPROVED, Truth(false), Null)), Some([]));
    StatusAloneMeaning(p, m);
  }

  /** The validator closes the gap: with its findings among the bundle errors, "ready" means exactly
    * that no check failed and the review is fully approved.
    */
  lemma ReadyMeansApproved(p: Patterns, m: Manifest, bundleFailed: bool, lockFailed: bool)
    requires Findings(p, m) != [] ==> bundleFailed
    ensures StatusOf(bundleFailed, lockFailed, ReviewState(p, m)) == Ready <==>
      !bundleFailed && !lockFailed && FullyApproved(p, m)
  {
    if !bundleFailed && m.Manifest? && m.review.Some? && m.sources.Some? {
      NoOthers(m.sources.value);
      NoSourceFindings(p, m.sources.value);
      if forall i :: 0 <= i < |m.sources.value| ==> m.sources.value[i].Some? {
        NoneSkipped(m.sources.value);
      }
    }
  }

  /** A sound manifest whose review and every source are approved. */
  ghost predicate IsReleasable(p: Patterns, m: Manifest) {
    && IsSoundManifest(p, m) && IsApprovedReview(p, m.review.value)
    && forall i :: 0 <= i < |m.sources.value| ==> m.sources.value[i].value.redistribution == Text("approved")
  }

  lemma ReleasableMeaning(p: Patterns, m: Manifest)
    ensures IsReleasable(p, m) <==> IsSoundManifest(p, m) && FullyApproved(p, m)
  {
    if IsSoundManifest(p, m) && FullyApproved(p, m) {
      forall i | 0 <= i < |m.sources.value| ensures m.sources.value[i].value.redistribution == Text("approved") {
        assert IsApprovedSource(m.sources.value[i]);
      }
    }
  }

  // ---- both files together ----

  datatype Build = Published(report: Report) | RefusedByVerifier | Crashed

  /** `build_public_release_readiness`: `others` are the bundle's other messages. */
  method BuildReadiness(p: Patterns, lower: string -> string, message: Finding -> string, others: seq<string>,
                        lock: seq<string>, m: Manifest) returns (r: Build)
    ensures r.Crashed? <==> Raises(m)
    ensures r.Published? <==> !Raises(m) && Copyable(p, m)
    ensures r.Published? ==> Verified(p, r.report)
    ensures r.Published? ==>
      (r.report.status == Ready <==> others == [] && Findings(p, m) == [] && lock == [] && FullyApproved(p, m))
    ensures r.Published? ==> (r.report.status == Ready <==> others == [] && lock == [] && IsReleasable(p, m))
  {
    var findings := ValidateProvenance(p, m, []);
    if findings.None? { return Crashed; }
    assert [] + Findings(p, m) == Findings(p, m);
    var messages := seq(|findings.value|, i requires 0 <= i < |findings.value| => message(findings.value[i]));
    var bundle := messages + others;
    var report := Assemble(p, lower, bundle, lock, m);
    AssembledIsVerified(p, lower, bundle, lock, m);
    ReadyMeansApproved(p, m, bundle != [], lock != []);
    NoFindingsMeaning(p, m);
    ReleasableMeaning(p, m);
    var ok := VerifyReport(p, report);
    return if ok then Published(report) else RefusedByVerifier;
  }

  /** `verify_public_release_readiness`, on the fields that vary. */
  method VerifyReport(p: Patterns, r: Report) returns (ok: bool)
    ensures ok <==> Verified(p, r)
  {
    var checks := VerifyChecks(r.checks);
    ok := checks && LawfulCopies(p, r.review.redistribution, r.review.legal, r.path, r.sha)
      && !(r.status.BlockedStatus? && r.blocked == []) && !(!r.status.BlockedStatus? && r.blocked != [])
      && !(r.status.ReviewStatus? && r.pending == []) && !(r.status.Ready? && r.pending != []);
  }

  /** The loop over the checks, with the identifiers seen so far. */
  method VerifyChecks(checks: seq<CheckRow>) returns (ok: bool)
    ensures ok <==> LawfulChecks(checks)
  {
    if |checks| != 3 { return false; }
    var observed: set<CheckId> := {};
    for i := 0 to 3
      invariant forall k :: 0 <= k < i ==> LawfulRow(checks[k]) && checks[k].id in observed
      invariant forall id :: id in observed ==> exists k :: 0 <= k < i && checks[k].id == id
      invariant forall j, k :: 0 <= j < k < i ==> checks[j].id != checks[k].id
    {
      if checks[i].id == UnknownCheck || checks[i].id in observed { return false; }
      var safe := AllCodes(checks[i].codes);
      if !safe || (checks[i].check.Passed? && checks[i].codes != []) { return false; }
      observed := observed + {checks[i].id};
    }
    return true;
  }

  method AllCodes(codes: seq<string>) returns (ok: bool)
    ensures ok <==> AreCodes(codes)
  {
    for i := 0 to |codes|
      invariant forall j :: 0 <= j < i ==> IsCode(codes[j])
    {
      if !(1 <= |codes[i]| <= 120 && forall k :: 0 <= k < |codes[i]| ==> IsCodeChar(codes[i][k])) { return false; }
    }
    return true;
  }
}
