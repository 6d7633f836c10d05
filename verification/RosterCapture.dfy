/** Saving a captured index with its roster and commitment, and verifying the three files offline. */
module RosterCapture {
  import opened Common
  import opened Sorting
  import opened Roster

  const MAX_INDEX_BYTES: nat := 64 * 1024 * 1024
  const MAX_ROSTER_BYTES: nat := 16 * 1024 * 1024
  const MAX_COMMITMENT_BYTES: nat := 16 * 1024

  datatype RosterDocument = RosterDocument(study: string, index: Digest, filers: seq<Filer>)

  datatype Commitment = Commitment(study: string, policy: Digest, capturedAt: string, index: Digest, indexBytes: nat,
                                   roster: Digest, rosterBytes: nat, rows: nat, ciks: nat)

  /** The policy with its window, and the encodings: the lines of an index, JSON documents, instants. */
  datatype Study = Study(policy: Policy, policyBytes: Bytes, opens: int, closes: int,
                         lines: Bytes -> Option<seq<Entry>>,
                         rosterBytes: RosterDocument -> Bytes,
                         commitBytes: Commitment -> Bytes, commitOf: Bytes -> Option<Commitment>,
                         instantOf: string -> Option<int>, isoOf: int -> string)

  ghost predicate Faithful(s: Study) {
    && (forall c :: s.commitBytes(c) != [] && s.commitOf(s.commitBytes(c)) == Some(c))
    && (forall d :: s.rosterBytes(d) != [])
    && (forall t :: s.instantOf(s.isoOf(t)) == Some(t))
  }

  // ---- the documents, as functions of the index ----

  lemma {:induction false} OrderedCount(xs: seq<string>, members: set<string>)
    requires Ordered(StringLt, xs) && forall x :: x in xs <==> x in members
    ensures |xs| == |members|
  {
    if xs == [] {
      assert members == {};
    } else {
      TailMembers(StringLt, xs);
      assert xs[0] in xs;
      assert forall i :: 0 <= i < |xs| - 1 ==> xs[1..][i] == xs[i + 1];
      OrderedCount(xs[1..], members - {xs[0]});
    }
  }

  /** The roster has one filer for each CIK and one filing for each row. */
  lemma RosterCounts(rows: seq<Row>)
    requires Ordered(RowLt, rows)
    ensures |Grouped(CikList(rows), rows)| == |Ciks(rows)|
    ensures Flatten(Grouped(CikList(rows), rows)) == rows
  {
    CikListLists(rows);
    OrderedCount(CikList(rows), Ciks(rows));
    RosterIsLossless(CikList(rows), rows);
  }

  ghost predicate Readable(s: Study, payload: Bytes) {
    0 < |payload| <= MAX_INDEX_BYTES && s.lines(payload).Some? && Lawful(s.policy, s.lines(payload).value)
  }

  function SortedRows(s: Study, payload: Bytes): seq<Row>
    requires s.lines(payload).Some?
  {
    Sort(RowLt, Rows(s.policy, s.lines(payload).value))
  }

  function RosterDoc(s: Study, payload: Bytes): RosterDocument
    requires s.lines(payload).Some?
  {
    RosterDocument(s.policy.study, Digest(payload), Grouped(CikList(SortedRows(s, payload)), SortedRows(s, payload)))
  }

  /** The index can be committed to: it is lawful and its roster is within its bound. */
  ghost predicate Committable(s: Study, payload: Bytes) {
    Readable(s, payload) && |s.rosterBytes(RosterDoc(s, payload))| <= MAX_ROSTER_BYTES
  }

  function CommitmentAt(s: Study, payload: Bytes, at: int): Commitment
    requires s.lines(payload).Some?
  {
    var roster := s.rosterBytes(RosterDoc(s, payload));
    Commitment(s.policy.study, Digest(s.policyBytes), s.isoOf(at), Digest(payload), |payload|, Digest(roster), |roster|,
               |SortedRows(s, payload)|, |Ciks(SortedRows(s, payload))|)
  }

  ghost predicate InWindow(s: Study, at: int) {
    s.opens <= at < s.closes
  }

  // ---- the same documents, as the program builds them ----

  method ReadRows(s: Study, payload: Bytes) returns (r: Option<seq<Row>>)
    ensures r.Some? <==> Readable(s, payload)
    ensures r.Some? ==> r.value == SortedRows(s, payload)
  {
    if payload == [] || |payload| > MAX_INDEX_BYTES || s.lines(payload).None? { return None; }
    var rows := PeriodicRows(s.policy, s.lines(payload).value);
    return if rows.Ok? then Some(rows.value) else None;
  }

  /** `build_filer_roster` */
  method BuildRoster(s: Study, payload: Bytes) returns (r: Option<Bytes>)
    ensures r.Some? <==> Committable(s, payload)
    ensures r.Some? ==> r.value == s.rosterBytes(RosterDoc(s, payload))
  {
    var rows := ReadRows(s, payload);
    if rows.None? { return None; }
    var filers := Group(rows.value);
    var encoded := s.rosterBytes(RosterDocument(s.policy.study, Digest(payload), filers));
    return if |encoded| > MAX_ROSTER_BYTES then None else Some(encoded);
  }

  /** `build_commitment` */
  method BuildCommitment(s: Study, payload: Bytes, at: int) returns (r: Option<Commitment>)
    ensures r.Some? <==> InWindow(s, at) && Committable(s, payload)
    ensures r.Some? ==> r.value == CommitmentAt(s, payload, at)
  {
    if !(s.opens <= at < s.closes) { return None; }
    var rows := ReadRows(s, payload);
    if rows.None? { return None; }
    var roster := BuildRoster(s, payload);
    if roster.None? { return None; }
    return Some(Commitment(s.policy.study, Digest(s.policyBytes), s.isoOf(at), Digest(payload), |payload|,
                           Digest(roster.value), |roster.value|, |rows.value|, |Ciks(rows.value)|));
  }

  // ---- the capture directory ----

  datatype Files = Files(index: Bytes, roster: Bytes, commitment: Bytes)

  ghost predicate WithinBounds(f: Files) {
    && 0 < |f.index| <= MAX_INDEX_BYTES && 0 < |f.roster| <= MAX_ROSTER_BYTES
    && 0 < |f.commitment| <= MAX_COMMITMENT_BYTES
  }

  /** The three files agree with each other, the policy and some instant of the window. */
  ghost predicate Verifies(s: Study, f: Files, c: Commitment) {
    && WithinBounds(f) && s.commitOf(f.commitment) == Some(c)
    && s.instantOf(c.capturedAt).Some? && InWindow(s, s.instantOf(c.capturedAt).value)
    && Committable(s, f.index) && c == CommitmentAt(s, f.index, s.instantOf(c.capturedAt).value)
    && f.roster == s.rosterBytes(RosterDoc(s, f.index))
  }

  /** The commitment is the index's own, at an instant of the window, and its file is within its bound. */
  ghost predicate Saveable(s: Study, payload: Bytes, c: Commitment) {
    && s.instantOf(c.capturedAt).Some? && InWindow(s, s.instantOf(c.capturedAt).value)
    && Committable(s, payload) && c == CommitmentAt(s, payload, s.instantOf(c.capturedAt).value)
    && |s.commitBytes(c)| <= MAX_COMMITMENT_BYTES
  }

  /** What a capture directory holds: each file may be missing, or cut short by a crash. */
  datatype Held = Held(index: Option<Bytes>, roster: Option<Bytes>, commitment: Option<Bytes>)

  /** A save dies after `complete` whole files: the next one is not created, or holds its first bytes. */
  datatype Crash = Crash(complete: nat, bytes: Option<nat>)

  function Prefix(content: Bytes, n: nat): Bytes {
    if n <= |content| then content[..n] else content
  }

  /** What is left of the i-th file; without a crash, all of it. */
  function Part(content: Bytes, i: nat, crash: Option<Crash>): Option<Bytes> {
    if crash.None? || i < crash.value.complete then Some(content)
    else if i == crash.value.complete && crash.value.bytes.Some? then Some(Prefix(content, crash.value.bytes.value))
    else None
  }

  function Left(f: Files, crash: Option<Crash>): Held {
    Held(Part(f.index, 0, crash), Part(f.roster, 1, crash), Part(f.commitment, 2, crash))
  }

  function Whole(h: Held): Option<Files> {
    if h.index.Some? && h.roster.Some? && h.commitment.Some? then
      Some(Files(h.index.value, h.roster.value, h.commitment.value))
    else None
  }

  ghost predicate HeldVerifies(s: Study, h: Held, c: Commitment) {
    Whole(h).Some? && Verifies(s, Whole(h).value, c)
  }

  /** One capture directory, created by the first save. */
  class Vault {
    const study: Study
    var files: Option<Held>

    constructor (study: Study)
      ensures this.study == study && files == None
    {
      this.study, files := study, None;
    }

    /** `save_capture`: refuses an existing directory and any commitment but the index's own; creates the
      * three files one after the other, and a crash leaves what was written until then.
      */
    method Save(payload: Bytes, commitment: Commitment, crash: Option<Crash>) returns (ok: bool)
      requires Faithful(study) && (crash.Some? ==> crash.value.complete <= 2)
      modifies this
      ensures ok <==> crash.None? && old(files).None? && Saveable(study, payload, commitment)
      ensures if old(files).None? && Saveable(study, payload, commitment) then
          var f := Files(payload, study.rosterBytes(RosterDoc(study, payload)), study.commitBytes(commitment));
          files == Some(Left(f, crash)) && Verifies(study, f, commitment)
        else files == old(files)
    {
      var at := study.instantOf(commitment.capturedAt);
      if at.None? { return false; }
      var expected := BuildCommitment(study, payload, at.value);
      if expected.None? || commitment != expected.value { return false; }
      var roster := BuildRoster(study, payload);
      var encoded := study.commitBytes(commitment);
      if roster.None? || |encoded| > MAX_COMMITMENT_BYTES || files.Some? { return false; }
      var held := Held(None, None, None);
      held := held.(index := Part(payload, 0, crash));
      files := Some(held);
      if crash.Some? && crash.value.complete == 0 { return false; }
      held := held.(roster := Part(roster.value, 1, crash));
      files := Some(held);
      if crash.Some? && crash.value.complete == 1 { return false; }
      held := held.(commitment := Part(encoded, 2, crash));
      files := Some(held);
      return crash.None?;
    }

    /** `verify_capture` */
    method Verify() returns (r: Option<Commitment>)
      ensures r.Some? ==> files.Some? && HeldVerifies(study, files.value, r.value)
      ensures r.None? ==> files.None? || forall c :: !HeldVerifies(study, files.value, c)
    {
      if files.None? || Whole(files.value).None? { return None; }
      var f := Whole(files.value).value;
      if !(0 < |f.index| <= MAX_INDEX_BYTES) || !(0 < |f.roster| <= MAX_ROSTER_BYTES)
         || !(0 < |f.commitment| <= MAX_COMMITMENT_BYTES)
      {
        return None;
      }
      var commitment := study.commitOf(f.commitment);
      if commitment.None? { return None; }
      var at := study.instantOf(commitment.value.capturedAt);
      if at.None? { return None; }
      var expected := BuildCommitment(study, f.index, at.value);
      if expected.None? || commitment.value != expected.value { return None; }
      var roster := BuildRoster(study, f.index);
      if roster.None? || f.roster != roster.value { return None; }
      return Some(expected.value);
    }
  }

  // ---- what verification protects ----

  /** Beside an unchanged commitment only the original index and roster verify. */
  lemma ChangedSourceIsRefused(s: Study, f: Files, c: Commitment, g: Files)
    requires Verifies(s, f, c) && g.commitment == f.commitment
    ensures (exists d :: Verifies(s, g, d)) <==> g == f
  {
    if exists d :: Verifies(s, g, d) {
      var d :| Verifies(s, g, d);
    }
  }

  /** Changing the commitment alone is refused unless all that changes, besides its spelling, is the
    * capture instant, and that stays inside the window.
    */
  lemma ChangedCommitmentMeaning(s: Study, f: Files, c: Commitment, g: Files, d: Commitment)
    requires Faithful(s) && Verifies(s, f, c) && g.index == f.index && g.roster == f.roster
    ensures Verifies(s, g, d) <==>
      && 0 < |g.commitment| <= MAX_COMMITMENT_BYTES && s.commitOf(g.commitment) == Some(d)
      && exists at :: InWindow(s, at) && d == c.(capturedAt := s.isoOf(at))
  {
    if Verifies(s, g, d) {
      var at := s.instantOf(d.capturedAt).value;
      assert InWindow(s, at) && d == c.(capturedAt := s.isoOf(at));
    }
  }

  /** So a capture can be restamped: the same files with another instant of the window verify as well. */
  lemma RestampedCaptureVerifies(s: Study, f: Files, c: Commitment, at: int)
    requires Faithful(s) && Verifies(s, f, c) && InWindow(s, at)
    requires |s.commitBytes(c.(capturedAt := s.isoOf(at)))| <= MAX_COMMITMENT_BYTES
    ensures Verifies(s, f.(commitment := s.commitBytes(c.(capturedAt := s.isoOf(at)))), c.(capturedAt := s.isoOf(at)))
    ensures s.instantOf(c.capturedAt) != Some(at) ==> c.(capturedAt := s.isoOf(at)) != c
  {
    var d := c.(capturedAt := s.isoOf(at));
    var g := f.(commitment := s.commitBytes(d));
    assert InWindow(s, at) && d == c.(capturedAt := s.isoOf(at));
    ChangedCommitmentMeaning(s, f, c, g, d);
  }

  /** What a crash leaves of a good capture verifies only if it died inside the third file, and what is
    * there of that file already decodes to the commitment, up to its instant; and the directory, being
    * there, refuses another save.
    */
  lemma InterruptedSaveMeaning(s: Study, f: Files, c: Commitment, crash: Crash, d: Commitment)
    requires Faithful(s) && Verifies(s, f, c) && crash.complete <= 2
    ensures HeldVerifies(s, Left(f, Some(crash)), d) <==>
      && crash.complete == 2 && crash.bytes.Some? && crash.bytes.value > 0
      && s.commitOf(Prefix(f.commitment, crash.bytes.value)) == Some(d)
      && exists at :: InWindow(s, at) && d == c.(capturedAt := s.isoOf(at))
  {
    if crash.complete == 2 && crash.bytes.Some? {
      ChangedCommitmentMeaning(s, f, c, f.(commitment := Prefix(f.commitment, crash.bytes.value)), d);
    }
  }

  /** Two indexes that differ only in the order of their lines give the same roster but for the source digest. */
  lemma LineOrderOnlyMovesTheDigest(s: Study, a: Bytes, b: Bytes)
    requires s.lines(a).Some? && s.lines(b).Some? && multiset(s.lines(a).value) == multiset(s.lines(b).value)
    requires Readable(s, a)
    ensures RosterDoc(s, b) == RosterDoc(s, a).(index := Digest(b))
    ensures |b| <= MAX_INDEX_BYTES && b != [] ==> Readable(s, b)
  {
    RosterIgnoresLineOrder(s.policy, s.lines(a).value, s.lines(b).value);
  }
}
