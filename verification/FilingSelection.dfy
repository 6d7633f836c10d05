/** Which filings the collector inspects: `choose_filings` and `choose_ownership_filings`. */
module FilingSelection {
  import opened Common
  import opened SourceTypes
  import opened Sorting
  import opened TextParts

  /** A timestamp keeps its text, because rows are compared by their canonical bytes. */
  datatype Accepted = At(text: string, micros: int) | Unreadable(text: string)

  datatype Series = Absent | Named(name: string) | NotText

  datatype Row = Row(cik: string, accession: string, form: string, accepted: Accepted,
                     document: string, series: Series)

  const DAY: int := 86_400_000_000
  const LOOKBACK_DAYS: int := 730
  const PUBLICATION_LAG_DAYS: int := 7
  const PERIODIC_FORMS: set<string> := {"10-K", "10-Q"}
  const OWNERSHIP_FORMS: set<string> := {"SC 13G", "SC 13G/A", "SC 13D", "SC 13D/A"}

  /** `[0-9]{10}-[0-9]{2}-[0-9]{6}` */
  predicate IsAccession(s: string) {
    && |s| == 20
    && forall i :: 0 <= i < 20 ==> if i == 10 || i == 13 then s[i] == '-' else IsDigit(s[i])
  }

  predicate InWindow(micros: int, cutoff: int) {
    cutoff - LOOKBACK_DAYS * DAY <= micros <= cutoff - PUBLICATION_LAG_DAYS * DAY
  }

  predicate Eligible(row: Row, forms: set<string>, cutoff: int) {
    row.form in forms && row.accepted.At? && InWindow(row.accepted.micros, cutoff)
  }

  function Find(available: seq<Row>, accession: string): Option<Row> {
    if available == [] then None
    else if available[0].accession == accession then Some(available[0])
    else Find(available[1..], accession)
  }

  /** The loop of `choose_filings`; `available` is the dictionary in insertion order. */
  function Gather(rows: seq<Row>, forms: set<string>, cutoff: int, available: seq<Row>): Result<seq<Row>, Code> {
    if rows == [] then Ok(available)
    else
      var row, rest := rows[0], rows[1..];
      if row.form !in forms then Gather(rest, forms, cutoff, available)
      else if row.accepted.Unreadable? then Err(InvalidTimestamp)
      else if !InWindow(row.accepted.micros, cutoff) then Gather(rest, forms, cutoff, available)
      else if !IsAccession(row.accession) then Err(InvalidAccession)
      else match Find(available, row.accession)
        case None => Gather(rest, forms, cutoff, available + [row])
        case Some(known) =>
          if known != row then Err(ConflictingAccession) else Gather(rest, forms, cutoff, available)
  }

  function Micros(row: Row): int {
    if row.accepted.At? then row.accepted.micros else 0
  }

  /** Newest first; equal instants by accession, descending. */
  predicate Newer(a: Row, b: Row) {
    if Micros(a) != Micros(b) then Micros(a) > Micros(b)
    else a.accession != b.accession && StringLe(b.accession, a.accession)
  }

  function ChooseFilings(rows: seq<Row>, forms: set<string>, cutoff: int, limit: nat): Result<seq<Row>, Code> {
    match Gather(rows, forms, cutoff, [])
    case Err(code) => Err(code)
    case Ok(available) => Ok(Take(Sort(Newer, available), limit))
  }

  /** No row of a wanted form is unreadable, malformed or contradicted by another. */
  ghost predicate Consistent(rows: seq<Row>, forms: set<string>, cutoff: int) {
    && (forall r :: r in rows && r.form in forms ==> r.accepted.At?)
    && (forall r :: r in rows && Eligible(r, forms, cutoff) ==> IsAccession(r.accession))
    && (forall r, q | r in rows && q in rows && Eligible(r, forms, cutoff) && Eligible(q, forms, cutoff) ::
          r.accession == q.accession ==> r == q)
  }

  ghost predicate OnePerAccession(rows: seq<Row>) {
    forall i, j :: 0 <= i < j < |rows| ==> rows[i].accession != rows[j].accession
  }

  lemma {:induction false} FindFinds(available: seq<Row>, accession: string)
    ensures Find(available, accession).None? <==> forall r :: r in available ==> r.accession != accession
    ensures Find(available, accession).Some? ==>
      Find(available, accession).value in available && Find(available, accession).value.accession == accession
  {
    if available != [] {
      FindFinds(available[1..], accession);
      assert available == [available[0]] + available[1..];
    }
  }

  /** The loop succeeds exactly on consistent rows, and then holds each eligible row once. */
  lemma {:induction false} GatherMeaning(rows: seq<Row>, forms: set<string>, cutoff: int, available: seq<Row>)
    requires OnePerAccession(available)
    requires forall r :: r in available ==> Eligible(r, forms, cutoff) && IsAccession(r.accession)
    ensures Gather(rows, forms, cutoff, available).Ok? <==> Consistent(available + rows, forms, cutoff)
    ensures Gather(rows, forms, cutoff, available).Ok? ==>
      var got := Gather(rows, forms, cutoff, available).value;
      && OnePerAccession(got)
      && forall r :: r in got <==> r in available || (r in rows && Eligible(r, forms, cutoff))
  {
    var all := available + rows;
    if rows == [] {
      assert all == available;
      forall r, q | r in available && q in available && r.accession == q.accession ensures r == q {
        var i :| 0 <= i < |available| && available[i] == r;
        var j :| 0 <= j < |available| && available[j] == q;
      }
    } else {
      var row, rest := rows[0], rows[1..];
      assert rows == [row] + rest;
      assert row in all;
      if Eligible(row, forms, cutoff) && IsAccession(row.accession) {
        FindFinds(available, row.accession);
        var found := Find(available, row.accession);
        if found.None? {
          assert (available + [row]) + rest == all;
          GatherMeaning(rest, forms, cutoff, available + [row]);
        } else if found.value == row {
          GatherMeaning(rest, forms, cutoff, available);
          assert forall r :: r in all <==> r in available + rest;
        } else {
          assert found.value in all;
        }
      } else if row.form !in forms || row.accepted.At? {
        if !Eligible(row, forms, cutoff) {
          GatherMeaning(rest, forms, cutoff, available);
          assert forall r :: r in all <==> r == row || r in available + rest;
        }
      }
    }
  }

  lemma NewerIsLinear(rows: seq<Row>)
    requires OnePerAccession(rows)
    ensures Linear(Newer, rows) && Distinct(rows)
  {
    forall a, b | a in rows && b in rows
      ensures a != b ==> Newer(a, b) || Newer(b, a)
      ensures Newer(a, b) ==> !Newer(b, a)
    {
      StringLeLinear(a.accession, b.accession, a.accession);
      var i :| 0 <= i < |rows| && rows[i] == a;
      var j :| 0 <= j < |rows| && rows[j] == b;
    }
    forall a, b, c | a in rows && b in rows && c in rows && Newer(a, b) && Newer(b, c)
      ensures Newer(a, c)
    {
      StringLeLinear(c.accession, b.accession, a.accession);
      StringLeLinear(a.accession, b.accession, a.accession);
    }
  }

  /** The choice depends only on which rows there are, not on their order or repetition. */
  lemma ChoiceIgnoresOrder(rows: seq<Row>, other: seq<Row>, forms: set<string>, cutoff: int, limit: nat)
    requires SameMembers(rows, other)
    ensures var a, b := ChooseFilings(rows, forms, cutoff, limit), ChooseFilings(other, forms, cutoff, limit);
            (a.Ok? <==> b.Ok?) && (a.Ok? ==> a == b)
  {
    GatherMeaning(rows, forms, cutoff, []);
    GatherMeaning(other, forms, cutoff, []);
    assert [] + rows == rows && [] + other == other;
    var a, b := Gather(rows, forms, cutoff, []), Gather(other, forms, cutoff, []);
    if a.Ok? {
      NewerIsLinear(a.value);
      NewerIsLinear(b.value);
      SortForgetsOrder(Newer, a.value, b.value);
    }
  }

  // ---- which refusal is raised ----

  /** A row of a wanted form whose timestamp cannot be read. */
  predicate IsUnreadable(r: Row, forms: set<string>) {
    r.form in forms && r.accepted.Unreadable?
  }

  /** An eligible row whose accession number is malformed. */
  predicate IsMalformed(r: Row, forms: set<string>, cutoff: int) {
    Eligible(r, forms, cutoff) && !IsAccession(r.accession)
  }

  /** Two different eligible rows with one well-formed accession number. */
  predicate Contradict(r: Row, q: Row, forms: set<string>, cutoff: int) {
    && Eligible(r, forms, cutoff) && Eligible(q, forms, cutoff)
    && r.accession == q.accession && IsAccession(r.accession) && r != q
  }

  ghost predicate HasUnreadable(rows: seq<Row>, forms: set<string>) {
    exists r :: r in rows && IsUnreadable(r, forms)
  }

  ghost predicate HasMalformed(rows: seq<Row>, forms: set<string>, cutoff: int) {
    exists r :: r in rows && IsMalformed(r, forms, cutoff)
  }

  ghost predicate HasContradiction(rows: seq<Row>, forms: set<string>, cutoff: int) {
    exists r, q :: r in rows && q in rows && Contradict(r, q, forms, cutoff)
  }

  ghost predicate AtMostOneFlaw(rows: seq<Row>, forms: set<string>, cutoff: int) {
    && !(HasUnreadable(rows, forms) && HasMalformed(rows, forms, cutoff))
    && !(HasUnreadable(rows, forms) && HasContradiction(rows, forms, cutoff))
    && !(HasMalformed(rows, forms, cutoff) && HasContradiction(rows, forms, cutoff))
  }

  /** Each refusal has its own kind of flaw among the rows. */
  ghost predicate Explained(code: Code, rows: seq<Row>, forms: set<string>, cutoff: int) {
    || (code == InvalidTimestamp && HasUnreadable(rows, forms))
    || (code == InvalidAccession && HasMalformed(rows, forms, cutoff))
    || (code == ConflictingAccession && HasContradiction(rows, forms, cutoff))
  }

  lemma ExplainedByMore(code: Code, rows: seq<Row>, more: seq<Row>, forms: set<string>, cutoff: int)
    requires Explained(code, rows, forms, cutoff) && forall r :: r in rows ==> r in more
    ensures Explained(code, more, forms, cutoff)
  {
  }

  lemma {:induction false} RefusalIsExplained(rows: seq<Row>, forms: set<string>, cutoff: int, available: seq<Row>)
    requires forall r :: r in available ==> Eligible(r, forms, cutoff) && IsAccession(r.accession)
    requires Gather(rows, forms, cutoff, available).Err?
    ensures Explained(Gather(rows, forms, cutoff, available).error, available + rows, forms, cutoff)
  {
    var row, rest, all := rows[0], rows[1..], available + rows;
    var code := Gather(rows, forms, cutoff, available).error;
    assert rows == [row] + rest && row in all;
    if IsUnreadable(row, forms) || IsMalformed(row, forms, cutoff) {
      assert Explained(code, all, forms, cutoff);
    } else if !Eligible(row, forms, cutoff) {
      RefusalIsExplained(rest, forms, cutoff, available);
      ExplainedByMore(code, available + rest, all, forms, cutoff);
    } else {
      FindFinds(available, row.accession);
      var found := Find(available, row.accession);
      if found.None? {
        RefusalIsExplained(rest, forms, cutoff, available + [row]);
        assert (available + [row]) + rest == all;
      } else if found.value == row {
        RefusalIsExplained(rest, forms, cutoff, available);
        ExplainedByMore(code, available + rest, all, forms, cutoff);
      } else {
        assert found.value in all && Contradict(row, found.value, forms, cutoff);
      }
    }
  }

  /** A flaw at the front decides the refusal. */
  lemma FlawInFront(rows: seq<Row>, forms: set<string>, cutoff: int, r: Row, q: Row)
    ensures IsUnreadable(r, forms) ==> Gather([r] + rows, forms, cutoff, []) == Err(InvalidTimestamp)
    ensures IsMalformed(r, forms, cutoff) ==> Gather([r] + rows, forms, cutoff, []) == Err(InvalidAccession)
    ensures Contradict(r, q, forms, cutoff) ==> Gather([r, q] + rows, forms, cutoff, []) == Err(ConflictingAccession)
  {
    assert ([r, q] + rows)[1..] == [q] + rows && [] + [r] == [r];
  }

  /** The same answer for every list of the same rows. */
  ghost predicate OrderIsIrrelevant(rows: seq<Row>, forms: set<string>, cutoff: int, limit: nat) {
    forall other :: SameMembers(rows, other) ==>
      ChooseFilings(other, forms, cutoff, limit) == ChooseFilings(rows, forms, cutoff, limit)
  }

  /** Putting rows once more in front is another list of the same rows. */
  lemma FrontDecides(rows: seq<Row>, front: seq<Row>, code: Code, forms: set<string>, cutoff: int, limit: nat)
    requires OrderIsIrrelevant(rows, forms, cutoff, limit) && forall r :: r in front ==> r in rows
    requires Gather(front + rows, forms, cutoff, []) == Err(code)
    ensures ChooseFilings(rows, forms, cutoff, limit) == Err(code)
  {
    assert SameMembers(rows, front + rows);
  }

  lemma EachFlawCanBeRaised(rows: seq<Row>, forms: set<string>, cutoff: int, limit: nat)
    requires OrderIsIrrelevant(rows, forms, cutoff, limit)
    ensures HasUnreadable(rows, forms) ==> ChooseFilings(rows, forms, cutoff, limit) == Err(InvalidTimestamp)
    ensures HasMalformed(rows, forms, cutoff) ==> ChooseFilings(rows, forms, cutoff, limit) == Err(InvalidAccession)
    ensures HasContradiction(rows, forms, cutoff)
      ==> ChooseFilings(rows, forms, cutoff, limit) == Err(ConflictingAccession)
  {
    if r :| r in rows && IsUnreadable(r, forms) {
      FlawInFront(rows, forms, cutoff, r, r);
      FrontDecides(rows, [r], InvalidTimestamp, forms, cutoff, limit);
    }
    if r :| r in rows && IsMalformed(r, forms, cutoff) {
      FlawInFront(rows, forms, cutoff, r, r);
      FrontDecides(rows, [r], InvalidAccession, forms, cutoff, limit);
    }
    if r, q :| r in rows && q in rows && Contradict(r, q, forms, cutoff) {
      FlawInFront(rows, forms, cutoff, r, q);
      FrontDecides(rows, [r, q], ConflictingAccession, forms, cutoff, limit);
    }
  }

  lemma ExplanationIsUnique(a: Code, b: Code, rows: seq<Row>, forms: set<string>, cutoff: int)
    requires Explained(a, rows, forms, cutoff) && Explained(b, rows, forms, cutoff)
      && AtMostOneFlaw(rows, forms, cutoff)
    ensures a == b
  {
  }

  lemma OneFlawFixesTheCode(rows: seq<Row>, other: seq<Row>, forms: set<string>, cutoff: int)
    requires SameMembers(rows, other) && AtMostOneFlaw(rows, forms, cutoff)
    requires Gather(rows, forms, cutoff, []).Err? && Gather(other, forms, cutoff, []).Err?
    ensures Gather(rows, forms, cutoff, []).error == Gather(other, forms, cutoff, []).error
  {
    var a, b := Gather(rows, forms, cutoff, []).error, Gather(other, forms, cutoff, []).error;
    RefusalIsExplained(rows, forms, cutoff, []);
    RefusalIsExplained(other, forms, cutoff, []);
    assert [] + rows == rows && [] + other == other;
    ExplainedByMore(b, other, rows, forms, cutoff);
    ExplanationIsUnique(a, b, rows, forms, cutoff);
  }

  lemma OneFlawFixesTheRefusal(rows: seq<Row>, other: seq<Row>, forms: set<string>, cutoff: int, limit: nat)
    requires SameMembers(rows, other) && AtMostOneFlaw(rows, forms, cutoff)
    ensures ChooseFilings(other, forms, cutoff, limit) == ChooseFilings(rows, forms, cutoff, limit)
  {
    ChoiceIgnoresOrder(rows, other, forms, cutoff, limit);
    if ChooseFilings(rows, forms, cutoff, limit).Err? {
      OneFlawFixesTheCode(rows, other, forms, cutoff);
    }
  }

  /** The whole answer, refusal included, depends only on which rows there are exactly when they show at
    * most one kind of flaw.
    */
  lemma AnswerIgnoresOrder(rows: seq<Row>, forms: set<string>, cutoff: int, limit: nat)
    ensures OrderIsIrrelevant(rows, forms, cutoff, limit) <==> AtMostOneFlaw(rows, forms, cutoff)
  {
    if AtMostOneFlaw(rows, forms, cutoff) {
      forall other | SameMembers(rows, other)
        ensures ChooseFilings(other, forms, cutoff, limit) == ChooseFilings(rows, forms, cutoff, limit)
      {
        OneFlawFixesTheRefusal(rows, other, forms, cutoff, limit);
      }
    }
    if OrderIsIrrelevant(rows, forms, cutoff, limit) {
      EachFlawCanBeRaised(rows, forms, cutoff, limit);
    }
  }

  /** It can fail: these two rows are refused with either code. */
  lemma RefusalDependsOnOrder() returns (rows: seq<Row>, other: seq<Row>)
    ensures SameMembers(rows, other)
    ensures ChooseFilings(rows, PERIODIC_FORMS, 0, 4) == Err(InvalidTimestamp)
    ensures ChooseFilings(other, PERIODIC_FORMS, 0, 4) == Err(InvalidAccession)
  {
    var unreadable := Row("0000000001", "", "10-K", Unreadable(""), "a.htm", Absent);
    var malformed := Row("0000000001", "", "10-K", At("", -8 * DAY), "a.htm", Absent);
    rows, other := [unreadable, malformed], [malformed, unreadable];
    assert "10-K" in PERIODIC_FORMS;
    FlawInFront([malformed], PERIODIC_FORMS, 0, unreadable, unreadable);
    FlawInFront([unreadable], PERIODIC_FORMS, 0, malformed, malformed);
  }

  /** `chosen` is the newest-first list of at most `limit` eligible rows, and no eligible row
    * left out is newer than one chosen.
    */
  ghost predicate NewestOf(chosen: seq<Row>, rows: seq<Row>, forms: set<string>, cutoff: int, limit: nat) {
    && Ordered(Newer, chosen) && |chosen| <= limit
    && (forall r :: r in chosen ==> r in rows && Eligible(r, forms, cutoff))
    && (forall r, c :: r in rows && Eligible(r, forms, cutoff) && r !in chosen && c in chosen ==> Newer(c, r))
    && (|chosen| < limit ==> forall r :: r in rows && Eligible(r, forms, cutoff) ==> r in chosen)
  }

  lemma ChoiceIsNewest(rows: seq<Row>, forms: set<string>, cutoff: int, limit: nat)
    ensures ChooseFilings(rows, forms, cutoff, limit).Ok? <==> Consistent(rows, forms, cutoff)
    ensures ChooseFilings(rows, forms, cutoff, limit).Ok? ==>
      var chosen := ChooseFilings(rows, forms, cutoff, limit).value;
      NewestOf(chosen, rows, forms, cutoff, limit) && OnePerAccession(chosen)
  {
    GatherMeaning(rows, forms, cutoff, []);
    assert [] + rows == rows;
    var got := Gather(rows, forms, cutoff, []);
    if got.Ok? {
      NewerIsLinear(got.value);
      SortIsOrdered(Newer, got.value);
      TakeIsBest(Newer, Sort(Newer, got.value), limit);
    }
  }

  // ---- choose_ownership_filings ----

  function SeriesOf(row: Row): string {
    if row.series.Named? then row.series.name else ""
  }

  function Count(rows: seq<Row>, series: string): nat {
    if rows == [] then 0 else (if SeriesOf(rows[0]) == series then 1 else 0) + Count(rows[1..], series)
  }

  predicate Untried(r: Row, tried: seq<Row>) {
    SeriesOf(r) != "" && forall t :: t in tried ==> SeriesOf(t) != SeriesOf(r)
  }

  /** The newest row of every series that none of `tried` belongs to. */
  function Representatives(rows: seq<Row>, tried: seq<Row>): seq<Row> {
    if rows == [] then []
    else if Untried(rows[0], tried) then [rows[0]] + Representatives(rows[1..], tried + [rows[0]])
    else Representatives(rows[1..], tried)
  }

  /** Frequent series first, then newer, then by accession. */
  predicate Outranks(eligible: seq<Row>, a: Row, b: Row) {
    var m, n := Count(eligible, SeriesOf(a)), Count(eligible, SeriesOf(b));
    if m != n then m > n
    else if Micros(a) != Micros(b) then Micros(a) > Micros(b)
    else a.accession != b.accession && StringLe(a.accession, b.accession)
  }

  function Without(rows: seq<Row>, taken: seq<Row>): seq<Row> {
    if rows == [] then []
    else if (exists t :: t in taken && t.accession == rows[0].accession) then Without(rows[1..], taken)
    else [rows[0]] + Without(rows[1..], taken)
  }

  function RankedBlock(eligible: seq<Row>): seq<Row> {
    Take(Sort((a, b) => Outranks(eligible, a, b), Representatives(eligible, Take(eligible, 5))), 5)
  }

  /** The five newest, the best untried series, then newest-first filler up to ten. */
  function Preferred(eligible: seq<Row>): seq<Row> {
    var preferred := Take(eligible, 5) + RankedBlock(eligible);
    preferred + Take(Without(eligible, preferred), 10 - |preferred|)
  }

  predicate ReadableSeries(row: Row) {
    !row.series.NotText? && |SeriesOf(row)| <= 128
  }

  function ChooseOwnershipFilings(rows: seq<Row>, cutoff: int): Result<seq<Row>, Code> {
    match ChooseFilings(rows, OWNERSHIP_FORMS, cutoff, 100000)
    case Err(code) => Err(code)
    case Ok(eligible) =>
      if exists r :: r in eligible && !ReadableSeries(r) then Err(InvalidFilingSeries)
      else Ok(Preferred(eligible))
  }

  function Accessions(rows: seq<Row>): set<string> {
    set r | r in rows :: r.accession
  }

  lemma {:induction false} CountAccessions(rows: seq<Row>)
    requires OnePerAccession(rows)
    ensures |Accessions(rows)| == |rows|
  {
    if rows != [] {
      CountAccessions(rows[1..]);
      assert rows == [rows[0]] + rows[1..];
      assert Accessions(rows) == {rows[0].accession} + Accessions(rows[1..]);
      assert rows[0].accession !in Accessions(rows[1..]);
    }
  }

  lemma {:induction false} WithoutMeaning(rows: seq<Row>, taken: seq<Row>)
    requires Ordered(Newer, rows)
    ensures Ordered(Newer, Without(rows, taken))
    ensures forall r :: r in Without(rows, taken) <==> r in rows && r.accession !in Accessions(taken)
  {
    if rows != [] {
      assert rows == [rows[0]] + rows[1..];
      WithoutMeaning(rows[1..], taken);
      assert (exists t :: t in taken && t.accession == rows[0].accession) <==> rows[0].accession in Accessions(taken);
      var rest := Without(rows[1..], taken);
      forall j | 0 <= j < |rest| ensures Newer(rows[0], rest[j]) {
        assert rest[j] in rows[1..];
      }
    }
  }

  lemma {:induction false} RepresentativesAreUntried(rows: seq<Row>, tried: seq<Row>)
    ensures |Representatives(rows, tried)| <= |rows|
    ensures forall r :: r in Representatives(rows, tried) ==> r in rows && Untried(r, tried)
  {
    if rows != [] {
      if Untried(rows[0], tried) {
        RepresentativesAreUntried(rows[1..], tried + [rows[0]]);
        assert forall t :: t in tried ==> t in tried + [rows[0]];
      } else {
        RepresentativesAreUntried(rows[1..], tried);
      }
    }
  }

  lemma {:induction false} RepresentativesDiffer(rows: seq<Row>, tried: seq<Row>)
    ensures var reps := Representatives(rows, tried);
      forall i, j :: 0 <= i < j < |reps| ==> SeriesOf(reps[i]) != SeriesOf(reps[j])
  {
    if rows != [] {
      if Untried(rows[0], tried) {
        var rest := Representatives(rows[1..], tried + [rows[0]]);
        RepresentativesDiffer(rows[1..], tried + [rows[0]]);
        RepresentativesAreUntried(rows[1..], tried + [rows[0]]);
        assert rows[0] in tried + [rows[0]];
        forall j | 0 <= j < |rest| ensures SeriesOf(rows[0]) != SeriesOf(rest[j]) {
          assert rest[j] in rest;
        }
        assert Representatives(rows, tried) == [rows[0]] + rest;
      } else {
        RepresentativesDiffer(rows[1..], tried);
        assert Representatives(rows, tried) == Representatives(rows[1..], tried);
      }
    }
  }

  lemma {:induction false} SeriesAreRepresented(rows: seq<Row>, tried: seq<Row>, r: Row)
    requires r in rows && SeriesOf(r) != ""
    ensures (exists t :: t in tried && SeriesOf(t) == SeriesOf(r))
         || exists q :: q in Representatives(rows, tried) && SeriesOf(q) == SeriesOf(r)
  {
    if SeriesOf(r) == SeriesOf(rows[0]) {
      if Untried(rows[0], tried) {
        assert rows[0] in Representatives(rows, tried);
      }
    } else if Untried(rows[0], tried) {
      SeriesAreRepresented(rows[1..], tried + [rows[0]], r);
    } else {
      SeriesAreRepresented(rows[1..], tried, r);
    }
  }

  lemma {:induction false} RepresentativesAreNewest(rows: seq<Row>, tried: seq<Row>)
    requires Ordered(Newer, rows)
    ensures forall r, q | r in Representatives(rows, tried) && q in rows :: SeriesOf(q) == SeriesOf(r) ==>
      q == r || Newer(r, q)
  {
    if rows != [] {
      assert rows == [rows[0]] + rows[1..];
      if Untried(rows[0], tried) {
        RepresentativesAreNewest(rows[1..], tried + [rows[0]]);
        RepresentativesAreUntried(rows[1..], tried + [rows[0]]);
        assert rows[0] in tried + [rows[0]];
      } else {
        RepresentativesAreNewest(rows[1..], tried);
        RepresentativesAreUntried(rows[1..], tried);
      }
    }
  }

  /** The newest row of each untried series, and nothing else. */
  lemma RepresentativesMeaning(rows: seq<Row>, tried: seq<Row>)
    ensures var reps := Representatives(rows, tried);
      && |reps| <= |rows|
      && (forall r :: r in reps ==>
            r in rows && SeriesOf(r) != "" && forall t :: t in tried ==> SeriesOf(t) != SeriesOf(r))
      && (forall r | r in rows && SeriesOf(r) != "" :: (exists t :: t in tried && SeriesOf(t) == SeriesOf(r))
                                                       || exists q :: q in reps && SeriesOf(q) == SeriesOf(r))
      && (forall i, j :: 0 <= i < j < |reps| ==> SeriesOf(reps[i]) != SeriesOf(reps[j]))
    ensures Ordered(Newer, rows) ==> forall r, q | r in Representatives(rows, tried) && q in rows ::
      SeriesOf(q) == SeriesOf(r) ==> q == r || Newer(r, q)
  {
    RepresentativesAreUntried(rows, tried);
    RepresentativesDiffer(rows, tried);
    forall r | r in rows && SeriesOf(r) != ""
      ensures (exists t :: t in tried && SeriesOf(t) == SeriesOf(r))
           || exists q :: q in Representatives(rows, tried) && SeriesOf(q) == SeriesOf(r)
    {
      SeriesAreRepresented(rows, tried, r);
    }
    if Ordered(Newer, rows) {
      RepresentativesAreNewest(rows, tried);
    }
  }

  ghost predicate RankedBefore(eligible: seq<Row>, rows: seq<Row>) {
    forall i, j :: 0 <= i < j < |rows| ==> Outranks(eligible, rows[i], rows[j])
  }

  lemma OutranksIsLinear(eligible: seq<Row>, rows: seq<Row>)
    requires OnePerAccession(rows)
    ensures Linear((a, b) => Outranks(eligible, a, b), rows) && Distinct(rows)
  {
    forall a, b | a in rows && b in rows
      ensures a != b ==> Outranks(eligible, a, b) || Outranks(eligible, b, a)
      ensures Outranks(eligible, a, b) ==> !Outranks(eligible, b, a)
    {
      StringLeLinear(a.accession, b.accession, a.accession);
      var i :| 0 <= i < |rows| && rows[i] == a;
      var j :| 0 <= j < |rows| && rows[j] == b;
    }
    forall a, b, c | a in rows && b in rows && c in rows && Outranks(eligible, a, b) && Outranks(eligible, b, c)
      ensures Outranks(eligible, a, c)
    {
      StringLeLinear(a.accession, b.accession, c.accession);
      StringLeLinear(c.accession, b.accession, a.accession);
    }
  }

  /** The second block: at most five representatives of untried series, each the newest of its
    * series, in order of frequency, and none left out ranks above one taken.
    */
  ghost predicate BestUntried(eligible: seq<Row>, first: seq<Row>, block: seq<Row>) {
    var reps := Representatives(eligible, first);
    && |block| == (if |reps| <= 5 then |reps| else 5)
    && RankedBefore(eligible, block)
    && (forall r :: r in block ==> r in reps)
    && (forall r, b :: r in reps && r !in block && b in block ==> Outranks(eligible, b, r))
  }

  lemma BlockIsBest(eligible: seq<Row>)
    requires OnePerAccession(eligible)
    ensures BestUntried(eligible, Take(eligible, 5), RankedBlock(eligible)) && |RankedBlock(eligible)| <= 5
  {
    var first := Take(eligible, 5);
    var reps := Representatives(eligible, first);
    var lt := (a, b) => Outranks(eligible, a, b);
    RepresentativesMeaning(eligible, first);
    OutranksIsLinear(eligible, reps);
    SortIsOrdered(lt, reps);
    TakeIsBest(lt, Sort(lt, reps), 5);
  }

  /** No accession is lost or counted twice when the taken rows are left out. */
  lemma WithoutCount(rows: seq<Row>, taken: seq<Row>)
    requires Ordered(Newer, rows) && OnePerAccession(rows) && OnePerAccession(taken)
    requires forall t :: t in taken ==> t in rows
    ensures |Without(rows, taken)| + |taken| == |rows|
    ensures OnePerAccession(Without(rows, taken))
  {
    var rest := Without(rows, taken);
    WithoutMeaning(rows, taken);
    CountAccessions(rows);
    CountAccessions(taken);
    CountAccessions(rest);
    forall a ensures a in Accessions(rest) <==> a in Accessions(rows) - Accessions(taken) {
      if a in Accessions(rows) - Accessions(taken) {
        var r :| r in rows && r.accession == a;
        assert r in rest;
      }
    }
    assert Accessions(rest) == Accessions(rows) - Accessions(taken);
    assert Accessions(taken) <= Accessions(rows);
  }

  /** What `choose_ownership_filings` returns: min(10, eligible) distinct filings made of the
    * five newest, the best block of untried series, and the newest of what is left.
    */
  ghost predicate WellChosen(eligible: seq<Row>, block: seq<Row>, filler: seq<Row>, chosen: seq<Row>) {
    var first := Take(eligible, 5);
    && chosen == first + block + filler
    && |chosen| == (if |eligible| <= 10 then |eligible| else 10)
    && OnePerAccession(chosen) && (forall r :: r in chosen ==> r in eligible)
    && BestUntried(eligible, first, block)
    && Ordered(Newer, filler)
    && (forall r, f :: r in eligible && r !in chosen && f in filler ==> Newer(f, r))
  }

  /** Filling up a distinct choice with the newest rows left over. */
  lemma FillerIsNewest(eligible: seq<Row>, preferred: seq<Row>)
    requires Ordered(Newer, eligible) && OnePerAccession(eligible) && OnePerAccession(preferred)
    requires |preferred| <= 10 && forall r :: r in preferred ==> r in eligible
    ensures var filler := Take(Without(eligible, preferred), 10 - |preferred|); var chosen := preferred + filler;
      && |chosen| == (if |eligible| <= 10 then |eligible| else 10) && OnePerAccession(chosen)
      && (forall r :: r in filler ==> r in eligible) && Ordered(Newer, filler)
      && (forall r, f :: r in eligible && r !in chosen && f in filler ==> Newer(f, r))
  {
    var rest := Without(eligible, preferred);
    WithoutMeaning(eligible, preferred);
    WithoutCount(eligible, preferred);
    var filler := Take(rest, 10 - |preferred|);
    TakeIsBest(Newer, rest, 10 - |preferred|);
    forall r | r in eligible && r !in preferred ensures r in rest {
      forall q | q in preferred ensures q.accession != r.accession {
        if q.accession == r.accession { SameRow(eligible, q, r); }
      }
    }
  }

  lemma PreferredIsWellChosen(eligible: seq<Row>) returns (block: seq<Row>, filler: seq<Row>)
    requires Ordered(Newer, eligible) && OnePerAccession(eligible)
    ensures WellChosen(eligible, block, filler, Preferred(eligible))
  {
    var first := Take(eligible, 5);
    block := RankedBlock(eligible);
    BlockIsBest(eligible);
    FirstAndBlock(eligible, block);
    filler := Take(Without(eligible, first + block), 10 - |first + block|);
    FillerIsNewest(eligible, first + block);
  }

  lemma FirstAndBlock(eligible: seq<Row>, block: seq<Row>)
    requires OnePerAccession(eligible) && BestUntried(eligible, Take(eligible, 5), block) && |block| <= 5
    ensures var preferred := Take(eligible, 5) + block;
      OnePerAccession(preferred) && |preferred| <= 10 && forall r :: r in preferred ==> r in eligible
  {
    BlockIsDistinct(eligible, block);
  }

  lemma SameRow(rows: seq<Row>, a: Row, b: Row)
    requires OnePerAccession(rows) && a in rows && b in rows && a.accession == b.accession
    ensures a == b
  {
    var i :| 0 <= i < |rows| && rows[i] == a;
    var j :| 0 <= j < |rows| && rows[j] == b;
  }

  lemma BlockIsDistinct(eligible: seq<Row>, block: seq<Row>)
    requires OnePerAccession(eligible) && BestUntried(eligible, Take(eligible, 5), block)
    ensures OnePerAccession(block)
    ensures forall r :: r in block ==> r in eligible && r.accession !in Accessions(Take(eligible, 5))
  {
    var first := Take(eligible, 5);
    RepresentativesMeaning(eligible, first);
    forall i, j | 0 <= i < j < |block| ensures block[i].accession != block[j].accession {
      assert block[i] in block && block[j] in block;
      assert Outranks(eligible, block[i], block[j]);
      if block[i].accession == block[j].accession {
        SameRow(eligible, block[i], block[j]);
      }
    }
    forall r | r in block ensures r.accession !in Accessions(first) {
      forall q | q in first ensures q.accession != r.accession {
        if q.accession == r.accession { SameRow(eligible, q, r); }
      }
    }
  }
}
