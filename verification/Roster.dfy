/** The filer roster of a quarter's index: eligible rows, sorted and grouped by filer. */
module Roster {
  import opened Common
  import opened Sorting

  /** One line below the header, after splitting: blank or ruled, of the wrong width, or five fields.
    * `named` says that the CIK, the company and the path are lawful and agree; `cik` is padded.
    */
  datatype Entry =
    | Blank
    | WrongWidth
    | Fields(cik: string, form: string, filed: string, date: Option<(int, int)>, path: string, named: bool)

  datatype Row = Row(cik: string, filed: string, form: string, path: string)

  datatype Policy = Policy(study: string, forms: seq<string>, year: int, quarter: int, minimum: nat)

  datatype Refusal = BadWidth | BadDate | OutsideQuarter | BadIdentity | RepeatedPath | TooFewRows | RosterTooLarge

  predicate Eligible(policy: Policy, e: Entry) {
    e.Fields? && e.form in policy.forms
  }

  predicate InQuarter(policy: Policy, date: (int, int)) {
    var first := (policy.quarter - 1) * 3 + 1;
    date.0 == policy.year && first <= date.1 < first + 3
  }

  /** The first objection to one line, apart from a repeated path. */
  function Objection(policy: Policy, e: Entry): Option<Refusal> {
    if e.WrongWidth? then Some(BadWidth)
    else if !Eligible(policy, e) then None
    else if e.date.None? then Some(BadDate)
    else if !InQuarter(policy, e.date.value) then Some(OutsideQuarter)
    else if !e.named then Some(BadIdentity)
    else None
  }

  function RowOf(e: Entry): Row
    requires e.Fields?
  {
    Row(e.cik, e.filed, e.form, e.path)
  }

  function RowsIn(policy: Policy, e: Entry): seq<Row> {
    if Eligible(policy, e) then [RowOf(e)] else []
  }

  function Rows(policy: Policy, entries: seq<Entry>): seq<Row> {
    if entries == [] then [] else RowsIn(policy, entries[0]) + Rows(policy, entries[1..])
  }

  function Paths(rows: seq<Row>): set<string> {
    set r | r in rows :: r.path
  }

  ghost predicate PathsDiffer(rows: seq<Row>) {
    forall i, j :: 0 <= i < j < |rows| ==> rows[i].path != rows[j].path
  }

  ghost predicate Clear(policy: Policy, entries: seq<Entry>) {
    forall e :: e in entries ==> Objection(policy, e).None?
  }

  /** A line is left alone exactly when it is blank or ruled, of a form that the policy does not name, or an entry with
    * lawful names whose date lies in one of the quarter's three months; otherwise the first flaw is reported.
    */
  lemma ObjectionMeaning(policy: Policy, e: Entry)
    ensures var wanted := e.Fields? && e.form in policy.forms;
      var timely := wanted && e.date.Some? && e.date.value.0 == policy.year
                    && policy.quarter * 3 - 2 <= e.date.value.1 <= policy.quarter * 3;
      && (Objection(policy, e) == None <==> !e.WrongWidth? && (wanted ==> timely && e.named))
      && (Objection(policy, e) == Some(BadWidth) <==> e.WrongWidth?)
      && (Objection(policy, e) == Some(BadDate) <==> wanted && e.date.None?)
      && (Objection(policy, e) == Some(OutsideQuarter) <==> wanted && e.date.Some? && !timely)
      && (Objection(policy, e) == Some(BadIdentity) <==> timely && !e.named)
  {
  }

  /** The order of the tuples (CIK, date, form, path). */
  predicate RowLt(a: Row, b: Row) {
    if a.cik != b.cik then StringLe(a.cik, b.cik)
    else if a.filed != b.filed then StringLe(a.filed, b.filed)
    else if a.form != b.form then StringLe(a.form, b.form)
    else a.path != b.path && StringLe(a.path, b.path)
  }

  lemma RowLtTotal(a: Row, b: Row)
    ensures a != b ==> RowLt(a, b) || RowLt(b, a)
    ensures RowLt(a, b) ==> !RowLt(b, a)
  {
    StringLeLinear(a.cik, b.cik, a.cik);
    StringLeLinear(a.filed, b.filed, a.filed);
    StringLeLinear(a.form, b.form, a.form);
    StringLeLinear(a.path, b.path, a.path);
  }

  lemma RowLtTransitive(a: Row, b: Row, c: Row)
    requires RowLt(a, b) && RowLt(b, c)
    ensures RowLt(a, c)
  {
    StringLeLinear(a.cik, b.cik, c.cik);
    StringLeLinear(a.cik, b.cik, a.cik);
    StringLeLinear(a.filed, b.filed, c.filed);
    StringLeLinear(a.filed, b.filed, a.filed);
    StringLeLinear(a.form, b.form, c.form);
    StringLeLinear(a.form, b.form, a.form);
    StringLeLinear(a.path, b.path, c.path);
    StringLeLinear(a.path, b.path, a.path);
  }

  lemma RowLtIsLinear(rows: seq<Row>)
    ensures Linear(RowLt, rows)
  {
    forall a, b | a in rows && b in rows
      ensures (a != b ==> RowLt(a, b) || RowLt(b, a)) && (RowLt(a, b) ==> !RowLt(b, a))
    {
      RowLtTotal(a, b);
    }
    forall a, b, c | a in rows && b in rows && c in rows && RowLt(a, b) && RowLt(b, c) ensures RowLt(a, c) {
      RowLtTransitive(a, b, c);
    }
  }

  lemma {:induction false} RowsAppend(policy: Policy, a: seq<Entry>, b: seq<Entry>)
    ensures Rows(policy, a + b) == Rows(policy, a) + Rows(policy, b)
  {
    if a == [] {
      assert a + b == b;
    } else {
      RowsAppend(policy, a[1..], b);
      assert (a + b)[1..] == a[1..] + b && (a + b)[0] == a[0];
      assert RowsIn(policy, a[0]) + (Rows(policy, a[1..]) + Rows(policy, b))
        == (RowsIn(policy, a[0]) + Rows(policy, a[1..])) + Rows(policy, b);
    }
  }

  lemma RowsOfOne(policy: Policy, e: Entry)
    ensures Rows(policy, [e]) == RowsIn(policy, e)
  {
    assert [e][1..] == [] && RowsIn(policy, e) + [] == RowsIn(policy, e);
  }

  /** What the source demands of an index, read as a collection of lines. */
  ghost predicate Lawful(policy: Policy, entries: seq<Entry>) {
    Clear(policy, entries) && PathsDiffer(Rows(policy, entries)) && |Rows(policy, entries)| >= policy.minimum
  }

  /** The line at `i` is the first one that is objected to, or that repeats the path of an earlier eligible line. */
  ghost predicate FirstFlaw(policy: Policy, entries: seq<Entry>, i: int, why: Refusal) {
    && 0 <= i < |entries| && Clear(policy, entries[..i]) && PathsDiffer(Rows(policy, entries[..i]))
    && if Objection(policy, entries[i]).Some? then Objection(policy, entries[i]) == Some(why)
       else why == RepeatedPath && Eligible(policy, entries[i])
            && entries[i].path in Paths(Rows(policy, entries[..i]))
  }

  /** `_periodic_rows`, below the header: it succeeds exactly on lawful lines, and then lists all and
    * only the eligible rows in order.
    */
  method PeriodicRows(policy: Policy, entries: seq<Entry>) returns (r: Result<seq<Row>, Refusal>)
    ensures r.Ok? <==> Lawful(policy, entries)
    ensures r.Ok? ==> r.value == Sort(RowLt, Rows(policy, entries))
    ensures r == Err(TooFewRows) <==>
      Clear(policy, entries) && PathsDiffer(Rows(policy, entries)) && |Rows(policy, entries)| < policy.minimum
    ensures r.Err? && r.error != TooFewRows ==> exists i :: FirstFlaw(policy, entries, i, r.error)
  {
    var seen: set<string> := {};
    var rows: seq<Row> := [];
    for i := 0 to |entries|
      invariant rows == Rows(policy, entries[..i]) && seen == Paths(rows)
      invariant Clear(policy, entries[..i]) && PathsDiffer(rows)
    {
      var e := entries[i];
      assert entries[..i + 1] == entries[..i] + [e];
      RowsAppend(policy, entries[..i], [e]);
      RowsOfOne(policy, e);
      if Objection(policy, e).Some? {
        assert e in entries && FirstFlaw(policy, entries, i, Objection(policy, e).value);
        return Err(Objection(policy, e).value);
      }
      if Eligible(policy, e) {
        if e.path in seen {
          Repeats(policy, entries, i, rows);
          assert FirstFlaw(policy, entries, i, RepeatedPath);
          return Err(RepeatedPath);
        }
        seen := seen + {e.path};
        rows := rows + [RowOf(e)];
      }
    }
    assert entries[..|entries|] == entries;
    if |rows| < policy.minimum { return Err(TooFewRows); }
    return Ok(Sort(RowLt, rows));
  }

  lemma Repeats(policy: Policy, entries: seq<Entry>, i: nat, rows: seq<Row>)
    requires i < |entries| && Eligible(policy, entries[i])
    requires rows == Rows(policy, entries[..i]) && entries[i].path in Paths(rows)
    ensures !PathsDiffer(Rows(policy, entries))
  {
    assert entries == entries[..i] + ([entries[i]] + entries[i + 1..]);
    RowsAppend(policy, entries[..i], [entries[i]] + entries[i + 1..]);
    var tail := Rows(policy, [entries[i]] + entries[i + 1..]);
    assert tail[0] == RowOf(entries[i]);
    var r :| r in rows && r.path == entries[i].path;
    var k :| 0 <= k < |rows| && rows[k] == r;
    assert (rows + tail)[k].path == (rows + tail)[|rows|].path;
  }

  // ---- grouping ----

  datatype Filing = Filing(filed: string, form: string, path: string)
  datatype Filer = Filer(cik: string, filings: seq<Filing>)

  function FilingOf(r: Row): Filing {
    Filing(r.filed, r.form, r.path)
  }

  function FilingsOf(rows: seq<Row>, cik: string): seq<Filing> {
    if rows == [] then []
    else (if rows[0].cik == cik then [FilingOf(rows[0])] else []) + FilingsOf(rows[1..], cik)
  }

  /** The rows that a filer's filings stand for. */
  function Unfiled(cik: string, filings: seq<Filing>): seq<Row> {
    seq(|filings|, i requires 0 <= i < |filings| => Row(cik, filings[i].filed, filings[i].form, filings[i].path))
  }

  /** A roster read back as rows. */
  function Flatten(filers: seq<Filer>): seq<Row> {
    if filers == [] then [] else Unfiled(filers[0].cik, filers[0].filings) + Flatten(filers[1..])
  }

  function Grouped(ciks: seq<string>, rows: seq<Row>): seq<Filer> {
    seq(|ciks|, i requires 0 <= i < |ciks| => Filer(ciks[i], FilingsOf(rows, ciks[i])))
  }

  function Ciks(rows: seq<Row>): set<string> {
    set r | r in rows :: r.cik
  }

  ghost predicate ListsCiks(ciks: seq<string>, rows: seq<Row>) {
    Ordered(StringLt, ciks) && forall c :: c in ciks <==> c in Ciks(rows)
  }

  lemma {:induction false} FilingsSnoc(rows: seq<Row>, r: Row, cik: string)
    ensures FilingsOf(rows + [r], cik) == FilingsOf(rows, cik) + (if r.cik == cik then [FilingOf(r)] else [])
  {
    if rows != [] {
      FilingsSnoc(rows[1..], r, cik);
      assert (rows + [r])[1..] == rows[1..] + [r];
    }
  }

  /** The dictionary of the groups, and its insertion order. */
  ghost predicate Groups(byCik: map<string, seq<Filing>>, order: seq<string>, rows: seq<Row>) {
    && byCik.Keys == Ciks(rows) && Distinct(order) && (forall c :: c in order <==> c in byCik)
    && forall c :: c in byCik ==> byCik[c] == FilingsOf(rows, c)
  }

  lemma GroupsGrow(byCik: map<string, seq<Filing>>, order: seq<string>, rows: seq<Row>, row: Row)
    requires Groups(byCik, order, rows)
    ensures var known := if row.cik in byCik then byCik else byCik[row.cik := []];
      && Groups(known[row.cik := known[row.cik] + [FilingOf(row)]],
                if row.cik in byCik then order else order + [row.cik], rows + [row])
  {
    forall c ensures FilingsOf(rows + [row], c) == FilingsOf(rows, c) + (if row.cik == c then [FilingOf(row)] else []) {
      FilingsSnoc(rows, row, c);
    }
    CiksSnoc(rows, row);
    if row.cik !in byCik {
      NoFilings(rows, row.cik);
    }
  }

  lemma CiksSnoc(rows: seq<Row>, row: Row)
    ensures Ciks(rows + [row]) == Ciks(rows) + {row.cik}
  {
    assert row in rows + [row];
  }

  /** The grouping loop of `build_filer_roster`. */
  method Collect(rows: seq<Row>) returns (byCik: map<string, seq<Filing>>, order: seq<string>)
    ensures Groups(byCik, order, rows)
  {
    byCik, order := map[], [];
    for i := 0 to |rows|
      invariant Groups(byCik, order, rows[..i])
    {
      var row := rows[i];
      assert rows[..i + 1] == rows[..i] + [row];
      GroupsGrow(byCik, order, rows[..i], row);
      if row.cik !in byCik {
        byCik, order := byCik[row.cik := []], order + [row.cik];
      }
      byCik := byCik[row.cik := byCik[row.cik] + [FilingOf(row)]];
    }
    assert rows[..|rows|] == rows;
  }

  /** The filers in the order in which they first appear. */
  function FirstSeen(rows: seq<Row>): seq<string> {
    if rows == [] then []
    else
      var rest := FirstSeen(rows[..|rows| - 1]);
      if rows[|rows| - 1].cik in rest then rest else rest + [rows[|rows| - 1].cik]
  }

  lemma {:induction false} FirstSeenMeaning(rows: seq<Row>)
    ensures Distinct(FirstSeen(rows)) && forall c :: c in FirstSeen(rows) <==> c in Ciks(rows)
  {
    if rows != [] {
      FirstSeenMeaning(rows[..|rows| - 1]);
      CiksSnoc(rows[..|rows| - 1], rows[|rows| - 1]);
      assert rows == rows[..|rows| - 1] + [rows[|rows| - 1]];
    }
  }

  function CikList(rows: seq<Row>): seq<string> {
    Sort(StringLt, FirstSeen(rows))
  }

  lemma CikListLists(rows: seq<Row>)
    ensures ListsCiks(CikList(rows), rows)
  {
    FirstSeenMeaning(rows);
    StringLtIsLinear(FirstSeen(rows));
    SortIsOrdered(StringLt, FirstSeen(rows));
  }

  /** The groups in increasing order of their filers. */
  method Group(rows: seq<Row>) returns (filers: seq<Filer>)
    ensures filers == Grouped(CikList(rows), rows)
  {
    var byCik, order := Collect(rows);
    StringLtIsLinear(order);
    FirstSeenMeaning(rows);
    SortForgetsOrder(StringLt, order, FirstSeen(rows));
    SortIsOrdered(StringLt, order);
    filers := ListGroups(byCik, Sort(StringLt, order), rows);
  }

  method ListGroups(byCik: map<string, seq<Filing>>, sorted: seq<string>, ghost rows: seq<Row>)
      returns (filers: seq<Filer>)
    requires forall c :: c in sorted ==> c in byCik && byCik[c] == FilingsOf(rows, c)
    ensures filers == Grouped(sorted, rows)
  {
    filers := [];
    for i := 0 to |sorted|
      invariant |filers| == i && forall j :: 0 <= j < i ==> filers[j] == Filer(sorted[j], FilingsOf(rows, sorted[j]))
    {
      assert sorted[i] in sorted;
      filers := filers + [Filer(sorted[i], byCik[sorted[i]])];
    }
  }

  lemma {:induction false} NoFilings(rows: seq<Row>, cik: string)
    requires cik !in Ciks(rows)
    ensures FilingsOf(rows, cik) == []
  {
    if rows != [] {
      assert rows[0] in rows;
      assert Ciks(rows[1..]) <= Ciks(rows);
      NoFilings(rows[1..], cik);
    }
  }

  lemma FlattenGrouped(ciks: seq<string>, rows: seq<Row>)
    requires ciks != []
    ensures Flatten(Grouped(ciks, rows)) == Unfiled(ciks[0], FilingsOf(rows, ciks[0]))
      + Flatten(Grouped(ciks[1..], rows))
  {
    assert Grouped(ciks, rows)[1..] == Grouped(ciks[1..], rows);
  }

  /** A row of another filer does not matter to a group. */
  lemma {:induction false} OtherGroups(ciks: seq<string>, r: Row, rest: seq<Row>)
    requires r.cik !in ciks
    ensures Grouped(ciks, [r] + rest) == Grouped(ciks, rest)
  {
    assert ([r] + rest)[1..] == rest;
    forall i | 0 <= i < |ciks| ensures FilingsOf([r] + rest, ciks[i]) == FilingsOf(rest, ciks[i]) {
      assert ciks[i] in ciks;
    }
  }

  lemma UnfiledCons(cik: string, r: Row, filings: seq<Filing>)
    requires r.cik == cik
    ensures Unfiled(cik, [FilingOf(r)] + filings) == [r] + Unfiled(cik, filings)
  {
  }

  /** The first listed filer is that of the first row. */
  lemma FirstCik(ciks: seq<string>, rows: seq<Row>)
    requires rows != [] && Ordered(RowLt, rows) && ListsCiks(ciks, rows)
    ensures ciks != [] && ciks[0] == rows[0].cik && rows[0].cik !in ciks[1..]
    ensures forall c :: c in ciks[1..] <==> c in ciks && c != rows[0].cik
    ensures Ordered(StringLt, ciks[1..])
  {
    assert rows[0].cik in Ciks(rows);
    var k :| 0 <= k < |ciks| && ciks[k] == rows[0].cik;
    assert ciks[0] in Ciks(rows);
    var j :| 0 <= j < |rows| && rows[j].cik == ciks[0];
    StringLeLinear(ciks[0], rows[0].cik, ciks[0]);
    assert j > 0 ==> RowLt(rows[0], rows[j]);
    assert k > 0 ==> StringLt(ciks[0], ciks[k]);
    TailMembers(StringLt, ciks);
    assert forall i :: 0 <= i < |ciks| - 1 ==> ciks[1..][i] == ciks[i + 1];
  }

  /** The first row joins the group that the rest already has, or forms one of its own. */
  lemma FirstRowJoins(ciks: seq<string>, r: Row, rest: seq<Row>)
    requires ciks != [] && ciks[0] == r.cik && r.cik !in ciks[1..]
    ensures Flatten(Grouped(ciks, [r] + rest))
         == [r] + (Unfiled(r.cik, FilingsOf(rest, r.cik)) + Flatten(Grouped(ciks[1..], rest)))
  {
    FlattenGrouped(ciks, [r] + rest);
    OtherGroups(ciks[1..], r, rest);
    UnfiledCons(r.cik, r, FilingsOf(rest, r.cik));
    Associate([r], Unfiled(r.cik, FilingsOf(rest, r.cik)), Flatten(Grouped(ciks[1..], rest)));
  }

  /** Grouping sorted rows loses nothing: the roster, read back, is the sorted rows. */
  lemma {:induction false} RosterIsLossless(ciks: seq<string>, rows: seq<Row>)
    requires Ordered(RowLt, rows) && ListsCiks(ciks, rows)
    ensures Flatten(Grouped(ciks, rows)) == rows
    decreases |rows|
  {
    if rows == [] {
      NoCiks(ciks, rows);
    } else {
      var r, rest := rows[0], rows[1..];
      assert rows == [r] + rest;
      FirstCik(ciks, rows);
      FirstRowJoins(ciks, r, rest);
      if r.cik in Ciks(rest) {
        RosterIsLossless(ciks, rest);
        FlattenGrouped(ciks, rest);
      } else {
        NoFilings(rest, r.cik);
        RosterIsLossless(ciks[1..], rest);
        assert Unfiled(r.cik, []) + Flatten(Grouped(ciks[1..], rest)) == Flatten(Grouped(ciks[1..], rest));
      }
    }
  }

  lemma NoCiks(ciks: seq<string>, rows: seq<Row>)
    requires rows == [] && ListsCiks(ciks, rows)
    ensures Flatten(Grouped(ciks, rows)) == []
  {
    assert forall i :: 0 <= i < |ciks| ==> ciks[i] in ciks;
  }

  // ---- independence from the order of the lines ----

  /** Taking one line out takes its row out, wherever it stands. */
  lemma WithoutLine(policy: Policy, b: seq<Entry>, i: nat)
    requires i < |b|
    ensures multiset(b[..i] + b[i + 1..]) == multiset(b) - multiset{b[i]}
    ensures multiset(Rows(policy, b)) == multiset(Rows(policy, b[..i] + b[i + 1..])) + multiset(RowsIn(policy, b[i]))
  {
    assert b == (b[..i] + [b[i]]) + b[i + 1..];
    RowsAppend(policy, b[..i] + [b[i]], b[i + 1..]);
    RowsAppend(policy, b[..i], [b[i]]);
    RowsAppend(policy, b[..i], b[i + 1..]);
    RowsOfOne(policy, b[i]);
  }

  lemma MatchingLines(policy: Policy, a: seq<Entry>, b: seq<Entry>, i: nat)
    requires multiset(a) == multiset(b) && i < |b| && a != [] && b[i] == a[0]
    ensures var rest := b[..i] + b[i + 1..];
      && multiset(a[1..]) == multiset(rest)
      && (multiset(Rows(policy, a[1..])) == multiset(Rows(policy, rest)) ==>
          multiset(Rows(policy, a)) == multiset(Rows(policy, b)))
  {
    WithoutLine(policy, b, i);
    WithoutFirst(policy, a);
  }

  lemma WithoutFirst(policy: Policy, a: seq<Entry>)
    requires a != []
    ensures multiset(a[1..]) == multiset(a) - multiset{a[0]}
    ensures multiset(Rows(policy, a)) == multiset(Rows(policy, a[1..])) + multiset(RowsIn(policy, a[0]))
  {
    assert a == [a[0]] + a[1..];
    assert Rows(policy, a) == RowsIn(policy, a[0]) + Rows(policy, a[1..]);
  }

  lemma {:induction false} RowsAsMultiset(policy: Policy, a: seq<Entry>, b: seq<Entry>)
    requires multiset(a) == multiset(b)
    ensures multiset(Rows(policy, a)) == multiset(Rows(policy, b))
    decreases |a|
  {
    if a == [] {
      assert |multiset(b)| == |b| == 0;
    } else {
      assert a[0] in multiset(b);
      var i :| 0 <= i < |b| && b[i] == a[0];
      MatchingLines(policy, a, b, i);
      RowsAsMultiset(policy, a[1..], b[..i] + b[i + 1..]);
    }
  }

  lemma PathsSnoc(front: seq<Row>, last: Row)
    ensures Paths(front + [last]) == Paths(front) + {last.path}
    ensures PathsDiffer(front + [last]) <==> PathsDiffer(front) && last.path !in Paths(front)
  {
    var rows := front + [last];
    assert forall i :: 0 <= i < |front| ==> rows[i] == front[i] && front[i] in front;
    assert rows[|front|] == last;
    if last.path in Paths(front) {
      var r :| r in front && r.path == last.path;
      var k :| 0 <= k < |front| && front[k] == r;
      assert rows[k].path == rows[|front|].path;
    }
  }

  lemma {:induction false} PathCount(rows: seq<Row>)
    ensures |Paths(rows)| <= |rows|
    ensures |Paths(rows)| == |rows| <==> PathsDiffer(rows)
  {
    if rows != [] {
      var front, last := rows[..|rows| - 1], rows[|rows| - 1];
      PathCount(front);
      assert rows == front + [last];
      PathsSnoc(front, last);
    }
  }

  lemma SameRowsSamePaths(a: seq<Row>, b: seq<Row>)
    requires multiset(a) == multiset(b)
    ensures |a| == |b| && SameMembers(a, b) && (PathsDiffer(a) <==> PathsDiffer(b))
  {
    assert |multiset(a)| == |a| && |multiset(b)| == |b|;
    forall x ensures x in a <==> x in b {
      assert x in a <==> x in multiset(a);
      assert x in b <==> x in multiset(b);
    }
    assert Paths(a) == Paths(b);
    PathCount(a);
    PathCount(b);
  }

  /** Permuting the lines of an index changes neither its acceptance nor its sorted rows. */
  lemma RosterIgnoresLineOrder(policy: Policy, a: seq<Entry>, b: seq<Entry>)
    requires multiset(a) == multiset(b)
    ensures Lawful(policy, a) <==> Lawful(policy, b)
    ensures Lawful(policy, a) ==> Sort(RowLt, Rows(policy, a)) == Sort(RowLt, Rows(policy, b))
  {
    RowsAsMultiset(policy, a, b);
    var x, y := Rows(policy, a), Rows(policy, b);
    SameRowsSamePaths(x, y);
    forall e ensures e in a <==> e in b {
      assert e in a <==> e in multiset(a);
      assert e in b <==> e in multiset(b);
    }
    if Lawful(policy, a) {
      RowLtIsLinear(x);
      SortForgetsOrder(RowLt, x, y);
    }
  }
}
