/** Which filings are eligible, how they are ranked, and when a choice is refused. */
module FilingAnswers {
  import opened Common
  import opened SourceTypes
  import opened Sorting
  import opened TextParts
  import opened FilingSelection

  /** Eligible is a wanted form accepted between 730 and 7 days before the cutoff, both ends included. */
  lemma EligibleMeaning(row: Row, forms: set<string>, cutoff: int)
    ensures Eligible(row, forms, cutoff) <==>
      && row.form in forms && row.accepted.At?
      && 7 * 24 * 3_600_000_000 <= cutoff - row.accepted.micros <= 730 * 24 * 3_600_000_000
  {
  }

  predicate Digits(s: string, n: nat) {
    |s| == n && forall i :: 0 <= i < n ==> '0' <= s[i] <= '9'
  }

  /** Three groups of ten, two and six digits with a dash between them. */
  lemma AccessionMeaning(s: string)
    ensures IsAccession(s) <==> exists filer, year, serial ::
      Digits(filer, 10) && Digits(year, 2) && Digits(serial, 6) && s == filer + "-" + year + "-" + serial
  {
    if IsAccession(s) {
      var filer, year, serial := s[..10], s[11..13], s[14..];
      assert s == filer + [s[10]] + year + [s[13]] + serial;
      assert Digits(filer, 10) && Digits(year, 2) && Digits(serial, 6);
    }
  }

  /** Of two rows with readable times, the later one is newer; at one instant the greater accession number. */
  lemma NewerMeaning(a: Row, b: Row)
    requires a.accepted.At? && b.accepted.At? && a.accession != b.accession
    ensures a.accepted.micros > b.accepted.micros ==> Newer(a, b) && !Newer(b, a)
    ensures a.accepted.micros == b.accepted.micros ==> (Newer(a, b) <==> StringLe(b.accession, a.accession))
  {
    StringLeLinear(a.accession, b.accession, a.accession);
  }

  function Names(rows: seq<Row>): seq<string> {
    seq(|rows|, i requires 0 <= i < |rows| => SeriesOf(rows[i]))
  }

  /** How many filings a series has, as a counter over all series names tells it. */
  lemma {:induction false} CountMeaning(rows: seq<Row>, series: string)
    ensures Count(rows, series) == multiset(Names(rows))[series]
  {
    if rows != [] {
      CountMeaning(rows[1..], series);
      assert Names(rows) == [SeriesOf(rows[0])] + Names(rows[1..]);
    }
  }

  /** A series with more filings goes first; between series of one size the later filing, and at one instant the
    * lesser accession number.
    */
  lemma RankMeaning(eligible: seq<Row>, a: Row, b: Row)
    requires a.accepted.At? && b.accepted.At? && a.accession != b.accession
    ensures var m, n := multiset(Names(eligible))[SeriesOf(a)], multiset(Names(eligible))[SeriesOf(b)];
      && (m > n ==> Outranks(eligible, a, b) && !Outranks(eligible, b, a))
      && (m == n && a.accepted.micros > b.accepted.micros ==>
            Outranks(eligible, a, b) && !Outranks(eligible, b, a))
      && (m == n && a.accepted.micros == b.accepted.micros ==>
            (Outranks(eligible, a, b) <==> StringLe(a.accession, b.accession)))
  {
    CountMeaning(eligible, SeriesOf(a));
    CountMeaning(eligible, SeriesOf(b));
  }

  /** A series that is there but is no text, or too long a one. */
  predicate Unusable(r: Row) {
    r.series.NotText? || (r.series.Named? && |r.series.name| > 128)
  }

  /** An ownership choice is refused as the choice it starts from, or for a series that is no text of at most 128
    * characters, and otherwise made.
    */
  lemma OwnershipMeaning(rows: seq<Row>, cutoff: int)
    ensures var eligible := ChooseFilings(rows, OWNERSHIP_FORMS, cutoff, 100000);
      var chosen := ChooseOwnershipFilings(rows, cutoff);
      && (eligible.Err? ==> chosen == eligible)
      && (eligible.Ok? ==> (chosen == Err(InvalidFilingSeries) <==> exists r :: r in eligible.value && Unusable(r)))
      && (chosen.Ok? <==> eligible.Ok? && forall r :: r in eligible.value ==> !Unusable(r))
  {
    ChoiceIsNewest(rows, OWNERSHIP_FORMS, cutoff, 100000);
  }
}
