/** The selection loops as the program runs them. */
module FilingMethods {
  import opened Common
  import opened SourceTypes
  import opened Sorting
  import opened FilingSelection

  method ChooseNewest(rows: seq<Row>, forms: set<string>, cutoff: int, limit: nat) returns (r: Result<seq<Row>, Code>)
    ensures r == ChooseFilings(rows, forms, cutoff, limit)
    ensures r.Ok? ==> NewestOf(r.value, rows, forms, cutoff, limit) && OnePerAccession(r.value)
  {
    ChoiceIsNewest(rows, forms, cutoff, limit);
    var available: seq<Row> := [];
    for i := 0 to |rows|
      invariant Gather(rows, forms, cutoff, []) == Gather(rows[i..], forms, cutoff, available)
    {
      var row := rows[i];
      assert rows[i..][0] == row && rows[i..][1..] == rows[i + 1..];
      if row.form !in forms { continue; }
      if row.accepted.Unreadable? { return Err(InvalidTimestamp); }
      if !InWindow(row.accepted.micros, cutoff) { continue; }
      if !IsAccession(row.accession) { return Err(InvalidAccession); }
      var known := Find(available, row.accession);
      if known.Some? {
        if known.value != row { return Err(ConflictingAccession); }
      } else {
        available := available + [row];
      }
    }
    return Ok(Take(Sort(Newer, available), limit));
  }

  lemma RepresentativesStep(rows: seq<Row>, i: nat, first: seq<Row>, reps: seq<Row>)
    requires i < |rows|
    ensures var row := rows[i];
      Representatives(rows[i..], first + reps) ==
        if SeriesOf(row) != "" && (forall t :: t in first + reps ==> SeriesOf(t) != SeriesOf(row))
        then [row] + Representatives(rows[i + 1..], first + (reps + [row]))
        else Representatives(rows[i + 1..], first + reps)
  {
    assert rows[i..][1..] == rows[i + 1..];
    assert (first + reps) + [rows[i]] == first + (reps + [rows[i]]);
  }

  method FirstOfSeries(eligible: seq<Row>, selected: seq<Row>) returns (reps: seq<Row>)
    ensures reps == Representatives(eligible, selected)
  {
    var attempted := set t | t in selected :: SeriesOf(t);
    reps := [];
    assert eligible[0..] == eligible && selected + reps == selected;
    for i := 0 to |eligible|
      invariant reps + Representatives(eligible[i..], selected + reps) == Representatives(eligible, selected)
    {
      RepresentativesStep(eligible, i, selected, reps);
      var number := SeriesOf(eligible[i]);
      if number != "" && number !in attempted && (forall t :: t in reps ==> SeriesOf(t) != number) {
        assert reps + ([eligible[i]] + Representatives(eligible[i + 1..], selected + (reps + [eligible[i]])))
            == (reps + [eligible[i]]) + Representatives(eligible[i + 1..], selected + (reps + [eligible[i]]));
        reps := reps + [eligible[i]];
      }
    }
  }

  /** What is still to be taken, seen from row `i`. */
  ghost predicate Remaining(eligible: seq<Row>, preferred: seq<Row>, filler: seq<Row>, i: nat)
    requires i <= |eligible|
  {
    && (forall f :: f in filler ==> f in eligible[..i])
    && filler + Without(eligible[i..], preferred) == Without(eligible, preferred)
  }

  lemma RemainingStep(eligible: seq<Row>, preferred: seq<Row>, filler: seq<Row>, i: nat)
    requires OnePerAccession(eligible) && i < |eligible| && Remaining(eligible, preferred, filler, i)
    ensures eligible[i].accession !in Accessions(filler)
    ensures var taken := if eligible[i].accession in Accessions(preferred) then filler else filler + [eligible[i]];
      Remaining(eligible, preferred, taken, i + 1)
  {
    var row := eligible[i];
    assert eligible[..i + 1] == eligible[..i] + [row];
    forall f | f in filler ensures f.accession != row.accession {
      assert f in eligible[..i];
    }
    assert filler + ([row] + Without(eligible[i + 1..], preferred))
      == (filler + [row]) + Without(eligible[i + 1..], preferred);
  }

  /** When the loop stops, the filler is as much of what there was to take as fits. */
  lemma FillerIsDone(eligible: seq<Row>, preferred: seq<Row>, filler: seq<Row>, i: nat)
    requires i <= |eligible| && Remaining(eligible, preferred, filler, i) && |preferred + filler| <= 10
    requires i == |eligible| || |preferred + filler| == 10
    ensures filler == Take(Without(eligible, preferred), 10 - |preferred|)
  {
    var all := Without(eligible, preferred);
    assert all[..|filler|] == filler;
    if i == |eligible| {
      assert eligible[i..] == [];
      assert filler + [] == filler;
    }
  }

  method FillToTen(eligible: seq<Row>, preferred: seq<Row>) returns (selected: seq<Row>)
    requires OnePerAccession(eligible) && |preferred| <= 10
    ensures selected == preferred + Take(Without(eligible, preferred), 10 - |preferred|)
  {
    selected := preferred;
    ghost var filler: seq<Row> := [];
    var seen := Accessions(preferred);
    var i := 0;
    assert [] + Without(eligible, preferred) == Without(eligible, preferred) && eligible[0..] == eligible;
    while i < |eligible| && |selected| < 10
      invariant 0 <= i <= |eligible| && |selected| <= 10
      invariant selected == preferred + filler && seen == Accessions(preferred) + Accessions(filler)
      invariant Remaining(eligible, preferred, filler, i)
    {
      var row := eligible[i];
      RemainingStep(eligible, preferred, filler, i);
      if row.accession !in seen {
        selected, seen, filler := selected + [row], seen + {row.accession}, filler + [row];
      }
      i := i + 1;
    }
    FillerIsDone(eligible, preferred, filler, i);
  }

  method ChooseOwnership(rows: seq<Row>, cutoff: int) returns (r: Result<seq<Row>, Code>)
    ensures r == ChooseOwnershipFilings(rows, cutoff)
  {
    var chosen := ChooseNewest(rows, OWNERSHIP_FORMS, cutoff, 100000);
    if chosen.Err? { return Err(chosen.error); }
    var eligible := chosen.value;
    if exists row :: row in eligible && !ReadableSeries(row) { return Err(InvalidFilingSeries); }
    var first := Take(eligible, 5);
    var reps := FirstOfSeries(eligible, first);
    var ranked := Sort((a, b) => Outranks(eligible, a, b), reps);
    var selected := FillToTen(eligible, first + Take(ranked, 5));
    return Ok(selected);
  }

  /** Whatever the rows, a successful ownership choice is well chosen from the newest filings. */
  lemma OwnershipChoiceIsWellChosen(rows: seq<Row>, cutoff: int)
      returns (eligible: seq<Row>, block: seq<Row>, filler: seq<Row>)
    requires ChooseOwnershipFilings(rows, cutoff).Ok?
    ensures NewestOf(eligible, rows, OWNERSHIP_FORMS, cutoff, 100000) && OnePerAccession(eligible)
    ensures WellChosen(eligible, block, filler, ChooseOwnershipFilings(rows, cutoff).value)
  {
    ChoiceIsNewest(rows, OWNERSHIP_FORMS, cutoff, 100000);
    eligible := ChooseFilings(rows, OWNERSHIP_FORMS, cutoff, 100000).value;
    block, filler := PreferredIsWellChosen(eligible);
  }
}
