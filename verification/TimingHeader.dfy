/** The timing header: the service prints it, the observer parses it in another file. */
module TimingHeader {
  import opened Common
  import opened TextParts
  import opened Sorting

  /** The service's timing names in the order `sorted` prints them. */
  const NAMES: seq<string> := ["integrity", "lifecycle", "observer_connect", "preparation",
                               "reader_connect", "service", "snapshot"]

  const MAX_MICROS: nat := 20_000_000

  /** A measurement of exactly these names, each within bounds. */
  predicate Measures(names: seq<string>, timing: map<string, nat>) {
    timing.Keys == (set n | n in names) && forall n :: n in timing ==> timing[n] <= MAX_MICROS
  }

  /** What the service acknowledges: the seven names. */
  predicate Acknowledged(timing: map<string, nat>) {
    Measures(NAMES, timing)
  }

  function Part(name: string, micros: nat): string {
    name + "_us" + ['='] + Decimal(micros)
  }

  function ProcessPart(first: bool): string {
    "process" + ['='] + (if first then "first" else "subsequent")
  }

  function TimingParts(timing: map<string, nat>, names: seq<string>): seq<string>
    requires forall n :: n in names ==> n in timing
  {
    if names == [] then [] else [Part(names[0], timing[names[0]])] + TimingParts(timing, names[1..])
  }

  function Parts(timing: map<string, nat>, names: seq<string>, first: bool): seq<string>
    requires forall n :: n in names ==> n in timing
  {
    TimingParts(timing, names) + [ProcessPart(first)]
  }

  /** `X-Study-Read-Timing` as the service sends it. */
  function Print(timing: map<string, nat>, first: bool): string
    requires forall n :: n in NAMES ==> n in timing
  {
    Join(Parts(timing, NAMES, first), ';')
  }

  // ---- the observer ----

  datatype Field = Micros(n: nat) | Process(first: bool)

  type Timings = map<string, Field>

  /** The observer's own names, one per timing, spelled with their unit. */
  const TIMINGS: set<string> := {"preparation_us", "observer_connect_us", "reader_connect_us",
                                 "integrity_us", "service_us", "snapshot_us", "lifecycle_us"}

  /** One part: a single `=`, a known key, and a value in the key's grammar. */
  function ParseField(keys: set<string>, part: string): Option<(string, Field)> {
    var sides := Split(part, '=');
    if |sides| != 2 then None
    else
      var key, raw := sides[0], sides[1];
      if key == "process" then
        if raw == "first" then Some((key, Process(true)))
        else if raw == "subsequent" then Some((key, Process(false)))
        else None
      else if key in keys && IsNumeral(raw) && |raw| <= 8 && Value(raw) <= MAX_MICROS then
        Some((key, Micros(Value(raw))))
      else None
  }

  type Grammar = string -> Option<(string, Field)>

  /** The loop over the parts; an unlawful part or a repeated key refuses the header. */
  function ParseParts(parse: Grammar, parts: seq<string>, found: Timings): Option<Timings> {
    if parts == [] then Some(found)
    else match parse(parts[0])
      case None => None
      case Some(field) => if field.0 in found then None else ParseParts(parse, parts[1..], found[field.0 := field.1])
  }

  function FieldGrammar(keys: set<string>): Grammar {
    (part: string) => ParseField(keys, part)
  }

  /** `timing_header`, for a given vocabulary. */
  function ParseWith(keys: set<string>, value: Option<string>, cache: string): Option<Timings> {
    if cache !in {"MISS", "BYPASS"} || value.None? || value.value == "" || |value.value| > 512 then None
    else match ParseParts(FieldGrammar(keys), Split(value.value, ';'), map[])
      case None => None
      case Some(found) => if found.Keys == keys + {"process"} then Some(found) else None
  }

  function Parse(value: Option<string>, cache: string): Option<Timings> {
    ParseWith(TIMINGS, value, cache)
  }

  method ParseHeader(value: Option<string>, cache: string) returns (r: Option<Timings>)
    ensures r == Parse(value, cache)
  {
    if cache !in {"MISS", "BYPASS"} || value.None? || value.value == "" || |value.value| > 512 { return None; }
    var result: Timings := map[];
    var parts := Split(value.value, ';');
    for i := 0 to |parts|
      invariant ParseParts(FieldGrammar(TIMINGS), parts, map[]) == ParseParts(FieldGrammar(TIMINGS), parts[i..], result)
    {
      assert parts[i..][0] == parts[i] && parts[i..][1..] == parts[i + 1..];
      var sides := Split(parts[i], '=');
      if |sides| != 2 || sides[0] in result { return None; }
      var field := ParseField(TIMINGS, parts[i]);
      if field.None? { return None; }
      result := result[field.value.0 := field.value.1];
    }
    return if result.Keys == TIMINGS + {"process"} then Some(result) else None;
  }

  /** The observer found exactly this measurement. */
  ghost predicate Reports(keys: set<string>, found: Timings, timing: map<string, nat>, first: bool) {
    && found.Keys == keys + {"process"} && found["process"] == Process(first)
    && forall n :: n in timing ==> n + "_us" in found && found[n + "_us"] == Micros(timing[n])
  }

  // ---- one part ----

  function Render(key: string, field: Field): string {
    key + ['='] + (match field
                   case Micros(n) => Decimal(n)
                   case Process(first) => if first then "first" else "subsequent")
  }

  /** A key and value that the observer's grammar allows together. */
  predicate Lawful(keys: set<string>, key: string, field: Field) {
    match field
    case Micros(n) => key in keys && n <= MAX_MICROS
    case Process(_) => key == "process"
  }

  predicate PlainKey(key: string) {
    Lacks(key, '=') && Lacks(key, ';') && |key| <= 19
  }

  ghost predicate PlainKeys(keys: set<string>) {
    "process" !in keys && forall k :: k in keys ==> PlainKey(k)
  }

  lemma DecimalIsPlain(n: nat)
    requires n <= MAX_MICROS
    ensures Lacks(Decimal(n), '=') && Lacks(Decimal(n), ';') && |Decimal(n)| <= 8 && IsNumeral(Decimal(n))
      && Value(Decimal(n)) == n
  {
    DecimalValue(n);
    assert Power(8) == 100_000_000 by {
      assert Power(1) == 10 && Power(2) == 100 && Power(3) == 1000 && Power(4) == 10_000;
      assert Power(5) == 100_000 && Power(6) == 1_000_000 && Power(7) == 10_000_000;
    }
    DecimalLength(n, 8, 100_000_000);
    var s := Decimal(n);
    forall i | 0 <= i < |s| ensures s[i] != '=' && s[i] != ';' {
      assert IsDigit(s[i]);
    }
  }

  /** Two sides without `=` are what splitting their part returns. */
  lemma SplitPart(key: string, raw: string)
    requires Lacks(key, '=') && Lacks(raw, '=')
    ensures Split(key + ['='] + raw, '=') == [key, raw]
  {
    SplitAt("", key, raw, '=');
    SplitPlain("", raw, '=');
    assert "" + key == key && "" + raw == raw;
  }

  /** Parsing one rendered part gives its key and value back, and the part is plain. */
  lemma RenderedPartParses(keys: set<string>, key: string, field: Field)
    requires PlainKeys(keys) && Lawful(keys, key, field)
    ensures ParseField(keys, Render(key, field)) == Some((key, field))
    ensures Lacks(Render(key, field), ';') && |Render(key, field)| <= 30
  {
    assert PlainKey(key);
    match field
    case Micros(n) =>
      DecimalIsPlain(n);
      SplitPart(key, Decimal(n));
    case Process(first) =>
      SplitPart(key, if first then "first" else "subsequent");
  }

  /** Only rendered parts parse: the grammar is canonical. */
  lemma ParsedPartIsRendered(keys: set<string>, part: string)
    requires ParseField(keys, part).Some?
    ensures var (key, field) := ParseField(keys, part).value; Lawful(keys, key, field) && part == Render(key, field)
  {
    JoinSplit("", part, '=');
    var sides := Split(part, '=');
    assert sides[1..] == [sides[1]];
    assert part == sides[0] + ['='] + sides[1];
    if sides[0] != "process" {
      NumeralIsDecimal(sides[1]);
    }
  }

  // ---- the whole header, for any plain vocabulary ----

  function KeyOf(parse: Grammar, part: string): string {
    if parse(part).Some? then parse(part).value.0 else ""
  }

  ghost predicate KeysDiffer(parse: Grammar, parts: seq<string>) {
    forall i, j :: 0 <= i < j < |parts| ==> KeyOf(parse, parts[i]) != KeyOf(parse, parts[j])
  }

  ghost predicate KeysFresh(parse: Grammar, parts: seq<string>, before: Timings) {
    forall p :: p in parts ==> KeyOf(parse, p) !in before
  }

  ghost predicate Parsed(parse: Grammar, parts: seq<string>, found: Timings) {
    forall p :: p in parts ==> KeyOf(parse, p) in found && parse(p) == Some((KeyOf(parse, p), found[KeyOf(parse, p)]))
  }

  ghost predicate Covered(parse: Grammar, parts: seq<string>, before: Timings, found: Timings) {
    forall k :: k in found ==> k in before || exists p :: p in parts && KeyOf(parse, p) == k
  }

  /** Every part parses, no key repeats, and `found` holds exactly the parsed fields and `before`. */
  ghost predicate Collected(parse: Grammar, parts: seq<string>, before: Timings, found: Timings) {
    && KeysDiffer(parse, parts) && KeysFresh(parse, parts, before) && Parsed(parse, parts, found)
    && Submap(before, found) && Covered(parse, parts, before, found)
  }

  lemma {:induction false} ParsePartsSound(parse: Grammar, parts: seq<string>, before: Timings)
    requires ParseParts(parse, parts, before).Some?
    ensures Collected(parse, parts, before, ParseParts(parse, parts, before).value)
  {
    if parts != [] {
      var (key, field) := parse(parts[0]).value;
      ParsePartsSound(parse, parts[1..], before[key := field]);
    }
  }

  lemma {:induction false} ParsePartsComplete(parse: Grammar, parts: seq<string>, before: Timings, found: Timings)
    requires Collected(parse, parts, before, found)
    ensures ParseParts(parse, parts, before) == Some(found)
  {
    if parts == [] {
      assert before == found;
    } else {
      assert parts[0] in parts;
      var (key, field) := parse(parts[0]).value;
      ParsePartsComplete(parse, parts[1..], before[key := field], found);
    }
  }

  /** The parts are the rendered fields of `found`, nothing more and nothing less. */
  ghost predicate RendersOf(parts: seq<string>, found: Timings) {
    && (forall p :: p in parts ==> exists k :: k in found && p == Render(k, found[k]))
    && (forall k :: k in found ==> Render(k, found[k]) in parts)
  }

  /** Distinct rendered parts of `found` are collected back into `found`. */
  lemma RendersCollect(keys: set<string>, parts: seq<string>, found: Timings)
    requires PlainKeys(keys) && Distinct(parts) && RendersOf(parts, found)
    requires forall k :: k in found ==> Lawful(keys, k, found[k])
    ensures Collected(FieldGrammar(keys), parts, map[], found)
    ensures forall p :: p in parts ==> Lacks(p, ';') && 0 < |p| <= 30
  {
    forall p | p in parts
      ensures ParseField(keys, p).Some? && KeyOf(FieldGrammar(keys), p) in found
        && ParseField(keys, p) == Some((KeyOf(FieldGrammar(keys), p), found[KeyOf(FieldGrammar(keys), p)]))
      ensures Lacks(p, ';') && 0 < |p| <= 30
      ensures p == Render(KeyOf(FieldGrammar(keys), p), found[KeyOf(FieldGrammar(keys), p)])
    {
      var k :| k in found && p == Render(k, found[k]);
      RenderedPartParses(keys, k, found[k]);
    }
    forall k | k in found ensures exists p :: p in parts && KeyOf(FieldGrammar(keys), p) == k {
      RenderedPartParses(keys, k, found[k]);
      assert KeyOf(FieldGrammar(keys), Render(k, found[k])) == k;
    }
    forall i, j | 0 <= i < j < |parts|
      ensures KeyOf(FieldGrammar(keys), parts[i]) != KeyOf(FieldGrammar(keys), parts[j])
    {
      assert parts[i] in parts && parts[j] in parts;
    }
  }

  /** The printer's names and the parser's keys differ only by the unit. */
  ghost predicate SameVocabulary(names: seq<string>, keys: set<string>) {
    && (forall n :: n in names ==> n + "_us" in keys)
    && (forall k :: k in keys ==> |k| >= 3 && k[..|k| - 3] in names && k[..|k| - 3] + "_us" == k)
  }

  function Found(keys: set<string>, timing: map<string, nat>, first: bool): Timings
    requires forall k :: k in keys ==> |k| >= 3 && k[..|k| - 3] in timing
  {
    (map k | k in keys :: Micros(timing[k[..|k| - 3]]))["process" := Process(first)]
  }

  lemma {:induction false} TimingPartsAt(timing: map<string, nat>, names: seq<string>)
    requires forall n :: n in names ==> n in timing
    ensures |TimingParts(timing, names)| == |names|
    ensures forall i :: 0 <= i < |names| ==> TimingParts(timing, names)[i] == Part(names[i], timing[names[i]])
  {
    if names != [] {
      TimingPartsAt(timing, names[1..]);
    }
  }

  lemma PrintedAreRendered(names: seq<string>, keys: set<string>, timing: map<string, nat>, first: bool, i: nat)
    requires SameVocabulary(names, keys) && PlainKeys(keys) && Measures(names, timing) && i <= |names|
    requires forall k :: k in keys ==> |k| >= 3 && k[..|k| - 3] in timing
    ensures |Parts(timing, names, first)| == |names| + 1
    ensures var k := if i < |names| then names[i] + "_us" else "process"; var found := Found(keys, timing, first);
      k in found && Parts(timing, names, first)[i] == Render(k, found[k])
  {
    TimingPartsAt(timing, names);
    if i < |names| {
      assert names[i] in names;
    }
  }

  /** What is printed is the rendered report. */
  lemma PrintedParts(names: seq<string>, keys: set<string>, timing: map<string, nat>, first: bool)
    requires SameVocabulary(names, keys) && PlainKeys(keys) && Measures(names, timing)
    requires forall k :: k in keys ==> |k| >= 3 && k[..|k| - 3] in timing
    ensures RendersOf(Parts(timing, names, first), Found(keys, timing, first))
  {
    var found := Found(keys, timing, first);
    var parts := Parts(timing, names, first);
    PrintedAreRendered(names, keys, timing, first, |names|);
    forall p | p in parts ensures exists k :: k in found && p == Render(k, found[k]) {
      var i :| 0 <= i < |parts| && parts[i] == p;
      PrintedAreRendered(names, keys, timing, first, i);
    }
    forall k | k in found ensures Render(k, found[k]) in parts {
      if k != "process" {
        var i :| 0 <= i < |names| && names[i] == k[..|k| - 3];
        PrintedAreRendered(names, keys, timing, first, i);
      }
    }
  }

  lemma {:induction false} JoinLength(parts: seq<string>)
    requires forall p :: p in parts ==> |p| <= 30
    ensures |Join(parts, ';')| <= 31 * |parts|
  {
    if |parts| > 1 {
      JoinLength(parts[1..]);
    }
  }

  /** The same parts, each once, in any order. */
  ghost predicate Reordered(parts: seq<string>, printed: seq<string>) {
    Distinct(parts) && SameMembers(parts, printed) && |parts| == |printed|
  }

  lemma HeaderParses(keys: set<string>, parts: seq<string>, found: Timings, cache: string)
    requires |parts| == 8 && (forall p :: p in parts ==> Lacks(p, ';') && 0 < |p| <= 30)
    requires ParseParts(FieldGrammar(keys), parts, map[]) == Some(found) && found.Keys == keys + {"process"}
      && cache in {"MISS", "BYPASS"}
    ensures |Join(parts, ';')| < 512
    ensures ParseWith(keys, Some(Join(parts, ';')), cache) == Some(found)
  {
    SplitJoin(parts, ';');
    JoinLength(parts);
  }

  lemma PermutationParses(names: seq<string>, keys: set<string>, timing: map<string, nat>, first: bool,
                          parts: seq<string>)
    requires SameVocabulary(names, keys) && PlainKeys(keys) && Measures(names, timing)
    requires Distinct(parts) && SameMembers(parts, Parts(timing, names, first))
    requires forall k :: k in keys ==> |k| >= 3 && k[..|k| - 3] in timing
    ensures ParseParts(FieldGrammar(keys), parts, map[]) == Some(Found(keys, timing, first))
    ensures forall p :: p in parts ==> Lacks(p, ';') && 0 < |p| <= 30
  {
    var found := Found(keys, timing, first);
    PrintedParts(names, keys, timing, first);
    RendersCollect(keys, parts, found);
    ParsePartsComplete(FieldGrammar(keys), parts, map[], found);
  }

  lemma RoundTripWith(names: seq<string>, keys: set<string>, timing: map<string, nat>, first: bool, parts: seq<string>,
                      cache: string)
      returns (found: Timings)
    requires SameVocabulary(names, keys) && PlainKeys(keys) && Measures(names, timing) && |names| == 7
    requires Reordered(parts, Parts(timing, names, first)) && cache in {"MISS", "BYPASS"}
    ensures |Join(parts, ';')| < 512
    ensures ParseWith(keys, Some(Join(parts, ';')), cache) == Some(found)
    ensures Reports(keys, found, timing, first)
  {
    found := Found(keys, timing, first);
    PermutationParses(names, keys, timing, first, parts);
    TimingPartsAt(timing, names);
    HeaderParses(keys, parts, found, cache);
  }

  /** What an accepted header holds: lawful fields whose rendering is in the header. */
  lemma AcceptedFields(keys: set<string>, parts: seq<string>, found: Timings)
    requires Collected(FieldGrammar(keys), parts, map[], found)
    ensures forall k :: k in found ==> Lawful(keys, k, found[k])
    ensures RendersOf(parts, found)
  {
    forall p | p in parts
      ensures p == Render(KeyOf(FieldGrammar(keys), p), found[KeyOf(FieldGrammar(keys), p)])
      ensures Lawful(keys, KeyOf(FieldGrammar(keys), p), found[KeyOf(FieldGrammar(keys), p)])
    {
      ParsedPartIsRendered(keys, p);
    }
    forall k | k in found ensures Lawful(keys, k, found[k]) && Render(k, found[k]) in parts {
      var p :| p in parts && KeyOf(FieldGrammar(keys), p) == k;
    }
  }

  /** What an accepted header holds, by key. */
  lemma AcceptedKinds(keys: set<string>, value: Option<string>, cache: string)
    requires ParseWith(keys, value, cache).Some?
    ensures forall k :: k in ParseWith(keys, value, cache).value ==>
      Lawful(keys, k, ParseWith(keys, value, cache).value[k])
  {
    var parts := Split(value.value, ';');
    ParsePartsSound(FieldGrammar(keys), parts, map[]);
    AcceptedFields(keys, parts, ParseWith(keys, value, cache).value);
  }

  lemma AcceptedWith(names: seq<string>, keys: set<string>, value: string, cache: string)
      returns (timing: map<string, nat>, first: bool)
    requires SameVocabulary(names, keys) && PlainKeys(keys)
    requires ParseWith(keys, Some(value), cache).Some?
    ensures Measures(names, timing) && Reports(keys, ParseWith(keys, Some(value), cache).value, timing, first)
    ensures SameMembers(Split(value, ';'), Parts(timing, names, first)) && Distinct(Split(value, ';'))
  {
    var found := ParseWith(keys, Some(value), cache).value;
    var parts := Split(value, ';');
    ParsePartsSound(FieldGrammar(keys), parts, map[]);
    AcceptedFields(keys, parts, found);
    timing, first := Measured(names, keys, found);
    PrintedParts(names, keys, timing, first);
  }

  lemma Measured(names: seq<string>, keys: set<string>, found: Timings) returns (timing: map<string, nat>, first: bool)
    requires SameVocabulary(names, keys) && PlainKeys(keys) && found.Keys == keys + {"process"}
    requires forall k :: k in found ==> Lawful(keys, k, found[k])
    ensures Measures(names, timing) && Reports(keys, found, timing, first)
    ensures forall k :: k in keys ==> |k| >= 3 && k[..|k| - 3] in timing
    ensures Found(keys, timing, first) == found
  {
    assert Lawful(keys, "process", found["process"]);
    forall n | n in names ensures n + "_us" in found && found[n + "_us"].Micros? && found[n + "_us"].n <= MAX_MICROS {
      assert n + "_us" in keys && n + "_us" in found;
    }
    timing := map n | n in names :: found[n + "_us"].n;
    first := found["process"].first;
  }

  // ---- the two vocabularies ----

  lemma FirstLetterDecides(a: string, b: string)
    requires a != "" && b != "" && a[0] < b[0]
    ensures StringLe(a, b) && a != b
  {
  }

  /** The printer's order is the sorted order of the names. */
  lemma NamesAreSorted()
    ensures Ordered(StringLt, NAMES)
  {
    forall i, j | 0 <= i < j < 7 ensures NAMES[i] != NAMES[j] && StringLe(NAMES[i], NAMES[j]) {
      if i == 5 {
        assert "service"[0] == "snapshot"[0];
        FirstLetterDecides("service"[1..], "snapshot"[1..]);
      } else {
        FirstLetterDecides(NAMES[i], NAMES[j]);
      }
    }
  }

  lemma Spelled(n: string)
    requires n in NAMES
    ensures n + "_us" in TIMINGS
  {
    assert "integrity" + "_us" == "integrity_us";
    assert "lifecycle" + "_us" == "lifecycle_us";
    assert "observer_connect" + "_us" == "observer_connect_us";
    assert "preparation" + "_us" == "preparation_us";
    assert "reader_connect" + "_us" == "reader_connect_us";
    assert "service" + "_us" == "service_us";
    assert "snapshot" + "_us" == "snapshot_us";
  }

  lemma Unspelled(k: string)
    requires k in TIMINGS
    ensures exists n :: n in NAMES && n + "_us" == k
  {
    assert NAMES[0] + "_us" == "integrity_us";
    assert NAMES[1] + "_us" == "lifecycle_us";
    assert NAMES[2] + "_us" == "observer_connect_us";
    assert NAMES[3] + "_us" == "preparation_us";
    assert NAMES[4] + "_us" == "reader_connect_us";
    assert NAMES[5] + "_us" == "service_us";
    assert NAMES[6] + "_us" == "snapshot_us";
    assert exists i :: 0 <= i < 7 && NAMES[i] + "_us" == k;
  }

  lemma KeysArePlain(k: string)
    requires k in TIMINGS
    ensures PlainKey(k)
  {
  }

  lemma KeyIsNamed(k: string)
    requires k in TIMINGS
    ensures Named(NAMES, k)
  {
    Unspelled(k);
    KeysArePlain(k);
    var n :| n in NAMES && n + "_us" == k;
  }

  /** A key of the observer's, spelled from one of the service's names. */
  ghost predicate Named(names: seq<string>, k: string) {
    |k| >= 3 && k[..|k| - 3] in names && k[..|k| - 3] + "_us" == k && PlainKey(k)
  }

  lemma ProcessIsNoMetric()
    ensures "process" !in TIMINGS
  {
  }

  /** The two files spell the seven names alike, up to the unit. */
  lemma NamesAgree()
    ensures SameVocabulary(NAMES, TIMINGS) && PlainKeys(TIMINGS)
  {
    forall n | n in NAMES ensures n + "_us" in TIMINGS { Spelled(n); }
    forall k | k in TIMINGS ensures Named(NAMES, k) { KeyIsNamed(k); }
    ProcessIsNoMetric();
  }

  /** For all seven timings in range and either marker, the header in any order of its parts is
    * short enough and parses back to exactly the measurement.
    */
  lemma HeaderRoundTrip(timing: map<string, nat>, first: bool, parts: seq<string>, cache: string)
    requires Acknowledged(timing) && Reordered(parts, Parts(timing, NAMES, first)) && cache in {"MISS", "BYPASS"}
    ensures |Join(parts, ';')| < 512
    ensures Parse(Some(Join(parts, ';')), cache).Some?
    ensures Reports(TIMINGS, Parse(Some(Join(parts, ';')), cache).value, timing, first)
  {
    NamesAgree();
    var found := RoundTripWith(NAMES, TIMINGS, timing, first, parts, cache);
  }

  lemma PartsDiffer(names: seq<string>, keys: set<string>, timing: map<string, nat>, n: string, m: string)
    requires SameVocabulary(names, keys) && PlainKeys(keys) && Measures(names, timing)
    requires n in names && m in names && n != m
    ensures Part(n, timing[n]) != Part(m, timing[m])
  {
    assert n + "_us" in keys && m + "_us" in keys;
    RenderedPartParses(keys, n + "_us", Micros(timing[n]));
    RenderedPartParses(keys, m + "_us", Micros(timing[m]));
    assert (n + "_us")[..|n|] == n && (m + "_us")[..|m|] == m;
  }

  lemma PartIsNoProcess(names: seq<string>, keys: set<string>, timing: map<string, nat>, n: string, first: bool)
    requires SameVocabulary(names, keys) && PlainKeys(keys) && Measures(names, timing) && n in names
    ensures Part(n, timing[n]) != ProcessPart(first)
  {
    assert n + "_us" in keys;
    RenderedPartParses(keys, n + "_us", Micros(timing[n]));
    RenderedPartParses(keys, "process", Process(first));
  }

  lemma PartsDistinct(names: seq<string>, keys: set<string>, timing: map<string, nat>, first: bool)
    requires SameVocabulary(names, keys) && PlainKeys(keys) && Measures(names, timing) && Distinct(names)
    ensures Distinct(Parts(timing, names, first))
  {
    var parts := Parts(timing, names, first);
    TimingPartsAt(timing, names);
    forall i, j | 0 <= i < j < |parts| ensures parts[i] != parts[j] {
      if j < |names| {
        PartsDiffer(names, keys, timing, names[i], names[j]);
      } else {
        PartIsNoProcess(names, keys, timing, names[i], first);
      }
    }
  }

  /** The header as the service prints it parses back to the measurement it was printed from. */
  lemma PrintedHeaderParses(timing: map<string, nat>, first: bool, cache: string)
    requires Acknowledged(timing) && cache in {"MISS", "BYPASS"}
    ensures |Print(timing, first)| < 512
    ensures Parse(Some(Print(timing, first)), cache).Some?
    ensures Reports(TIMINGS, Parse(Some(Print(timing, first)), cache).value, timing, first)
  {
    NamesAgree();
    NamesAreSorted();
    PartsDistinct(NAMES, TIMINGS, timing, first);
    HeaderRoundTrip(timing, first, Parts(timing, NAMES, first), cache);
  }

  /** Conversely, the observer accepts nothing but a reordering of a printed header. */
  lemma AcceptedHeaderWasPrinted(value: string, cache: string) returns (timing: map<string, nat>, first: bool)
    requires Parse(Some(value), cache).Some?
    ensures Acknowledged(timing) && Reports(TIMINGS, Parse(Some(value), cache).value, timing, first)
    ensures SameMembers(Split(value, ';'), Parts(timing, NAMES, first)) && Distinct(Split(value, ';'))
  {
    NamesAgree();
    timing, first := AcceptedWith(NAMES, TIMINGS, value, cache);
  }
}
