/** What row a member gets: an account of the sources that one run of `collect_member` examined. */
module CollectorRows {
  import opened Common
  import opened SourceTypes
  import opened CacheMachine
  import opened CacheSafety
  import opened FilingSelection
  import opened ReplaySimulation
  import opened TextParts
  import opened Collector
  import opened Capture

  // ---- what a filing offered ----

  /** What one examined filing offered: its document, or a size refusal of its source. */
  datatype Offer = Document(body: Bytes) | TooLong(code: Code)

  predicate IsSizeCode(code: Code) {
    code == DocumentByteBound || code == RetainedTooLarge
  }

  /** A test of one examination: the state before, the filing, what it offered, the state after. */
  type Examining = (Cache, Row, Offer, Cache) -> bool

  /** The retained copy of the filing, or one call of the cache. */
  ghost predicate PeriodicOffer(lib: Library, s: Setup, c: Cache, row: Row, offer: Offer, c': Cache) {
    match lib.retainedFiling(row)
    case Ok(Some(body)) => c' == c && offer == Document(body)
    case Err(e) => c' == c && e.Identity? && IsSizeCode(e.code) && offer == TooLong(e.code)
    case Ok(None) =>
      FilingUrl(lib.codec, row).Ok? &&
      var (c1, o) := Get(lib.codec, s, c, FilingUrl(lib.codec, row).value);
      c' == c1 && match o
        case Payload(body) => offer == Document(body)
        case Raised(e) => e.Identity? && IsSizeCode(e.code) && offer == TooLong(e.code)
  }

  /** The complete submission text of the filing, by one call of the cache. */
  ghost predicate OwnershipOffer(lib: Library, s: Setup, c: Cache, row: Row, offer: Offer, c': Cache) {
    SubmissionTextUrl(lib.codec, row).Ok? &&
    var (c1, o) := Get(lib.codec, s, c, SubmissionTextUrl(lib.codec, row).value);
    c' == c1 && match o
      case Payload(body) => offer == Document(body)
      case Raised(e) => e == Identity(DocumentByteBound) && offer == TooLong(DocumentByteBound)
  }

  /** The offers of the first filings, one after the other. */
  ghost predicate Offered(from: Examining, rows: seq<Row>, offers: seq<Offer>, states: seq<Cache>)
  {
    && |offers| <= |rows| && |states| == |offers| + 1
    && forall i :: 0 <= i < |offers| ==> from(states[i], rows[i], offers[i], states[i + 1])
  }

  ghost function FromPeriodic(lib: Library, s: Setup): Examining {
    (c: Cache, row: Row, offer: Offer, c': Cache) => PeriodicOffer(lib, s, c, row, offer, c')
  }

  ghost function FromOwnership(lib: Library, s: Setup): Examining {
    (c: Cache, row: Row, offer: Offer, c': Cache) => OwnershipOffer(lib, s, c, row, offer, c')
  }

  // ---- what the search made of the offers ----

  type Judge = (Bytes, Row) -> Result<string, Error>

  function PeriodicJudge(lib: Library, m: Member): Judge {
    (body: Bytes, row: Row) => lib.periodicAnchor(body, row, m)
  }

  function OwnershipJudge(lib: Library, m: Member, anchor: string): Judge {
    (body: Bytes, row: Row) => lib.joinOwnership(body, row, m, anchor)
  }

  predicate Gave(judge: Judge, row: Row, offer: Offer, value: string) {
    offer.Document? && judge(offer.body, row) == Ok(value)
  }

  predicate RefusedWith(judge: Judge, row: Row, offer: Offer, code: Code) {
    offer == TooLong(code) || (offer.Document? && judge(offer.body, row) == Err(Identity(code)))
  }

  /** The last offer is the first that gave a value; or all filings were examined and none did. Every other
    * offer was refused, with its code.
    */
  ghost predicate FirstHit(judge: Judge, rows: seq<Row>, offers: seq<Offer>, found: Option<string>, codes: seq<Code>) {
    && |offers| <= |rows| && |codes| == |offers| - (if found.Some? then 1 else 0)
    && (forall i :: 0 <= i < |codes| ==> RefusedWith(judge, rows[i], offers[i], codes[i]))
    && (if found.Some? then Gave(judge, rows[|offers| - 1], offers[|offers| - 1], found.value) else |offers| == |rows|)
  }

  /** Each refusal is counted once, under its code. */
  ghost predicate Counted(refusals: Refusals, codes: seq<Code>) {
    && (forall k :: k in refusals <==> k in codes)
    && forall k :: k in refusals ==> refusals[k] == multiset(codes)[k]
  }

  lemma BumpCounts(refusals: Refusals, codes: seq<Code>, code: Code)
    requires Counted(refusals, codes)
    ensures Counted(Bump(refusals, code), codes + [code])
  {
    assert forall k :: multiset(codes + [code])[k] == multiset(codes)[k] + (if k == code then 1 else 0);
  }

  /** The search over the rows, from one state of the cache to another, given the refusals before it. */
  ghost predicate Accounted(from: Examining, judge: Judge, c: Cache, rows: seq<Row>,
                            before: seq<Code>, end: Cache, found: Search<string>, t: Trail)
  {
    && Offered(from, rows, t.offers, t.states) && t.states[0] == c && t.states[|t.offers|] == end
    && FirstHit(judge, rows, t.offers, found.found, t.codes) && Counted(found.refusals, before + t.codes)
  }

  /** The offers examined, the codes of the refused ones, and the states of the cache in between. */
  datatype Trail = Trail(offers: seq<Offer>, codes: seq<Code>, states: seq<Cache>)

  lemma NothingLeft(from: Examining, judge: Judge, c: Cache, before: seq<Code>, refusals: Refusals)
    requires Counted(refusals, before)
    ensures Accounted(from, judge, c, [], before, c, Search(None, refusals), Trail([], [], [c]))
  {
    assert before + [] == before;
  }

  lemma HitEnds(from: Examining, judge: Judge, c: Cache, rows: seq<Row>, before: seq<Code>,
                c1: Cache, refusals: Refusals, offer: Offer, value: string)
    requires rows != [] && from(c, rows[0], offer, c1) && Gave(judge, rows[0], offer, value)
    requires Counted(refusals, before)
    ensures Accounted(from, judge, c, rows, before, c1, Search(Some(value), refusals), Trail([offer], [], [c, c1]))
  {
    assert before + [] == before;
  }

  lemma RefusalGoesOn(from: Examining, judge: Judge, c: Cache, rows: seq<Row>, before: seq<Code>, c1: Cache,
                      offer: Offer, code: Code, end: Cache, found: Search<string>, t: Trail)
    requires rows != [] && from(c, rows[0], offer, c1) && RefusedWith(judge, rows[0], offer, code)
    requires Accounted(from, judge, c1, rows[1..], before + [code], end, found, t)
    ensures Accounted(from, judge, c, rows, before, end, found,
                      Trail([offer] + t.offers, [code] + t.codes, [c] + t.states))
  {
    assert (before + [code]) + t.codes == before + ([code] + t.codes);
  }

  // ---- the periodic search ----

  /** What the search makes of the first filing: its offer, and a value or a refusal that lets it go on. */
  lemma PeriodicStep(lib: Library, s: Setup, c: Cache, m: Member, filings: seq<Row>, refusals: Refusals)
      returns (offer: Offer, verdict: Result<string, Code>, c1: Cache)
    requires filings != [] && Run(lib.codec, s, c, PeriodicClient(lib, m, filings, refusals)).1.Ok?
    ensures FromPeriodic(lib, s)(c, filings[0], offer, c1)
    ensures verdict.Ok? ==>
      && Gave(PeriodicJudge(lib, m), filings[0], offer, verdict.value)
      && Run(lib.codec, s, c, PeriodicClient(lib, m, filings, refusals))
        == (c1, Ok(Search(Some(verdict.value), refusals)))
    ensures verdict.Err? ==>
      && RefusedWith(PeriodicJudge(lib, m), filings[0], offer, verdict.error)
      && Run(lib.codec, s, c, PeriodicClient(lib, m, filings, refusals))
        == Run(lib.codec, s, c1, PeriodicClient(lib, m, filings[1..], Bump(refusals, verdict.error)))
  {
    offer, c1 := PeriodicFirst(lib, s, c, m, filings, refusals);
    match offer
    case TooLong(code) => verdict := Err(code);
    case Document(body) =>
      var judged := lib.periodicAnchor(body, filings[0], m);
      verdict := match judged case Ok(value) => Ok(value) case Err(e) => Err(e.code);
  }

  lemma PeriodicFirst(lib: Library, s: Setup, c: Cache, m: Member, filings: seq<Row>, refusals: Refusals)
      returns (offer: Offer, c1: Cache)
    requires filings != [] && Run(lib.codec, s, c, PeriodicClient(lib, m, filings, refusals)).1.Ok?
    ensures PeriodicOffer(lib, s, c, filings[0], offer, c1)
    ensures offer.Document? ==> var judged := lib.periodicAnchor(offer.body, filings[0], m);
      judged.Ok? || judged.error.Identity?
    ensures offer.Document? ==>
      Run(lib.codec, s, c, PeriodicClient(lib, m, filings, refusals))
        == Run(lib.codec, s, c1, PeriodicBody(lib, m, filings, refusals, offer.body))
    ensures offer.TooLong? ==>
      Run(lib.codec, s, c, PeriodicClient(lib, m, filings, refusals))
        == Run(lib.codec, s, c1, PeriodicClient(lib, m, filings[1..], Bump(refusals, offer.code)))
  {
    match lib.retainedFiling(filings[0])
    case Ok(Some(body)) => offer, c1 := Document(body), c;
    case Err(e) => offer, c1 := TooLong(e.code), c;
    case Ok(None) =>
      var url := FilingUrl(lib.codec, filings[0]);
      var (c', o) := Get(lib.codec, s, c, url.value);
      c1 := c';
      offer := match o case Payload(body) => Document(body) case Raised(e) => TooLong(e.code);
  }

  /** The periodic search is the first hit among the offers of the filings, with every refusal counted. */
  lemma {:induction false} PeriodicSearch(lib: Library, s: Setup, c: Cache, m: Member, filings: seq<Row>,
                                          refusals: Refusals, before: seq<Code>) returns (t: Trail)
    requires Run(lib.codec, s, c, PeriodicClient(lib, m, filings, refusals)).1.Ok? && Counted(refusals, before)
    ensures var (end, r) := Run(lib.codec, s, c, PeriodicClient(lib, m, filings, refusals));
      Accounted(FromPeriodic(lib, s), PeriodicJudge(lib, m), c, filings, before, end, r.value, t)
    decreases |filings|
  {
    var from, judge := FromPeriodic(lib, s), PeriodicJudge(lib, m);
    if filings == [] {
      t := Trail([], [], [c]);
      NothingLeft(from, judge, c, before, refusals);
    } else {
      var offer, verdict, c1 := PeriodicStep(lib, s, c, m, filings, refusals);
      if verdict.Ok? {
        t := Trail([offer], [], [c, c1]);
        HitEnds(from, judge, c, filings, before, c1, refusals, offer, verdict.value);
      } else {
        var code := verdict.error;
        BumpCounts(refusals, before, code);
        var (end, r) := Run(lib.codec, s, c1, PeriodicClient(lib, m, filings[1..], Bump(refusals, code)));
        var rest := PeriodicSearch(lib, s, c1, m, filings[1..], Bump(refusals, code), before + [code]);
        t := Trail([offer] + rest.offers, [code] + rest.codes, [c] + rest.states);
        RefusalGoesOn(from, judge, c, filings, before, c1, offer, code, end, r.value, rest);
      }
    }
  }

  // ---- the ownership search ----

  lemma OwnershipStep(lib: Library, s: Setup, c: Cache, m: Member, anchor: string, filings: seq<Row>,
                      refusals: Refusals)
      returns (offer: Offer, verdict: Result<string, Code>, c1: Cache)
    requires filings != [] && Run(lib.codec, s, c, OwnershipClient(lib, m, anchor, filings, refusals)).1.Ok?
    ensures FromOwnership(lib, s)(c, filings[0], offer, c1)
    ensures verdict.Ok? ==>
      && Gave(OwnershipJudge(lib, m, anchor), filings[0], offer, verdict.value)
      && Run(lib.codec, s, c, OwnershipClient(lib, m, anchor, filings, refusals))
        == (c1, Ok(Search(Some(verdict.value), refusals)))
    ensures verdict.Err? ==>
      && RefusedWith(OwnershipJudge(lib, m, anchor), filings[0], offer, verdict.error)
      && Run(lib.codec, s, c, OwnershipClient(lib, m, anchor, filings, refusals))
        == Run(lib.codec, s, c1, OwnershipClient(lib, m, anchor, filings[1..], Bump(refusals, verdict.error)))
  {
    var url := SubmissionTextUrl(lib.codec, filings[0]);
    var (c', o) := Get(lib.codec, s, c, url.value);
    c1 := c';
    match o
    case Raised(e) => offer, verdict := TooLong(e.code), Err(e.code);
    case Payload(body) =>
      var judged := lib.joinOwnership(body, filings[0], m, anchor);
      offer := Document(body);
      verdict := match judged case Ok(value) => Ok(value) case Err(e) => Err(e.code);
  }

  lemma {:induction false} OwnershipSearch(lib: Library, s: Setup, c: Cache, m: Member, anchor: string,
                                           filings: seq<Row>, refusals: Refusals, before: seq<Code>) returns (t: Trail)
    requires Run(lib.codec, s, c, OwnershipClient(lib, m, anchor, filings, refusals)).1.Ok? && Counted(refusals, before)
    ensures var (end, r) := Run(lib.codec, s, c, OwnershipClient(lib, m, anchor, filings, refusals));
      Accounted(FromOwnership(lib, s), OwnershipJudge(lib, m, anchor), c, filings, before, end, r.value, t)
    decreases |filings|
  {
    var from, judge := FromOwnership(lib, s), OwnershipJudge(lib, m, anchor);
    if filings == [] {
      t := Trail([], [], [c]);
      NothingLeft(from, judge, c, before, refusals);
    } else {
      var offer, verdict, c1 := OwnershipStep(lib, s, c, m, anchor, filings, refusals);
      if verdict.Ok? {
        t := Trail([offer], [], [c, c1]);
        HitEnds(from, judge, c, filings, before, c1, refusals, offer, verdict.value);
      } else {
        var code := verdict.error;
        BumpCounts(refusals, before, code);
        var (end, r) := Run(lib.codec, s, c1, OwnershipClient(lib, m, anchor, filings[1..], Bump(refusals, code)));
        var rest := OwnershipSearch(lib, s, c1, m, anchor, filings[1..], Bump(refusals, code), before + [code]);
        t := Trail([offer] + rest.offers, [code] + rest.codes, [c] + rest.states);
        RefusalGoesOn(from, judge, c, filings, before, c1, offer, code, end, r.value, rest);
      }
    }
  }

  // ---- the rows of the submissions ----

  /** The page's advertised coverage meets the two years up to the cutoff. */
  predicate MeetsWindow(lib: Library, d: Descriptor) {
    d.filingFrom <= lib.cutoff / DAY && d.filingTo >= (lib.cutoff - 730 * DAY) / DAY
  }

  function Wanted(lib: Library, files: seq<Descriptor>): seq<Descriptor> {
    if files == [] then [] else (if MeetsWindow(lib, files[0]) then [files[0]] else []) + Wanted(lib, files[1..])
  }

  /** One call of the cache gave the page. */
  ghost predicate PageFrom(lib: Library, s: Setup, c: Cache, cik: string, d: Descriptor, page: seq<Row>, c': Cache) {
    var (c1, o) := Get(lib.codec, s, c, "https://data.sec.gov/submissions/" + d.name);
    c' == c1 && o.Payload? && lib.decodeArchive(o.body, cik) == Ok(page) && IsArchiveName(cik, d.name)
  }

  ghost predicate PagesFrom(lib: Library, s: Setup, cik: string, wanted: seq<Descriptor>, pages: seq<seq<Row>>,
                            states: seq<Cache>)
  {
    && |pages| == |wanted| && |states| == |pages| + 1
    && forall i :: 0 <= i < |pages| ==> PageFrom(lib, s, states[i], cik, wanted[i], pages[i], states[i + 1])
  }

  function Flat(pages: seq<seq<Row>>): seq<Row> {
    if pages == [] then [] else pages[0] + Flat(pages[1..])
  }

  /** A page of the window is asked for and decoded before the others. */
  lemma ArchiveStep(lib: Library, s: Setup, c: Cache, cik: string, files: seq<Descriptor>, rows: seq<Row>)
      returns (page: seq<Row>, c1: Cache)
    requires files != [] && Run(lib.codec, s, c, ArchiveClient(lib, cik, files, rows)).1.Ok?
    requires !OutsideCoverage(lib, files[0])
    ensures PageFrom(lib, s, c, cik, files[0], page, c1) && Wanted(lib, files) == [files[0]] + Wanted(lib, files[1..])
    ensures Run(lib.codec, s, c, ArchiveClient(lib, cik, files, rows))
         == Run(lib.codec, s, c1, ArchiveClient(lib, cik, files[1..], rows + page))
  {
    var (c', o) := Get(lib.codec, s, c, "https://data.sec.gov/submissions/" + files[0].name);
    page, c1 := lib.decodeArchive(o.body, cik).value, c';
  }

  lemma PagesMove(lib: Library, s: Setup, c: Cache, cik: string, d: Descriptor, wanted: seq<Descriptor>,
                  page: seq<Row>, later: seq<seq<Row>>, after: seq<Cache>)
    requires PagesFrom(lib, s, cik, wanted, later, after) && PageFrom(lib, s, c, cik, d, page, after[0])
    ensures PagesFrom(lib, s, cik, [d] + wanted, [page] + later, [c] + after)
    ensures Flat([page] + later) == page + Flat(later)
  {
    assert ([page] + later)[1..] == later;
  }

  /** The rows are extended by exactly the pages whose coverage meets the window, in the order of the list. */
  lemma {:induction false} ArchiveRows(lib: Library, s: Setup, c: Cache, cik: string, files: seq<Descriptor>,
                                       rows: seq<Row>)
      returns (pages: seq<seq<Row>>, states: seq<Cache>)
    requires Run(lib.codec, s, c, ArchiveClient(lib, cik, files, rows)).1.Ok?
    ensures PagesFrom(lib, s, cik, Wanted(lib, files), pages, states) && states[0] == c
    ensures var (c', r) := Run(lib.codec, s, c, ArchiveClient(lib, cik, files, rows));
      states[|pages|] == c' && r.value == rows + Flat(pages)
    decreases |files|
  {
    if files == [] {
      pages, states := [], [c];
      assert rows + [] == rows;
    } else if OutsideCoverage(lib, files[0]) {
      pages, states := ArchiveRows(lib, s, c, cik, files[1..], rows);
      assert [] + Wanted(lib, files[1..]) == Wanted(lib, files[1..]);
    } else {
      var page, c1 := ArchiveStep(lib, s, c, cik, files, rows);
      var later, after := ArchiveRows(lib, s, c1, cik, files[1..], rows + page);
      pages, states := [page] + later, [c] + after;
      PagesMove(lib, s, c, cik, files[0], Wanted(lib, files[1..]), page, later, after);
      assert (rows + page) + Flat(later) == rows + Flat(pages);
    }
  }

  /** Where the rows of a member come from: the retained submissions alone, or the fetched ones and the pages
    * that they list for the window.
    */
  ghost predicate RowsFrom(lib: Library, s: Setup, c: Cache, cik: string, rows: seq<Row>, c': Cache) {
    match lib.retainedSubmissions(cik)
    case Err(_) => false
    case Ok(Some(body)) =>
      var decoded := lib.decodeSubmissions(body, cik);
      decoded.Ok? && decoded.value.issuer == cik && decoded.value.recent == Ok(rows) && c' == c
    case Ok(None) =>
      var (c1, o) := Get(lib.codec, s, c, "https://data.sec.gov/submissions/CIK" + cik + ".json");
      o.Payload? &&
      var decoded := lib.decodeSubmissions(o.body, cik);
      && decoded.Ok? && decoded.value.issuer == cik && decoded.value.recent.Ok?
      && exists pages, states ::
           && PagesFrom(lib, s, cik, Wanted(lib, decoded.value.files), pages, states)
           && states[0] == c1 && states[|pages|] == c' && rows == decoded.value.recent.value + Flat(pages)
  }

  lemma SubmissionRows(lib: Library, s: Setup, c: Cache, cik: string)
    requires Run(lib.codec, s, c, SubmissionsClient(lib, cik)).1.Ok?
    ensures var (c', r) := Run(lib.codec, s, c, SubmissionsClient(lib, cik)); RowsFrom(lib, s, c, cik, r.value, c')
  {
    if lib.retainedSubmissions(cik) == Ok(None) {
      var (c1, o) := Get(lib.codec, s, c, "https://data.sec.gov/submissions/CIK" + cik + ".json");
      var decoded := lib.decodeSubmissions(o.body, cik).value;
      var pages, states := ArchiveRows(lib, s, c1, cik, decoded.files, decoded.recent.value);
    }
  }

  // ---- the row ----

  /** What a run of `collect_member` examined: the rows and the state behind them, the chosen periodic filings
    * with their trail and the anchor found, then the chosen ownership filings with theirs and the join found.
    */
  datatype Account = Account(rows: seq<Row>, gathered: Cache, periodic: seq<Row>, first: Trail, anchor: Option<string>,
                             ownership: seq<Row>, second: Trail, joined: Option<string>)

  /** The account is of this run: every filing in it was chosen, and examined in its turn. */
  ghost predicate Examined(lib: Library, s: Setup, c: Cache, m: Member, a: Account, end: Cache) {
    && RowsFrom(lib, s, c, m.cik, a.rows, a.gathered)
    && ChooseFilings(a.rows, PERIODIC_FORMS, lib.cutoff, 4) == Ok(a.periodic)
    && Offered(FromPeriodic(lib, s), a.periodic, a.first.offers, a.first.states) && a.first.states[0] == a.gathered
    && FirstHit(PeriodicJudge(lib, m), a.periodic, a.first.offers, a.anchor, a.first.codes)
    && (match a.anchor
        case None => a.second.codes == [] && a.joined == None && end == a.first.states[|a.first.offers|]
        case Some(anchor) => OwnershipExamined(lib, s, a.first.states[|a.first.offers|], m, anchor, a, end))
  }

  ghost predicate OwnershipExamined(lib: Library, s: Setup, c: Cache, m: Member, anchor: string, a: Account, end: Cache)
  {
    && ChooseOwnershipFilings(a.rows, lib.cutoff) == Ok(a.ownership)
    && Offered(FromOwnership(lib, s), a.ownership, a.second.offers, a.second.states)
    && a.second.states[0] == c && a.second.states[|a.second.offers|] == end
    && FirstHit(OwnershipJudge(lib, m, anchor), a.ownership, a.second.offers, a.joined, a.second.codes)
  }

  predicate SizeMet(codes: seq<Code>) {
    DocumentByteBound in codes || RetainedTooLarge in codes
  }

  /** The row that such an account calls for. */
  ghost predicate RowOf(m: Member, a: Account, row: MemberResult) {
    var codes := a.first.codes + a.second.codes;
    && row.key == m.key
    && (row.status == Anchored <==> a.joined.Some?)
    && (a.joined.Some? ==>
          && row.evidence == a.joined.value
          && if SizeMet(codes) then Counted(row.refusals, codes) else row.refusals == map[])
    && (a.joined.None? ==>
          && row.evidence == "" && Counted(row.refusals, codes)
          && (row.status == SizeUnresolved <==> SizeMet(codes))
          && (row.status == PeriodicUnresolved <==> !SizeMet(codes) && a.anchor.None?)
          && (row.status == OwnershipUnresolved <==> !SizeMet(codes) && a.anchor.Some?))
  }

  /** `collect_member`: a row says anchored exactly when a chosen periodic filing gave an anchor, the first that
    * did, and a chosen ownership filing joined with it, the first that did, and that join is its evidence. Any
    * other row names the stage that failed, or the size refusals met, and counts every refusal once.
    */
  lemma CollectedRow(lib: Library, s: Setup, c: Cache, m: Member) returns (a: Account)
    requires Run(lib.codec, s, c, CollectClient(lib, m)).1.Ok?
    ensures var (end, r) := Run(lib.codec, s, c, CollectClient(lib, m));
      Examined(lib, s, c, m, a, end) && RowOf(m, a, r.value)
  {
    var submissions := SubmissionsClient(lib, m.cik);
    RunThen(lib.codec, s, c, submissions, (rows: seq<Row>) => AfterSubmissions(lib, m, rows));
    var (c0, gathered) := Run(lib.codec, s, c, submissions);
    SubmissionRows(lib, s, c, m.cik);
    a := SearchedRow(lib, s, c0, m, gathered.value);
  }

  /** The two searches, once the rows are there. */
  lemma SearchedRow(lib: Library, s: Setup, c: Cache, m: Member, rows: seq<Row>) returns (a: Account)
    requires Run(lib.codec, s, c, AfterSubmissions(lib, m, rows)).1.Ok?
    ensures var (end, r) := Run(lib.codec, s, c, AfterSubmissions(lib, m, rows));
      && a.rows == rows && a.gathered == c && RowOf(m, a, r.value)
      && ChooseFilings(rows, PERIODIC_FORMS, lib.cutoff, 4) == Ok(a.periodic)
      && Offered(FromPeriodic(lib, s), a.periodic, a.first.offers, a.first.states) && a.first.states[0] == c
      && FirstHit(PeriodicJudge(lib, m), a.periodic, a.first.offers, a.anchor, a.first.codes)
      && (match a.anchor
          case None => a.second.codes == [] && a.joined == None && end == a.first.states[|a.first.offers|]
          case Some(anchor) => OwnershipExamined(lib, s, a.first.states[|a.first.offers|], m, anchor, a, end))
  {
    var periodic := ChooseFilings(rows, PERIODIC_FORMS, lib.cutoff, 4).value;
    RunThen(lib.codec, s, c, PeriodicClient(lib, m, periodic, map[]),
            (found: Search<string>) => AfterPeriodic(lib, m, rows, found));
    var (c1, search) := Run(lib.codec, s, c, PeriodicClient(lib, m, periodic, map[]));
    var t := PeriodicSearch(lib, s, c, m, periodic, map[], []);
    assert [] + t.codes == t.codes;
    a := Account(rows, c, periodic, t, search.value.found, [], Trail([], [], []), None);
    if search.value.found.None? {
      assert t.codes + [] == t.codes;
    } else {
      a := JoinedRow(lib, s, c1, m, search.value, a);
    }
  }

  lemma JoinedRow(lib: Library, s: Setup, c: Cache, m: Member, search: Search<string>, a0: Account) returns (a: Account)
    requires search.found.Some? && Run(lib.codec, s, c, AfterPeriodic(lib, m, a0.rows, search)).1.Ok?
    requires a0.anchor == search.found && Counted(search.refusals, a0.first.codes)
    ensures a == a0.(ownership := a.ownership, second := a.second, joined := a.joined)
    ensures var (end, r) := Run(lib.codec, s, c, AfterPeriodic(lib, m, a0.rows, search));
      OwnershipExamined(lib, s, c, m, search.found.value, a, end) && RowOf(m, a, r.value)
  {
    var anchor := search.found.value;
    var filings := ChooseOwnershipFilings(a0.rows, lib.cutoff).value;
    var client := OwnershipClient(lib, m, anchor, filings, search.refusals);
    RunThen(lib.codec, s, c, client, (found: Search<string>) => Done(Verdict(m, found, OwnershipUnresolved)));
    var t := OwnershipSearch(lib, s, c, m, anchor, filings, search.refusals, a0.first.codes);
    a := a0.(ownership := filings, second := t, joined := Run(lib.codec, s, c, client).1.value.found);
  }

  // ---- the rows of the two commands ----

  /** The row of one member: the one that its examination calls for, or, when a source could not be had, a row
    * that names and counts that one refusal.
    */
  ghost predicate MemberRow(lib: Library, s: Setup, c: Cache, m: Member, row: MemberResult) {
    var (end, r) := Run(lib.codec, s, c, CollectClient(lib, m));
    match r
    case Ok(collected) => row == collected && exists a :: Examined(lib, s, c, m, a, end) && RowOf(m, a, row)
    case Err(Payload(_)) => false
    case Err(Raised(e)) =>
      && e.Identity? && (IsSizeCode(e.code) || e.code == TemporarilyUnavailable || e.code == DeferredThisRun)
      && row == MemberResult(m.key, if IsSizeCode(e.code) then SizeUnresolved else Unavailable, "", map[e.code := 1])
  }

  lemma SettledRow(lib: Library, s: Setup, c: Cache, m: Member)
    ensures var settled := Settle(m, Run(lib.codec, s, c, CollectClient(lib, m)).1);
      && (settled.Ok? ==> MemberRow(lib, s, c, m, settled.value))
      && (forall row :: MemberRow(lib, s, c, m, row) ==> settled == Ok(row))
  {
    var (end, r) := Run(lib.codec, s, c, CollectClient(lib, m));
    if r.Ok? {
      var a := CollectedRow(lib, s, c, m);
    }
  }

  /** A member that the capture takes gets its row, its receipt is on disk, and the circuit is still closed. */
  lemma CapturedRow(job: Job, s: Setup, binding: Binding, c: Cache, m: Member)
    requires MemberStep(job, s, binding, c, m).1.Ok?
    ensures var (c', row) := MemberStep(job, s, binding, c, m);
      var receipt := job.memberBytes(binding, row.value);
      && MemberRow(job.lib, s, c, m, row.value) && c'.failures < 3
      && MemberFile(receipt) in c'.dir && c'.dir[MemberFile(receipt)] == receipt
  {
    SettledRow(job.lib, s, c, m);
  }

  /** The receipt is new, or an identical one is there and can be read. */
  ghost predicate CanSave(dir: Directory, receipt: Bytes) {
    MemberFile(receipt) in dir ==> dir[MemberFile(receipt)] == receipt && 0 < |receipt| <= 1024 * 1024
  }

  /** A member is taken exactly when it gets a row, its receipt can be saved and the circuit is closed. */
  lemma TakenMeaning(job: Job, s: Setup, binding: Binding, c: Cache, m: Member)
    ensures var c1 := Run(job.lib.codec, s, c, CollectClient(job.lib, m)).0;
      MemberStep(job, s, binding, c, m).1.Ok? <==> exists row ::
        MemberRow(job.lib, s, c, m, row) && CanSave(c1.dir, job.memberBytes(binding, row)) && c1.failures < 3
  {
    SettledRow(job.lib, s, c, m);
  }

  /** A test of one member's turn: the state before, the member, its row, the state after. */
  type Turn = (Cache, Member, MemberResult, Cache) -> bool

  /** Row by row, each from the state that the one before it left. */
  ghost predicate InTurn(turn: Turn, members: seq<Member>, rows: seq<MemberResult>, states: seq<Cache>) {
    && |rows| == |members| && |states| == |rows| + 1
    && forall i :: 0 <= i < |rows| ==> turn(states[i], members[i], rows[i], states[i + 1])
  }

  lemma TurnsMove(turn: Turn, members: seq<Member>, c: Cache, row: MemberResult, later: seq<MemberResult>,
                  after: seq<Cache>)
    requires members != [] && InTurn(turn, members[1..], later, after) && turn(c, members[0], row, after[0])
    ensures InTurn(turn, members, [row] + later, [c] + after)
  {
  }

  /** A turn of the capture, and one of the replay. */
  ghost function CaptureTurn(job: Job, s: Setup, binding: Binding): Turn {
    (c: Cache, m: Member, row: MemberResult, c': Cache) =>
      MemberStep(job, s, binding, c, m) == (c', Ok(row)) && MemberRow(job.lib, s, c, m, row)
  }

  ghost function ReplayTurn(job: Job, recorded: map<Url, Receipt>): Turn {
    (r: Cache, m: Member, row: MemberResult, r': Cache) =>
      ReplayMember(job, recorded, r, m) == (r', Ok(row)) && MemberRow(job.lib, Replaying(recorded), r, m, row)
  }

  lemma CaptureHead(job: Job, s: Setup, binding: Binding, c: Cache, members: seq<Member>, done: seq<MemberResult>)
      returns (c1: Cache, row: MemberResult)
    requires members != [] && CaptureMembers(job, s, binding, c, members, done).1.Ok?
    ensures CaptureTurn(job, s, binding)(c, members[0], row, c1)
    ensures CaptureMembers(job, s, binding, c, members, done)
         == CaptureMembers(job, s, binding, c1, members[1..], done + [row])
  {
    CapturedRow(job, s, binding, c, members[0]);
    c1, row := MemberStep(job, s, binding, c, members[0]).0, MemberStep(job, s, binding, c, members[0]).1.value;
  }

  lemma ReplayHead(job: Job, recorded: map<Url, Receipt>, r: Cache, members: seq<Member>, done: seq<MemberResult>)
      returns (r1: Cache, row: MemberResult)
    requires members != [] && ReplayMembers(job, recorded, r, members, done).1.Ok?
    ensures ReplayTurn(job, recorded)(r, members[0], row, r1)
    ensures ReplayMembers(job, recorded, r, members, done)
         == ReplayMembers(job, recorded, r1, members[1..], done + [row])
  {
    SettledRow(job.lib, Replaying(recorded), r, members[0]);
    r1, row := ReplayMember(job, recorded, r, members[0]).0, ReplayMember(job, recorded, r, members[0]).1.value;
  }

  /** The rows taken so far and those still to be taken make up the whole, turn by turn. */
  ghost predicate Takes(turn: Turn, c: Cache, members: seq<Member>, done: seq<MemberResult>, end: Cache,
                        all: seq<MemberResult>)
  {
    exists rows, states ::
      InTurn(turn, members, rows, states) && states[0] == c && states[|members|] == end && all == done + rows
  }

  lemma TakesNothing(turn: Turn, c: Cache, done: seq<MemberResult>)
    ensures Takes(turn, c, [], done, c, done)
  {
    assert InTurn(turn, [], [], [c]) && done == done + [];
  }

  lemma TakesOne(turn: Turn, c: Cache, members: seq<Member>, done: seq<MemberResult>, c1: Cache, row: MemberResult,
                 end: Cache, all: seq<MemberResult>)
    requires members != [] && turn(c, members[0], row, c1) && Takes(turn, c1, members[1..], done + [row], end, all)
    ensures Takes(turn, c, members, done, end, all)
  {
    var rows, states :| InTurn(turn, members[1..], rows, states) && states[0] == c1
                        && states[|members[1..]|] == end && all == (done + [row]) + rows;
    TurnsMove(turn, members, c, row, rows, states);
    assert (done + [row]) + rows == done + ([row] + rows);
  }

  /** Each member of a capture gets its row, and is saved, in its turn. */
  lemma {:induction false} CapturedRows(job: Job, s: Setup, binding: Binding, c: Cache,
                                        members: seq<Member>, done: seq<MemberResult>)
    requires CaptureMembers(job, s, binding, c, members, done).1.Ok?
    ensures var (end, all) := CaptureMembers(job, s, binding, c, members, done);
      Takes(CaptureTurn(job, s, binding), c, members, done, end, all.value)
    decreases |members|
  {
    if members == [] {
      TakesNothing(CaptureTurn(job, s, binding), c, done);
    } else {
      var c1, row := CaptureHead(job, s, binding, c, members, done);
      CapturedRows(job, s, binding, c1, members[1..], done + [row]);
      var (end, all) := CaptureMembers(job, s, binding, c1, members[1..], done + [row]);
      TakesOne(CaptureTurn(job, s, binding), c, members, done, c1, row, end, all.value);
    }
  }

  /** Each member of a replay gets its row from the directory, by the same rules. */
  lemma {:induction false} ReplayedRows(job: Job, recorded: map<Url, Receipt>, r: Cache,
                                        members: seq<Member>, done: seq<MemberResult>)
    requires ReplayMembers(job, recorded, r, members, done).1.Ok?
    ensures var (end, all) := ReplayMembers(job, recorded, r, members, done);
      Takes(ReplayTurn(job, recorded), r, members, done, end, all.value)
    decreases |members|
  {
    if members == [] {
      TakesNothing(ReplayTurn(job, recorded), r, done);
    } else {
      var r1, row := ReplayHead(job, recorded, r, members, done);
      ReplayedRows(job, recorded, r1, members[1..], done + [row]);
      var (end, all) := ReplayMembers(job, recorded, r1, members[1..], done + [row]);
      TakesOne(ReplayTurn(job, recorded), r, members, done, r1, row, end, all.value);
    }
  }

  // ---- the address of a filing ----

  function Zeros(n: nat): string {
    seq(n, i => '0')
  }

  lemma {:induction false} ZerosAreStripped(n: nat, k: string)
    requires k == "" || k[0] != '0'
    ensures StripZeros(Zeros(n) + k) == k
  {
    if n == 0 {
      assert Zeros(0) + k == k;
    } else {
      assert (Zeros(n) + k)[1..] == Zeros(n - 1) + k;
      ZerosAreStripped(n - 1, k);
    }
  }

  lemma {:induction false} DashesAreDropped(a: string, b: string)
    requires Lacks(a, '-')
    ensures Undashed(a + "-" + b) == a + Undashed(b) && Undashed(a) == a
  {
    if a == "" {
      assert "" + "-" + b == "-" + b && ("-" + b)[1..] == b;
    } else {
      assert (a + "-" + b)[1..] == a[1..] + "-" + b;
      assert Lacks(a[1..], '-') && a == [a[0]] + a[1..];
      DashesAreDropped(a[1..], b);
    }
  }

  /** The address of a filing's document: the CIK without its leading zeros, the accession number without its
    * dashes, and the document's name.
    */
  lemma FilingAddress(w: Codec, row: Row, n: nat, k: string, a: string, b: string, d: string)
    requires row.cik == Zeros(n) + k && |row.cik| == 10 && k != "" && k[0] != '0'
    requires forall i :: 0 <= i < |row.cik| ==> IsDigit(row.cik[i])
    requires row.accession == a + "-" + (b + "-" + d) && Lacks(a, '-') && Lacks(b, '-') && Lacks(d, '-')
    ensures var url := "https://www.sec.gov/Archives/edgar/data/" + k + "/" + (a + (b + d)) + "/" + row.document;
      FilingUrl(w, row) == if w.approved(url) then Ok(url) else Err(Identity(InvalidArchiveUrl))
  {
    ZerosAreStripped(n, k);
    DashesAreDropped(a, b + "-" + d);
    DashesAreDropped(b, d);
    DashesAreDropped(d, "");
  }
}
