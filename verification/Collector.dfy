/** `submissions` and `collect_member` as adaptive clients of the cache. */
module Collector {
  import opened Common
  import opened SourceTypes
  import opened CacheMachine
  import opened CacheSafety
  import opened ReplaySimulation
  import opened FilingSelection
  import opened TextParts

  datatype Member = Member(key: string, cik: string, symbol: string)

  /** One entry of the submissions file list, dates as day numbers. */
  datatype Descriptor = Descriptor(filingFrom: int, filingTo: int, name: string)

  datatype Submissions = Submissions(issuer: string, recent: Result<seq<Row>, Error>, files: seq<Descriptor>)

  /** Everything deterministic that the collector calls: the retained checkpoint, the JSON
    * decoders and the extractors of `historical_identity`.
    */
  datatype Library = Library(
    cutoff: int,
    codec: Codec,
    retainedSubmissions: string -> Result<Option<Bytes>, Error>,
    retainedFiling: Row -> Result<Option<Bytes>, Error>,
    decodeSubmissions: (Bytes, string) -> Result<Submissions, Error>,
    decodeArchive: (Bytes, string) -> Result<seq<Row>, Error>,
    periodicAnchor: (Bytes, Row, Member) -> Result<string, Error>,
    joinOwnership: (Bytes, Row, Member, string) -> Result<string, Error>)

  type Refusals = map<Code, nat>

  datatype Status = SizeUnresolved | PeriodicUnresolved | OwnershipUnresolved | Anchored | Unavailable

  /** `evidence` is the anchor of an anchored member and empty otherwise. */
  datatype MemberResult = MemberResult(key: string, status: Status, evidence: string, refusals: Refusals)

  function Bump(refusals: Refusals, code: Code): Refusals {
    refusals[code := (if code in refusals then refusals[code] else 0) + 1]
  }

  predicate SizeError(e: Error) {
    e == Identity(DocumentByteBound) || e == Identity(RetainedTooLarge)
  }

  predicate SizeRefused(refusals: Refusals) {
    DocumentByteBound in refusals || RetainedTooLarge in refusals
  }

  function StripZeros(cik: string): string {
    if cik == "" || cik[0] != '0' then cik else StripZeros(cik[1..])
  }

  function Undashed(s: string): string {
    if s == "" then "" else (if s[0] == '-' then "" else [s[0]]) + Undashed(s[1..])
  }

  function FilingUrl(w: Codec, row: Row): Result<Url, Error> {
    if |row.cik| != 10 || (exists i :: 0 <= i < |row.cik| && !IsDigit(row.cik[i])) || StripZeros(row.cik) == "" then
      Err(Identity(InvalidFilingCik))
    else
      var folder := "https://www.sec.gov/Archives/edgar/data/" + StripZeros(row.cik) + "/" + Undashed(row.accession);
      var url := folder + "/" + row.document;
      if w.approved(url) then Ok(url) else Err(Identity(InvalidArchiveUrl))
  }

  /** The complete submission text of a filing. */
  function SubmissionTextUrl(w: Codec, row: Row): Result<Url, Error> {
    FilingUrl(w, row.(document := row.accession + ".txt"))
  }

  predicate IsArchiveName(cik: string, name: string) {
    var prefix := "CIK" + cik + "-submissions-";
    && |name| == |prefix| + 8 && name[..|prefix|] == prefix && name[|prefix| + 3..] == ".json"
    && IsDigit(name[|prefix|]) && IsDigit(name[|prefix| + 1]) && IsDigit(name[|prefix| + 2])
  }

  predicate OutsideCoverage(lib: Library, d: Descriptor) {
    d.filingFrom > lib.cutoff / DAY || d.filingTo < (lib.cutoff - LOOKBACK_DAYS * DAY) / DAY
  }

  predicate IsPayload(o: Outcome) { o.Payload? }

  /** The archive pages whose advertised coverage meets the lookback window. */
  ghost function ArchiveClient(lib: Library, cik: string, files: seq<Descriptor>, rows: seq<Row>): Client<seq<Row>>
    decreases |files|
  {
    if files == [] then Done(rows)
    else if OutsideCoverage(lib, files[0]) then ArchiveClient(lib, cik, files[1..], rows)
    else if !IsArchiveName(cik, files[0].name) then Fail(Identity(InvalidArchiveDescriptor))
    else Ask("https://data.sec.gov/submissions/" + files[0].name,
      imap o: Outcome | IsPayload(o) ::
        match lib.decodeArchive(o.body, cik)
        case Err(e) => Fail(e)
        case Ok(more) => ArchiveClient(lib, cik, files[1..], rows + more))
  }

  ghost function Expanded(lib: Library, cik: string, body: Bytes, live: bool): Client<seq<Row>> {
    match lib.decodeSubmissions(body, cik)
    case Err(e) => Fail(e)
    case Ok(decoded) =>
      if decoded.issuer != cik then Fail(Identity(IssuerMismatch))
      else match decoded.recent
        case Err(e) => Fail(e)
        case Ok(rows) => if live then ArchiveClient(lib, cik, decoded.files, rows) else Done(rows)
  }

  ghost function SubmissionsClient(lib: Library, cik: string): Client<seq<Row>> {
    match lib.retainedSubmissions(cik)
    case Err(e) => Fail(e)
    case Ok(Some(body)) => Expanded(lib, cik, body, false)
    case Ok(None) =>
      Ask("https://data.sec.gov/submissions/CIK" + cik + ".json",
          imap o: Outcome | IsPayload(o) :: Expanded(lib, cik, o.body, true))
  }

  predicate PayloadOr(o: Outcome, bound: bool) {
    o.Payload? || (bound && SizeError(o.error)) || (!bound && o.error == Identity(DocumentByteBound))
  }

  datatype Search<A> = Search(found: Option<A>, refusals: Refusals)

  /** The periodic loop: the first filing that anchors the member, or the refusals met. */
  ghost function PeriodicClient(lib: Library, m: Member, filings: seq<Row>, refusals: Refusals): Client<Search<string>>
    decreases |filings|, 1
  {
    if filings == [] then Done(Search(None, refusals))
    else match lib.retainedFiling(filings[0])
      case Err(e) => SkipPeriodic(lib, m, filings, refusals, e)
      case Ok(Some(body)) => PeriodicBody(lib, m, filings, refusals, body)
      case Ok(None) =>
        match FilingUrl(lib.codec, filings[0])
        case Err(e) => SkipPeriodic(lib, m, filings, refusals, e)
        case Ok(url) =>
          Ask(url, imap o: Outcome | PayloadOr(o, true) ::
            if o.Payload? then PeriodicBody(lib, m, filings, refusals, o.body)
            else SkipPeriodic(lib, m, filings, refusals, o.error))
  }

  /** Only a size refusal of the source lets the loop continue. */
  ghost function SkipPeriodic(lib: Library, m: Member, filings: seq<Row>, refusals: Refusals, e: Error)
      : Client<Search<string>>
    requires filings != []
    decreases |filings|, 0
  {
    if SizeError(e) then PeriodicClient(lib, m, filings[1..], Bump(refusals, e.code)) else Fail(e)
  }

  /** Any static refusal of the extractor lets the loop continue. */
  ghost function PeriodicBody(lib: Library, m: Member, filings: seq<Row>, refusals: Refusals, body: Bytes)
      : Client<Search<string>>
    requires filings != []
    decreases |filings|, 0
  {
    match lib.periodicAnchor(body, filings[0], m)
    case Ok(anchor) => Done(Search(Some(anchor), refusals))
    case Err(e) => if e.Identity? then PeriodicClient(lib, m, filings[1..], Bump(refusals, e.code)) else Fail(e)
  }

  /** The ownership loop, after a periodic anchor was found. */
  ghost function OwnershipClient(lib: Library, m: Member, anchor: string, filings: seq<Row>, refusals: Refusals)
      : Client<Search<string>>
    decreases |filings|
  {
    if filings == [] then Done(Search(None, refusals))
    else match SubmissionTextUrl(lib.codec, filings[0])
      case Err(e) => Fail(e)
      case Ok(url) =>
        Ask(url, imap o: Outcome | PayloadOr(o, false) ::
          if o.Raised? then OwnershipClient(lib, m, anchor, filings[1..], Bump(refusals, DocumentByteBound))
          else match lib.joinOwnership(o.body, filings[0], m, anchor)
            case Ok(joined) => Done(Search(Some(joined), refusals))
            case Err(e) =>
              if e.Identity? then OwnershipClient(lib, m, anchor, filings[1..], Bump(refusals, e.code)) else Fail(e))
  }

  /** Runs one client and then the client its result selects. */
  ghost function Then<A, B>(client: Client<A>, next: A -> Client<B>): Client<B>
    decreases client
  {
    match client
    case Done(a) => next(a)
    case Fail(e) => Fail(e)
    case Ask(url, k) => Ask(url, imap o: Outcome | o in k :: Then(k[o], next))
  }

  function Verdict(m: Member, found: Search<string>, otherwise: Status): MemberResult {
    match found.found
    case Some(evidence) =>
      MemberResult(m.key, Anchored, evidence, if SizeRefused(found.refusals) then found.refusals else map[])
    case None =>
      MemberResult(m.key, if SizeRefused(found.refusals) then SizeUnresolved else otherwise, "", found.refusals)
  }

  ghost function AfterPeriodic(lib: Library, m: Member, rows: seq<Row>, periodic: Search<string>)
      : Client<MemberResult>
  {
    match periodic.found
    case None => Done(Verdict(m, periodic, PeriodicUnresolved))
    case Some(anchor) =>
      match ChooseOwnershipFilings(rows, lib.cutoff)
      case Err(code) => Fail(Identity(code))
      case Ok(filings) =>
        Then(OwnershipClient(lib, m, anchor, filings, periodic.refusals),
             (found: Search<string>) => Done(Verdict(m, found, OwnershipUnresolved)))
  }

  ghost function AfterSubmissions(lib: Library, m: Member, rows: seq<Row>): Client<MemberResult> {
    match ChooseFilings(rows, PERIODIC_FORMS, lib.cutoff, 4)
    case Err(code) => Fail(Identity(code))
    case Ok(filings) =>
      Then(PeriodicClient(lib, m, filings, map[]),
           (periodic: Search<string>) => AfterPeriodic(lib, m, rows, periodic))
  }

  /** `collect_member`. */
  ghost function CollectClient(lib: Library, m: Member): Client<MemberResult> {
    Then(SubmissionsClient(lib, m.cik), (rows: seq<Row>) => AfterSubmissions(lib, m, rows))
  }

  /** Sequencing clients is sequencing their runs. */
  lemma {:induction false} RunThen<A, B>(w: Codec, s: Setup, c: Cache, client: Client<A>, next: A -> Client<B>)
    ensures Run(w, s, c, Then(client, next)) ==
      var (c', result) := Run(w, s, c, client);
      match result
      case Ok(a) => Run(w, s, c', next(a))
      case Err(o) => (c', Err(o))
    decreases client
  {
    match client
    case Done(_) =>
    case Fail(_) =>
    case Ask(url, k) =>
      var (c', o) := Get(w, s, c, url);
      if o in k {
        RunThen(w, s, c', k[o], next);
      }
  }

  lemma {:induction false} ThenIsPrudent<A, B>(client: Client<A>, next: A -> Client<B>)
    requires Prudent(client) && forall a :: Prudent(next(a))
    ensures Prudent(Then(client, next))
    decreases client
  {
    if client.Ask? {
      forall o | o in client.next
        ensures Recoverable(o) && Prudent(Then(client.next[o], next))
      {
        ThenIsPrudent(client.next[o], next);
      }
    }
  }

  lemma {:induction false} ArchiveIsPrudent(lib: Library, cik: string, files: seq<Descriptor>, rows: seq<Row>)
    ensures Prudent(ArchiveClient(lib, cik, files, rows))
    decreases |files|
  {
    if files != [] {
      if OutsideCoverage(lib, files[0]) {
        ArchiveIsPrudent(lib, cik, files[1..], rows);
      } else {
        var client := ArchiveClient(lib, cik, files, rows);
        if client.Ask? {
          forall o | o in client.next ensures Recoverable(o) && Prudent(client.next[o]) {
            var more := lib.decodeArchive(o.body, cik);
            if more.Ok? { ArchiveIsPrudent(lib, cik, files[1..], rows + more.value); }
          }
        }
      }
    }
  }

  lemma SubmissionsIsPrudent(lib: Library, cik: string)
    ensures Prudent(SubmissionsClient(lib, cik))
  {
    forall body, live ensures Prudent(Expanded(lib, cik, body, live)) {
      var decoded := lib.decodeSubmissions(body, cik);
      if decoded.Ok? && decoded.value.recent.Ok? {
        ArchiveIsPrudent(lib, cik, decoded.value.files, decoded.value.recent.value);
      }
    }
  }

  lemma {:induction false} PeriodicIsPrudent(lib: Library, m: Member, filings: seq<Row>, refusals: Refusals)
    ensures Prudent(PeriodicClient(lib, m, filings, refusals))
    decreases |filings|
  {
    if filings != [] {
      forall rest ensures Prudent(PeriodicClient(lib, m, filings[1..], rest)) {
        PeriodicIsPrudent(lib, m, filings[1..], rest);
      }
      forall body ensures Prudent(PeriodicBody(lib, m, filings, refusals, body)) {}
      forall e ensures Prudent(SkipPeriodic(lib, m, filings, refusals, e)) {}
      var client := PeriodicClient(lib, m, filings, refusals);
      if lib.retainedFiling(filings[0]) == Ok(None) && FilingUrl(lib.codec, filings[0]).Ok? {
        forall o | o in client.next ensures Recoverable(o) && Prudent(client.next[o]) {
          assert PayloadOr(o, true);
          if o.Payload? {
            assert client.next[o] == PeriodicBody(lib, m, filings, refusals, o.body);
          } else {
            assert client.next[o] == SkipPeriodic(lib, m, filings, refusals, o.error);
          }
        }
      }
    }
  }

  lemma {:induction false} OwnershipIsPrudent(lib: Library, m: Member, anchor: string, filings: seq<Row>,
                                              refusals: Refusals)
    ensures Prudent(OwnershipClient(lib, m, anchor, filings, refusals))
    decreases |filings|
  {
    if filings != [] {
      forall rest ensures Prudent(OwnershipClient(lib, m, anchor, filings[1..], rest)) {
        OwnershipIsPrudent(lib, m, anchor, filings[1..], rest);
      }
    }
  }

  lemma AfterPeriodicIsPrudent(lib: Library, m: Member, rows: seq<Row>, periodic: Search<string>)
    ensures Prudent(AfterPeriodic(lib, m, rows, periodic))
  {
    if periodic.found.Some? {
      var filings := ChooseOwnershipFilings(rows, lib.cutoff);
      if filings.Ok? {
        OwnershipIsPrudent(lib, m, periodic.found.value, filings.value, periodic.refusals);
        ThenIsPrudent(OwnershipClient(lib, m, periodic.found.value, filings.value, periodic.refusals),
                      (found: Search<string>) => Done(Verdict(m, found, OwnershipUnresolved)));
      }
    }
  }

  lemma AfterSubmissionsIsPrudent(lib: Library, m: Member, rows: seq<Row>)
    ensures Prudent(AfterSubmissions(lib, m, rows))
  {
    var filings := ChooseFilings(rows, PERIODIC_FORMS, lib.cutoff, 4);
    if filings.Ok? {
      PeriodicIsPrudent(lib, m, filings.value, map[]);
      forall p ensures Prudent(AfterPeriodic(lib, m, rows, p)) { AfterPeriodicIsPrudent(lib, m, rows, p); }
      ThenIsPrudent(PeriodicClient(lib, m, filings.value, map[]),
                    (periodic: Search<string>) => AfterPeriodic(lib, m, rows, periodic));
    }
  }

  /** `collect_member` survives only payloads and size refusals, so it can be replayed. */
  lemma CollectIsPrudent(lib: Library, m: Member)
    ensures Prudent(CollectClient(lib, m))
  {
    SubmissionsIsPrudent(lib, m.cik);
    forall rows ensures Prudent(AfterSubmissions(lib, m, rows)) { AfterSubmissionsIsPrudent(lib, m, rows); }
    ThenIsPrudent(SubmissionsClient(lib, m.cik), (rows: seq<Row>) => AfterSubmissions(lib, m, rows));
  }
}
