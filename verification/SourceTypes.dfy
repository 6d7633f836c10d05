/** What the SEC source cache stores, what a server can answer, and what a call can raise.
  *
  * SHA-256 is taken as injective: the digest of a URL is represented by the URL, the
  * digest of a payload by `Digest(payload)`, and a file named after a digest by the bytes
  * it was named after.
  */
module SourceTypes {
  import opened Common

  type Url = string

  datatype FileName =
    | MetaFile(url: Url)          // <digest of url>.json
    | BodyFile(url: Url)          // <digest of url>.body
    | ReceiptFile(of: Bytes)      // unavailable-<digest>.json
    | MemberFile(of: Bytes)       // member-<digest>.json
    | ResultFile(of: Bytes)       // result-<digest>.json
    | BindingFile                 // binding.json

  type Directory = map<FileName, Bytes>

  datatype RecordedTime = Instant(micros: int) | NotAnInstant

  /** The record beside a body; every field is optional because the file may be tampered. */
  datatype Meta = Meta(url: Option<Url>, refusal: bool, sha256: Option<Digest>,
                       bytes: Option<int>, retrievedAt: RecordedTime, extra: string)

  /** The record of one transient failure. */
  datatype Receipt = Receipt(url: Url, sourceUrl: Url, status: Option<int>, timeout: bool,
                             observedAt: RecordedTime, bodyRetained: bool, retried: bool)

  datatype Code =
    | UnapprovedSourceUrl
    | IncompleteCachePair
    | UncapturedSource
    | RequestBudgetExhausted
    | ResponseBudgetExhausted
    | EmptySource
    | DocumentByteBound
    | CacheTampered
    | InvalidTimestamp
    | DeferredThisRun
    | CircuitOpen
    | TemporarilyUnavailable
    | RetainedTooLarge
    | InvalidRecordedFailure
    | ReceiptChanged
    | InvalidAccession
    | ConflictingAccession
    | InvalidFilingSeries
    | InvalidFilingCik
    | InvalidArchiveUrl
    | InvalidArchiveDescriptor
    | IssuerMismatch
    | OtherCode(text: string)

  datatype Error =
    | Identity(code: Code)                        // IdentityEvidenceError
    | HttpStatus(status: int, retryAfter: bool)   // httpx.HTTPStatusError
    | Timeout                                     // httpx.TimeoutException
    | Transport                                   // any other httpx error
    | FileMissing | FileBound | FileExists | Malformed
    | Refused(text: string)                       // any other error of the program

  datatype Outcome = Payload(body: Bytes) | Raised(error: Error)

  datatype Ending = Complete | TimedOut | Broken

  /** `Status` is a non-2xx answer; `Stream` a 2xx answer delivered in chunks. */
  datatype Response =
    | Status(code: int, retryAfter: bool)
    | NoAnswer(timedOut: bool)
    | Stream(chunks: seq<Bytes>, ending: Ending)

  datatype Reply = Reply(response: Response, at: int)

  /** An arbitrary server: its answer to the n-th request of a run. */
  type Server = nat -> Reply

  /** URL approval and the JSON encodings, kept abstract. */
  datatype Codec = Codec(approved: Url -> bool,
                         metaBytes: Meta -> Bytes,
                         metaOf: Bytes -> Option<Meta>,
                         receiptBytes: Receipt -> Bytes)

  /** Decoding a canonical record gives the record back, and the empty file decodes to nothing. */
  ghost predicate Faithful(w: Codec) {
    && (forall m :: w.metaOf(w.metaBytes(m)) == Some(m))
    && w.metaOf([]) == None
    && (forall r :: w.receiptBytes(r) != [])
  }

  const MAX_DOCUMENT_BYTES: nat := 16 * 1024 * 1024
  const MAX_RUN_BYTES: nat := 1024 * 1024 * 1024
  const MAX_META_BYTES: nat := 4096
  const MAX_RECEIPT_BYTES: nat := 8192
  const TRANSIENT_STATUSES: set<int> := {500, 502, 503, 504}

  /** `_read_private_file`: absent, empty and oversize files are refused. */
  function ReadFile(dir: Directory, name: FileName, maximum: nat): Result<Bytes, Error> {
    if name !in dir then Err(FileMissing)
    else if !(0 < |dir[name]| <= maximum) then Err(FileBound)
    else Ok(dir[name])
  }
}
