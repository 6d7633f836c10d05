# Verification of the evidence-handling scripts and the private read study

This project models the parts of the repository that capture, replay, gate, parse, claim and report
evidence, and proves what they promise over every input, every run and every interleaving. Run
`dafny verify dfyconfig.toml` in this directory.

## What is modelled

**Capture and replay of SEC sources.** `SourceTypes` and `CacheMachine` hold one call of
`SourceCache.get` and of its subclass `ReplayCache` as a function on the cache state: an append-only
directory, a request budget, a byte budget, deferred failures and the three-strike circuit breaker. The
server is an arbitrary function of the request number. `SourceCacheClass` is the object the program has,
its methods proved equal to those functions. `CacheSafety` proves the invariants for an arbitrary adaptive
client, `CacheHistory` adds crashes between any two writes and any number of resumed runs,
`ReplaySimulation` relates the live machine to the offline one step by step. `Collector` writes
`collect_member` as such a client, `Capture` composes both commands into the replay theorem,
`CaptureHistory` carries the crash results over to histories of the whole capture command, and
`CollectorMethods` has the loops as the programs run them. Four modules say what all this answers, apart from
those definitions: `CacheAnswers` what one call returns, defers and stores for each reply and each stored file,
`CollectorRows` which row a member gets from the filings that were examined, `CaptureAnswers` when a capture
starts and ends in a result, and `ReplayVerdicts` which results a replay accepts.

**Private read study.** `StudyGate` is the middleware as steps around its one await. `TimingHeader` (with
`TextParts`) has the service's header printer and the observer's parser. `TraceTree` is the span-tree
checker. `StudyObserver` produces receipts; `Finalizer` and `FinalReport` fold them into the report;
`StudyEvidence` proves what the figures mean and that every receipt the observer can emit is admitted.
`Tallies` holds counters, sums over keys and nearest-rank statistics. `GateAnswers`, `TraceAnswers`,
`ObserverAnswers` and `ReportAnswers` give each decision of these programs its exact condition on the raw facts:
every refusal status, every reason of a failed read, what a lawful trace is, and which attempts a cohort holds.

**Parsers.** `PngChunks` has the chunk filter and the independent image checker (sections 3.1, 3.2 and 3.4
of RFC 2083). `CoverFacts` (with `Whitespace`) has the depth-and-stack parser of inline-XBRL covers.
`PngAnswers` and `CoverAnswers` say at which bytes each refusal arises and what names and flags mean.

**One-claim scheduler.** `Scheduler` interleaves any number of runs over one object store and one
registry. `Snapshots` is the append-only comparison, `Closeout` the acceptance decision.

**Closure, grouping and selection.** `Requirements` is the recursive include over a lock file that may
have cycles. `FilingSelection` and `FilingMethods` choose filings, by the rules that `FilingAnswers` spells out. `Roster` and `RosterCapture` group an
index by filer, save it and verify it.

**Release decision and calendar loops.** `Readiness` (with `ErrorCodes`) has the status logic and the
manifest validator that it depends on. `CalendarLoops` has the coverage of days by reports, the expected
schedule occurrence and the partition of scheduler runs.

SHA-256 is a constructor, so injective. Canonical JSON encodings are functions with a decoder that undoes
them. CRC-32 is any function. Clocks, servers, run metadata and workflow results are parameters.

## Results that differ from what one would expect

- Replay does not follow from a finished capture alone. The writers bound no file, while the readers refuse
  a record over 4096 bytes, a failure receipt over 8192 bytes, a binding over 1 MiB and a result over
  32 MiB. `Capture.CompletedCaptureReplays` states the exact condition, and
  `ReplaySimulation.LongRecordArises` exhibits a run whose captured source is unreadable from then on.
- A transient failure counts and a payload resets the count; a size refusal and any other failure do
  neither (`scripts/capture_historical_security_identity.py:188-219`).
- A crash right after a body, and no other, leaves a body without its record
  (`CacheHistory.CutLeavesOrphan`). Exactly such a body, a refusal's record or a record that is too long puts
  an approved source beyond the reach of every later call (`CacheHistory.ObtainableMeaning`): through any
  later runs, each cut anywhere, the body stays alone and its source is never requested again
  (`CacheHistory.OrphanIsPermanent`).
- A new capture that dies before it has written its binding leaves a directory that no later invocation, new
  or resumed, will ever use (`CaptureHistory.DeadBeforeBinding`). One that dies later can be resumed exactly
  when its binding is at most 1 MiB long (`CaptureHistory.ResumableMeaning`).
- `choose_filings` depends only on the set of rows when it succeeds. Its refusal depends on their order as
  soon as the rows show two kinds of flaw, and only then (`FilingSelection.AnswerIgnoresOrder`).
- `png_size` can change: behind a header chunk it is preserved exactly when that chunk has at least four data
  bytes, or the length bytes borrowed from the next chunk stay the same (`PngChunks.FilterKeepsSize`).
- A second dispatch for a slot loses the claim and touches nothing, yet its failure receipt, alone or not,
  makes the closeout ineligible (`Closeout.LoserReceiptBlocksCloseout`).
- `coverage_complete` needs two samples in every slot, and the observer takes the second only after a passed
  first one, so a single failed first read in the week rules it out
  (`StudyEvidence.CompleteMeansFirstReadsPassed`).
- `verify_capture` refuses a changed index or roster beside an unchanged commitment, but a commitment whose
  capture instant is replaced by another instant of the window is accepted
  (`RosterCapture.RestampedCaptureVerifies`).
- The verifier of a saved release report never compares the status with the checks: a report that lists a
  failed check can verify as ready, although the program never assembles one
  (`Readiness.VerificationIgnoresOutcomes`, `Readiness.SavedReadyCanBeFailed`).
- The status logic of the release report alone never looks at the legal approval or its date once the
  redistribution status says approved (`Readiness.StatusAloneIsUnsound`); the manifest validator closes
  that gap (`Readiness.ReadyMeansApproved`). A manifest with an unexpected status, path or digest makes the
  report fail its own verification instead of being published as blocked (`Readiness.BuildReadiness`).

## Model

| member | source | states |
|---|---|---|
| `CacheSafety.DownloadStep` | scripts/capture_historical_security_identity.py:240-268 | one request ends in exactly one fate, with the writes of that fate: body before record, a refusal record, or nothing |
| `CacheSafety.LiveGetStep` | scripts/capture_historical_security_identity.py:184-282 | one call of `get` either stays off the network and changes nothing but `used`, or makes exactly one request, for a source neither on disk nor deferred, with budget left and fewer than three failures |
| `CacheSafety.AskedKeepsBudgets` | scripts/capture_historical_security_identity.py:173-219 | requests never exceed the budget, none starts after 1 GiB was read or the circuit opened, and the failure count is a function of the request history |
| `CacheSafety.AskedKeepsNoRepeats` | scripts/capture_historical_security_identity.py:184-219 | a source that gave a payload, a size refusal or a transient failure is never requested again in the run |
| `CacheSafety.GetIsSafe` | scripts/capture_historical_security_identity.py:184-282 | one call keeps all cache invariants and only adds files, deferrals and history |
| `CacheSafety.RunIsSafe` | scripts/capture_historical_security_identity.py:184-282 | the same over whole runs of any adaptive client, against any server and any directory |
| `CacheSafety.OpenCircuitIsFinal` | scripts/capture_historical_security_identity.py:186-189 | once three failures accumulated, or one carried Retry-After, no later call of the run changes anything |
| `CacheSafety.PayloadIsGenuine` | scripts/capture_historical_security_identity.py:221-282 | a returned payload is the stored body whose digest and length its stored record names |
| `CacheAnswers.DrainMeaning` | scripts/capture_historical_security_identity.py:240-258 | the chunk loop succeeds exactly when all chunks together fit both ceilings, and then hands over their bytes in order; a refusal names the ceiling that the first chunk too many breaks, the run's before the document's |
| `CacheAnswers.AnswerMeaning` | scripts/capture_historical_security_identity.py:184-282 | a call makes a request exactly when every guard allows one, and then for each reply (every status, no answer, every ending of a stream) it returns, defers, counts and writes what that reply calls for; a complete document comes back as the joined bytes of its chunks |
| `CacheAnswers.StoredAnswer` | scripts/capture_historical_security_identity.py:221-282 | a readable record decides the answer: a payload exactly for an intact pair, a size refusal exactly for a dated refusal, and otherwise tampering, a bad time or a missing or oversized body, each with its exact condition |
| `CacheAnswers.GuardsAnswer` | scripts/capture_historical_security_identity.py:184-240 | a call that makes no request and has no record to read names the first reason against it and changes nothing |
| `CacheHistory.LeftoverIsSound` | scripts/capture_historical_security_identity.py:221-282 | from any sound directory, after any sequence of runs, each cut after any number of its writes, every stored pair is sound |
| `CacheHistory.CrashesLookLikeNoTampering` | scripts/capture_historical_security_identity.py:221-282 | in such a directory no call reports tampering or an unreadable record, except a record over its reader's bound |
| `CacheHistory.SettledIsNeverAsked` | scripts/capture_historical_security_identity.py:184-219 | a settled source stays settled through any later run, which never requests it |
| `CacheHistory.CutLeavesOrphan` | scripts/capture_historical_security_identity.py:261-268 | after an invocation that died anywhere, a body is without its record if and only if it was so before, or it was the last write and its record would have been the next |
| `CacheHistory.OrphanIsRefused` | scripts/capture_historical_security_identity.py:228-233 | in any state of a run, a body without its record is refused with one of four refusals, without a request or a write |
| `CacheHistory.OrphanIsPermanent` | scripts/capture_historical_security_identity.py:221-282 | through any later sequence of invocations, each cut after any number of writes, the body stays without its record and none of them requests the source |
| `CacheHistory.ObtainableMeaning` | scripts/capture_historical_security_identity.py:221-282 | in a directory with sound pairs some call of a later run can return an approved source if and only if its body is not alone and its record, if there is one, is neither a refusal's nor over 4096 bytes |
| `ReplaySimulation.GetSimulates` | scripts/verify_historical_security_identity.py:37-75 | every live step that a collector may survive is matched by one offline step with the same outcome, sources and deferrals |
| `ReplaySimulation.TransientSimulates` | scripts/verify_historical_security_identity.py:37-75 | a recorded transient failure is reproduced from its receipt file without a request |
| `ReplaySimulation.RunSimulates` | scripts/verify_historical_security_identity.py:37-75 | the simulation over whole runs of any client that survives only payloads, size refusals and deferred sources |
| `ReplaySimulation.ReplayIsOffline` | scripts/verify_historical_security_identity.py:32-75 | a replay makes no request, writes nothing and reads within its bounds, whatever the client |
| `ReplaySimulation.LongRecordIsUnreadable` | scripts/capture_historical_security_identity.py:221-282 | a source whose record is over 4096 bytes is captured, yet neither the same run nor a replay reads it again |
| `ReplaySimulation.LongRecordArises` | scripts/capture_historical_security_identity.py:221-282 | such a run exists: an empty directory, one request, any approved URL and body whose record encodes to more than 4096 bytes |
| `ReplaySimulation.PrudentRunSettles` | scripts/capture_historical_security_identity.py:184-219 | in a surviving run of a prudent client every request but possibly the last settled its source |
| `Collector.RunThen` | scripts/capture_historical_security_identity.py:388-450 | sequencing two clients is sequencing their runs |
| `Collector.CollectIsPrudent` | scripts/capture_historical_security_identity.py:388-450 | `collect_member` survives only payloads and size refusals of the source, so the simulation applies to it |
| `Capture.CaptureIsSafe` | scripts/capture_historical_security_identity.py:513-564 | the member loop keeps every cache invariant and the directory only grows |
| `Capture.MemberStepSimulates` | scripts/verify_historical_security_identity.py:117-139 | a member that the capture finished and saved is recomputed by one member of the replay, with the same row, sources and deferrals |
| `Capture.MembersSimulate` | scripts/verify_historical_security_identity.py:117-139 | replaying the members over the directory that a capture left gives the same rows, `used` receipts and deferrals |
| `Capture.Reopened` | scripts/verify_historical_security_identity.py:78-116 | the result of a finished capture is read back, binding and all, exactly when those two files are within their bounds |
| `Capture.CompletedCaptureReplays` | scripts/verify_historical_security_identity.py:78-178 | a completed capture replays offline over any directory that still holds its files, with the same rows, exactly when the files it must read are within the readers' bounds |
| `Capture.CaptureAsksOnce` | scripts/capture_historical_security_identity.py:453-605 | one invocation, finished or not, stays within its request budget and never requests a source twice |
| `CaptureHistory.CaptureStaysSound` | scripts/capture_historical_security_identity.py:453-605 | stored pairs are sound after every single write of one invocation, its binding, member and result files included |
| `CaptureHistory.HistoryIsSound` | scripts/capture_historical_security_identity.py:453-605 | after any history of new, resumed and interrupted invocations every stored pair is sound |
| `CaptureHistory.StoredIsNeverAskedAgain` | scripts/capture_historical_security_identity.py:453-605 | once a body or a record of a source reached the disk, no later invocation of any such history requests the source |
| `CaptureHistory.HistoryKeepsFiles` | scripts/capture_historical_security_identity.py:453-605 | no history of invocations, each cut after any number of its writes, changes or loses a file |
| `CaptureHistory.FinishedCaptureReplaysLater` | scripts/verify_historical_security_identity.py:78-178 | a completed capture replays after any later invocations, each cut anywhere, exactly when the files it must read are within the readers' bounds |
| `CaptureHistory.CutCaptureLeavesOrphan` | scripts/capture_historical_security_identity.py:453-605 | the same exact account of bodies without a record for a cut invocation of the whole command |
| `CaptureHistory.DeadBeforeBinding` | scripts/capture_historical_security_identity.py:486-498 | a new capture that dies before its first write leaves a directory that every later invocation refuses without a request or a write |
| `CaptureHistory.ResumableMeaning` | scripts/capture_historical_security_identity.py:486-498 | after any later attempts, a new capture that died can be resumed if and only if it had made its first write and its binding is within its reader's bound |
| `SourceCacheClass.Disk.WriteNew` | scripts/capture_prospective_sec_index.py:339-344 | a file is created once and never replaced |
| `SourceCacheClass.SourceCache.ReadChunks` | scripts/capture_historical_security_identity.py:243-257 | the chunk loop is the machine's: from within the run's ceiling it hands over the bytes of all chunks in order, each counted, exactly when they fit both ceilings |
| `SourceCacheClass.SourceCache.Download` | scripts/capture_historical_security_identity.py:240-268 | the object's network half equals the machine's, fields and files alike |
| `SourceCacheClass.SourceCache.Check` | scripts/capture_historical_security_identity.py:269-282 | the object's verifying half equals the machine's and changes only `used` |
| `SourceCacheClass.SourceCache.Fetch` | scripts/capture_historical_security_identity.py:221-282 | `_get` on the object equals `_get` on the machine |
| `SourceCacheClass.SourceCache.LiveGet` | scripts/capture_historical_security_identity.py:184-219 | `get` on the object equals `get` on the machine |
| `SourceCacheClass.SourceCache.Get` | scripts/verify_historical_security_identity.py:37-75 | the overridden `get` equals the replay machine when failures are recorded |
| `CacheAnswers.RecordedFailureAnswer` | scripts/verify_historical_security_identity.py:37-75 | a recorded failure is reproduced exactly when its receipt is one that the live run can have written and is unchanged on disk; any other answer ends the replay and changes nothing |
| `CollectorMethods.FollowArchives` | scripts/capture_historical_security_identity.py:356-385 | the archive loop of `submissions` is the client's run |
| `CollectorMethods.ReadSubmissions` | scripts/capture_historical_security_identity.py:356-385 | `submissions` is the client's run, retained checkpoint included |
| `CollectorMethods.FindPeriodic` | scripts/capture_historical_security_identity.py:393-417 | the periodic loop stops at the first filing that anchors the member, counting the refusals before it |
| `CollectorMethods.FindOwnership` | scripts/capture_historical_security_identity.py:418-450 | the ownership loop after an anchor was found is the client's run |
| `CollectorMethods.CollectMember` | scripts/capture_historical_security_identity.py:388-450 | `collect_member` is the run of the client that the theorems are about, and a row that it returns is the one that its examination of the filings calls for |
| `CollectorRows.ArchiveRows` | scripts/capture_historical_security_identity.py:356-385 | the rows are extended by exactly the archive pages whose advertised coverage meets the window, in the order of the list |
| `CollectorRows.SubmissionRows` | scripts/capture_historical_security_identity.py:356-385 | a member's rows are the retained submissions alone, or the fetched ones and those pages |
| `CollectorRows.CollectedRow` | scripts/capture_historical_security_identity.py:388-450 | a row says anchored exactly when a chosen periodic filing gave an anchor, the first that did, and a chosen ownership filing joined with it, the first that did, and that join is its evidence; any other row names the stage that failed or the size refusals met, and counts every refusal once |
| `CollectorRows.FilingAddress` | scripts/capture_historical_security_identity.py:122-129 | a filing's address has the CIK without leading zeros and the accession number without dashes |
| `CollectorMethods.CaptureAll` | scripts/capture_historical_security_identity.py:513-564 | the member loop is the machine's member loop, each result saved before the next request |
| `CollectorRows.CapturedRow` | scripts/capture_historical_security_identity.py:513-564 | a member that the capture takes has its row, its receipt is on disk and the circuit is still closed |
| `CollectorRows.TakenMeaning` | scripts/capture_historical_security_identity.py:513-564 | a member is taken exactly when it gets a row, its receipt is new or identical, and fewer than three failures are open |
| `CollectorRows.CapturedRows` | scripts/capture_historical_security_identity.py:513-564 | each member of a capture gets its row in its turn, from the state that the one before it left |
| `CollectorMethods.ReplayAll` | scripts/verify_historical_security_identity.py:117-139 | the replay loop is the machine's replay loop |
| `CollectorRows.ReplayedRows` | scripts/verify_historical_security_identity.py:117-139 | each member of a replay gets its row from the directory by the same rules |
| `CollectorMethods.BeginCapture` | scripts/capture_historical_security_identity.py:465-511 | the bounds, the new or reopened directory, its binding and the contact check, in that order, with what each refusal leaves on disk |
| `CollectorMethods.ConcludeCapture` | scripts/capture_historical_security_identity.py:565-596 | the result is written only when the program's files are unchanged and no file of that name exists |
| `CollectorMethods.CaptureCommand` | scripts/capture_historical_security_identity.py:453-605 | the command from its bounds to its result file is the machine's capture run, refusals of an existing directory, of a missing contact and of changed code included |
| `CaptureAnswers.StartMeaning` | scripts/capture_historical_security_identity.py:465-511 | a capture starts exactly within its bounds, in a new directory or beside its own binding, and with a contact if live; otherwise it has made no request and written at most its binding |
| `CaptureAnswers.StartRefusals` | scripts/capture_historical_security_identity.py:465-511 | why a capture does not start: bounds, an existing directory, a missing or different binding, a missing contact, in that order |
| `CaptureAnswers.CaptureMeaning` | scripts/capture_historical_security_identity.py:453-605 | a capture ends in a result exactly when it may start, its members are all taken, the program's files are unchanged and the result file is new; the result holds the binding, the rows, the sources and failures of the run, and the counts of the rows |
| `CollectorMethods.ReplayCommand` | scripts/verify_historical_security_identity.py:78-178 | the replay command is the machine's replay run, changes no file, and succeeds exactly on a result that the directory's files and the recomputed rows bear out |
| `ReplayVerdicts.ReplayMeaning` | scripts/verify_historical_security_identity.py:78-178 | a replay succeeds if and only if the named file holds its own bytes, they decode to a result bound to the roster and to the directory, recomputation gives its rows, sources and failures, and its report counts those rows |
| `ReplayVerdicts.OneResultReplays` | scripts/verify_historical_security_identity.py:140-178 | two results that both replay over one directory with one binding and the same failures are equal |
| `ReplayVerdicts.OnlyTheCapturedResultReplays` | scripts/verify_historical_security_identity.py:78-178 | beside a completed capture a result with its binding and failures replays exactly when it is the capture's own |
| `ReplayVerdicts.ReportMeaning` | scripts/verify_historical_security_identity.py:146-178 | a report is sound exactly when it counts the rows by status, for this roster, and claims nothing |
| `ReplayVerdicts.AcceptedSourcesAreIntact` | scripts/verify_historical_security_identity.py:117-178 | behind an accepted result every listed source is on disk, record and body, and so is the receipt of every failure |
| `CaptureAnswers.ReplayRefusals` | scripts/verify_historical_security_identity.py:117-178 | a readable, bound result is refused for its rows, then for its sources and failures, then for its report |
| `FilingSelection.GatherMeaning` | scripts/capture_historical_security_identity.py:92-119 | the loop succeeds exactly on consistent rows and then holds each eligible row once |
| `FilingSelection.ChoiceIgnoresOrder` | scripts/capture_historical_security_identity.py:92-119 | a successful choice depends only on which rows there are |
| `FilingSelection.AnswerIgnoresOrder` | scripts/capture_historical_security_identity.py:92-119 | the whole answer, refusal included, depends only on which rows there are exactly when they show at most one kind of flaw: an unreadable time, a malformed accession, or two rows contradicting each other under one accession |
| `FilingSelection.RefusalDependsOnOrder` | scripts/capture_historical_security_identity.py:92-119 | two orders of the same two rows are refused with different codes |
| `FilingSelection.ChoiceIsNewest` | scripts/capture_historical_security_identity.py:92-119 | the choice is the newest-first list of at most `limit` eligible rows, none left out newer than one chosen |
| `FilingAnswers.EligibleMeaning` | scripts/capture_historical_security_identity.py:92-108 | eligible is a wanted form accepted between 730 and 7 days before the cutoff, both ends included |
| `FilingAnswers.AccessionMeaning` | scripts/capture_historical_security_identity.py:109-114 | an accession number is three groups of ten, two and six digits with a dash between them |
| `FilingAnswers.NewerMeaning` | scripts/capture_historical_security_identity.py:115-119 | of two filings the later one is newer, at one instant the one with the greater accession number |
| `FilingSelection.RepresentativesMeaning` | scripts/capture_historical_security_identity.py:145-150 | the candidates are exactly the newest row of each series that was not tried |
| `FilingSelection.BlockIsBest` | scripts/capture_historical_security_identity.py:144-160 | the second block takes the at most five untried series that rank first by frequency, recency and accession |
| `FilingAnswers.RankMeaning` | scripts/capture_historical_security_identity.py:144-160 | a series with more filings ranks first, then the later filing, then the lesser accession number; the size of a series is its count among all eligible filings |
| `FilingAnswers.OwnershipMeaning` | scripts/capture_historical_security_identity.py:132-143 | an ownership choice is refused as the choice it starts from, or exactly for a series that is no text of at most 128 characters |
| `FilingSelection.PreferredIsWellChosen` | scripts/capture_historical_security_identity.py:132-167 | the result is min(10, eligible) distinct filings: the five newest, the best block, then the newest left over |
| `FilingMethods.ChooseNewest` | scripts/capture_historical_security_identity.py:92-119 | the dictionary loop and sort compute the choice |
| `FilingMethods.FirstOfSeries` | scripts/capture_historical_security_identity.py:145-150 | the loop over the eligible rows collects the representatives in order |
| `FilingMethods.FillToTen` | scripts/capture_historical_security_identity.py:161-167 | the filler loop adds exactly the newest rows not yet taken, up to ten |
| `FilingMethods.ChooseOwnership` | scripts/capture_historical_security_identity.py:132-167 | the two-phase selection as run equals its specification, refusals included |
| `FilingMethods.OwnershipChoiceIsWellChosen` | scripts/capture_historical_security_identity.py:132-167 | whatever the rows, a successful ownership choice is well chosen from the newest filings |
| `StudyGate.EveryRunIsLawful` | ops/private-read-study/study_app.py:318-391 | every interleaving of arrivals and returns keeps the gate's invariant |
| `StudyGate.OneReaderAtATime` | ops/private-read-study/study_app.py:339-385 | at most one reader is in flight, and free permits plus readers in flight is one |
| `StudyGate.ReadsAreSerial` | ops/private-read-study/study_app.py:339-385 | between two reader starts the first one was answered, and answered without failure |
| `StudyGate.StoppedForGood` | ops/private-read-study/study_app.py:331-385 | once stopped, the process stays stopped and starts no reader |
| `StudyGate.EveryStartWasAdmissible` | ops/private-read-study/study_app.py:321-349 | every reader start had a valid token, GET, a known path, no query, and both clock readings in the window |
| `StudyGate.OneFirstResponse` | ops/private-read-study/study_app.py:342-375 | at most one response of a process says process=first |
| `StudyGate.Boundary.Arrive` | ops/private-read-study/study_app.py:321-349 | the handler up to its await takes the machine's step |
| `StudyGate.Boundary.Finish` | ops/private-read-study/study_app.py:349-391 | the handler after its await takes the machine's step and releases the gate last |
| `GateAnswers.ArrivalMeaning` | ops/private-read-study/study_app.py:318-352 | an arrival starts the reader if and only if it is a plain GET of a study path with the token, inside the window, the process has not stopped and the permit is free; every refusal status has its exact condition |
| `GateAnswers.ReturnMeaning` | ops/private-read-study/study_app.py:350-391 | a read is passed on exactly when its snapshot, reader absence, timings and body are sound, under the policy in force and with a header that parses back; any other outcome stops the process and is answered with 503 and its refusal |
| `GateAnswers.StoppedMeaning` | ops/private-read-study/study_app.py:350-391 | after any run the process has stopped exactly when some reader's return was not sound |
| `TextParts.SplitJoin` | scripts/observe_private_read_study.py:405-423 | splitting undoes joining when no part holds the separator |
| `TextParts.DecimalValue` | ops/private-read-study/study_app.py:372-375 | a printed number is canonical and reads back |
| `TimingHeader.NamesAgree` | scripts/observe_private_read_study.py:30-38 | the service's seven names and the observer's seven keys differ only by the unit |
| `TimingHeader.ParseHeader` | scripts/observe_private_read_study.py:405-423 | the parser loop computes the parsed fields or nothing |
| `TimingHeader.HeaderRoundTrip` | ops/private-read-study/study_app.py:353-375 | any reordering of a printed header is under 512 characters and parses back to the same values |
| `TimingHeader.PrintedHeaderParses` | ops/private-read-study/study_app.py:353-375 | the header as printed parses back to what was measured, under MISS and BYPASS |
| `TimingHeader.AcceptedHeaderWasPrinted` | scripts/observe_private_read_study.py:405-423 | the observer accepts nothing but a reordering of a header the service prints |
| `TraceTree.WalkAcceptsTrees` | scripts/observe_private_read_study.py:336-343 | climbing from every span reaches the root exactly when the parent pointers form a tree rooted there |
| `TraceTree.WalkAncestry` | scripts/observe_private_read_study.py:336-343 | the nested loops decide exactly that, and terminate |
| `TraceTree.CheckIdentities` | scripts/observe_private_read_study.py:304-326 | the span loop accepts exactly well-formed spans with distinct identities |
| `TraceTree.CheckRuntime` | scripts/observe_private_read_study.py:344-384 | one invocation, known runtime spans, distinct startup names, all within five milliseconds of the root; each of the three startup flags says exactly that a span of its name is there |
| `TraceTree.Summarize` | scripts/observe_private_read_study.py:290-402 | accepts exactly the lawful trees and names the first objection to any other; says cold exactly when a startup span exists, and names the startup spans that exist with their times |
| `TraceAnswers.AcceptedMeaning` | scripts/observe_private_read_study.py:290-402 | a document is accepted exactly when it is one whole trace: lawful spans with distinct identities, one root of this request at the top of a tree, one invocation, and startup spans below it within five milliseconds of the request |
| `TraceAnswers.RuntimeMeaning` | scripts/observe_private_read_study.py:344-357 | the names that make a runtime span an invocation, a startup span or an unknown one |
| `TraceAnswers.StartupTimesMeaning` | scripts/observe_private_read_study.py:384-402 | the startup times are those of the startup spans, by name |
| `StudyObserver.Observe` | scripts/observe_private_read_study.py:531-584 | the receipt of one observation: the slot's route, the second read exactly after a passed first one in time, a trace for each sample, passed only when both are clean |
| `ObserverAnswers.RequestMeaning` | scripts/observe_private_read_study.py:426-528 | a read passes if and only if its answer is a JSON document of lawful size under the configured policy, is private, fulfils its contract and carries a printed timing header, and then holds what the header measured; every reason of a failed read has its exact condition |
| `ObserverAnswers.TraceMeaning` | scripts/observe_private_read_study.py:531-584 | a trace marks a sample cold exactly when it was classified cold and warm exactly when warm, and changes nothing else |
| `ObserverAnswers.ObservationMeaning` | scripts/observe_private_read_study.py:531-584 | a second read exactly after a passed first one in time; the observation passes exactly when both reads passed and every trace asked for was captured |
| `StudyObserver.Annotate` | scripts/capture_private_read_study_neon_state.py:91-145 | an annotation changes nothing but the lifecycle and the first sample's mark; idle-to-active needs a passed pair between an idle and an active state |
| `ObserverAnswers.AnnotationMeaning` | scripts/capture_private_read_study_neon_state.py:91-145 | an annotation is made exactly between two sound states of one endpoint that bracket the observation, and says idle-to-active or active-throughout exactly as the two states and the verdict say |
| `StudyObserver.StagesAgree` | scripts/observe_private_read_study.py:501-517 | the observer recognises exactly the refusal stages that the service can print |
| `Tallies.StatisticIsNearestRank` | scripts/finalize_private_read_study.py:105-112 | each quantile is a value that at least the fraction of the values do not exceed while fewer than the fraction lie below it |
| `Tallies.NearestRankIsUnique` | scripts/finalize_private_read_study.py:105-112 | that order statistic is unique |
| `Tallies.ComputeQuantiles` | scripts/finalize_private_read_study.py:105-112 | the three quantiles are the exact nearest-rank statistics; none for no values |
| `Tallies.CounterIsConserved` | scripts/finalize_private_read_study.py:162-195 | a counter's values add up to what was counted |
| `FinalReport.AddRecord` | scripts/finalize_private_read_study.py:128-195 | one scheduled record is refused exactly as the checks say, and otherwise adds its attempts to every counter |
| `FinalReport.FirstPass` | scripts/finalize_private_read_study.py:128-195 | the loop over the records collects all and only the scheduled ones |
| `FinalReport.MakeCohort` | scripts/finalize_private_read_study.py:197-240 | a cohort row counts its group and takes its statistics over passed samples only |
| `FinalReport.SecondPass` | scripts/finalize_private_read_study.py:196-240 | every group gets its row, or the whole report is refused for a passed sample that is not numeric |
| `FinalReport.Summarize` | scripts/finalize_private_read_study.py:115-294 | a report is produced exactly when the window is lawful, every scheduled record passes inspection and every passed sample is numeric; its duplicates list the runs of each slot that has several |
| `ReportAnswers.InspectMeaning` | scripts/finalize_private_read_study.py:115-195 | a scheduled record is admitted exactly when it is of this study and its hour, with a first and at most a paired sample of the hour's route and a platform that its trace confirms; each refusal has its exact condition |
| `ReportAnswers.CohortMeaning` | scripts/finalize_private_read_study.py:162-240 | each cohort is the list of exactly the attempts made under its seven circumstances, cold and warm apart, and every attempt is in one |
| `ReportAnswers.CohortFigures` | scripts/finalize_private_read_study.py:162-240 | a cohort's errors are its failed attempts, and its statistics are nearest-rank quantiles over its passed attempts alone |
| `ReportAnswers.TotalsMeaning` | scripts/finalize_private_read_study.py:162-240 | attempts, errors, edges, platforms and failure reasons count the attempts one by one |
| `ReportAnswers.HoursMeaning` | scripts/finalize_private_read_study.py:241-262 | an hour is missing exactly when no scheduled run is filed under it and a duplicate exactly when several are; databases are counted per record |
| `StudyEvidence.ReportConserves` | scripts/finalize_private_read_study.py:162-240 | cohort attempts, edge counts and platform counts each sum to the attempts; cohort errors and failure reasons each sum to the errors |
| `StudyEvidence.PairsAreRecords` | scripts/finalize_private_read_study.py:259 | the observed pairs are the scheduled records |
| `StudyEvidence.CoverageMeaning` | scripts/finalize_private_read_study.py:115-249 | coverage is complete exactly when the week is over, each of its 168 slots has one scheduled record and each record has two samples; these are then a first and a paired read of the one route that the slot rotates to |
| `StudyEvidence.AcceptedIsNumeric` | scripts/observe_private_read_study.py:405-423 | an accepted header gives a nonnegative number for every metric that the report summarises |
| `StudyEvidence.EmittedIsAdmitted` | scripts/observe_private_read_study.py:426-584 | for any replies, traces and annotation, a receipt that the observer emits passes every check of the finaliser for the same window, host and policy |
| `StudyEvidence.CompleteMeansFirstReadsPassed` | scripts/finalize_private_read_study.py:241-249 | complete coverage of observed receipts leaves no slot without a passed first read, so at most 168 attempts failed |
| `PngChunks.FilterMeaning` | scripts/render_brand_images.py:55-72 | the filter returns exactly on PNG streams, and then the signature and the allowed chunks up to the first IEND, byte for byte |
| `PngChunks.FilterPng` | scripts/render_brand_images.py:55-72 | the offset loop computes the filter |
| `PngChunks.CheckImage` | scripts/validate_public_bundle.py:169-204 | the checker's loop computes its first problem |
| `PngChunks.ReviewMeaning` | scripts/validate_public_bundle.py:169-204 | the checker reports nothing exactly on streams of allowed chunks with intact checksums closed by the only IEND, within the size bound |
| `PngChunks.FilterIsIdempotent` | scripts/render_brand_images.py:55-72 | filtering twice changes nothing |
| `PngChunks.OutputIsStream` | scripts/render_brand_images.py:55-72 | the output is itself a stream with nothing after its IEND |
| `PngChunks.FilteredImagePassesReview` | scripts/validate_public_bundle.py:169-204 | the checker accepts the filter's output exactly when it is small enough and the kept chunks' checksums are intact |
| `PngChunks.StreamIsUnique` | scripts/render_brand_images.py:55-72 | a byte stream has at most one reading as chunks |
| `PngChunks.FilterKeepsSize` | scripts/render_brand_images.py:75-78 | behind a header chunk of n data bytes the size is preserved if and only if n is at least 4 or the 4 - n length bytes borrowed from the next chunk stay the same |
| `PngChunks.SizeCanChange` | scripts/render_brand_images.py:75-78 | a stream whose size changes exists |
| `PngAnswers.FilterRefusals` | scripts/render_brand_images.py:55-72 | the filter refuses a missing signature, or, behind whole chunks without an IEND, fewer than eight bytes or a chunk that the file is too short for; each refusal has its exact condition |
| `PngAnswers.CheckerProblems` | scripts/validate_public_bundle.py:169-204 | each problem of the checker is reported exactly when it is the first: the size, the signature, then what the bytes behind a run of allowed, intact chunks show |
| `PngAnswers.AllowedMeaning` | scripts/validate_public_bundle.py:59-61 | the nine allowed chunk types letter by letter, and the one that ends a stream |
| `PngAnswers.WordMeaning` | scripts/validate_public_bundle.py:187 | a length word has its most significant byte first |
| `PngAnswers.SizeMeaning` | scripts/render_brand_images.py:75-78 | the size is the width and then the height of a first chunk that holds both |
| `Whitespace.NormaliseIsWords` | scripts/pilot_sec_archive_coverage.py:156-164 | normalising a text leaves exactly its words, one fill character apart |
| `CoverFacts.AnyStreamStaysStacked` | scripts/pilot_sec_archive_coverage.py:126-164 | on any events active depths stay strictly increasing and at most the counter, and recorded facts never change |
| `CoverFacts.ForestRefinesTree` | scripts/pilot_sec_archive_coverage.py:126-164 | from any reachable state the events of a well-nested document move the parser as its tree says |
| `CoverFacts.NodeRefinesTree` | scripts/pilot_sec_archive_coverage.py:126-164 | the same for one node |
| `CoverFacts.DocumentFacts` | scripts/pilot_sec_archive_coverage.py:126-164 | from a fresh parser the facts are the post-order list of the tracked elements with non-empty text |
| `CoverAnswers.FlagsMeaning` | scripts/pilot_sec_archive_coverage.py:126-150 | after any document, balanced or not, each flag says exactly that its tag, or a fact of that name, was there |
| `CoverAnswers.AttributeMeaning` | scripts/pilot_sec_archive_coverage.py:144-148 | an attribute is the value of the last one of its name, whatever its case; a missing one reads as empty |
| `CoverAnswers.FactMeaning` | scripts/pilot_sec_archive_coverage.py:144-164 | an element reports its fact exactly when its folded name is one of the two and its text has a word |
| `CoverFacts.CoverFactParser.HandleStartTag` | scripts/pilot_sec_archive_coverage.py:135-150 | the object takes the machine's step |
| `CoverFacts.CoverFactParser.HandleData` | scripts/pilot_sec_archive_coverage.py:152-154 | the object takes the machine's step |
| `CoverFacts.CoverFactParser.HandleEndTag` | scripts/pilot_sec_archive_coverage.py:156-164 | the object takes the machine's step |
| `CoverFacts.CoverFactParser.FeedAll` | scripts/pilot_sec_archive_coverage.py:126-164 | feeding a whole document runs the machine |
| `Scheduler.ReservationsAddUp` | scripts/run_private_scheduler_cycle.py:60-63 | over any sequence of attempts the reservation is the sum of the granted sizes, stays within the limit, and every refused size is negative or does not fit at the end either |
| `Scheduler.BudgetedStore.PutBytes` | scripts/run_private_scheduler_cycle.py:69-71 | what the store gains never exceeds what was reserved, and a refused put changes nothing |
| `Scheduler.StepIsLawful` | scripts/run_private_scheduler_cycle.py:148-286 | every step of any run keeps claims, budgets, books and receipts in order |
| `Scheduler.EveryInterleavingIsLawful` | scripts/run_private_scheduler_cycle.py:148-286 | the same in every interleaving of any number of runs; claims are never taken back |
| `Scheduler.OneRunPerSlot` | scripts/run_private_scheduler_cycle.py:184-192 | at most one run per slot gets past the claim |
| `Scheduler.LosersChangeNothing` | scripts/run_private_scheduler_cycle.py:256-260 | while another run holds its slot, no step of a run changes claims, registry or store |
| `Scheduler.StorageIsBounded` | scripts/run_private_scheduler_cycle.py:280-286 | all cycles together add at most three times 1,000,000,000 bytes, and each published bound covers its run and respects that ceiling |
| `Closeout.HolderPublishes` | scripts/run_private_scheduler_cycle.py:148-286 | the claim holder's ending publishes a receipt exactly when its evidence fits the budget: success with the figures of its outcome exactly when it recorded forecasts over an unchanged registry |
| `Snapshots.CompareSnapshots` | scripts/verify_private_forward_cycle.py:131-140 | it succeeds exactly when no earlier row changed or disappeared, and counts the rows added to each earlier table |
| `Snapshots.ComparisonsCompose` | scripts/verify_private_forward_cycle.py:131-140 | successive comparisons compose, and their counts add up |
| `Closeout.Evaluate` | scripts/closeout_private_scheduler.py:88-204 | it refuses exactly when some record in scope is refused, and otherwise reports each date by all and only its observations, copied values and receipt digests included |
| `Closeout.DatesArePartitioned` | scripts/closeout_private_scheduler.py:169-181 | every date is missing, failed or accepted and only one of them; overdue dates are missing, duplicate dates failed |
| `Closeout.EligibleOrAttention` | scripts/closeout_private_scheduler.py:169-183 | eligibility is acceptance everywhere; a day after the last slot the only alternative is attention |
| `Closeout.DecisionIgnoresOrder` | scripts/closeout_private_scheduler.py:88-204 | the decision does not depend on the order of the receipts |
| `Closeout.QualifyingHeldTheClaim` | scripts/closeout_private_scheduler.py:88-168 | a qualifying receipt is of the run that held its slot's claim, compared an unchanged registry and stayed within the ceiling |
| `Closeout.QualifyingMeaning` | scripts/closeout_private_scheduler.py:88-168 | a receipt qualifies for a date if and only if it names that slot, its run is proper and in time, it claims success and its times agree |
| `Closeout.VerdictMeaning` | scripts/closeout_private_scheduler.py:88-168 | every other receipt is passed over, refused for its first flaw, or observed with the values copied from it |
| `Closeout.SoundHolderQualifies` | scripts/closeout_private_scheduler.py:88-168 | a claim holder that recorded forecasts in time over an unchanged registry publishes a receipt that qualifies |
| `Closeout.EligibleMeansOneHolderPerSlot` | scripts/closeout_private_scheduler.py:88-169 | in every interleaving a date has at most one qualifying receipt, and an eligible closeout rests on the claim holder of each date |
| `Closeout.TwoReceiptsBlockCloseout` | scripts/closeout_private_scheduler.py:169-181 | two receipts in evidence for one date make it a duplicate and the closeout ineligible |
| `Closeout.LoserReceiptBlocksCloseout` | scripts/closeout_private_scheduler.py:88-181 | in every interleaving an observed receipt of a run that lost its claim fails its date and makes the closeout ineligible, alone or not |
| `Closeout.EligibleIsEvident` | scripts/closeout_private_scheduler.py:207-230 | each date of an eligible report has one observation with forecasts recorded, a margin of at least 5400 seconds and its evidence digest, which is all that the closing text claims of it |
| `Requirements.Resolver.Include` | scripts/stage_private_read_study.py:41-49 | the recursive include terminates on cycles, adds what the name needs and nothing else, or no closed set with that name resolves |
| `Requirements.Resolver.IncludeAll` | scripts/stage_private_read_study.py:48-52 | the same for a list of names |
| `Requirements.ResolveMeaning` | scripts/stage_private_read_study.py:36-47 | a name resolves to a package exactly when the lock file lists it once, from the reviewed registry |
| `Requirements.PinLine` | scripts/stage_private_read_study.py:54-63 | a line is produced exactly when the package is pinned by SHA-256, and holds its hashes sorted without repetition |
| `Requirements.PrintLines` | scripts/stage_private_read_study.py:53-64 | the sorted selection is printed line by line, or refused for an unpinned package |
| `Requirements.Requirements` | scripts/stage_private_read_study.py:34-64 | it succeeds exactly when a closed, resolvable and pinned set over the direct names exists, and lists the least one, once each in order; the resolution refusal is exact too |
| `Roster.PeriodicRows` | scripts/capture_prospective_sec_index.py:149-191 | it succeeds exactly on lawful lines and then lists all and only the eligible rows in order; a refusal is that of the first flawed line, or of too few rows |
| `Roster.ObjectionMeaning` | scripts/capture_prospective_sec_index.py:160-187 | a line is left alone exactly when it is blank, of another form, or a lawful entry of the quarter; each objection has its exact condition |
| `Roster.Group` | scripts/capture_prospective_sec_index.py:199-217 | grouping lists each filer once, in increasing order, with its filings in row order |
| `Roster.RosterIsLossless` | scripts/capture_prospective_sec_index.py:199-217 | the roster read back is the sorted rows |
| `Roster.RosterIgnoresLineOrder` | scripts/capture_prospective_sec_index.py:149-217 | permuting the lines changes neither acceptance nor the sorted rows |
| `RosterCapture.RosterCounts` | scripts/capture_prospective_sec_index.py:194-217 | one filer for each CIK and one filing for each row, as the commitment counts them |
| `RosterCapture.BuildRoster` | scripts/capture_prospective_sec_index.py:199-217 | the roster is built exactly for lawful indexes whose roster is within its bound |
| `RosterCapture.BuildCommitment` | scripts/capture_prospective_sec_index.py:219-241 | the commitment is built exactly inside the window for such indexes |
| `RosterCapture.Vault.Save` | scripts/capture_prospective_sec_index.py:347-368 | a save succeeds exactly for the index's own commitment and a new directory, and what it saved verifies; a crash leaves the files written until then, the last one possibly cut short |
| `RosterCapture.Vault.Verify` | scripts/capture_prospective_sec_index.py:371-390 | verification accepts exactly files that agree with each other, the policy and some instant of the window |
| `RosterCapture.ChangedSourceIsRefused` | scripts/capture_prospective_sec_index.py:371-390 | beside an unchanged commitment only the original index and roster verify |
| `RosterCapture.ChangedCommitmentMeaning` | scripts/capture_prospective_sec_index.py:371-390 | a changed commitment verifies exactly when only its capture instant changed, to another one of the window |
| `RosterCapture.RestampedCaptureVerifies` | scripts/capture_prospective_sec_index.py:371-390 | so a restamped capture verifies |
| `RosterCapture.InterruptedSaveMeaning` | scripts/capture_prospective_sec_index.py:364-390 | what a crash leaves verifies exactly when it died inside the third file and what is there of it already decodes to the commitment, up to its instant |
| `RosterCapture.LineOrderOnlyMovesTheDigest` | scripts/capture_prospective_sec_index.py:199-217 | reordered lines give the same roster but for the source digest |
| `ErrorCodes.ErrorCodeIsSafe` | scripts/public_release_readiness.py:337-340 | every code is the words of the lower-cased text before the colon, one underscore apart and cut at 120 characters: a nonempty identifier that starts with a letter or digit and never doubles an underscore |
| `Readiness.ValidateProvenance` | scripts/validate_public_bundle.py:261-351 | the validator appends exactly the manifest's findings, one for each check that fails and in order, or raises exactly on unhashable statuses |
| `Readiness.NoFindingsMeaning` | scripts/validate_public_bundle.py:261-351 | the validator finds nothing exactly in a manifest with a synthetic snapshot, a review that is approved and dated or pending, and documented sources |
| `Readiness.AssembledIsVerified` | scripts/public_release_readiness.py:130-245 | an assembled report passes its own verification exactly when the manifest fields it copies are allowed |
| `Readiness.AllChecksArePresent` | scripts/public_release_readiness.py:156-187 | a verified report holds each of the three checks exactly once |
| `Readiness.SavedReadyCanBeFailed` | scripts/public_release_readiness.py:130-245 | a report with a failed check verifies as ready, while an assembled ready report has no failed check |
| `Readiness.StatusAloneMeaning` | scripts/public_release_readiness.py:86-100 | without other errors the status logic says ready exactly when redistribution and all object sources say approved |
| `Readiness.StatusAloneIsUnsound` | scripts/public_release_readiness.py:248-304 | a manifest without approval that the status logic alone would release |
| `Readiness.ReadyMeansApproved` | scripts/public_release_readiness.py:86-100 | with the validator's findings among the bundle errors, ready means no error and a fully approved, dated review |
| `Readiness.BuildReadiness` | scripts/public_release_readiness.py:45-127 | both files together: when a report is published, refused by its own verification or not built at all, and what ready means then |
| `CalendarLoops.LongestRun` | scripts/summarize_hosted_read_observations.py:51-58 | the result is the largest number of consecutive days in the set |
| `CalendarLoops.Accumulate` | scripts/summarize_hosted_read_observations.py:161-217 | the loop ends normally exactly for sound reports of different days, and has then collected the days of all reports and of each route |
| `CalendarLoops.SummarizeCoverage` | scripts/summarize_hosted_read_observations.py:161-350 | pooled exactly for sound daily reports of one origin; week coverage is a window of seven days with a report, no route has a longer run than the whole, and coverage of all routes implies overall coverage |
| `CalendarLoops.ExpectedScheduleAt` | scripts/measure_scheduler_lateness.py:67-74 | the search ends at the greatest Tuesday-to-Saturday 07:17 not after the instant, less than 72 hours back |
| `CalendarLoops.LatestIsMonotone` | scripts/measure_scheduler_lateness.py:67-74 | that occurrence is unique, monotone and idempotent |
| `CalendarLoops.PartitionRuns` | scripts/measure_scheduler_lateness.py:152-181 | the first appearances of sound runs inside the window in order, the number of sound runs before it, and all other runs in order; none is lost, identifiers are distinct, and a refused run is flawed or a repetition |

## Left out

- Real HTTP, Postgres, object-store, GitHub and browser calls, pacing and sleeping: replies, clocks and waits are parameters.
- File permissions, symbolic links and ownership checks. Torn writes of the source cache and of the capture command: there a file is created whole or not at all.
- Regular-expression engines and tokenisers: URL approval, timestamps, digests and paths are abstract tests on strings, and the cover parser starts from tag and data events.
- The extractors of `historical_identity`, the identity anchors, the registry and the forecast workflow: deterministic functions or arbitrary results.
- Floating point: quantile ranks use exact fractions where the code computes `math.ceil(fraction * n)`, durations and margins are exact reals, and elapsed seconds are exact.
- Case folding and white space beyond ASCII in the cover parser and the error codes: lower-casing of messages is an arbitrary function.
- `normalize_project_trace`: the trace checker starts from its normalised spans.
- `inspect_cover_facts`, `choose_sample` and `parse_daily_master_index`: only the event parser of that script is modelled.
- `confirm_reader_absence`, cancellation of the handler and the driver inside `read`.
- The reading of a retained checkpoint's own files, and the policy and roster files that a capture starts from.
- The private-file reader loop of the index capture: its size bounds are kept, its stability checks are not.
- The text of a printed requirements line and of the markdown reports; the order in which cohorts are listed.
- The hosted-report summary beyond its coverage: latencies, result counts and the shape of one report.
- `month_blocks` and `resample_month_indices` of the interval script.
- The release report verifier's fixed fields, reason spellings, source counts and content hash.
- FilingMethods.ChooseNewest: sorting is the built-in one, modelled by an insertion sort on values.
- SourceCacheClass.SourceCache.Download: the body is handed over as a sequence of chunks, not as a stream object with its own state.
- Scheduler.BudgetedStore.PutBytes: the store is one content-addressed set; `put_file` is the same operation on a file's bytes and has no member of its own.
- Closeout.Evaluate: the report's constant fields, its run URLs and the printed form of dates are not modelled.
