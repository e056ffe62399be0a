# Instagram archive: verified protocols and formats

This project models the durable state machines and the byte- and text-level algorithms of the
Instagram archive service and proves what they keep. Each database transaction is one atomic step
over explicit tables; crashes, other workers and other actors may act between any two of them.

| module | what it models |
|---|---|
| `OwnMedia`, `OwnMediaRuns` | own-media synchronisation: paged, budgeted, resumable runs, staged items, one final switch of authority and watermark; what every run stores and where it ends |
| `CaptureProtocol`, `CaptureHistory`, `CaptureProgress`, `CaptureFlights`, `CaptureLaws` | command inbox, captures, operations, leased resolution with bounded retry, reports, tombstones, erasure |
| `Permalink`, `PermalinkGrammar` | canonicalisation of links, with an independent grammar of the accepted language that has its own tables |
| `ZipArchive`, `ZipRefusals`, `BoundedRead` | ZIP preflight against a declared layout, a writer, the defect each refusal names, and the bounded decompression loop |
| `Outbox`, `OutboxRelay` | the outbox relay, resends of unacknowledged removals, the health flag |
| `Sorting`, `ExportParser` | the saved-post parser; text order, stable sort, counting and numerals it rests on |
| `ImportRuns`, `ImportWorker` | import runs under competing workers; which parsed exports can be staged |
| `Reprocessing`, `ReprocessingRuns` | the canonical plan string and the restartable chunked apply |
| `Deletion`, `DeletionFacts`, `DeletionHistory`, `PrivacyStore` | privacy deletion with shared holdings, foreign keys, and the blob deletion worker |

`Prelude` holds the option and result types. Code that updates rows, objects or buffers step by step
is a class or a method with loops (`Executor`, `Store`, `Reader`, `OutboxTable`, `PublisherHealth`,
`ImportStore`, `ReprocessingStore`, `ReadEntry`, `ParseSavedPosts`), each proved equal to a
transaction function; the theorems over whole histories are about those functions, and separate laws say row by
row, in literal values, what each transaction stores and what it leaves alone.

## Reading the results

Modelling decisions a reader should know:

- Instants are integers. UUIDs are natural numbers that are never handed out twice. SHA-256 and UUIDv5 are
  abstract functions; where a result needs that they do not collide, the lemma says so.
- Own media: a provider identity stands for its rank in publication order, a cursor for a position
  in that order, and a page for a gap-free newest-first stretch of the listing as it is at that moment. One
  scheduler task runs an account at a time (services/instagram-archive/src/main.rs:489-525), but it
  may crash and resume at any point.
- Captures: any number of resolver workers may hold leases. `log` keeps every outbox row ever
  appended, also rows that a privacy deletion erased. No code writes the capture status `failed`; the
  model still carries it because the guards name it.
- Outbox: one relay task (services/instagram-archive/src/bus.rs:109-134). An event id is appended anew only with
  the same payload.
- Blob references are (reference, digest, length) triples. Media rows refer into the media store, raw records carry
  a bare digest and their bytes in the row, export snapshots refer to another store.

Where the code differs from what its text promises, or a wished-for property fails, the model follows
the code:

- The documentation of the resend policy says that each delay after the first doubles. `record_resend` uses the count
  before the update, so the second gap equals the first (`Outbox.ResendSchedule`).
- An acknowledgement that overtakes `mark_published` does not stop the next delivery of that row:
  `OutboxRelay.AcknowledgementOvertakesMark` is such a history, `OutboxRelay.AcknowledgedSentAgainIff` the
  exact condition.
- A worker that outlives its lease writes the attempts it had seen plus one, which can move the stored count
  back (`CaptureFlights.StaleLeaseMovesBack`; exactly when, `CaptureFlights.RetryDecreasesIff`).
- A saved export with two elements that normalize to the same record can never be staged: the run
  stays `inspected` and every pass over it ends in an error (`ImportWorker.ReconciledUnlessDuplicated`,
  `ImportWorker.DuplicateStaysInspected`).
- A reprocessing plan that repeats an item key never completes (`ReprocessingRuns.RepeatedKeyNeverCompletes`), and a
  digest text `-` is read as no digest (`Reprocessing.DashIsAmbiguous`).
- Deleting a connection deletes raw records of its exclusive media before the staged items that still
  name them, so a foreign key stops the deletion of a synchronised connection (`Deletion.SyncedConnectionRefused`).
  A raw record that another account's rows also name stops it as well. `Deletion.ConnectionRefusedIff` is the
  exact condition for the whole transaction.
- The blob worker counts references and removes the object in separate steps. A media row that takes up
  the object in between loses it (`DeletionHistory.RaceLosesObject`); without such a row no named object is
  removed (`DeletionHistory.ObjectsKept`).
- Deletions schedule blob tasks for raw records, whose reference is a bare digest. The media store refuses
  such a reference, so these tasks stay pending for ever (`DeletionHistory.RawTasksNeverComplete`).

## Model

| member | source | states |
|---|---|---|
| `OwnMedia.WatermarkCoverage` | crates/instagram-archive/src/own_media.rs:295-454 | in every history of publications, deletions, edits, crashes, resumptions and runs, the authority holds every still-listed item at or older than the watermark and every still-listed item published before the authoritative run started |
| `OwnMedia.AuthorityAndWatermarkMoveTogether` | crates/instagram-archive/src/own_media.rs:733-760 | the watermark is the candidate of the completed run that is the authority; neither exists without the other |
| `OwnMedia.AuthorityOnlyGrows` | crates/instagram-archive/src/own_media.rs:343-364 | between any two moments the authority loses no item and the watermark never moves back |
| `OwnMedia.CallsWithinBudget` | crates/instagram-archive/src/provider_budget.rs:133-208 | over any number of resumptions a run reserves exactly the ordinals 1..k with k within the call budget |
| `OwnMedia.NothingInvented` | crates/instagram-archive/src/own_media.rs:491-585 | every staged or authoritative item, with its metadata, is one the provider listed |
| `OwnMedia.StepKeeps` | crates/instagram-archive/src/own_media.rs:253-487 | every transaction, provider change and crash keeps the invariant and only moves authority and watermark forward |
| `OwnMedia.PageCompletes` | crates/instagram-archive/src/own_media.rs:433-454 | meeting the old watermark, or the end of the listing on a first run, leaves no gap below the candidate |
| `OwnMedia.Executor.RunAccountOnce` | crates/instagram-archive/src/own_media.rs:129-205 | the capability gate records a no-op, a run of another generation is left alone, otherwise the open run is resumed or a new one started, and tables and outcome are those of the paging function |
| `OwnMedia.Executor.PageThrough` | crates/instagram-archive/src/own_media.rs:366-487 | the page loop with budget, failures, completion and page limit equals the paging function for every sequence of provider answers |
| `OwnMedia.Executor.StagePage` | crates/instagram-archive/src/own_media.rs:491-585 | one page's transaction: items upserted, cursor, candidate and page count stored together |
| `OwnMedia.Executor.Publish` | crates/instagram-archive/src/own_media.rs:592-775 | the final transaction switches authority, watermark and status together, and only while the capability generation still holds |
| `OwnMedia.ExecutorFollowsProtocol` | crates/instagram-archive/src/own_media.rs:366-487 | for every honest environment (possible listing changes, each page an answer of the listing at that moment) every step of the loop is enabled where it happens, and that history ends in the loop's tables |
| `OwnMedia.AccountRunIsHistory` | crates/instagram-archive/src/own_media.rs:129-487 | the whole account job, with its no-op, new or resumed run, is a history of the protocol that ends in the tables RunAccountOnce leaves |
| `OwnMedia.AccountRunCovers` | crates/instagram-archive/src/own_media.rs:129-487 | after any earlier history one more account job leaves an authority that holds every still-listed item at or older than its watermark |
| `OwnMediaRuns.PageIsStaged` | crates/instagram-archive/src/own_media.rs:491-585 | staging a page gives every listed item the page's metadata, leaves every other item of every run alone, and stores cursor, first candidate and page count |
| `OwnMediaRuns.ItemsAreAsListed` | crates/instagram-archive/src/own_media.rs:491-585 | in every history a run stores each item exactly as the last of its pages that listed it did, and an item none of them listed as the authority had it when the run began |
| `OwnMediaRuns.InterruptedRunResumes` | crates/instagram-archive/src/own_media.rs:458-467 | in every history the page limit, a spent budget and a retryable refusal leave the run retryable with cursor, candidate, items and reservations kept, and the next job of its generation continues exactly there |
| `OwnMediaRuns.RefusedRunIsClosed` | crates/instagram-archive/src/own_media.rs:823-848 | any other refusal closes the run with its rows kept, and the next job can start a new one |
| `OwnMediaRuns.CommitSwitches` | crates/instagram-archive/src/own_media.rs:592-775 | in every history the final transaction makes the run the authority and its stored candidate the watermark iff connection, capability and generation still stand; otherwise the run fails and nothing visible moves |
| `OwnMediaRuns.GateClosesRuns` | crates/instagram-archive/src/own_media.rs:148-204 | the capability gate fails every open run, changes no other, and keeps authority and watermark |
| `OwnMediaRuns.OutcomeTellsTables` | crates/instagram-archive/src/own_media.rs:366-487 | for every sequence of answers the returned outcome agrees with the stored status, cursor, authority and watermark |
| `OwnMediaRuns.DriveTraverses` | crates/instagram-archive/src/own_media.rs:366-487 | a traversal of an unchanged listing within the limits completes: every item its pages reach is stored as listed, every other item is as before, and the watermark is the newest reached |
| `OwnMediaRuns.FreshRunTraverses` | crates/instagram-archive/src/own_media.rs:129-487 | a whole job without an open run makes visible exactly the listing down to the end of its last page over the earlier authority |
| `OwnMediaRuns.FirstRunIsTheListing` | crates/instagram-archive/src/own_media.rs:129-487 | the first run of an account ends with an authority that is the listing itself |
| `CaptureHistory.ExactlyOnceReports` | crates/instagram-archive/src/command_capture.rs:155-271 | in every interleaving each stored operation has exactly one queued report, appended first, and one terminal report exactly when it is marked reported; no command ever collects more |
| `CaptureHistory.NoOperationStranded` | crates/instagram-archive/src/capture_resolution.rs:163-204 | the capture of an unreported operation is concluded or has a stored due instant, from which on the claim query selects it, and attempts stay below the maximum |
| `CaptureHistory.SuccessMeansPreserved` | crates/instagram-archive/src/resolution.rs:345-418 | a capture's facts are one captured fact followed by updates only, a success report stands after that fact, and a resolved capture has linked media |
| `CaptureHistory.SuccessReportNeedsMedia` | crates/instagram-archive/src/capture_resolution.rs:308-346 | the transaction that reports success finds media linked and the captured fact already logged, and appends nothing but reports of that capture |
| `CaptureHistory.StoredUrlsMap` | crates/instagram-archive/src/capture_resolution.rs:207-229 | every stored URL canonicalizes to itself, so the "no longer maps" branch is unreachable |
| `CaptureHistory.CapturesDeduplicate` | crates/instagram-archive/src/capture.rs:238-276 | there is one capture per user and canonical URL |
| `CaptureHistory.StepKeeps` | crates/instagram-archive/src/capture_resolution.rs:122-346 | deliveries, claims, resolves, reports, lost leases, re-resolutions, unavailability records, tombstones and erasures all keep the invariant |
| `CaptureHistory.StoreResolutionKeeps` | crates/instagram-archive/src/resolution.rs:302-430 | preserving a payload keeps the fact order and links media before any fact |
| `CaptureHistory.RecordFailedKeeps` | crates/instagram-archive/src/resolution.rs:491-565 | a failed resolution, with its deleted-upstream update, keeps the invariant |
| `CaptureHistory.UnavailableKeeps` | crates/instagram-archive/src/capture.rs:290-349 | an unavailability record keeps the invariant |
| `CaptureHistory.TombstoneKeeps` | crates/instagram-archive/src/tombstone.rs:42-109 | a tombstone keeps the invariant |
| `CaptureHistory.RecordOperationKeeps` | crates/instagram-archive/src/command_capture.rs:229-271 | a new operation, which may reopen an unavailable capture, keeps the invariant |
| `CaptureLaws.DeliveryRecords` | crates/instagram-archive/src/command_capture.rs:155-271 | a seen command changes nothing; an unseen one with a refused link is rejected; otherwise exactly one operation row with its operation, command and user and one queued report are added for the capture of that user and canonical URL, unless the operation or command is stored, whatever the capture's status |
| `CaptureLaws.EveryCommandReported` | crates/instagram-archive/src/command_capture.rs:155-271 | in every history a delivered new command with an accepted link is queued at once, and after at most max_attempts undisturbed due passes has exactly its queued and one terminal report |
| `CaptureLaws.PayloadIsPreserved` | crates/instagram-archive/src/resolution.rs:302-474 | after a payload the media row is the link's kind, exactly the payload's caption and not deleted; the capture is resolved and linked; a captured fact is appended first and an updated fact iff kind or caption changed; nothing else changes |
| `CaptureLaws.RefusalIsRecorded` | crates/instagram-archive/src/resolution.rs:491-565 | any other answer adds its observation and makes the capture unavailable; only a deleted answer on a linked capture touches media, setting the deleted mark alone, with one updated fact |
| `CaptureLaws.ResolveAppliesAnswer` | crates/instagram-archive/src/capture_resolution.rs:207-275 | in every history a resolve either changes only attempts and due instant, iff the answer is transient with attempts left, or applies the answer under the kind of the stored link |
| `CaptureLaws.ConclusionByStatus` | crates/instagram-archive/src/capture_resolution.rs:308-383 | the verdict for each stored status and newest observation |
| `CaptureLaws.ReportMarksRows` | crates/instagram-archive/src/capture_resolution.rs:308-346 | a report transaction stamps exactly the capture's unreported rows and changes no table but operations and log |
| `CaptureLaws.PassCounts` | crates/instagram-archive/src/capture_resolution.rs:122-160 | the reported counter of a pass is the number of terminal reports it appended, each leased capture is fetched or failed, and retried counts the transient answers with attempts left |
| `CaptureLaws.UnavailabilityIsRecorded` | crates/instagram-archive/src/capture.rs:290-349 | an unavailability record adds one observation and closes an accepted or resolved capture |
| `CaptureLaws.TombstoneIsRecorded` | crates/instagram-archive/src/tombstone.rs:42-109 | a tombstone marks the capture and appends one removal, once per user and source, and repeating it changes nothing |
| `CaptureLaws.ClaimLeases` | crates/instagram-archive/src/capture_resolution.rs:163-204 | a claim leases each accepted capture of the batch for 120 seconds and changes no other capture |
| `CaptureLaws.ShareIsStored` | crates/instagram-archive/src/capture.rs:238-276 | a share stores one capture for a new user and URL and nothing otherwise |
| `CaptureProgress.RetryDelayIsDocumented` | crates/instagram-archive/src/capture_resolution.rs:82-88 | the clamped delay is min(30 * 4^(n-1), 1800) for every n, never shrinks and lies in [30, 1800] |
| `CaptureProgress.ResolveProgress` | crates/instagram-archive/src/capture_resolution.rs:207-275 | for every lease, fresh or not, a resolve retries, storing one attempt more than the lease had seen, iff the answer was transient and the lease's budget is not spent; otherwise it concludes with the status the answer calls for |
| `CaptureFlights.RetryDecreasesIff` | crates/instagram-archive/src/capture_resolution.rs:207-275 | in every history and for every lease a retry leaves a positive budget and strictly decreases max_attempts - attempts iff the lease is not older than the stored attempts |
| `CaptureFlights.OneLeaseAlwaysProgresses` | crates/instagram-archive/src/capture_resolution.rs:163-275 | in every history in which a claim finds no worker still holding a lease of what it claims, every lease is current, so every retry makes progress |
| `CaptureFlights.StaleLeaseMovesBack` | crates/instagram-archive/src/capture_resolution.rs:259-275 | wherever a fresh capture waits there is a history in which a worker that outlived its lease moves the attempts back from two to one |
| `CaptureFlights.DeliveredWaits` | crates/instagram-archive/src/command_capture.rs:155-219 | such a waiting capture is one delivered command away from the empty store |
| `CaptureFlights.SingleStep` | crates/instagram-archive/src/capture_resolution.rs:163-275 | every event keeps the leases single and current, reopening and erasure included |
| `CaptureProgress.ReportedWithinBudget` | crates/instagram-archive/src/capture_resolution.rs:122-275 | from every reachable state, max_attempts - attempts undisturbed due passes report an unreported operation and every other one of its capture, whatever the surface answers |
| `CaptureProgress.ReportTellsAnswer` | crates/instagram-archive/src/capture_resolution.rs:308-383 | the verdict reported after a conclusion is the one the surface's answer calls for, an exhausted transient answer being transient |
| `CaptureProgress.LatestIsNewest` | crates/instagram-archive/src/capture_resolution.rs:363-383 | the observation used is the newest by instant, the last stored among equals, and absent iff there is none |
| `CaptureProgress.LeaseExcludes` | crates/instagram-archive/src/capture_resolution.rs:163-204 | a leased capture is claimable again exactly from 120 seconds on while an operation is unreported |
| `CaptureProgress.NewOperationKeepsLease` | crates/instagram-archive/src/command_capture.rs:245-256 | a new command never changes the due instant, status or attempts of a scheduled capture |
| `CaptureProgress.Store.IngestBrowserCapture` | crates/instagram-archive/src/command_capture.rs:155-219 | inbox claim, rejection, capture, operation and report in one step, with the outcome it returns |
| `CaptureProgress.Store.SubmitCapture` | crates/instagram-archive/src/capture.rs:238-276 | a repeated user and URL returns the earlier capture untouched |
| `CaptureProgress.Store.AddOperation` | crates/instagram-archive/src/command_capture.rs:229-271 | the operation row, the reopened or first due instant, and the queued report |
| `CaptureProgress.Store.ReportPendingOperations` | crates/instagram-archive/src/capture_resolution.rs:308-346 | one pass flips every unreported row and appends one report per flip |
| `CaptureProgress.Store.ClaimDue` | crates/instagram-archive/src/capture_resolution.rs:163-204 | accepted captures are leased with their stored attempts, concluded ones reported |
| `CaptureProgress.Store.ResolveRows` | crates/instagram-archive/src/capture_resolution.rs:207-250 | the resolve transaction of one leased capture: retry, conclusion or failure, and which of them it was |
| `CaptureProgress.Store.ResolveOne` | crates/instagram-archive/src/capture_resolution.rs:207-257 | retry, conclusion or failure of one leased capture, then its report |
| `CaptureProgress.Store.StorePayload` | crates/instagram-archive/src/resolution.rs:302-430 | projection, observation, link, status and fact, or nothing when the fact has no media |
| `CaptureProgress.Store.RecordFailed` | crates/instagram-archive/src/resolution.rs:491-565 | observation, status and deleted-upstream update |
| `CaptureProgress.Store.RunDueOnce` | crates/instagram-archive/src/capture_resolution.rs:122-160 | a pass is the claim followed by every leased capture's own outcome; a failing one leaves the others alone, and every counter of the summary is exact |
| `CaptureProgress.PassIsHistory` | crates/instagram-archive/src/capture_resolution.rs:122-160 | such a pass, also one that stops between resolve and report, is a history of the protocol with the same final tables |
| `Permalink.AcceptsExactlyTheShapes` | crates/instagram-archive/src/permalink.rs:90-198 | an input is accepted with a reading iff it has a shape of the grammar with that reading |
| `PermalinkGrammar.AcceptsExactlyTheLinks` | crates/instagram-archive/src/permalink.rs:90-198 | an input is accepted with a kind and shortcode iff the trimmed input is written as a link of a grammar with its own tables of schemes, hosts, forms and characters; the URL is the literal canonical text |
| `PermalinkGrammar.AuthorityDecides` | crates/instagram-archive/src/permalink.rs:90-150 | which refusal a link with an accepted scheme gets from its authority, and that nothing else of it matters then |
| `PermalinkGrammar.PathDecides` | crates/instagram-archive/src/permalink.rs:151-198 | which refusal a path gets from its segments |
| `Permalink.CanonicalUrlReadsBack` | crates/instagram-archive/src/permalink.rs:90-198 | the printed URL of any kind and valid shortcode parses back to them |
| `Permalink.RoundTrip` | crates/instagram-archive/src/permalink.rs:90-123 | canonicalizing an accepted result again changes nothing |
| `Permalink.UrlIsIdentity` | crates/instagram-archive/src/permalink.rs:161-198 | two accepted inputs share a URL iff they share kind and shortcode |
| `ZipArchive.AcceptsExactlyTheLayout` | crates/instagram-archive/src/data_export/archive.rs:315-535 | the preflight returns n iff the last closing record declares n entries and a directory that n records with distinct names tile, each agreeing with a local header that ends before the directory |
| `ZipArchive.WindowIsEnough` | crates/instagram-archive/src/data_export/archive.rs:438-475 | searching the last 65557 bytes finds the last closing record of the whole file |
| `ZipArchive.PrintedAccepted` | crates/instagram-archive/src/data_export/archive.rs:315-436 | every archive a writer prints from distinct bounded names, unencrypted, stored or deflated, within the limits, is accepted with its count unless its comment forges a later closing record |
| `ZipArchive.CommentFreeAccepted` | crates/instagram-archive/src/data_export/archive.rs:315-535 | without a comment it is always accepted |
| `ZipRefusals.RefusalsNameDefects` | crates/instagram-archive/src/data_export/archive.rs:315-535 | every refusal, by class and rule, names a defect that the closing record, a central record or a local header has |
| `ZipRefusals.EncryptionIsNamed` | crates/instagram-archive/src/data_export/archive.rs:374-424 | a record is refused as encrypted iff its local header is readable and signed and either flag word is odd, whatever else is wrong |
| `ZipRefusals.SignatureBytes` | crates/instagram-archive/src/data_export/archive.rs:315-535 | in an accepted archive the three signatures stand byte for byte at the closing record, the central records and their local headers |
| `ZipArchive.Reader.PreflightHeaders` | crates/instagram-archive/src/data_export/archive.rs:315-436 | the reader loop returns exactly the count or the first error, in the source's order of checks |
| `ZipArchive.Reader.FindDirectory` | crates/instagram-archive/src/data_export/archive.rs:438-475 | the backward search finds the last closing record |
| `ZipArchive.Reader.ReadDirectory` | crates/instagram-archive/src/data_export/archive.rs:476-534 | the fields of that record, or the refusal for disks, counts, sentinels and bounds |
| `ZipArchive.Reader.ReadCentralRecord` | crates/instagram-archive/src/data_export/archive.rs:331-372 | one central record, or its first error |
| `ZipArchive.Reader.CheckLocalHeader` | crates/instagram-archive/src/data_export/archive.rs:374-424 | the first disagreement of the local header, if any |
| `BoundedRead.RatioIsExact` | crates/instagram-archive/src/data_export/archive.rs:608-610 | for all u64 values the saturating test is the comparison of unbounded integers |
| `BoundedRead.CeilingIsNamed` | crates/instagram-archive/src/data_export/archive.rs:150-200 | the refusal is that of the first ceiling broken in the order entry, total, ratio, with the ratio taken without overflow |
| `BoundedRead.ReadEntry` | crates/instagram-archive/src/data_export/archive.rs:150-200 | for every chunking the buffer stays within all ceilings; success is the exact concatenation with the declared length, and holds iff no read fails and no ceiling breaks; an error names the first read that does |
| `Outbox.PassTakesItsBatch` | crates/instagram-archive/src/publishing/pump.rs:137-181 | over passes that start within 60 seconds with no back-off expiring, pass k attempts exactly the k-th batch of the queue, whatever the transport answers |
| `Outbox.BatchIsStretch` | crates/instagram-archive/src/publishing/pump.rs:145-156 | the k-th batch is the stretch of the queue that starts at k times the batch size |
| `Outbox.NoRowTwice` | crates/instagram-archive/src/publishing/pump.rs:137-181 | those passes attempt no row twice |
| `Outbox.BookingTakesHead` | crates/instagram-archive/src/publishing/pump.rs:206-250 | marking, giving up or backing off takes exactly the attempted row out of the queue |
| `Outbox.BookingStores` | crates/instagram-archive/src/publishing/pump.rs:158-250 | what each answer stores: accepted the mark and for removals the first resend instant, undeliverable the give-up mark, transient a 60 second back-off; each failure one attempt; other rows unchanged |
| `Outbox.BookedRowReturns` | crates/instagram-archive/src/publishing/pump.rs:167-250 | after a transient failure the row is publishable and in the queue exactly from 60 seconds later on; after acceptance or give-up it is in no later queue |
| `Outbox.QueueIsExact` | crates/instagram-archive/src/publishing/pump.rs:145-156 | the queue holds exactly the unpublished rows that are not given up and not backing off, by instant and id |
| `Outbox.ResendStores` | crates/instagram-archive/src/publishing/removal_ack.rs:103-181 | a resend moves the count and the next instant by the capped doubling, a refusal backs off and leaves the schedule, other rows unchanged |
| `Outbox.DueAgain` | crates/instagram-archive/src/publishing/removal_ack.rs:83-132 | when a removal is due again after a resend, a refused resend and its first delivery, exactly; once acknowledged never |
| `Outbox.AcknowledgementStores` | crates/instagram-archive/src/publishing/removal_ack.rs:192-211 | an acknowledgement changes exactly the unacknowledged removal of that id and tenant |
| `Outbox.ResendDelayIsCappedDoubling` | crates/instagram-archive/src/publishing/removal_ack.rs:103-132 | for every validated policy the clamped delay is min(after * 2^r, cap) for unbounded r, non-decreasing and within [after, cap] |
| `Outbox.ResendSchedule` | crates/instagram-archive/src/publishing/removal_ack.rs:83-132 | the gap after the k-th resend is min(after * 2^(k-1), cap), the first two gaps being equal |
| `OutboxRelay.PublishedWasAccepted` | crates/instagram-archive/src/publishing/removal_ack.rs:83-101 | in every interleaving with appends, acknowledgements, erasures and crashes a published row was accepted by the transport with its payload, is not undeliverable, and if an unacknowledged removal has a next resend instant |
| `OutboxRelay.AcceptedUnchanged` | crates/instagram-archive/src/publishing/pump.rs:158-181 | what the transport accepted under an id is the payload appended under it |
| `OutboxRelay.GivenUpWasRefused` | crates/instagram-archive/src/publishing/pump.rs:167-250 | in every history a row is undeliverable only if the transport called a delivery of it undeliverable |
| `OutboxRelay.PassStores` | crates/instagram-archive/src/publishing/pump.rs:137-203 | a whole pass row by row: a claimed row is booked by its own answer, then due removals before the first refusal are rescheduled and that one is backed off, nothing after a transient failure, and no other row changes |
| `OutboxRelay.StuckMeans` | crates/instagram-archive/src/publishing/pump.rs:252-281 | the oldest publishable row is stuck iff it failed three times or is older than 300 seconds |
| `OutboxRelay.NoResendAfterAck` | crates/instagram-archive/src/publishing/removal_ack.rs:144-211 | once a row is published and acknowledged, or given up unpublished, and not held, no continuation sends it again |
| `OutboxRelay.AcknowledgedSentAgainIff` | crates/instagram-archive/src/publishing/removal_ack.rs:192-211 | after an acknowledgement, with no claim of the event in flight, some continuation without a new append sends it again iff its row is neither published nor undeliverable |
| `OutboxRelay.AcknowledgementOvertakesMark` | crates/instagram-archive/src/publishing/pump.rs:158-169 | for every removal there is a history from the empty outbox in which it is accepted again after its acknowledgement |
| `OutboxRelay.StepKeeps` | crates/instagram-archive/src/publishing/pump.rs:137-250 | every relay step and every step of another actor keeps the invariant |
| `OutboxRelay.VerdictIgnoresResends` | crates/instagram-archive/src/publishing/pump.rs:252-281 | the verdict is Failing iff a fresh delivery failed and the fresh phase left a stuck oldest row, Healthy iff it left none, whatever resends do |
| `OutboxRelay.FlagOverRuns` | crates/instagram-archive/src/publishing/health.rs:22-34 | over any run of passes, each from its own table, the flag is up iff some pass raised it and every pass since left a stuck row, or it was up and every pass did |
| `OutboxRelay.OutboxTable.RunOnce` | crates/instagram-archive/src/publishing/pump.rs:137-203 | the pass with all its counters, its resend phase only after a pass without transient failure, and its verdict |
| `OutboxRelay.OutboxTable.DeliverFresh` | crates/instagram-archive/src/publishing/pump.rs:158-181 | each claimed row is booked by its answer, and the counters add up to the batch |
| `OutboxRelay.OutboxTable.ResendDue` | crates/instagram-archive/src/publishing/removal_ack.rs:144-181 | due removals are resent up to the first refusal, which backs off and leaves the row published |
| `OutboxRelay.PublisherHealth.Record` | crates/instagram-archive/src/publishing/health.rs:22-28 | failing raises, healthy clears, waiting keeps |
| `ExportParser.Conservation` | crates/instagram-archive/src/data_export/parser.rs:158-237 | every saved element and every other field ends as exactly one normalized or one raw unknown record, with its multiplicity |
| `ExportParser.WarningsAddUp` | crates/instagram-archive/src/data_export/parser.rs:225-274 | warnings are unknown records plus unknown entries plus media references, and each unknown record has its own |
| `ExportParser.ElementsEndAsTheirRecords` | crates/instagram-archive/src/data_export/parser.rs:158-237 | each saved element ends as the record of its own fields and canonical link, or raw with the warning of its first failing rule, and each other field raw with its own warning |
| `ExportParser.ParseDecided` | crates/instagram-archive/src/data_export/parser.rs:158-172 | which inputs are invalid JSON, which an unsupported layout, and that the elements are those of the saved field and everything else is kept beside them |
| `ExportParser.OutputIsSorted` | crates/instagram-archive/src/data_export/parser.rs:209-274 | records, entries, unknown records and warnings are in their key orders |
| `ExportParser.EntriesAreListed` | crates/instagram-archive/src/data_export/parser.rs:238-257 | the unknown entries are exactly the other archive entries with their own path, sizes and media mark |
| `ExportParser.MediaReferenceMeans` | crates/instagram-archive/src/data_export/parser.rs:294-305 | a media reference is a path under media/ whose last dot is followed by one of seven extensions in any case |
| `ExportParser.OrderIndependent` | crates/instagram-archive/src/data_export/parser.rs:158-286 | if the digests of the saved elements do not collide among themselves, the whole output is the same for every permutation of the saved array |
| `ExportParser.EvidenceKeysDiffer` | crates/instagram-archive/src/data_export/parser.rs:225-237 | evidence keys of unknown records never repeat, even for exact duplicates |
| `ExportParser.ParseSavedPosts` | crates/instagram-archive/src/data_export/parser.rs:158-286 | the loops and sorts return exactly the specified output or error |
| `ExportParser.SplitElements` | crates/instagram-archive/src/data_export/parser.rs:174-211 | the element loop splits the array into records and kept unknowns in order |
| `ImportRuns.OnePathPerRun` | crates/instagram-archive/src/data_export.rs:387-637 | under any interleaving of workers a run's transitions have ordinals 1..n, chain, follow one path and end in its state; failure class, staged rows and report stand exactly where they belong |
| `ImportRuns.NeverBack` | crates/instagram-archive/src/data_export.rs:540-637 | a run only moves forward, its history only grows, and failed and reconciled runs never change again |
| `ImportRuns.OneRunPerArchive` | crates/instagram-archive/src/data_export.rs:639-723 | there is one run per owner and archive digest |
| `ImportRuns.ReceiptDecided` | crates/instagram-archive/src/data_export.rs:639-723 | in every reachable state a receipt is refused iff a run of that owner and digest has another archive, changes nothing iff one has the same, and otherwise adds exactly one new run |
| `ImportRuns.TakenKeeps` | crates/instagram-archive/src/data_export/reconcile.rs:65-157 | every attempted compare-and-swap, stale or not, keeps the run on its path |
| `ImportWorker.AdvanceReachesDestination` | crates/instagram-archive/src/data_export/worker.rs:128-153 | an undisturbed advance ends in reconciled or failed, except that repeating evidence keys break it and leave the run inspected |
| `ImportWorker.PassReachesDestinations` | crates/instagram-archive/src/data_export/worker.rs:75-99 | an undisturbed pass takes each run to its destination up to the first stuck one, which ends the pass; the counters are how many ended reconciled and failed, and later runs are untouched |
| `ImportWorker.StaleAdvanceIsHarmless` | crates/instagram-archive/src/data_export/worker.rs:65-95 | a worker with a stale selection changes nothing on a finished run |
| `ImportWorker.StagesUnlessDuplicated` | crates/instagram-archive/src/data_export.rs:406-501 | for digests of length 64 without collision among this export's records, the staged evidence keys are distinct iff no two of its records are equal |
| `ImportWorker.ReconciledUnlessDuplicated` | crates/instagram-archive/src/data_export/worker.rs:128-153 | under the same condition an inspected run is reconciled iff no two saved elements are understood as the same record |
| `ImportWorker.DuplicateStaysInspected` | crates/instagram-archive/src/data_export.rs:406-501 | a concrete export that saves one element twice meets that condition, and the advance ends in an error and changes nothing |
| `ImportWorker.ImportStore.Receive` | crates/instagram-archive/src/data_export.rs:639-723 | a new archive creates one run with its first transition, a known one replays it, and another archive reference under a known digest is refused as corrupt |
| `ImportWorker.ImportStore.AdvanceRun` | crates/instagram-archive/src/data_export/worker.rs:128-153 | the stages from the selected state on, with the outcome of each loss and failure |
| `ImportWorker.ImportStore.RunOnce` | crates/instagram-archive/src/data_export/worker.rs:75-99 | the batch loop advances row by row, skips lost races and stops at other errors, with exact counters |
| `Reprocessing.PlanIdentifiesInputs` | crates/instagram-archive/src/data_export_reprocessing.rs:400-441 | for hexadecimal digests and distinct keys two plans have the same canonical text iff they have the same inputs in any order |
| `Reprocessing.LinesDecode` | crates/instagram-archive/src/data_export_reprocessing.rs:424-440 | the length-prefixed lines are uniquely decodable |
| `Reprocessing.LineSpells` | crates/instagram-archive/src/data_export_reprocessing.rs:424-440 | the exact line of each class; only omitted items retain |
| `Reprocessing.OrderIrrelevant` | crates/instagram-archive/src/data_export_reprocessing.rs:400-410 | for distinct keys the report does not depend on input order |
| `Reprocessing.DashIsAmbiguous` | crates/instagram-archive/src/data_export_reprocessing.rs:424-440 | a digest "-" and no digest give the same text |
| `ReprocessingRuns.RestartableApply` | crates/instagram-archive/src/data_export_reprocessing.rs:179-259 | after any calls, failed ones between, the stored items are the first min(n, total) of the sorted report, the checkpoint is the last of them, and the run is finished iff all n are stored |
| `ReprocessingRuns.AttemptedUniform` | crates/instagram-archive/src/data_export_reprocessing.rs:179-259 | with one chunk size m, k committed calls attempt k * m items |
| `ReprocessingRuns.ChangedPlanRefused` | crates/instagram-archive/src/data_export_reprocessing.rs:284-306 | under an injective hash a call is refused iff it names another import, another state or other inputs |
| `ReprocessingRuns.ReceiptComesFirst` | crates/instagram-archive/src/data_export_reprocessing.rs:261-306 | a missing receipt refuses every call; a finished run answers with itself; a new run carries the request's import, state and plan |
| `ReprocessingRuns.PrefixMeans` | crates/instagram-archive/src/data_export_reprocessing.rs:225-250 | the stored rows are the items' key, class, digest and state, the checkpoint the last key, and the final status depends on warnings and conflicts |
| `ReprocessingRuns.RepeatedKeyNeverCompletes` | crates/instagram-archive/src/data_export_reprocessing.rs:179-259 | a plan that repeats a key stays running for ever |
| `ReprocessingRuns.ReprocessingStore.Apply` | crates/instagram-archive/src/data_export_reprocessing.rs:179-375 | one call's transaction: receipt, plan precondition, chunk, checkpoint and completion; a refusal changes nothing |
| `ReprocessingRuns.ReprocessingStore.SelectChunk` | crates/instagram-archive/src/data_export_reprocessing.rs:225-230 | the chunk is the first items whose keys are not stored |
| `Deletion.DeleteCaptureShrinks` | crates/instagram-archive/src/privacy_deletion/apply.rs:13-206 | a capture deletion removes that capture, keeps foreign keys, whatever remaining rows name, and unacknowledged removals |
| `Deletion.DeleteConnectionShrinks` | crates/instagram-archive/src/privacy_deletion/apply.rs:213-378 | a connection deletion keeps every capture, foreign keys, whatever remaining rows name, and unacknowledged removals |
| `Deletion.DeleteCaptureOutcome` | crates/instagram-archive/src/privacy_deletion/apply.rs:29-206 | the media row goes iff no other capture, connection or export holds it, its objects are then scheduled and counted, and a removal fact is appended iff the owner holds the source in no other capture |
| `DeletionFacts.CaptureFactsAreGone` | crates/instagram-archive/src/privacy_deletion/apply.rs:13-103 | if the owner holds the source in no other capture, the outbox keeps of the capture's facts exactly its unacknowledged removals and one new one, and every other aggregate's facts; otherwise the outbox is unchanged |
| `DeletionFacts.ConnectionFactsAreGone` | crates/instagram-archive/src/privacy_deletion/apply.rs:213-378 | the same of every exclusive media of a deleted connection; media that a capture holds only lose their account; other facts, media and captures are unchanged, and exactly the account's own rows go |
| `DeletionFacts.ConnectionPending` | crates/instagram-archive/src/privacy_deletion/apply.rs:213-378 | the pending count is the raw records dropped plus the media objects erased |
| `Deletion.DropRawsScheduled` | crates/instagram-archive/src/privacy_deletion/apply.rs:173-206 | every dropped raw record has a task for its object, and the pending count is the number dropped |
| `Deletion.EraseOutcome` | crates/instagram-archive/src/privacy_deletion/apply.rs:380-471 | an exclusive erasure leaves no revision of the media and exactly the raw records that other revisions name, and fails iff an account's rows name one it must drop |
| `Deletion.DropRawsRefused` | crates/instagram-archive/src/privacy_deletion/apply.rs:173-206 | raw records are dropped iff no revision names them, and the step fails iff an account's rows name one of those |
| `Deletion.ConnectionRefusedIff` | crates/instagram-archive/src/privacy_deletion/apply.rs:213-378 | the whole connection deletion fails, with the foreign key, iff some raw record that any account's rows name is named by revisions of exclusive media only, or a raw record of the connection's rows is also named by another account's rows and by no other revision |
| `Deletion.SyncedConnectionRefused` | crates/instagram-archive/src/privacy_deletion/apply.rs:238-305 | the simplest synchronised connection, one media whose page is named by its revision and a staged item, cannot be deleted |
| `Deletion.ReleaseRefusedIff` | crates/instagram-archive/src/privacy_deletion/apply.rs:238-305 | the loop over the connection's media fails iff the first of these holds; if it succeeds exactly the exclusive media are gone |
| `DeletionHistory.CapturesStand` | crates/instagram-archive/src/privacy_deletion/apply.rs:104-206 | after any deletions, worker steps, new captures, links and other new rows, a surviving capture has its row, its media, the media's revisions and their raw records |
| `DeletionHistory.RemovalsKept` | crates/instagram-archive/src/privacy_deletion/apply.rs:59-67 | no unacknowledged removal fact is ever lost |
| `DeletionHistory.ObjectsKept` | crates/instagram-archive/src/media_retention.rs:192-277 | in every history in which no new media row takes up a checked object, every media object that a row names is stored |
| `DeletionHistory.RemovalSafeIff` | crates/instagram-archive/src/media_retention.rs:126-164 | a removal keeps all named media objects iff no row names the object at that moment, its reference is no media reference, or the storage is down |
| `DeletionHistory.RaceLosesObject` | crates/instagram-archive/src/media_retention.rs:220-258 | for every media object, a media row added between check and removal loses it |
| `DeletionHistory.RawTasksNeverComplete` | crates/instagram-archive/src/media_retention.rs:126-137 | in every history a raw record that a deletion dropped leaves a task that stays pending for ever, since its reference is a bare digest |
| `DeletionHistory.AttemptIsRecorded` | crates/instagram-archive/src/media_retention.rs:126-306 | an attempt removes the object iff it is a media object with the expected bytes and the storage answers, and records completion or the failure with one attempt more |
| `PrivacyStore.Store.ApplyCaptureDeletion` | crates/instagram-archive/src/privacy_deletion/apply.rs:13-206 | the ordered deletes with their pending count, rolled back as a whole on a foreign key |
| `PrivacyStore.Store.ApplyConnectionDeletion` | crates/instagram-archive/src/privacy_deletion/apply.rs:213-378 | the loops over media and raw rows with their pending count, rolled back as a whole on a foreign key |
| `PrivacyStore.Store.DropRawRows` | crates/instagram-archive/src/privacy_deletion/apply.rs:173-206 | the raw-record loop |
| `PrivacyStore.Store.ScheduleBlobTask` | crates/instagram-archive/src/privacy_deletion/apply.rs:473-498 | a task per reference and digest, the first one winning |
| `PrivacyStore.Store.ProcessTask` | crates/instagram-archive/src/media_retention.rs:192-306 | an undisturbed attempt completes iff the task was complete or no row names the object and the store removes or lacks it; otherwise it records the failure and counts the attempt; it never removes a named object |

## Left out

- HTTP, NATS, axum routes, telemetry, configuration parsing and start-up: plumbing; only the validated ranges and the task structure are used.
- AES-GCM, SHA-256, UUIDv5, JSON text and the ZIP decompressor: foreign code, represented by abstract functions and arbitrary chunks.
- `inspect_reader` after the preflight, `validate_path` and the entry inventory: per-entry limit checks that would add easy members; opening an entry by name in `read_inspected_entry` likewise.
- Account refresh and revocation, capability tables, media retention policy, re-resolution selection: mostly one-branch decisions.
- The contract crates: reports, facts and envelopes are small datatypes, without their payload fields.
- `reconcile_record`, `persist_conflict` and `build_report`: the projections and conflict rows written while reconciling; only the state step and the existence of the report are modelled.
- Counts, warnings and conflict lists of the reprocessing report: only items, plan text and completion are modelled.
- Deletion operations' own state rows and notes, analysis links and media relations erased with a capture: they carry no reference to what the results are about.
- OwnMedia.WatermarkCoverage: assumes one worker per account, as the service runs it; two workers on one account at once are not modelled, and no liveness is claimed.
- CaptureHistory.ExactlyOnceReports: counts reports of stored operations and of their commands; a rejected link is reported once per command without a row, and the envelope contents are not modelled.
- Outbox.PassTakesItsBatch: assumes no appends between the passes, as new rows with an earlier instant would shift the queue.
- ExportParser.OrderIndependent: assumes that digests do not collide among the elements of the export.
- OutboxRelay.FlagOverRuns: what other actors do during a pass counts as done before it or after it.
- OwnMedia.Executor.StagePage: does not model the raw record row written with each page, nor the refusal of an item of another owner.
- OwnMedia.Executor.Publish: does not model the media projections, revisions and facts written in the final transaction.
- CaptureProgress.Store.StorePayload: does not model the raw record and revision rows of the same transaction.
- CaptureProgress.Store.ClaimDue: takes the list the claim query returned; its order, limit and skipped locks are not modelled, only that the captures are claimable and distinct.
- ImportWorker.ImportStore.Receive: the bytes and the storage of the received archive are not modelled.
- DeletionHistory.ObjectsKept: the condition on new rows is sufficient over whole histories; the exact condition is given per removal by RemovalSafeIff.
- ImportWorker.AdvanceReachesDestination: speaks of an undisturbed advance; under races only the path results hold.
- OwnMediaRuns.DriveTraverses: assumes that the listing does not change during the run and that a continuation never leads back above its own cursor; changing listings are covered by WatermarkCoverage.
- ImportWorker.PassReachesDestinations: speaks of an undisturbed pass over a current selection.
- CaptureLaws.EveryCommandReported: the due passes after the delivery are undisturbed; before it any interleaving may have happened.
