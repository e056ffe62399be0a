/**
 The capture operation protocol: command inbox, capture deduplication, one operation row per
 command, leased resolution with bounded retry, and terminal reports
 (crates/instagram-archive/src/{command_capture,capture,capture_resolution,resolution,tombstone}.rs).

 Each function of the first part is one database transaction.  Deliveries, resolver passes of any
 number of workers, crashes, tombstones, unavailability records, re-resolutions and privacy
 deletions interleave freely between them.  `log` keeps every outbox row ever appended, also those
 a privacy deletion has erased since.
 */
module CaptureProtocol {
  import opened Prelude
  import Permalink

  type UserId = nat
  type CaptureId = nat
  type OperationId = nat
  type CommandId = nat
  type Instant = int

  const LEASE: Instant := 120
  const MAX_RETRY_DELAY_SECONDS: int := 1800

  datatype Status = Accepted | Resolved | Unavailable | FailedCapture | Tombstoned

  datatype Capture = Capture(
    user: UserId,
    url: string,
    status: Status,
    due: Option<Instant>,
    attempts: nat,
    linked: bool
  )

  /** A row of capture_operations; the table is kept in insertion order. */
  datatype Operation = Operation(
    id: OperationId,
    command: CommandId,
    capture: CaptureId,
    user: UserId,
    reported: Option<Instant>
  )

  datatype Availability =
    | Available | Deleted | Private | TemporarilyUnavailable | Unsupported | ResolutionFailed

  datatype Observation = Observation(capture: CaptureId, kind: Availability, at: Instant)

  datatype Reason = SourceDeleted | Transient | Inaccessible

  datatype Verdict = Preserved | NotPreserved(reason: Reason)

  datatype Entry =
    | Queued(operation: OperationId, command: CommandId, capture: CaptureId)
    | Terminal(operation: OperationId, command: CommandId, capture: CaptureId, verdict: Verdict)
    | Rejected(operation: OperationId, command: CommandId)
    | CapturedFact(capture: CaptureId)
    | UpdatedFact(capture: CaptureId)
    | RemovalFact(capture: CaptureId)

  /** The normalized columns of a media row. */
  datatype Projection = Projection(kind: Permalink.Kind, caption: Option<string>, deletedUpstream: bool)

  datatype Db = Db(
    captures: map<CaptureId, Capture>,
    byKey: map<(UserId, string), CaptureId>,
    nextCapture: CaptureId,
    operations: seq<Operation>,
    inbox: set<CommandId>,
    observations: seq<Observation>,
    removals: set<(UserId, string)>,
    media: map<string, Projection>,
    log: seq<Entry>
  )

  datatype Command = Command(id: CommandId, operation: OperationId, user: UserId, permalink: string)

  datatype SurfaceOutcome =
    | Payload(caption: Option<Option<string>>)
    | SurfaceDeleted
    | SurfacePrivate
    | SurfaceTemporarilyUnavailable
    | SurfaceUnavailable
    | SurfaceUnsupported
    | TransportFailure

  // ---------------------------------------------------------------- ingestion

  /** captures_user_canonical_key: a repeated (user, url) reuses the earlier row untouched. */
  function Submit(db: Db, user: UserId, url: string): Db {
    if (user, url) in db.byKey then db
    else
      db.(captures := db.captures[db.nextCapture := Capture(user, url, Accepted, None, 0, false)],
          byKey := db.byKey[(user, url) := db.nextCapture],
          nextCapture := db.nextCapture + 1)
  }

  function SubmittedId(db: Db, user: UserId, url: string): CaptureId {
    if (user, url) in db.byKey then db.byKey[(user, url)] else db.nextCapture
  }

  function SubmitLink(db: Db, user: UserId, link: string): Db {
    match Permalink.Canonicalize(link)
    case Err(_) => db
    case Ok(c) => Submit(db, user, c.url)
  }

  predicate OperationKnown(rows: seq<Operation>, cmd: Command) {
    exists i :: 0 <= i < |rows| && (rows[i].id == cmd.operation || rows[i].command == cmd.id)
  }

  /** Reopens an unavailable capture and keeps the schedule of an accepted one unless it has none. */
  function MadeDue(c: Capture, now: Instant): Capture {
    match c.status
    case Unavailable => c.(status := Accepted, attempts := 0, due := Some(now))
    case Accepted => c.(due := if c.due.Some? then c.due else Some(now))
    case _ => c
  }

  function RecordOperation(db: Db, cmd: Command, id: CaptureId, now: Instant): Db
    requires id in db.captures
  {
    var due := db.(captures := db.captures[id := MadeDue(db.captures[id], now)]);
    if OperationKnown(db.operations, cmd) then due
    else
      due.(operations := db.operations + [Operation(cmd.operation, cmd.id, id, cmd.user, None)],
           log := db.log + [Queued(cmd.operation, cmd.id, id)])
  }

  predicate Indexed(db: Db) {
    && (forall k :: k in db.byKey ==>
          && db.byKey[k] in db.captures && db.captures[db.byKey[k]].user == k.0 && db.captures[db.byKey[k]].url == k.1)
    && (forall c :: c in db.captures ==>
          && c < db.nextCapture
          && (db.captures[c].user, db.captures[c].url) in db.byKey
          && db.byKey[(db.captures[c].user, db.captures[c].url)] == c)
  }

  /** ingest_browser_capture_command: inbox claim, capture, operation and report in one transaction. */
  function Ingest(db: Db, cmd: Command, now: Instant): Db
    requires Indexed(db)
  {
    if cmd.id in db.inbox then db
    else
      match Permalink.Canonicalize(cmd.permalink)
      case Err(_) => db.(inbox := db.inbox + {cmd.id}, log := db.log + [Rejected(cmd.operation, cmd.id)])
      case Ok(c) =>
        var submitted := Submit(db, cmd.user, c.url);
        RecordOperation(submitted, cmd, SubmittedId(db, cmd.user, c.url), now).(inbox := db.inbox + {cmd.id})
  }

  // ---------------------------------------------------------------- reporting

  /** The newest observation of a capture by (observed_at, insertion). */
  function Latest(observations: seq<Observation>, id: CaptureId): Option<Observation> {
    if observations == [] then None
    else
      var last := observations[|observations| - 1];
      var earlier := Latest(observations[..|observations| - 1], id);
      if last.capture == id && (earlier.None? || earlier.value.at <= last.at) then Some(last) else earlier
  }

  function ReasonOf(latest: Option<Observation>): Reason {
    if latest.Some? && latest.value.kind.Deleted? then SourceDeleted
    else if latest.Some? && latest.value.kind.TemporarilyUnavailable? then Transient
    else Inaccessible
  }

  /** How a concluded capture is reported; derived from stored rows only. */
  function Conclusion(db: Db, id: CaptureId): Option<Verdict> {
    if id !in db.captures then None
    else
      match db.captures[id].status
      case Accepted => None
      case Resolved => Some(Preserved)
      case Unavailable => Some(NotPreserved(ReasonOf(Latest(db.observations, id))))
      case FailedCapture => Some(NotPreserved(Inaccessible))
      case Tombstoned => Some(NotPreserved(Inaccessible))
  }

  predicate Pending(row: Operation, id: CaptureId) {
    row.capture == id && row.reported.None?
  }

  function MarkReported(rows: seq<Operation>, id: CaptureId, now: Instant): seq<Operation> {
    if rows == [] then []
    else
      var last := rows[|rows| - 1];
      MarkReported(rows[..|rows| - 1], id, now) + [if Pending(last, id) then last.(reported := Some(now)) else last]
  }

  function Reports(rows: seq<Operation>, id: CaptureId, verdict: Verdict): seq<Entry> {
    if rows == [] then []
    else
      var last := rows[|rows| - 1];
      Reports(rows[..|rows| - 1], id, verdict)
      + (if Pending(last, id) then [Terminal(last.id, last.command, id, verdict)] else [])
  }

  /** Flips every unreported operation of a concluded capture and appends one report for each flip. */
  function ReportPending(db: Db, id: CaptureId, now: Instant): Db {
    match Conclusion(db, id)
    case None => db
    case Some(verdict) =>
      db.(operations := MarkReported(db.operations, id, now), log := db.log + Reports(db.operations, id, verdict))
  }

  // ---------------------------------------------------------------- claiming

  predicate Claimable(db: Db, id: CaptureId, now: Instant) {
    && id in db.captures
    && (exists i :: 0 <= i < |db.operations| && Pending(db.operations[i], id))
    && (db.captures[id].status.Accepted? ==> db.captures[id].due.Some? && db.captures[id].due.value <= now)
  }

  function ClaimOne(db: Db, id: CaptureId, now: Instant): Db {
    if id in db.captures && db.captures[id].status.Accepted? then
      db.(captures := db.captures[id := db.captures[id].(due := Some(now + LEASE))])
    else ReportPending(db, id, now)
  }

  /** The claim transaction over the captures the locking query returned. */
  function Claim(db: Db, ids: seq<CaptureId>, now: Instant): Db {
    if ids == [] then db else ClaimOne(Claim(db, ids[..|ids| - 1], now), ids[|ids| - 1], now)
  }

  /** A leased capture in a worker's memory: the attempts column as the claim read it. */
  datatype Flight = Flight(capture: CaptureId, attempts: nat)

  function Leased(db: Db, ids: seq<CaptureId>): seq<Flight> {
    if ids == [] then []
    else
      var last := ids[|ids| - 1];
      Leased(db, ids[..|ids| - 1])
      + (if last in db.captures && db.captures[last].status.Accepted?
        then [Flight(last, db.captures[last].attempts)] else [])
  }

  // ---------------------------------------------------------------- resolving

  function RetryDelay(attempt: nat): int {
    var exponent := Min(if attempt == 0 then 0 else attempt - 1, 6);
    Min(30 * Power(4, exponent), MAX_RETRY_DELAY_SECONDS)
  }

  predicate IsTransient(outcome: SurfaceOutcome) {
    outcome.SurfaceTemporarilyUnavailable? || outcome.TransportFailure?
  }

  function ObservationKind(outcome: SurfaceOutcome): Availability {
    match outcome
    case Payload(_) => Available
    case SurfaceDeleted => Deleted
    case SurfacePrivate => Private
    case SurfaceTemporarilyUnavailable => TemporarilyUnavailable
    case SurfaceUnavailable => ResolutionFailed
    case TransportFailure => ResolutionFailed
    case SurfaceUnsupported => Unsupported
  }

  /** An unconditional update: it also reaches a capture that concluded meanwhile. */
  function Reschedule(db: Db, id: CaptureId, attempt: nat, now: Instant): Db {
    if id !in db.captures then db
    else
      db.(captures := db.captures[id := db.captures[id].(attempts := attempt, due := Some(now + RetryDelay(attempt)))])
  }

  function FactsOf(log: seq<Entry>, id: CaptureId): seq<Entry> {
    if log == [] then []
    else
      var last := log[|log| - 1];
      FactsOf(log[..|log| - 1], id)
      + (if (last.CapturedFact? || last.UpdatedFact?) && last.capture == id then [last] else [])
  }

  /**
   Preserves a payload: media projection, `available` observation, link and status, and a captured
   or updated fact.  A fact needs a linked media row, otherwise the transaction is abandoned.
   */
  function StoreResolution(db: Db, id: CaptureId, projection: Projection, now: Instant): Db {
    if id !in db.captures then db
    else
      var c := db.captures[id];
      var hasFact := FactsOf(db.log, id) != [];
      var changed := c.url !in db.media
                     || db.media[c.url].kind != projection.kind || db.media[c.url].caption != projection.caption;
      var c' := if c.status.FailedCapture? then c else c.(status := Resolved, linked := true);
      var publish := !hasFact || changed;
      if publish && !c'.linked then db
      else
        db.(captures := db.captures[id := c'],
            media := db.media[c.url := projection],
            observations := db.observations + [Observation(id, Available, now)],
            log := db.log + (if !publish then [] else [if hasFact then UpdatedFact(id) else CapturedFact(id)]))
  }

  function MadeUnavailable(c: Capture): Capture {
    if c.status.Accepted? || c.status.Resolved? then c.(status := Unavailable) else c
  }

  function RecordFailedResolution(db: Db, id: CaptureId, kind: Availability, now: Instant): Db {
    if id !in db.captures then db
    else
      var c := db.captures[id];
      var concluded := db.(captures := db.captures[id := MadeUnavailable(c)],
                           observations := db.observations + [Observation(id, kind, now)]);
      if kind.Deleted? && c.linked && c.url in db.media then
        concluded.(media := db.media[c.url := db.media[c.url].(deletedUpstream := true)],
                   log := db.log + [UpdatedFact(id)])
      else concluded
  }

  /** apply_surface_outcome; an unreadable payload is this service's own failed attempt. */
  function ApplyOutcome(db: Db, id: CaptureId, kind: Permalink.Kind, outcome: SurfaceOutcome, now: Instant): Db {
    match outcome
    case Payload(Some(caption)) => StoreResolution(db, id, Projection(kind, caption, false), now)
    case Payload(None) => RecordFailedResolution(db, id, ResolutionFailed, now)
    case _ => RecordFailedResolution(db, id, ObservationKind(outcome), now)
  }

  datatype Policy = Policy(maxAttempts: nat, batchSize: nat)

  predicate Retries(policy: Policy, flight: Flight, outcome: SurfaceOutcome) {
    IsTransient(outcome) && flight.attempts + 1 < policy.maxAttempts
  }

  /** The first transaction of resolve_one: a retry is rescheduled, anything else concludes. */
  function Resolve(policy: Policy, db: Db, flight: Flight, outcome: SurfaceOutcome, now: Instant): Db {
    if flight.capture !in db.captures then db
    else
      match Permalink.Canonicalize(db.captures[flight.capture].url)
      case Err(_) => RecordFailedResolution(db, flight.capture, ResolutionFailed, now)
      case Ok(c) =>
        if Retries(policy, flight, outcome) then Reschedule(db, flight.capture, flight.attempts + 1, now)
        else
          ApplyOutcome(db, flight.capture, c.kind,
                       if IsTransient(outcome) then SurfaceTemporarilyUnavailable else outcome, now)
  }

  // ---------------------------------------------------------------- other lanes

  function RecordCaptureUnavailable(db: Db, id: CaptureId, kind: Availability, now: Instant): Db {
    if id !in db.captures then db
    else
      db.(captures := db.captures[id := MadeUnavailable(db.captures[id])],
          observations := db.observations + [Observation(id, kind, now)])
  }

  function TombstoneCapture(db: Db, id: CaptureId): Db {
    if id !in db.captures || (db.captures[id].user, db.captures[id].url) in db.removals then db
    else
      var c := db.captures[id];
      db.(captures := db.captures[id := c.(status := Tombstoned)],
          removals := db.removals + {(c.user, c.url)},
          log := db.log + [RemovalFact(id)])
  }

  function WithoutCapture(rows: seq<Operation>, id: CaptureId): seq<Operation> {
    if rows == [] then []
    else
      var last := rows[|rows| - 1];
      WithoutCapture(rows[..|rows| - 1], id) + (if last.capture == id then [] else [last])
  }

  /** The rows of this protocol that a privacy deletion of one capture erases. */
  function EraseCapture(db: Db, id: CaptureId, dropMedia: bool): Db {
    if id !in db.captures then db
    else
      var c := db.captures[id];
      db.(captures := db.captures - {id},
          byKey := db.byKey - {(c.user, c.url)},
          operations := WithoutCapture(db.operations, id),
          removals := db.removals + {(c.user, c.url)},
          media := if dropMedia then db.media - {c.url} else db.media,
          log := db.log + [RemovalFact(id)])
  }
}
