/**
 What each transaction of the capture protocol stores, stated row by row: deliveries, resolutions,
 failures, reports and the other lanes.
 */
module CaptureLaws {
  import opened Prelude
  import opened CaptureProtocol
  import opened CaptureHistory
  import opened CaptureProgress
  import Permalink

  // ---------------------------------------------------------------- deliveries

  predicate StoredOperation(db: Db, cmd: Command) {
    exists i :: 0 <= i < |db.operations| && (db.operations[i].id == cmd.operation || db.operations[i].command == cmd.id)
  }

  /** The capture a command with this canonical URL is about, as the delivery leaves it. */
  predicate DeliveredCapture(db: Db, out: Db, cmd: Command, url: string, now: Instant, id: CaptureId) {
    && (cmd.user, url) in out.byKey && out.byKey[(cmd.user, url)] == id && id in out.captures
    && if (cmd.user, url) in db.byKey
       then && db.byKey[(cmd.user, url)] == id && id in db.captures && out.byKey == db.byKey
            && var c := db.captures[id];
            && out.captures == db.captures[id :=
                 if c.status.Unavailable? then Capture(c.user, c.url, Accepted, Some(now), 0, c.linked)
                 else if c.status.Accepted? && c.due.None? then c.(due := Some(now))
                 else c]
       else && id !in db.captures && out.byKey == db.byKey[(cmd.user, url) := id]
            && out.captures == db.captures[id := Capture(cmd.user, url, Accepted, Some(now), 0, false)]
  }

  /** A delivery leaves everything else alone. */
  predicate DeliveryFrame(db: Db, out: Db, cmd: Command) {
    out.inbox == db.inbox + {cmd.id} && out.observations == db.observations && out.removals == db.removals
    && out.media == db.media
  }

  /**
   What a delivery does: a seen command nothing; an unseen one with a refused link a rejection; an unseen one
   with an accepted link one new operation row and its queued report, for the capture of that user and
   canonical URL, unless the operation or command is stored already.
   */
  lemma DeliveryRecords(db: Db, cmd: Command, now: Instant)
    requires Indexed(db)
    ensures
      var out, canonical := Ingest(db, cmd, now), Permalink.Canonicalize(cmd.permalink);
      if cmd.id in db.inbox then out == db
      else
        && DeliveryFrame(db, out, cmd)
        && if canonical.Err?
           then && out.captures == db.captures && out.byKey == db.byKey && out.operations == db.operations
                && out.log == db.log + [Rejected(cmd.operation, cmd.id)]
           else && (cmd.user, canonical.value.url) in out.byKey
                && var id := out.byKey[(cmd.user, canonical.value.url)];
                && DeliveredCapture(db, out, cmd, canonical.value.url, now, id)
                && if StoredOperation(db, cmd)
                   then out.operations == db.operations && out.log == db.log
                   else && out.operations == db.operations + [Operation(cmd.operation, cmd.id, id, cmd.user, None)]
                        && out.log == db.log + [Queued(cmd.operation, cmd.id, id)]
  {
    hide Permalink.Canonicalize;
  }

  // ---------------------------------------------------------------- every command is reported

  /** The rows are the same operations, some of them reported since. */
  predicate SameRows(before: seq<Operation>, after: seq<Operation>) {
    && |after| == |before|
    && (forall i :: 0 <= i < |before| ==>
          after[i] == before[i] || (before[i].reported.None? && after[i] == before[i].(reported := after[i].reported)))
  }

  lemma PassKeepsRows(policy: Policy, db: Db, id: CaptureId, outcome: SurfaceOutcome, now: Instant)
    requires Inv(policy, db) && id in db.captures
    ensures SameRows(db.operations, Pass(policy, db, id, outcome, now).operations)
  {
    hide Inv, Resolve, Latest, Reports, MarkReported, Claimable;
    var claimed := ClaimOne(db, id, now);
    MarkReportedRows(db.operations, id, now);
    if db.captures[id].status.Accepted? {
      assert CaptureOk(policy, db.captures[id], db.media) by { CaptureIsOk(policy, db, id); }
      ResolveProgress(policy, claimed, Flight(id, db.captures[id].attempts), outcome, now);
    }
  }

  lemma CaptureIsOk(policy: Policy, db: Db, id: CaptureId)
    requires Inv(policy, db) && id in db.captures
    ensures CaptureOk(policy, db.captures[id], db.media)
  {
  }

  lemma SameRowsCompose(a: seq<Operation>, b: seq<Operation>, c: seq<Operation>)
    requires SameRows(a, b) && SameRows(b, c)
    ensures SameRows(a, c)
  {
  }

  lemma {:induction false} PassesKeepRows(policy: Policy, db: Db, id: CaptureId, script: seq<(SurfaceOutcome, nat)>)
    requires Inv(policy, db) && id in db.captures
    requires db.captures[id].status.Accepted? ==> db.captures[id].due.Some?
    ensures
      var out := Passes(policy, db, id, script);
      Inv(policy, out) && SameRows(db.operations, out.operations)
    decreases |script|
  {
    hide Inv, Pass, SameRows, Settled;
    if script == [] {
      assert SameRows(db.operations, db.operations) by { RowsAreSame(db.operations); }
    } else {
      var due := if db.captures[id].due.Some? then db.captures[id].due.value else 0;
      var next := Pass(policy, db, id, script[0].0, due + script[0].1);
      PassProgress(policy, db, id, script[0].0, due + script[0].1);
      PassKeepsRows(policy, db, id, script[0].0, due + script[0].1);
      if Settled(next.operations, id) {
        SettledStays(policy, next, id, script[1..]);
      } else {
        PassesKeepRows(policy, next, id, script[1..]);
        SameRowsCompose(db.operations, next.operations, Passes(policy, db, id, script).operations);
      }
    }
  }

  lemma RowsAreSame(rows: seq<Operation>)
    ensures SameRows(rows, rows)
  {
  }

  /** The two reports of a command: queued first, then one terminal report. */
  predicate ReportedBoth(trail: seq<Entry>, cmd: Command, id: CaptureId) {
    && |trail| == 2 && trail[0] == Queued(cmd.operation, cmd.id, id)
    && trail[1].Terminal? && trail[1].operation == cmd.operation && trail[1].command == cmd.id && trail[1].capture == id
  }

  lemma PendingRowIsReported(policy: Policy, db: Db, row: Operation, script: seq<(SurfaceOutcome, nat)>)
    requires Inv(policy, db) && row in db.operations && row.reported.None? && |script| >= policy.maxAttempts
    ensures
      var trail := Trail(Passes(policy, db, row.capture, script).log, row.command);
      ReportedBoth(trail, Command(row.command, row.id, row.user, ""), row.capture)
  {
    hide Inv, Passes, Trail;
    var id := row.capture;
    StrandedNever(policy, db, row, 0);
    PassesSettle(policy, db, id, script);
    PassesKeepRows(policy, db, id, script);
    var out := Passes(policy, db, id, script);
    var i :| 0 <= i < |db.operations| && db.operations[i] == row;
    assert !Pending(out.operations[i], id);
    RowReported(policy, out, i);
  }

  lemma RowReported(policy: Policy, db: Db, i: nat)
    requires Inv(policy, db) && i < |db.operations|
    ensures ReportedOnce(db.operations[i], Trail(db.log, db.operations[i].command))
    ensures
      var trail := Trail(db.log, db.operations[i].command);
      forall k :: 0 <= k < |trail| ==> Concerns(trail[k], db.operations[i].command)
  {
    hide Trail, FactsOf, Indexed, CaptureOk;
    TrailConcerns(db.log, db.operations[i].command);
  }

  lemma {:induction false} TrailConcerns(log: seq<Entry>, command: CommandId)
    ensures forall k :: 0 <= k < |Trail(log, command)| ==> Concerns(Trail(log, command)[k], command)
  {
    if log == [] {
    } else {
      TrailConcerns(log[..|log| - 1], command);
    }
  }

  /**
   In every history, a delivery of an unseen command with an accepted link and a new operation is queued at
   once, and after at most max_attempts undisturbed due passes it has exactly its two reports.
   */
  lemma EveryCommandReported(policy: Policy, w: World, events: seq<Event>, cmd: Command, now: Instant,
                             script: seq<(SurfaceOutcome, nat)>)
    requires policy.maxAttempts >= 1 && Empty(w.db) && History(policy, w, events) && |script| >= policy.maxAttempts
    ensures
      var db, canonical := After(policy, w, events).db, Permalink.Canonicalize(cmd.permalink);
      cmd.id !in db.inbox && canonical.Ok? && !StoredOperation(db, cmd) ==>
        && Indexed(db)
        && var out := Ingest(db, cmd, now);
        && (cmd.user, canonical.value.url) in out.byKey
        && var id := out.byKey[(cmd.user, canonical.value.url)];
        && out.log == db.log + [Queued(cmd.operation, cmd.id, id)]
        && ReportedBoth(Trail(Passes(policy, out, id, script).log, cmd.id), cmd, id)
  {
    hide Permalink.Canonicalize, History, After, Inv, Ingest, Passes, Trail, StoredOperation, DeliveredCapture;
    Reachable(policy, w, events);
    var db := After(policy, w, events).db;
    IndexedKept(policy, db);
    DeliveryRecords(db, cmd, now);
    IngestKeeps(policy, db, cmd, now);
    if cmd.id !in db.inbox && Permalink.Canonicalize(cmd.permalink).Ok? && !StoredOperation(db, cmd) {
      var out := Ingest(db, cmd, now);
      var row := out.operations[|db.operations|];
      assert row in out.operations;
      PendingRowIsReported(policy, out, row, script);
    }
  }

  // ---------------------------------------------------------------- resolutions

  /** The capture already has a captured or an updated fact. */
  predicate HasFact(log: seq<Entry>, id: CaptureId) {
    exists k :: 0 <= k < |log| && (log[k] == CapturedFact(id) || log[k] == UpdatedFact(id))
  }

  lemma {:induction false} FactsExist(log: seq<Entry>, id: CaptureId)
    ensures FactsOf(log, id) != [] <==> HasFact(log, id)
  {
    if log == [] {
    } else {
      var front := log[..|log| - 1];
      FactsExist(front, id);
      assert forall k :: 0 <= k < |front| ==> front[k] == log[k];
      assert log[|log| - 1] in log;
    }
  }

  /**
   What a readable payload leaves: the media row of the capture's URL with exactly the kind of the link and
   the payload's caption and not deleted upstream, the linked and resolved capture, an `available` observation, and a
   captured fact first or an updated fact iff kind or caption changed.  Nothing else changes.
   */
  lemma PayloadIsPreserved(db: Db, id: CaptureId, kind: Permalink.Kind, caption: Option<string>, now: Instant)
    requires id in db.captures && !db.captures[id].status.FailedCapture?
    ensures
      var c, out := db.captures[id], ApplyOutcome(db, id, kind, Payload(Some(caption)), now);
      && out.media == db.media[c.url := Projection(kind, caption, false)]
      && out.captures == db.captures[id := Capture(c.user, c.url, Resolved, c.due, c.attempts, true)]
      && out.observations == db.observations + [Observation(id, Available, now)]
      && out.log == db.log + (if !HasFact(db.log, id) then [CapturedFact(id)]
                              else if c.url in db.media && db.media[c.url].kind == kind
                                      && db.media[c.url].caption == caption
                              then [] else [UpdatedFact(id)])
      && out == db.(media := out.media, captures := out.captures, observations := out.observations, log := out.log)
  {
    hide FactsOf;
    FactsExist(db.log, id);
  }

  /** The observation each other answer is recorded as. */
  function Recorded(outcome: SurfaceOutcome): Availability {
    match outcome
    case SurfaceDeleted => Deleted
    case SurfacePrivate => Private
    case SurfaceTemporarilyUnavailable => TemporarilyUnavailable
    case SurfaceUnsupported => Unsupported
    case _ => ResolutionFailed
  }

  /**
   What any other answer leaves: its observation, an unavailable capture unless it was concluded otherwise, and
   for a deleted answer on a linked capture the deleted mark on its media row and an updated fact.
   */
  lemma RefusalIsRecorded(db: Db, id: CaptureId, kind: Permalink.Kind, outcome: SurfaceOutcome, now: Instant)
    requires id in db.captures && (outcome.Payload? ==> outcome.caption.None?)
    ensures
      var c, out := db.captures[id], ApplyOutcome(db, id, kind, outcome, now);
      var marks := outcome.SurfaceDeleted? && c.linked && c.url in db.media;
      && out.observations == db.observations + [Observation(id, Recorded(outcome), now)]
      && out.captures ==
         db.captures[id := if c.status.Accepted? || c.status.Resolved? then c.(status := Unavailable) else c]
      && out.media == (if marks then db.media[c.url := Projection(db.media[c.url].kind, db.media[c.url].caption, true)]
                       else db.media)
      && out.log == db.log + (if marks then [UpdatedFact(id)] else [])
      && out == db.(media := out.media, captures := out.captures, observations := out.observations, log := out.log)
  {
    hide FactsOf;
  }

  /**
   What the resolve transaction of a lease does in every history: a retry changes only attempts and due
   instant of its capture; otherwise the answer is applied under the kind of the stored link, an exhausted
   transient answer as temporarily unavailable.
   */
  lemma ResolveAppliesAnswer(policy: Policy, w: World, events: seq<Event>, flight: Flight, outcome: SurfaceOutcome,
                             now: Instant)
    requires policy.maxAttempts >= 1 && Empty(w.db) && History(policy, w, events)
    requires flight.capture in After(policy, w, events).db.captures
    ensures
      var db := After(policy, w, events).db;
      var id, c := flight.capture, db.captures[flight.capture];
      var transient := outcome.SurfaceTemporarilyUnavailable? || outcome.TransportFailure?;
      var out := Resolve(policy, db, flight, outcome, now);
      && Permalink.Canonicalize(c.url).Ok?
      && if transient && flight.attempts + 1 < policy.maxAttempts
         then out == db.(captures := db.captures[id := c.(attempts := flight.attempts + 1,
                                                         due := Some(now + RetryDelay(flight.attempts + 1)))])
         else out == ApplyOutcome(db, id, Permalink.Canonicalize(c.url).value.kind,
                                  if transient then SurfaceTemporarilyUnavailable else outcome, now)
  {
    hide Permalink.Canonicalize, History, After, Inv, ApplyOutcome, RetryDelay;
    Reachable(policy, w, events);
    CaptureIsOk(policy, After(policy, w, events).db, flight.capture);
  }

  // ---------------------------------------------------------------- reports and other lanes

  /** How a capture is reported by its stored status. */
  lemma ConclusionByStatus(db: Db, id: CaptureId)
    requires id in db.captures
    ensures Conclusion(db, id) ==
            match db.captures[id].status
            case Accepted => None
            case Resolved => Some(Preserved)
            case FailedCapture => Some(NotPreserved(Inaccessible))
            case Tombstoned => Some(NotPreserved(Inaccessible))
            case Unavailable =>
              match Latest(db.observations, id)
              case None => Some(NotPreserved(Inaccessible))
              case Some(o) =>
                Some(NotPreserved(if o.kind.Deleted? then SourceDeleted
                                  else if o.kind.TemporarilyUnavailable? then Transient
                                  else Inaccessible))
  {
    hide Latest;
  }

  /** A report transaction marks exactly the capture's unreported rows with the instant and changes no other table. */
  lemma ReportMarksRows(db: Db, id: CaptureId, now: Instant)
    requires id in db.captures && !db.captures[id].status.Accepted?
    ensures
      var out := ReportPending(db, id, now);
      && out == db.(operations := out.operations, log := out.log) && |out.operations| == |db.operations|
      && (forall i :: 0 <= i < |db.operations| ==>
            out.operations[i] == if db.operations[i].capture == id && db.operations[i].reported.None?
                                 then db.operations[i].(reported := Some(now)) else db.operations[i])
  {
    hide Latest, Reports, MarkReported;
    MarkReportedRows(db.operations, id, now);
  }

  /** An unavailability record appends its observation and closes an accepted or resolved capture. */
  lemma UnavailabilityIsRecorded(db: Db, id: CaptureId, kind: Availability, now: Instant)
    requires id in db.captures
    ensures
      var c := db.captures[id];
      RecordCaptureUnavailable(db, id, kind, now) ==
      db.(captures :=
            db.captures[id := if c.status.Accepted? || c.status.Resolved? then c.(status := Unavailable) else c],
          observations := db.observations + [Observation(id, kind, now)])
  {
  }

  /** A tombstone marks the capture and appends one removal, once per user and source. */
  lemma TombstoneIsRecorded(db: Db, id: CaptureId)
    requires id in db.captures
    ensures
      var c, out := db.captures[id], TombstoneCapture(db, id);
      && (c.user, c.url) in out.removals
      && if (c.user, c.url) in db.removals then out == db
         else out == db.(captures := db.captures[id := c.(status := Tombstoned)],
                         removals := db.removals + {(c.user, c.url)}, log := db.log + [RemovalFact(id)])
    ensures TombstoneCapture(TombstoneCapture(db, id), id) == TombstoneCapture(db, id)
  {
  }

  /** The claim transaction gives each accepted capture a lease of 120 seconds and changes no other capture. */
  lemma {:induction false} ClaimLeases(db: Db, ids: seq<CaptureId>, now: Instant, c: CaptureId)
    requires c in db.captures
    ensures
      var out := Claim(db, ids, now);
      && c in out.captures
      && out.captures[c] == (if c in ids && db.captures[c].status.Accepted? then db.captures[c].(due := Some(now + 120))
                             else db.captures[c])
  {
    hide Latest, Reports, MarkReported;
    if ids == [] {
    } else {
      var front, last := ids[..|ids| - 1], ids[|ids| - 1];
      ClaimLeases(db, front, now, c);
      assert c in ids <==> c in front || c == last;
    }
  }

  /** A submitted share stores one new capture for a new user and URL, waiting for a command, and nothing otherwise. */
  lemma ShareIsStored(db: Db, user: UserId, link: string)
    ensures
      var out, canonical := SubmitLink(db, user, link), Permalink.Canonicalize(link);
      if canonical.Err? || (user, canonical.value.url) in db.byKey then out == db
      else
        var id := db.nextCapture;
        out == db.(captures := db.captures[id := Capture(user, canonical.value.url, Accepted, None, 0, false)],
                   byKey := db.byKey[(user, canonical.value.url) := id], nextCapture := id + 1)
  {
    hide Permalink.Canonicalize;
  }

  lemma {:induction false} WithoutCaptureIs(rows: seq<Operation>, id: CaptureId, row: Operation)
    ensures row in WithoutCapture(rows, id) <==> row in rows && row.capture != id
  {
    if rows == [] {
    } else {
      WithoutCaptureIs(rows[..|rows| - 1], id, row);
      assert rows == rows[..|rows| - 1] + [rows[|rows| - 1]];
    }
  }

  /** An erasure takes the capture, its key and its operations, its media row if asked, and records the removal. */
  lemma ErasureIsComplete(db: Db, id: CaptureId, dropMedia: bool, row: Operation)
    requires id in db.captures
    ensures
      var c, out := db.captures[id], EraseCapture(db, id, dropMedia);
      && (row in out.operations <==> row in db.operations && row.capture != id)
      && out == db.(captures := db.captures - {id}, byKey := db.byKey - {(c.user, c.url)}, operations := out.operations,
                    removals := db.removals + {(c.user, c.url)}, log := db.log + [RemovalFact(id)],
                    media := if dropMedia then db.media - {c.url} else db.media)
  {
    hide WithoutCapture;
    WithoutCaptureIs(db.operations, id, row);
  }

  // ---------------------------------------------------------------- the counters of a pass

  function Terminals(log: seq<Entry>): nat {
    if log == [] then 0 else Terminals(log[..|log| - 1]) + if log[|log| - 1].Terminal? then 1 else 0
  }

  lemma {:induction false} TerminalsConcat(a: seq<Entry>, b: seq<Entry>)
    ensures Terminals(a + b) == Terminals(a) + Terminals(b)
  {
    if b == [] {
      assert a + b == a;
    } else {
      assert (a + b)[..|a + b| - 1] == a + b[..|b| - 1];
      TerminalsConcat(a, b[..|b| - 1]);
    }
  }

  lemma {:induction false} AllTerminal(log: seq<Entry>)
    ensures (forall e :: e in log ==> e.Terminal?) ==> Terminals(log) == |log|
    ensures (forall e :: e in log ==> !e.Terminal?) ==> Terminals(log) == 0
  {
    if log == [] {
    } else {
      AllTerminal(log[..|log| - 1]);
    }
  }

  /** The same captures under the same links. */
  predicate SameUrls(a: Db, b: Db) {
    a.captures.Keys == b.captures.Keys && forall id :: id in a.captures ==> a.captures[id].url == b.captures[id].url
  }

  lemma ReportAppends(db: Db, id: CaptureId, now: Instant)
    ensures
      var out := ReportPending(db, id, now);
      Terminals(out.log) == Terminals(db.log) + ReportCount(db, id) && SameUrls(db, out)
  {
    hide Latest, Reports, MarkReported, Terminals;
    match Conclusion(db, id)
    case None =>
    case Some(verdict) =>
      ReportsAreTerminal(db.operations, id, verdict);
      AllTerminal(Reports(db.operations, id, verdict));
      TerminalsConcat(db.log, Reports(db.operations, id, verdict));
  }

  lemma FactAppends(log: seq<Entry>, e: Entry)
    requires !e.Terminal?
    ensures Terminals(log + [e]) == Terminals(log) && Terminals(log + []) == Terminals(log)
  {
    hide Terminals;
    AllTerminal([e]);
    TerminalsConcat(log, [e]);
    assert log + [] == log;
  }

  lemma ResolveAppendsFacts(policy: Policy, db: Db, flight: Flight, outcome: SurfaceOutcome, now: Instant)
    ensures
      var out := Resolve(policy, db, flight, outcome, now);
      Terminals(out.log) == Terminals(db.log) && SameUrls(db, out)
  {
    hide Terminals, FactsOf, Permalink.Canonicalize, RetryDelay;
    FactAppends(db.log, CapturedFact(flight.capture));
    FactAppends(db.log, UpdatedFact(flight.capture));
  }

  lemma {:induction false} ClaimAppends(db: Db, ids: seq<CaptureId>, now: Instant)
    ensures
      var out := Claim(db, ids, now);
      Terminals(out.log) == Terminals(db.log) + ClaimReports(db, ids, now) && SameUrls(db, out)
    ensures forall c :: c in db.captures ==> Claim(db, ids, now).captures[c].status == db.captures[c].status
  {
    hide Terminals, ReportCount, ReportPending;
    if ids == [] {
    } else {
      var front, last := ids[..|ids| - 1], ids[|ids| - 1];
      ClaimAppends(db, front, now);
      ReportAppends(Claim(db, front, now), last, now);
      ReportKeepsCaptures(Claim(db, front, now), last, now);
    }
  }

  lemma ReportKeepsCaptures(db: Db, id: CaptureId, now: Instant)
    ensures ReportPending(db, id, now).captures == db.captures
  {
    hide Latest, Reports, MarkReported;
  }

  function Unanswered(answers: seq<Answer>): nat {
    if answers == [] then 0
    else Unanswered(answers[..|answers| - 1]) + if answers[|answers| - 1].Answered? then 0 else 1
  }

  /** The answered leases with a transient answer and attempts left. */
  function TriedAgain(policy: Policy, flights: seq<Flight>, answers: seq<Answer>): nat
    requires |answers| == |flights|
    decreases |flights|
  {
    if flights == [] then 0
    else
      var last := |flights| - 1;
      TriedAgain(policy, flights[..last], answers[..last])
      + if answers[last].Answered?
        && (answers[last].outcome.SurfaceTemporarilyUnavailable? || answers[last].outcome.TransportFailure?)
        && flights[last].attempts + 1 < policy.maxAttempts then 1 else 0
  }

  ghost predicate AllMap(db: Db) {
    forall id :: id in db.captures ==> Permalink.Canonicalize(db.captures[id].url).Ok?
  }

  lemma {:induction false} FlightsCount(policy: Policy, t: Tally, flights: seq<Flight>, answers: seq<Answer>,
                                        now: Instant)
    requires |answers| == |flights| && AllMap(t.db)
    requires forall k :: 0 <= k < |flights| ==> flights[k].capture in t.db.captures
    ensures
      var out := FlownAll(policy, t, flights, answers, now);
      && out.reported + Terminals(t.db.log) == t.reported + Terminals(out.db.log)
      && out.failed == t.failed + Unanswered(answers)
      && out.fetched + out.failed == t.fetched + t.failed + |answers|
      && out.retried == t.retried + TriedAgain(policy, flights, answers)
      && SameUrls(t.db, out.db)
    decreases |flights|
  {
    hide Terminals, ReportCount, ReportPending, Resolve, Permalink.Canonicalize;
    if flights == [] {
    } else {
      var last := |flights| - 1;
      FlightsCount(policy, t, flights[..last], answers[..last], now);
      var before := FlownAll(policy, t, flights[..last], answers[..last], now);
      if !answers[last].Lost? {
        ResolveAppendsFacts(policy, before.db, flights[last], answers[last].outcome, now);
        var resolved := Resolve(policy, before.db, flights[last], answers[last].outcome, now);
        ReportAppends(resolved, flights[last].capture, now);
      }
    }
  }

  /**
   The summary of a pass: the reports it counts are exactly the terminal reports it appended, every leased
   capture was fetched or failed, and the retries are the transient answers with attempts left.
   */
  lemma PassCounts(policy: Policy, db: Db, ids: seq<CaptureId>, answers: seq<Answer>, now: Instant)
    requires Inv(policy, db) && |answers| == |Leased(db, ids)|
    ensures
      var t := FlownAll(policy, ClaimTally(db, ids, now), Leased(db, ids), answers, now);
      && t.reported == Terminals(t.db.log) - Terminals(db.log)
      && t.failed == Unanswered(answers) && t.fetched + t.failed == |answers|
      && t.retried == TriedAgain(policy, Leased(db, ids), answers)
  {
    hide Terminals, Claim, ClaimReports, FlownAll, Leased, Inv, CaptureOk, Permalink.Canonicalize;
    hide Unanswered, TriedAgain;
    ClaimAppends(db, ids, now);
    LeasedAreStored(db, ids);
    forall id | id in db.captures ensures Permalink.Canonicalize(db.captures[id].url).Ok? {
      CaptureIsOk(policy, db, id);
      OkMaps(policy, db.captures[id], db.media);
    }
    FlightsCount(policy, ClaimTally(db, ids, now), Leased(db, ids), answers, now);
  }

  lemma OkMaps(policy: Policy, c: Capture, media: map<string, Projection>)
    requires CaptureOk(policy, c, media)
    ensures Permalink.Canonicalize(c.url).Ok?
  {
    hide Permalink.Canonicalize;
  }
}
