/**
 What holds in every history of the capture protocol: exactly-once reports, no stranded operation,
 and success only after preservation.
 */
module CaptureHistory {
  import opened Prelude
  import opened CaptureProtocol
  import Permalink

  // ---------------------------------------------------------------- reports of one command

  predicate Concerns(e: Entry, command: CommandId) {
    (e.Queued? || e.Terminal? || e.Rejected?) && e.command == command
  }

  /** Every operation report ever appended for one command, in order. */
  function Trail(log: seq<Entry>, command: CommandId): seq<Entry> {
    if log == [] then []
    else
      var last := log[|log| - 1];
      Trail(log[..|log| - 1], command) + (if Concerns(last, command) then [last] else [])
  }

  /** One queued report first, then one terminal report exactly when the row says so. */
  predicate ReportedOnce(row: Operation, trail: seq<Entry>) {
    && |trail| == (if row.reported.Some? then 2 else 1)
    && trail[0] == Queued(row.id, row.command, row.capture)
    && (|trail| == 2 ==> trail[1].Terminal? && trail[1].operation == row.id && trail[1].capture == row.capture)
  }

  /** No command ever collects more than a rejection, or a queued report and one terminal report. */
  predicate AtMostOnce(trail: seq<Entry>) {
    || trail == []
    || (|trail| == 1 && (trail[0].Rejected? || trail[0].Queued?))
    || (|trail| == 2 && trail[0].Queued? && trail[1].Terminal?)
  }

  lemma {:induction false} TrailConcat(a: seq<Entry>, b: seq<Entry>, command: CommandId)
    ensures Trail(a + b, command) == Trail(a, command) + Trail(b, command)
    decreases |b|
  {
    if b == [] {
      assert a + b == a;
    } else {
      assert (a + b)[..|a + b| - 1] == a + b[..|b| - 1];
      TrailConcat(a, b[..|b| - 1], command);
    }
  }

  lemma {:induction false} FactsConcat(a: seq<Entry>, b: seq<Entry>, id: CaptureId)
    ensures FactsOf(a + b, id) == FactsOf(a, id) + FactsOf(b, id)
    decreases |b|
  {
    if b == [] {
      assert a + b == a;
    } else {
      assert (a + b)[..|a + b| - 1] == a + b[..|b| - 1];
      FactsConcat(a, b[..|b| - 1], id);
    }
  }

  // ---------------------------------------------------------------- invariant

  predicate Distinct(rows: seq<Operation>) {
    forall i, j :: 0 <= i < j < |rows| ==> rows[i].id != rows[j].id && rows[i].command != rows[j].command
  }

  ghost predicate RowsOk(rows: seq<Operation>, captures: map<CaptureId, Capture>, inbox: set<CommandId>) {
    && Distinct(rows)
    && (forall i :: 0 <= i < |rows| ==>
          && rows[i].command in inbox
          && rows[i].capture in captures
          && rows[i].user == captures[rows[i].capture].user)
  }

  ghost predicate ReportsOk(rows: seq<Operation>, inbox: set<CommandId>, log: seq<Entry>) {
    && (forall i :: 0 <= i < |rows| ==> ReportedOnce(rows[i], Trail(log, rows[i].command)))
    && (forall c: CommandId :: AtMostOnce(Trail(log, c)))
    && (forall c: CommandId :: c !in inbox ==> Trail(log, c) == [])
  }

  /** The capture of an unreported operation is concluded, or accepted with a stored due instant. */
  ghost predicate NotStranded(rows: seq<Operation>, captures: map<CaptureId, Capture>) {
    forall i :: 0 <= i < |rows| && rows[i].reported.None? && rows[i].capture in captures ==>
      var c := captures[rows[i].capture];
      c.status.Accepted? ==> c.due.Some?
  }

  predicate FixedPoint(url: string) {
    Permalink.Canonicalize(url).Ok? && Permalink.Canonicalize(url).value.url == url
  }

  predicate CaptureOk(policy: Policy, c: Capture, media: map<string, Projection>) {
    && FixedPoint(c.url)
    && c.attempts < policy.maxAttempts
    && (c.linked ==> c.url in media)
    && (c.status.Resolved? ==> c.linked)
  }

  predicate OneCapturedFirst(facts: seq<Entry>) {
    && (|facts| > 0 ==> facts[0].CapturedFact?)
    && (forall k :: 0 < k < |facts| ==> facts[k].UpdatedFact?)
  }

  ghost predicate FactsOk(captures: map<CaptureId, Capture>, next: CaptureId, log: seq<Entry>) {
    && (forall id: CaptureId :: OneCapturedFirst(FactsOf(log, id)))
    && (forall id: CaptureId :: id >= next ==> FactsOf(log, id) == [])
    && (forall id :: id in captures && captures[id].linked ==> FactsOf(log, id) != [])
  }

  /** Every succeeded report in the log stands after the captured fact of its capture. */
  ghost predicate SuccessAfterCapture(log: seq<Entry>) {
    forall i :: 0 <= i < |log| && log[i].Terminal? && log[i].verdict.Preserved? ==>
      exists j :: 0 <= j < i && log[j] == CapturedFact(log[i].capture)
  }

  ghost predicate Inv(policy: Policy, db: Db) {
    && policy.maxAttempts >= 1
    && Indexed(db)
    && RowsOk(db.operations, db.captures, db.inbox)
    && ReportsOk(db.operations, db.inbox, db.log)
    && NotStranded(db.operations, db.captures)
    && (forall c :: c in db.captures ==> CaptureOk(policy, db.captures[c], db.media))
    && FactsOk(db.captures, db.nextCapture, db.log)
    && SuccessAfterCapture(db.log)
  }

  predicate Empty(db: Db) {
    db == Db(map[], map[], 0, [], {}, [], {}, map[], [])
  }

  // ---------------------------------------------------------------- single updates

  lemma TrailAppend(log: seq<Entry>, e: Entry, c: CommandId)
    ensures Trail(log + [e], c) == Trail(log, c) + if Concerns(e, c) then [e] else []
  {
    assert (log + [e])[..|log|] == log;
  }

  lemma FactsAppend(log: seq<Entry>, e: Entry, id: CaptureId)
    ensures FactsOf(log + [e], id) ==
            FactsOf(log, id) + if (e.CapturedFact? || e.UpdatedFact?) && e.capture == id then [e] else []
  {
    assert (log + [e])[..|log|] == log;
  }

  /** An entry that concerns no command leaves the reports alone. */
  lemma QuietReports(rows: seq<Operation>, inbox: set<CommandId>, log: seq<Entry>, e: Entry)
    requires ReportsOk(rows, inbox, log) && !e.Queued? && !e.Terminal? && !e.Rejected?
    ensures ReportsOk(rows, inbox, log + [e])
  {
    hide Trail, AtMostOnce, ReportedOnce;
    forall c: CommandId ensures Trail(log + [e], c) == Trail(log, c) { TrailAppend(log, e, c); }
  }

  /** An entry that is no fact leaves the facts alone. */
  lemma QuietFacts(captures: map<CaptureId, Capture>, next: CaptureId, log: seq<Entry>, e: Entry)
    requires FactsOk(captures, next, log) && !e.CapturedFact? && !e.UpdatedFact?
    ensures FactsOk(captures, next, log + [e])
  {
    hide FactsOf, OneCapturedFirst;
    forall id: CaptureId ensures FactsOf(log + [e], id) == FactsOf(log, id) { FactsAppend(log, e, id); }
  }

  lemma NewFact(captures: map<CaptureId, Capture>, next: CaptureId, log: seq<Entry>, e: Entry)
    requires FactsOk(captures, next, log)
    requires || (e.CapturedFact? && FactsOf(log, e.capture) == [] && e.capture < next)
             || (e.UpdatedFact? && FactsOf(log, e.capture) != [])
    ensures FactsOk(captures, next, log + [e])
  {
    hide FactsOf;
    forall id: CaptureId
      ensures FactsOf(log + [e], id) == FactsOf(log, id) + if e.capture == id then [e] else []
    {
      FactsAppend(log, e, id);
    }
    assert OneCapturedFirst(FactsOf(log, e.capture));
  }

  lemma UpdateIndexed(db: Db, id: CaptureId, c: Capture)
    requires Indexed(db) && id in db.captures
    requires c.user == db.captures[id].user && c.url == db.captures[id].url
    ensures Indexed(db.(captures := db.captures[id := c]))
  {
  }

  lemma CaptureUpdateKeeps(policy: Policy, db: Db, id: CaptureId, c: Capture)
    requires Inv(policy, db) && id in db.captures
    requires c.user == db.captures[id].user && c.url == db.captures[id].url
    requires CaptureOk(policy, c, db.media)
    requires c.status.Accepted? ==>
               c.due.Some? || forall i :: 0 <= i < |db.operations| ==> !Pending(db.operations[i], id)
    requires c.linked ==> FactsOf(db.log, id) != []
    ensures Inv(policy, db.(captures := db.captures[id := c]))
  {
    hide Permalink.Canonicalize, Trail, FactsOf, ReportsOk, SuccessAfterCapture, Indexed, CaptureOk, RowsOk,
         FactsOk, NotStranded;
    UpdateIndexed(db, id, c);
    UpdateRows(db.operations, db.captures, db.inbox, id, c);
    UpdateStranded(db.operations, db.captures, id, c);
    UpdateFacts(db.captures, db.nextCapture, db.log, id, c);
  }

  lemma UpdateRows(rows: seq<Operation>, captures: map<CaptureId, Capture>, inbox: set<CommandId>, id: CaptureId,
                   c: Capture)
    requires RowsOk(rows, captures, inbox) && (id in captures ==> c.user == captures[id].user)
    ensures RowsOk(rows, captures[id := c], inbox)
  {
    hide Distinct;
  }

  lemma UpdateStranded(rows: seq<Operation>, captures: map<CaptureId, Capture>, id: CaptureId, c: Capture)
    requires NotStranded(rows, captures)
    requires c.status.Accepted? ==> c.due.Some? || forall i :: 0 <= i < |rows| ==> !Pending(rows[i], id)
    ensures NotStranded(rows, captures[id := c])
  {
  }

  lemma UpdateFacts(captures: map<CaptureId, Capture>, next: CaptureId, log: seq<Entry>, id: CaptureId, c: Capture)
    requires FactsOk(captures, next, log) && (c.linked ==> FactsOf(log, id) != [])
    ensures FactsOk(captures[id := c], next, log)
  {
    hide FactsOf, OneCapturedFirst;
  }

  /** A fact or a removal concerns no command. */
  lemma FactAppendKeeps(policy: Policy, db: Db, e: Entry)
    requires Inv(policy, db)
    requires || (e.CapturedFact? && FactsOf(db.log, e.capture) == [] && e.capture < db.nextCapture)
             || (e.UpdatedFact? && FactsOf(db.log, e.capture) != [])
             || e.RemovalFact?
    ensures Inv(policy, db.(log := db.log + [e]))
  {
    hide Trail, FactsOf, RowsOk, ReportsOk, NotStranded, CaptureOk, FactsOk, SuccessAfterCapture;
    QuietReports(db.operations, db.inbox, db.log, e);
    if e.RemovalFact? {
      QuietFacts(db.captures, db.nextCapture, db.log, e);
    } else {
      NewFact(db.captures, db.nextCapture, db.log, e);
    }
    SuccessAppend(db.log, [e]);
  }

  lemma SuccessAppend(log: seq<Entry>, more: seq<Entry>)
    requires SuccessAfterCapture(log)
    requires forall k :: 0 <= k < |more| && more[k].Terminal? && more[k].verdict.Preserved? ==>
               exists j :: 0 <= j < |log| && log[j] == CapturedFact(more[k].capture)
    ensures SuccessAfterCapture(log + more)
  {
    var all := log + more;
    forall i | 0 <= i < |all| && all[i].Terminal? && all[i].verdict.Preserved?
      ensures exists j :: 0 <= j < i && all[j] == CapturedFact(all[i].capture)
    {
      if i < |log| {
        var j :| 0 <= j < i && log[j] == CapturedFact(log[i].capture);
        assert all[j] == log[j];
      } else {
        assert all[i] == more[i - |log|];
        var j :| 0 <= j < |log| && log[j] == CapturedFact(more[i - |log|].capture);
        assert all[j] == log[j];
      }
    }
  }

  lemma MediaUpdateKeeps(policy: Policy, db: Db, url: string, projection: Projection)
    requires Inv(policy, db)
    ensures Inv(policy, db.(media := db.media[url := projection]))
  {
    hide Permalink.Canonicalize, Trail, FactsOf;
  }

  // ---------------------------------------------------------------- reporting

  lemma {:induction false} MarkReportedRows(rows: seq<Operation>, id: CaptureId, now: Instant)
    ensures |MarkReported(rows, id, now)| == |rows|
    ensures forall i :: 0 <= i < |rows| ==>
              MarkReported(rows, id, now)[i] == if Pending(rows[i], id) then rows[i].(reported := Some(now))
                else rows[i]
  {
    if rows == [] {
    } else {
      MarkReportedRows(rows[..|rows| - 1], id, now);
    }
  }

  /** With distinct commands, a command's share of the reports is the one of its pending row. */
  lemma {:induction false} ReportsTrail(rows: seq<Operation>, id: CaptureId, verdict: Verdict, command: CommandId)
    requires Distinct(rows)
    ensures forall i :: 0 <= i < |rows| && rows[i].command == command ==>
              Trail(Reports(rows, id, verdict), command) ==
              if Pending(rows[i], id) then [Terminal(rows[i].id, command, id, verdict)] else []
    ensures (forall i :: 0 <= i < |rows| ==> rows[i].command != command) ==>
            Trail(Reports(rows, id, verdict), command) == []
  {
    if rows == [] {
    } else {
      var front, last := rows[..|rows| - 1], rows[|rows| - 1];
      ReportsTrail(front, id, verdict, command);
      var tail := if Pending(last, id) then [Terminal(last.id, last.command, id, verdict)] else [];
      TrailConcat(Reports(front, id, verdict), tail, command);
      assert tail != [] ==> tail[..0] == [];
      assert forall i :: 0 <= i < |front| ==> front[i] == rows[i];
    }
  }

  lemma {:induction false} ReportsAreTerminal(rows: seq<Operation>, id: CaptureId, verdict: Verdict)
    ensures forall e :: e in Reports(rows, id, verdict) ==> e.Terminal? && e.capture == id && e.verdict == verdict
  {
    if rows == [] {
    } else {
      ReportsAreTerminal(rows[..|rows| - 1], id, verdict);
    }
  }

  lemma {:induction false} NoFacts(log: seq<Entry>, id: CaptureId)
    requires forall e :: e in log ==> e.Terminal?
    ensures FactsOf(log, id) == []
  {
    if log == [] {
    } else {
      assert log[|log| - 1] in log;
      NoFacts(log[..|log| - 1], id);
    }
  }

  lemma {:induction false} FactInLog(log: seq<Entry>, id: CaptureId)
    requires FactsOf(log, id) != []
    ensures exists j :: 0 <= j < |log| && log[j] == FactsOf(log, id)[0]
    ensures FactsOf(log, id)[0].CapturedFact? ==> FactsOf(log, id)[0] == CapturedFact(id)
  {
    var front, last := log[..|log| - 1], log[|log| - 1];
    if FactsOf(front, id) != [] {
      FactInLog(front, id);
      var j :| 0 <= j < |front| && front[j] == FactsOf(front, id)[0];
      assert log[j] == front[j];
    }
  }

  lemma ReportRowsKeep(rows: seq<Operation>, inbox: set<CommandId>, log: seq<Entry>, id: CaptureId, verdict: Verdict,
                       now: Instant)
    requires Distinct(rows) && ReportsOk(rows, inbox, log)
    requires forall i :: 0 <= i < |rows| ==> rows[i].command in inbox
    ensures ReportsOk(MarkReported(rows, id, now), inbox, log + Reports(rows, id, verdict))
  {
    var rows', more := MarkReported(rows, id, now), Reports(rows, id, verdict);
    MarkReportedRows(rows, id, now);
    hide MarkReported, Reports, Trail;
    forall c: CommandId
      ensures Trail(log + more, c) == Trail(log, c) + Trail(more, c)
      ensures (forall i :: 0 <= i < |rows| ==> rows[i].command != c) ==> Trail(more, c) == []
      ensures AtMostOnce(Trail(log + more, c))
    {
      TrailConcat(log, more, c);
      ReportsTrail(rows, id, verdict, c);
      if i :| 0 <= i < |rows| && rows[i].command == c { assert ReportedOnce(rows[i], Trail(log, rows[i].command)); }
    }
    forall i | 0 <= i < |rows|
      ensures ReportedOnce(rows'[i], Trail(log + more, rows'[i].command))
    {
      ReportsTrail(rows, id, verdict, rows[i].command);
      assert ReportedOnce(rows[i], Trail(log, rows[i].command));
    }
  }

  lemma ReportPendingKeeps(policy: Policy, db: Db, id: CaptureId, now: Instant)
    requires Inv(policy, db)
    ensures Inv(policy, ReportPending(db, id, now))
  {
    hide Permalink.Canonicalize, FixedPoint, Trail, FactsOf, MarkReported, Reports, Latest;
    if Conclusion(db, id).Some? {
      var verdict := Conclusion(db, id).value;
      var more := Reports(db.operations, id, verdict);
      MarkReportedRows(db.operations, id, now);
      ReportRowsKeep(db.operations, db.inbox, db.log, id, verdict, now);
      ReportsAreTerminal(db.operations, id, verdict);
      forall other: CaptureId
        ensures FactsOf(db.log + more, other) == FactsOf(db.log, other)
      {
        FactsConcat(db.log, more, other);
        NoFacts(more, other);
      }
      if verdict.Preserved? { FactInLog(db.log, id); }
      SuccessAppend(db.log, more);
    }
  }

  lemma ClaimOneKeeps(policy: Policy, db: Db, id: CaptureId, now: Instant)
    requires Inv(policy, db)
    ensures Inv(policy, ClaimOne(db, id, now))
  {
    if id in db.captures && db.captures[id].status.Accepted? {
      CaptureUpdateKeeps(policy, db, id, db.captures[id].(due := Some(now + LEASE)));
    } else {
      ReportPendingKeeps(policy, db, id, now);
    }
  }

  lemma {:induction false} ClaimKeeps(policy: Policy, db: Db, ids: seq<CaptureId>, now: Instant)
    requires Inv(policy, db)
    ensures Inv(policy, Claim(db, ids, now))
  {
    if ids == [] {
    } else {
      ClaimKeeps(policy, db, ids[..|ids| - 1], now);
      ClaimOneKeeps(policy, Claim(db, ids[..|ids| - 1], now), ids[|ids| - 1], now);
    }
  }

  // ---------------------------------------------------------------- resolving

  lemma StoreResolutionKeeps(policy: Policy, db: Db, id: CaptureId, projection: Projection, now: Instant)
    requires Inv(policy, db)
    ensures Inv(policy, StoreResolution(db, id, projection, now))
  {
    hide Permalink.Canonicalize, Trail, FactsOf, FixedPoint;
    if id in db.captures {
      var c := db.captures[id];
      var hasFact := FactsOf(db.log, id) != [];
      var after := StoreResolution(db, id, projection, now);
      var published := db;
      if after.log != db.log {
        var e := if hasFact then UpdatedFact(id) else CapturedFact(id);
        FactAppendKeeps(policy, db, e);
        FactAppended(db.log, e, id);
        published := db.(log := db.log + [e]);
      }
      if after != db {
        MediaUpdateKeeps(policy, published, c.url, projection);
        var stored := published.(media := db.media[c.url := projection]);
        CaptureUpdateKeeps(policy, stored, id, after.captures[id]);
        ObservationsIrrelevant(policy, stored.(captures := after.captures), after);
      }
    }
  }

  lemma FactAppended(log: seq<Entry>, e: Entry, id: CaptureId)
    requires e == UpdatedFact(id) || e == CapturedFact(id)
    ensures FactsOf(log + [e], id) == FactsOf(log, id) + [e]
  {
    assert (log + [e])[..|log|] == log;
  }

  lemma ObservationsIrrelevant(policy: Policy, a: Db, b: Db)
    requires Inv(policy, a) && b == a.(observations := b.observations, removals := b.removals)
    ensures Inv(policy, b)
  {
    hide Permalink.Canonicalize, Trail, FactsOf;
  }

  lemma RecordFailedKeeps(policy: Policy, db: Db, id: CaptureId, kind: Availability, now: Instant)
    requires Inv(policy, db)
    ensures Inv(policy, RecordFailedResolution(db, id, kind, now))
  {
    hide Permalink.Canonicalize, Trail, FactsOf, FixedPoint;
    if id in db.captures {
      var c := db.captures[id];
      CaptureUpdateKeeps(policy, db, id, MadeUnavailable(c));
      var concluded := db.(captures := db.captures[id := MadeUnavailable(c)]);
      var after := RecordFailedResolution(db, id, kind, now);
      if kind.Deleted? && c.linked {
        MediaUpdateKeeps(policy, concluded, c.url, db.media[c.url].(deletedUpstream := true));
        concluded := concluded.(media := db.media[c.url := db.media[c.url].(deletedUpstream := true)]);
        FactAppendKeeps(policy, concluded, UpdatedFact(id));
        concluded := concluded.(log := db.log + [UpdatedFact(id)]);
      }
      ObservationsIrrelevant(policy, concluded, after);
    }
  }

  lemma ApplyOutcomeKeeps(policy: Policy, db: Db, id: CaptureId, kind: Permalink.Kind, outcome: SurfaceOutcome,
                          now: Instant)
    requires Inv(policy, db)
    ensures Inv(policy, ApplyOutcome(db, id, kind, outcome, now))
  {
    hide Inv, StoreResolution, RecordFailedResolution;
    match outcome
    case Payload(Some(caption)) => StoreResolutionKeeps(policy, db, id, Projection(kind, caption, false), now);
    case Payload(None) => RecordFailedKeeps(policy, db, id, ResolutionFailed, now);
    case _ => RecordFailedKeeps(policy, db, id, ObservationKind(outcome), now);
  }

  lemma RescheduleKeeps(policy: Policy, db: Db, id: CaptureId, attempt: nat, now: Instant)
    requires Inv(policy, db) && attempt < policy.maxAttempts
    ensures Inv(policy, Reschedule(db, id, attempt, now))
  {
    hide Permalink.Canonicalize, Trail, FactsOf, FixedPoint, RetryDelay, Indexed, RowsOk, ReportsOk, NotStranded,
         SuccessAfterCapture;
    if id in db.captures {
      CaptureUpdateKeeps(policy, db, id,
                         db.captures[id].(attempts := attempt, due := Some(now + RetryDelay(attempt))));
    }
  }

  lemma ResolveKeeps(policy: Policy, db: Db, flight: Flight, outcome: SurfaceOutcome, now: Instant)
    requires Inv(policy, db)
    ensures Inv(policy, Resolve(policy, db, flight, outcome, now))
  {
    hide Permalink.Canonicalize, Inv, RecordFailedResolution, Reschedule, ApplyOutcome;
    if flight.capture in db.captures {
      match Permalink.Canonicalize(db.captures[flight.capture].url)
      case Err(_) => RecordFailedKeeps(policy, db, flight.capture, ResolutionFailed, now);
      case Ok(c) =>
        if Retries(policy, flight, outcome) {
          RescheduleKeeps(policy, db, flight.capture, flight.attempts + 1, now);
        } else {
          ApplyOutcomeKeeps(policy, db, flight.capture, c.kind,
                            if IsTransient(outcome) then SurfaceTemporarilyUnavailable else outcome, now);
        }
    }
  }

  // ---------------------------------------------------------------- other lanes

  lemma UnavailableKeeps(policy: Policy, db: Db, id: CaptureId, kind: Availability, now: Instant)
    requires Inv(policy, db)
    ensures Inv(policy, RecordCaptureUnavailable(db, id, kind, now))
  {
    hide Permalink.Canonicalize, Trail, FactsOf, FixedPoint;
    if id in db.captures {
      CaptureUpdateKeeps(policy, db, id, MadeUnavailable(db.captures[id]));
      ObservationsIrrelevant(policy, db.(captures := db.captures[id := MadeUnavailable(db.captures[id])]),
                             RecordCaptureUnavailable(db, id, kind, now));
    }
  }

  lemma TombstoneKeeps(policy: Policy, db: Db, id: CaptureId)
    requires Inv(policy, db)
    ensures Inv(policy, TombstoneCapture(db, id))
  {
    hide Permalink.Canonicalize, Trail, FactsOf, FixedPoint;
    if id in db.captures && (db.captures[id].user, db.captures[id].url) !in db.removals {
      var c := db.captures[id].(status := Tombstoned);
      CaptureUpdateKeeps(policy, db, id, c);
      var marked := db.(captures := db.captures[id := c]);
      FactAppendKeeps(policy, marked, RemovalFact(id));
      ObservationsIrrelevant(policy, marked.(log := db.log + [RemovalFact(id)]), TombstoneCapture(db, id));
    }
  }

  lemma {:induction false} WithoutCaptureRows(rows: seq<Operation>, id: CaptureId)
    ensures forall i :: 0 <= i < |WithoutCapture(rows, id)| ==>
              WithoutCapture(rows, id)[i] in rows && WithoutCapture(rows, id)[i].capture != id
    ensures Distinct(rows) ==> Distinct(WithoutCapture(rows, id))
  {
    if rows == [] {
    } else {
      var front, last := rows[..|rows| - 1], rows[|rows| - 1];
      WithoutCaptureRows(front, id);
      assert forall row :: row in front ==> row in rows;
      if Distinct(rows) {
        assert Distinct(front);
        assert forall row :: row in front ==> row.id != last.id && row.command != last.command;
      }
    }
  }

  /** No surviving capture is linked to the media row that an erasure drops. */
  predicate MediaFree(db: Db, id: CaptureId) {
    id in db.captures ==>
      forall c :: c in db.captures && c != id && db.captures[c].linked ==> db.captures[c].url != db.captures[id].url
  }

  lemma EraseIndexed(db: Db, id: CaptureId, dropMedia: bool)
    requires Indexed(db)
    ensures Indexed(EraseCapture(db, id, dropMedia))
  {
    hide WithoutCapture;
  }

  lemma EraseKeeps(policy: Policy, db: Db, id: CaptureId, dropMedia: bool)
    requires Inv(policy, db) && (dropMedia ==> MediaFree(db, id))
    ensures Inv(policy, EraseCapture(db, id, dropMedia))
  {
    hide Permalink.Canonicalize, Trail, FactsOf, ReportsOk, SuccessAfterCapture, FixedPoint, WithoutCapture,
         Indexed, FactsOk,
         RowsOk, NotStranded;
    if id in db.captures {
      FactAppendKeeps(policy, db, RemovalFact(id));
      EraseIndexed(db, id, dropMedia);
      EraseRows(db.operations, db.captures, db.inbox, db.log + [RemovalFact(id)], id);
      EraseFacts(db.captures, db.nextCapture, db.log + [RemovalFact(id)], id);
    }
  }

  lemma EraseRows(rows: seq<Operation>, captures: map<CaptureId, Capture>, inbox: set<CommandId>, log: seq<Entry>,
                  id: CaptureId)
    requires RowsOk(rows, captures, inbox) && ReportsOk(rows, inbox, log) && NotStranded(rows, captures)
    ensures RowsOk(WithoutCapture(rows, id), captures - {id}, inbox)
    ensures ReportsOk(WithoutCapture(rows, id), inbox, log)
    ensures NotStranded(WithoutCapture(rows, id), captures - {id})
  {
    WithoutCaptureRows(rows, id);
    hide WithoutCapture, Trail, Distinct, ReportedOnce, AtMostOnce;
    var left := WithoutCapture(rows, id);
    forall i | 0 <= i < |left| ensures exists k :: 0 <= k < |rows| && rows[k] == left[i] {
      assert left[i] in rows;
    }
  }

  lemma EraseFacts(captures: map<CaptureId, Capture>, next: CaptureId, log: seq<Entry>, id: CaptureId)
    requires FactsOk(captures, next, log)
    ensures FactsOk(captures - {id}, next, log)
  {
    hide FactsOf, OneCapturedFirst;
  }

  // ---------------------------------------------------------------- ingestion

  lemma SubmitIndexed(db: Db, user: UserId, url: string)
    requires Indexed(db)
    ensures Indexed(Submit(db, user, url))
    ensures SubmittedId(db, user, url) in Submit(db, user, url).captures
    ensures Submit(db, user, url).captures[SubmittedId(db, user, url)].user == user
  {
  }

  lemma SubmitKeeps(policy: Policy, db: Db, user: UserId, url: string)
    requires Inv(policy, db) && FixedPoint(url)
    ensures Inv(policy, Submit(db, user, url))
    ensures SubmittedId(db, user, url) in Submit(db, user, url).captures
    ensures Submit(db, user, url).captures[SubmittedId(db, user, url)].user == user
  {
    hide Permalink.Canonicalize, Trail, FactsOf, FixedPoint, Indexed, ReportsOk, SuccessAfterCapture, NotStranded,
         RowsOk, FactsOk;
    SubmitIndexed(db, user, url);
    if (user, url) !in db.byKey {
      var id, c := db.nextCapture, Capture(user, url, Accepted, None, 0, false);
      NextIsNew(db);
      UpdateRows(db.operations, db.captures, db.inbox, id, c);
      UpdateStranded(db.operations, db.captures, id, c);
      UpdateFacts(db.captures, db.nextCapture, db.log, id, c);
      NextFacts(db.captures[id := c], db.nextCapture, db.log);
      assert CaptureOk(policy, c, db.media);
    }
  }

  lemma NextIsNew(db: Db)
    requires Indexed(db) && RowsOk(db.operations, db.captures, db.inbox)
    ensures db.nextCapture !in db.captures
    ensures forall i :: 0 <= i < |db.operations| ==> !Pending(db.operations[i], db.nextCapture)
  {
    hide Distinct;
  }

  lemma NextFacts(captures: map<CaptureId, Capture>, next: CaptureId, log: seq<Entry>)
    requires FactsOk(captures, next, log)
    ensures FactsOk(captures, next + 1, log)
  {
    hide FactsOf, OneCapturedFirst;
  }

  lemma RecordOperationKeeps(policy: Policy, db: Db, cmd: Command, id: CaptureId, now: Instant)
    requires Inv(policy, db) && id in db.captures && db.captures[id].user == cmd.user && cmd.id !in db.inbox
    ensures Inv(policy, RecordOperation(db, cmd, id, now).(inbox := db.inbox + {cmd.id}))
  {
    hide Permalink.Canonicalize, Trail, FactsOf, FixedPoint;
    var due := db.(captures := db.captures[id := MadeDue(db.captures[id], now)]);
    CaptureUpdateKeeps(policy, db, id, MadeDue(db.captures[id], now));
    if OperationKnown(db.operations, cmd) {
      assert Inv(policy, due.(inbox := db.inbox + {cmd.id}));
    } else {
      QueueKeeps(policy, due, cmd, id);
    }
  }

  lemma QueueReports(rows: seq<Operation>, inbox: set<CommandId>, log: seq<Entry>, row: Operation)
    requires ReportsOk(rows, inbox, log) && row.command !in inbox && row.reported.None?
    requires forall i :: 0 <= i < |rows| ==> rows[i].command != row.command
    ensures ReportsOk(rows + [row], inbox + {row.command}, log + [Queued(row.id, row.command, row.capture)])
  {
    hide Trail;
    var e := Queued(row.id, row.command, row.capture);
    forall c: CommandId ensures Trail(log + [e], c) == Trail(log, c) + if c == row.command then [e] else [] {
      TrailAppend(log, e, c);
    }
  }

  lemma RejectReports(rows: seq<Operation>, inbox: set<CommandId>, log: seq<Entry>, e: Entry)
    requires ReportsOk(rows, inbox, log) && e.Rejected? && e.command !in inbox
    requires forall i :: 0 <= i < |rows| ==> rows[i].command != e.command
    ensures ReportsOk(rows, inbox + {e.command}, log + [e])
  {
    hide Trail;
    forall c: CommandId ensures Trail(log + [e], c) == Trail(log, c) + if c == e.command then [e] else [] {
      TrailAppend(log, e, c);
    }
  }

  lemma QueueKeeps(policy: Policy, db: Db, cmd: Command, id: CaptureId)
    requires Inv(policy, db) && id in db.captures && db.captures[id].user == cmd.user && cmd.id !in db.inbox
    requires !OperationKnown(db.operations, cmd)
    requires db.captures[id].status.Accepted? ==> db.captures[id].due.Some?
    ensures Inv(policy, db.(inbox := db.inbox + {cmd.id},
                            operations := db.operations + [Operation(cmd.operation, cmd.id, id, cmd.user, None)],
                            log := db.log + [Queued(cmd.operation, cmd.id, id)]))
  {
    hide Trail, FactsOf, ReportsOk, CaptureOk, FactsOk, SuccessAfterCapture;
    var e := Queued(cmd.operation, cmd.id, id);
    var row := Operation(cmd.operation, cmd.id, id, cmd.user, None);
    QueueReports(db.operations, db.inbox, db.log, row);
    QuietFacts(db.captures, db.nextCapture, db.log, e);
    SuccessAppend(db.log, [e]);
    assert RowsOk(db.operations + [row], db.captures, db.inbox + {cmd.id});
    assert NotStranded(db.operations + [row], db.captures);
  }

  lemma RejectKeeps(policy: Policy, db: Db, cmd: Command)
    requires Inv(policy, db) && cmd.id !in db.inbox
    ensures Inv(policy, db.(inbox := db.inbox + {cmd.id}, log := db.log + [Rejected(cmd.operation, cmd.id)]))
  {
    hide Trail, FactsOf, ReportsOk, CaptureOk, FactsOk, SuccessAfterCapture;
    var e := Rejected(cmd.operation, cmd.id);
    RejectReports(db.operations, db.inbox, db.log, e);
    QuietFacts(db.captures, db.nextCapture, db.log, e);
    SuccessAppend(db.log, [e]);
  }

  lemma IngestKeeps(policy: Policy, db: Db, cmd: Command, now: Instant)
    requires Inv(policy, db)
    ensures Inv(policy, Ingest(db, cmd, now))
  {
    hide Permalink.Canonicalize, Trail, FactsOf, RecordOperation;
    if cmd.id !in db.inbox {
      match Permalink.Canonicalize(cmd.permalink)
      case Err(_) => RejectKeeps(policy, db, cmd);
      case Ok(c) =>
        Permalink.RoundTrip(cmd.permalink);
        SubmitKeeps(policy, db, cmd.user, c.url);
        RecordOperationKeeps(policy, Submit(db, cmd.user, c.url), cmd, SubmittedId(db, cmd.user, c.url), now);
    }
  }

  // ---------------------------------------------------------------- histories

  /** The database and the leases that workers hold in memory, equal ones apart; a crash loses any of them. */
  datatype World = World(db: Db, flights: multiset<Flight>)

  datatype Event =
    | Deliver(command: Command, now: Instant)
    | SubmitShare(user: UserId, link: string)
    | ClaimBatch(ids: seq<CaptureId>, now: Instant)
    | ResolveFlight(flight: Flight, outcome: SurfaceOutcome, now: Instant)
    | ReportConcluded(capture: CaptureId, now: Instant)
    | LoseFlights(lost: multiset<Flight>)
    | ReResolve(capture: CaptureId, kind: Permalink.Kind, outcome: SurfaceOutcome, now: Instant)
    | ObserveUnavailable(capture: CaptureId, observed: Availability, now: Instant)
    | Tombstone(capture: CaptureId)
    | Erase(capture: CaptureId, dropMedia: bool)

  predicate Enabled(policy: Policy, w: World, e: Event) {
    match e
    case ClaimBatch(ids, now) =>
      && |ids| <= policy.batchSize
      && (forall k :: 0 <= k < |ids| ==> Claimable(w.db, ids[k], now))
      && (forall j, k :: 0 <= j < k < |ids| ==> ids[j] != ids[k])
    case ResolveFlight(flight, _, _) => flight in w.flights
    case ReportConcluded(id, _) => id in w.db.captures
    case Erase(id, dropMedia) => dropMedia ==> MediaFree(w.db, id)
    case _ => true
  }

  function Next(policy: Policy, w: World, e: Event): World
    requires Indexed(w.db) && Enabled(policy, w, e)
  {
    match e
    case Deliver(command, now) => w.(db := Ingest(w.db, command, now))
    case SubmitShare(user, link) => w.(db := SubmitLink(w.db, user, link))
    case ClaimBatch(ids, now) =>
      World(Claim(w.db, ids, now), w.flights + multiset(Leased(w.db, ids)))
    case ResolveFlight(flight, outcome, now) =>
      World(Resolve(policy, w.db, flight, outcome, now), w.flights - multiset{flight})
    case ReportConcluded(id, now) => w.(db := ReportPending(w.db, id, now))
    case LoseFlights(lost) => w.(flights := w.flights - lost)
    case ReResolve(id, kind, outcome, now) => w.(db := ApplyOutcome(w.db, id, kind, outcome, now))
    case ObserveUnavailable(id, observed, now) => w.(db := RecordCaptureUnavailable(w.db, id, observed, now))
    case Tombstone(id) => w.(db := TombstoneCapture(w.db, id))
    case Erase(id, dropMedia) => w.(db := EraseCapture(w.db, id, dropMedia))
  }

  lemma SubmitLinkKeeps(policy: Policy, db: Db, user: UserId, link: string)
    requires Inv(policy, db)
    ensures Inv(policy, SubmitLink(db, user, link))
  {
    hide Permalink.Canonicalize, Trail, FactsOf, Submit;
    match Permalink.Canonicalize(link)
    case Err(_) =>
    case Ok(c) =>
      Permalink.RoundTrip(link);
      SubmitKeeps(policy, db, user, c.url);
  }

  lemma StepKeeps(policy: Policy, w: World, e: Event)
    requires Inv(policy, w.db) && Enabled(policy, w, e)
    ensures Inv(policy, Next(policy, w, e).db)
  {
    hide Inv, Ingest, SubmitLink, Claim, Resolve, ReportPending, ApplyOutcome, RecordCaptureUnavailable,
         TombstoneCapture, EraseCapture;
    match e
    case Deliver(command, now) => IngestKeeps(policy, w.db, command, now);
    case SubmitShare(user, link) => SubmitLinkKeeps(policy, w.db, user, link);
    case ClaimBatch(ids, now) => ClaimKeeps(policy, w.db, ids, now);
    case ResolveFlight(flight, outcome, now) => ResolveKeeps(policy, w.db, flight, outcome, now);
    case ReportConcluded(id, now) => ReportPendingKeeps(policy, w.db, id, now);
    case LoseFlights(_) =>
    case ReResolve(id, kind, outcome, now) => ApplyOutcomeKeeps(policy, w.db, id, kind, outcome, now);
    case ObserveUnavailable(id, observed, now) => UnavailableKeeps(policy, w.db, id, observed, now);
    case Tombstone(id) => TombstoneKeeps(policy, w.db, id);
    case Erase(id, dropMedia) => EraseKeeps(policy, w.db, id, dropMedia);
  }

  predicate History(policy: Policy, w: World, events: seq<Event>)
    decreases |events|
  {
    Indexed(w.db) &&
    (events == [] || (Enabled(policy, w, events[0]) && History(policy, Next(policy, w, events[0]), events[1..])))
  }

  function After(policy: Policy, w: World, events: seq<Event>): World
    requires History(policy, w, events)
    decreases |events|
  {
    if events == [] then w else After(policy, Next(policy, w, events[0]), events[1..])
  }

  lemma {:induction false} HistoryKeeps(policy: Policy, w: World, events: seq<Event>)
    requires Inv(policy, w.db) && History(policy, w, events)
    ensures Inv(policy, After(policy, w, events).db)
    decreases |events|
  {
    hide Inv, Next, Enabled;
    if events == [] {
    } else {
      StepKeeps(policy, w, events[0]);
      HistoryKeeps(policy, Next(policy, w, events[0]), events[1..]);
    }
  }

  /** A sequence of worlds linked by events is a history. */
  lemma {:induction false} Chain(policy: Policy, worlds: seq<World>, events: seq<Event>)
    requires |worlds| == |events| + 1 && forall i :: 0 <= i <= |events| ==> Indexed(worlds[i].db)
    requires forall i :: 0 <= i < |events| ==>
               Enabled(policy, worlds[i], events[i]) && Next(policy, worlds[i], events[i]) == worlds[i + 1]
    ensures History(policy, worlds[0], events) && After(policy, worlds[0], events) == worlds[|events|]
    decreases |events|
  {
    hide Enabled, Next, Indexed;
    if events == [] {
    } else {
      Chain(policy, worlds[1..], events[1..]);
    }
  }

  lemma {:induction false} HistoryJoin(policy: Policy, w: World, a: seq<Event>, b: seq<Event>)
    requires History(policy, w, a) && History(policy, After(policy, w, a), b)
    ensures History(policy, w, a + b) && After(policy, w, a + b) == After(policy, After(policy, w, a), b)
    decreases |a|
  {
    hide Enabled, Next, Indexed;
    if a == [] {
      assert a + b == b;
    } else {
      assert (a + b)[1..] == a[1..] + b && (a + b)[0] == a[0];
      HistoryJoin(policy, Next(policy, w, a[0]), a[1..], b);
    }
  }

  lemma {:induction false} EmptyLogHasNothing()
    ensures forall c: CommandId :: Trail([], c) == []
    ensures forall id: CaptureId :: FactsOf([], id) == []
  {
  }

  lemma EmptyInv(policy: Policy, db: Db)
    requires policy.maxAttempts >= 1 && Empty(db)
    ensures Inv(policy, db)
  {
    hide Trail, FactsOf;
    EmptyLogHasNothing();
  }

  lemma Reachable(policy: Policy, w: World, events: seq<Event>)
    requires policy.maxAttempts >= 1 && Empty(w.db) && History(policy, w, events)
    ensures Inv(policy, After(policy, w, events).db)
  {
    hide Inv, History, After;
    EmptyInv(policy, w.db);
    HistoryKeeps(policy, w, events);
  }

  // ---------------------------------------------------------------- main results

  /**
   Exactly-once reports: in every history each stored operation row has exactly one queued report,
   appended first, and exactly one terminal report if it is marked reported and none otherwise; and
   no command, stored or erased, ever collects more.
   */
  lemma ExactlyOnceReports(policy: Policy, w: World, events: seq<Event>, command: CommandId)
    requires policy.maxAttempts >= 1 && Empty(w.db) && History(policy, w, events)
    ensures
      var db := After(policy, w, events).db;
      && (forall row :: row in db.operations ==> ReportedOnce(row, Trail(db.log, row.command)))
      && AtMostOnce(Trail(db.log, command))
  {
    Reachable(policy, w, events);
    var db := After(policy, w, events).db;
    hide After, History, Trail;
    forall row | row in db.operations
      ensures ReportedOnce(row, Trail(db.log, row.command))
    {
      var i :| 0 <= i < |db.operations| && db.operations[i] == row;
    }
  }

  /**
   No operation is stranded: the capture of an unreported operation is concluded or has a stored due
   instant, and from that instant on the claim query selects it.
   */
  lemma NoOperationStranded(policy: Policy, w: World, events: seq<Event>, row: Operation, now: Instant)
    requires policy.maxAttempts >= 1 && Empty(w.db) && History(policy, w, events)
    requires row in After(policy, w, events).db.operations && row.reported.None?
    ensures
      var db := After(policy, w, events).db;
      && row.capture in db.captures
      && var c := db.captures[row.capture];
         && c.attempts < policy.maxAttempts
         && (c.status.Accepted? ==> c.due.Some?)
         && ((c.status.Accepted? ==> c.due.value <= now) ==> Claimable(db, row.capture, now))
  {
    Reachable(policy, w, events);
    StrandedNever(policy, After(policy, w, events).db, row, now);
  }

  lemma StrandedNever(policy: Policy, db: Db, row: Operation, now: Instant)
    requires Inv(policy, db) && row in db.operations && row.reported.None?
    ensures row.capture in db.captures
    ensures
      var c := db.captures[row.capture];
      && c.attempts < policy.maxAttempts
      && (c.status.Accepted? ==> c.due.Some?)
      && ((c.status.Accepted? ==> c.due.value <= now) ==> Claimable(db, row.capture, now))
  {
    hide Trail, FactsOf, Permalink.Canonicalize, FixedPoint, ReportsOk, Indexed;
    var i :| 0 <= i < |db.operations| && db.operations[i] == row;
    assert Pending(db.operations[i], row.capture);
  }

  /**
   Success means preserved: a capture's facts are one captured fact followed only by updated ones, a
   succeeded report stands after that captured fact, and a resolved capture has its media.
   */
  lemma SuccessMeansPreserved(policy: Policy, w: World, events: seq<Event>, id: CaptureId)
    requires policy.maxAttempts >= 1 && Empty(w.db) && History(policy, w, events)
    ensures
      var db := After(policy, w, events).db;
      && OneCapturedFirst(FactsOf(db.log, id))
      && SuccessAfterCapture(db.log)
      && (id in db.captures && db.captures[id].status.Resolved? ==>
            db.captures[id].linked && db.captures[id].url in db.media && FactsOf(db.log, id) != [])
  {
    Reachable(policy, w, events);
    hide After, History, Trail, FactsOf, Permalink.Canonicalize;
  }

  /**
   In every history, the transaction that reports success finds the media linked and the captured fact
   already in the log, and appends nothing but success reports of that capture.
   */
  lemma SuccessReportNeedsMedia(policy: Policy, w: World, events: seq<Event>, id: CaptureId, now: Instant)
    requires policy.maxAttempts >= 1 && Empty(w.db) && History(policy, w, events)
    ensures
      var db := After(policy, w, events).db;
      Conclusion(db, id) == Some(Preserved) ==>
        && db.captures[id].linked && db.captures[id].url in db.media && CapturedFact(id) in db.log
        && forall e :: e in ReportPending(db, id, now).log && e !in db.log ==>
             e.Terminal? && e.capture == id && e.verdict.Preserved?
  {
    Reachable(policy, w, events);
    if Conclusion(After(policy, w, events).db, id) == Some(Preserved) {
      PreservedHasMedia(policy, After(policy, w, events).db, id, now);
    }
  }

  lemma PreservedHasMedia(policy: Policy, db: Db, id: CaptureId, now: Instant)
    requires Inv(policy, db) && Conclusion(db, id) == Some(Preserved)
    ensures db.captures[id].linked && db.captures[id].url in db.media && CapturedFact(id) in db.log
    ensures forall e :: e in ReportPending(db, id, now).log && e !in db.log ==>
              e.Terminal? && e.capture == id && e.verdict.Preserved?
  {
    hide Trail, Latest, Permalink.Canonicalize, FixedPoint, MarkReported, Reports, FactsOf, ReportsOk, Indexed;
    ReportsAreTerminal(db.operations, id, Preserved);
    assert CaptureOk(policy, db.captures[id], db.media);
    FactInLog(db.log, id);
  }

  /** Every stored URL is a canonical fixed point, so the resolver's "no longer maps" branch is unreachable. */
  lemma StoredUrlsMap(policy: Policy, w: World, events: seq<Event>, id: CaptureId)
    requires policy.maxAttempts >= 1 && Empty(w.db) && History(policy, w, events)
    requires id in After(policy, w, events).db.captures
    ensures
      var url := After(policy, w, events).db.captures[id].url;
      Permalink.Canonicalize(url).Ok? && Permalink.Canonicalize(url).value.url == url
  {
    Reachable(policy, w, events);
    hide After, History, Trail, FactsOf, Permalink.Canonicalize;
    assert CaptureOk(policy, After(policy, w, events).db.captures[id], After(policy, w, events).db.media);
  }

  /** Captures are unique per (user, url) whatever the interleaving. */
  lemma CapturesDeduplicate(policy: Policy, w: World, events: seq<Event>, a: CaptureId, b: CaptureId)
    requires policy.maxAttempts >= 1 && Empty(w.db) && History(policy, w, events)
    requires a in After(policy, w, events).db.captures && b in After(policy, w, events).db.captures
    ensures
      var captures := After(policy, w, events).db.captures;
      captures[a].user == captures[b].user && captures[a].url == captures[b].url ==> a == b
  {
    Reachable(policy, w, events);
    hide After, History, Trail, FactsOf, Permalink.Canonicalize;
  }
}
