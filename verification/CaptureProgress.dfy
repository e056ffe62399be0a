/**
 Progress of the capture protocol: the retry schedule, the measure that every due resolve decreases,
 and the store whose methods carry the protocol out.
 */
module CaptureProgress {
  import opened Prelude
  import opened CaptureProtocol
  import opened CaptureHistory
  import Permalink

  // ---------------------------------------------------------------- retry schedule

  /** The clamped schedule is the documented one, min(30 * 4^(attempt - 1), 1800), for every attempt. */
  lemma RetryDelayIsDocumented(attempt: nat)
    requires attempt >= 1
    ensures RetryDelay(attempt) == Min(30 * Power(4, attempt - 1), 1800)
    ensures 30 <= RetryDelay(attempt) <= RetryDelay(attempt + 1) <= 1800
  {
    PowerGrows(4, 0, attempt - 1);
    PowerGrows(4, attempt - 1, attempt);
    assert Power(4, 6) == 4096 by { assert Power(4, 3) == 64; }
    if attempt > 6 {
      PowerGrows(4, 6, attempt - 1);
      PowerGrows(4, 6, attempt);
    }
  }

  // ---------------------------------------------------------------- one resolve

  lemma OutcomeConcludes(db: Db, id: CaptureId, kind: Permalink.Kind, outcome: SurfaceOutcome, now: Instant)
    requires id in db.captures && db.captures[id].status.Accepted?
    ensures
      var out := ApplyOutcome(db, id, kind, outcome, now);
      && out.operations == db.operations && id in out.captures
      && out.captures[id].status == if outcome.Payload? && outcome.caption.Some? then Resolved else Unavailable
  {
    hide FactsOf, Permalink.Canonicalize;
  }

  /**
   A lease's resolve either concludes the capture or stores one attempt more than the lease had seen, and it
   retries exactly when the answer was transient and the lease's budget is not spent.
   */
  lemma ResolveProgress(policy: Policy, db: Db, flight: Flight, outcome: SurfaceOutcome, now: Instant)
    requires flight.capture in db.captures && db.captures[flight.capture].status.Accepted?
    ensures
      var id, c := flight.capture, db.captures[flight.capture];
      var out := Resolve(policy, db, flight, outcome, now);
      FixedPoint(c.url) ==>
      && out.operations == db.operations && id in out.captures
      && if IsTransient(outcome) && flight.attempts + 1 < policy.maxAttempts
         then out.captures[id] == c.(attempts := flight.attempts + 1,
           due := Some(now + RetryDelay(flight.attempts + 1)))
         else out.captures[id].status == if outcome.Payload? && outcome.caption.Some? then Resolved else Unavailable
  {
    hide RetryDelay, Permalink.Canonicalize, ApplyOutcome;
    var id := flight.capture;
    if FixedPoint(db.captures[id].url) {
      var kind := Permalink.Canonicalize(db.captures[id].url).value.kind;
      OutcomeConcludes(db, id, kind, if IsTransient(outcome) then SurfaceTemporarilyUnavailable else outcome, now);
    }
  }

  // ---------------------------------------------------------------- what is reported

  /** The newest observation: no later one of the capture is as new, and no earlier one is newer. */
  lemma {:induction false} LatestIsNewest(observations: seq<Observation>, id: CaptureId)
    ensures
      var latest := Latest(observations, id);
      && (latest.None? <==> forall i :: 0 <= i < |observations| ==> observations[i].capture != id)
      && (latest.Some? ==> exists k: nat ::
          k < |observations| && NewestAt(observations, id, k) && observations[k] == latest.value)
  {
    hide NewestAt;
    if observations == [] {
    } else {
      var front, last := observations[..|observations| - 1], observations[|observations| - 1];
      LatestIsNewest(front, id);
      var earlier := Latest(front, id);
      assert forall i :: 0 <= i < |front| ==> front[i] == observations[i];
      if earlier.Some? {
        var k: nat :| k < |front| && NewestAt(front, id, k) && front[k] == earlier.value;
        NewestExtends(observations, id, k);
      } else if last.capture == id {
        FirstIsNewest(observations, id);
      }
    }
  }

  lemma NewestExtends(observations: seq<Observation>, id: CaptureId, k: nat)
    requires observations != [] && k < |observations| && NewestAt(observations[..|observations| - 1], id, k)
    ensures
      var last := observations[|observations| - 1];
      NewestAt(observations, id, if last.capture == id && observations[k].at <= last.at then |observations| - 1 else k)
  {
    assert forall i :: 0 <= i < |observations| - 1 ==> observations[..|observations| - 1][i] == observations[i];
  }

  lemma FirstIsNewest(observations: seq<Observation>, id: CaptureId)
    requires observations != [] && observations[|observations| - 1].capture == id
    requires forall i :: 0 <= i < |observations| - 1 ==> observations[i].capture != id
    ensures NewestAt(observations, id, |observations| - 1)
  {
  }

  predicate NewestAt(observations: seq<Observation>, id: CaptureId, k: nat) {
    && k < |observations| && observations[k].capture == id
    && (forall i :: 0 <= i < k && observations[i].capture == id ==> observations[i].at <= observations[k].at)
    && (forall i :: k < i < |observations| && observations[i].capture == id ==> observations[i].at < observations[k].at)
  }

  /** What the owner is told about each answer. */
  function Told(outcome: SurfaceOutcome): Verdict {
    match outcome
    case Payload(Some(_)) => Preserved
    case SurfaceDeleted => NotPreserved(SourceDeleted)
    case SurfaceTemporarilyUnavailable => NotPreserved(Transient)
    case TransportFailure => NotPreserved(Transient)
    case _ => NotPreserved(Inaccessible)
  }

  lemma NewestAppended(observations: seq<Observation>, o: Observation)
    requires forall i :: 0 <= i < |observations| && observations[i].capture == o.capture ==> observations[i].at <= o.at
    ensures Latest(observations + [o], o.capture) == Some(o)
  {
    LatestIsNewest(observations, o.capture);
    assert (observations + [o])[..|observations|] == observations;
  }

  /** The report that follows a conclusion says what the surface answered, with time moving forward. */
  lemma ReportTellsAnswer(policy: Policy, db: Db, id: CaptureId, outcome: SurfaceOutcome, now: Instant)
    requires id in db.captures && db.captures[id].status.Accepted?
    requires forall i :: 0 <= i < |db.observations| && db.observations[i].capture == id ==> db.observations[i].at <= now
    ensures
      var flight := Flight(id, db.captures[id].attempts);
      FixedPoint(db.captures[id].url) && !Retries(policy, flight, outcome) ==>
        Conclusion(Resolve(policy, db, flight, outcome, now), id) == Some(Told(outcome))
  {
    hide Permalink.Canonicalize, FactsOf, Latest, RetryDelay;
    forall kind: Availability ensures Latest(db.observations + [Observation(id, kind, now)], id) ==
      Some(Observation(id, kind, now)) {
      NewestAppended(db.observations, Observation(id, kind, now));
    }
  }

  /** A claimed capture is not claimed again before its lease of 120 seconds has run out. */
  lemma LeaseExcludes(db: Db, id: CaptureId, now: Instant, later: Instant)
    requires id in db.captures && db.captures[id].status.Accepted?
    ensures Claimable(ClaimOne(db, id, now), id, later) <==>
            later >= now + 120 && exists i :: 0 <= i < |db.operations| && Pending(db.operations[i], id)
  {
  }

  /** A new operation never moves the due instant, the status or the attempts of a scheduled capture. */
  lemma NewOperationKeepsLease(db: Db, cmd: Command, now: Instant, id: CaptureId)
    requires Indexed(db) && id in db.captures
    requires db.captures[id].status.Accepted? && db.captures[id].due.Some?
    ensures id in Ingest(db, cmd, now).captures && Ingest(db, cmd, now).captures[id] == db.captures[id]
  {
    hide Permalink.Canonicalize;
  }

  // ---------------------------------------------------------------- passes until reported

  predicate Settled(rows: seq<Operation>, id: CaptureId) {
    forall i :: 0 <= i < |rows| ==> !Pending(rows[i], id)
  }

  /** One error-free worker pass over one capture: claim, then resolve and report, or only report. */
  function Pass(policy: Policy, db: Db, id: CaptureId, outcome: SurfaceOutcome, now: Instant): Db {
    if !Claimable(db, id, now) then db
    else if !db.captures[id].status.Accepted? then ClaimOne(db, id, now)
    else
      var resolved := Resolve(policy, ClaimOne(db, id, now), Flight(id, db.captures[id].attempts), outcome, now);
      ReportPending(resolved, id, now)
  }

  /** Consecutive passes, each at or after the due instant it finds. */
  function Passes(policy: Policy, db: Db, id: CaptureId, script: seq<(SurfaceOutcome, nat)>): Db
    decreases |script|
  {
    if script == [] then db
    else
      var due := if id in db.captures && db.captures[id].due.Some? then db.captures[id].due.value else 0;
      Passes(policy, Pass(policy, db, id, script[0].0, due + script[0].1), id, script[1..])
  }

  lemma ReportSettles(db: Db, id: CaptureId, now: Instant)
    requires id in db.captures && !db.captures[id].status.Accepted?
    ensures Settled(ReportPending(db, id, now).operations, id)
  {
    hide Latest, Reports;
    MarkReportedRows(db.operations, id, now);
  }

  lemma PassProgress(policy: Policy, db: Db, id: CaptureId, outcome: SurfaceOutcome, now: Instant)
    requires Inv(policy, db) && id in db.captures
    requires db.captures[id].status.Accepted? ==> db.captures[id].due.Some? && db.captures[id].due.value <= now
    ensures
      var out := Pass(policy, db, id, outcome, now);
      && Inv(policy, out) && id in out.captures
      && (Settled(out.operations, id) ||
          (out.captures[id].status.Accepted? && out.captures[id].due.Some?
           && db.captures[id].attempts < out.captures[id].attempts < policy.maxAttempts))
  {
    hide Trail, FactsOf, Latest, Reports, MarkReported, RetryDelay, Permalink.Canonicalize;
    if Claimable(db, id, now) {
      ClaimOneKeeps(policy, db, id, now);
      if db.captures[id].status.Accepted? {
        var claimed := ClaimOne(db, id, now);
        var flight := Flight(id, db.captures[id].attempts);
        ResolveKeeps(policy, claimed, flight, outcome, now);
        assert CaptureOk(policy, db.captures[id], db.media);
        ResolveProgress(policy, claimed, flight, outcome, now);
        var resolved := Resolve(policy, claimed, flight, outcome, now);
        hide Resolve;
        ReportPendingKeeps(policy, resolved, id, now);
        if !resolved.captures[id].status.Accepted? { ReportSettles(resolved, id, now); }
      } else {
        ReportSettles(db, id, now);
      }
    }
  }

  /**
   From every reachable state, within max_attempts - attempts undisturbed due passes, whatever the
   surface answers, an unreported operation and every other one of its capture is reported.
   */
  lemma ReportedWithinBudget(policy: Policy, w: World, events: seq<Event>, row: Operation,
                             script: seq<(SurfaceOutcome, nat)>)
    requires policy.maxAttempts >= 1 && Empty(w.db) && History(policy, w, events)
    requires row in After(policy, w, events).db.operations && row.reported.None?
    ensures
      var db := After(policy, w, events).db;
      && row.capture in db.captures
      && (|script| >= policy.maxAttempts - db.captures[row.capture].attempts ==>
            Settled(Passes(policy, db, row.capture, script).operations, row.capture))
  {
    hide Inv, Passes, Settled;
    Reachable(policy, w, events);
    var db := After(policy, w, events).db;
    StrandedNever(policy, db, row, 0);
    if |script| >= policy.maxAttempts - db.captures[row.capture].attempts {
      PassesSettle(policy, db, row.capture, script);
    }
  }

  lemma {:induction false} PassesSettle(policy: Policy, db: Db, id: CaptureId, script: seq<(SurfaceOutcome, nat)>)
    requires Inv(policy, db) && id in db.captures
    requires db.captures[id].status.Accepted? ==> db.captures[id].due.Some?
    requires |script| >= policy.maxAttempts - db.captures[id].attempts
    ensures Settled(Passes(policy, db, id, script).operations, id)
    decreases |script|
  {
    hide Trail, FactsOf, Permalink.Canonicalize, Pass;
    assert CaptureOk(policy, db.captures[id], db.media);
    var due := if db.captures[id].due.Some? then db.captures[id].due.value else 0;
    var next := Pass(policy, db, id, script[0].0, due + script[0].1);
    PassProgress(policy, db, id, script[0].0, due + script[0].1);
    if Settled(next.operations, id) {
      SettledStays(policy, next, id, script[1..]);
    } else {
      PassesSettle(policy, next, id, script[1..]);
    }
  }

  lemma {:induction false} SettledStays(policy: Policy, db: Db, id: CaptureId, script: seq<(SurfaceOutcome, nat)>)
    requires id in db.captures && Settled(db.operations, id)
    ensures Passes(policy, db, id, script) == db
    decreases |script|
  {
    if script == [] {
    } else {
      SettledStays(policy, db, id, script[1..]);
    }
  }

  // ---------------------------------------------------------------- the store

  datatype Ingested = Duplicate | RejectedLink | Recorded(capture: CaptureId)

  datatype Summary = Summary(claimed: nat, fetched: nat, retried: nat, reported: nat, failed: nat)

  /** What became of one leased capture: nothing, a resolve whose report failed, or both transactions. */
  datatype Answer = Lost | Unreported(outcome: SurfaceOutcome) | Answered(outcome: SurfaceOutcome)

  predicate Retried(policy: Policy, db: Db, flight: Flight, outcome: SurfaceOutcome) {
    && flight.capture in db.captures
    && Permalink.Canonicalize(db.captures[flight.capture].url).Ok?
    && Retries(policy, flight, outcome)
  }

  /** resolve_one for one leased capture: the resolve transaction, then the report unless it retried. */
  function Flown(policy: Policy, db: Db, flight: Flight, answer: Answer, now: Instant): Db {
    if answer.Lost? then db
    else
      var resolved := Resolve(policy, db, flight, answer.outcome, now);
      if answer.Unreported? || Retried(policy, db, flight, answer.outcome) then resolved
      else ReportPending(resolved, flight.capture, now)
  }

  /** How many reports a transaction appends for a capture. */
  function ReportCount(db: Db, id: CaptureId): nat {
    match Conclusion(db, id)
    case None => 0
    case Some(verdict) => |Reports(db.operations, id, verdict)|
  }

  /** How many reports the claim transaction appends. */
  function ClaimReports(db: Db, ids: seq<CaptureId>, now: Instant): nat {
    if ids == [] then 0
    else
      var front, last := ids[..|ids| - 1], ids[|ids| - 1];
      ClaimReports(db, front, now)
      + if last in db.captures && db.captures[last].status.Accepted? then 0
        else ReportCount(Claim(db, front, now), last)
  }

  /** The database and the counters of a pass. */
  datatype Tally = Tally(db: Db, fetched: nat, retried: nat, reported: nat, failed: nat)

  predicate Fetched(db: Db, flight: Flight) {
    flight.capture in db.captures && Permalink.Canonicalize(db.captures[flight.capture].url).Ok?
  }

  function Tallied(policy: Policy, t: Tally, flight: Flight, answer: Answer, now: Instant): Tally {
    var db := Flown(policy, t.db, flight, answer, now);
    if !answer.Answered? then t.(db := db, failed := t.failed + 1)
    else
      var again := Retried(policy, t.db, flight, answer.outcome);
      var resolved := Resolve(policy, t.db, flight, answer.outcome, now);
      Tally(db,
            t.fetched + (if Fetched(t.db, flight) then 1 else 0),
            t.retried + (if again then 1 else 0),
            t.reported + (if again then 0 else ReportCount(resolved, flight.capture)),
            t.failed)
  }

  function FlownAll(policy: Policy, t: Tally, flights: seq<Flight>, answers: seq<Answer>, now: Instant): Tally
    requires |answers| == |flights|
    decreases |flights|
  {
    if flights == [] then t
    else
      var last := |flights| - 1;
      Tallied(policy, FlownAll(policy, t, flights[..last], answers[..last], now), flights[last], answers[last], now)
  }

  /** The tally right after the claim. */
  function ClaimTally(db: Db, ids: seq<CaptureId>, now: Instant): Tally {
    Tally(Claim(db, ids, now), 0, 0, ClaimReports(db, ids, now), 0)
  }

  lemma {:induction false} LeasedAreStored(db: Db, ids: seq<CaptureId>)
    ensures forall k :: 0 <= k < |Leased(db, ids)| ==> Leased(db, ids)[k].capture in db.captures
  {
    if ids == [] {
    } else {
      LeasedAreStored(db, ids[..|ids| - 1]);
    }
  }

  class Store {
    var captures: map<CaptureId, Capture>
    var byKey: map<(UserId, string), CaptureId>
    var nextCapture: CaptureId
    var operations: seq<Operation>
    var inbox: set<CommandId>
    var observations: seq<Observation>
    var removals: set<(UserId, string)>
    var media: map<string, Projection>
    var log: seq<Entry>

    ghost function View(): Db
      reads this
    {
      Db(captures, byKey, nextCapture, operations, inbox, observations, removals, media, log)
    }

    constructor ()
      ensures Empty(View())
    {
      captures, byKey, nextCapture, operations, inbox := map[], map[], 0, [], {};
      observations, removals, media, log := [], {}, map[], [];
    }

    method SubmitCapture(user: UserId, url: string) returns (id: CaptureId)
      requires Indexed(View())
      modifies this
      ensures View() == Submit(old(View()), user, url)
      ensures id == SubmittedId(old(View()), user, url)
      ensures id in captures && captures[id].user == user && captures[id].url == url
    {
      if (user, url) in byKey { return byKey[(user, url)]; }
      id := nextCapture;
      captures := captures[id := Capture(user, url, Accepted, None, 0, false)];
      byKey := byKey[(user, url) := id];
      nextCapture := nextCapture + 1;
    }

    method AddOperation(cmd: Command, id: CaptureId, now: Instant)
      requires id in captures
      modifies this
      ensures View() == RecordOperation(old(View()), cmd, id, now)
      ensures captures.Keys == old(captures.Keys)
    {
      var known := OperationKnown(operations, cmd);
      if captures[id].status.Unavailable? {
        captures := captures[id := captures[id].(status := Accepted, attempts := 0, due := Some(now))];
      } else if captures[id].status.Accepted? && captures[id].due.None? {
        captures := captures[id := captures[id].(due := Some(now))];
      }
      assert captures == old(captures)[id := MadeDue(old(captures)[id], now)];
      if !known {
        operations := operations + [Operation(cmd.operation, cmd.id, id, cmd.user, None)];
        log := log + [Queued(cmd.operation, cmd.id, id)];
      }
    }

    method IngestBrowserCapture(cmd: Command, now: Instant) returns (r: Ingested)
      requires Indexed(View())
      modifies this
      ensures View() == Ingest(old(View()), cmd, now)
      ensures r.Duplicate? <==> cmd.id in old(inbox)
      ensures r.RejectedLink? <==> cmd.id !in old(inbox) && Permalink.Canonicalize(cmd.permalink).Err?
      ensures r.Recorded? ==> r.capture in captures
    {
      hide Permalink.Canonicalize, Indexed;
      if cmd.id in inbox { return Duplicate; }
      var canonical := Permalink.Canonicalize(cmd.permalink);
      if canonical.Err? {
        inbox := inbox + {cmd.id};
        log := log + [Rejected(cmd.operation, cmd.id)];
        return RejectedLink;
      }
      var id := SubmitCapture(cmd.user, canonical.value.url);
      hide Submit, SubmittedId;
      AddOperation(cmd, id, now);
      hide RecordOperation;
      inbox := inbox + {cmd.id};
      return Recorded(id);
    }

    /** The guarded update: one pass over the rows flips the unreported ones and reports each flip. */
    method ReportPendingOperations(id: CaptureId, now: Instant) returns (reported: nat)
      requires id in captures
      modifies this
      ensures View() == ReportPending(old(View()), id, now) && captures == old(captures)
      ensures reported == ReportCount(old(View()), id) == |log| - |old(log)|
    {
      var conclusion := Conclusion(Db(captures, byKey, nextCapture, operations, inbox, observations, removals,
        media, log), id);
      if conclusion.None? { return 0; }
      var rows, entries, k := [], [], 0;
      assert operations[..0] == [];
      while k < |operations|
        invariant 0 <= k <= |operations|
        invariant View() == old(View())
        invariant rows == MarkReported(operations[..k], id, now)
        invariant entries == Reports(operations[..k], id, conclusion.value)
      {
        var row := operations[k];
        assert operations[..k + 1][..k] == operations[..k] && operations[..k + 1][k] == row;
        if row.capture == id && row.reported.None? {
          rows := rows + [row.(reported := Some(now))];
          entries := entries + [Terminal(row.id, row.command, id, conclusion.value)];
        } else {
          rows := rows + [row];
        }
        k := k + 1;
      }
      assert operations[..k] == operations;
      operations := rows;
      log := log + entries;
      reported := |entries|;
    }

    method ClaimDue(ids: seq<CaptureId>, now: Instant) returns (leased: seq<Flight>, reported: nat)
      requires forall k :: 0 <= k < |ids| ==> ids[k] in captures
      requires forall j, k :: 0 <= j < k < |ids| ==> ids[j] != ids[k]
      modifies this
      ensures View() == Claim(old(View()), ids, now)
      ensures leased == Leased(old(View()), ids) && captures.Keys == old(captures.Keys)
      ensures reported == ClaimReports(old(View()), ids, now)
    {
      leased, reported := [], 0;
      var k := 0;
      assert ids[..0] == [];
      while k < |ids|
        invariant 0 <= k <= |ids|
        invariant View() == Claim(old(View()), ids[..k], now)
        invariant captures.Keys == old(captures.Keys)
        invariant forall j :: k <= j < |ids| ==> captures[ids[j]] == old(captures)[ids[j]]
        invariant leased == Leased(old(View()), ids[..k])
        invariant reported == ClaimReports(old(View()), ids[..k], now)
      {
        var id := ids[k];
        assert ids[..k + 1][..k] == ids[..k] && ids[..k + 1][k] == id;
        if captures[id].status.Accepted? {
          leased := leased + [Flight(id, captures[id].attempts)];
          captures := captures[id := captures[id].(due := Some(now + LEASE))];
        } else {
          var more := ReportPendingOperations(id, now);
          reported := reported + more;
        }
        k := k + 1;
      }
      assert ids[..k] == ids;
    }

    method RecordFailed(id: CaptureId, kind: Availability, now: Instant)
      requires id in captures
      modifies this
      ensures View() == RecordFailedResolution(old(View()), id, kind, now)
      ensures captures.Keys == old(captures.Keys)
    {
      var c := captures[id];
      observations := observations + [Observation(id, kind, now)];
      if c.status.Accepted? || c.status.Resolved? {
        captures := captures[id := c.(status := Unavailable)];
      } else {
        captures := captures[id := c];
      }
      if kind.Deleted? && c.linked && c.url in media {
        media := media[c.url := media[c.url].(deletedUpstream := true)];
        log := log + [UpdatedFact(id)];
      }
    }

    method StorePayload(id: CaptureId, projection: Projection, now: Instant)
      requires id in captures
      modifies this
      ensures View() == StoreResolution(old(View()), id, projection, now)
      ensures captures.Keys == old(captures.Keys)
    {
      var c := captures[id];
      var hasFact := FactsOf(log, id) != [];
      var changed := c.url !in media || media[c.url].kind != projection.kind
        || media[c.url].caption != projection.caption;
      if !c.status.FailedCapture? { c := c.(status := Resolved, linked := true); }
      if (!hasFact || changed) && !c.linked { return; }
      if !hasFact {
        log := log + [CapturedFact(id)];
      } else if changed {
        log := log + [UpdatedFact(id)];
      }
      captures := captures[id := c];
      media := media[c.url := projection];
      observations := observations + [Observation(id, Available, now)];
    }

    /** The first transaction of resolve_one. */
    method ResolveRows(policy: Policy, flight: Flight, outcome: SurfaceOutcome, now: Instant)
      returns (fetched: bool, retried: bool)
      requires flight.capture in captures
      modifies this
      ensures View() == Resolve(policy, old(View()), flight, outcome, now)
      ensures retried == Retried(policy, old(View()), flight, outcome)
      ensures fetched == Permalink.Canonicalize(old(captures)[flight.capture].url).Ok?
      ensures captures.Keys == old(captures.Keys)
    {
      hide Permalink.Canonicalize, FactsOf, RetryDelay;
      var id := flight.capture;
      var canonical := Permalink.Canonicalize(captures[id].url);
      if canonical.Err? {
        RecordFailed(id, ResolutionFailed, now);
        return false, false;
      }
      var attempt := flight.attempts + 1;
      var final := outcome;
      if IsTransient(outcome) {
        if attempt < policy.maxAttempts {
          captures := captures[id := captures[id].(attempts := attempt, due := Some(now + RetryDelay(attempt)))];
          return true, true;
        }
        final := SurfaceTemporarilyUnavailable;
      }
      if final.Payload? && final.caption.Some? {
        StorePayload(id, Projection(canonical.value.kind, final.caption.value, false), now);
      } else {
        RecordFailed(id, if final.Payload? then ResolutionFailed else ObservationKind(final), now);
      }
      return true, false;
    }

    method ResolveOne(policy: Policy, flight: Flight, outcome: SurfaceOutcome, now: Instant)
      returns (fetched: bool, retried: bool, reported: nat)
      requires flight.capture in captures
      modifies this
      ensures View() == Flown(policy, old(View()), flight, Answered(outcome), now)
      ensures fetched == Fetched(old(View()), flight) && retried == Retried(policy, old(View()), flight, outcome)
      ensures
        reported == if retried then 0
                    else ReportCount(Resolve(policy, old(View()), flight, outcome, now), flight.capture)
      ensures captures.Keys == old(captures.Keys)
    {
      hide Permalink.Canonicalize, Resolve, ReportPending, ReportCount;
      fetched, retried := ResolveRows(policy, flight, outcome, now);
      if retried { return fetched, true, 0; }
      reported := ReportPendingOperations(flight.capture, now);
    }

    /** One pass: `ids` is what the claim query returned, `answers` what became of each leased capture. */
    method RunDueOnce(policy: Policy, ids: seq<CaptureId>, answers: seq<Answer>, now: Instant)
                      returns (summary: Summary)
      requires forall k :: 0 <= k < |ids| ==> ids[k] in captures
      requires forall j, k :: 0 <= j < k < |ids| ==> ids[j] != ids[k]
      requires |answers| == |Leased(View(), ids)|
      modifies this
      ensures
        var t := FlownAll(policy, ClaimTally(old(View()), ids, now), Leased(old(View()), ids), answers, now);
        View() == t.db && summary == Summary(|ids|, t.fetched, t.retried, t.reported, t.failed)
    {
      hide Resolve, ReportPending, Retried, Fetched, ReportCount, ClaimReports, Claim;
      var leased, reported := ClaimDue(ids, now);
      LeasedAreStored(old(View()), ids);
      var fetched, retried, failed, k := 0, 0, 0, 0;
      ghost var start := ClaimTally(old(View()), ids, now);
      assert leased[..0] == [] && answers[..0] == [];
      while k < |leased|
        invariant 0 <= k <= |leased|
        invariant Tally(View(), fetched, retried, reported, failed) ==
                  FlownAll(policy, start, leased[..k], answers[..k], now)
        invariant forall j :: 0 <= j < |leased| ==> leased[j].capture in captures
      {
        assert leased[..k + 1][..k] == leased[..k] && answers[..k + 1][..k] == answers[..k];
        match answers[k] {
          case Lost => failed := failed + 1;
          case Unreported(outcome) =>
            var _, _ := ResolveRows(policy, leased[k], outcome, now);
            failed := failed + 1;
          case Answered(outcome) =>
            var sent, again, more := ResolveOne(policy, leased[k], outcome, now);
            reported := reported + more;
            if sent { fetched := fetched + 1; }
            if again { retried := retried + 1; }
        }
        k := k + 1;
      }
      assert leased[..k] == leased && answers[..k] == answers;
      summary := Summary(|ids|, fetched, retried, reported, failed);
    }
  }

  // ---------------------------------------------------------------- a pass is a history

  function EventsOf(policy: Policy, db: Db, flight: Flight, answer: Answer, now: Instant): seq<Event> {
    match answer
    case Lost => []
    case Unreported(outcome) => [ResolveFlight(flight, outcome, now)]
    case Answered(outcome) =>
      [ResolveFlight(flight, outcome, now)]
      + if Retried(policy, db, flight, outcome) then [] else [ReportConcluded(flight.capture, now)]
  }

  /** The transactions of a pass after its claim, in order. */
  function FlightEvents(policy: Policy, t: Tally, flights: seq<Flight>, answers: seq<Answer>, now: Instant): seq<Event>
    requires |answers| == |flights|
    decreases |flights|
  {
    if flights == [] then []
    else
      var last := |flights| - 1;
      FlightEvents(policy, t, flights[..last], answers[..last], now)
      + EventsOf(policy, FlownAll(policy, t, flights[..last], answers[..last], now).db, flights[last],
        answers[last], now)
  }

  lemma FlightIsHistory(policy: Policy, w: World, flight: Flight, answer: Answer, now: Instant)
    requires Inv(policy, w.db) && flight in w.flights && flight.capture in w.db.captures
    ensures
      var events := EventsOf(policy, w.db, flight, answer, now);
      && History(policy, w, events)
      && var out := After(policy, w, events);
      && Inv(policy, out.db) && out.db == Flown(policy, w.db, flight, answer, now)
      && w.flights - multiset{flight} <= out.flights && out.db.captures.Keys == w.db.captures.Keys
  {
    hide Inv, Resolve, ReportPending, Retried, Indexed, History, After;
    IndexedKept(policy, w.db);
    var events := EventsOf(policy, w.db, flight, answer, now);
    if answer.Lost? {
      Chain(policy, [w], events);
    } else {
      var e := ResolveFlight(flight, answer.outcome, now);
      var resolved := Next(policy, w, e);
      ResolveKeeps(policy, w.db, flight, answer.outcome, now);
      IndexedKept(policy, resolved.db);
      KeysKept(policy, w.db, flight, answer.outcome, now);
      if |events| == 1 {
        Chain(policy, [w, resolved], events);
      } else {
        var report := ReportConcluded(flight.capture, now);
        ReportPendingKeeps(policy, resolved.db, flight.capture, now);
        var reported := Next(policy, resolved, report);
        IndexedKept(policy, reported.db);
        Chain(policy, [w, resolved, reported], events);
      }
    }
  }

  lemma IndexedKept(policy: Policy, db: Db)
    requires Inv(policy, db)
    ensures Indexed(db)
  {
  }

  lemma KeysKept(policy: Policy, db: Db, flight: Flight, outcome: SurfaceOutcome, now: Instant)
    requires flight.capture in db.captures
    ensures Resolve(policy, db, flight, outcome, now).captures.Keys == db.captures.Keys
    ensures ReportPending(Resolve(policy, db, flight, outcome, now), flight.capture, now).captures.Keys ==
            db.captures.Keys
  {
    hide Permalink.Canonicalize, FactsOf, RetryDelay, Latest, Reports, MarkReported;
  }

  lemma {:induction false} FlightsAreHistory(policy: Policy, w: World, t: Tally, flights: seq<Flight>,
                                             answers: seq<Answer>,
                                             now: Instant)
    requires Inv(policy, w.db) && t.db == w.db && |answers| == |flights| && multiset(flights) <= w.flights
    requires forall k :: 0 <= k < |flights| ==> flights[k].capture in w.db.captures
    ensures
      var events := FlightEvents(policy, t, flights, answers, now);
      && History(policy, w, events)
      && var out := After(policy, w, events);
      && Inv(policy, out.db) && out.db == FlownAll(policy, t, flights, answers, now).db
      && w.flights - multiset(flights) <= out.flights && out.db.captures.Keys == w.db.captures.Keys
    decreases |flights|
  {
    hide Inv, Flown, EventsOf, Retried, Fetched, ReportCount, Resolve, Indexed, History, After;
    IndexedKept(policy, w.db);
    if flights == [] {
      Chain(policy, [w], []);
    } else {
      var last := |flights| - 1;
      var front := flights[..last];
      assert flights == front + [flights[last]];
      FlightsAreHistory(policy, w, t, front, answers[..last], now);
      var before := FlightEvents(policy, t, front, answers[..last], now);
      var mid := After(policy, w, before);
      assert flights[last] in multiset(flights);
      assert flights[last] in w.flights - multiset(front);
      FlightIsHistory(policy, mid, flights[last], answers[last], now);
      HistoryJoin(policy, w, before, EventsOf(policy, mid.db, flights[last], answers[last], now));
    }
  }

  /**
   A pass of RunDueOnce is a history of the protocol: the claim, then each leased capture's transactions,
   those that happened.  So everything proved of histories holds of what a pass leaves behind.
   */
  lemma PassIsHistory(policy: Policy, w: World, ids: seq<CaptureId>, answers: seq<Answer>, now: Instant)
    requires Inv(policy, w.db) && Enabled(policy, w, ClaimBatch(ids, now)) && |answers| == |Leased(w.db, ids)|
    ensures
      var t := ClaimTally(w.db, ids, now);
      var events := [ClaimBatch(ids, now)] + FlightEvents(policy, t, Leased(w.db, ids), answers, now);
      && History(policy, w, events)
      && After(policy, w, events).db == FlownAll(policy, t, Leased(w.db, ids), answers, now).db
  {
    hide Inv, Claim, Leased, ClaimReports, FlownAll, FlightEvents, Claimable;
    var e, t, leased := ClaimBatch(ids, now), ClaimTally(w.db, ids, now), Leased(w.db, ids);
    IndexedKept(policy, w.db);
    ClaimKeeps(policy, w.db, ids, now);
    var claimed := Next(policy, w, e);
    IndexedKept(policy, claimed.db);
    LeasedAreStored(w.db, ids);
    ClaimKeys(w.db, ids, now);
    FlightsAreHistory(policy, claimed, t, leased, answers, now);
    var rest := FlightEvents(policy, t, leased, answers, now);
    assert ([e] + rest)[1..] == rest && ([e] + rest)[0] == e;
  }

  lemma {:induction false} ClaimKeys(db: Db, ids: seq<CaptureId>, now: Instant)
    ensures Claim(db, ids, now).captures.Keys == db.captures.Keys
  {
    hide Reports, MarkReported, Latest;
    if ids == [] {
    } else {
      ClaimKeys(db, ids[..|ids| - 1], now);
    }
  }
}
