/**
 Leases in workers' memory: when a retry makes progress, and what happens when two workers hold
 leases of the same capture (crates/instagram-archive/src/capture_resolution.rs:163-275).
 */
module CaptureFlights {
  import opened Prelude
  import opened CaptureProtocol
  import opened CaptureHistory
  import Permalink

  // ---------------------------------------------------------------- progress of one retry

  lemma RetryOutcome(policy: Policy, db: Db, flight: Flight, outcome: SurfaceOutcome, now: Instant)
    requires flight.capture in db.captures
    ensures FixedPoint(db.captures[flight.capture].url) && Retries(policy, flight, outcome) ==>
              Resolve(policy, db, flight, outcome, now) == Reschedule(db, flight.capture, flight.attempts + 1, now)
  {
    hide Permalink.Canonicalize, Reschedule, ApplyOutcome;
  }

  /** What is left of a capture's retry budget. */
  function Budget(policy: Policy, c: Capture): int {
    policy.maxAttempts - c.attempts
  }

  /**
   In every history and for every lease, a retry leaves a positive budget, and it strictly decreases it
   exactly when the lease is not older than the stored attempts.
   */
  lemma RetryDecreasesIff(policy: Policy, w: World, events: seq<Event>, flight: Flight, outcome: SurfaceOutcome,
                          now: Instant)
    requires policy.maxAttempts >= 1 && Empty(w.db) && History(policy, w, events)
    requires flight in After(policy, w, events).flights && flight.capture in After(policy, w, events).db.captures
    requires Retries(policy, flight, outcome)
    ensures
      var db := After(policy, w, events).db;
      var out := Resolve(policy, db, flight, outcome, now);
      && flight.capture in out.captures
      && var before, after := db.captures[flight.capture], out.captures[flight.capture];
      && 0 < Budget(policy, after)
      && (Budget(policy, after) < Budget(policy, before) <==> flight.attempts >= before.attempts)
  {
    Reachable(policy, w, events);
    RetryStep(policy, After(policy, w, events).db, flight, outcome, now);
  }

  lemma RetryStep(policy: Policy, db: Db, flight: Flight, outcome: SurfaceOutcome, now: Instant)
    requires Inv(policy, db) && flight.capture in db.captures && Retries(policy, flight, outcome)
    ensures Resolve(policy, db, flight, outcome, now) == Reschedule(db, flight.capture, flight.attempts + 1, now)
  {
    hide Trail, FactsOf, FixedPoint, Resolve, Reschedule, Indexed, RowsOk, ReportsOk;
    assert CaptureOk(policy, db.captures[flight.capture], db.media);
    RetryOutcome(policy, db, flight, outcome, now);
  }

  // ---------------------------------------------------------------- one lease at a time

  /** No step but a retry raises the attempts of a capture, and ids are never handed out twice. */
  ghost predicate Milder(before: Db, after: Db) {
    && before.nextCapture <= after.nextCapture
    && (forall c :: c in after.captures ==>
          c >= before.nextCapture || (c in before.captures
            && after.captures[c].attempts <= before.captures[c].attempts))
  }

  lemma MilderCompose(a: Db, b: Db, c: Db)
    requires Milder(a, b) && Milder(b, c)
    ensures Milder(a, c)
  {
  }

  lemma IngestMilder(db: Db, cmd: Command, now: Instant)
    requires Indexed(db)
    ensures Milder(db, Ingest(db, cmd, now))
  {
    hide Permalink.Canonicalize;
  }

  lemma SubmitLinkMilder(db: Db, user: UserId, link: string)
    requires Indexed(db)
    ensures Milder(db, SubmitLink(db, user, link))
  {
    hide Permalink.Canonicalize;
  }

  lemma {:induction false} ClaimMilder(db: Db, ids: seq<CaptureId>, now: Instant)
    ensures Milder(db, Claim(db, ids, now))
  {
    hide Reports, MarkReported, Latest;
    if ids == [] {
    } else {
      ClaimMilder(db, ids[..|ids| - 1], now);
      var before := Claim(db, ids[..|ids| - 1], now);
      MilderCompose(db, before, ClaimOne(before, ids[|ids| - 1], now));
    }
  }

  lemma OutcomeMilder(db: Db, id: CaptureId, kind: Permalink.Kind, outcome: SurfaceOutcome, now: Instant)
    ensures Milder(db, ApplyOutcome(db, id, kind, outcome, now))
  {
    hide FactsOf;
  }

  lemma ResolveMilder(policy: Policy, db: Db, flight: Flight, outcome: SurfaceOutcome, now: Instant)
    requires !Retries(policy, flight, outcome)
    ensures Milder(db, Resolve(policy, db, flight, outcome, now))
  {
    hide Permalink.Canonicalize, ApplyOutcome;
    if flight.capture in db.captures && Permalink.Canonicalize(db.captures[flight.capture].url).Ok? {
      OutcomeMilder(db, flight.capture, Permalink.Canonicalize(db.captures[flight.capture].url).value.kind,
                    if IsTransient(outcome) then SurfaceTemporarilyUnavailable else outcome, now);
    }
  }

  /** A lease that is not older than the stored attempts of its capture. */
  predicate Current(db: Db, f: Flight) {
    f.capture < db.nextCapture && (f.capture in db.captures ==> f.attempts >= db.captures[f.capture].attempts)
  }

  /** Every capture has at most one lease, and it is current. */
  ghost predicate Single(w: World) {
    && (forall f :: f in w.flights ==> Current(w.db, f) && w.flights[f] == 1)
    && (forall f, g :: f in w.flights && g in w.flights && f.capture == g.capture ==> f == g)
  }

  /** A claim finds no worker that still holds a lease of what it claims. */
  predicate Unheld(w: World, e: Event) {
    e.ClaimBatch? ==> forall f, k :: f in w.flights && 0 <= k < |e.ids| ==> f.capture != e.ids[k]
  }

  ghost predicate OneAtATime(policy: Policy, w: World, events: seq<Event>)
    requires History(policy, w, events)
    decreases |events|
  {
    events == [] || (Unheld(w, events[0]) && OneAtATime(policy, Next(policy, w, events[0]), events[1..]))
  }

  lemma MilderSingle(w: World, db: Db, flights: multiset<Flight>)
    requires Single(w) && Milder(w.db, db) && flights <= w.flights
    ensures Single(World(db, flights))
  {
    forall f | f in flights ensures f in w.flights && flights[f] == 1 && Current(db, f) {
      assert 0 < flights[f] <= w.flights[f];
    }
  }

  lemma {:induction false} LeasedFlights(db: Db, ids: seq<CaptureId>)
    requires forall j, k :: 0 <= j < k < |ids| ==> ids[j] != ids[k]
    ensures forall f :: f in Leased(db, ids) ==>
              f.capture in ids && f.capture in db.captures && f.attempts == db.captures[f.capture].attempts
    ensures forall f :: f in multiset(Leased(db, ids)) ==> multiset(Leased(db, ids))[f] == 1
    ensures forall f, g :: f in Leased(db, ids) && g in Leased(db, ids) && f.capture == g.capture ==> f == g
  {
    if ids == [] {
    } else {
      var front, last := ids[..|ids| - 1], ids[|ids| - 1];
      LeasedFlights(db, front);
      assert last !in front;
      var more := Leased(db, ids)[|Leased(db, front)|..];
      assert Leased(db, ids) == Leased(db, front) + more;
    }
  }

  lemma ClaimSingle(w: World, ids: seq<CaptureId>, now: Instant)
    requires Indexed(w.db) && Single(w) && Unheld(w, ClaimBatch(ids, now))
    requires forall j, k :: 0 <= j < k < |ids| ==> ids[j] != ids[k]
    ensures Single(World(Claim(w.db, ids, now), w.flights + multiset(Leased(w.db, ids))))
  {
    hide Claim, Leased;
    ClaimMilder(w.db, ids, now);
    LeasedFlights(w.db, ids);
    var leased := Leased(w.db, ids);
    var db, flights := Claim(w.db, ids, now), w.flights + multiset(leased);
    forall f | f in flights ensures Current(db, f) && flights[f] == 1 {
      assert f in w.flights || f in multiset(leased);
      if f in multiset(leased) {
        assert f in leased;
        var k :| 0 <= k < |ids| && ids[k] == f.capture;
        assert f !in w.flights;
      }
    }
    forall f, g | f in flights && g in flights && f.capture == g.capture ensures f == g {
      assert (f in w.flights || f in leased) && (g in w.flights || g in leased);
    }
  }

  lemma RetrySingle(policy: Policy, w: World, flight: Flight, outcome: SurfaceOutcome, now: Instant)
    requires Inv(policy, w.db) && Single(w) && flight in w.flights && Retries(policy, flight, outcome)
    ensures Single(World(Resolve(policy, w.db, flight, outcome, now), w.flights - multiset{flight}))
  {
    hide Inv, RetryDelay, Resolve;
    var db, flights := Resolve(policy, w.db, flight, outcome, now), w.flights - multiset{flight};
    if flight.capture in w.db.captures {
      RetryStep(policy, w.db, flight, outcome, now);
    } else {
      GoneCapture(policy, w.db, flight, outcome, now);
    }
    forall f | f in flights ensures f in w.flights && flights[f] == 1 && f.capture != flight.capture && Current(db, f) {
      assert f in w.flights && f != flight;
    }
  }

  lemma GoneCapture(policy: Policy, db: Db, flight: Flight, outcome: SurfaceOutcome, now: Instant)
    requires flight.capture !in db.captures
    ensures Resolve(policy, db, flight, outcome, now) == db
  {
  }

  lemma SingleStep(policy: Policy, w: World, e: Event)
    requires Inv(policy, w.db) && Single(w) && Enabled(policy, w, e) && Unheld(w, e)
    ensures Single(Next(policy, w, e))
  {
    hide Inv, Single, Ingest, SubmitLink, Claim, Leased, Resolve, ApplyOutcome, Milder, Reports, MarkReported, Latest,
         WithoutCapture, Claimable;
    IndexedOf(policy, w.db);
    match e {
      case Deliver(command, now) => IngestMilder(w.db, command, now);
      case SubmitShare(user, link) => SubmitLinkMilder(w.db, user, link);
      case ClaimBatch(ids, now) => ClaimSingle(w, ids, now);
      case ResolveFlight(flight, outcome, now) =>
        if Retries(policy, flight, outcome) {
          RetrySingle(policy, w, flight, outcome, now);
        } else {
          ResolveMilder(policy, w.db, flight, outcome, now);
        }
      case ReResolve(id, kind, outcome, now) => OutcomeMilder(w.db, id, kind, outcome, now);
      case _ => OthersMilder(policy, w, e);
    }
    var out := Next(policy, w, e);
    if !e.ClaimBatch? && !(e.ResolveFlight? && Retries(policy, e.flight, e.outcome)) {
      MilderSingle(w, out.db, out.flights);
    }
  }

  lemma IndexedOf(policy: Policy, db: Db)
    requires Inv(policy, db)
    ensures Indexed(db)
  {
  }

  lemma OthersMilder(policy: Policy, w: World, e: Event)
    requires Indexed(w.db) && Enabled(policy, w, e)
    requires e.ReportConcluded? || e.LoseFlights? || e.ObserveUnavailable? || e.Tombstone? || e.Erase?
    ensures Milder(w.db, Next(policy, w, e).db)
  {
    hide Reports, MarkReported, Latest, WithoutCapture;
  }

  lemma {:induction false} SingleHistory(policy: Policy, w: World, events: seq<Event>)
    requires Inv(policy, w.db) && Single(w) && History(policy, w, events) && OneAtATime(policy, w, events)
    ensures Single(After(policy, w, events))
    decreases |events|
  {
    hide Inv, Single, Next, Enabled, Unheld;
    if events == [] {
    } else {
      StepKeeps(policy, w, events[0]);
      SingleStep(policy, w, events[0]);
      SingleHistory(policy, Next(policy, w, events[0]), events[1..]);
    }
  }

  /**
   With one lease per capture at a time, every lease of every history is current, so that every retry
   strictly decreases what is left of the budget.
   */
  lemma OneLeaseAlwaysProgresses(policy: Policy, w: World, events: seq<Event>, flight: Flight)
    requires policy.maxAttempts >= 1 && Empty(w.db) && w.flights == multiset{}
    requires History(policy, w, events) && OneAtATime(policy, w, events)
    requires flight in After(policy, w, events).flights && flight.capture in After(policy, w, events).db.captures
    ensures flight.attempts >= After(policy, w, events).db.captures[flight.capture].attempts
  {
    hide History, After, OneAtATime, Inv;
    assert Inv(policy, w.db) by { EmptyInv(policy, w.db); }
    SingleHistory(policy, w, events);
    assert Current(After(policy, w, events).db, flight);
  }

  // ---------------------------------------------------------------- two leases of one capture

  function With(db: Db, id: CaptureId, c: Capture): Db {
    db.(captures := db.captures[id := c])
  }

  lemma ClaimAlone(db: Db, id: CaptureId, now: Instant)
    requires id in db.captures && db.captures[id].status.Accepted?
    ensures Claim(db, [id], now) == With(db, id, db.captures[id].(due := Some(now + 120)))
    ensures Leased(db, [id]) == [Flight(id, db.captures[id].attempts)]
  {
    assert [id][..0] == [];
    assert Claim(db, [id][..0], now) == db && Leased(db, [id][..0]) == [];
  }

  /** A world with an accepted capture that is due and waited for. */
  predicate Waiting(w: World, id: CaptureId, now: Instant) {
    Indexed(w.db) && Claimable(w.db, id, now) && w.db.captures[id].status.Accepted? && FixedPoint(w.db.captures[id].url)
  }

  lemma ClaimStep(policy: Policy, w: World, id: CaptureId, now: Instant)
    requires Waiting(w, id, now) && policy.batchSize >= 1
    ensures
      var c := w.db.captures[id];
      && Enabled(policy, w, ClaimBatch([id], now))
      && Next(policy, w, ClaimBatch([id], now)) ==
         World(With(w.db, id, c.(due := Some(now + 120))), w.flights + multiset{Flight(id, c.attempts)})
      && (forall later :: later >= now + 120 ==> Waiting(Next(policy, w, ClaimBatch([id], now)), id, later))
  {
    hide Permalink.Canonicalize, FixedPoint;
    ClaimAlone(w.db, id, now);
    hide Claim, Leased;
    UpdateIndexed(w.db, id, w.db.captures[id].(due := Some(now + 120)));
    hide Indexed;
    var i :| 0 <= i < |w.db.operations| && Pending(w.db.operations[i], id);
  }

  lemma RetryStepTo(policy: Policy, w: World, flight: Flight, now: Instant, soon: Instant)
    requires Waiting(w, flight.capture, soon) && flight in w.flights && flight.attempts + 1 < policy.maxAttempts
    ensures
      var e := ResolveFlight(flight, SurfaceTemporarilyUnavailable, now);
      var c, due := w.db.captures[flight.capture], now + RetryDelay(flight.attempts + 1);
      && Enabled(policy, w, e)
      && Next(policy, w, e) ==
         World(With(w.db, flight.capture, c.(attempts := flight.attempts + 1, due := Some(due))),
           w.flights - multiset{flight})
      && (forall later :: later >= due ==> Waiting(Next(policy, w, e), flight.capture, later))
  {
    hide Permalink.Canonicalize, RetryDelay, ApplyOutcome;
    var id, c := flight.capture, w.db.captures[flight.capture];
    RetryOutcome(policy, w.db, flight, SurfaceTemporarilyUnavailable, now);
    hide Resolve, FixedPoint;
    UpdateIndexed(w.db, id, c.(attempts := flight.attempts + 1, due := Some(now + RetryDelay(flight.attempts + 1))));
    hide Indexed;
    var i :| 0 <= i < |w.db.operations| && Pending(w.db.operations[i], id);
  }

  /** The second worker claims after the first one's lease has run out, and retries. */
  function SecondClaim(id: CaptureId, t: Instant): seq<Event> {
    [ClaimBatch([id], t), ClaimBatch([id], t + 120),
      ResolveFlight(Flight(id, 0), SurfaceTemporarilyUnavailable, t + 120)]
  }

  /** It claims and retries once more. */
  function SecondRetry(id: CaptureId, t: Instant): seq<Event> {
    [ClaimBatch([id], t + 150), ResolveFlight(Flight(id, 1), SurfaceTemporarilyUnavailable, t + 150)]
  }

  /** The first worker still holds its lease while the stored attempts are at `attempts`. */
  ghost predicate Outlived(w: World, id: CaptureId, attempts: nat, due: Instant) {
    && id in w.db.captures && (forall later :: later >= due ==> Waiting(w, id, later))
    && w.db.captures[id].attempts == attempts && Flight(id, 0) in w.flights
  }

  lemma FirstRetry(policy: Policy, w: World, id: CaptureId, t: Instant)
    requires Waiting(w, id, t) && w.db.captures[id].attempts == 0 && policy.maxAttempts >= 4 && policy.batchSize >= 1
    ensures History(policy, w, SecondClaim(id, t)) && Outlived(After(policy, w, SecondClaim(id, t)), id, 1, t + 150)
  {
    hide Next, Enabled, Indexed, RetryDelay, FixedPoint, Claimable;
    Delays();
    var e := SecondClaim(id, t);
    ClaimStep(policy, w, id, t);
    var w1 := Next(policy, w, e[0]);
    ClaimStep(policy, w1, id, t + 120);
    var w2 := Next(policy, w1, e[1]);
    RetryStepTo(policy, w2, Flight(id, 0), t + 120, t + 240);
    var w3 := Next(policy, w2, e[2]);
    assert Waiting(w1, id, t + 120) && Waiting(w2, id, t + 240) && Waiting(w3, id, t + 150);
    Chain(policy, [w, w1, w2, w3], e);
  }

  lemma NextRetry(policy: Policy, w: World, id: CaptureId, t: Instant)
    requires Outlived(w, id, 1, t + 150) && policy.maxAttempts >= 4 && policy.batchSize >= 1
    ensures History(policy, w, SecondRetry(id, t)) && Outlived(After(policy, w, SecondRetry(id, t)), id, 2, t + 270)
  {
    hide Next, Enabled, Indexed, RetryDelay, FixedPoint, Claimable;
    Delays();
    var e := SecondRetry(id, t);
    assert Waiting(w, id, t + 150);
    ClaimStep(policy, w, id, t + 150);
    var w1 := Next(policy, w, e[0]);
    RetryStepTo(policy, w1, Flight(id, 1), t + 150, t + 270);
    var w2 := Next(policy, w1, e[1]);
    assert Waiting(w, id, t + 150) && Waiting(w1, id, t + 270) && Waiting(w2, id, t + 270);
    Chain(policy, [w, w1, w2], e);
  }

  /**
   Wherever a fresh capture waits, a worker that outlives its lease moves the attempts back from two to
   one when it retries at last: the reschedule is unconditional.
   */
  lemma StaleLeaseMovesBack(policy: Policy, w: World, id: CaptureId, t: Instant)
    requires Waiting(w, id, t) && w.db.captures[id].attempts == 0 && policy.maxAttempts >= 4 && policy.batchSize >= 1
    ensures
      var late := ResolveFlight(Flight(id, 0), SurfaceTemporarilyUnavailable, t + 150);
      && History(policy, w, SecondClaim(id, t))
      && History(policy, After(policy, w, SecondClaim(id, t)), SecondRetry(id, t))
      && var before := After(policy, After(policy, w, SecondClaim(id, t)), SecondRetry(id, t));
      && Indexed(before.db) && Enabled(policy, before, late)
      && id in before.db.captures && before.db.captures[id].attempts == 2
      && id in Next(policy, before, late).db.captures && Next(policy, before, late).db.captures[id].attempts == 1
  {
    hide Next, Enabled, Indexed, RetryDelay, FixedPoint, Claimable, History, After, SecondClaim, SecondRetry;
    FirstRetry(policy, w, id, t);
    var w3 := After(policy, w, SecondClaim(id, t));
    NextRetry(policy, w3, id, t);
    assert Waiting(After(policy, w3, SecondRetry(id, t)), id, t + 270);
    RetryStepTo(policy, After(policy, w3, SecondRetry(id, t)), Flight(id, 0), t + 150, t + 270);
  }

  lemma Delays()
    ensures RetryDelay(1) == 30 && RetryDelay(2) == 120
  {
    assert Power(4, 0) == 1 && Power(4, 1) == 4;
  }

  /** Such a waiting capture is one command away from the empty store. */
  lemma DeliveredWaits(policy: Policy, w: World, code: string, now: Instant)
    requires Empty(w.db) && Permalink.ValidShortcode(code)
    ensures
      var e := Deliver(Command(0, 0, 0, Permalink.Url(Permalink.Post, code)), now);
      && History(policy, w, [e])
      && Waiting(After(policy, w, [e]), 0, now) && After(policy, w, [e]).db.captures[0].attempts == 0
  {
    hide Permalink.Canonicalize, Permalink.Url, Permalink.ValidShortcode;
    var url := Permalink.Url(Permalink.Post, code);
    Permalink.CanonicalUrlReadsBack(Permalink.Post, code);
    var e := Deliver(Command(0, 0, 0, url), now);
    var out := Next(policy, w, e);
    assert out.db.captures == map[0 := Capture(0, url, Accepted, Some(now), 0, false)];
    assert out.db.operations == [Operation(0, 0, 0, 0, None)];
    assert Pending(out.db.operations[0], 0);
    assert Indexed(out.db);
    Chain(policy, [w, out], [e]);
  }
}
