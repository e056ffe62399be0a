/**
 The relay at work: what holds in every interleaving of its steps with appends, acknowledgements,
 erasures and crashes, the relay pass as a loop, and the health flag over whole runs.
 */
module OutboxRelay {
  import opened Prelude
  import opened Outbox

  // ---------------------------------------------------------------- steps

  /** A selected row as the relay holds it in memory. */
  datatype Claim = Claim(id: EventId, payload: Body)

  /** Where the one relay task stands (services/instagram-archive/src/bus.rs:109-134). */
  datatype Relay =
    | Idle
    | Delivering(left: seq<Claim>)
    | Booking(claim: Claim, answer: Answer, left: seq<Claim>)
    | Resending(left: seq<Claim>)
    | BookingResend(claim: Claim, answer: Answer, left: seq<Claim>)

  /**
   `accepted` is what the transport took, `refused` the fresh events it called undeliverable; `bodies` the
   payload of every event id ever appended.
   */
  datatype World = World(
    rows: seq<Row>, relay: Relay, accepted: seq<Claim>, bodies: map<EventId, Body>, refused: seq<EventId>)

  datatype Event =
    | Append(row: Row)
    | Ack(id: EventId, tenant: string, now: Instant)
    | EraseRows(ids: set<EventId>)
    | StartPass(batch: nat, now: Instant)
    | Answered(answer: Answer)
    | BookAnswer(policy: ResendPolicy, now: Instant)
    | StartResend(batch: nat, due: seq<Row>, now: Instant)
    | ResendAnswered(answer: Answer)
    | BookResent(policy: ResendPolicy, now: Instant)
    | FinishOrCrash

  predicate NewRow(row: Row) {
    row.published.None? && row.undeliverable.None? && row.acknowledged.None? && row.nextResend.None?
      && row.resendCount == 0
  }

  predicate Enabled(w: World, e: Event) {
    match e
    case Append(row) =>
      && NewRow(row) && (forall i :: 0 <= i < |w.rows| ==> w.rows[i].id != row.id)
      && (row.id in w.bodies ==> w.bodies[row.id] == row.payload)
    case StartPass(_, _) => w.relay.Idle?
    case Answered(_) => w.relay.Delivering? && w.relay.left != []
    case BookAnswer(policy, _) => w.relay.Booking?
    case StartResend(batch, due, now) => w.relay.Delivering? && w.relay.left == []
      && ResendQuery(w.rows, batch, now, due)
    case ResendAnswered(_) => w.relay.Resending? && w.relay.left != []
    case BookResent(policy, _) => w.relay.BookingResend?
    case _ => true
  }

  function Insert(rows: seq<Row>, row: Row): seq<Row> {
    if rows == [] then [row]
    else if Before(row, rows[0]) then [row] + rows
    else [rows[0]] + Insert(rows[1..], row)
  }

  function Without(rows: seq<Row>, ids: set<EventId>): seq<Row> {
    if rows == [] then []
    else (if rows[0].id in ids then [] else [rows[0]]) + Without(rows[1..], ids)
  }

  function Claims(rows: seq<Row>): seq<Claim> {
    seq(|rows|, i requires 0 <= i < |rows| => Claim(rows[i].id, rows[i].payload))
  }

  function Delivered(accepted: seq<Claim>, claim: Claim, answer: Answer): seq<Claim> {
    if answer.Accepted? then accepted + [claim] else accepted
  }

  function Next(w: World, e: Event): World
    requires Enabled(w, e)
  {
    match e
    case Append(row) => w.(rows := Insert(w.rows, row), bodies := w.bodies[row.id := row.payload])
    case Ack(id, tenant, now) => w.(rows := Acknowledge(w.rows, id, tenant, now))
    case EraseRows(ids) => w.(rows := Without(w.rows, ids))
    case StartPass(batch, now) => w.(relay := Delivering(Claims(Select(w.rows, batch, now))))
    case Answered(answer) =>
      var claim := w.relay.left[0];
      w.(relay := Booking(claim, answer, w.relay.left[1..]), accepted := Delivered(w.accepted, claim, answer),
         refused := if answer.Undeliverable? then w.refused + [claim.id] else w.refused)
    case BookAnswer(policy, now) =>
      w.(rows := Book(w.rows, w.relay.claim.id, w.relay.answer, policy, now), relay := Delivering(w.relay.left))
    case StartResend(_, due, _) => w.(relay := Resending(Claims(due)))
    case ResendAnswered(answer) =>
      var claim := w.relay.left[0];
      w.(relay := BookingResend(claim, answer, w.relay.left[1..]), accepted := Delivered(w.accepted, claim, answer))
    case BookResent(policy, now) =>
      w.(rows := BookResend(w.rows, w.relay.claim.id, w.relay.answer, policy, now),
         relay := if w.relay.answer.Accepted? then Resending(w.relay.left) else Idle)
    case FinishOrCrash => w.(relay := Idle)
  }

  predicate History(w: World, events: seq<Event>)
    decreases |events|
  {
    events == [] || (Enabled(w, events[0]) && History(Next(w, events[0]), events[1..]))
  }

  function After(w: World, events: seq<Event>): World
    requires History(w, events)
    decreases |events|
  {
    if events == [] then w else After(Next(w, events[0]), events[1..])
  }

  // ---------------------------------------------------------------- invariant

  predicate RowOk(row: Row, accepted: seq<Claim>, bodies: map<EventId, Body>) {
    && row.id in bodies && bodies[row.id] == row.payload
    && (row.published.Some? ==> Claim(row.id, row.payload) in accepted && row.undeliverable.None?)
    && (row.published.Some? && row.removal ==> row.nextResend.Some?)
  }

  predicate ClaimsOk(claims: seq<Claim>, bodies: map<EventId, Body>) {
    forall i :: 0 <= i < |claims| ==> claims[i].id in bodies && bodies[claims[i].id] == claims[i].payload
  }

  /** Nothing but the relay itself takes a claimed row out of the queue. */
  predicate StillFresh(rows: seq<Row>, claims: seq<Claim>) {
    && (forall i, j :: 0 <= i < j < |claims| ==> claims[i].id != claims[j].id)
    && (forall i, k :: 0 <= i < |claims| && 0 <= k < |rows| && rows[k].id == claims[i].id ==> Publishable(rows[k]))
  }

  /** Every claim the relay still has to deliver or to book, the fresh ones. */
  function FreshClaims(relay: Relay): seq<Claim> {
    match relay
    case Delivering(left) => left
    case Booking(claim, _, left) => [claim] + left
    case _ => []
  }

  function AllClaims(relay: Relay): seq<Claim> {
    match relay
    case Idle => []
    case Delivering(left) => left
    case Booking(claim, _, left) => [claim] + left
    case Resending(left) => left
    case BookingResend(claim, _, left) => [claim] + left
  }

  /** Only what the transport called undeliverable was given up. */
  predicate GivenUp(rows: seq<Row>, refused: seq<EventId>) {
    forall i :: 0 <= i < |rows| && rows[i].undeliverable.Some? ==> rows[i].id in refused
  }

  predicate Inv(w: World) {
    && Table(w.rows)
    && (forall i :: 0 <= i < |w.rows| ==> RowOk(w.rows[i], w.accepted, w.bodies))
    && ClaimsOk(AllClaims(w.relay), w.bodies)
    && StillFresh(w.rows, FreshClaims(w.relay))
    && (w.relay.Booking? && w.relay.answer.Accepted? ==> w.relay.claim in w.accepted)
    && (w.relay.Booking? && w.relay.answer.Undeliverable? ==> w.relay.claim.id in w.refused)
    && GivenUp(w.rows, w.refused)
  }

  lemma {:induction false} InsertRows(rows: seq<Row>, row: Row)
    requires Table(rows) && forall i :: 0 <= i < |rows| ==> rows[i].id != row.id
    ensures Table(Insert(rows, row))
    ensures forall r :: r in Insert(rows, row) <==> r == row || r in rows
  {
    if rows != [] && !Before(row, rows[0]) {
      var rest := rows[1..];
      assert forall i :: 0 <= i < |rest| ==> rest[i] == rows[i + 1];
      InsertRows(rest, row);
      var out := [rows[0]] + Insert(rest, row);
      forall j | 0 < j < |out| ensures Before(out[0], out[j]) && out[0].id != out[j].id {
        assert out[j] in Insert(rest, row);
        if out[j] != row { var k :| 0 <= k < |rest| && rest[k] == out[j]; }
      }
      assert forall j :: 0 < j < |out| ==> out[j] == Insert(rest, row)[j - 1];
    }
  }

  lemma {:induction false} WithoutRows(rows: seq<Row>, ids: set<EventId>)
    requires Table(rows)
    ensures Table(Without(rows, ids))
    ensures forall r :: r in Without(rows, ids) <==> r in rows && r.id !in ids
  {
    if rows == [] {
    } else {
      var rest := rows[1..];
      assert forall i :: 0 <= i < |rest| ==> rest[i] == rows[i + 1];
      WithoutRows(rest, ids);
      var out := Without(rows, ids);
      if rows[0].id !in ids {
        forall j | 0 < j < |out| ensures Before(out[0], out[j]) && out[0].id != out[j].id {
          assert out[j] in Without(rest, ids);
          var k :| 0 <= k < |rest| && rest[k] == out[j];
        }
        assert forall j :: 0 < j < |out| ==> out[j] == Without(rest, ids)[j - 1];
      }
    }
  }

  lemma SelectedFresh(rows: seq<Row>, batch: nat, now: Instant)
    requires Table(rows)
    ensures StillFresh(rows, Claims(Select(rows, batch, now)))
    ensures forall k :: 0 <= k < |Select(rows, batch, now)| ==> Select(rows, batch, now)[k] in rows
  {
    QueueRows(rows, now);
    QueueDistinct(rows, now);
  }

  /** Updating rows in place keeps the table's order as long as the keys stay. */
  lemma UpdateKeepsTable(rows: seq<Row>, out: seq<Row>)
    requires Table(rows) && |out| == |rows|
    requires forall i :: 0 <= i < |rows| ==> out[i].id == rows[i].id && out[i].occurred == rows[i].occurred
    ensures Table(out)
  {
    assert forall i, j :: 0 <= i < j < |out| ==> Before(rows[i], rows[j]);
  }

  lemma AppendKeeps(w: World, row: Row)
    requires Inv(w) && Enabled(w, Append(row))
    ensures Inv(Next(w, Append(row)))
  {
    InsertRows(w.rows, row);
    var w' := Next(w, Append(row));
    hide Insert, Table;
    forall i | 0 <= i < |w'.rows|
      ensures RowOk(w'.rows[i], w'.accepted, w'.bodies)
      ensures Publishable(w'.rows[i]) || w'.rows[i] in w.rows
    {
      assert w'.rows[i] in w'.rows;
      if w'.rows[i] != row { var k :| 0 <= k < |w.rows| && w.rows[k] == w'.rows[i]; }
    }
    assert StillFresh(w'.rows, FreshClaims(w'.relay)) by {
      forall i, k | 0 <= i < |FreshClaims(w.relay)| && 0 <= k < |w'.rows| && w'.rows[k].id == FreshClaims(w.relay)[i].id
        ensures Publishable(w'.rows[k])
      {
        if w'.rows[k] in w.rows { var j :| 0 <= j < |w.rows| && w.rows[j] == w'.rows[k]; }
      }
    }
  }

  lemma EraseKeeps(w: World, ids: set<EventId>)
    requires Inv(w)
    ensures Inv(Next(w, EraseRows(ids)))
  {
    WithoutRows(w.rows, ids);
    var w' := Next(w, EraseRows(ids));
    hide Without, Table, RowOk;
    forall i | 0 <= i < |w'.rows| ensures exists k :: 0 <= k < |w.rows| && w.rows[k] == w'.rows[i] {
      assert w'.rows[i] in w'.rows;
    }
  }

  lemma StartKeeps(w: World, batch: nat, now: Instant)
    requires Inv(w) && Enabled(w, StartPass(batch, now))
    ensures Inv(Next(w, StartPass(batch, now)))
  {
    hide Select, Table, StillFresh;
    SelectedFresh(w.rows, batch, now);
    var claimed := Select(w.rows, batch, now);
    forall k | 0 <= k < |claimed| ensures claimed[k].id in w.bodies && w.bodies[claimed[k].id] == claimed[k].payload {
      assert claimed[k] in w.rows;
      var i :| 0 <= i < |w.rows| && w.rows[i] == claimed[k];
    }
  }

  lemma BookKeeps(w: World, policy: ResendPolicy, now: Instant)
    requires Inv(w) && w.relay.Booking?
    ensures Inv(Next(w, BookAnswer(policy, now)))
  {
    var w' := Next(w, BookAnswer(policy, now));
    UpdateKeepsTable(w.rows, w'.rows);
    hide Table;
    var claims := FreshClaims(w.relay);
    assert claims[0] == w.relay.claim && claims[1..] == w.relay.left;
    forall i | 0 <= i < |w'.rows|
      ensures RowOk(w'.rows[i], w'.accepted, w'.bodies)
    {
      if w.rows[i].id == claims[0].id {
        assert Publishable(w.rows[i]);
      }
    }
    assert forall i :: 0 <= i < |w.relay.left| ==> w.relay.left[i] == claims[i + 1];
  }

  lemma ResentRowOk(row: Row, answer: Answer, policy: ResendPolicy, now: Instant, accepted: seq<Claim>,
                    bodies: map<EventId, Body>)
    requires RowOk(row, accepted, bodies)
    ensures
      var out := if answer.Accepted? then Resent(row, policy, now) else BackedOff(row, now);
      && RowOk(out, accepted, bodies) && out.id == row.id && out.occurred == row.occurred
      && out.undeliverable == row.undeliverable
  {
    hide ResendDelay;
  }

  lemma ResentRows(rows: seq<Row>, id: EventId, answer: Answer, policy: ResendPolicy, now: Instant,
                   accepted: seq<Claim>,
                   bodies: map<EventId, Body>)
    requires Table(rows) && forall i :: 0 <= i < |rows| ==> RowOk(rows[i], accepted, bodies)
    ensures
      var out := BookResend(rows, id, answer, policy, now);
      && Table(out) && |out| == |rows|
      && (forall i :: 0 <= i < |out| ==> RowOk(out[i], accepted, bodies))
      && (forall i :: 0 <= i < |out| ==> out[i].id == rows[i].id && out[i].undeliverable == rows[i].undeliverable)
  {
    hide Table, Resent, BackedOff, RowOk;
    var out := BookResend(rows, id, answer, policy, now);
    forall i | 0 <= i < |rows|
      ensures RowOk(out[i], accepted, bodies) && out[i].id == rows[i].id && out[i].occurred == rows[i].occurred
      ensures out[i].undeliverable == rows[i].undeliverable
    {
      ResentRowOk(rows[i], answer, policy, now, accepted, bodies);
    }
    UpdateKeepsTable(rows, out);
  }

  lemma NothingFresh(rows: seq<Row>)
    ensures StillFresh(rows, [])
  {
  }

  lemma ResendBookKeeps(w: World, policy: ResendPolicy, now: Instant)
    requires Inv(w) && w.relay.BookingResend?
    ensures Inv(Next(w, BookResent(policy, now)))
  {
    hide Table, RowOk, BookResend, StillFresh;
    NothingFresh(BookResend(w.rows, w.relay.claim.id, w.relay.answer, policy, now));
    ResentRows(w.rows, w.relay.claim.id, w.relay.answer, policy, now, w.accepted, w.bodies);
    assert forall i :: 0 <= i < |w.relay.left| ==> w.relay.left[i] == AllClaims(w.relay)[i + 1];
  }

  lemma AckKeeps(w: World, id: EventId, tenant: string, now: Instant)
    requires Inv(w)
    ensures Inv(Next(w, Ack(id, tenant, now)))
  {
    var w' := Next(w, Ack(id, tenant, now));
    UpdateKeepsTable(w.rows, w'.rows);
    hide Table;
  }

  lemma AnswerKeeps(w: World, e: Event)
    requires Inv(w) && Enabled(w, e) && (e.Answered? || e.ResendAnswered?)
    ensures Inv(Next(w, e))
  {
    hide Table;
    var claims := w.relay.left;
    assert [claims[0]] + claims[1..] == claims;
  }

  lemma StepKeeps(w: World, e: Event)
    requires Inv(w) && Enabled(w, e)
    ensures Inv(Next(w, e))
  {
    match e
    case Append(row) => AppendKeeps(w, row);
    case Ack(id, tenant, now) => AckKeeps(w, id, tenant, now);
    case EraseRows(ids) => EraseKeeps(w, ids);
    case StartPass(batch, now) => StartKeeps(w, batch, now);
    case Answered(_) => AnswerKeeps(w, e);
    case BookAnswer(policy, now) => BookKeeps(w, policy, now);
    case StartResend(_, due, _) =>
      hide Table;
    case ResendAnswered(_) => AnswerKeeps(w, e);
    case BookResent(policy, now) => ResendBookKeeps(w, policy, now);
    case FinishOrCrash =>
  }

  lemma {:induction false} HistoryKeeps(w: World, events: seq<Event>)
    requires Inv(w) && History(w, events)
    ensures Inv(After(w, events))
    decreases |events|
  {
    hide Inv, Next, Enabled;
    if events == [] {
    } else {
      StepKeeps(w, events[0]);
      HistoryKeeps(Next(w, events[0]), events[1..]);
    }
  }

  // ---------------------------------------------------------------- main results

  predicate Initial(w: World) {
    w == World([], Idle, [], map[], [])
  }

  /**
   In every history a row is marked published only after the transport accepted its unchanged
   payload, never becomes both published and undeliverable, and a published removal always has a
   next resend instant, from which on the resend phase considers it until it is acknowledged.
   */
  lemma PublishedWasAccepted(w: World, events: seq<Event>, row: Row, now: Instant)
    requires Initial(w) && History(w, events) && row in After(w, events).rows
    ensures row.published.Some? ==>
              Claim(row.id, row.payload) in After(w, events).accepted && row.undeliverable.None?
    ensures row.published.Some? && row.removal && row.acknowledged.None? ==>
              row.nextResend.Some? && (row.nextResend.value <= now && Ready(row, now) ==> DueForResend(row, now))
  {
    HistoryKeeps(w, events);
    hide After, History, Table;
    var i :| 0 <= i < |After(w, events).rows| && After(w, events).rows[i] == row;
  }

  /** A row is given up only after the transport called a fresh delivery of it undeliverable. */
  lemma GivenUpWasRefused(w: World, events: seq<Event>, row: Row)
    requires Initial(w) && History(w, events) && row in After(w, events).rows && row.undeliverable.Some?
    ensures row.id in After(w, events).refused
  {
    HistoryKeeps(w, events);
    hide After, History, Table;
    var i :| 0 <= i < |After(w, events).rows| && After(w, events).rows[i] == row;
  }

  /** The payload the transport accepted under an event id is the one that was appended under it. */
  lemma AcceptedUnchanged(w: World, events: seq<Event>, claim: Claim)
    requires Initial(w) && History(w, events) && claim in After(w, events).accepted
    ensures claim.id in After(w, events).bodies && After(w, events).bodies[claim.id] == claim.payload
  {
    AcceptedHistory(w, events);
    hide After, History;
    var i :| 0 <= i < |After(w, events).accepted| && After(w, events).accepted[i] == claim;
  }

  lemma {:induction false} AcceptedHistory(w: World, events: seq<Event>)
    requires Inv(w) && ClaimsOk(w.accepted, w.bodies) && History(w, events)
    ensures ClaimsOk(After(w, events).accepted, After(w, events).bodies)
    decreases |events|
  {
    if events == [] {
    } else {
      StepKeeps(w, events[0]);
      assert ClaimsOk(Next(w, events[0]).accepted, Next(w, events[0]).bodies) by { hide Table, RowOk, StillFresh; }
      AcceptedHistory(Next(w, events[0]), events[1..]);
    }
  }

  // ---------------------------------------------------------------- after the acknowledgement

  /** Nothing selects the row: it is published and acknowledged, or given up without being published. */
  predicate Quiet(row: Row) {
    || (row.published.Some? && row.acknowledged.Some?)
    || (row.published.None? && row.undeliverable.Some?)
  }

  predicate QuietRows(rows: seq<Row>, id: EventId) {
    forall i :: 0 <= i < |rows| && rows[i].id == id ==> Quiet(rows[i])
  }

  predicate NotHeld(relay: Relay, id: EventId) {
    forall i :: 0 <= i < |AllClaims(relay)| ==> AllClaims(relay)[i].id != id
  }

  /** The event's row, if it is still stored, is quiet, and the relay does not hold it. */
  predicate Settled(w: World, id: EventId) {
    QuietRows(w.rows, id) && NotHeld(w.relay, id)
  }

  lemma SettledStep(w: World, e: Event, id: EventId)
    requires Inv(w) && Enabled(w, e) && Settled(w, id) && (e.Append? ==> e.row.id != id)
    ensures Settled(Next(w, e), id)
    ensures |w.accepted| <= |Next(w, e).accepted|
    ensures forall k :: |w.accepted| <= k < |Next(w, e).accepted| ==> Next(w, e).accepted[k].id != id
  {
    hide Table, RowOk, ClaimsOk, StillFresh, ResendDelay, Insert, Without, Select, Queue, ResendQuery;
    match e
    case Append(row) => InsertSettled(w.rows, row, id);
    case EraseRows(ids) => WithoutSettled(w.rows, ids, id);
    case StartPass(batch, now) => SelectSettled(w.rows, batch, now, id);
    case StartResend(batch, due, now) => DueSettled(w.rows, batch, due, now, id);
    case Answered(_) => assert AllClaims(w.relay) == [w.relay.left[0]] + w.relay.left[1..];
    case ResendAnswered(_) => assert AllClaims(w.relay) == [w.relay.left[0]] + w.relay.left[1..];
    case BookAnswer(_, _) =>
      assert AllClaims(w.relay)[0] == w.relay.claim && AllClaims(w.relay)[1..] == w.relay.left;
    case BookResent(_, _) =>
      assert AllClaims(w.relay)[0] == w.relay.claim && AllClaims(w.relay)[1..] == w.relay.left;
    case Ack(_, _, _) =>
    case FinishOrCrash =>
  }

  lemma InsertSettled(rows: seq<Row>, row: Row, id: EventId)
    requires Table(rows) && QuietRows(rows, id) && row.id != id && forall i :: 0 <= i < |rows| ==> rows[i].id != row.id
    ensures QuietRows(Insert(rows, row), id)
  {
    hide Table, Insert, Quiet;
    InsertRows(rows, row);
    forall i | 0 <= i < |Insert(rows, row)| ensures Insert(rows, row)[i] in Insert(rows, row) {
    }
  }

  lemma WithoutSettled(rows: seq<Row>, ids: set<EventId>, id: EventId)
    requires Table(rows) && QuietRows(rows, id)
    ensures QuietRows(Without(rows, ids), id)
  {
    hide Table, Without, Quiet;
    WithoutRows(rows, ids);
    forall i | 0 <= i < |Without(rows, ids)| ensures Without(rows, ids)[i] in Without(rows, ids) {
    }
  }

  lemma SelectSettled(rows: seq<Row>, batch: nat, now: Instant, id: EventId)
    requires QuietRows(rows, id)
    ensures forall i :: 0 <= i < |Claims(Select(rows, batch, now))| ==> Claims(Select(rows, batch, now))[i].id != id
  {
    hide Queue;
    QueueRows(rows, now);
  }

  lemma DueSettled(rows: seq<Row>, batch: nat, due: seq<Row>, now: Instant, id: EventId)
    requires QuietRows(rows, id) && ResendQuery(rows, batch, now, due)
    ensures forall i :: 0 <= i < |Claims(due)| ==> Claims(due)[i].id != id
  {
  }

  /** The history appends no new row under this id. */
  predicate NotAppended(events: seq<Event>, id: EventId) {
    forall i :: 0 <= i < |events| && events[i].Append? ==> events[i].row.id != id
  }

  /** The transport accepts the event somewhere in the history. */
  ghost predicate SentIn(w: World, events: seq<Event>, id: EventId)
    requires History(w, events)
  {
    exists k :: |w.accepted| <= k < |After(w, events).accepted| && After(w, events).accepted[k].id == id
  }

  /**
   Once a published removal is acknowledged, no pass that starts afterwards sends it again, over any
   continuation that does not append the same event anew.
   */
  lemma {:induction false} NoResendAfterAck(w: World, events: seq<Event>, id: EventId)
    requires Inv(w) && History(w, events) && Settled(w, id) && NotAppended(events, id)
    ensures |w.accepted| <= |After(w, events).accepted| && !SentIn(w, events, id)
    decreases |events|
  {
    hide Inv, Next, Enabled, Settled;
    if events == [] {
    } else {
      var next := Next(w, events[0]);
      StepKeeps(w, events[0]);
      SettledStep(w, events[0], id);
      assert forall i :: 0 <= i < |events[1..]| ==> events[1..][i] == events[i + 1];
      NoResendAfterAck(next, events[1..], id);
      AcceptedGrows(next, events[1..]);
    }
  }

  lemma {:induction false} AcceptedGrows(w: World, events: seq<Event>)
    requires History(w, events)
    ensures w.accepted <= After(w, events).accepted
    decreases |events|
  {
    if events == [] {
    } else {
      assert w.accepted <= Next(w, events[0]).accepted;
      AcceptedGrows(Next(w, events[0]), events[1..]);
    }
  }

  /** A relay that holds a fresh claim of the event can get it accepted. */
  lemma {:induction false} HeldCanBeSent(w: World, id: EventId, policy: ResendPolicy) returns (events: seq<Event>)
    requires w.relay.Delivering? && exists i :: 0 <= i < |w.relay.left| && w.relay.left[i].id == id
    ensures History(w, events) && NotAppended(events, id) && SentIn(w, events, id)
    decreases if w.relay.Delivering? then |w.relay.left| else 0
  {
    var left := w.relay.left;
    if left[0].id == id {
      events := [Answered(Accepted)];
      var next := Next(w, events[0]);
      assert After(w, events) == After(next, events[1..]) == next;
      assert next.accepted[|w.accepted|].id == id;
    } else {
      var first, second := Answered(Transient), BookAnswer(policy, 0);
      var booking := Next(w, first);
      var next := Next(booking, second);
      var i :| 0 <= i < |left| && left[i].id == id;
      assert next.relay.left[i - 1].id == id;
      var rest := HeldCanBeSent(next, id, policy);
      events := [first, second] + rest;
      assert events[1..] == [second] + rest && events[1..][1..] == rest;
      assert History(booking, [second] + rest) by { assert ([second] + rest)[1..] == rest; }
      assert After(w, events) == After(booking, [second] + rest) == After(next, rest);
      assert next.accepted == w.accepted;
    }
  }

  lemma {:induction false} QueueIsShorter(rows: seq<Row>, now: Instant)
    ensures |Queue(rows, now)| <= |rows|
  {
    if rows == [] {
    } else {
      QueueIsShorter(rows[1..], now);
    }
  }

  /** A pass that starts after a back-off with a large enough batch claims every publishable row. */
  lemma PublishableIsClaimed(rows: seq<Row>, row: Row) returns (now: Instant)
    requires row in rows && Publishable(row)
    ensures exists i ::
            0 <= i < |Claims(Select(rows, |rows|, now))| && Claims(Select(rows, |rows|, now))[i].id == row.id
  {
    now := if row.nextAttempt.Some? then row.nextAttempt.value else 0;
    QueuedRow(rows, row, now);
    QueueIsShorter(rows, now);
    var i :| 0 <= i < |Queue(rows, now)| && Queue(rows, now)[i] == row;
    assert Select(rows, |rows|, now) == Queue(rows, now);
    assert Claims(Select(rows, |rows|, now))[i].id == row.id;
  }

  lemma CanBeSent(w: World, row: Row, policy: ResendPolicy) returns (events: seq<Event>)
    requires row in w.rows && Publishable(row)
    ensures History(w, events) && NotAppended(events, row.id) && SentIn(w, events, row.id)
  {
    hide Select, Queue, Publishable;
    var now := PublishableIsClaimed(w.rows, row);
    var first, second := FinishOrCrash, StartPass(|w.rows|, now);
    var idle := Next(w, first);
    var started := Next(idle, second);
    var rest := HeldCanBeSent(started, row.id, policy);
    events := [first, second] + rest;
    assert events[1..] == [second] + rest && events[1..][1..] == rest;
    assert History(idle, [second] + rest) by { assert ([second] + rest)[1..] == rest; }
    assert After(w, events) == After(idle, [second] + rest) == After(started, rest);
  }

  /** Some continuation, without appending the event anew, gets it accepted. */
  ghost predicate CanStillBeSent(w: World, id: EventId) {
    exists events :: History(w, events) && NotAppended(events, id) && SentIn(w, events, id)
  }

  /**
   After an acknowledgement, with no claim of the event in flight, it can be sent again exactly when its
   row is still neither published nor undeliverable: an acknowledgement that overtakes mark_published
   does not take the row out of the queue.
   */
  lemma AcknowledgedSentAgainIff(w: World, row: Row, policy: ResendPolicy)
    requires Inv(w) && row in w.rows && row.acknowledged.Some? && NotHeld(w.relay, row.id)
    ensures CanStillBeSent(w, row.id) <==> row.published.None? && row.undeliverable.None?
  {
    hide History, NotAppended, SentIn, NotHeld;
    if Publishable(row) {
      var events := CanBeSent(w, row, policy);
    } else {
      SettledOf(w, row);
      if events :| History(w, events) && NotAppended(events, row.id) && SentIn(w, events, row.id) {
        NoResendAfterAck(w, events, row.id);
        assert false;
      }
    }
  }

  lemma SettledOf(w: World, row: Row)
    requires Inv(w) && row in w.rows && row.acknowledged.Some? && NotHeld(w.relay, row.id) && !Publishable(row)
    ensures Settled(w, row.id)
  {
    hide ClaimsOk, StillFresh, NotHeld;
    var k :| 0 <= k < |w.rows| && w.rows[k] == row;
    forall i | 0 <= i < |w.rows| && w.rows[i].id == row.id ensures Quiet(w.rows[i]) {
      assert i == k;
    }
  }

  function RemovalRow(id: EventId, tenant: string, payload: Body): Row {
    Row(id, 0, true, tenant, payload, None, None, 0, None, 0, None, None)
  }

  /** Delivered, and acknowledged before it is marked. */
  function Overtaken(row: Row): seq<Event> {
    [Append(row), StartPass(1, 0), Answered(Accepted), Ack(row.id, row.tenant, 0)]
  }

  /** A crash before the mark, and the next pass. */
  function NextPass(): seq<Event> {
    [FinishOrCrash, StartPass(1, 0), Answered(Accepted)]
  }

  function AckedWorld(row: Row): World {
    World([row.(acknowledged := Some(0))], Booking(Claim(row.id, row.payload), Accepted, []),
          [Claim(row.id, row.payload)], map[row.id := row.payload], [])
  }

  lemma FirstDelivery(w: World, row: Row)
    requires Initial(w) && row == RemovalRow(row.id, row.tenant, row.payload)
    ensures History(w, Overtaken(row)) && After(w, Overtaken(row)) == AckedWorld(row)
  {
    hide Enabled, Next;
    var claim := Claim(row.id, row.payload);
    var w1 := World([row], Idle, [], map[row.id := row.payload], []);
    var w2 := w1.(relay := Delivering([claim]));
    var w3 := w1.(relay := Booking(claim, Accepted, []), accepted := [claim]);
    AppendStep(w, row);
    PassStep(w1, row);
    AnswerStep(w2, row);
    AckStep(w3, row);
    Chain([w, w1, w2, w3, AckedWorld(row)], Overtaken(row));
  }

  lemma AppendStep(w: World, row: Row)
    requires Initial(w) && row == RemovalRow(row.id, row.tenant, row.payload)
    ensures Enabled(w, Append(row))
    ensures Next(w, Append(row)) == World([row], Idle, [], map[row.id := row.payload], [])
  {
    assert Insert([], row) == [row];
  }

  /** An idle relay that finds one fresh row claims it. */
  lemma PassStep(w: World, row: Row)
    requires w.relay.Idle? && w.rows == [row] && Fresh(row, 0)
    ensures Enabled(w, StartPass(1, 0))
    ensures Next(w, StartPass(1, 0)) == w.(relay := Delivering([Claim(row.id, row.payload)]))
  {
    hide Queue;
    OnlyRow(row);
  }

  lemma AnswerStep(w: World, row: Row)
    requires w.relay == Delivering([Claim(row.id, row.payload)])
    ensures Enabled(w, Answered(Accepted))
    ensures
      var claim := Claim(row.id, row.payload);
      Next(w, Answered(Accepted)) == w.(relay := Booking(claim, Accepted, []), accepted := w.accepted + [claim])
  {
    assert [Claim(row.id, row.payload)][1..] == [];
  }

  lemma AckStep(w: World, row: Row)
    requires row == RemovalRow(row.id, row.tenant, row.payload) && w.rows == [row]
    ensures Enabled(w, Ack(row.id, row.tenant, 0))
    ensures Next(w, Ack(row.id, row.tenant, 0)) == w.(rows := [row.(acknowledged := Some(0))])
  {
    assert Acknowledge([row], row.id, row.tenant, 0) == [row.(acknowledged := Some(0))];
  }

  lemma SecondDelivery(row: Row)
    requires row == RemovalRow(row.id, row.tenant, row.payload)
    ensures History(AckedWorld(row), NextPass())
    ensures After(AckedWorld(row), NextPass()).accepted == [Claim(row.id, row.payload), Claim(row.id, row.payload)]
  {
    hide Enabled, Next;
    var claim, w := Claim(row.id, row.payload), AckedWorld(row);
    var w1 := w.(relay := Idle);
    var w2 := w.(relay := Delivering([claim]));
    var w3 := w.(relay := Booking(claim, Accepted, []), accepted := [claim, claim]);
    CrashStep(w);
    PassStep(w1, w.rows[0]);
    AnswerStep(w2, row);
    assert [claim] + [claim] == [claim, claim];
    Chain([w, w1, w2, w3], NextPass());
  }

  lemma CrashStep(w: World)
    ensures Enabled(w, FinishOrCrash) && Next(w, FinishOrCrash) == w.(relay := Idle)
  {
  }

  /** For every removal there is a history in which it is sent again after its acknowledgement. */
  lemma AcknowledgementOvertakesMark(w: World, id: EventId, tenant: string, payload: Body)
    requires Initial(w)
    ensures
      var row := RemovalRow(id, tenant, payload);
      && History(w, Overtaken(row))
      && var acked := After(w, Overtaken(row));
      && acked.rows == [row.(acknowledged := Some(0))] && acked.accepted == [Claim(id, payload)]
      && History(acked, NextPass())
      && After(acked, NextPass()).accepted == [Claim(id, payload), Claim(id, payload)]
  {
    hide History, After, Overtaken, NextPass;
    FirstDelivery(w, RemovalRow(id, tenant, payload));
    SecondDelivery(RemovalRow(id, tenant, payload));
  }

  lemma OnlyRow(row: Row)
    requires Fresh(row, 0)
    ensures Claims(Select([row], 1, 0)) == [Claim(row.id, row.payload)]
  {
    assert Queue([row][1..], 0) == [];
    assert Queue([row], 0) == [row];
  }

  /** A sequence of worlds linked by events is a history. */
  lemma {:induction false} Chain(worlds: seq<World>, events: seq<Event>)
    requires |worlds| == |events| + 1
    requires forall i :: 0 <= i < |events| ==>
             Enabled(worlds[i], events[i]) && Next(worlds[i], events[i]) == worlds[i + 1]
    ensures History(worlds[0], events) && After(worlds[0], events) == worlds[|events|]
    decreases |events|
  {
    hide Enabled, Next;
    if events == [] {
    } else {
      Chain(worlds[1..], events[1..]);
    }
  }

  // ---------------------------------------------------------------- health

  datatype Verdict = Healthy | Failing | Waiting

  function Remaining(rows: seq<Row>): nat {
    if rows == [] then 0 else (if Publishable(rows[0]) then 1 else 0) + Remaining(rows[1..])
  }

  function Oldest(rows: seq<Row>): Option<Row> {
    if rows == [] then None else if Publishable(rows[0]) then Some(rows[0]) else Oldest(rows[1..])
  }

  predicate Stuck(rows: seq<Row>, now: Instant) {
    var oldest := Oldest(rows);
    oldest.Some? && (oldest.value.attempts >= FAILING_ATTEMPTS || oldest.value.occurred < now - FAILING_AGE_SECONDS)
  }

  function VerdictFor(failed: nat, remaining: nat, stuck: bool): Verdict {
    if remaining == 0 then Healthy
    else if !stuck then Healthy
    else if failed > 0 then Failing
    else Waiting
  }

  function PassVerdict(rows: seq<Row>, batch: nat, pass: Pass, policy: ResendPolicy): Verdict
    requires PassOk(rows, batch, pass, policy)
  {
    var out := AfterPass(rows, batch, pass, policy);
    VerdictFor(Count(pass.answers, Transient), Remaining(out), Stuck(out, pass.end))
  }

  function Recorded(flag: bool, verdict: Verdict): bool {
    match verdict
    case Failing => true
    case Healthy => false
    case Waiting => flag
  }

  /** The verdict looks at the first publishable row: failed three times or older than 300 seconds. */
  lemma {:induction false} StuckMeans(rows: seq<Row>, now: Instant)
    ensures Stuck(rows, now) <==>
              exists i :: 0 <= i < |rows| && FirstPublishable(rows, i)
                          && (rows[i].attempts >= 3 || rows[i].occurred < now - 300)
    ensures Oldest(rows).None? <==> forall i :: 0 <= i < |rows| ==> !Publishable(rows[i])
  {
    if rows == [] {
    } else {
      var rest := rows[1..];
      assert forall i :: 0 < i < |rows| ==> rows[i] == rest[i - 1];
      StuckMeans(rest, now);
      if Publishable(rows[0]) {
        assert FirstPublishable(rows, 0);
      } else {
        forall i | 0 < i < |rows| ensures FirstPublishable(rows, i) <==> FirstPublishable(rest, i - 1) {
        }
        assert Stuck(rows, now) <==> Stuck(rest, now);
        if i :| 0 <= i < |rest| && FirstPublishable(rest, i)
                && (rest[i].attempts >= 3 || rest[i].occurred < now - 300) {
          assert FirstPublishable(rows, i + 1);
        }
      }
    }
  }

  predicate FirstPublishable(rows: seq<Row>, i: nat)
    requires i < |rows|
  {
    Publishable(rows[i]) && forall j :: 0 <= j < i ==> !Publishable(rows[j])
  }

  lemma {:induction false} SameFreshSameHealth(a: seq<Row>, b: seq<Row>)
    requires SameFresh(a, b)
    ensures Remaining(a) == Remaining(b) && Oldest(a) == Oldest(b)
    ensures Oldest(a).None? <==> Remaining(a) == 0
  {
    if a == [] {
    } else {
      assert forall i :: 0 <= i < |a[1..]| ==> a[1..][i] == a[i + 1] && b[1..][i] == b[i + 1];
      SameFreshSameHealth(a[1..], b[1..]);
    }
  }

  lemma {:induction false} FreshPhaseIds(rows: seq<Row>, claimed: seq<Row>, answers: seq<(Answer, Instant)>,
                                         policy: ResendPolicy)
    requires |answers| == |claimed| && DistinctIds(rows)
    ensures DistinctIds(FreshPhase(rows, claimed, answers, policy))
    decreases |claimed|
  {
    if claimed == [] {
    } else {
      var booked := Book(rows, claimed[0].id, answers[0].0, policy, answers[0].1);
      assert DistinctIds(booked);
      FreshPhaseIds(booked, claimed[1..], answers[1..], policy);
    }
  }

  /**
   The verdict is decided by the fresh phase alone: it is Failing exactly when a fresh delivery failed
   and the fresh phase left a stuck oldest row, and Healthy exactly when it left no stuck row.
   Whatever the resend phase did, the verdict is the same.
   */
  lemma VerdictIgnoresResends(rows: seq<Row>, batch: nat, pass: Pass, policy: ResendPolicy)
    requires PassOk(rows, batch, pass, policy) && DistinctIds(rows)
    ensures
      var booked := AfterFresh(rows, batch, pass, policy);
      var verdict := PassVerdict(rows, batch, pass, policy);
      && (verdict.Failing? <==> Transient in Answers(pass) && Stuck(booked, pass.end))
      && (verdict.Healthy? <==> !Stuck(booked, pass.end))
    ensures DistinctIds(AfterPass(rows, batch, pass, policy))
  {
    var booked := AfterFresh(rows, batch, pass, policy);
    FreshPhaseIds(rows, Select(rows, batch, pass.start), pass.answers, policy);
    if Count(pass.answers, Transient) == 0 { DueArePublished(booked, batch, pass.resendStart, pass.due); }
    CountPositive(pass.answers, Transient);
    assert forall i :: 0 <= i < |pass.answers| ==> Answers(pass)[i] == pass.answers[i].0;
    hide AfterFresh, ResendQuery, Count, ResendPhase;
    ResendTouchesPublished(booked, pass.due, pass.resends, policy);
    SameFreshSameHealth(booked, AfterPass(rows, batch, pass, policy));
  }

  function Answers(pass: Pass): seq<Answer> {
    seq(|pass.answers|, i requires 0 <= i < |pass.answers| => pass.answers[i].0)
  }

  lemma {:induction false} CountPositive(answers: seq<(Answer, Instant)>, answer: Answer)
    ensures Count(answers, answer) > 0 <==> exists i :: 0 <= i < |answers| && answers[i].0 == answer
  {
    if answers == [] {
    } else {
      CountPositive(answers[..|answers| - 1], answer);
    }
  }

  /** One pass with the table it found: whatever was appended, acknowledged or erased since the one before. */
  datatype Turn = Turn(rows: seq<Row>, pass: Pass)

  predicate TurnsOk(turns: seq<Turn>, batch: nat, policy: ResendPolicy) {
    forall i :: 0 <= i < |turns| ==> PassOk(turns[i].rows, batch, turns[i].pass, policy) && DistinctIds(turns[i].rows)
  }

  /** The flag after a run of passes. */
  function Flag(turns: seq<Turn>, batch: nat, policy: ResendPolicy, flag: bool): bool
    requires TurnsOk(turns, batch, policy)
  {
    if turns == [] then flag
    else
      var front, last := turns[..|turns| - 1], turns[|turns| - 1];
      Recorded(Flag(front, batch, policy, flag), PassVerdict(last.rows, batch, last.pass, policy))
  }

  /** The turn's fresh phase ended with a stuck oldest row. */
  predicate LeftStuck(turn: Turn, batch: nat, policy: ResendPolicy)
    requires PassOk(turn.rows, batch, turn.pass, policy)
  {
    Stuck(AfterFresh(turn.rows, batch, turn.pass, policy), turn.pass.end)
  }

  predicate StuckFrom(turns: seq<Turn>, batch: nat, policy: ResendPolicy, k: nat)
    requires TurnsOk(turns, batch, policy)
  {
    forall j :: k <= j < |turns| ==> LeftStuck(turns[j], batch, policy)
  }

  /** Turn k had a failed fresh delivery and left a stuck row, and every later turn left one too. */
  predicate Raised(turns: seq<Turn>, batch: nat, policy: ResendPolicy, k: nat)
    requires TurnsOk(turns, batch, policy)
  {
    k < |turns| && Transient in Answers(turns[k].pass) && StuckFrom(turns, batch, policy, k)
  }

  /**
   Hysteresis over whole runs: the flag is up at the end exactly when some pass raised it and no later
   pass cleared it, or it was up before and no pass cleared it.
   */
  lemma {:induction false} FlagOverRuns(turns: seq<Turn>, batch: nat, policy: ResendPolicy, flag: bool)
    requires TurnsOk(turns, batch, policy)
    ensures Flag(turns, batch, policy, flag) <==>
              || (exists k: nat :: Raised(turns, batch, policy, k))
              || (flag && StuckFrom(turns, batch, policy, 0))
  {
    hide PassOk, PassVerdict, LeftStuck, Answers, DistinctIds;
    if turns == [] {
      assert !exists k: nat :: Raised(turns, batch, policy, k);
    } else {
      var front, last := turns[..|turns| - 1], turns[|turns| - 1];
      FlagOverRuns(front, batch, policy, flag);
      TurnDecides(last, batch, policy);
      RaisedExtends(turns, front, batch, policy);
    }
  }

  lemma TurnDecides(turn: Turn, batch: nat, policy: ResendPolicy)
    requires PassOk(turn.rows, batch, turn.pass, policy) && DistinctIds(turn.rows)
    ensures
      var verdict := PassVerdict(turn.rows, batch, turn.pass, policy);
      && (verdict.Failing? <==> Transient in Answers(turn.pass) && LeftStuck(turn, batch, policy))
      && (verdict.Healthy? <==> !LeftStuck(turn, batch, policy))
  {
    hide PassOk, PassVerdict, Answers, DistinctIds, Stuck, AfterFresh;
    VerdictIgnoresResends(turn.rows, batch, turn.pass, policy);
  }

  lemma RaisedExtends(turns: seq<Turn>, front: seq<Turn>, batch: nat, policy: ResendPolicy)
    requires turns != [] && front == turns[..|turns| - 1] && TurnsOk(turns, batch, policy)
             && TurnsOk(front, batch, policy)
    ensures
      var stuck := LeftStuck(turns[|turns| - 1], batch, policy);
      && (StuckFrom(turns, batch, policy, 0) <==> StuckFrom(front, batch, policy, 0) && stuck)
      && ((exists k: nat :: Raised(turns, batch, policy, k)) <==>
            stuck && (Transient in Answers(turns[|turns| - 1].pass)
              || exists k: nat :: Raised(front, batch, policy, k)))
  {
    hide PassOk, LeftStuck, Answers, DistinctIds;
    var last := |turns| - 1;
    assert forall i :: 0 <= i < |front| ==> front[i] == turns[i];
    forall k: nat | k <= last
      ensures StuckFrom(turns, batch, policy, k) <==>
              StuckFrom(front, batch, policy, k) && LeftStuck(turns[last], batch, policy)
    {
    }
    if k: nat :| Raised(turns, batch, policy, k) {
      if k < last { assert Raised(front, batch, policy, k); }
    }
    if LeftStuck(turns[last], batch, policy) {
      if Transient in Answers(turns[last].pass) { assert Raised(turns, batch, policy, last); }
      if k: nat :| Raised(front, batch, policy, k) { assert Raised(turns, batch, policy, k); }
    }
  }

  // ---------------------------------------------------------------- the relay as a loop

  datatype PassSummary = PassSummary(
    delivered: nat, failed: nat, undeliverable: nat, resent: nat, resendFailed: nat, remaining: nat, verdict: Verdict)

  /** How many resends went out before the first refusal. */
  function AcceptedFirst(answers: seq<(Answer, Instant)>): (n: nat)
    ensures n <= |answers| && (n < |answers| ==> !answers[n].0.Accepted?)
    ensures forall i :: 0 <= i < n ==> answers[i].0.Accepted?
  {
    if answers == [] || !answers[0].0.Accepted? then 0 else 1 + AcceptedFirst(answers[1..])
  }

  class OutboxTable {
    var rows: seq<Row>

    method DeliverFresh(claimed: seq<Row>, answers: seq<(Answer, Instant)>, policy: ResendPolicy)
      returns (delivered: nat, failed: nat, undeliverable: nat)
      requires |answers| == |claimed|
      modifies this
      ensures rows == FreshPhase(old(rows), claimed, answers, policy)
      ensures delivered == Count(answers, Accepted) && failed == Count(answers, Transient)
      ensures undeliverable == Count(answers, Undeliverable) && delivered + failed + undeliverable == |claimed|
    {
      delivered, failed, undeliverable := 0, 0, 0;
      var k := 0;
      assert answers[..0] == [] && answers[0..] == answers && claimed[0..] == claimed;
      while k < |claimed|
        invariant 0 <= k <= |claimed| && delivered + failed + undeliverable == k
        invariant FreshPhase(rows, claimed[k..], answers[k..], policy) == FreshPhase(old(rows), claimed, answers,
                  policy)
        invariant delivered == Count(answers[..k], Accepted) && failed == Count(answers[..k], Transient)
        invariant undeliverable == Count(answers[..k], Undeliverable)
      {
        assert claimed[k..][1..] == claimed[k + 1..] && answers[k..][1..] == answers[k + 1..];
        assert answers[..k + 1][..k] == answers[..k];
        var (answer, now) := answers[k];
        rows := Book(rows, claimed[k].id, answer, policy, now);
        match answer {
          case Accepted => delivered := delivered + 1;
          case Undeliverable => undeliverable := undeliverable + 1;
          case Transient => failed := failed + 1;
        }
        k := k + 1;
      }
      assert answers[..k] == answers;
    }

    /** Stops at the first refusal. */
    method ResendDue(due: seq<Row>, answers: seq<(Answer, Instant)>, policy: ResendPolicy)
                     returns (resent: nat, failed: nat)
      requires |answers| == |due|
      modifies this
      ensures rows == ResendPhase(old(rows), due, answers, policy)
      ensures resent == AcceptedFirst(answers) && failed == if resent < |due| then 1 else 0
    {
      resent, failed := 0, 0;
      assert due[0..] == due && answers[0..] == answers;
      while resent < |due|
        invariant 0 <= resent <= |due|
        invariant ResendPhase(rows, due[resent..], answers[resent..], policy) == ResendPhase(old(rows), due,
                  answers, policy)
        invariant AcceptedFirst(answers) == resent + AcceptedFirst(answers[resent..])
      {
        assert due[resent..][1..] == due[resent + 1..] && answers[resent..][1..] == answers[resent + 1..];
        var (answer, now) := answers[resent];
        rows := BookResend(rows, due[resent].id, answer, policy, now);
        if !answer.Accepted? { return resent, 1; }
        resent := resent + 1;
      }
    }

    method RunOnce(batch: nat, policy: ResendPolicy, pass: Pass) returns (summary: PassSummary)
      requires PassOk(rows, batch, pass, policy)
      modifies this
      ensures rows == AfterPass(old(rows), batch, pass, policy)
      ensures summary.delivered + summary.failed + summary.undeliverable == |Select(old(rows), batch, pass.start)|
      ensures summary.failed == Count(pass.answers, Transient)
              && summary.undeliverable == Count(pass.answers, Undeliverable)
      ensures summary.delivered == Count(pass.answers, Accepted) && summary.remaining == Remaining(rows)
      ensures summary.resent == AcceptedFirst(pass.resends)
      ensures summary.resendFailed == if summary.resent < |pass.due| then 1 else 0
      ensures summary.verdict == PassVerdict(old(rows), batch, pass, policy)
    {
      hide FreshPhase, ResendPhase, ResendQuery, Select, Stuck, Remaining;
      var claimed := Select(rows, batch, pass.start);
      var delivered, failed, undeliverable := DeliverFresh(claimed, pass.answers, policy);
      var resent, refused := 0, 0;
      if failed == 0 {
        resent, refused := ResendDue(pass.due, pass.resends, policy);
      } else {
        assert ResendPhase(rows, pass.due, pass.resends, policy) == rows by { NothingDue(rows, pass.resends, policy); }
      }
      var remaining := Remaining(rows);
      var verdict := VerdictFor(failed, remaining, Stuck(rows, pass.end));
      summary := PassSummary(delivered, failed, undeliverable, resent, refused, remaining, verdict);
    }
  }

  lemma NothingDue(rows: seq<Row>, answers: seq<(Answer, Instant)>, policy: ResendPolicy)
    requires answers == []
    ensures ResendPhase(rows, [], answers, policy) == rows
  {
  }

  /** The flag that readiness reads. */
  class PublisherHealth {
    var failing: bool

    constructor ()
      ensures !failing
    {
      failing := false;
    }

    method Record(verdict: Verdict)
      modifies this
      ensures failing == Recorded(old(failing), verdict)
    {
      match verdict {
        case Failing => failing := true;
        case Healthy => failing := false;
        case Waiting =>
      }
    }
  }

  // ---------------------------------------------------------------- what a pass stores

  /** After the fresh phase each claimed row is booked with its own answer, and no other row changed. */
  lemma {:induction false} FreshPhaseStores(rows: seq<Row>, claimed: seq<Row>, answers: seq<(Answer, Instant)>,
                                            policy: ResendPolicy, i: nat)
    requires |answers| == |claimed| && i < |rows| && DistinctIds(claimed)
    ensures
      var out := FreshPhase(rows, claimed, answers, policy);
      && |out| == |rows|
      && (forall k :: 0 <= k < |claimed| && claimed[k].id == rows[i].id ==>
            out[i] == Booked(rows[i], answers[k].0, policy, answers[k].1))
      && ((forall k :: 0 <= k < |claimed| ==> claimed[k].id != rows[i].id) ==> out[i] == rows[i])
    decreases |claimed|
  {
    hide Booked;
    if claimed == [] {
    } else {
      var booked := Book(rows, claimed[0].id, answers[0].0, policy, answers[0].1);
      assert booked[i].id == rows[i].id by { BookedKeepsId(rows[i], answers[0].0, policy, answers[0].1); }
      assert forall k :: 0 < k < |claimed| ==> claimed[k] == claimed[1..][k - 1] && answers[k] == answers[1..][k - 1];
      FreshPhaseStores(booked, claimed[1..], answers[1..], policy, i);
    }
  }

  lemma BookedKeepsId(row: Row, answer: Answer, policy: ResendPolicy, now: Instant)
    ensures Booked(row, answer, policy, now).id == row.id
  {
  }

  /**
   After the resend phase the removals before the first refusal are rescheduled, the refused one is backed
   off, and no other row changed.
   */
  lemma {:induction false} ResendPhaseStores(rows: seq<Row>, due: seq<Row>, answers: seq<(Answer, Instant)>,
                                             policy: ResendPolicy, i: nat)
    requires |answers| == |due| && i < |rows| && DistinctIds(due)
    ensures
      var out, n := ResendPhase(rows, due, answers, policy), AcceptedFirst(answers);
      && |out| == |rows|
      && (forall k :: 0 <= k < |due| && due[k].id == rows[i].id ==>
            out[i] == if k < n then Resent(rows[i], policy, answers[k].1)
                      else if k == n then BackedOff(rows[i], answers[k].1)
                      else rows[i])
      && ((forall k :: 0 <= k < |due| ==> due[k].id != rows[i].id) ==> out[i] == rows[i])
    decreases |due|
  {
    hide ResendDelay;
    if due == [] {
    } else {
      var booked := BookResend(rows, due[0].id, answers[0].0, policy, answers[0].1);
      assert forall k :: 0 < k < |due| ==> due[k] == due[1..][k - 1] && answers[k] == answers[1..][k - 1];
      if answers[0].0.Accepted? { ResendPhaseStores(booked, due[1..], answers[1..], policy, i); }
    }
  }

  /** What the fresh phase made of a row: booked by its own answer if it was claimed, untouched otherwise. */
  predicate FreshlyBooked(row: Row, claimed: seq<Row>, answers: seq<(Answer, Instant)>, policy: ResendPolicy, mid: Row)
    requires |answers| == |claimed|
  {
    && (forall k :: 0 <= k < |claimed| && claimed[k].id == row.id ==>
          mid == Booked(row, answers[k].0, policy, answers[k].1))
    && ((forall k :: 0 <= k < |claimed| ==> claimed[k].id != row.id) ==> mid == row)
  }

  /** What the resend phase made of a row: rescheduled, backed off at the first refusal, or untouched. */
  predicate AfterResends(row: Row, due: seq<Row>, answers: seq<(Answer, Instant)>, policy: ResendPolicy, out: Row)
    requires |answers| == |due|
  {
    var n := AcceptedFirst(answers);
    && (forall k :: 0 <= k < |due| && due[k].id == row.id ==>
          out == if k < n then Resent(row, policy, answers[k].1)
                 else if k == n then BackedOff(row, answers[k].1)
                 else row)
    && ((forall k :: 0 <= k < |due| ==> due[k].id != row.id) ==> out == row)
  }

  /**
   A whole pass row by row: the row is booked by its answer, then, when no delivery failed, resent if it is due;
   after a transient failure nothing is resent.
   */
  lemma PassStores(rows: seq<Row>, batch: nat, pass: Pass, policy: ResendPolicy, i: nat)
    requires PassOk(rows, batch, pass, policy) && DistinctIds(rows) && i < |rows|
    ensures
      var out, booked := AfterPass(rows, batch, pass, policy), AfterFresh(rows, batch, pass, policy);
      && |out| == |rows| == |booked|
      && FreshlyBooked(rows[i], Select(rows, batch, pass.start), pass.answers, policy, booked[i])
      && AfterResends(booked[i], pass.due, pass.resends, policy, out[i])
      && (Transient in Answers(pass) ==> out[i] == booked[i])
  {
    hide Booked, Resent, BackedOff, ResendPhase, FreshPhase, Count, Queue;
    var booked := AfterFresh(rows, batch, pass, policy);
    QueueDistinct(rows, pass.start);
    FreshPhaseStores(rows, Select(rows, batch, pass.start), pass.answers, policy, i);
    DueDistinct(rows, batch, pass, policy);
    ResendPhaseStores(booked, pass.due, pass.resends, policy, i);
    CountPositive(pass.answers, Transient);
  }

  lemma DueDistinct(rows: seq<Row>, batch: nat, pass: Pass, policy: ResendPolicy)
    requires PassOk(rows, batch, pass, policy) && DistinctIds(rows)
    ensures DistinctIds(pass.due)
  {
    hide ResendPhase, FreshPhase, Count, Queue;
    var booked := AfterFresh(rows, batch, pass, policy);
    if pass.due != [] {
      FreshPhaseIds(rows, Select(rows, batch, pass.start), pass.answers, policy);
      forall a, b | 0 <= a < b < |pass.due| ensures pass.due[a].id != pass.due[b].id {
        var j :| 0 <= j < |booked| && booked[j] == pass.due[a];
        var k :| 0 <= k < |booked| && booked[k] == pass.due[b];
        assert j != k;
      }
    }
  }
}
