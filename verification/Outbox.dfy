/**
 The outbox relay: one pass over the unpublished rows, the resend of unacknowledged removals, and
 the health flag (crates/instagram-archive/src/publishing/{pump,removal_ack,health}.rs).

 The table is a sequence in (occurred_at, event_id) order, the order in which the fresh phase
 selects.  Instants are seconds.
 */
module Outbox {
  import opened Prelude

  type EventId = nat
  type Instant = int
  type Body = string

  const BACKOFF: Instant := 60
  const FAILING_ATTEMPTS: nat := 3
  const FAILING_AGE_SECONDS: Instant := 300

  datatype Row = Row(
    id: EventId,
    occurred: Instant,
    removal: bool,
    tenant: string,
    payload: Body,
    published: Option<Instant>,
    undeliverable: Option<Instant>,
    attempts: nat,
    nextAttempt: Option<Instant>,
    resendCount: nat,
    nextResend: Option<Instant>,
    acknowledged: Option<Instant>
  )

  datatype Answer = Accepted | Undeliverable | Transient

  datatype ResendPolicy = ResendPolicy(after: nat, cap: nat)

  /** The ranges the configuration is validated against. */
  predicate PolicyOk(policy: ResendPolicy) {
    30 <= policy.after <= 86400 && policy.after <= policy.cap <= 604800
  }

  predicate Before(a: Row, b: Row) {
    a.occurred < b.occurred || (a.occurred == b.occurred && a.id < b.id)
  }

  /** Rows in selection order, with distinct ids. */
  predicate Table(rows: seq<Row>) {
    && (forall i, j :: 0 <= i < j < |rows| ==> Before(rows[i], rows[j]))
    && (forall i, j :: 0 <= i < j < |rows| ==> rows[i].id != rows[j].id)
  }

  // ---------------------------------------------------------------- updates

  function UpdateRow(rows: seq<Row>, id: EventId, f: Row -> Row): seq<Row> {
    seq(|rows|, i requires 0 <= i < |rows| => if rows[i].id == id then f(rows[i]) else rows[i])
  }

  function Published(row: Row, policy: ResendPolicy, now: Instant): Row {
    if row.published.Some? then row
    else row.(published := Some(now), nextResend := if row.removal then Some(now + policy.after) else None)
  }

  function MarkedUndeliverable(row: Row, now: Instant): Row {
    row.(attempts := row.attempts + 1, undeliverable := Some(now))
  }

  function BackedOff(row: Row, now: Instant): Row {
    row.(attempts := row.attempts + 1, nextAttempt := Some(now + BACKOFF))
  }

  /** least(after * 2^least(resend_count, 30), cap), with the count before the update. */
  function ResendDelay(policy: ResendPolicy, resendCount: nat): int {
    Min(policy.after * Power(2, Min(resendCount, 30)), policy.cap)
  }

  function Resent(row: Row, policy: ResendPolicy, now: Instant): Row {
    if row.removal && row.published.Some? && row.acknowledged.None? then
      row.(resendCount := row.resendCount + 1, attempts := 0,
           nextResend := Some(now + ResendDelay(policy, row.resendCount)))
    else row
  }

  function Acknowledged(row: Row, tenant: string, now: Instant): Row {
    if row.removal && row.tenant == tenant && row.acknowledged.None? then row.(acknowledged := Some(now)) else row
  }

  /** The bookkeeping of a fresh delivery that got `answer`. */
  function Booked(row: Row, answer: Answer, policy: ResendPolicy, now: Instant): Row {
    match answer
    case Accepted => Published(row, policy, now)
    case Undeliverable => MarkedUndeliverable(row, now)
    case Transient => BackedOff(row, now)
  }

  function Book(rows: seq<Row>, id: EventId, answer: Answer, policy: ResendPolicy, now: Instant): seq<Row> {
    UpdateRow(rows, id, row => Booked(row, answer, policy, now))
  }

  /** The bookkeeping of a resend; every refusal backs off and the row stays published. */
  function BookResend(rows: seq<Row>, id: EventId, answer: Answer, policy: ResendPolicy, now: Instant): seq<Row> {
    UpdateRow(rows, id, row => if answer.Accepted? then Resent(row, policy, now) else BackedOff(row, now))
  }

  function Acknowledge(rows: seq<Row>, id: EventId, tenant: string, now: Instant): seq<Row> {
    UpdateRow(rows, id, row => Acknowledged(row, tenant, now))
  }

  // ---------------------------------------------------------------- selection

  predicate Publishable(row: Row) {
    row.published.None? && row.undeliverable.None?
  }

  predicate Ready(row: Row, now: Instant) {
    row.nextAttempt.None? || row.nextAttempt.value <= now
  }

  predicate Fresh(row: Row, now: Instant) {
    Publishable(row) && Ready(row, now)
  }

  /** Every row a fresh phase at `now` could select, in order. */
  function Queue(rows: seq<Row>, now: Instant): seq<Row> {
    if rows == [] then []
    else (if Fresh(rows[0], now) then [rows[0]] else []) + Queue(rows[1..], now)
  }

  function Select(rows: seq<Row>, batch: nat, now: Instant): seq<Row> {
    var queue := Queue(rows, now);
    queue[..Min(batch, |queue|)]
  }

  predicate DueForResend(row: Row, now: Instant) {
    && row.removal && row.published.Some? && row.acknowledged.None?
    && row.nextResend.Some? && row.nextResend.value <= now
    && Ready(row, now)
  }

  /** A possible answer of the resend query: due rows, oldest due first, at most `batch` of them. */
  predicate ResendQuery(rows: seq<Row>, batch: nat, now: Instant, due: seq<Row>) {
    && |due| <= batch
    && (forall i :: 0 <= i < |due| ==> due[i] in rows && DueForResend(due[i], now))
    && (forall i, j :: 0 <= i < j < |due| ==>
          || due[i].nextResend.value < due[j].nextResend.value
          || (due[i].nextResend.value == due[j].nextResend.value && due[i].id < due[j].id))
    && (forall i :: 0 <= i < |rows| && DueForResend(rows[i], now) && rows[i] !in due ==>
          && |due| == batch
          && forall j :: 0 <= j < |due| ==> due[j].nextResend.value <= rows[i].nextResend.value)
  }

  // ---------------------------------------------------------------- resend delay

  lemma Product(a: nat, b: nat, c: nat)
    requires b <= c
    ensures a * b <= a * c
  {
  }

  /** The clamped delay is min(after * 2^r, cap) for unbounded r, never shrinks and stays in [after, cap]. */
  lemma ResendDelayIsCappedDoubling(policy: ResendPolicy, r: nat)
    requires PolicyOk(policy)
    ensures ResendDelay(policy, r) == Min(policy.after * Power(2, r), policy.cap)
    ensures policy.after <= ResendDelay(policy, r) <= ResendDelay(policy, r + 1) <= policy.cap
  {
    assert Power(2, 15) == 32768 by { assert Power(2, 5) == 32 && Power(2, 10) == 1024; }
    PowerGrows(2, 0, r);
    Product(policy.after, 1, Power(2, r));
    if r >= 15 {
      PowerGrows(2, 15, r);
      PowerGrows(2, 15, Min(r, 30));
      PowerGrows(2, 15, Min(r + 1, 30));
      Product(policy.after, 32768, Power(2, r));
      Product(policy.after, 32768, Power(2, Min(r, 30)));
      Product(policy.after, 32768, Power(2, Min(r + 1, 30)));
    } else {
      PowerGrows(2, r, r + 1);
      Product(policy.after, Power(2, r), Power(2, r + 1));
    }
  }

  /** A removal published at `at` and then resent at the given instants, each accepted. */
  function ResentAt(row: Row, policy: ResendPolicy, at: Instant, times: seq<Instant>): Row {
    if times == [] then Published(row, policy, at)
    else Resent(ResentAt(row, policy, at, times[..|times| - 1]), policy, times[|times| - 1])
  }

  /**
   The schedule of an unacknowledged removal: the first gap is `after`, and the gap that follows the
   k-th resend is min(after * 2^(k - 1), cap), so the second gap is `after` again.
   */
  lemma {:induction false} ResendSchedule(row: Row, policy: ResendPolicy, at: Instant, times: seq<Instant>)
    requires PolicyOk(policy) && row.removal && row.acknowledged.None? && row.published.None? && row.resendCount == 0
    ensures
      var out := ResentAt(row, policy, at, times);
      && out.removal && out.acknowledged.None? && out.published.Some? && out.resendCount == |times|
      && out.nextResend == Some(if times == [] then at + policy.after
                                else times[|times| - 1] + Min(policy.after * Power(2, |times| - 1), policy.cap))
  {
    if times == [] {
    } else {
      ResendSchedule(row, policy, at, times[..|times| - 1]);
      ResendDelayIsCappedDoubling(policy, |times| - 1);
    }
  }

  // ---------------------------------------------------------------- one pass

  /** The fresh phase: one answer and one bookkeeping instant per selected row. */
  function FreshPhase(rows: seq<Row>, claimed: seq<Row>, answers: seq<(Answer, Instant)>,
                      policy: ResendPolicy): seq<Row>
    requires |answers| == |claimed|
    decreases |claimed|
  {
    if claimed == [] then rows
    else
      FreshPhase(Book(rows, claimed[0].id, answers[0].0, policy, answers[0].1), claimed[1..], answers[1..], policy)
  }

  /** The resend phase stops at the first refusal. */
  function ResendPhase(rows: seq<Row>, due: seq<Row>, answers: seq<(Answer, Instant)>, policy: ResendPolicy): seq<Row>
    requires |answers| == |due|
    decreases |due|
  {
    if due == [] then rows
    else
      var booked := BookResend(rows, due[0].id, answers[0].0, policy, answers[0].1);
      if answers[0].0.Accepted? then ResendPhase(booked, due[1..], answers[1..], policy) else booked
  }

  function Count(answers: seq<(Answer, Instant)>, answer: Answer): nat {
    if answers == [] then 0
    else Count(answers[..|answers| - 1], answer) + if answers[|answers| - 1].0 == answer then 1 else 0
  }

  /**
   One pass as it happened: when it selected, what the transport answered and when each answer was
   booked, and the same for the resend phase, which runs only after a pass without a transient failure.
   */
  datatype Pass = Pass(
    start: Instant,
    answers: seq<(Answer, Instant)>,
    resendStart: Instant,
    due: seq<Row>,
    resends: seq<(Answer, Instant)>,
    end: Instant
  )

  function AfterFresh(rows: seq<Row>, batch: nat, pass: Pass, policy: ResendPolicy): seq<Row>
    requires |pass.answers| == |Select(rows, batch, pass.start)|
  {
    FreshPhase(rows, Select(rows, batch, pass.start), pass.answers, policy)
  }

  predicate PassOk(rows: seq<Row>, batch: nat, pass: Pass, policy: ResendPolicy) {
    && |pass.answers| == |Select(rows, batch, pass.start)|
    && |pass.resends| == |pass.due|
    && (forall i :: 0 <= i < |pass.answers| ==> pass.start <= pass.answers[i].1)
    && if Count(pass.answers, Transient) == 0
       then ResendQuery(AfterFresh(rows, batch, pass, policy), batch, pass.resendStart, pass.due)
       else pass.due == []
  }

  function AfterPass(rows: seq<Row>, batch: nat, pass: Pass, policy: ResendPolicy): seq<Row>
    requires PassOk(rows, batch, pass, policy)
  {
    ResendPhase(AfterFresh(rows, batch, pass, policy), pass.due, pass.resends, policy)
  }

  // ---------------------------------------------------------------- fairness

  predicate DistinctIds(rows: seq<Row>) {
    forall i, j :: 0 <= i < j < |rows| ==> rows[i].id != rows[j].id
  }

  /** No back-off of a publishable row expires after `from` and up to `until`. */
  predicate NoExpiry(rows: seq<Row>, from: Instant, until: Instant) {
    forall i :: 0 <= i < |rows| && Publishable(rows[i]) ==> Ready(rows[i], from) || !Ready(rows[i], until)
  }

  lemma {:induction false} QueueStable(rows: seq<Row>, from: Instant, until: Instant, now: Instant)
    requires NoExpiry(rows, from, until) && from <= now <= until
    ensures Queue(rows, now) == Queue(rows, from)
  {
    if rows == [] {
    } else {
      assert forall i :: 0 <= i < |rows[1..]| ==> rows[1..][i] == rows[i + 1];
      QueueStable(rows[1..], from, until, now);
    }
  }

  lemma {:induction false} QueueRows(rows: seq<Row>, now: Instant)
    ensures forall k :: 0 <= k < |Queue(rows, now)| ==> Queue(rows, now)[k] in rows && Fresh(Queue(rows, now)[k], now)
  {
    if rows == [] {
    } else {
      QueueRows(rows[1..], now);
    }
  }

  /** Booking the head of the queue, whatever the answer, takes exactly it out of the queue. */
  lemma {:induction false} BookingTakesHead(rows: seq<Row>, now: Instant, answer: Answer, policy: ResendPolicy,
                                            at: Instant)
    requires DistinctIds(rows) && Queue(rows, now) != [] && now < at + BACKOFF
    ensures Queue(Book(rows, Queue(rows, now)[0].id, answer, policy, at), now) == Queue(rows, now)[1..]
    decreases |rows|
  {
    var head := Queue(rows, now)[0];
    var booked := Book(rows, head.id, answer, policy, at);
    assert booked[1..] == Book(rows[1..], head.id, answer, policy, at);
    if Fresh(rows[0], now) {
      assert head == rows[0];
      assert booked[1..] == rows[1..];
      assert !Fresh(booked[0], now);
    } else {
      QueueRows(rows, now);
      assert head in rows && head != rows[0];
      assert head.id != rows[0].id;
      assert booked[0] == rows[0];
      BookingTakesHead(rows[1..], now, answer, policy, at);
    }
  }

  lemma BookingKeeps(rows: seq<Row>, id: EventId, answer: Answer, policy: ResendPolicy, at: Instant, from: Instant,
                     until: Instant)
    requires DistinctIds(rows) && NoExpiry(rows, from, until) && until < at + BACKOFF
    ensures
      var booked := Book(rows, id, answer, policy, at);
      DistinctIds(booked) && NoExpiry(booked, from, until)
  {
  }

  lemma {:induction false} FreshPhaseTakes(rows: seq<Row>, claimed: seq<Row>, answers: seq<(Answer, Instant)>,
                                           policy: ResendPolicy, from: Instant, until: Instant)
    requires DistinctIds(rows) && NoExpiry(rows, from, until) && from <= until < from + BACKOFF
    requires |answers| == |claimed| <= |Queue(rows, from)| && claimed == Queue(rows, from)[..|claimed|]
    requires forall i :: 0 <= i < |answers| ==> from <= answers[i].1
    ensures
      var out := FreshPhase(rows, claimed, answers, policy);
      && DistinctIds(out) && NoExpiry(out, from, until)
      && Queue(out, from) == Queue(rows, from)[|claimed|..]
    decreases |claimed|
  {
    hide Booked, Book, NoExpiry, DistinctIds, Queue;
    if claimed == [] {
    } else {
      var queue := Queue(rows, from);
      var booked := Book(rows, claimed[0].id, answers[0].0, policy, answers[0].1);
      BookingTakesHead(rows, from, answers[0].0, policy, answers[0].1);
      BookingKeeps(rows, claimed[0].id, answers[0].0, policy, answers[0].1, from, until);
      assert claimed[1..] == queue[1..][..|claimed| - 1];
      assert queue[1..][|claimed| - 1..] == queue[|claimed|..];
      FreshPhaseTakes(booked, claimed[1..], answers[1..], policy, from, until);
    }
  }

  /** The two tables differ only in rows that are published in both. */
  predicate SameFresh(a: seq<Row>, b: seq<Row>) {
    && |a| == |b|
    && (forall i :: 0 <= i < |a| ==>
        a[i].id == b[i].id && (a[i] == b[i] || (a[i].published.Some? && b[i].published.Some?)))
  }

  predicate PublishedIn(rows: seq<Row>, due: seq<Row>) {
    forall i, k :: 0 <= i < |due| && 0 <= k < |rows| && rows[k].id == due[i].id ==> rows[k].published.Some?
  }

  lemma {:induction false} ResendTouchesPublished(rows: seq<Row>, due: seq<Row>, answers: seq<(Answer, Instant)>,
                                                  policy: ResendPolicy)
    requires |answers| == |due| && PublishedIn(rows, due)
    ensures SameFresh(rows, ResendPhase(rows, due, answers, policy))
    decreases |due|
  {
    if due == [] {
    } else {
      var booked := BookResend(rows, due[0].id, answers[0].0, policy, answers[0].1);
      assert SameFresh(rows, booked);
      if answers[0].0.Accepted? {
        assert forall i :: 0 <= i < |due[1..]| ==> due[1..][i] == due[i + 1];
        ResendTouchesPublished(booked, due[1..], answers[1..], policy);
      }
    }
  }

  lemma {:induction false} SameFreshSameQueue(a: seq<Row>, b: seq<Row>, now: Instant)
    requires SameFresh(a, b)
    ensures Queue(a, now) == Queue(b, now)
  {
    if a == [] {
    } else {
      assert forall i :: 0 <= i < |a[1..]| ==> a[1..][i] == a[i + 1] && b[1..][i] == b[i + 1];
      SameFreshSameQueue(a[1..], b[1..], now);
    }
  }

  lemma DueArePublished(rows: seq<Row>, batch: nat, now: Instant, due: seq<Row>)
    requires DistinctIds(rows) && ResendQuery(rows, batch, now, due)
    ensures PublishedIn(rows, due)
  {
    forall i, k | 0 <= i < |due| && 0 <= k < |rows| && rows[k].id == due[i].id
      ensures rows[k].published.Some?
    {
      var j :| 0 <= j < |rows| && rows[j] == due[i];
      assert j == k;
    }
  }

  lemma OnePass(rows: seq<Row>, batch: nat, pass: Pass, policy: ResendPolicy, from: Instant, until: Instant)
    requires PassOk(rows, batch, pass, policy)
    requires DistinctIds(rows) && NoExpiry(rows, from, until) && from <= pass.start <= until < from + BACKOFF
    ensures
      var queue, out := Queue(rows, from), AfterPass(rows, batch, pass, policy);
      && Select(rows, batch, pass.start) == queue[..Min(batch, |queue|)]
      && DistinctIds(out) && NoExpiry(out, from, until)
      && Queue(out, from) == queue[Min(batch, |queue|)..]
  {
    var queue := Queue(rows, from);
    QueueStable(rows, from, until, pass.start);
    var claimed := Select(rows, batch, pass.start);
    FreshPhaseTakes(rows, claimed, pass.answers, policy, from, until);
    var booked := AfterFresh(rows, batch, pass, policy);
    if Count(pass.answers, Transient) == 0 {
      DueArePublished(booked, batch, pass.resendStart, pass.due);
    }
    hide FreshPhase, Queue, ResendQuery, Count, Booked, AfterFresh;
    ResendTouchesPublished(booked, pass.due, pass.resends, policy);
    SameFreshSameQueue(booked, AfterPass(rows, batch, pass, policy), from);
  }

  predicate PassesOk(rows: seq<Row>, batch: nat, passes: seq<Pass>, policy: ResendPolicy)
    decreases |passes|
  {
    passes == [] ||
    (PassOk(rows, batch, passes[0], policy)
     && PassesOk(AfterPass(rows, batch, passes[0], policy), batch, passes[1..], policy))
  }

  /** The table that pass number k finds. */
  function Found(rows: seq<Row>, batch: nat, passes: seq<Pass>, policy: ResendPolicy, k: nat): seq<Row>
    requires PassesOk(rows, batch, passes, policy) && k <= |passes|
    decreases k
  {
    if k == 0 then rows
    else Found(AfterPass(rows, batch, passes[0], policy), batch, passes[1..], policy, k - 1)
  }

  /** The k-th batch of a queue, counted from zero. */
  function BatchOf(queue: seq<Row>, batch: nat, k: nat): seq<Row>
    decreases k
  {
    var size := Min(batch, |queue|);
    if k == 0 then queue[..size] else BatchOf(queue[size..], batch, k - 1)
  }

  /** It is the stretch of `batch` rows that starts at k * batch, cut at the end of the queue. */
  lemma {:induction false} BatchIsStretch(queue: seq<Row>, batch: nat, k: nat, i: nat)
    requires i < |BatchOf(queue, batch, k)|
    ensures i < batch && 0 <= k * batch + i < |queue| && BatchOf(queue, batch, k)[i] == queue[k * batch + i]
    decreases k
  {
    if k > 0 {
      BatchIsStretch(queue[Min(batch, |queue|)..], batch, k - 1, i);
      assert (k - 1) * batch + batch == k * batch;
    }
  }

  lemma {:induction false} BatchesDisjoint(queue: seq<Row>, batch: nat, j: nat, k: nat, x: nat, y: nat)
    requires DistinctIds(queue) && j < k && x < |BatchOf(queue, batch, j)| && y < |BatchOf(queue, batch, k)|
    ensures BatchOf(queue, batch, j)[x].id != BatchOf(queue, batch, k)[y].id
    decreases j
  {
    var size := Min(batch, |queue|);
    if j > 0 {
      BatchesDisjoint(queue[size..], batch, j - 1, k - 1, x, y);
    } else {
      BatchIsStretch(queue[size..], batch, k - 1, y);
    }
  }

  /**
   Fairness: over passes that all start within 60 seconds, with no back-off expiring meanwhile, pass k
   attempts exactly the k-th batch of the queue the first one saw, whatever the transport answers.
   */
  lemma {:induction false} PassTakesItsBatch(rows: seq<Row>, batch: nat, passes: seq<Pass>, policy: ResendPolicy,
                                             k: nat,
                                             from: Instant, until: Instant)
    requires PassesOk(rows, batch, passes, policy) && k < |passes|
    requires DistinctIds(rows) && NoExpiry(rows, from, until) && until < from + 60
    requires forall i :: 0 <= i < |passes| ==> from <= passes[i].start <= until
    ensures
      Select(Found(rows, batch, passes, policy, k), batch, passes[k].start) == BatchOf(Queue(rows, from), batch, k)
    decreases k
  {
    hide Queue, PassOk, AfterPass, NoExpiry, DistinctIds, Select;
    var queue := Queue(rows, from);
    OnePass(rows, batch, passes[0], policy, from, until);
    if k > 0 {
      var next := AfterPass(rows, batch, passes[0], policy);
      PassTakesItsBatch(next, batch, passes[1..], policy, k - 1, from, until);
    }
  }

  lemma {:induction false} QueueDistinct(rows: seq<Row>, now: Instant)
    requires DistinctIds(rows)
    ensures DistinctIds(Queue(rows, now))
  {
    if rows == [] {
    } else {
      assert forall i :: 0 <= i < |rows[1..]| ==> rows[1..][i] == rows[i + 1];
      QueueDistinct(rows[1..], now);
      QueueRows(rows[1..], now);
    }
  }

  /** No row is attempted twice in those passes. */
  lemma NoRowTwice(rows: seq<Row>, batch: nat, passes: seq<Pass>, policy: ResendPolicy, j: nat, k: nat,
                   from: Instant, until: Instant, a: Row, b: Row)
    requires PassesOk(rows, batch, passes, policy) && j < k < |passes|
    requires DistinctIds(rows) && NoExpiry(rows, from, until) && until < from + 60
    requires forall i :: 0 <= i < |passes| ==> from <= passes[i].start <= until
    requires a in Select(Found(rows, batch, passes, policy, j), batch, passes[j].start)
    requires b in Select(Found(rows, batch, passes, policy, k), batch, passes[k].start)
    ensures a.id != b.id
  {
    hide Queue, PassesOk, NoExpiry, Found, Select, BatchOf;
    var queue := Queue(rows, from);
    PassTakesItsBatch(rows, batch, passes, policy, j, from, until);
    PassTakesItsBatch(rows, batch, passes, policy, k, from, until);
    QueueDistinct(rows, from);
    var x :| 0 <= x < |BatchOf(queue, batch, j)| && BatchOf(queue, batch, j)[x] == a;
    var y :| 0 <= y < |BatchOf(queue, batch, k)| && BatchOf(queue, batch, k)[y] == b;
    BatchesDisjoint(queue, batch, j, k, x, y);
  }

  // ---------------------------------------------------------------- what each update stores

  lemma {:induction false} QueuedRow(rows: seq<Row>, row: Row, now: Instant)
    requires row in rows && Fresh(row, now)
    ensures row in Queue(rows, now)
  {
    if row == rows[0] {
    } else {
      QueuedRow(rows[1..], row, now);
    }
  }

  /** The queue holds exactly the rows that are publishable and not backing off, oldest first. */
  lemma {:induction false} QueueIsExact(rows: seq<Row>, row: Row, now: Instant)
    requires Table(rows)
    ensures row in Queue(rows, now) <==>
              row in rows && row.published.None? && row.undeliverable.None?
              && (row.nextAttempt.None? || row.nextAttempt.value <= now)
    ensures
      var queue := Queue(rows, now);
      forall i, j :: 0 <= i < j < |queue| ==>
        queue[i].occurred < queue[j].occurred || (queue[i].occurred == queue[j].occurred && queue[i].id < queue[j].id)
  {
    QueueRows(rows, now);
    if row in rows && Fresh(row, now) { QueuedRow(rows, row, now); }
    QueueOrdered(rows, now);
  }

  lemma {:induction false} QueueOrdered(rows: seq<Row>, now: Instant)
    requires Table(rows)
    ensures forall i, j :: 0 <= i < j < |Queue(rows, now)| ==> Before(Queue(rows, now)[i], Queue(rows, now)[j])
  {
    if rows == [] {
    } else {
      var rest := rows[1..];
      assert forall i :: 0 <= i < |rest| ==> rest[i] == rows[i + 1];
      QueueOrdered(rest, now);
      QueueRows(rest, now);
      forall j | 0 <= j < |Queue(rest, now)| ensures Before(rows[0], Queue(rest, now)[j]) {
        assert Queue(rest, now)[j] in rest;
        var k :| 0 <= k < |rest| && rest[k] == Queue(rest, now)[j];
      }
    }
  }

  /** What booking a fresh delivery stores, answer by answer; every other row is unchanged. */
  lemma BookingStores(rows: seq<Row>, id: EventId, answer: Answer, policy: ResendPolicy, now: Instant)
    ensures
      var out := Book(rows, id, answer, policy, now);
      && |out| == |rows|
      && (forall i :: 0 <= i < |rows| && rows[i].id != id ==> out[i] == rows[i])
      && (forall i :: 0 <= i < |rows| && rows[i].id == id && rows[i].published.None? ==>
            out[i] == match answer
                      case Accepted =>
                        rows[i].(published := Some(now),
                                 nextResend := if rows[i].removal then Some(now + policy.after) else None)
                      case Undeliverable => rows[i].(undeliverable := Some(now), attempts := rows[i].attempts + 1)
                      case Transient => rows[i].(nextAttempt := Some(now + 60), attempts := rows[i].attempts + 1))
  {
  }

  /**
   A transient failure keeps the row publishable with one attempt more and puts it back in the queue exactly
   60 seconds later; an accepted or undeliverable row is in no queue any more.
   */
  lemma BookedRowReturns(rows: seq<Row>, row: Row, answer: Answer, policy: ResendPolicy, now: Instant, later: Instant)
    requires Table(rows) && row in rows && row.published.None? && row.undeliverable.None?
    ensures
      var out := Book(rows, row.id, answer, policy, now);
      && Table(out)
      && (answer.Transient? ==>
            var back := row.(nextAttempt := Some(now + 60), attempts := row.attempts + 1);
            (back in Queue(out, later) <==> later >= now + 60))
      && (!answer.Transient? ==> forall r :: r in Queue(out, later) ==> r.id != row.id)
  {
    hide Queue, Book;
    var out := Book(rows, row.id, answer, policy, now);
    BookingStores(rows, row.id, answer, policy, now);
    var k :| 0 <= k < |rows| && rows[k] == row;
    assert Table(out) by { KeysStay(rows, out); }
    if answer.Transient? {
      assert out[k] in out;
      QueueIsExact(out, out[k], later);
    } else {
      forall r | r in Queue(out, later) ensures r.id != row.id {
        QueueIsExact(out, r, later);
        var i :| 0 <= i < |out| && out[i] == r;
        assert i != k;
      }
    }
  }

  lemma KeysStay(rows: seq<Row>, out: seq<Row>)
    requires Table(rows) && |out| == |rows|
    requires forall i :: 0 <= i < |rows| ==> out[i].id == rows[i].id && out[i].occurred == rows[i].occurred
    ensures Table(out)
  {
    assert forall i, j :: 0 <= i < j < |out| ==> Before(rows[i], rows[j]);
  }

  /** What booking a resend stores: the next gap, or a back-off that leaves the schedule and the mark alone. */
  lemma ResendStores(rows: seq<Row>, id: EventId, answer: Answer, policy: ResendPolicy, now: Instant)
    requires PolicyOk(policy)
    ensures
      var out := BookResend(rows, id, answer, policy, now);
      && |out| == |rows|
      && (forall i :: 0 <= i < |rows| ==>
            var row := rows[i];
            out[i] == if row.id != id then row
                      else if !answer.Accepted? then row.(nextAttempt := Some(now + 60), attempts := row.attempts + 1)
                      else if row.removal && row.published.Some? && row.acknowledged.None?
                      then row.(resendCount := row.resendCount + 1, attempts := 0,
                                nextResend := Some(now + Min(policy.after * Power(2, row.resendCount), policy.cap)))
                      else row)
  {
    hide Power, ResendDelay;
    forall i | 0 <= i < |rows| ensures
        ResendDelay(policy, rows[i].resendCount) == Min(policy.after * Power(2, rows[i].resendCount), policy.cap)
    {
      ResendDelayIsCappedDoubling(policy, rows[i].resendCount);
    }
  }

  /**
   When a removal is due again: after a resend exactly from the next gap on, after a refused one exactly 60 seconds
   later, after its first delivery from the configured delay on, and once acknowledged never.
   */
  lemma DueAgain(row: Row, policy: ResendPolicy, tenant: string, now: Instant, later: Instant)
    requires PolicyOk(policy)
    ensures DueForResend(row, now) ==>
              && (DueForResend(Resent(row, policy, now), later) <==>
                    later >= now + Min(policy.after * Power(2, row.resendCount), policy.cap))
              && (DueForResend(BackedOff(row, now), later) <==> later >= now + 60)
    ensures row.removal && row.published.None? && row.acknowledged.None? && row.nextAttempt.None? ==>
              (DueForResend(Published(row, policy, now), later) <==> later >= now + policy.after)
    ensures !row.removal && row.published.None? ==> !DueForResend(Published(row, policy, now), later)
    ensures row.removal && row.tenant == tenant ==> !DueForResend(Acknowledged(row, tenant, now), later)
  {
    hide Power;
    ResendDelayIsCappedDoubling(policy, row.resendCount);
    assert ResendDelay(policy, row.resendCount) >= 0;
  }

  /** An acknowledgement changes exactly the unacknowledged removal with that id and tenant. */
  lemma AcknowledgementStores(rows: seq<Row>, id: EventId, tenant: string, now: Instant)
    ensures
      var out := Acknowledge(rows, id, tenant, now);
      && |out| == |rows|
      && (forall i :: 0 <= i < |rows| ==>
            out[i] == if rows[i].id == id && rows[i].removal && rows[i].tenant == tenant && rows[i].acknowledged.None?
                      then rows[i].(acknowledged := Some(now)) else rows[i])
  {
  }
}
