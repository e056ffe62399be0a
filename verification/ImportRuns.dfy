/**
 The life of a data-export import run under competing workers
 (crates/instagram-archive/src/data_export.rs, data_export/reconcile.rs, data_export/worker.rs).

 Every function of the first part is one transaction guarded by the state it expects.  Any worker may
 attempt any of them at any time, with whatever it read or computed earlier.
 */
module ImportRuns {
  import opened Prelude

  type RunId = nat
  type Owner = nat
  type Digest = string

  datatype State = Received | Inspected | Parsed | Reconciled | FailedRun

  datatype Transition = Transition(ordinal: nat, from: Option<State>, to: State, failureClass: Option<string>)

  /** A run row with the rows of other tables that carry its id. */
  datatype Run = Run(
    owner: Owner,
    digest: Digest,
    archive: string,
    state: State,
    failureClass: Option<string>,
    transitions: seq<Transition>,
    staged: Option<seq<string>>,
    reported: bool
  )

  datatype Db = Db(byArchive: map<(Owner, Digest), RunId>, runs: map<RunId, Run>, next: RunId)

  datatype ImportError = StateConflict | Persistence | CorruptEvidence

  predicate Terminal(state: State) {
    state.Reconciled? || state.FailedRun?
  }

  // ---------------------------------------------------------------- transactions

  function NewRun(owner: Owner, digest: Digest, archive: string): Run {
    Run(owner, digest, archive, Received, None, [Transition(1, None, Received, None)], None, false)
  }

  /** A repeated (owner, digest) replays the existing run, unless the stored archive reference differs. */
  function PersistReceipt(db: Db, owner: Owner, digest: Digest, archive: string): Result<Db, ImportError> {
    if (owner, digest) !in db.byArchive then
      Ok(Db(db.byArchive[(owner, digest) := db.next], db.runs[db.next := NewRun(owner, digest, archive)], db.next + 1))
    else
      var id := db.byArchive[(owner, digest)];
      if id !in db.runs || db.runs[id].archive != archive then Err(CorruptEvidence) else Ok(db)
  }

  /** A compare-and-swap of the state, with its transition row under a literal ordinal. */
  function Swap(run: Run, ordinal: nat, to: State, failure: Option<string>): Run {
    run.(state := to, failureClass := failure,
         transitions := run.transitions + [Transition(ordinal, Some(run.state), to, failure)])
  }

  function FinishInspection(run: Run, failure: Option<string>): Result<Run, ImportError> {
    if !run.state.Received? then Err(StateConflict)
    else Ok(Swap(run, 2, if failure.Some? then FailedRun else Inspected, failure))
  }

  predicate DistinctTexts(keys: seq<string>) {
    forall i, j :: 0 <= i < j < |keys| ==> keys[i] != keys[j]
  }

  /** Staged rows are unique per (run, evidence key), and no insert tolerates a conflict. */
  function PersistParsed(run: Run, keys: seq<string>): Result<Run, ImportError> {
    if !run.state.Inspected? then Err(StateConflict)
    else if !DistinctTexts((if run.staged.Some? then run.staged.value else []) + keys) then Err(Persistence)
    else Ok(Swap(run, 3, Parsed, None).(staged := Some((if run.staged.Some? then run.staged.value else []) + keys)))
  }

  function FailParse(run: Run, failure: string): Result<Run, ImportError> {
    if !run.state.Inspected? then Err(StateConflict) else Ok(Swap(run, 3, FailedRun, Some(failure)))
  }

  /** On a reconciled run the stored report is returned and nothing changes. */
  function Reconcile(run: Run): Result<Run, ImportError> {
    if run.state.Reconciled? then Ok(run)
    else if !run.state.Parsed? then Err(StateConflict)
    else if run.reported then Err(Persistence)
    else Ok(Swap(run, 4, Reconciled, None).(reported := true))
  }

  datatype Step =
    | Inspect(failure: Option<string>)
    | Parse(keys: seq<string>)
    | RefuseParse(refusal: string)
    | ReconcileRun

  function Taken(run: Run, step: Step): Result<Run, ImportError> {
    match step
    case Inspect(failure) => FinishInspection(run, failure)
    case Parse(keys) => PersistParsed(run, keys)
    case RefuseParse(refusal) => FailParse(run, refusal)
    case ReconcileRun => Reconcile(run)
  }

  /** One transaction on one run; a missing run is a state conflict. */
  function Transact(db: Db, id: RunId, step: Step): Result<Db, ImportError> {
    if id !in db.runs then Err(StateConflict)
    else
      match Taken(db.runs[id], step)
      case Err(e) => Err(e)
      case Ok(run) => Ok(db.(runs := db.runs[id := run]))
  }

  datatype Event = Receive(owner: Owner, digest: Digest, archive: string) | Attempt(id: RunId, step: Step)

  /** A refused transaction changes nothing. */
  function Next(db: Db, e: Event): Db {
    match e
    case Receive(owner, digest, archive) => Committed(db, PersistReceipt(db, owner, digest, archive))
    case Attempt(id, step) => Committed(db, Transact(db, id, step))
  }

  function Committed(db: Db, r: Result<Db, ImportError>): Db {
    if r.Ok? then r.value else db
  }

  function After(db: Db, events: seq<Event>): Db {
    if events == [] then db else Next(After(db, events[..|events| - 1]), events[|events| - 1])
  }

  // ---------------------------------------------------------------- invariant

  /** The states a run has been in, in order. */
  function Visited(transitions: seq<Transition>): seq<State> {
    seq(|transitions|, i requires 0 <= i < |transitions| => transitions[i].to)
  }

  predicate OnPath(visited: seq<State>) {
    || visited == [Received]
    || visited == [Received, Inspected]
    || visited == [Received, Inspected, Parsed]
    || visited == [Received, Inspected, Parsed, Reconciled]
    || visited == [Received, FailedRun]
    || visited == [Received, Inspected, FailedRun]
  }

  /** Ordinals 1..n, each transition starting where the one before ended, ending in the current state. */
  predicate Chained(rows: seq<Transition>, state: State, failure: Option<string>) {
    && |rows| >= 1
    && (forall i :: 0 <= i < |rows| ==> rows[i].ordinal == i + 1)
    && rows[0].from.None?
    && (forall i :: 0 < i < |rows| ==> rows[i].from == Some(rows[i - 1].to))
    && rows[|rows| - 1].to == state
    && (forall i :: 0 <= i < |rows| ==> (rows[i].failureClass.Some? <==> rows[i].to.FailedRun?))
    && rows[|rows| - 1].failureClass == failure
  }

  predicate RunOk(run: Run) {
    && Chained(run.transitions, run.state, run.failureClass)
    && OnPath(Visited(run.transitions))
    && (run.staged.Some? <==> run.state.Parsed? || run.state.Reconciled?)
    && (run.staged.Some? ==> DistinctTexts(run.staged.value))
    && (run.reported <==> run.state.Reconciled?)
  }

  ghost predicate Inv(db: Db) {
    && (forall id :: id in db.runs ==> RunOk(db.runs[id]))
    && (forall id :: id in db.runs ==>
          && id < db.next
          && (db.runs[id].owner, db.runs[id].digest) in db.byArchive
          && db.byArchive[(db.runs[id].owner, db.runs[id].digest)] == id)
    && (forall k :: k in db.byArchive ==>
          && db.byArchive[k] in db.runs
          && db.runs[db.byArchive[k]].owner == k.0 && db.runs[db.byArchive[k]].digest == k.1)
  }

  predicate Empty(db: Db) {
    db == Db(map[], map[], 0)
  }

  lemma SwapKeeps(run: Run, ordinal: nat, to: State, failure: Option<string>)
    requires RunOk(run) && (failure.Some? <==> to.FailedRun?)
    requires || (run.state.Received? && ordinal == 2 && (to.Inspected? || to.FailedRun?))
             || (run.state.Inspected? && ordinal == 3 && (to.Parsed? || to.FailedRun?))
             || (run.state.Parsed? && ordinal == 4 && to.Reconciled?)
    ensures
      var after := Swap(run, ordinal, to, failure).transitions;
      Chained(after, to, failure) && OnPath(Visited(after))
  {
    var rows, after := run.transitions, Swap(run, ordinal, to, failure).transitions;
    assert Visited(rows)[|rows| - 1] == run.state;
    assert Visited(after) == Visited(rows) + [to];
    assert |rows| == ordinal - 1;
  }

  function Rank(state: State): nat {
    match state
    case Received => 0
    case Inspected => 1
    case Parsed => 2
    case Reconciled => 3
    case FailedRun => 3
  }

  /** Whatever a worker attempts, the run stays on its path, and it only ever moves forward. */
  lemma TakenKeeps(run: Run, step: Step)
    requires RunOk(run)
    ensures
      var out := Taken(run, step);
      out.Ok? ==>
        && RunOk(out.value) && out.value.owner == run.owner && out.value.digest == run.digest
        && out.value.archive == run.archive
        && (out.value == run || Rank(run.state) < Rank(out.value.state))
        && run.transitions <= out.value.transitions
        && (run.staged.Some? ==> out.value.staged == run.staged)
        && (Terminal(run.state) ==> out.value == run)
  {
    hide OnPath, Chained;
    match step
    case Inspect(failure) =>
      if run.state.Received? {
        SwapKeeps(run, 2, if failure.Some? then FailedRun else Inspected, failure);
      }
    case Parse(keys) =>
      if run.state.Inspected? {
        SwapKeeps(run, 3, Parsed, None);
        assert [] + keys == keys;
      }
    case RefuseParse(refusal) =>
      if run.state.Inspected? { SwapKeeps(run, 3, FailedRun, Some(refusal)); }
    case ReconcileRun =>
      if run.state.Parsed? { SwapKeeps(run, 4, Reconciled, None); }
  }

  lemma NewRunOk(owner: Owner, digest: Digest, archive: string)
    ensures RunOk(NewRun(owner, digest, archive))
    ensures NewRun(owner, digest, archive).owner == owner && NewRun(owner, digest, archive).digest == digest
  {
    assert Visited(NewRun(owner, digest, archive).transitions) == [Received];
  }

  lemma StepKeeps(db: Db, e: Event)
    requires Inv(db)
    ensures Inv(Next(db, e))
  {
    hide RunOk, Taken, NewRun;
    match e
    case Receive(owner, digest, archive) => NewRunOk(owner, digest, archive);
    case Attempt(id, step) =>
      if id in db.runs { TakenKeeps(db.runs[id], step); }
  }

  lemma {:induction false} AlwaysInv(db: Db, events: seq<Event>)
    requires Inv(db)
    ensures Inv(After(db, events))
  {
    hide Inv, Next;
    if events == [] {
    } else {
      AlwaysInv(db, events[..|events| - 1]);
      StepKeeps(After(db, events[..|events| - 1]), events[|events| - 1]);
    }
  }

  // ---------------------------------------------------------------- main results

  /**
   Under any interleaving of any workers, a run's transitions have ordinals 1..n, chain from state to
   state, follow the one path and end in the current state; a failure class stands exactly on failed
   runs, staged rows exactly on parsed ones and a report exactly on reconciled ones.
   */
  lemma OnePathPerRun(db: Db, events: seq<Event>, id: RunId)
    requires Empty(db) && id in After(db, events).runs
    ensures
      var run := After(db, events).runs[id];
      RunOk(run) && (run.failureClass.Some? <==> run.state.FailedRun?)
  {
    AlwaysInv(db, events);
    hide After, OnPath;
    assert RunOk(After(db, events).runs[id]);
  }

  /** There is one run per owner and archive digest. */
  lemma OneRunPerArchive(db: Db, events: seq<Event>, a: RunId, b: RunId)
    requires Empty(db) && a in After(db, events).runs && b in After(db, events).runs
    ensures
      var runs := After(db, events).runs;
      runs[a].owner == runs[b].owner && runs[a].digest == runs[b].digest ==> a == b
  {
    AlwaysInv(db, events);
    hide After, RunOk;
  }

  /** A run only moves forward, its history only grows, and a finished run never changes again. */
  lemma {:induction false} NeverBack(db: Db, events: seq<Event>, id: RunId)
    requires Inv(db) && id in db.runs
    ensures
      var run, out := db.runs[id], After(db, events);
      && id in out.runs && Rank(run.state) <= Rank(out.runs[id].state)
      && run.transitions <= out.runs[id].transitions
      && (run.staged.Some? ==> out.runs[id].staged == run.staged)
      && (Terminal(run.state) ==> out.runs[id] == run)
  {
    hide RunOk, Taken, NewRun;
    if events == [] {
    } else {
      var front, last := events[..|events| - 1], events[|events| - 1];
      NeverBack(db, front, id);
      AlwaysInv(db, front);
      var before := After(db, front);
      if last.Attempt? && last.id in before.runs { TakenKeeps(before.runs[last.id], last.step); }
    }
  }

  predicate OfArchive(run: Run, owner: Owner, digest: Digest) {
    run.owner == owner && run.digest == digest
  }

  /**
   In every reachable state a receipt is decided by the stored runs alone: another archive under a known owner and
   digest is refused, the same one changes nothing, and a new one adds exactly one run in its first state.
   */
  lemma ReceiptDecided(start: Db, events: seq<Event>, owner: Owner, digest: Digest, archive: string)
    requires Empty(start)
    ensures
      var db := After(start, events);
      var r := PersistReceipt(db, owner, digest, archive);
      && (r.Err? <==>
            exists id :: id in db.runs && OfArchive(db.runs[id], owner, digest) && db.runs[id].archive != archive)
      && (r.Err? ==> r.error == CorruptEvidence)
      && (forall id :: id in db.runs && OfArchive(db.runs[id], owner, digest) && db.runs[id].archive == archive ==>
            r == Ok(db))
      && ((forall id :: id in db.runs ==> !OfArchive(db.runs[id], owner, digest)) ==>
            && db.next !in db.runs && r.Ok?
            && r.value.runs == db.runs[db.next := Run(owner, digest, archive, Received, None,
                                                      [Transition(1, None, Received, None)], None, false)])
  {
    AlwaysInv(start, events);
    hide After, RunOk;
    var db := After(start, events);
    if (owner, digest) in db.byArchive {
      assert OfArchive(db.runs[db.byArchive[(owner, digest)]], owner, digest);
    }
  }
}
