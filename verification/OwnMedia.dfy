/**
 Own-media synchronisation of one account (crates/instagram-archive/src/own_media.rs).

 A run pages through the provider's newest-first listing, stages what it sees, and switches the
 visible authority and the watermark in one final transaction.  Every database transaction is one
 event; the provider's listing, the capability row and the process (by crashing) may change between
 any two of them.

 A provider media identity is modelled by its rank in publication order, so "newer" is ">".  A
 cursor is a position in that order: the page after cursor `p` holds items older than `p`.
 */
module OwnMedia {
  import opened Prelude

  type MediaId = nat
  type Cursor = nat
  type RunId = nat
  type Metadata = nat

  datatype Item = Item(id: MediaId, metadata: Metadata)
  datatype Page = Page(items: seq<Item>, next: Option<Cursor>)

  datatype Status = Running | Retryable | Completed | CapabilityNoop | Failed

  /**
   A row of own_media_sync_runs with its staged items and its provider_api_usage ordinals.
   `since` stands for started_at: identities below it were published before the run started.
   */
  datatype Run = Run(
    status: Status,
    since: nat,
    generation: nat,
    start: Option<MediaId>,
    candidate: Option<MediaId>,
    cursor: Option<Cursor>,
    pages: nat,
    ordinals: seq<nat>,
    items: map<MediaId, Metadata>
  )

  datatype SyncRow = SyncRow(watermark: Option<MediaId>, lastRun: RunId)

  datatype Tables = Tables(runs: map<RunId, Run>, authority: Option<RunId>, sync: Option<SyncRow>)

  datatype Capability = Capability(generation: nat, connected: bool, available: bool)

  /** pages_per_run and call_budget of OwnMediaSyncConfig. */
  datatype Config = Config(pagesPerRun: nat, callBudget: nat)

  /** The local variables of run_eligible that outlive one statement. */
  datatype Job = Job(
    run: RunId,
    generation: nat,
    prior: Option<MediaId>,
    candidate: Option<MediaId>,
    cursor: Option<Cursor>,
    nextOrdinal: nat
  )

  predicate Active(run: Run) {
    run.status.Running? || run.status.Retryable?
  }

  predicate Eligible(cap: Capability) {
    cap.connected && cap.available
  }

  function Watermark(t: Tables): Option<MediaId> {
    if t.sync.Some? then t.sync.value.watermark else None
  }

  function AuthorityItems(t: Tables): map<MediaId, Metadata> {
    if t.authority.Some? && t.authority.value in t.runs then t.runs[t.authority.value].items else map[]
  }

  function Maximum(s: seq<nat>): nat {
    if s == [] then 0
    else
      var rest := Maximum(s[..|s| - 1]);
      if s[|s| - 1] > rest then s[|s| - 1] else rest
  }

  // ---------------------------------------------------------------- transactions

  function ClosedRuns(runs: map<RunId, Run>): (closed: map<RunId, Run>)
    ensures closed.Keys == runs.Keys
    ensures forall r :: r in closed ==> !Active(closed[r]) && closed[r] == runs[r].(status := closed[r].status)
    ensures forall r :: r in runs && !Active(runs[r]) ==> closed[r] == runs[r]
  {
    map r | r in runs :: if Active(runs[r]) then runs[r].(status := Failed) else runs[r]
  }

  /** The capability gate: closes every open run and records the no-op; the watermark stays. */
  function RecordNoop(t: Tables, rid: RunId, generation: nat, now: nat): Tables {
    var noop := Run(CapabilityNoop, now, generation, None, None, None, 0, [], map[]);
    var row := if t.sync.Some? then t.sync.value.(lastRun := rid) else SyncRow(None, rid);
    t.(runs := ClosedRuns(t.runs)[rid := noop], sync := Some(row))
  }

  /** A new run starts from the committed watermark and a copy of the authority's membership. */
  function InsertRun(t: Tables, rid: RunId, generation: nat, now: nat): Tables {
    t.(runs := t.runs[rid := Run(Running, now, generation, Watermark(t), None, None, 0, [], AuthorityItems(t))])
  }

  function FreshJob(t: Tables, rid: RunId, generation: nat): Job {
    Job(rid, generation, Watermark(t), None, None, 1)
  }

  function Reopen(t: Tables, rid: RunId): Tables
    requires rid in t.runs
  {
    if t.runs[rid].status.Retryable? then t.(runs := t.runs[rid := t.runs[rid].(status := Running)]) else t
  }

  function ResumedJob(t: Tables, rid: RunId): Job
    requires rid in t.runs
  {
    var run := t.runs[rid];
    Job(rid, run.generation, run.start, run.candidate, run.cursor, Maximum(run.ordinals) + 1)
  }

  function Reserve(t: Tables, job: Job): Tables
    requires job.run in t.runs
  {
    var run := t.runs[job.run];
    t.(runs := t.runs[job.run := run.(ordinals := run.ordinals + [job.nextOrdinal])])
  }

  function Charged(job: Job): Job {
    job.(nextOrdinal := job.nextOrdinal + 1)
  }

  /** Every guarded status update of the paging loop: only a running row changes. */
  function Close(t: Tables, rid: RunId, status: Status): Tables
    requires rid in t.runs
  {
    if t.runs[rid].status.Running? then t.(runs := t.runs[rid := t.runs[rid].(status := status)]) else t
  }

  function Staged(items: seq<Item>): map<MediaId, Metadata> {
    if items == [] then map[]
    else Staged(items[..|items| - 1])[items[|items| - 1].id := items[|items| - 1].metadata]
  }

  function AfterPage(job: Job, page: Page): Job {
    var candidate := if job.candidate.None? && |page.items| > 0 then Some(page.items[0].id) else job.candidate;
    job.(candidate := candidate, cursor := page.next)
  }

  function PersistPage(t: Tables, job: Job, page: Page): Tables
    requires job.run in t.runs
  {
    var run := t.runs[job.run];
    var staged := run.(items := run.items + Staged(page.items));
    var row := if run.status.Running?
               then staged.(cursor := page.next,
                            candidate := if run.candidate.Some? then run.candidate else AfterPage(job, page).candidate,
                            pages := run.pages + 1)
               else staged;
    t.(runs := t.runs[job.run := row])
  }

  predicate Listed(page: Page, id: MediaId) {
    exists k :: 0 <= k < |page.items| && page.items[k].id == id
  }

  /** The loop's completion test: the old watermark was seen, or a first run reached the end. */
  predicate ReachedEnd(job: Job, page: Page) {
    if job.prior.Some? then Listed(page, job.prior.value) else page.next.None?
  }

  predicate StillAuthorised(job: Job, cap: Capability) {
    Eligible(cap) && cap.generation == job.generation
  }

  function Finalize(t: Tables, job: Job, cap: Capability): Tables
    requires job.run in t.runs
  {
    var run := t.runs[job.run];
    if !StillAuthorised(job, cap) then
      t.(runs := t.runs[job.run := run.(status := Failed)])
    else
      var row := if run.status.Running? then run.(status := Completed, cursor := None) else run;
      Tables(t.runs[job.run := row], Some(job.run), Some(SyncRow(job.candidate, job.run)))
  }

  // ---------------------------------------------------------------- interleaved worlds

  /** Where the one scheduler task stands; Idle also after a crash, which loses the local variables. */
  datatype Worker =
    | Idle
    | Paging(job: Job, left: nat)
    | Calling(job: Job, left: nat)
    | Answered(job: Job, left: nat, page: Page, horizon: nat)
    | Done(job: Job)

  /** The provider's listing beside the tables; `newest` is above every identity ever listed. */
  datatype Store = Store(listing: map<MediaId, Metadata>, newest: nat, t: Tables)

  datatype World = World(s: Store, cap: Capability, worker: Worker)

  datatype Event =
    | Publish(id: MediaId, metadata: Metadata)
    | Delete(gone: MediaId)
    | Edit(edited: MediaId, metadata: Metadata)
    | SetCapability(cap: Capability)
    | Crash
    | Noop(noopRun: RunId)
    | Begin(freshRun: RunId)
    | Resume(openRun: RunId)
    | Exhaust
    | Call
    | Answer(page: Page)
    | Fault(retryable: bool)
    | Persist
    | PageLimit
    | Commit

  predicate Older(x: MediaId, cursor: Option<Cursor>) {
    cursor.None? || x < cursor.value
  }

  predicate Descending(items: seq<Item>) {
    forall i, j :: 0 <= i < j < |items| ==> items[i].id > items[j].id
  }

  /** A page is a gap-free, newest-first stretch of the current listing below the cursor. */
  predicate ProviderPage(listing: map<MediaId, Metadata>, cursor: Option<Cursor>, page: Page) {
    && Descending(page.items)
    && (forall k :: 0 <= k < |page.items| ==>
          && page.items[k].id in listing
          && listing[page.items[k].id] == page.items[k].metadata
          && Older(page.items[k].id, cursor)
          && (page.next.Some? ==> page.next.value <= page.items[k].id))
    && (forall x :: x in listing && Older(x, cursor) && (page.next.Some? ==> page.next.value <= x) ==> Listed(page, x))
  }

  predicate NoActiveRun(t: Tables) {
    forall r :: r in t.runs ==> !Active(t.runs[r])
  }

  predicate Enabled(cfg: Config, w: World, e: Event) {
    match e
    case Publish(id, _) => id >= w.s.newest
    case Delete(id) => true
    case Edit(id, _) => id in w.s.listing
    case SetCapability(_) => true
    case Crash => true
    case Noop(rid) => w.worker.Idle? && !Eligible(w.cap) && rid !in w.s.t.runs
    case Begin(rid) => w.worker.Idle? && Eligible(w.cap) && NoActiveRun(w.s.t) && rid !in w.s.t.runs
    case Resume(rid) =>
      && w.worker.Idle? && Eligible(w.cap)
      && rid in w.s.t.runs && Active(w.s.t.runs[rid]) && w.s.t.runs[rid].generation == w.cap.generation
    case Exhaust => w.worker.Paging? && w.worker.left > 0 && w.worker.job.nextOrdinal > cfg.callBudget
    case Call => w.worker.Paging? && w.worker.left > 0 && w.worker.job.nextOrdinal <= cfg.callBudget
    case Answer(page) => w.worker.Calling? && ProviderPage(w.s.listing, w.worker.job.cursor, page)
    case Fault(_) => w.worker.Calling?
    case Persist => w.worker.Answered?
    case PageLimit => w.worker.Paging? && w.worker.left == 0
    case Commit => w.worker.Done?
  }

  /** The job of a worker that is inside run_eligible names a stored run. */
  predicate Attached(w: World) {
    w.worker.Idle? || w.worker.job.run in w.s.t.runs
  }

  function Next(cfg: Config, w: World, e: Event): World
    requires Attached(w) && Enabled(cfg, w, e)
  {
    match e
    case Publish(id, m) => w.(s := w.s.(listing := w.s.listing[id := m], newest := id + 1))
    case Delete(id) => w.(s := w.s.(listing := w.s.listing - {id}))
    case Edit(id, m) => w.(s := w.s.(listing := w.s.listing[id := m]))
    case SetCapability(cap) => w.(cap := cap)
    case Crash => w.(worker := Idle)
    case Noop(rid) => w.(s := w.s.(t := RecordNoop(w.s.t, rid, w.cap.generation, w.s.newest)))
    case Begin(rid) =>
      w.(s := w.s.(t := InsertRun(w.s.t, rid, w.cap.generation, w.s.newest)),
         worker := Paging(FreshJob(w.s.t, rid, w.cap.generation), cfg.pagesPerRun))
    case Resume(rid) => w.(s := w.s.(t := Reopen(w.s.t, rid)),
      worker := Paging(ResumedJob(w.s.t, rid), cfg.pagesPerRun))
    case Exhaust => w.(s := w.s.(t := Close(w.s.t, w.worker.job.run, Retryable)), worker := Idle)
    case Call => w.(s := w.s.(t := Reserve(w.s.t, w.worker.job)),
      worker := Calling(Charged(w.worker.job), w.worker.left - 1))
    case Answer(page) => w.(worker := Answered(w.worker.job, w.worker.left, page, w.s.newest))
    case Fault(retryable) =>
      w.(s := w.s.(t := Close(w.s.t, w.worker.job.run, if retryable then Retryable else Failed)), worker := Idle)
    case Persist =>
      var job, page := w.worker.job, w.worker.page;
      var after := AfterPage(job, page);
      w.(s := w.s.(t := PersistPage(w.s.t, job, page)),
         worker := if ReachedEnd(job, page) then Done(after)
                   else Paging(after, if page.next.None? then 0 else w.worker.left))
    case PageLimit => w.(s := w.s.(t := Close(w.s.t, w.worker.job.run, Retryable)), worker := Idle)
    case Commit => w.(s := w.s.(t := Finalize(w.s.t, w.worker.job, w.cap)), worker := Idle)
  }

  // ---------------------------------------------------------------- invariant

  predicate Bounded(o: Option<MediaId>, newest: nat) {
    o.Some? ==> o.value < newest
  }

  predicate BelowNewest(s: Store) {
    && (forall x :: x in s.listing ==> x < s.newest)
    && Bounded(Watermark(s.t), s.newest)
    && (forall r :: r in s.t.runs ==>
          && Bounded(s.t.runs[r].candidate, s.newest)
          && s.t.runs[r].since <= s.newest
          && Bounded(s.t.runs[r].start, s.t.runs[r].since))
  }

  predicate OneActive(t: Tables) {
    forall r, q :: r in t.runs && q in t.runs && Active(t.runs[r]) && Active(t.runs[q]) ==> r == q
  }

  /** Reservations are numbered 1, 2, ..., k without gap, and k stays within the budget. */
  predicate Ledger(cfg: Config, t: Tables) {
    forall r :: r in t.runs ==>
      && |t.runs[r].ordinals| <= cfg.callBudget
      && forall k :: 0 <= k < |t.runs[r].ordinals| ==> t.runs[r].ordinals[k] == k + 1
  }

  /** The visible set and the watermark belong to the same completed run, or there is neither. */
  predicate Paired(t: Tables) {
    match t.authority
    case None => Watermark(t).None?
    case Some(r) => r in t.runs && t.runs[r].status.Completed? && Watermark(t) == t.runs[r].candidate
  }

  /** The authority holds every still-listed item at or older than the watermark. */
  predicate Covered(s: Store) {
    Watermark(s.t).Some? ==>
      forall x :: x in s.listing && x <= Watermark(s.t).value ==> x in AuthorityItems(s.t)
  }

  /** The authority holds every still-listed item that was published before its run started. */
  predicate RefinesListing(s: Store) {
    s.t.authority.Some? && s.t.authority.value in s.t.runs ==>
      forall x :: x in s.listing && x < s.t.runs[s.t.authority.value].since ==> x in AuthorityItems(s.t)
  }

  /** What an open run knows about the listing above its durable cursor. */
  predicate Progress(s: Store, run: Run) {
    && run.start == Watermark(s.t)
    && AuthorityItems(s.t).Keys <= run.items.Keys
    && (run.candidate.Some? && run.cursor.Some? ==>
          forall x :: x in s.listing && run.cursor.value <= x <= run.candidate.value ==> x in run.items)
    && (forall x :: x in s.listing && x < run.since ==>
          if run.candidate.Some? then x <= run.candidate.value else Older(x, run.cursor))
  }

  predicate OpenRuns(s: Store) {
    forall r :: r in s.t.runs && Active(s.t.runs[r]) ==> Progress(s, s.t.runs[r])
  }

  predicate Mirrors(job: Job, run: Run) {
    && run.status.Running?
    && job.prior == run.start && job.candidate == run.candidate && job.cursor == run.cursor
    && job.generation == run.generation
    && job.nextOrdinal == |run.ordinals| + 1
  }

  /** What remains true of a fetched page while the listing goes on changing. */
  predicate PageFacts(s: Store, job: Job, run: Run, page: Page, horizon: nat) {
    && run.since <= horizon <= s.newest
    && Bounded(job.candidate, horizon)
    && (job.candidate.Some? ==>
          forall k :: 0 <= k < |page.items| && page.items[k].id < run.since ==> page.items[k].id <= job.candidate.value)
    && Descending(page.items)
    && (forall k :: 0 <= k < |page.items| ==>
          && page.items[k].id < horizon
          && Older(page.items[k].id, job.cursor)
          && (page.next.Some? ==> page.next.value <= page.items[k].id))
    && (forall x | x in s.listing && x < horizon && Older(x, job.cursor)
        && (page.next.Some? ==> page.next.value <= x) ::
          Listed(page, x))
  }

  predicate Complete(s: Store, job: Job, run: Run) {
    && (job.candidate.Some? ==> forall x :: x in s.listing && x <= job.candidate.value ==> x in run.items)
    && (job.prior.Some? ==> job.candidate.Some? && job.prior.value <= job.candidate.value)
    && (forall x :: x in s.listing && x < run.since ==> job.candidate.Some? && x <= job.candidate.value)
  }

  predicate WorkerFacts(w: World) {
    match w.worker
    case Idle => true
    case Paging(job, _) => job.run in w.s.t.runs && Mirrors(job, w.s.t.runs[job.run])
    case Calling(job, _) => job.run in w.s.t.runs && Mirrors(job, w.s.t.runs[job.run])
    case Answered(job, _, page, horizon) =>
      job.run in w.s.t.runs && Mirrors(job, w.s.t.runs[job.run])
        && PageFacts(w.s, job, w.s.t.runs[job.run], page, horizon)
    case Done(job) =>
      job.run in w.s.t.runs && Mirrors(job, w.s.t.runs[job.run]) && Complete(w.s, job, w.s.t.runs[job.run])
  }

  predicate StoreInv(cfg: Config, s: Store) {
    && BelowNewest(s) && OneActive(s.t) && Ledger(cfg, s.t) && Paired(s.t)
    && Covered(s) && RefinesListing(s) && OpenRuns(s)
  }

  predicate Inv(cfg: Config, w: World) {
    StoreInv(cfg, w.s) && WorkerFacts(w)
  }

  predicate Initial(w: World) {
    w.s.t == Tables(map[], None, None) && w.worker.Idle? && forall x :: x in w.s.listing ==> x < w.s.newest
  }

  // ---------------------------------------------------------------- preservation

  lemma StagedKeys(items: seq<Item>)
    ensures forall x :: x in Staged(items) <==> exists k :: 0 <= k < |items| && items[k].id == x
  {
    if items != [] {
      var last := |items| - 1;
      StagedKeys(items[..last]);
      forall x
        ensures x in Staged(items) <==> exists k :: 0 <= k < |items| && items[k].id == x
      {
        if exists k :: 0 <= k < |items| && items[k].id == x {
          var k :| 0 <= k < |items| && items[k].id == x;
          if k < last { assert items[..last][k].id == x; }
        }
        if x in Staged(items[..last]) {
          var k :| 0 <= k < last && items[..last][k].id == x;
          assert items[k].id == x;
        }
      }
    }
  }

  lemma {:induction false} MaximumOfOrdinals(s: seq<nat>)
    requires forall k :: 0 <= k < |s| ==> s[k] == k + 1
    ensures Maximum(s) == |s|
  {
    if s == [] {
    } else {
      MaximumOfOrdinals(s[..|s| - 1]);
    }
  }

  /** An open run's row may change as long as the new row keeps what open runs promise. */
  lemma RowUpdateKeeps(cfg: Config, s: Store, rid: RunId, row: Run)
    requires StoreInv(cfg, s) && rid in s.t.runs && Active(s.t.runs[rid])
    requires row.start == s.t.runs[rid].start && row.since == s.t.runs[rid].since
    requires Bounded(row.candidate, s.newest)
    requires !row.status.Completed?
    requires |row.ordinals| <= cfg.callBudget && forall k :: 0 <= k < |row.ordinals| ==> row.ordinals[k] == k + 1
    requires Active(row) ==> Progress(s, row)
    ensures
      var t' := s.t.(runs := s.t.runs[rid := row]);
      && AuthorityItems(t') == AuthorityItems(s.t) && Watermark(t') == Watermark(s.t)
      && StoreInv(cfg, s.(t := t'))
  {
    var t' := s.t.(runs := s.t.runs[rid := row]);
    assert s.t.authority.Some? ==> s.t.authority.value != rid;
    assert AuthorityItems(t') == AuthorityItems(s.t);
    forall r | r in t'.runs && Active(t'.runs[r])
      ensures r == rid && Progress(s.(t := t'), t'.runs[r])
    {
      if r != rid { assert false; }
    }
  }

  lemma PersistKeeps(cfg: Config, w: World)
    requires Inv(cfg, w) && w.worker.Answered?
    ensures
      var w' := Next(cfg, w, Persist);
      Inv(cfg, w') && AuthorityItems(w'.s.t) == AuthorityItems(w.s.t) && Watermark(w'.s.t) == Watermark(w.s.t)
  {
    var job, page := w.worker.job, w.worker.page;
    var run := w.s.t.runs[job.run];
    var w' := Next(cfg, w, Persist);
    var run' := w'.s.t.runs[job.run];
    StagedKeys(page.items);
    assert forall x :: x in run'.items <==> x in run.items || Listed(page, x);
    assert Progress(w.s, run);
    PageCovers(w);
    CandidateIsNewest(w);
    assert Bounded(run'.candidate, w.s.newest);
    RowUpdateKeeps(cfg, w.s, job.run, run');
    if ReachedEnd(job, page) { PageCompletes(cfg, w); }
  }

  /** Reaching the old watermark, or the end of the listing on a first run, leaves no gap below the candidate. */
  lemma PageCompletes(cfg: Config, w: World)
    requires Inv(cfg, w) && w.worker.Answered? && ReachedEnd(w.worker.job, w.worker.page)
    ensures Complete(w.s, AfterPage(w.worker.job, w.worker.page),
            PersistPage(w.s.t, w.worker.job, w.worker.page).runs[w.worker.job.run])
  {
    var job, page := w.worker.job, w.worker.page;
    var run := w.s.t.runs[job.run];
    var after := AfterPage(job, page);
    var row := PersistPage(w.s.t, job, page).runs[job.run];
    StagedKeys(page.items);
    assert forall x :: x in row.items <==> x in run.items || Listed(page, x);
    assert Progress(w.s, run);
    PageCovers(w);
    CandidateIsNewest(w);
    if after.candidate.Some? {
      forall x | x in w.s.listing && x <= after.candidate.value
        ensures x in row.items
      {
        if page.next.Some? && x < page.next.value {
          var prior := job.prior.value;
          var k :| 0 <= k < |page.items| && page.items[k].id == prior;
          assert x <= prior;
          assert x in AuthorityItems(w.s.t);
        }
      }
    }
  }

  /** Whatever is listed between the page's end and the candidate is staged once the page is. */
  lemma PageCovers(w: World)
    requires BelowNewest(w.s) && OpenRuns(w.s) && WorkerFacts(w) && w.worker.Answered?
    ensures
      var job, page := w.worker.job, w.worker.page;
      var after := AfterPage(job, page);
      after.candidate.Some? ==>
        forall x :: x in w.s.listing && x <= after.candidate.value && (page.next.Some? ==> page.next.value <= x) ==>
          x in w.s.t.runs[job.run].items || Listed(page, x)
  {
    var job, page := w.worker.job, w.worker.page;
    var run := w.s.t.runs[job.run];
    assert Progress(w.s, run);
    var after := AfterPage(job, page);
    if after.candidate.Some? {
      var c := after.candidate.value;
      forall x | x in w.s.listing && x <= c && (page.next.Some? ==> page.next.value <= x)
        ensures x in run.items || Listed(page, x)
      {
        if job.candidate.None? {
          assert c == page.items[0].id;
          assert Older(x, job.cursor);
        } else if Older(x, job.cursor) {
          assert x < w.worker.horizon;
        }
      }
    }
  }

  /** Whatever was published before the run and is still listed is at or below the candidate. */
  lemma CandidateIsNewest(w: World)
    requires BelowNewest(w.s) && OpenRuns(w.s) && WorkerFacts(w) && w.worker.Answered?
    ensures
      var job, page := w.worker.job, w.worker.page;
      var after := AfterPage(job, page);
      && (forall x :: x in w.s.listing && x < w.s.t.runs[job.run].since ==>
            if after.candidate.Some? then x <= after.candidate.value else page.next.Some? && x < page.next.value)
      && (job.prior.Some? && Listed(page, job.prior.value) ==>
            after.candidate.Some? && job.prior.value <= after.candidate.value)
  {
    var job, page := w.worker.job, w.worker.page;
    var run := w.s.t.runs[job.run];
    assert Progress(w.s, run);
    var after := AfterPage(job, page);
    forall x | x in w.s.listing && x < run.since
      ensures if after.candidate.Some? then x <= after.candidate.value else page.next.Some? && x < page.next.value
    {
      if job.candidate.None? && !(page.next.Some? && x < page.next.value) {
        assert Listed(page, x);
        assert x <= page.items[0].id;
      }
    }
    if job.prior.Some? && Listed(page, job.prior.value) {
      assert job.prior.value <= page.items[0].id;
    }
  }

  /** The listing may lose anything and gain anything newer than all that was ever listed. */
  lemma ListingChangeKeeps(cfg: Config, w: World, listing: map<MediaId, Metadata>, newest: nat)
    requires Inv(cfg, w)
    requires w.s.newest <= newest
    requires forall x :: x in listing ==> x < newest && (x < w.s.newest ==> x in w.s.listing)
    ensures Inv(cfg, w.(s := w.s.(listing := listing, newest := newest)))
  {
    var s' := w.s.(listing := listing, newest := newest);
    assert forall r :: r in s'.t.runs && Progress(w.s, s'.t.runs[r]) ==>
        (Bounded(s'.t.runs[r].candidate, w.s.newest) && s'.t.runs[r].since <= w.s.newest ==>
          Progress(s', s'.t.runs[r]));
    assert OpenRuns(s');
    assert WorkerFacts(w.(s := s'));
  }

  lemma EnvironmentKeeps(cfg: Config, w: World, e: Event)
    requires Inv(cfg, w) && Enabled(cfg, w, e)
    requires e.Publish? || e.Delete? || e.Edit? || e.SetCapability? || e.Crash?
    ensures Inv(cfg, Next(cfg, w, e))
  {
    if e.Publish? || e.Delete? || e.Edit? {
      var s' := Next(cfg, w, e).s;
      ListingChangeKeeps(cfg, w, s'.listing, s'.newest);
    }
  }

  lemma NoopKeeps(cfg: Config, w: World, rid: RunId)
    requires Inv(cfg, w) && Enabled(cfg, w, Noop(rid))
    ensures
      var w' := Next(cfg, w, Noop(rid));
      Inv(cfg, w') && AuthorityItems(w'.s.t) == AuthorityItems(w.s.t) && Watermark(w'.s.t) == Watermark(w.s.t)
  {
    var w' := Next(cfg, w, Noop(rid));
    assert AuthorityItems(w'.s.t) == AuthorityItems(w.s.t);
    assert forall r :: r in w'.s.t.runs ==> !Active(w'.s.t.runs[r]);
  }

  lemma BeginKeeps(cfg: Config, w: World, rid: RunId)
    requires Inv(cfg, w) && Enabled(cfg, w, Begin(rid))
    ensures
      var w' := Next(cfg, w, Begin(rid));
      Inv(cfg, w') && AuthorityItems(w'.s.t) == AuthorityItems(w.s.t) && Watermark(w'.s.t) == Watermark(w.s.t)
  {
    var w' := Next(cfg, w, Begin(rid));
    assert AuthorityItems(w'.s.t) == AuthorityItems(w.s.t);
    assert forall r :: r in w'.s.t.runs && Active(w'.s.t.runs[r]) ==> r == rid;
    assert Progress(w'.s, w'.s.t.runs[rid]);
  }

  lemma ResumeKeeps(cfg: Config, w: World, rid: RunId)
    requires Inv(cfg, w) && Enabled(cfg, w, Resume(rid))
    ensures
      var w' := Next(cfg, w, Resume(rid));
      Inv(cfg, w') && AuthorityItems(w'.s.t) == AuthorityItems(w.s.t) && Watermark(w'.s.t) == Watermark(w.s.t)
  {
    var run := w.s.t.runs[rid];
    assert Progress(w.s, run);
    MaximumOfOrdinals(run.ordinals);
    if run.status.Retryable? { RowUpdateKeeps(cfg, w.s, rid, run.(status := Running)); }
  }

  lemma PagingKeeps(cfg: Config, w: World, e: Event)
    requires Inv(cfg, w) && Enabled(cfg, w, e)
    requires e.Exhaust? || e.Call? || e.Answer? || e.Fault? || e.PageLimit?
    ensures
      var w' := Next(cfg, w, e);
      Inv(cfg, w') && AuthorityItems(w'.s.t) == AuthorityItems(w.s.t) && Watermark(w'.s.t) == Watermark(w.s.t)
  {
    var w' := Next(cfg, w, e);
    var rid := w.worker.job.run;
    assert Progress(w.s, w.s.t.runs[rid]);
    if !e.Answer? { RowUpdateKeeps(cfg, w.s, rid, w'.s.t.runs[rid]); }
  }

  lemma CommitKeeps(cfg: Config, w: World)
    requires Inv(cfg, w) && w.worker.Done?
    ensures Inv(cfg, Next(cfg, w, Commit))
    ensures AuthorityItems(w.s.t).Keys <= AuthorityItems(Next(cfg, w, Commit).s.t).Keys
    ensures NotOlder(Watermark(w.s.t), Watermark(Next(cfg, w, Commit).s.t))
  {
    var w' := Next(cfg, w, Commit);
    var job := w.worker.job;
    var run := w.s.t.runs[job.run];
    assert Progress(w.s, run);
    if !StillAuthorised(job, w.cap) {
      RowUpdateKeeps(cfg, w.s, job.run, run.(status := Failed));
    } else {
      forall r | r in w'.s.t.runs
        ensures !Active(w'.s.t.runs[r])
      {
        if r != job.run { assert w'.s.t.runs[r] == w.s.t.runs[r]; }
      }
    }
  }

  predicate NotOlder(before: Option<MediaId>, after: Option<MediaId>) {
    before.Some? ==> after.Some? && before.value <= after.value
  }

  /** Every event keeps the invariant, and only ever moves the authority and the watermark forward. */
  lemma StepKeeps(cfg: Config, w: World, e: Event)
    requires Inv(cfg, w) && Enabled(cfg, w, e)
    ensures
      var w' := Next(cfg, w, e);
      && Inv(cfg, w')
      && AuthorityItems(w.s.t).Keys <= AuthorityItems(w'.s.t).Keys
      && NotOlder(Watermark(w.s.t), Watermark(w'.s.t))
  {
    if e.Publish? || e.Delete? || e.Edit? || e.SetCapability? || e.Crash? {
      EnvironmentKeeps(cfg, w, e);
    } else if e.Noop? {
      NoopKeeps(cfg, w, e.noopRun);
    } else if e.Begin? {
      BeginKeeps(cfg, w, e.freshRun);
    } else if e.Resume? {
      ResumeKeeps(cfg, w, e.openRun);
    } else if e.Persist? {
      PersistKeeps(cfg, w);
    } else if e.Commit? {
      CommitKeeps(cfg, w);
    } else {
      PagingKeeps(cfg, w, e);
    }
  }

  // ---------------------------------------------------------------- whole runs

  /** A finite history of events, each enabled where it happens. */
  predicate History(cfg: Config, w: World, events: seq<Event>)
    decreases |events|
  {
    Attached(w) && (events == [] || (Enabled(cfg, w, events[0]) && History(cfg, Next(cfg, w, events[0]), events[1..])))
  }

  function After(cfg: Config, w: World, events: seq<Event>): World
    requires History(cfg, w, events)
    decreases |events|
  {
    if events == [] then w else After(cfg, Next(cfg, w, events[0]), events[1..])
  }

  lemma {:induction false} HistoryKeeps(cfg: Config, w: World, events: seq<Event>)
    requires Inv(cfg, w) && History(cfg, w, events)
    ensures
      var w' := After(cfg, w, events);
      && Inv(cfg, w')
      && AuthorityItems(w.s.t).Keys <= AuthorityItems(w'.s.t).Keys
      && NotOlder(Watermark(w.s.t), Watermark(w'.s.t))
    decreases |events|
  {
    if events == [] {
    } else {
      StepKeeps(cfg, w, events[0]);
      HistoryKeeps(cfg, Next(cfg, w, events[0]), events[1..]);
    }
  }

  /**
   Watermark coverage: whatever the provider, the capability row and crashes do in between, the
   authority holds every still-listed item at or older than the watermark, and every still-listed
   item that was published before the authoritative run started.
   */
  lemma WatermarkCoverage(cfg: Config, w: World, events: seq<Event>, x: MediaId)
    requires Initial(w) && History(cfg, w, events)
    ensures
      var s := After(cfg, w, events).s;
      x in s.listing ==>
        && (Watermark(s.t).Some? && x <= Watermark(s.t).value ==> x in AuthorityItems(s.t))
        && (s.t.authority.Some? ==>
              s.t.authority.value in s.t.runs && (x < s.t.runs[s.t.authority.value].since ==> x in AuthorityItems(s.t)))
  {
    assert Inv(cfg, w);
    HistoryKeeps(cfg, w, events);
  }

  /**
   The watermark is always the candidate of the completed run that is the authority; neither exists without
   the other.
   */
  lemma AuthorityAndWatermarkMoveTogether(cfg: Config, w: World, events: seq<Event>)
    requires Initial(w) && History(cfg, w, events)
    ensures
      var t := After(cfg, w, events).s.t;
      match t.authority
      case None => Watermark(t).None?
      case Some(r) => r in t.runs && t.runs[r].status.Completed? && Watermark(t) == t.runs[r].candidate
  {
    assert Inv(cfg, w);
    HistoryKeeps(cfg, w, events);
  }

  /** Between any two moments of a history the authority loses no item and the watermark never moves back. */
  lemma AuthorityOnlyGrows(cfg: Config, w: World, earlier: seq<Event>, later: seq<Event>)
    requires Initial(w) && History(cfg, w, earlier) && History(cfg, After(cfg, w, earlier), later)
    ensures
      var t0 := After(cfg, w, earlier).s.t;
      var t1 := After(cfg, After(cfg, w, earlier), later).s.t;
      AuthorityItems(t0).Keys <= AuthorityItems(t1).Keys && NotOlder(Watermark(t0), Watermark(t1))
  {
    assert Inv(cfg, w);
    HistoryKeeps(cfg, w, earlier);
    HistoryKeeps(cfg, After(cfg, w, earlier), later);
  }

  /** Over any number of resumptions a run reserves the ordinals 1..k for some k within the budget. */
  lemma CallsWithinBudget(cfg: Config, w: World, events: seq<Event>, r: RunId)
    requires Initial(w) && History(cfg, w, events)
    requires r in After(cfg, w, events).s.t.runs
    ensures
      var ordinals := After(cfg, w, events).s.t.runs[r].ordinals;
      |ordinals| <= cfg.callBudget && ordinals == seq(|ordinals|, k => k + 1)
  {
    assert Inv(cfg, w);
    HistoryKeeps(cfg, w, events);
  }

  // ---------------------------------------------------------------- nothing is invented

  /** Every listed, fetched or staged item is one the provider has listed with that metadata. */
  predicate Genuine(w: World, seen: set<Item>) {
    && (forall x :: x in w.s.listing ==> Item(x, w.s.listing[x]) in seen)
    && (forall r, x :: r in w.s.t.runs && x in w.s.t.runs[r].items ==> Item(x, w.s.t.runs[r].items[x]) in seen)
    && (w.worker.Answered? ==> forall k :: 0 <= k < |w.worker.page.items| ==> w.worker.page.items[k] in seen)
  }

  function Seen(w: World, events: seq<Event>): set<Item> {
    if events == [] then set x | x in w.s.listing :: Item(x, w.s.listing[x])
    else
      var last := events[|events| - 1];
      Seen(w, events[..|events| - 1]) + (match last
                                         case Publish(id, m) => {Item(id, m)}
                                         case Edit(id, m) => {Item(id, m)}
                                         case _ => {})
  }

  lemma StagedAreItems(items: seq<Item>)
    ensures forall x :: x in Staged(items) ==> Item(x, Staged(items)[x]) in items
  {
    if items != [] { StagedAreItems(items[..|items| - 1]); }
  }

  lemma GenuineStep(cfg: Config, w: World, e: Event, seen: set<Item>, seen': set<Item>)
    requires Attached(w) && Enabled(cfg, w, e) && Genuine(w, seen) && seen <= seen'
    requires e.Publish? ==> Item(e.id, e.metadata) in seen'
    requires e.Edit? ==> Item(e.edited, e.metadata) in seen'
    ensures Genuine(Next(cfg, w, e), seen')
  {
    var w' := Next(cfg, w, e);
    if e.Persist? {
      StagedAreItems(w.worker.page.items);
      assert forall r :: r in w'.s.t.runs && r != w.worker.job.run ==> w'.s.t.runs[r] == w.s.t.runs[r];
    }
  }

  lemma {:induction false} HistoryConcat(cfg: Config, w: World, a: seq<Event>, b: seq<Event>)
    requires History(cfg, w, a + b)
    ensures History(cfg, w, a) && History(cfg, After(cfg, w, a), b)
    ensures After(cfg, w, a + b) == After(cfg, After(cfg, w, a), b)
    decreases |a|
  {
    if a == [] {
      assert a + b == b;
    } else {
      assert (a + b)[1..] == a[1..] + b;
      HistoryConcat(cfg, Next(cfg, w, a[0]), a[1..], b);
    }
  }

  /** The authority never contains an item, or metadata of one, that the provider did not list. */
  lemma {:induction false} NothingInvented(cfg: Config, w: World, events: seq<Event>)
    requires Initial(w) && History(cfg, w, events)
    ensures Genuine(After(cfg, w, events), Seen(w, events))
    ensures
      var visible := AuthorityItems(After(cfg, w, events).s.t);
      forall x :: x in visible ==> Item(x, visible[x]) in Seen(w, events)
  {
    if events == [] {
    } else {
      var front, last := events[..|events| - 1], events[|events| - 1];
      assert events == front + [last];
      HistoryConcat(cfg, w, front, [last]);
      NothingInvented(cfg, w, front);
      GenuineStep(cfg, After(cfg, w, front), last, Seen(w, front), Seen(w, events));
    }
  }

  // ---------------------------------------------------------------- the executor

  /** What the provider answered to one reserved call; a missing answer is a crash during the call. */
  datatype Reply = Listing(page: Page) | Refused(retryable: bool)

  datatype Outcome =
    | Unavailable
    | NoopRecorded(run: RunId)
    | CompletedRun(run: RunId, watermark: Option<MediaId>)
    | RetryableRun(run: RunId, next: Option<Cursor>)
    | ProviderRefused
    | Interrupted

  /** The paging loop as a function: `cap` is the capability row the final transaction reads. */
  function Drive(cfg: Config, t: Tables, job: Job, left: nat, replies: seq<Reply>, cap: Capability): (Tables, Outcome)
    requires job.run in t.runs
    decreases left
  {
    if left == 0 then (Close(t, job.run, Retryable), RetryableRun(job.run, job.cursor))
    else if job.nextOrdinal > cfg.callBudget then (Close(t, job.run, Retryable), RetryableRun(job.run, job.cursor))
    else
      var t1, j1 := Reserve(t, job), Charged(job);
      if replies == [] then (t1, Interrupted)
      else match replies[0]
        case Refused(retryable) =>
          (Close(t1, job.run, if retryable then Retryable else Failed),
           if retryable then RetryableRun(job.run, job.cursor) else ProviderRefused)
        case Listing(page) =>
          var t2, j2 := PersistPage(t1, j1, page), AfterPage(j1, page);
          if ReachedEnd(j1, page) then
            (Finalize(t2, j2, cap),
             if StillAuthorised(j2, cap) then CompletedRun(job.run, j2.candidate) else Unavailable)
          else if page.next.None? then (Close(t2, job.run, Retryable), RetryableRun(job.run, None))
          else Drive(cfg, t2, j2, left - 1, replies[1..], cap)
  }

  /** run_account_once as a function; `open` is the active run's id if the active-run query returned one. */
  function Ran(cfg: Config, t: Tables, cap: Capability, open: Option<RunId>, newRun: RunId, newest: nat,
               replies: seq<Reply>, finalCap: Capability): (Tables, Outcome)
    requires open.Some? ==> open.value in t.runs
  {
    if !Eligible(cap) then (RecordNoop(t, newRun, cap.generation, newest), NoopRecorded(newRun))
    else if open.None? then
      Drive(cfg, InsertRun(t, newRun, cap.generation, newest), FreshJob(t, newRun, cap.generation), cfg.pagesPerRun,
            replies, finalCap)
    else if t.runs[open.value].generation != cap.generation then (t, Unavailable)
    else Drive(cfg, Reopen(t, open.value), ResumedJob(t, open.value), cfg.pagesPerRun, replies, finalCap)
  }

  /** One executor over the account's rows: the fields are tables, the methods are run_account_once and its parts. */
  class Executor {
    const cfg: Config
    var runs: map<RunId, Run>
    var authority: Option<RunId>
    var sync: Option<SyncRow>

    ghost function View(): Tables
      reads this
    {
      Tables(runs, authority, sync)
    }

    constructor (cfg: Config)
      ensures this.cfg == cfg && View() == Tables(map[], None, None)
    {
      this.cfg := cfg;
      runs, authority, sync := map[], None, None;
    }

    /** Runs the account job; `open` is the active run's id if the active-run query returned one. */
    method RunAccountOnce(cap: Capability, open: Option<RunId>, newRun: RunId, newest: nat, replies: seq<Reply>,
                          finalCap: Capability) returns (outcome: Outcome)
      requires open.Some? ==> open.value in runs && Active(runs[open.value])
      requires open.None? ==> NoActiveRun(View())
      requires newRun !in runs
      modifies this
      ensures (View(), outcome) == Ran(cfg, old(View()), cap, open, newRun, newest, replies, finalCap)
    {
      if !cap.connected || !cap.available {
        runs := ClosedRuns(runs)[newRun := Run(CapabilityNoop, newest, cap.generation, None, None, None, 0, [], map[])];
        sync := Some(if sync.Some? then sync.value.(lastRun := newRun) else SyncRow(None, newRun));
        return NoopRecorded(newRun);
      }
      var job: Job;
      match open {
        case Some(rid) =>
          var run := runs[rid];
          if run.generation != cap.generation { return Unavailable; }
          if run.status.Retryable? { runs := runs[rid := run.(status := Running)]; }
          job := Job(rid, run.generation, run.start, run.candidate, run.cursor, Maximum(run.ordinals) + 1);
        case None =>
          var watermark := if sync.Some? then sync.value.watermark else None;
          var copied := if authority.Some? && authority.value in runs then runs[authority.value].items else map[];
          runs := runs[newRun := Run(Running, newest, cap.generation, watermark, None, None, 0, [], copied)];
          job := Job(newRun, cap.generation, watermark, None, None, 1);
      }
      outcome := PageThrough(job, replies, finalCap);
    }

    method PageThrough(start: Job, replies: seq<Reply>, finalCap: Capability) returns (outcome: Outcome)
      requires start.run in runs
      modifies this
      ensures (View(), outcome) == Drive(cfg, old(View()), start, cfg.pagesPerRun, replies, finalCap)
    {
      var job := start;
      var pages := 0;
      ghost var goal := Drive(cfg, View(), start, cfg.pagesPerRun, replies, finalCap);
      while pages < cfg.pagesPerRun
        invariant 0 <= pages <= cfg.pagesPerRun && pages <= |replies|
        invariant job.run == start.run && job.run in runs
        invariant goal == Drive(cfg, View(), job, cfg.pagesPerRun - pages, replies[pages..], finalCap)
      {
        if job.nextOrdinal > cfg.callBudget {
          UpdateRunning(job.run, Retryable);
          return RetryableRun(job.run, job.cursor);
        }
        runs := runs[job.run := runs[job.run].(ordinals := runs[job.run].ordinals + [job.nextOrdinal])];
        job := job.(nextOrdinal := job.nextOrdinal + 1);
        if pages == |replies| { return Interrupted; }
        assert replies[pages..][0] == replies[pages] && replies[pages..][1..] == replies[pages + 1..];
        match replies[pages] {
          case Refused(retryable) =>
            UpdateRunning(job.run, if retryable then Retryable else Failed);
            return if retryable then RetryableRun(job.run, job.cursor) else ProviderRefused;
          case Listing(page) =>
            var reached := ReachedEnd(job, page);
            StagePage(job, page);
            job := AfterPage(job, page);
            if reached {
              outcome := Publish(job, finalCap);
              return;
            }
            if page.next.None? {
              UpdateRunning(job.run, Retryable);
              return RetryableRun(job.run, None);
            }
        }
        pages := pages + 1;
      }
      UpdateRunning(job.run, Retryable);
      return RetryableRun(job.run, job.cursor);
    }

    method UpdateRunning(rid: RunId, status: Status)
      requires rid in runs
      modifies this
      ensures View() == Close(old(View()), rid, status)
    {
      if runs[rid].status.Running? { runs := runs[rid := runs[rid].(status := status)]; }
    }

    method StagePage(job: Job, page: Page)
      requires job.run in runs
      modifies this
      ensures View() == PersistPage(old(View()), job, page)
    {
      var run := runs[job.run];
      var items, k := run.items, 0;
      assert page.items[..0] == [];
      while k < |page.items|
        invariant 0 <= k <= |page.items|
        invariant View() == old(View())
        invariant items == run.items + Staged(page.items[..k])
      {
        items := items[page.items[k].id := page.items[k].metadata];
        assert page.items[..k + 1][..k] == page.items[..k];
        k := k + 1;
      }
      assert page.items[..k] == page.items;
      run := run.(items := items);
      if run.status.Running? {
        var candidate := if run.candidate.Some? then run.candidate else AfterPage(job, page).candidate;
        run := run.(cursor := page.next, candidate := candidate, pages := run.pages + 1);
      }
      runs := runs[job.run := run];
    }

    method Publish(job: Job, cap: Capability) returns (outcome: Outcome)
      requires job.run in runs
      modifies this
      ensures View() == Finalize(old(View()), job, cap)
      ensures outcome == if StillAuthorised(job, cap) then CompletedRun(job.run, job.candidate) else Unavailable
    {
      if !cap.connected || cap.generation != job.generation || !cap.available {
        runs := runs[job.run := runs[job.run].(status := Failed)];
        return Unavailable;
      }
      authority := Some(job.run);
      sync := Some(SyncRow(job.candidate, job.run));
      if runs[job.run].status.Running? {
        runs := runs[job.run := runs[job.run].(status := Completed, cursor := None)];
      }
      return CompletedRun(job.run, job.candidate);
    }
  }

  // ---------------------------------------------------------------- executor and protocol

  predicate Environmental(events: seq<Event>) {
    forall k :: 0 <= k < |events| ==>
      events[k].Publish? || events[k].Delete? || events[k].Edit? || events[k].SetCapability?
  }

  /** The events of one pass through the loop, with what the environment does while each call is in flight. */
  function Script(cfg: Config, job: Job, left: nat, env: seq<seq<Event>>, replies: seq<Reply>,
                  cap: Capability): seq<Event>
    requires |env| == |replies|
    decreases left
  {
    if left == 0 then [PageLimit]
    else if job.nextOrdinal > cfg.callBudget then [Exhaust]
    else if replies == [] then [Call, Crash]
    else
      [Call] + env[0] +
      match replies[0]
      case Refused(retryable) => [Fault(retryable)]
      case Listing(page) =>
        [Answer(page), Persist] +
        if ReachedEnd(Charged(job), page) then [SetCapability(cap), Commit]
        else if page.next.None? then [PageLimit]
        else Script(cfg, AfterPage(Charged(job), page), left - 1, env[1..], replies[1..], cap)
  }

  /** The provider's side of the world. */
  datatype Provider = Provider(listing: map<MediaId, Metadata>, newest: nat)

  predicate ProviderAllows(p: Provider, e: Event) {
    match e
    case Publish(id, _) => id >= p.newest
    case Edit(id, _) => id in p.listing
    case _ => true
  }

  function ProviderNext(p: Provider, e: Event): Provider {
    match e
    case Publish(id, m) => Provider(p.listing[id := m], id + 1)
    case Delete(id) => p.(listing := p.listing - {id})
    case Edit(id, m) => p.(listing := p.listing[id := m])
    case _ => p
  }

  predicate ProviderRuns(p: Provider, events: seq<Event>)
    decreases |events|
  {
    events == [] || (ProviderAllows(p, events[0]) && ProviderRuns(ProviderNext(p, events[0]), events[1..]))
  }

  function ProviderAfter(p: Provider, events: seq<Event>): Provider
    decreases |events|
  {
    if events == [] then p else ProviderAfter(ProviderNext(p, events[0]), events[1..])
  }

  /**
   What is asked of the environment alone: its changes are possible, and each page answers the listing at
   that moment.
   */
  predicate Honest(cfg: Config, p: Provider, job: Job, left: nat, env: seq<seq<Event>>, replies: seq<Reply>)
    requires |env| == |replies|
    decreases left
  {
    left == 0 || job.nextOrdinal > cfg.callBudget || replies == [] ||
    (&& Environmental(env[0]) && ProviderRuns(p, env[0])
     && (replies[0].Listing? ==>
           var page, charged := replies[0].page, Charged(job);
           && ProviderPage(ProviderAfter(p, env[0]).listing, job.cursor, page)
           && (ReachedEnd(charged, page) || page.next.None? ||
               Honest(cfg, ProviderAfter(p, env[0]), AfterPage(charged, page), left - 1, env[1..], replies[1..]))))
  }

  function ProviderOf(w: World): Provider {
    Provider(w.s.listing, w.s.newest)
  }

  lemma {:induction false} HistoryJoin(cfg: Config, w: World, a: seq<Event>, b: seq<Event>)
    requires History(cfg, w, a) && History(cfg, After(cfg, w, a), b)
    ensures History(cfg, w, a + b) && After(cfg, w, a + b) == After(cfg, After(cfg, w, a), b)
    decreases |a|
  {
    hide Enabled, Next;
    if a == [] {
      assert a + b == b;
    } else {
      assert (a + b)[1..] == a[1..] + b && (a + b)[0] == a[0];
      HistoryJoin(cfg, Next(cfg, w, a[0]), a[1..], b);
    }
  }

  lemma OneEvent(cfg: Config, w: World, e: Event)
    requires Attached(w) && Enabled(cfg, w, e) && Attached(Next(cfg, w, e))
    ensures History(cfg, w, [e]) && After(cfg, w, [e]) == Next(cfg, w, e)
  {
    hide Enabled, Next;
    assert [e][1..] == [];
    assert History(cfg, Next(cfg, w, e), []);
  }

  /** The events of `a`, then one more: a history grows at its end. */
  lemma ThenEvent(cfg: Config, w: World, a: seq<Event>, e: Event)
    requires History(cfg, w, a)
    requires var mid := After(cfg, w, a); Attached(mid) && Enabled(cfg, mid, e) && Attached(Next(cfg, mid, e))
    ensures History(cfg, w, a + [e]) && After(cfg, w, a + [e]) == Next(cfg, After(cfg, w, a), e)
  {
    hide Enabled, Next;
    OneEvent(cfg, After(cfg, w, a), e);
    HistoryJoin(cfg, w, a, [e]);
  }

  lemma {:induction false} EnvironmentRuns(cfg: Config, w: World, events: seq<Event>)
    requires Attached(w) && Environmental(events) && ProviderRuns(ProviderOf(w), events)
    ensures History(cfg, w, events)
    ensures
      var out := After(cfg, w, events);
      out.s.t == w.s.t && out.worker == w.worker && ProviderOf(out) == ProviderAfter(ProviderOf(w), events)
    decreases |events|
  {
    if events == [] {
    } else {
      assert Environmental(events[1..]);
      EnvironmentRuns(cfg, Next(cfg, w, events[0]), events[1..]);
    }
  }

  /**
   The executor's loop is a history of the protocol: whatever the environment honestly does during the
   calls, every step of the loop is enabled where it happens, and the history ends in the loop's tables.
   */
  lemma {:induction false} ExecutorFollowsProtocol(cfg: Config, w: World, left: nat, env: seq<seq<Event>>,
                                                   replies: seq<Reply>, cap: Capability)
    requires w.worker.Paging? && w.worker.left == left && w.worker.job.run in w.s.t.runs
    requires |env| == |replies| && Honest(cfg, ProviderOf(w), w.worker.job, left, env, replies)
    ensures History(cfg, w, Script(cfg, w.worker.job, left, env, replies, cap))
    ensures
      var w' := After(cfg, w, Script(cfg, w.worker.job, left, env, replies, cap));
      w'.s.t == Drive(cfg, w.s.t, w.worker.job, left, replies, cap).0 && w'.worker.Idle?
    decreases left, 1
  {
    var job := w.worker.job;
    if left == 0 {
      OneEvent(cfg, w, PageLimit);
    } else if job.nextOrdinal > cfg.callBudget {
      OneEvent(cfg, w, Exhaust);
    } else {
      OneEvent(cfg, w, Call);
      var called := Next(cfg, w, Call);
      if replies == [] {
        ThenEvent(cfg, w, [Call], Crash);
        assert [Call] + [Crash] == [Call, Crash];
      } else {
        EnvironmentRuns(cfg, called, env[0]);
        var asked := After(cfg, called, env[0]);
        var rest := ReplyEvents(cfg, job, left, env, replies, cap);
        ReplyFollowsProtocol(cfg, asked, left, env, replies, cap);
        HistoryJoin(cfg, called, env[0], rest);
        HistoryJoin(cfg, w, [Call], env[0] + rest);
        assert [Call] + env[0] + rest == [Call] + (env[0] + rest);
      }
    }
  }

  /** The events from the answer of a call on. */
  function ReplyEvents(cfg: Config, job: Job, left: nat, env: seq<seq<Event>>, replies: seq<Reply>, cap: Capability)
    : seq<Event>
    requires |env| == |replies| > 0 && left > 0
  {
    match replies[0]
    case Refused(retryable) => [Fault(retryable)]
    case Listing(page) =>
      [Answer(page), Persist] +
      if ReachedEnd(Charged(job), page) then [SetCapability(cap), Commit]
      else if page.next.None? then [PageLimit]
      else Script(cfg, AfterPage(Charged(job), page), left - 1, env[1..], replies[1..], cap)
  }

  lemma {:induction false} ReplyFollowsProtocol(cfg: Config, w: World, left: nat, env: seq<seq<Event>>,
                                                replies: seq<Reply>, cap: Capability)
    requires w.worker.Calling? && left > 0 && w.worker.left == left - 1 && w.worker.job.run in w.s.t.runs
    requires |env| == |replies| > 0 && w.worker.job.nextOrdinal > 0
    requires replies[0].Listing? ==>
               && ProviderPage(w.s.listing, w.worker.job.cursor, replies[0].page)
               && (ReachedEnd(w.worker.job, replies[0].page) || replies[0].page.next.None? ||
                   Honest(cfg, ProviderOf(w), AfterPage(w.worker.job, replies[0].page), left - 1, env[1..],
                     replies[1..]))
    ensures
      var job := w.worker.job;
      var events := ReplyEvents(cfg, job.(nextOrdinal := job.nextOrdinal - 1), left, env, replies, cap);
      && History(cfg, w, events)
      && var w' := After(cfg, w, events);
      && w'.worker.Idle?
      && match replies[0]
         case Refused(retryable) => w'.s.t == Close(w.s.t, job.run, if retryable then Retryable else Failed)
         case Listing(page) =>
           var t2, j2 := PersistPage(w.s.t, job, page), AfterPage(job, page);
           w'.s.t == if ReachedEnd(job, page) then Finalize(t2, j2, cap)
                     else if page.next.None? then Close(t2, job.run, Retryable)
                     else Drive(cfg, t2, j2, left - 1, replies[1..], cap).0
    decreases left, 0
  {
    var job := w.worker.job;
    assert Charged(job.(nextOrdinal := job.nextOrdinal - 1)) == job;
    match replies[0]
    case Refused(retryable) => OneEvent(cfg, w, Fault(retryable));
    case Listing(page) =>
      PageFollowsProtocol(cfg, w, page);
      var pre := [Answer(page), Persist];
      var persisted := After(cfg, w, pre);
      if ReachedEnd(job, page) {
        CommitFollowsProtocol(cfg, persisted, cap);
        HistoryJoin(cfg, w, pre, [SetCapability(cap), Commit]);
      } else if page.next.None? {
        OneEvent(cfg, persisted, PageLimit);
        HistoryJoin(cfg, w, pre, [PageLimit]);
      } else {
        ExecutorFollowsProtocol(cfg, persisted, left - 1, env[1..], replies[1..], cap);
        HistoryJoin(cfg, w, pre, Script(cfg, AfterPage(job, page), left - 1, env[1..], replies[1..], cap));
      }
  }

  lemma PageFollowsProtocol(cfg: Config, w: World, page: Page)
    requires w.worker.Calling? && w.worker.job.run in w.s.t.runs && ProviderPage(w.s.listing, w.worker.job.cursor, page)
    ensures History(cfg, w, [Answer(page), Persist])
    ensures
      var job, out := w.worker.job, After(cfg, w, [Answer(page), Persist]);
      && out.s.t == PersistPage(w.s.t, job, page) && ProviderOf(out) == ProviderOf(w) && job.run in out.s.t.runs
      && out.worker == if ReachedEnd(job, page) then Done(AfterPage(job, page))
                       else Paging(AfterPage(job, page), if page.next.None? then 0 else w.worker.left)
  {
    OneEvent(cfg, w, Answer(page));
    ThenEvent(cfg, w, [Answer(page)], Persist);
    assert [Answer(page)] + [Persist] == [Answer(page), Persist];
  }

  lemma CommitFollowsProtocol(cfg: Config, w: World, cap: Capability)
    requires w.worker.Done? && Attached(w)
    ensures History(cfg, w, [SetCapability(cap), Commit])
    ensures After(cfg, w, [SetCapability(cap), Commit]).worker.Idle?
    ensures After(cfg, w, [SetCapability(cap), Commit]).s.t == Finalize(w.s.t, w.worker.job, cap)
  {
    OneEvent(cfg, w, SetCapability(cap));
    ThenEvent(cfg, w, [SetCapability(cap)], Commit);
    assert [SetCapability(cap)] + [Commit] == [SetCapability(cap), Commit];
  }

  /** The first event of a run: the no-op, the resumption or the new run; nothing for a run of another generation. */
  function FirstEvents(t: Tables, cap: Capability, open: Option<RunId>, newRun: RunId): seq<Event>
    requires open.Some? ==> open.value in t.runs
  {
    if !Eligible(cap) then [Noop(newRun)]
    else if open.None? then [Begin(newRun)]
    else if t.runs[open.value].generation != cap.generation then []
    else [Resume(open.value)]
  }

  predicate Pages(t: Tables, cap: Capability, open: Option<RunId>)
    requires open.Some? ==> open.value in t.runs
  {
    Eligible(cap) && (open.Some? ==> t.runs[open.value].generation == cap.generation)
  }

  function StartJob(t: Tables, cap: Capability, open: Option<RunId>, newRun: RunId): Job
    requires open.Some? ==> open.value in t.runs
  {
    if open.Some? then ResumedJob(t, open.value) else FreshJob(t, newRun, cap.generation)
  }

  /** The events of one whole run of the account job. */
  function AccountScript(cfg: Config, t: Tables, cap: Capability, open: Option<RunId>, newRun: RunId,
                         env: seq<seq<Event>>, replies: seq<Reply>, finalCap: Capability): seq<Event>
    requires |env| == |replies| && (open.Some? ==> open.value in t.runs)
  {
    [SetCapability(cap)] + FirstEvents(t, cap, open, newRun)
    + if Pages(t, cap, open) then Script(cfg, StartJob(t, cap, open, newRun), cfg.pagesPerRun, env, replies, finalCap)
      else []
  }

  lemma RunStarts(cfg: Config, w: World, cap: Capability, open: Option<RunId>, newRun: RunId)
    requires w.worker.Idle? && newRun !in w.s.t.runs
    requires if open.Some? then open.value in w.s.t.runs && Active(w.s.t.runs[open.value]) else NoActiveRun(w.s.t)
    ensures
      var first := [SetCapability(cap)] + FirstEvents(w.s.t, cap, open, newRun);
      && History(cfg, w, first)
      && var out := After(cfg, w, first);
      && ProviderOf(out) == ProviderOf(w)
      && if Pages(w.s.t, cap, open)
         then && out.worker == Paging(StartJob(w.s.t, cap, open, newRun), cfg.pagesPerRun)
              && out.s.t == if open.Some? then Reopen(w.s.t, open.value)
                            else InsertRun(w.s.t, newRun, cap.generation, w.s.newest)
         else && out.worker.Idle?
              && out.s.t == if Eligible(cap) then w.s.t else RecordNoop(w.s.t, newRun, cap.generation, w.s.newest)
  {
    OneEvent(cfg, w, SetCapability(cap));
    var rest := FirstEvents(w.s.t, cap, open, newRun);
    if rest == [] {
      assert [SetCapability(cap)] + rest == [SetCapability(cap)];
    } else {
      ThenEvent(cfg, w, [SetCapability(cap)], rest[0]);
      assert rest == [rest[0]];
    }
  }

  /**
   The whole account job is a history of the protocol that continues any earlier one: what RunAccountOnce
   leaves behind is what a history leaves, so everything proved of histories holds of it.
   */
  lemma AccountRunIsHistory(cfg: Config, w: World, cap: Capability, open: Option<RunId>, newRun: RunId,
                            env: seq<seq<Event>>, replies: seq<Reply>, finalCap: Capability)
    requires w.worker.Idle? && newRun !in w.s.t.runs && |env| == |replies|
    requires if open.Some? then open.value in w.s.t.runs && Active(w.s.t.runs[open.value]) else NoActiveRun(w.s.t)
    requires Honest(cfg, ProviderOf(w), StartJob(w.s.t, cap, open, newRun), cfg.pagesPerRun, env, replies)
    ensures
      var script := AccountScript(cfg, w.s.t, cap, open, newRun, env, replies, finalCap);
      && History(cfg, w, script) && After(cfg, w, script).worker.Idle?
      && After(cfg, w, script).s.t == Ran(cfg, w.s.t, cap, open, newRun, w.s.newest, replies, finalCap).0
  {
    hide Next, Enabled, Drive, Script, Honest;
    RunStarts(cfg, w, cap, open, newRun);
    var first := [SetCapability(cap)] + FirstEvents(w.s.t, cap, open, newRun);
    if Pages(w.s.t, cap, open) {
      ExecutorFollowsProtocol(cfg, After(cfg, w, first), cfg.pagesPerRun, env, replies, finalCap);
      HistoryJoin(cfg, w, first, Script(cfg, StartJob(w.s.t, cap, open, newRun), cfg.pagesPerRun, env, replies,
        finalCap));
    } else {
      assert first + [] == first;
    }
  }

  /** After any number of account jobs and crashes, one more job leaves an authority that covers its watermark. */
  lemma AccountRunCovers(cfg: Config, initial: World, events: seq<Event>, cap: Capability, open: Option<RunId>,
                         newRun: RunId, env: seq<seq<Event>>, replies: seq<Reply>, finalCap: Capability, x: MediaId)
    requires Initial(initial) && History(cfg, initial, events) && |env| == |replies|
    requires After(cfg, initial, events).worker.Idle? && newRun !in After(cfg, initial, events).s.t.runs
    requires
      var t := After(cfg, initial, events).s.t;
      if open.Some? then open.value in t.runs && Active(t.runs[open.value]) else NoActiveRun(t)
    requires
      var w := After(cfg, initial, events);
      Honest(cfg, ProviderOf(w), StartJob(w.s.t, cap, open, newRun), cfg.pagesPerRun, env, replies)
    ensures
      var w := After(cfg, initial, events);
      var script := AccountScript(cfg, w.s.t, cap, open, newRun, env, replies, finalCap);
      var t := Ran(cfg, w.s.t, cap, open, newRun, w.s.newest, replies, finalCap).0;
      && History(cfg, w, script)
      && (x in After(cfg, w, script).s.listing && Watermark(t).Some? && x <= Watermark(t).value ==>
          x in AuthorityItems(t))
  {
    hide Next, Enabled, Ran, Honest, AccountScript, Initial;
    var w := After(cfg, initial, events);
    AccountRunIsHistory(cfg, w, cap, open, newRun, env, replies, finalCap);
    var script := AccountScript(cfg, w.s.t, cap, open, newRun, env, replies, finalCap);
    HistoryJoin(cfg, initial, events, script);
    WatermarkCoverage(cfg, initial, events + script, x);
  }
}
