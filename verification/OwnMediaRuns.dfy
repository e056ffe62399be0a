/**
 What a synchronisation run stores and where it ends: the value of every staged item over whole
 histories, what interrupted, refused and finished runs leave behind, and full traversals.
 */
module OwnMediaRuns {
  import opened Prelude
  import opened OwnMedia

  // ---------------------------------------------------------------- staged items

  /** The metadata a run has stored for an item. */
  function Stored(t: Tables, r: RunId, id: MediaId): Option<Metadata> {
    if r in t.runs && id in t.runs[r].items then Some(t.runs[r].items[id]) else None
  }

  /** The metadata with which a page lists an item. */
  function Shown(items: seq<Item>, id: MediaId): Option<Metadata> {
    if items == [] then None
    else if items[0].id == id then Some(items[0].metadata)
    else Shown(items[1..], id)
  }

  lemma {:induction false} ShownIs(items: seq<Item>, id: MediaId)
    requires Descending(items)
    ensures forall k :: 0 <= k < |items| && items[k].id == id ==> Shown(items, id) == Some(items[k].metadata)
    ensures (forall k :: 0 <= k < |items| ==> items[k].id != id) ==> Shown(items, id).None?
  {
    if items == [] {
    } else {
      assert forall k :: 0 < k < |items| ==> items[k] == items[1..][k - 1];
      ShownIs(items[1..], id);
    }
  }

  lemma {:induction false} StagedIs(items: seq<Item>, id: MediaId)
    requires Descending(items)
    ensures forall k :: 0 <= k < |items| && items[k].id == id ==>
              id in Staged(items) && Staged(items)[id] == items[k].metadata
    ensures (forall k :: 0 <= k < |items| ==> items[k].id != id) ==> id !in Staged(items)
  {
    if items == [] {
    } else {
      var front := items[..|items| - 1];
      assert forall k :: 0 <= k < |front| ==> front[k] == items[k];
      StagedIs(front, id);
    }
  }

  /** Staging a page gives every listed item the page's metadata and leaves every other item alone. */
  lemma PageIsStaged(t: Tables, job: Job, page: Page, r: RunId, id: MediaId)
    requires job.run in t.runs && Descending(page.items)
    ensures
      var shown := Shown(page.items, id);
      Stored(PersistPage(t, job, page), r, id) ==
      if r == job.run && shown.Some? then shown else Stored(t, r, id)
    ensures
      var before, after := t.runs[job.run], PersistPage(t, job, page).runs[job.run];
      before.status.Running? ==>
        && after == before.(items := after.items, cursor := page.next, candidate := after.candidate,
                            pages := before.pages + 1)
        && (before.candidate.Some? ==> after.candidate == before.candidate)
        && (before.candidate.None? && job.candidate.None? ==>
              after.candidate == if page.items == [] then None else Some(page.items[0].id))
  {
    ShownIs(page.items, id);
    StagedIs(page.items, id);
  }

  /** What one event makes of the stored metadata of item `id` in run `r`. */
  function StoredNext(w: World, e: Event, r: RunId, id: MediaId, was: Option<Metadata>): Option<Metadata> {
    match e
    case Begin(started) =>
      if started != r then was else if w.s.t.authority.Some? then Stored(w.s.t, w.s.t.authority.value, id) else None
    case Noop(started) => if started == r then None else was
    case Persist =>
      if w.worker.Answered? && w.worker.job.run == r && Shown(w.worker.page.items, id).Some?
      then Shown(w.worker.page.items, id) else was
    case _ => was
  }

  /**
   The metadata item `id` should have in run `r` after a history: that of the last page staged for the run that lists
   it, or the authority's when the run began.
   */
  function Expected(cfg: Config, w: World, events: seq<Event>, r: RunId, id: MediaId, was: Option<Metadata>)
    : Option<Metadata>
    requires History(cfg, w, events)
    decreases |events|
  {
    if events == [] then was
    else Expected(cfg, Next(cfg, w, events[0]), events[1..], r, id, StoredNext(w, events[0], r, id, was))
  }

  lemma StoredStep(cfg: Config, w: World, e: Event, r: RunId, id: MediaId)
    requires Inv(cfg, w) && Attached(w) && Enabled(cfg, w, e)
    ensures Stored(Next(cfg, w, e).s.t, r, id) == StoredNext(w, e, r, id, Stored(w.s.t, r, id))
  {
    hide StoreInv, Staged, ProviderPage;
    if e.Persist? { PageIsStaged(w.s.t, w.worker.job, w.worker.page, r, id); }
  }

  lemma {:induction false} StoredHistory(cfg: Config, w: World, events: seq<Event>, r: RunId, id: MediaId)
    requires Inv(cfg, w) && History(cfg, w, events)
    ensures Stored(After(cfg, w, events).s.t, r, id) == Expected(cfg, w, events, r, id, Stored(w.s.t, r, id))
    decreases |events|
  {
    hide Inv, Enabled, Next, StoredNext, Stored;
    if events == [] {
    } else {
      StepKeeps(cfg, w, events[0]);
      StoredStep(cfg, w, events[0], r, id);
      StoredHistory(cfg, Next(cfg, w, events[0]), events[1..], r, id);
    }
  }

  /**
   In every history every run stores every item exactly as the last of its pages that listed it did, and
   items that none of its pages listed as the authority had them when it began.
   */
  lemma ItemsAreAsListed(cfg: Config, w: World, events: seq<Event>, r: RunId, id: MediaId)
    requires Initial(w) && History(cfg, w, events)
    ensures Stored(After(cfg, w, events).s.t, r, id) == Expected(cfg, w, events, r, id, None)
  {
    assert Inv(cfg, w);
    hide Inv;
    StoredHistory(cfg, w, events, r, id);
  }

  // ---------------------------------------------------------------- ends of a run

  lemma ReachedInv(cfg: Config, w: World, events: seq<Event>)
    requires Initial(w) && History(cfg, w, events)
    ensures Inv(cfg, After(cfg, w, events))
  {
    assert Inv(cfg, w);
    hide Inv;
    HistoryKeeps(cfg, w, events);
  }

  predicate Interrupts(e: Event) {
    e.PageLimit? || e.Exhaust? || e == Fault(true)
  }

  /**
   The page limit, a spent budget and a retryable refusal leave the run retryable with everything it has, and
   the next job of the same generation continues from its cursor, candidate and call count.
   */
  lemma InterruptedRunResumes(cfg: Config, w: World, events: seq<Event>, e: Event, cap: Capability)
    requires Initial(w) && History(cfg, w, events) && Enabled(cfg, After(cfg, w, events), e) && Interrupts(e)
    ensures
      var mid := After(cfg, w, events);
      && Attached(mid) && !mid.worker.Idle?
      && var job, out := mid.worker.job, Next(cfg, mid, e);
      && out.worker.Idle?
      && out.s.t == mid.s.t.(runs := mid.s.t.runs[job.run := mid.s.t.runs[job.run].(status := Retryable)])
      && (cap.connected && cap.available && cap.generation == mid.s.t.runs[job.run].generation ==>
            && Enabled(cfg, out.(cap := cap), Resume(job.run))
            && var again := Next(cfg, out.(cap := cap), Resume(job.run));
            && again.s.t == mid.s.t && again.worker == Paging(job, cfg.pagesPerRun))
  {
    ReachedInv(cfg, w, events);
    hide History, After;
    var mid := After(cfg, w, events);
    AttachedAlways(cfg, w, events);
    InterruptedStep(cfg, mid, e, cap);
  }

  lemma {:induction false} AttachedAlways(cfg: Config, w: World, events: seq<Event>)
    requires History(cfg, w, events)
    ensures Attached(After(cfg, w, events))
    decreases |events|
  {
    if events == [] {
    } else {
      AttachedAlways(cfg, Next(cfg, w, events[0]), events[1..]);
    }
  }

  lemma InterruptedStep(cfg: Config, w: World, e: Event, cap: Capability)
    requires Inv(cfg, w) && Attached(w) && Enabled(cfg, w, e) && Interrupts(e)
    ensures
      && !w.worker.Idle?
      && var job, out := w.worker.job, Next(cfg, w, e);
      && out.worker.Idle?
      && out.s.t == w.s.t.(runs := w.s.t.runs[job.run := w.s.t.runs[job.run].(status := Retryable)])
      && (cap.connected && cap.available && cap.generation == w.s.t.runs[job.run].generation ==>
            && Enabled(cfg, out.(cap := cap), Resume(job.run))
            && var again := Next(cfg, out.(cap := cap), Resume(job.run));
            && again.s.t == w.s.t && again.worker == Paging(job, cfg.pagesPerRun))
  {
    hide BelowNewest, OneActive, Paired, Covered, RefinesListing, OpenRuns;
    var r := w.worker.job.run;
    MaximumOfOrdinals(w.s.t.runs[r].ordinals);
    assert Mirrors(w.worker.job, w.s.t.runs[r]);
    var out := Next(cfg, w, e);
    assert out.s.t.runs[r := w.s.t.runs[r]] == w.s.t.runs;
  }

  /** A refusal that is not retryable closes the run, and the next job starts a new one. */
  lemma RefusedRunIsClosed(cfg: Config, w: World, events: seq<Event>, cap: Capability, next: RunId)
    requires Initial(w) && History(cfg, w, events) && Enabled(cfg, After(cfg, w, events), Fault(false))
    ensures
      var mid := After(cfg, w, events);
      && Attached(mid) && !mid.worker.Idle?
      && var r, out := mid.worker.job.run, Next(cfg, mid, Fault(false));
      && out.worker.Idle?
      && out.s.t == mid.s.t.(runs := mid.s.t.runs[r := mid.s.t.runs[r].(status := Failed)])
      && (cap.connected && cap.available && next !in mid.s.t.runs ==> Enabled(cfg, out.(cap := cap), Begin(next)))
  {
    ReachedInv(cfg, w, events);
    AttachedAlways(cfg, w, events);
    hide History, After, BelowNewest, Ledger, Paired, Covered, RefinesListing, OpenRuns;
    var mid := After(cfg, w, events);
    assert Mirrors(mid.worker.job, mid.s.t.runs[mid.worker.job.run]);
  }

  /**
   The final transaction makes the run the authority and its candidate the watermark exactly while the
   capability still stands; otherwise the run fails and nothing visible moves.
   */
  lemma CommitSwitches(cfg: Config, w: World, events: seq<Event>)
    requires Initial(w) && History(cfg, w, events) && Enabled(cfg, After(cfg, w, events), Commit)
    ensures
      var mid := After(cfg, w, events);
      && Attached(mid) && !mid.worker.Idle?
      && var r, out := mid.worker.job.run, Next(cfg, mid, Commit);
      && var run := mid.s.t.runs[r];
      && out.worker.Idle?
      && if mid.cap.connected && mid.cap.available && mid.cap.generation == run.generation
         then && out.s.t.authority == Some(r) && out.s.t.sync == Some(SyncRow(run.candidate, r))
              && out.s.t.runs == mid.s.t.runs[r := run.(status := Completed, cursor := None)]
         else out.s.t == mid.s.t.(runs := mid.s.t.runs[r := run.(status := Failed)])
  {
    ReachedInv(cfg, w, events);
    AttachedAlways(cfg, w, events);
    hide History, After, StoreInv, Complete;
    var mid := After(cfg, w, events);
    assert Mirrors(mid.worker.job, mid.s.t.runs[mid.worker.job.run]);
  }

  /** The capability gate closes every open run, changes no other, and leaves authority and watermark alone. */
  lemma GateClosesRuns(t: Tables, rid: RunId, generation: nat, now: nat, r: RunId)
    requires rid !in t.runs
    ensures
      var out := RecordNoop(t, rid, generation, now);
      && out.authority == t.authority && Watermark(out) == Watermark(t)
      && out.sync.Some? && out.sync.value.lastRun == rid
      && out.runs.Keys == t.runs.Keys + {rid} && out.runs[rid].status.CapabilityNoop?
      && (r in t.runs ==> out.runs[r] == if t.runs[r].status.Running? || t.runs[r].status.Retryable?
                                         then t.runs[r].(status := Failed) else t.runs[r])
  {
  }

  // ---------------------------------------------------------------- outcomes of the loop

  /** What the caller is told is what the tables say. */
  lemma {:induction false} OutcomeTellsTables(cfg: Config, t: Tables, job: Job, left: nat, replies: seq<Reply>,
                                              cap: Capability)
    requires job.run in t.runs && t.runs[job.run].status.Running?
    requires t.runs[job.run].cursor == job.cursor && t.runs[job.run].candidate == job.candidate
    ensures
      var (out, outcome) := Drive(cfg, t, job, left, replies, cap);
      && job.run in out.runs && out.runs.Keys == t.runs.Keys
      && var run := out.runs[job.run];
      && (outcome.CompletedRun? <==> run.status.Completed?)
      && (outcome.CompletedRun? ==>
            && outcome.run == job.run && out.authority == Some(job.run)
            && Watermark(out) == outcome.watermark == run.candidate)
      && (!outcome.CompletedRun? ==> out.authority == t.authority && out.sync == t.sync)
      && (outcome.RetryableRun? <==> run.status.Retryable?)
      && (outcome.RetryableRun? ==> outcome.run == job.run && outcome.next == run.cursor)
      && (outcome.ProviderRefused? || outcome.Unavailable? <==> run.status.Failed?)
      && (outcome.Interrupted? <==> run.status.Running?)
    decreases left
  {
    hide Staged;
    if left == 0 || job.nextOrdinal > cfg.callBudget || replies == [] || replies[0].Refused? {
    } else {
      var page := replies[0].page;
      var t2, j2 := PersistPage(Reserve(t, job), Charged(job), page), AfterPage(Charged(job), page);
      if ReachedEnd(Charged(job), page) || page.next.None? {
      } else {
        OutcomeTellsTables(cfg, t2, j2, left - 1, replies[1..], cap);
      }
    }
  }

  // ---------------------------------------------------------------- full traversals

  /** The page that ends a traversal: it lists the old watermark, or it is the last page of a first one. */
  predicate Ends(prior: Option<MediaId>, page: Page) {
    if prior.Some? then exists k :: 0 <= k < |page.items| && page.items[k].id == prior.value else page.next.None?
  }

  /** A page of the listing whose continuation does not lead back above its own cursor. */
  predicate DownwardPage(listing: map<MediaId, Metadata>, cursor: Option<Cursor>, page: Page) {
    ProviderPage(listing, cursor, page) && (page.next.Some? && cursor.Some? ==> page.next.value <= cursor.value)
  }

  /** Consecutive pages of an unchanged listing below the cursor, of which only the last one ends the traversal. */
  predicate Traversal(listing: map<MediaId, Metadata>, cursor: Option<Cursor>, prior: Option<MediaId>, pages: seq<Page>)
    decreases |pages|
  {
    && pages != [] && DownwardPage(listing, cursor, pages[0])
    && if |pages| == 1 then Ends(prior, pages[0])
       else !Ends(prior, pages[0]) && pages[0].next.Some? && Traversal(listing, pages[0].next, prior, pages[1..])
  }

  function Listings(pages: seq<Page>): seq<Reply> {
    seq(|pages|, i requires 0 <= i < |pages| => Listing(pages[i]))
  }

  /** Whether the pages from the cursor down to the end of the last one list the item. */
  predicate Reached(listing: map<MediaId, Metadata>, cursor: Option<Cursor>, pages: seq<Page>, x: MediaId)
    requires pages != []
  {
    && x in listing && Older(x, cursor)
    && (pages[|pages| - 1].next.Some? ==> pages[|pages| - 1].next.value <= x)
  }

  lemma {:induction false} NextDescends(listing: map<MediaId, Metadata>, cursor: Option<Cursor>, prior: Option<MediaId>,
                                        pages: seq<Page>)
    requires Traversal(listing, cursor, prior, pages)
    ensures pages[|pages| - 1].next.Some? && cursor.Some? ==> pages[|pages| - 1].next.value <= cursor.value
    decreases |pages|
  {
    if |pages| == 1 {
    } else {
      NextDescends(listing, pages[0].next, prior, pages[1..]);
    }
  }

  /** What the loop leaves after a traversal of an unchanged listing. */
  predicate Traversed(t: Tables, out: Tables, job: Job, listing: map<MediaId, Metadata>, pages: seq<Page>, x: MediaId)
    requires pages != []
  {
    && out.authority == Some(job.run) && job.run in out.runs && out.runs[job.run].status.Completed?
    && Stored(out, job.run, x) ==
       (if Reached(listing, job.cursor, pages, x) then Some(listing[x]) else Stored(t, job.run, x))
    && (job.candidate.Some? ==> Watermark(out) == job.candidate)
    && (job.candidate.None? && Reached(listing, job.cursor, pages, x) ==>
          Watermark(out).Some? && x <= Watermark(out).value && Watermark(out).value in listing)
  }

  lemma PageStep(t: Tables, job: Job, page: Page, listing: map<MediaId, Metadata>, x: MediaId)
    requires job.run in t.runs && DownwardPage(listing, job.cursor, page)
    ensures
      var out := PersistPage(Reserve(t, job), Charged(job), page);
      Stored(out, job.run, x) ==
      if x in listing && Older(x, job.cursor) && (page.next.Some? ==> page.next.value <= x)
      then Some(listing[x]) else Stored(t, job.run, x)
  {
    hide Staged, PersistPage;
    PageIsStaged(Reserve(t, job), Charged(job), page, job.run, x);
    ShownIs(page.items, x);
    if x in listing && Older(x, job.cursor) && (page.next.Some? ==> page.next.value <= x) {
      assert Listed(page, x);
      var k :| 0 <= k < |page.items| && page.items[k].id == x;
    }
  }

  lemma DriveUnfolds(cfg: Config, t: Tables, job: Job, left: nat, pages: seq<Page>, cap: Capability)
    requires job.run in t.runs && left > 0 && job.nextOrdinal <= cfg.callBudget && pages != []
    ensures
      var page, charged := pages[0], Charged(job);
      var t2, j2 := PersistPage(Reserve(t, job), charged, page), AfterPage(charged, page);
      && (ReachedEnd(charged, page) && StillAuthorised(j2, cap) ==>
            Drive(cfg, t, job, left, Listings(pages), cap) ==
            (Finalize(t2, j2, cap), CompletedRun(job.run, j2.candidate)))
      && (!ReachedEnd(charged, page) && page.next.Some? ==>
            Drive(cfg, t, job, left, Listings(pages), cap) == Drive(cfg, t2, j2, left - 1, Listings(pages[1..]), cap))
  {
    hide Staged;
    assert Listings(pages)[1..] == Listings(pages[1..]);
  }

  lemma PageKeeps(t: Tables, job: Job, page: Page, listing: map<MediaId, Metadata>)
    requires job.run in t.runs && t.runs[job.run].status.Running? && t.runs[job.run].candidate == job.candidate
    requires DownwardPage(listing, job.cursor, page)
    ensures
      var t2, j2 := PersistPage(Reserve(t, job), Charged(job), page), AfterPage(Charged(job), page);
      && t2.runs.Keys == t.runs.Keys && t2.runs[job.run].status.Running? && t2.runs[job.run].candidate == j2.candidate
  {
    hide Staged;
  }

  /**
   A traversal of an unchanged listing within the page and call limits completes: the run becomes the
   authority, stores every item the pages reach as it is listed and no other differently, and the
   watermark is the newest of them.
   */
  lemma {:induction false} DriveTraverses(cfg: Config, t: Tables, job: Job, left: nat, listing: map<MediaId, Metadata>,
                                          pages: seq<Page>, cap: Capability, x: MediaId)
    requires job.run in t.runs && t.runs[job.run].status.Running? && t.runs[job.run].candidate == job.candidate
    requires Traversal(listing, job.cursor, job.prior, pages) && cap.connected && cap.available
    requires cap.generation == job.generation && |pages| <= left && job.nextOrdinal + |pages| <= cfg.callBudget + 1
    ensures
      var (out, outcome) := Drive(cfg, t, job, left, Listings(pages), cap);
      Traversed(t, out, job, listing, pages, x) && outcome == CompletedRun(job.run, Watermark(out))
    decreases |pages|
  {
    var page, charged := pages[0], Charged(job);
    var t2, j2 := PersistPage(Reserve(t, job), charged, page), AfterPage(charged, page);
    hide Staged, PersistPage, ProviderPage, Descending, Drive, Listings;
    DriveUnfolds(cfg, t, job, left, pages, cap);
    PageStep(t, job, page, listing, x);
    PageKeeps(t, job, page, listing);
    assert ReachedEnd(charged, page) == Ends(job.prior, page);
    NewestOnPage(listing, job.cursor, page, x);
    if |pages| == 1 {
    } else {
      hide Finalize, Reserve;
      DriveTraverses(cfg, t2, j2, left - 1, listing, pages[1..], cap, x);
      ReachedSplits(listing, job.cursor, job.prior, pages, x);
    }
  }

  /** What the pages reach is what the first lists and what the others reach. */
  lemma ReachedSplits(listing: map<MediaId, Metadata>, cursor: Option<Cursor>, prior: Option<MediaId>, pages: seq<Page>,
                      x: MediaId)
    requires Traversal(listing, cursor, prior, pages) && |pages| > 1
    ensures Reached(listing, cursor, pages, x) <==>
              || (x in listing && Older(x, cursor) && pages[0].next.value <= x)
              || Reached(listing, pages[0].next, pages[1..], x)
  {
    hide ProviderPage;
    NextDescends(listing, pages[0].next, prior, pages[1..]);
    assert pages[1..][|pages[1..]| - 1] == pages[|pages| - 1];
  }

  lemma NewestOnPage(listing: map<MediaId, Metadata>, cursor: Option<Cursor>, page: Page, x: MediaId)
    requires DownwardPage(listing, cursor, page)
    ensures page.items != [] ==> page.items[0].id in listing
    ensures x in listing && Older(x, cursor) && (page.next.Some? ==> page.next.value <= x) ==>
              page.items != [] && x <= page.items[0].id
    ensures page.items != [] && page.next.Some? ==> page.next.value <= page.items[0].id
  {
    if x in listing && Older(x, cursor) && (page.next.Some? ==> page.next.value <= x) {
      assert Listed(page, x);
    }
  }

  /** A whole job without an open run: what it makes visible is the listing down to the old watermark. */
  lemma FreshRunTraverses(cfg: Config, t: Tables, cap: Capability, newRun: RunId, newest: nat,
                          listing: map<MediaId, Metadata>, pages: seq<Page>, x: MediaId)
    requires newRun !in t.runs && cap.connected && cap.available
    requires Traversal(listing, None, Watermark(t), pages) && |pages| <= cfg.pagesPerRun && |pages| <= cfg.callBudget
    ensures
      var (out, outcome) := Ran(cfg, t, cap, None, newRun, newest, Listings(pages), cap);
      && outcome == CompletedRun(newRun, Watermark(out)) && out.authority == Some(newRun)
      && (Reached(listing, None, pages, x) ==>
            && x in AuthorityItems(out) && AuthorityItems(out)[x] == listing[x]
            && Watermark(out).Some? && x <= Watermark(out).value && Watermark(out).value in listing)
      && (!Reached(listing, None, pages, x) ==>
            && (x in AuthorityItems(out) <==> x in AuthorityItems(t))
            && (x in AuthorityItems(t) ==> AuthorityItems(out)[x] == AuthorityItems(t)[x]))
  {
    hide Drive, Traversal;
    var inserted, job := InsertRun(t, newRun, cap.generation, newest), FreshJob(t, newRun, cap.generation);
    DriveTraverses(cfg, inserted, job, cfg.pagesPerRun, listing, pages, cap, x);
  }

  /** The first synchronisation of an account makes exactly its listing visible. */
  lemma FirstRunIsTheListing(cfg: Config, t: Tables, cap: Capability, newRun: RunId, newest: nat,
                             listing: map<MediaId, Metadata>, pages: seq<Page>)
    requires newRun !in t.runs && t.authority.None? && t.sync.None? && cap.connected && cap.available
    requires Traversal(listing, None, None, pages) && |pages| <= cfg.pagesPerRun && |pages| <= cfg.callBudget
    ensures AuthorityItems(Ran(cfg, t, cap, None, newRun, newest, Listings(pages), cap).0) == listing
  {
    hide Ran, Traversal;
    LastPageEnds(listing, None, pages);
    forall x: MediaId
      ensures
        var items := AuthorityItems(Ran(cfg, t, cap, None, newRun, newest, Listings(pages), cap).0);
        (x in items <==> x in listing) && (x in listing ==> items[x] == listing[x])
    {
      FreshRunTraverses(cfg, t, cap, newRun, newest, listing, pages, x);
    }
  }

  lemma {:induction false} LastPageEnds(listing: map<MediaId, Metadata>, cursor: Option<Cursor>, pages: seq<Page>)
    requires Traversal(listing, cursor, None, pages)
    ensures pages != [] && pages[|pages| - 1].next.None?
    decreases |pages|
  {
    if |pages| == 1 {
    } else {
      LastPageEnds(listing, pages[0].next, pages[1..]);
    }
  }
}
