/**
 Deletions, blob-worker steps, acknowledgements and new rows in any order: what survives, which
 objects are removed, and which never are.

 A media row names its object by a reference into the media store.  Raw records carry the bare digest
 (resolution.rs:326, own_media.rs:502-523, data_export/reconcile.rs:229-239) and export snapshots
 a structured reference, so neither names a media object.
 */
module DeletionHistory {
  import opened Prelude
  import opened Deletion

  // ---------------------------------------------------------------- media store

  const MEDIA_PREFIX := "instagram-archive/media/sha256/"

  function MediaRef(hash: string): string {
    MEDIA_PREFIX + hash
  }

  /** A media object, named by its own digest. */
  predicate MediaBlob(blob: Blob) {
    blob.ref == MediaRef(blob.hash)
  }

  /** A reference that names nothing in the media store. */
  predicate Foreign(ref: string) {
    !(MEDIA_PREFIX <= ref)
  }

  lemma ForeignIsNoMedia(blob: Blob)
    requires Foreign(blob.ref)
    ensures !MediaBlob(blob)
  {
  }

  /** Objects of the media store by reference, each with the digest and length of its bytes. */
  type Objects = map<string, (string, nat)>

  predicate Holds(objects: Objects, blob: Blob) {
    blob.ref in objects && objects[blob.ref] == (blob.hash, blob.size)
  }

  /** How the file system answers: fully, not at all, or no longer after the file is gone. */
  datatype Storage = Works | Down | FailsAfterRemoval

  /** Removes the object only when its bytes match the expected evidence; an absent object is fine. */
  function DeleteIfMatches(objects: Objects, blob: Blob, storage: Storage): (Objects, Option<Failure>) {
    if !MediaBlob(blob) then (objects, Some(DigestMismatch))
    else if storage.Down? then (objects, Some(StorageUnavailable))
    else if blob.ref !in objects then (objects, None)
    else if objects[blob.ref] != (blob.hash, blob.size) then (objects, Some(DigestMismatch))
    else (objects - {blob.ref}, if storage.Works? then None else Some(StorageUnavailable))
  }

  // ---------------------------------------------------------------- blob worker

  /** A row names the object: the sum of three counts in the source is positive. */
  ghost predicate Live(a: Archive, blob: Blob) {
    || (exists m :: m in a.media && a.media[m].blob == Some(blob))
    || (exists w :: w in a.raws && a.raws[w] == blob)
    || (exists s :: s in a.snapshots && a.snapshots[s] == blob)
  }

  /**
   `checked` are the tasks that passed the reference count and whose object is not removed yet;
   `used` are all capture ids ever handed out.
   */
  datatype World = World(archive: Archive, objects: Objects, checked: set<TaskKey>, used: set<CaptureId>)

  function FailedTask(task: Task, failure: Failure): Task {
    if task.pending then task.(attempts := task.attempts + 1, failure := Some(failure)) else task
  }

  function CompleteTask(task: Task): Task {
    task.(pending := false, attempts := task.attempts + 1, failure := None)
  }

  function WithTask(a: Archive, key: TaskKey, task: Task): Archive {
    a.(tasks := a.tasks[key := task])
  }

  ghost function Checked(w: World, key: TaskKey): World
    requires key in w.archive.tasks
  {
    var task := w.archive.tasks[key];
    if Live(w.archive, task.blob) then w.(archive := WithTask(w.archive, key, FailedTask(task, StillReferenced)))
    else w.(checked := w.checked + {key})
  }

  function Removed(w: World, key: TaskKey, storage: Storage): World
    requires key in w.archive.tasks
  {
    var task := w.archive.tasks[key];
    var (objects, failure) := DeleteIfMatches(w.objects, task.blob, storage);
    var after := if failure.Some? then FailedTask(task, failure.value) else CompleteTask(task);
    w.(archive := WithTask(w.archive, key, after), objects := objects, checked := w.checked - {key})
  }

  // ---------------------------------------------------------------- histories

  datatype Event =
    | EraseCapture(capture: CaptureId, raws: seq<RawId>)
    | EraseConnection(account: AccountId, rows: seq<(MediaId, seq<RawId>)>, named: seq<RawId>)
    | Acknowledge(event: EventId)
    | CheckTask(key: TaskKey)
    | RemoveObject(key: TaskKey, storage: Storage)
    | LoseChecks
    | NewCapture(id: CaptureId, user: UserId, url: string)
    | LinkCapture(id: CaptureId, target: MediaId)
    | NewMedia(mediaId: MediaId, media: Media)
    | NewRaw(raw: RawId, blob: Blob)
    | NewRevision(revision: RevisionId, row: Revision)
    | NewSnapshot(snapshot: SnapshotId, blob: Blob)

  predicate Enabled(w: World, e: Event) {
    match e
    case CheckTask(key) => key in w.archive.tasks && w.archive.tasks[key].pending
    case RemoveObject(key, _) => key in w.checked && key in w.archive.tasks
    case NewCapture(id, _, _) => id !in w.used
    case LinkCapture(id, target) =>
      && id in w.archive.captures && target in w.archive.media
      && (w.archive.captures[id].media.None? || w.archive.captures[id].media == Some(target))
    case NewMedia(id, media) =>
      id !in w.archive.media && (media.blob.Some? ==>
        MediaBlob(media.blob.value) && CanPlace(w.objects, media.blob.value))
    case NewRaw(raw, blob) => raw !in w.archive.raws && Foreign(blob.ref)
    case NewRevision(revision, row) =>
      revision !in w.archive.revisions && row.media in w.archive.media && row.raw in w.archive.raws
    case NewSnapshot(snapshot, blob) => snapshot !in w.archive.snapshots && Foreign(blob.ref)
    case _ => true
  }

  /** Storing bytes under a digest that is already there needs the same bytes. */
  predicate CanPlace(objects: Objects, blob: Blob) {
    blob.ref in objects ==> Holds(objects, blob)
  }

  function Committed(a: Archive, r: Result<Deleted, Refusal>): Archive {
    if r.Ok? then r.value.archive else a
  }

  function Acknowledged(a: Archive, e: EventId): Archive {
    if e in a.outbox && a.outbox[e].removal then a.(outbox := a.outbox[e := a.outbox[e].(acknowledged := true)]) else a
  }

  function Placed(objects: Objects, blob: Option<Blob>): Objects {
    if blob.Some? then objects[blob.value.ref := (blob.value.hash, blob.value.size)] else objects
  }

  /** The rows after an event that does not concern the worker. */
  function Rows(a: Archive, e: Event): Archive {
    match e
    case EraseCapture(capture, raws) => Committed(a, DeleteCapture(a, capture, raws))
    case EraseConnection(account, rows, named) => Committed(a, DeleteConnection(a, account, rows, named))
    case Acknowledge(event) => Acknowledged(a, event)
    case NewCapture(id, user, url) => a.(captures := a.captures[id := Capture(user, url, None)])
    case LinkCapture(id, target) =>
      if id in a.captures then a.(captures := a.captures[id := a.captures[id].(media := Some(target))]) else a
    case NewMedia(id, media) => a.(media := a.media[id := media])
    case NewRaw(raw, blob) => a.(raws := a.raws[raw := blob])
    case NewRevision(revision, row) => a.(revisions := a.revisions[revision := row])
    case NewSnapshot(snapshot, blob) => a.(snapshots := a.snapshots[snapshot := blob])
    case _ => a
  }

  ghost function Next(w: World, e: Event): World
    requires Enabled(w, e)
  {
    match e
    case CheckTask(key) => Checked(w, key)
    case RemoveObject(key, storage) => Removed(w, key, storage)
    case LoseChecks => w.(checked := {})
    case NewCapture(id, _, _) => w.(archive := Rows(w.archive, e), used := w.used + {id})
    case NewMedia(_, media) => w.(archive := Rows(w.archive, e), objects := Placed(w.objects, media.blob))
    case _ => w.(archive := Rows(w.archive, e))
  }

  ghost predicate History(w: World, events: seq<Event>)
    decreases |events|
  {
    events == [] || (Enabled(w, events[0]) && History(Next(w, events[0]), events[1..]))
  }

  ghost function After(w: World, events: seq<Event>): World
    requires History(w, events)
    decreases |events|
  {
    if events == [] then w else After(Next(w, events[0]), events[1..])
  }

  predicate Deletes(e: Event) {
    e.EraseCapture? || e.EraseConnection?
  }

  lemma DeletionShrinks(w: World, e: Event)
    requires Sound(w.archive) && Enabled(w, e) && Deletes(e)
    ensures Shrinks(w.archive, Next(w, e).archive) && Sound(Next(w, e).archive)
  {
    hide DeleteCapture, DeleteConnection, Sound, Shrinks;
    var a := w.archive;
    ShrinksSelf(a);
    match e
    case EraseCapture(capture, raws) =>
      if DeleteCapture(a, capture, raws).Ok? { DeleteCaptureShrinks(a, capture, raws); }
    case EraseConnection(account, rows, named) =>
      if DeleteConnection(a, account, rows, named).Ok? { DeleteConnectionShrinks(a, account, rows, named); }
  }

  lemma StepSound(w: World, e: Event)
    requires Sound(w.archive) && Enabled(w, e)
    ensures Sound(Next(w, e).archive)
  {
    hide DeleteCapture, DeleteConnection, DeleteIfMatches, Live;
    if Deletes(e) { DeletionShrinks(w, e); }
  }

  // ---------------------------------------------------------------- captures stand

  lemma StandsCompose(a: Archive, b: Archive, c: Archive, id: CaptureId)
    requires id in a.captures && id in b.captures && id in c.captures && Stands(a, b, id) && Stands(b, c, id)
    ensures Stands(a, c, id)
  {
  }

  /** Rows are only added, and at most the capture is linked. */
  lemma StandsGrown(a: Archive, b: Archive, id: CaptureId)
    requires Sound(a) && id in a.captures && id in b.captures && SameCapture(a.captures[id], b.captures[id])
    requires forall m :: m in a.media ==> m in b.media && b.media[m] == a.media[m]
    requires forall r :: r in a.revisions ==> r in b.revisions && b.revisions[r] == a.revisions[r]
    requires forall w :: w in a.raws ==> w in b.raws && b.raws[w] == a.raws[w]
    ensures Stands(a, b, id)
  {
  }

  lemma StepStands(w: World, e: Event, id: CaptureId)
    requires Sound(w.archive) && Enabled(w, e) && id in w.archive.captures && id in Next(w, e).archive.captures
    requires w.archive.captures.Keys <= w.used
    ensures Stands(w.archive, Next(w, e).archive, id)
  {
    hide DeleteCapture, DeleteConnection, DeleteIfMatches, Live, Stands, Sound, Shrinks;
    if Deletes(e) {
      DeletionShrinks(w, e);
      ShrunkCapturesStand(w.archive, Next(w, e).archive, id);
    } else {
      StandsGrown(w.archive, Next(w, e).archive, id);
    }
  }

  lemma StepUsed(w: World, e: Event, id: CaptureId)
    requires Sound(w.archive) && Enabled(w, e) && w.archive.captures.Keys <= w.used
    ensures w.used <= Next(w, e).used && Next(w, e).archive.captures.Keys <= Next(w, e).used
    ensures id in w.used && id !in w.archive.captures ==> id !in Next(w, e).archive.captures
  {
    hide DeleteCapture, DeleteConnection, DeleteIfMatches, Live, Sound;
    if Deletes(e) { DeletionShrinks(w, e); }
  }

  lemma {:induction false} GoneStaysGone(w: World, events: seq<Event>, id: CaptureId)
    requires Sound(w.archive) && History(w, events) && w.archive.captures.Keys <= w.used
    requires id in w.used && id !in w.archive.captures
    ensures id !in After(w, events).archive.captures
    decreases |events|
  {
    hide Enabled, Next, Sound;
    if events == [] {
    } else {
      StepSound(w, events[0]);
      StepUsed(w, events[0], id);
      GoneStaysGone(Next(w, events[0]), events[1..], id);
    }
  }

  /**
   Deletion frame: whatever deletions, worker steps, new rows and new links happen, a surviving capture
   still has its row, its media, every revision the media had and those revisions' raw records.
   */
  lemma {:induction false} CapturesStand(w: World, events: seq<Event>, id: CaptureId)
    requires Sound(w.archive) && History(w, events) && w.archive.captures.Keys <= w.used
    requires id in w.archive.captures && id in After(w, events).archive.captures
    ensures Stands(w.archive, After(w, events).archive, id)
    decreases |events|
  {
    hide Enabled, Next, Sound, Stands;
    if events == [] {
      StandsOwn(w.archive, id);
    } else {
      var next := Next(w, events[0]);
      StepSound(w, events[0]);
      StepUsed(w, events[0], id);
      if id !in next.archive.captures { GoneStaysGone(next, events[1..], id); }
      StepStands(w, events[0], id);
      CapturesStand(next, events[1..], id);
      StandsCompose(w.archive, next.archive, After(w, events).archive, id);
    }
  }

  lemma StandsOwn(a: Archive, id: CaptureId)
    requires Sound(a) && id in a.captures
    ensures Stands(a, a, id)
  {
  }

  // ---------------------------------------------------------------- removal facts

  lemma StepKeepsRemoval(w: World, e: Event, event: EventId)
    requires Sound(w.archive) && Enabled(w, e) && e != Acknowledge(event)
    requires event in w.archive.outbox && w.archive.outbox[event].removal && !w.archive.outbox[event].acknowledged
    ensures event in Next(w, e).archive.outbox && Next(w, e).archive.outbox[event] == w.archive.outbox[event]
  {
    hide DeleteCapture, DeleteConnection, DeleteIfMatches, Live, Sound;
    if Deletes(e) { DeletionShrinks(w, e); }
  }

  /** No deletion ever loses a removal fact that has not been acknowledged. */
  lemma {:induction false} RemovalsKept(w: World, events: seq<Event>, event: EventId)
    requires Sound(w.archive) && History(w, events)
    requires forall i :: 0 <= i < |events| ==> events[i] != Acknowledge(event)
    requires event in w.archive.outbox && w.archive.outbox[event].removal && !w.archive.outbox[event].acknowledged
    ensures event in After(w, events).archive.outbox
    ensures After(w, events).archive.outbox[event] == w.archive.outbox[event]
    decreases |events|
  {
    hide Enabled, Next, Sound;
    if events == [] {
    } else {
      StepSound(w, events[0]);
      StepKeepsRemoval(w, events[0], event);
      assert forall i :: 0 <= i < |events[1..]| ==> events[1..][i] == events[i + 1];
      RemovalsKept(Next(w, events[0]), events[1..], event);
    }
  }

  // ---------------------------------------------------------------- tasks

  function KeyOf(blob: Blob): TaskKey {
    (blob.ref, blob.hash)
  }

  /** A deletion leaves stored tasks alone, adds pending ones under their key, and one for each dropped raw record. */
  ghost predicate Books(a: Archive, b: Archive) {
    && (forall key :: key in a.tasks ==> key in b.tasks && b.tasks[key] == a.tasks[key])
    && (forall key :: key in b.tasks && key !in a.tasks ==> b.tasks[key].pending && key == KeyOf(b.tasks[key].blob))
    && (forall raw :: raw in b.raws ==> raw in a.raws && b.raws[raw] == a.raws[raw])
    && (forall raw :: raw in a.raws && raw !in b.raws ==> KeyOf(a.raws[raw]) in b.tasks)
  }

  lemma BooksSelf(a: Archive, b: Archive)
    requires b.tasks == a.tasks && b.raws == a.raws
    ensures Books(a, b)
  {
  }

  lemma BooksCompose(a: Archive, b: Archive, c: Archive)
    requires Books(a, b) && Books(b, c)
    ensures Books(a, c)
  {
  }

  lemma ScheduledBooks(a: Archive, blob: Blob)
    ensures Books(a, Scheduled(a, blob)) && KeyOf(blob) in Scheduled(a, blob).tasks
  {
  }

  lemma DropRawBooks(before: Deleted, raw: RawId)
    requires DropRaw(before, raw).Ok?
    ensures Books(before.archive, DropRaw(before, raw).value.archive)
  {
    hide RawUsed, AccountNames;
  }

  lemma {:induction false} DropRawsBooks(a: Archive, raws: seq<RawId>)
    requires DropRaws(a, raws).Ok?
    ensures Books(a, DropRaws(a, raws).value.archive)
  {
    hide Books, DropRaw;
    if raws == [] {
      BooksSelf(a, a);
    } else {
      DropRawsBooks(a, raws[..|raws| - 1]);
      var before := DropRaws(a, raws[..|raws| - 1]).value;
      DropRawBooks(before, raws[|raws| - 1]);
      BooksCompose(a, before.archive, DropRaws(a, raws).value.archive);
    }
  }

  lemma EraseBooks(a: Archive, m: MediaId, raws: seq<RawId>)
    requires m in a.media && EraseMedia(a, m, raws).Ok?
    ensures Books(a, EraseMedia(a, m, raws).value.archive)
  {
    hide DropRaws, Books, Scheduled;
    var gone := WithoutRows(a, m);
    BooksSelf(a, gone);
    if a.media[m].blob.Some? {
      ScheduledBooks(gone, a.media[m].blob.value);
      BooksCompose(a, gone, WithoutMedia(a, m).archive);
    }
    DropRawsBooks(WithoutMedia(a, m).archive, raws);
    BooksCompose(a, WithoutMedia(a, m).archive, EraseMedia(a, m, raws).value.archive);
  }

  lemma ReleaseBooks(before: Deleted, m: MediaId, raws: seq<RawId>)
    requires ReleaseMedia(before, m, raws).Ok?
    ensures Books(before.archive, ReleaseMedia(before, m, raws).value.archive)
  {
    hide Books, EraseMedia;
    var a := before.archive;
    BooksSelf(a, ReleasedInPlace(a, m));
    BooksSelf(a, a);
    var marked := RemovalAppended(a, OfMedia(m));
    BooksSelf(a, marked);
    if m in a.media && !CaptureHolds(a.captures, m) {
      EraseBooks(marked, m, raws);
      BooksCompose(a, marked, EraseMedia(marked, m, raws).value.archive);
    }
  }

  function ReleasedInPlace(a: Archive, m: MediaId): Archive {
    if m in a.media then a.(media := a.media[m := a.media[m].(account := None)]) else a
  }

  lemma {:induction false} ReleaseAllBooks(a: Archive, rows: seq<(MediaId, seq<RawId>)>)
    requires ReleaseAll(a, rows).Ok?
    ensures Books(a, ReleaseAll(a, rows).value.archive)
  {
    hide Books, ReleaseMedia;
    if rows == [] {
      BooksSelf(a, a);
    } else {
      ReleaseAllBooks(a, rows[..|rows| - 1]);
      var before := ReleaseAll(a, rows[..|rows| - 1]).value;
      ReleaseBooks(before, rows[|rows| - 1].0, rows[|rows| - 1].1);
      BooksCompose(a, before.archive, ReleaseAll(a, rows).value.archive);
    }
  }

  lemma CaptureBooks(a: Archive, id: CaptureId, raws: seq<RawId>)
    requires DeleteCapture(a, id, raws).Ok?
    ensures Books(a, DeleteCapture(a, id, raws).value.archive)
  {
    hide Books, EraseMedia, OwnerHoldsSource, IndependentHolding;
    var marked := if OwnerHoldsSource(a, id) then a else RemovalAppended(a, OfCapture(id));
    var released := marked.(captures := a.captures - {id});
    BooksSelf(a, released);
    if a.captures[id].media.Some? {
      var m := a.captures[id].media.value;
      if !IndependentHolding(released, m) && m in released.media {
        EraseBooks(released, m, raws);
        BooksCompose(a, released, EraseMedia(released, m, raws).value.archive);
      }
    }
  }

  lemma ConnectionBooks(a: Archive, account: AccountId, rows: seq<(MediaId, seq<RawId>)>, named: seq<RawId>)
    requires DeleteConnection(a, account, rows, named).Ok?
    ensures Books(a, DeleteConnection(a, account, rows, named).value.archive)
  {
    hide Books, ReleaseAll, DropRaws;
    ReleaseAllBooks(a, rows);
    var released := ReleaseAll(a, rows).value.archive;
    BooksSelf(released, Unnamed(released, account));
    DropRawsBooks(Unnamed(released, account), named);
    BooksCompose(a, released, Unnamed(released, account));
    BooksCompose(a, Unnamed(released, account), DeleteConnection(a, account, rows, named).value.archive);
  }

  lemma DeletionBooks(a: Archive, e: Event)
    requires Deletes(e)
    ensures Books(a, Rows(a, e))
  {
    hide Books, DeleteCapture, DeleteConnection;
    BooksSelf(a, a);
    match e
    case EraseCapture(id, raws) =>
      if DeleteCapture(a, id, raws).Ok? { CaptureBooks(a, id, raws); }
    case EraseConnection(account, rows, named) =>
      if DeleteConnection(a, account, rows, named).Ok? { ConnectionBooks(a, account, rows, named); }
  }

  // ---------------------------------------------------------------- raw objects are never removed

  /** Raw records carry no media reference, tasks stand under their key, and one without media reference is pending. */
  ghost predicate Refs(a: Archive) {
    && (forall raw :: raw in a.raws ==> Foreign(a.raws[raw].ref))
    && (forall key :: key in a.tasks ==> key == KeyOf(a.tasks[key].blob) && (Foreign(key.0) ==> a.tasks[key].pending))
  }

  /** The raw record is still stored, or a task for its object is. */
  ghost predicate Kept(a: Archive, raw: RawId, blob: Blob) {
    (raw in a.raws && a.raws[raw] == blob) || KeyOf(blob) in a.tasks
  }

  lemma StepRefs(w: World, e: Event, raw: RawId, blob: Blob)
    requires Refs(w.archive) && Enabled(w, e) && Kept(w.archive, raw, blob)
    ensures Refs(Next(w, e).archive) && Kept(Next(w, e).archive, raw, blob)
  {
    hide DeleteCapture, DeleteConnection, Live, Foreign, MediaBlob;
    if Deletes(e) {
      DeletionBooks(w.archive, e);
    } else if e.RemoveObject? {
      var task := w.archive.tasks[e.key];
      if Foreign(task.blob.ref) { ForeignIsNoMedia(task.blob); }
    }
  }

  /**
   In every history a raw record that a deletion dropped leaves a task for its object that stays pending
   for ever: the media store refuses every reference that is a bare digest.
   */
  lemma {:induction false} RawTasksNeverComplete(w: World, events: seq<Event>, raw: RawId)
    requires Refs(w.archive) && History(w, events) && raw in w.archive.raws
    ensures
      var a, blob := After(w, events).archive, w.archive.raws[raw];
      || (raw in a.raws && a.raws[raw] == blob)
      || (KeyOf(blob) in a.tasks && a.tasks[KeyOf(blob)].pending)
  {
    RefsHistory(w, events, raw, w.archive.raws[raw]);
  }

  lemma {:induction false} RefsHistory(w: World, events: seq<Event>, raw: RawId, blob: Blob)
    requires Refs(w.archive) && History(w, events) && Kept(w.archive, raw, blob)
    ensures Refs(After(w, events).archive) && Kept(After(w, events).archive, raw, blob)
    decreases |events|
  {
    hide Enabled, Next, Refs, Kept;
    if events == [] {
    } else {
      StepRefs(w, events[0], raw, blob);
      RefsHistory(Next(w, events[0]), events[1..], raw, blob);
    }
  }

  // ---------------------------------------------------------------- media objects

  /** Every media object that a row names is stored. */
  ghost predicate AllStored(w: World) {
    forall blob :: Live(w.archive, blob) && MediaBlob(blob) ==> Holds(w.objects, blob)
  }

  /** No row names the media object of a task that passed the check. */
  ghost predicate ChecksHold(w: World) {
    forall key :: key in w.checked ==>
      key in w.archive.tasks && !(MediaBlob(w.archive.tasks[key].blob) && Live(w.archive, w.archive.tasks[key].blob))
  }

  /** A new media row's object is not one that a worker has checked and not removed yet. */
  predicate Clear(w: World, e: Event) {
    e.NewMedia? && e.media.blob.Some? ==>
      forall key :: key in w.checked && key in w.archive.tasks ==> w.archive.tasks[key].blob != e.media.blob.value
  }

  ghost predicate Careful(w: World, events: seq<Event>)
    requires History(w, events)
    decreases |events|
  {
    events == [] || (Clear(w, events[0]) && Careful(Next(w, events[0]), events[1..]))
  }

  lemma SameLive(a: Archive, b: Archive, blob: Blob)
    requires b.media == a.media && b.raws == a.raws && b.snapshots == a.snapshots
    ensures Live(b, blob) <==> Live(a, blob)
  {
  }

  /** Deletions only take references away. */
  lemma ShrunkLive(a: Archive, b: Archive, blob: Blob)
    requires Shrinks(a, b) && Live(b, blob)
    ensures Live(a, blob)
  {
  }

  lemma DeletionObjects(w: World, e: Event)
    requires Sound(w.archive) && Enabled(w, e) && AllStored(w) && ChecksHold(w) && Deletes(e)
    ensures AllStored(Next(w, e)) && ChecksHold(Next(w, e))
  {
    hide DeleteCapture, DeleteConnection, Holds, Live, MediaBlob, Shrinks, Sound;
    var a, b := w.archive, Next(w, e).archive;
    DeletionBooks(a, e);
    DeletionShrinks(w, e);
    forall blob | Live(b, blob) ensures Live(a, blob) { ShrunkLive(a, b, blob); }
  }

  lemma OthersStay(objects: Objects, gone: Blob, storage: Storage, blob: Blob)
    requires Holds(objects, blob) && blob != gone
    ensures Holds(DeleteIfMatches(objects, gone, storage).0, blob)
  {
    hide MediaBlob;
  }

  /**
   A removal is safe exactly when no row names the object at that moment, or its bytes are not removed
   because the reference is no media reference or the storage is down.
   */
  lemma RemovalSafeIff(w: World, key: TaskKey, storage: Storage)
    requires AllStored(w) && key in w.archive.tasks
    ensures
      var gone := w.archive.tasks[key].blob;
      AllStored(Removed(w, key, storage)) <==> !Live(w.archive, gone) || !MediaBlob(gone) || storage.Down?
  {
    var gone := w.archive.tasks[key].blob;
    var out := Removed(w, key, storage);
    hide Live, MediaBlob;
    forall blob ensures Live(out.archive, blob) == Live(w.archive, blob) { SameLive(w.archive, out.archive, blob); }
    if Live(w.archive, gone) && MediaBlob(gone) && !storage.Down? {
      assert Holds(w.objects, gone);
      assert !Holds(out.objects, gone);
    } else {
      forall blob | Live(w.archive, blob) && MediaBlob(blob) ensures Holds(out.objects, blob) {
        if blob != gone { OthersStay(w.objects, gone, storage, blob); }
      }
    }
  }

  lemma WorkerObjects(w: World, e: Event)
    requires Enabled(w, e) && AllStored(w) && ChecksHold(w) && (e.CheckTask? || e.RemoveObject?)
    ensures AllStored(Next(w, e)) && ChecksHold(Next(w, e))
  {
    hide Live, Holds, MediaBlob, DeleteIfMatches;
    var out := Next(w, e);
    forall blob ensures Live(out.archive, blob) == Live(w.archive, blob) { SameLive(w.archive, out.archive, blob); }
    if e.RemoveObject? { RemovalSafeIff(w, e.key, e.storage); }
  }

  lemma NewLive(a: Archive, blob: Blob, e: Event)
    requires e.NewMedia? || e.NewRaw? || e.NewSnapshot?
    requires (e.NewRaw? || e.NewSnapshot?) ==> Foreign(e.blob.ref)
    ensures Live(Rows(a, e), blob) && MediaBlob(blob) ==> Live(a, blob) || (e.NewMedia? && e.media.blob == Some(blob))
  {
    if e.NewRaw? || e.NewSnapshot? { ForeignIsNoMedia(e.blob); }
  }

  lemma NewRowObjects(w: World, e: Event)
    requires Enabled(w, e) && AllStored(w) && ChecksHold(w) && Clear(w, e)
             && (e.NewMedia? || e.NewRaw? || e.NewSnapshot?)
    ensures AllStored(Next(w, e)) && ChecksHold(Next(w, e))
  {
    hide Live, MediaBlob, Foreign;
    var a, b := w.archive, Next(w, e).archive;
    forall blob | Live(b, blob) && MediaBlob(blob) ensures Live(a, blob)
      || (e.NewMedia? && e.media.blob == Some(blob)) {
      NewLive(a, blob, e);
    }
  }

  lemma StepObjects(w: World, e: Event)
    requires Sound(w.archive) && Enabled(w, e) && AllStored(w) && ChecksHold(w) && Clear(w, e)
    ensures AllStored(Next(w, e)) && ChecksHold(Next(w, e))
  {
    hide DeleteCapture, DeleteConnection, Removed, Checked, Sound, Holds, Live, MediaBlob;
    if Deletes(e) {
      DeletionObjects(w, e);
    } else if e.CheckTask? || e.RemoveObject? {
      WorkerObjects(w, e);
    } else if e.NewMedia? || e.NewRaw? || e.NewSnapshot? {
      NewRowObjects(w, e);
    } else {
      forall blob ensures Live(Next(w, e).archive, blob) == Live(w.archive, blob) {
        SameLive(w.archive, Next(w, e).archive, blob);
      }
    }
  }

  /**
   No media object is removed while a row names it: in every history in which no new media row takes up an
   object between a worker's reference check and its removal, every media object that a row names is stored.
   */
  lemma {:induction false} ObjectsKept(w: World, events: seq<Event>)
    requires Sound(w.archive) && AllStored(w) && ChecksHold(w) && History(w, events) && Careful(w, events)
    ensures AllStored(After(w, events)) && ChecksHold(After(w, events))
    decreases |events|
  {
    hide Enabled, Next, Sound, AllStored, ChecksHold, Clear;
    if events == [] {
    } else {
      StepSound(w, events[0]);
      StepObjects(w, events[0]);
      ObjectsKept(Next(w, events[0]), events[1..]);
    }
  }

  /**
   What an attempt records: the object goes exactly when it is a media object with the expected bytes and the
   storage answers; the task then is complete, or when the object is absent; otherwise it stays pending with
   one attempt more and the failure.
   */
  lemma AttemptIsRecorded(w: World, key: TaskKey, storage: Storage)
    requires key in w.archive.tasks && w.archive.tasks[key].pending
    ensures
      var task, out := w.archive.tasks[key], Removed(w, key, storage);
      var blob := task.blob;
      var media := blob.ref == "instagram-archive/media/sha256/" + blob.hash;
      var present := blob.ref in w.objects;
      var matches := present && w.objects[blob.ref] == (blob.hash, blob.size);
      && out.archive == w.archive.(tasks := w.archive.tasks[key := out.archive.tasks[key]])
      && out.objects == (if media && matches && !storage.Down? then w.objects - {blob.ref} else w.objects)
      && out.archive.tasks[key] ==
         (if media && (storage.Works? || (storage.FailsAfterRemoval? && !present)) && (matches || !present)
          then Task(blob, false, task.attempts + 1, None)
          else Task(blob, true, task.attempts + 1,
                    Some(if !media || (!storage.Down? && !matches) then DigestMismatch else StorageUnavailable)))
  {
  }

  /** One scheduled media object and no row: where a race may start. */
  function RaceStart(blob: Blob): World {
    World(Archive(map[], map[], map[], map[], {}, map[], map[], 0, map[KeyOf(blob) := Task(blob, true, 0, None)]),
          map[blob.ref := (blob.hash, blob.size)], {}, {})
  }

  function RaceEvents(blob: Blob): seq<Event> {
    [CheckTask(KeyOf(blob)), NewMedia(0, Media(None, false, Some(blob))), RemoveObject(KeyOf(blob), Works)]
  }

  /** A media row that takes up an object between the check and the removal loses it, for every media object. */
  lemma RaceLosesObject(blob: Blob)
    requires MediaBlob(blob)
    ensures
      var w, events := RaceStart(blob), RaceEvents(blob);
      && Sound(w.archive) && AllStored(w) && ChecksHold(w) && History(w, events)
      && Live(After(w, events).archive, blob) && !Holds(After(w, events).objects, blob)
  {
    hide MediaBlob;
    var key, media := KeyOf(blob), Media(None, false, Some(blob));
    var w, events := RaceStart(blob), RaceEvents(blob);
    var w1 := w.(checked := {key});
    var w2 := w1.(archive := w.archive.(media := map[0 := media]));
    assert Enabled(w, events[0]) && Next(w, events[0]) == w1;
    assert Enabled(w1, events[1]) && Next(w1, events[1]) == w2;
    assert Enabled(w2, events[2]);
    var w3 := Next(w2, events[2]);
    assert Live(w3.archive, blob) by { assert w3.archive.media[0].blob == Some(blob); }
    assert !Holds(w3.objects, blob);
    assert events[1..][0] == events[1] && events[1..][1..] == [events[2]] && events[1..][1..][1..] == [];
    assert History(w3, []) && History(w2, [events[2]]) && History(w1, events[1..]) && History(w, events);
    assert After(w, events) == After(w1, events[1..]) == After(w2, [events[2]]) == After(w3, []) == w3;
  }
}
