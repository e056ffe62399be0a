/**
 Privacy deletion with shared holdings and the blob deletion worker
 (crates/instagram-archive/src/privacy_deletion/apply.rs, crates/instagram-archive/src/media_retention.rs).

 A deletion is one transaction over the tables below.  Foreign keys are modelled where they can stop
 it: a raw record that an account's rows still name cannot be deleted (schema.sql:142-149, 243-248,
 446-452), and the transaction then fails as a whole.
 */
module Deletion {
  import opened Prelude

  type UserId = nat
  type CaptureId = nat
  type MediaId = nat
  type RawId = nat
  type RevisionId = nat
  type AccountId = nat
  type EventId = nat
  type SnapshotId = nat

  datatype Blob = Blob(ref: string, hash: string, size: nat)

  datatype Capture = Capture(user: UserId, url: string, media: Option<MediaId>)

  datatype Media = Media(account: Option<AccountId>, exported: bool, blob: Option<Blob>)

  datatype Revision = Revision(media: MediaId, raw: RawId)

  datatype Aggregate = OfCapture(capture: CaptureId) | OfMedia(media: MediaId)

  datatype Fact = Fact(aggregate: Aggregate, removal: bool, acknowledged: bool)

  datatype Failure = StorageUnavailable | DigestMismatch | StillReferenced

  /** A scheduled deletion; (ref, hash) is its key. */
  datatype Task = Task(blob: Blob, pending: bool, attempts: nat, failure: Option<Failure>)

  type TaskKey = (string, string)

  datatype Archive = Archive(
    captures: map<CaptureId, Capture>,
    media: map<MediaId, Media>,
    revisions: map<RevisionId, Revision>,
    raws: map<RawId, Blob>,
    accountRaws: set<(AccountId, RawId)>,
    snapshots: map<SnapshotId, Blob>,
    outbox: map<EventId, Fact>,
    nextEvent: EventId,
    tasks: map<TaskKey, Task>
  )

  datatype Refusal = NotFound | ForeignKey

  datatype Deleted = Deleted(archive: Archive, pending: nat)

  // ---------------------------------------------------------------- steps

  function Scheduled(a: Archive, blob: Blob): Archive {
    if (blob.ref, blob.hash) in a.tasks then a
    else a.(tasks := a.tasks[(blob.ref, blob.hash) := Task(blob, true, 0, None)])
  }

  /** Appends a removal fact and drops the aggregate's other facts, but no unacknowledged removal. */
  function RemovalAppended(a: Archive, aggregate: Aggregate): Archive {
    var outbox := a.outbox[a.nextEvent := Fact(aggregate, true, false)];
    a.(outbox := map e | e in outbox && !(outbox[e].aggregate == aggregate
      && !(outbox[e].removal && !outbox[e].acknowledged))
                     :: outbox[e],
       nextEvent := a.nextEvent + 1)
  }

  predicate RawUsed(revisions: map<RevisionId, Revision>, raw: RawId) {
    exists r :: r in revisions && revisions[r].raw == raw
  }

  predicate AccountNames(names: set<(AccountId, RawId)>, raw: RawId) {
    exists p :: p in names && p.1 == raw
  }

  predicate CaptureHolds(captures: map<CaptureId, Capture>, m: MediaId) {
    exists c :: c in captures && captures[c].media == Some(m)
  }

  /** Deletes those raw records that no revision names any more and schedules their objects. */
  function DropRaws(a: Archive, raws: seq<RawId>): Result<Deleted, Refusal> {
    if raws == [] then Ok(Deleted(a, 0))
    else
      match DropRaws(a, raws[..|raws| - 1])
      case Err(e) => Err(e)
      case Ok(before) => DropRaw(before, raws[|raws| - 1])
  }

  function DropRaw(before: Deleted, raw: RawId): Result<Deleted, Refusal> {
    var a := before.archive;
    if raw !in a.raws || RawUsed(a.revisions, raw) then Ok(before)
    else if AccountNames(a.accountRaws, raw) then Err(ForeignKey)
    else Ok(Deleted(Scheduled(a.(raws := a.raws - {raw}), a.raws[raw]), before.pending + 1))
  }

  function WithoutRows(a: Archive, m: MediaId): Archive {
    a.(revisions := map r | r in a.revisions && a.revisions[r].media != m :: a.revisions[r], media := a.media - {m})
  }

  /** The media row and its revisions go, and the media object is scheduled. */
  function WithoutMedia(a: Archive, m: MediaId): Deleted
    requires m in a.media
  {
    var gone := WithoutRows(a, m);
    if a.media[m].blob.Some? then Deleted(Scheduled(gone, a.media[m].blob.value), 1) else Deleted(gone, 0)
  }

  function EraseMedia(a: Archive, m: MediaId, raws: seq<RawId>): Result<Deleted, Refusal>
    requires m in a.media
  {
    var gone := WithoutMedia(a, m);
    match DropRaws(gone.archive, raws)
    case Err(e) => Err(e)
    case Ok(d) => Ok(d.(pending := d.pending + gone.pending))
  }

  predicate OwnerHoldsSource(a: Archive, id: CaptureId)
    requires id in a.captures
  {
    var c := a.captures[id];
    exists o :: o in a.captures && o != id && a.captures[o].user == c.user
                && if c.media.Some? then a.captures[o].media == c.media else a.captures[o].url == c.url
  }

  predicate IndependentHolding(a: Archive, m: MediaId) {
    CaptureHolds(a.captures, m) || (m in a.media && (a.media[m].account.Some? || a.media[m].exported))
  }

  /** `raws` are the raw records of the media's revisions, as the query lists them. */
  function DeleteCapture(a: Archive, id: CaptureId, raws: seq<RawId>): Result<Deleted, Refusal> {
    if id !in a.captures then Err(NotFound)
    else
      var marked := if OwnerHoldsSource(a, id) then a else RemovalAppended(a, OfCapture(id));
      var released := marked.(captures := a.captures - {id});
      match a.captures[id].media
      case None => Ok(Deleted(released, 0))
      case Some(m) =>
        if IndependentHolding(released, m) || m !in released.media then Ok(Deleted(released, 0))
        else EraseMedia(released, m, raws)
  }

  /** One media row of a deleted connection: kept without its account if a capture holds it, else erased. */
  function ReleaseMedia(before: Deleted, m: MediaId, raws: seq<RawId>): Result<Deleted, Refusal> {
    var a := before.archive;
    if m !in a.media then Ok(before)
    else if CaptureHolds(a.captures, m) then
      Ok(before.(archive := a.(media := a.media[m := a.media[m].(account := None)])))
    else
      match EraseMedia(RemovalAppended(a, OfMedia(m)), m, raws)
      case Err(e) => Err(e)
      case Ok(d) => Ok(d.(pending := before.pending + d.pending))
  }

  function ReleaseAll(a: Archive, rows: seq<(MediaId, seq<RawId>)>): Result<Deleted, Refusal> {
    if rows == [] then Ok(Deleted(a, 0))
    else
      match ReleaseAll(a, rows[..|rows| - 1])
      case Err(e) => Err(e)
      case Ok(before) => ReleaseMedia(before, rows[|rows| - 1].0, rows[|rows| - 1].1)
  }

  /** The account's own rows are gone. */
  function Unnamed(a: Archive, account: AccountId): Archive {
    a.(accountRaws := set p | p in a.accountRaws && p.0 != account)
  }

  /** `rows` are the connection's media with their raw records, `raws` the raw records its own rows name. */
  function DeleteConnection(a: Archive, account: AccountId, rows: seq<(MediaId, seq<RawId>)>, raws: seq<RawId>)
    : Result<Deleted, Refusal>
  {
    match ReleaseAll(a, rows)
    case Err(e) => Err(e)
    case Ok(released) =>
      match DropRaws(Unnamed(released.archive, account), raws)
      case Err(e) => Err(e)
      case Ok(d) => Ok(d.(pending := released.pending + d.pending))
  }

  // ---------------------------------------------------------------- integrity

  /** The foreign keys of captures and revisions. */
  ghost predicate Sound(a: Archive) {
    && (forall c :: c in a.captures && a.captures[c].media.Some? ==> a.captures[c].media.value in a.media)
    && (forall r :: r in a.revisions ==> a.revisions[r].media in a.media && a.revisions[r].raw in a.raws)
    && (forall e :: e in a.outbox ==> e < a.nextEvent)
  }

  /** The media rows agree except that an account may have been taken off. */
  predicate SameMedia(before: Media, after: Media) {
    after == before || after == before.(account := None)
  }

  /** The capture rows agree except that an unlinked one may have been linked. */
  predicate SameCapture(before: Capture, after: Capture) {
    after == before || (before.media.None? && after == before.(media := after.media))
  }

  /** Everything a surviving capture stands on: its row, its media, the media's revisions and their raw records. */
  ghost predicate Stands(a: Archive, b: Archive, id: CaptureId)
    requires id in a.captures && id in b.captures
  {
    && SameCapture(a.captures[id], b.captures[id])
    && (a.captures[id].media.Some? ==>
          var m := a.captures[id].media.value;
          && m in a.media && m in b.media && SameMedia(a.media[m], b.media[m])
          && (forall r :: r in a.revisions && a.revisions[r].media == m ==>
                && r in b.revisions && b.revisions[r] == a.revisions[r]
                && a.revisions[r].raw in a.raws && a.revisions[r].raw in b.raws
                && b.raws[a.revisions[r].raw] == a.raws[a.revisions[r].raw]))
  }

  /** What a deletion step may do: rows only disappear, and nothing a remaining row names disappears. */
  ghost predicate Shrinks(a: Archive, b: Archive) {
    && (forall c :: c in b.captures ==> c in a.captures && b.captures[c] == a.captures[c])
    && (forall m :: m in b.media ==> m in a.media && SameMedia(a.media[m], b.media[m]))
    && (forall r :: r in b.revisions ==> r in a.revisions && b.revisions[r] == a.revisions[r])
    && (forall r :: r in a.revisions && a.revisions[r].media in b.media ==> r in b.revisions)
    && (forall w :: w in b.raws ==> w in a.raws && b.raws[w] == a.raws[w])
    && b.snapshots == a.snapshots
    && (forall e :: e in a.outbox && a.outbox[e].removal && !a.outbox[e].acknowledged ==>
          e in b.outbox && b.outbox[e] == a.outbox[e])
  }

  lemma ShrinksCompose(a: Archive, b: Archive, c: Archive)
    requires Shrinks(a, b) && Shrinks(b, c)
    ensures Shrinks(a, c)
  {
  }

  /** A shrunken archive whose foreign keys still hold keeps whatever a surviving capture stands on. */
  lemma ShrunkCapturesStand(a: Archive, b: Archive, id: CaptureId)
    requires Sound(a) && Sound(b) && Shrinks(a, b) && id in b.captures
    ensures id in a.captures && Stands(a, b, id)
  {
  }

  lemma DropRawShrinks(before: Deleted, raw: RawId)
    requires Sound(before.archive) && DropRaw(before, raw).Ok?
    ensures Sound(DropRaw(before, raw).value.archive) && Shrinks(before.archive, DropRaw(before, raw).value.archive)
    ensures DropRaw(before, raw).value.archive.captures == before.archive.captures
  {
  }

  lemma {:induction false} DropRawsShrinks(a: Archive, raws: seq<RawId>)
    requires Sound(a) && DropRaws(a, raws).Ok?
    ensures Sound(DropRaws(a, raws).value.archive) && Shrinks(a, DropRaws(a, raws).value.archive)
    ensures DropRaws(a, raws).value.archive.captures == a.captures
  {
    hide DropRaw, Sound, Shrinks;
    if raws != [] {
      var front := raws[..|raws| - 1];
      DropRawsShrinks(a, front);
      var before := DropRaws(a, front).value;
      DropRawShrinks(before, raws[|raws| - 1]);
      ShrinksCompose(a, before.archive, DropRaws(a, raws).value.archive);
    } else {
      ShrinksSelf(a);
    }
  }

  lemma ShrinksSelf(a: Archive)
    ensures Shrinks(a, a)
  {
  }

  lemma WithoutMediaShrinks(a: Archive, m: MediaId)
    requires Sound(a) && m in a.media && !CaptureHolds(a.captures, m)
    ensures Sound(WithoutMedia(a, m).archive) && Shrinks(a, WithoutMedia(a, m).archive)
    ensures WithoutMedia(a, m).archive.captures == a.captures
  {
    WithoutRowsShrinks(a, m);
    var gone := WithoutRows(a, m);
    hide WithoutRows, CaptureHolds;
    if a.media[m].blob.Some? {
      ScheduledShrinks(gone, a.media[m].blob.value);
      ShrinksCompose(a, gone, Scheduled(gone, a.media[m].blob.value));
    }
  }

  lemma WithoutRowsShrinks(a: Archive, m: MediaId)
    requires Sound(a) && m in a.media && !CaptureHolds(a.captures, m)
    ensures Sound(WithoutRows(a, m)) && Shrinks(a, WithoutRows(a, m)) && WithoutRows(a, m).captures == a.captures
  {
  }

  lemma ScheduledShrinks(a: Archive, blob: Blob)
    requires Sound(a)
    ensures Sound(Scheduled(a, blob)) && Shrinks(a, Scheduled(a, blob)) && Scheduled(a, blob).captures == a.captures
  {
  }

  lemma EraseMediaShrinks(a: Archive, m: MediaId, raws: seq<RawId>)
    requires Sound(a) && m in a.media && !CaptureHolds(a.captures, m) && EraseMedia(a, m, raws).Ok?
    ensures Sound(EraseMedia(a, m, raws).value.archive) && Shrinks(a, EraseMedia(a, m, raws).value.archive)
    ensures EraseMedia(a, m, raws).value.archive.captures == a.captures
  {
    hide WithoutMedia, DropRaws, Sound, Shrinks, CaptureHolds;
    WithoutMediaShrinks(a, m);
    DropRawsShrinks(WithoutMedia(a, m).archive, raws);
    ShrinksCompose(a, WithoutMedia(a, m).archive, EraseMedia(a, m, raws).value.archive);
  }

  lemma RemovalShrinks(a: Archive, aggregate: Aggregate)
    requires Sound(a)
    ensures Sound(RemovalAppended(a, aggregate)) && Shrinks(a, RemovalAppended(a, aggregate))
  {
  }

  lemma ReleaseCaptureShrinks(a: Archive, id: CaptureId)
    requires Sound(a)
    ensures Sound(a.(captures := a.captures - {id})) && Shrinks(a, a.(captures := a.captures - {id}))
  {
  }

  lemma DeleteCaptureShrinks(a: Archive, id: CaptureId, raws: seq<RawId>)
    requires Sound(a) && DeleteCapture(a, id, raws).Ok?
    ensures Sound(DeleteCapture(a, id, raws).value.archive) && Shrinks(a, DeleteCapture(a, id, raws).value.archive)
    ensures DeleteCapture(a, id, raws).value.archive.captures == a.captures - {id}
  {
    hide Sound, Shrinks, EraseMedia, OwnerHoldsSource;
    var marked := if OwnerHoldsSource(a, id) then a else RemovalAppended(a, OfCapture(id));
    RemovalShrinks(a, OfCapture(id));
    ShrinksSelf(a);
    var released := marked.(captures := a.captures - {id});
    assert marked.captures == a.captures;
    ReleaseCaptureShrinks(marked, id);
    ShrinksCompose(a, marked, released);
    if a.captures[id].media.Some? {
      var m := a.captures[id].media.value;
      if !IndependentHolding(released, m) && m in released.media {
        EraseMediaShrinks(released, m, raws);
        ShrinksCompose(a, released, DeleteCapture(a, id, raws).value.archive);
      }
    }
  }

  lemma ReleaseMediaShrinks(before: Deleted, m: MediaId, raws: seq<RawId>)
    requires Sound(before.archive) && ReleaseMedia(before, m, raws).Ok?
    ensures Sound(ReleaseMedia(before, m, raws).value.archive)
    ensures Shrinks(before.archive, ReleaseMedia(before, m, raws).value.archive)
    ensures ReleaseMedia(before, m, raws).value.archive.captures == before.archive.captures
  {
    var a := before.archive;
    ShrinksSelf(a);
    if m in a.media {
      if CaptureHolds(a.captures, m) {
        assert Shrinks(a, a.(media := a.media[m := a.media[m].(account := None)]));
        assert Sound(a.(media := a.media[m := a.media[m].(account := None)]));
      } else {
        var marked := RemovalAppended(a, OfMedia(m));
        RemovalShrinks(a, OfMedia(m));
        hide Sound, Shrinks, EraseMedia;
        EraseMediaShrinks(marked, m, raws);
        ShrinksCompose(a, marked, EraseMedia(marked, m, raws).value.archive);
      }
    }
  }

  lemma {:induction false} ReleaseAllShrinks(a: Archive, rows: seq<(MediaId, seq<RawId>)>)
    requires Sound(a) && ReleaseAll(a, rows).Ok?
    ensures Sound(ReleaseAll(a, rows).value.archive) && Shrinks(a, ReleaseAll(a, rows).value.archive)
    ensures ReleaseAll(a, rows).value.archive.captures == a.captures
  {
    hide ReleaseMedia, Sound, Shrinks;
    if rows != [] {
      var front := rows[..|rows| - 1];
      ReleaseAllShrinks(a, front);
      var before := ReleaseAll(a, front).value;
      ReleaseMediaShrinks(before, rows[|rows| - 1].0, rows[|rows| - 1].1);
      ShrinksCompose(a, before.archive, ReleaseAll(a, rows).value.archive);
    } else {
      ShrinksSelf(a);
    }
  }

  lemma DeleteConnectionShrinks(a: Archive, account: AccountId, rows: seq<(MediaId, seq<RawId>)>, raws: seq<RawId>)
    requires Sound(a) && DeleteConnection(a, account, rows, raws).Ok?
    ensures Sound(DeleteConnection(a, account, rows, raws).value.archive)
    ensures Shrinks(a, DeleteConnection(a, account, rows, raws).value.archive)
    ensures DeleteConnection(a, account, rows, raws).value.archive.captures == a.captures
  {
    hide DropRaws, ReleaseAll;
    ReleaseAllShrinks(a, rows);
    var released := ReleaseAll(a, rows).value.archive;
    var unnamed := Unnamed(released, account);
    assert Sound(unnamed) && Shrinks(released, unnamed);
    hide Sound, Shrinks;
    DropRawsShrinks(unnamed, raws);
    ShrinksCompose(a, released, unnamed);
    ShrinksCompose(a, unnamed, DropRaws(unnamed, raws).value.archive);
  }

  // ---------------------------------------------------------------- when a foreign key stops an erasure

  predicate Blocked(a: Archive, raw: RawId) {
    raw in a.raws && !RawUsed(a.revisions, raw) && AccountNames(a.accountRaws, raw)
  }

  lemma {:induction false} DropRawsRefused(a: Archive, raws: seq<RawId>)
    ensures DropRaws(a, raws).Err? <==> exists i :: 0 <= i < |raws| && Blocked(a, raws[i])
    ensures DropRaws(a, raws).Ok? ==>
              var b := DropRaws(a, raws).value.archive;
              && b == a.(raws := b.raws, tasks := b.tasks)
              && (forall w :: w in b.raws <==> w in a.raws && (RawUsed(a.revisions, w) || w !in raws))
  {
    if raws == [] {
    } else {
      var front, last := raws[..|raws| - 1], raws[|raws| - 1];
      DropRawsRefused(a, front);
      if DropRaws(a, front).Ok? {
        var before := DropRaws(a, front).value;
        assert RawUsed(before.archive.revisions, last) == RawUsed(a.revisions, last);
        assert AccountNames(before.archive.accountRaws, last) == AccountNames(a.accountRaws, last);
        if DropRaws(a, raws).Err? {
          assert Blocked(a, last) && raws[|front|] == last;
        }
      } else {
        var i :| 0 <= i < |front| && Blocked(a, front[i]);
        assert raws[i] == front[i];
      }
    }
  }

  /** What erasing one media leaves, and when a foreign key stops it. */
  lemma EraseOutcome(a: Archive, m: MediaId, raws: seq<RawId>)
    requires m in a.media
    ensures EraseMedia(a, m, raws).Err? <==> exists i :: 0 <= i < |raws| && Blocked(WithoutRows(a, m), raws[i])
    ensures EraseMedia(a, m, raws).Ok? ==>
              var b := EraseMedia(a, m, raws).value.archive;
              && b.captures == a.captures && b.media == a.media - {m} && b.accountRaws == a.accountRaws
                 && b.outbox == a.outbox
              && b.revisions == WithoutRows(a, m).revisions
              && (forall w :: w in b.raws <==> w in a.raws && (RawUsed(WithoutRows(a, m).revisions, w) || w !in raws))
  {
    hide DropRaws, RawUsed, AccountNames;
    DropRawsRefused(WithoutMedia(a, m).archive, raws);
    var gone := WithoutRows(a, m);
    assert gone.media == a.media - {m} && gone.raws == a.raws && gone.captures == a.captures
           && gone.accountRaws == a.accountRaws;
    assert gone.outbox == a.outbox;
    assert WithoutMedia(a, m).archive == gone.(tasks := WithoutMedia(a, m).archive.tasks);
    hide WithoutRows, WithoutMedia;
    assert forall w :: Blocked(WithoutMedia(a, m).archive, w) == Blocked(gone, w);
  }

  lemma ReleaseOutcome(before: Deleted, m: MediaId, raws: seq<RawId>)
    requires m in before.archive.media
    ensures
      var a, out := before.archive, ReleaseMedia(before, m, raws);
      && (out.Err? <==> !CaptureHolds(a.captures, m) && exists i ::
          0 <= i < |raws| && Blocked(WithoutRows(a, m), raws[i]))
      && (out.Ok? ==>
            var b := out.value.archive;
            && b.captures == a.captures && b.accountRaws == a.accountRaws
            && b.media.Keys == (if CaptureHolds(a.captures, m) then a.media.Keys else a.media.Keys - {m})
            && b.revisions == (if CaptureHolds(a.captures, m) then a.revisions else WithoutRows(a, m).revisions)
            && (forall w :: w in b.raws ==> w in a.raws)
            && (forall w :: w in a.raws && RawUsed(b.revisions, w) ==> w in b.raws)
            && (forall w :: w in a.raws && AccountNames(a.accountRaws, w) ==> w in b.raws))
  {
    var a := before.archive;
    if !CaptureHolds(a.captures, m) {
      var marked := RemovalAppended(a, OfMedia(m));
      EraseOutcome(marked, m, raws);
      assert WithoutRows(marked, m).revisions == WithoutRows(a, m).revisions;
      assert forall w :: Blocked(WithoutRows(marked, m), w) == Blocked(WithoutRows(a, m), w);
    }
  }

  /** Every dropped raw record has a task for its object, and the pending count is the number dropped. */
  lemma {:induction false} DropRawsScheduled(a: Archive, raws: seq<RawId>)
    requires DropRaws(a, raws).Ok?
    ensures
      var d := DropRaws(a, raws).value;
      && |d.archive.raws| + d.pending == |a.raws| && d.archive.raws.Keys <= a.raws.Keys
      && (forall k :: k in a.tasks ==> k in d.archive.tasks)
      && (forall w :: w in d.archive.raws ==> d.archive.raws[w] == a.raws[w])
      && (forall w :: w in a.raws && w !in d.archive.raws ==> (a.raws[w].ref, a.raws[w].hash) in d.archive.tasks)
  {
    hide RawUsed, AccountNames;
    if raws == [] {
    } else {
      DropRawsScheduled(a, raws[..|raws| - 1]);
      var before, last := DropRaws(a, raws[..|raws| - 1]).value, raws[|raws| - 1];
      if DropRaws(a, raws).value != before {
        var b := before.archive.raws;
        assert b.Keys == (b - {last}).Keys + {last};
        assert |b.Keys| == |b| && |(b - {last}).Keys| == |b - {last}|;
      }
    }
  }

  /**
   What a capture deletion does to the shared holdings: the media row goes exactly when no other capture,
   no connection and no export holds it, its objects are then scheduled and counted, and a removal
   fact is appended exactly when the owner holds the source in no other capture.
   */
  lemma DeleteCaptureOutcome(a: Archive, id: CaptureId, raws: seq<RawId>)
    requires Sound(a) && DeleteCapture(a, id, raws).Ok?
    ensures
      var d := DeleteCapture(a, id, raws).value;
      var c := a.captures[id];
      && (a.nextEvent in d.archive.outbox <==> !OwnerHoldsSource(a, id))
      && (c.media.Some? ==>
            var m := c.media.value;
            && (m in d.archive.media <==>
                  || CaptureHolds(a.captures - {id}, m)
                  || a.media[m].account.Some? || a.media[m].exported)
            && (m !in d.archive.media ==>
                  && d.pending == |a.raws| - |d.archive.raws| + (if a.media[m].blob.Some? then 1 else 0)
                  && (a.media[m].blob.Some? ==> (a.media[m].blob.value.ref,
                      a.media[m].blob.value.hash) in d.archive.tasks)))
  {
    hide RawUsed, AccountNames, EraseMedia, RemovalAppended, OwnerHoldsSource, CaptureHolds, WithoutRows, Blocked;
    var marked := if OwnerHoldsSource(a, id) then a else RemovalAppended(a, OfCapture(id));
    RemovalOutcome(a, OfCapture(id));
    var released := marked.(captures := a.captures - {id});
    var c := a.captures[id];
    if c.media.Some? {
      var m := c.media.value;
      if !IndependentHolding(released, m) {
        EraseOutcome(released, m, raws);
        EraseCounts(released, m, raws);
      }
    }
  }

  lemma RemovalOutcome(a: Archive, aggregate: Aggregate)
    requires Sound(a)
    ensures a.nextEvent !in a.outbox && a.nextEvent in RemovalAppended(a, aggregate).outbox
    ensures RemovalAppended(a, aggregate) ==
            a.(outbox := RemovalAppended(a, aggregate).outbox, nextEvent := RemovalAppended(a, aggregate).nextEvent)
  {
  }

  lemma EraseCounts(a: Archive, m: MediaId, raws: seq<RawId>)
    requires m in a.media && EraseMedia(a, m, raws).Ok?
    ensures
      var d, blob := EraseMedia(a, m, raws).value, a.media[m].blob;
      && d.pending == |a.raws| - |d.archive.raws| + (if blob.Some? then 1 else 0)
      && (blob.Some? ==> (blob.value.ref, blob.value.hash) in d.archive.tasks)
  {
    hide DropRaws;
    DropRawsScheduled(WithoutMedia(a, m).archive, raws);
  }

  // ---------------------------------------------------------------- connections

  predicate Names(revisions: map<RevisionId, Revision>, m: MediaId, raw: RawId) {
    exists r :: r in revisions && revisions[r] == Revision(m, raw)
  }

  /** The connection's media as the queries list them: each once, with the raw records of its revisions. */
  ghost predicate Listed(a: Archive, rows: seq<(MediaId, seq<RawId>)>) {
    && (forall i, j :: 0 <= i < j < |rows| ==> rows[i].0 != rows[j].0)
    && (forall i :: 0 <= i < |rows| ==> rows[i].0 in a.media)
    && (forall i, w :: 0 <= i < |rows| ==> (w in rows[i].1 <==> Names(a.revisions, rows[i].0, w)))
  }

  /** A listed media that no capture holds. */
  predicate Exclusive(a: Archive, rows: seq<(MediaId, seq<RawId>)>, m: MediaId) {
    !CaptureHolds(a.captures, m) && exists i :: 0 <= i < |rows| && rows[i].0 == m
  }

  /** An account's rows name the raw record, and only revisions of exclusive media do. */
  ghost predicate Doomed(a: Archive, rows: seq<(MediaId, seq<RawId>)>, raw: RawId) {
    && raw in a.raws && AccountNames(a.accountRaws, raw) && RawUsed(a.revisions, raw)
    && (forall r :: r in a.revisions && a.revisions[r].raw == raw ==> Exclusive(a, rows, a.revisions[r].media))
  }

  /** Where the loop over the connection's media stands after `rows`. */
  ghost predicate Reached(a: Archive, b: Archive, rows: seq<(MediaId, seq<RawId>)>) {
    && b.captures == a.captures && b.accountRaws == a.accountRaws
    && (forall m :: m in b.media <==> m in a.media && !Exclusive(a, rows, m))
    && (forall r :: r in b.revisions <==> r in a.revisions && !Exclusive(a, rows, a.revisions[r].media))
    && (forall r :: r in b.revisions ==> b.revisions[r] == a.revisions[r])
    && (forall w :: w in b.raws ==> w in a.raws)
    && (forall w :: w in a.raws && RawUsed(b.revisions, w) ==> w in b.raws)
    && (forall w :: w in a.raws && AccountNames(a.accountRaws, w) ==> w in b.raws)
  }

  lemma ExclusiveExtends(a: Archive, rows: seq<(MediaId, seq<RawId>)>, m: MediaId)
    requires rows != []
    ensures Exclusive(a, rows, m) <==>
              Exclusive(a, rows[..|rows| - 1], m) || (m == rows[|rows| - 1].0 && !CaptureHolds(a.captures, m))
  {
    hide CaptureHolds;
    var front := rows[..|rows| - 1];
    if Exclusive(a, front, m) {
      var i :| 0 <= i < |front| && front[i].0 == m;
      assert rows[i].0 == m;
    }
    if Exclusive(a, rows, m) && m != rows[|rows| - 1].0 {
      var i :| 0 <= i < |rows| && rows[i].0 == m;
      assert front[i].0 == m;
    }
  }

  lemma NotYetReleased(a: Archive, rows: seq<(MediaId, seq<RawId>)>)
    requires rows != [] && Listed(a, rows)
    ensures !Exclusive(a, rows[..|rows| - 1], rows[|rows| - 1].0)
    ensures Listed(a, rows[..|rows| - 1])
  {
    var front := rows[..|rows| - 1];
    assert forall i :: 0 <= i < |front| ==> front[i] == rows[i];
  }

  /** Blocked when its turn comes exactly if doomed by this row and not by an earlier one. */
  lemma BlockedIsDoomed(a: Archive, b: Archive, rows: seq<(MediaId, seq<RawId>)>, raw: RawId)
    requires rows != [] && Listed(a, rows) && Reached(a, b, rows[..|rows| - 1])
    requires !CaptureHolds(a.captures, rows[|rows| - 1].0)
    ensures raw in rows[|rows| - 1].1 && Blocked(WithoutRows(b, rows[|rows| - 1].0), raw) ==> Doomed(a, rows, raw)
    ensures Doomed(a, rows, raw) && RawUsed(b.revisions, raw) ==>
              raw in rows[|rows| - 1].1 && Blocked(WithoutRows(b, rows[|rows| - 1].0), raw)
  {
    var m, left := rows[|rows| - 1].0, WithoutRows(b, rows[|rows| - 1].0);
    hide CaptureHolds, AccountNames, Exclusive, Listed;
    forall r | r in a.revisions
      ensures r in left.revisions <==> !Exclusive(a, rows, a.revisions[r].media)
      ensures r in left.revisions ==> left.revisions[r] == a.revisions[r]
    {
      ExclusiveExtends(a, rows, a.revisions[r].media);
    }
    assert raw in rows[|rows| - 1].1 <==> Names(a.revisions, m, raw) by { ListedRow(a, rows, raw); }
    if Doomed(a, rows, raw) && RawUsed(b.revisions, raw) {
      var r :| r in b.revisions && b.revisions[r].raw == raw;
      ExclusiveExtends(a, rows, a.revisions[r].media);
      assert a.revisions[r] == Revision(m, raw);
    }
  }

  lemma ListedRow(a: Archive, rows: seq<(MediaId, seq<RawId>)>, raw: RawId)
    requires rows != [] && Listed(a, rows)
    ensures raw in rows[|rows| - 1].1 <==> Names(a.revisions, rows[|rows| - 1].0, raw)
  {
  }

  lemma ReachedStep(a: Archive, before: Deleted, rows: seq<(MediaId, seq<RawId>)>)
    requires rows != [] && Listed(a, rows) && Reached(a, before.archive, rows[..|rows| - 1])
    requires ReleaseMedia(before, rows[|rows| - 1].0, rows[|rows| - 1].1).Ok?
    ensures Reached(a, ReleaseMedia(before, rows[|rows| - 1].0, rows[|rows| - 1].1).value.archive, rows)
  {
    NotYetReleased(a, rows);
    LastIsStored(a, rows);
    ReleaseOutcome(before, rows[|rows| - 1].0, rows[|rows| - 1].1);
    hide ReleaseMedia, CaptureHolds, AccountNames, Exclusive, Listed, RawUsed;
    ReachedNext(a, before.archive, ReleaseMedia(before, rows[|rows| - 1].0, rows[|rows| - 1].1).value.archive, rows);
  }

  lemma ReachedNext(a: Archive, b: Archive, out: Archive, rows: seq<(MediaId, seq<RawId>)>)
    requires rows != [] && Reached(a, b, rows[..|rows| - 1])
    requires out.captures == b.captures && out.accountRaws == b.accountRaws
    requires out.media.Keys == (if CaptureHolds(b.captures, rows[|rows| - 1].0) then b.media.Keys
                                else b.media.Keys - {rows[|rows| - 1].0})
    requires out.revisions == (if CaptureHolds(b.captures, rows[|rows| - 1].0) then b.revisions
                               else WithoutRows(b, rows[|rows| - 1].0).revisions)
    requires forall w :: w in out.raws ==> w in b.raws
    requires forall w :: w in b.raws && RawUsed(out.revisions, w) ==> w in out.raws
    requires forall w :: w in b.raws && AccountNames(b.accountRaws, w) ==> w in out.raws
    ensures Reached(a, out, rows)
  {
    hide CaptureHolds, AccountNames, Exclusive, RawUsed;
    forall x ensures Exclusive(a, rows, x) <==>
        Exclusive(a, rows[..|rows| - 1], x) || (x == rows[|rows| - 1].0 && !CaptureHolds(a.captures, x))
    {
      ExclusiveExtends(a, rows, x);
    }
    assert forall x :: x in out.media <==> x in out.media.Keys;
    UsedMore(b.revisions, out.revisions);
  }

  lemma LastIsStored(a: Archive, rows: seq<(MediaId, seq<RawId>)>)
    requires rows != [] && Listed(a, rows)
    ensures rows[|rows| - 1].0 in a.media
  {
  }

  lemma UsedMore(more: map<RevisionId, Revision>, less: map<RevisionId, Revision>)
    requires forall r :: r in less ==> r in more && more[r] == less[r]
    ensures forall w :: RawUsed(less, w) ==> RawUsed(more, w)
  {
  }

  lemma DoomedExtends(a: Archive, rows: seq<(MediaId, seq<RawId>)>, raw: RawId)
    requires rows != []
    ensures Doomed(a, rows[..|rows| - 1], raw) ==> Doomed(a, rows, raw)
    ensures Doomed(a, rows, raw) && CaptureHolds(a.captures, rows[|rows| - 1].0) ==> Doomed(a, rows[..|rows| - 1], raw)
  {
    hide CaptureHolds, Exclusive, AccountNames, RawUsed;
    forall m ensures Exclusive(a, rows, m) <==>
        Exclusive(a, rows[..|rows| - 1], m) || (m == rows[|rows| - 1].0 && !CaptureHolds(a.captures, m))
    {
      ExclusiveExtends(a, rows, m);
    }
  }

  lemma DoomedLater(a: Archive, b: Archive, rows: seq<(MediaId, seq<RawId>)>, front: seq<(MediaId, seq<RawId>)>,
                    raw: RawId)
    requires Reached(a, b, front) && Doomed(a, rows, raw) && !Doomed(a, front, raw)
    ensures RawUsed(b.revisions, raw)
  {
    hide CaptureHolds, Exclusive, AccountNames;
    var r :| r in a.revisions && a.revisions[r].raw == raw && !Exclusive(a, front, a.revisions[r].media);
    assert r in b.revisions && b.revisions[r].raw == raw;
  }

  /**
   The loop over a connection's media fails exactly when some raw record that an account's rows name is
   named by revisions of exclusive media only: the staged items of the connection are deleted later.
   */
  lemma {:induction false} ReleaseRefusedIff(a: Archive, rows: seq<(MediaId, seq<RawId>)>)
    requires Listed(a, rows)
    ensures ReleaseAll(a, rows).Err? <==> exists raw :: Doomed(a, rows, raw)
    ensures ReleaseAll(a, rows).Ok? ==> Reached(a, ReleaseAll(a, rows).value.archive, rows)
  {
    if rows == [] {
      assert forall m :: !Exclusive(a, rows, m);
      assert forall raw :: !Doomed(a, rows, raw);
    } else {
      var front, m, raws := rows[..|rows| - 1], rows[|rows| - 1].0, rows[|rows| - 1].1;
      NotYetReleased(a, rows);
      ReleaseRefusedIff(a, front);
      hide Doomed, Reached, Listed, ReleaseMedia, Blocked, Exclusive, CaptureHolds;
      if ReleaseAll(a, front).Err? {
        var raw :| Doomed(a, front, raw);
        DoomedExtends(a, rows, raw);
      } else {
        var before := ReleaseAll(a, front).value;
        LastReleases(a, before, rows, front);
        if ReleaseAll(a, rows).Ok? { ReachedStep(a, before, rows); }
      }
    }
  }

  /** Another account's rows name the raw record, and only revisions of exclusive media do. */
  ghost predicate Shared(a: Archive, account: AccountId, rows: seq<(MediaId, seq<RawId>)>, raw: RawId) {
    && raw in a.raws && (exists p :: p in a.accountRaws && p.0 != account && p.1 == raw)
    && (forall r :: r in a.revisions && a.revisions[r].raw == raw ==> Exclusive(a, rows, a.revisions[r].media))
  }

  lemma BlockedIsShared(a: Archive, b: Archive, account: AccountId, rows: seq<(MediaId, seq<RawId>)>, raw: RawId)
    requires Reached(a, b, rows)
    ensures Blocked(Unnamed(b, account), raw) <==> Shared(a, account, rows, raw)
  {
    hide Exclusive, CaptureHolds;
    assert AccountNames(Unnamed(b, account).accountRaws, raw) <==>
           exists p :: p in a.accountRaws && p.0 != account && p.1 == raw;
    if Shared(a, account, rows, raw) {
      assert AccountNames(a.accountRaws, raw);
    }
    if r :| r in a.revisions && a.revisions[r].raw == raw && !Exclusive(a, rows, a.revisions[r].media) {
      assert r in b.revisions && b.revisions[r].raw == raw;
    }
  }

  /**
   The whole deletion of a connection fails exactly when a foreign key stops one of its two loops: some raw
   record that any account's rows name is named by revisions of exclusive media only, or a raw record of
   the connection's own rows is also named by another account's rows and by no other revision.
   */
  lemma ConnectionRefusedIff(a: Archive, account: AccountId, rows: seq<(MediaId, seq<RawId>)>, named: seq<RawId>)
    requires Listed(a, rows)
    ensures DeleteConnection(a, account, rows, named).Err? <==>
              || (exists raw :: Doomed(a, rows, raw))
              || (exists i :: 0 <= i < |named| && Shared(a, account, rows, named[i]))
    ensures DeleteConnection(a, account, rows, named).Err? ==>
            DeleteConnection(a, account, rows, named) == Err(ForeignKey)
  {
    hide Doomed, Reached, Listed, Blocked, Shared, DropRaws, ReleaseAll;
    ReleaseRefusedIff(a, rows);
    ReleaseErrors(a, rows);
    if ReleaseAll(a, rows).Ok? {
      var b := ReleaseAll(a, rows).value.archive;
      DropRawsRefused(Unnamed(b, account), named);
      DropErrors(Unnamed(b, account), named);
      forall i | 0 <= i < |named| ensures Blocked(Unnamed(b, account), named[i]) <==>
        Shared(a, account, rows, named[i]) {
        BlockedIsShared(a, b, account, rows, named[i]);
      }
    }
  }

  lemma {:induction false} DropErrors(a: Archive, raws: seq<RawId>)
    ensures DropRaws(a, raws).Err? ==> DropRaws(a, raws) == Err(ForeignKey)
  {
    if raws == [] {
    } else {
      DropErrors(a, raws[..|raws| - 1]);
    }
  }

  lemma {:induction false} ReleaseErrors(a: Archive, rows: seq<(MediaId, seq<RawId>)>)
    ensures ReleaseAll(a, rows).Err? ==> ReleaseAll(a, rows) == Err(ForeignKey)
  {
    if rows == [] {
    } else {
      ReleaseErrors(a, rows[..|rows| - 1]);
      if ReleaseAll(a, rows[..|rows| - 1]).Ok? {
        var b, m := ReleaseAll(a, rows[..|rows| - 1]).value.archive, rows[|rows| - 1].0;
        if m in b.media { DropErrors(WithoutMedia(RemovalAppended(b, OfMedia(m)), m).archive, rows[|rows| - 1].1); }
      }
    }
  }

  /** One synced media: its page's raw record is named by its revision and by a staged item of the account. */
  function SyncedArchive(account: AccountId, blob: Blob): Archive {
    Archive(map[], map[0 := Media(Some(account), false, None)], map[0 := Revision(0, 0)], map[0 := blob],
      {(account, 0)},
            map[], map[], 0, map[])
  }

  /** The simplest synchronised connection cannot be deleted. */
  lemma SyncedConnectionRefused(account: AccountId, blob: Blob)
    ensures
      var a, rows := SyncedArchive(account, blob), [(0, [0])];
      Sound(a) && Listed(a, rows) && DeleteConnection(a, account, rows, [0]) == Err(ForeignKey)
  {
    var a, rows := SyncedArchive(account, blob), [(0, [0])];
    assert Names(a.revisions, 0, 0) by { assert a.revisions[0] == Revision(0, 0); }
    assert Listed(a, rows);
    assert Doomed(a, rows, 0) by {
      assert (account, 0) in a.accountRaws;
      assert a.revisions[0].raw == 0;
      assert rows[0].0 == 0;
    }
    hide DeleteConnection;
    ConnectionRefusedIff(a, account, rows, [0]);
  }

  lemma LastReleases(a: Archive, before: Deleted, rows: seq<(MediaId, seq<RawId>)>, front: seq<(MediaId, seq<RawId>)>)
    requires rows != [] && Listed(a, rows) && front == rows[..|rows| - 1] && Reached(a, before.archive, front)
    requires forall raw :: !Doomed(a, front, raw)
    ensures ReleaseMedia(before, rows[|rows| - 1].0, rows[|rows| - 1].1).Err? <==> exists raw :: Doomed(a, rows, raw)
  {
    var m, raws := rows[|rows| - 1].0, rows[|rows| - 1].1;
    NotYetReleased(a, rows);
    LastIsStored(a, rows);
    assert m in before.archive.media && before.archive.captures == a.captures;
    ReleaseOutcome(before, m, raws);
    hide Doomed, Reached, Listed, ReleaseMedia, Blocked, Exclusive, CaptureHolds, RawUsed;
    if ReleaseMedia(before, m, raws).Err? {
      var i :| 0 <= i < |raws| && Blocked(WithoutRows(before.archive, m), raws[i]);
      BlockedIsDoomed(a, before.archive, rows, raws[i]);
    }
    if raw :| Doomed(a, rows, raw) {
      DoomedExtends(a, rows, raw);
      DoomedLater(a, before.archive, rows, front, raw);
      BlockedIsDoomed(a, before.archive, rows, raw);
      var i :| 0 <= i < |raws| && raws[i] == raw;
    }
  }
}
