/**
 The deletion transactions and the blob worker as updates of tables, row by row.
 */
module PrivacyStore {
  import opened Prelude
  import opened Deletion
  import opened DeletionHistory

  datatype TaskOutcome = Complete | Pending(failure: Failure)

  class Store {
    var captures: map<CaptureId, Capture>
    var media: map<MediaId, Media>
    var revisions: map<RevisionId, Revision>
    var raws: map<RawId, Blob>
    var accountRaws: set<(AccountId, RawId)>
    var snapshots: map<SnapshotId, Blob>
    var outbox: map<EventId, Fact>
    var nextEvent: EventId
    var tasks: map<TaskKey, Task>
    var objects: Objects

    ghost function View(): Archive
      reads this
    {
      Archive(captures, media, revisions, raws, accountRaws, snapshots, outbox, nextEvent, tasks)
    }

    /** Puts the tables back as they were when the transaction began. */
    method Rollback(a: Archive)
      modifies this
      ensures View() == a && objects == old(objects)
    {
      captures, media, revisions, raws, accountRaws := a.captures, a.media, a.revisions, a.raws, a.accountRaws;
      snapshots, outbox, nextEvent, tasks := a.snapshots, a.outbox, a.nextEvent, a.tasks;
    }

    method ScheduleBlobTask(blob: Blob)
      modifies this`tasks
      ensures View() == Scheduled(old(View()), blob)
    {
      if (blob.ref, blob.hash) !in tasks {
        tasks := tasks[(blob.ref, blob.hash) := Task(blob, true, 0, None)];
      }
    }

    method DropRawRows(list: seq<RawId>) returns (pending: nat, ok: bool)
      modifies this`raws, this`tasks
      ensures ok ==> DropRaws(old(View()), list) == Ok(Deleted(View(), pending))
      ensures !ok ==> DropRaws(old(View()), list) == Err(ForeignKey)
    {
      pending := 0;
      var k := 0;
      assert list[..0] == [];
      while k < |list|
        invariant 0 <= k <= |list|
        invariant DropRaws(old(View()), list[..k]) == Ok(Deleted(View(), pending))
      {
        var raw := list[k];
        assert list[..k + 1][..k] == list[..k];
        ghost var before := Deleted(View(), pending);
        hide RawUsed, AccountNames;
        if raw in raws && !RawUsed(revisions, raw) {
          if AccountNames(accountRaws, raw) {
            FailureSpreads(old(View()), list, k + 1);
            return pending, false;
          }
          var blob := raws[raw];
          raws := raws - {raw};
          ScheduleBlobTask(blob);
          pending := pending + 1;
        }
        k := k + 1;
      }
      assert list[..k] == list;
      return pending, true;
    }

    method EraseMediaRows(m: MediaId, list: seq<RawId>) returns (pending: nat, ok: bool)
      requires m in media
      modifies this`media, this`revisions, this`raws, this`tasks
      ensures ok ==> EraseMedia(old(View()), m, list) == Ok(Deleted(View(), pending))
      ensures !ok ==> EraseMedia(old(View()), m, list) == Err(ForeignKey)
    {
      hide DropRaws;
      var blob := media[m].blob;
      revisions := map r | r in revisions && revisions[r].media != m :: revisions[r];
      media := media - {m};
      assert View() == WithoutRows(old(View()), m);
      var first := 0;
      if blob.Some? {
        ScheduleBlobTask(blob.value);
        first := 1;
      }
      assert Deleted(View(), first) == WithoutMedia(old(View()), m);
      pending, ok := DropRawRows(list);
      pending := pending + first;
    }

    method AppendRemoval(aggregate: Aggregate)
      modifies this`outbox, this`nextEvent
      ensures View() == RemovalAppended(old(View()), aggregate)
    {
      outbox := outbox[nextEvent := Fact(aggregate, true, false)];
      nextEvent := nextEvent + 1;
      outbox := map e | e in outbox && !(outbox[e].aggregate == aggregate
        && !(outbox[e].removal && !outbox[e].acknowledged))
                    :: outbox[e];
    }

    method ApplyCaptureDeletion(id: CaptureId, list: seq<RawId>) returns (r: Result<nat, Refusal>)
      modifies this
      ensures objects == old(objects)
      ensures match DeleteCapture(old(View()), id, list)
              case Err(e) => r == Err(e) && View() == old(View())
              case Ok(d) => r == Ok(d.pending) && View() == d.archive
    {
      hide EraseMedia, RemovalAppended, OwnerHoldsSource, IndependentHolding;
      if id !in captures { return Err(NotFound); }
      var begun := Archive(captures, media, revisions, raws, accountRaws, snapshots, outbox, nextEvent, tasks);
      var c := captures[id];
      if !OwnerHoldsSource(begun, id) { AppendRemoval(OfCapture(id)); }
      captures := captures - {id};
      if c.media.None? { return Ok(0); }
      var m := c.media.value;
      var released := Archive(captures, media, revisions, raws, accountRaws, snapshots, outbox, nextEvent, tasks);
      if IndependentHolding(released, m) || m !in media { return Ok(0); }
      var pending, ok := EraseMediaRows(m, list);
      if !ok {
        Rollback(begun);
        return Err(ForeignKey);
      }
      return Ok(pending);
    }

    method ReleaseRow(m: MediaId, list: seq<RawId>) returns (pending: nat, ok: bool)
      modifies this`media, this`revisions, this`raws, this`tasks, this`outbox, this`nextEvent
      ensures ok ==> forall p: nat :: ReleaseMedia(Deleted(old(View()), p), m, list) == Ok(Deleted(View(), p + pending))
      ensures !ok ==> forall p: nat :: ReleaseMedia(Deleted(old(View()), p), m, list) == Err(ForeignKey)
    {
      hide EraseMedia, RemovalAppended;
      if m !in media { return 0, true; }
      if CaptureHolds(captures, m) {
        media := media[m := media[m].(account := None)];
        return 0, true;
      }
      AppendRemoval(OfMedia(m));
      assert media == old(media) by { RemovalKeepsMedia(old(View()), OfMedia(m)); }
      pending, ok := EraseMediaRows(m, list);
    }

    method ApplyConnectionDeletion(account: AccountId, rows: seq<(MediaId, seq<RawId>)>, named: seq<RawId>)
      returns (r: Result<nat, Refusal>)
      modifies this
      ensures objects == old(objects)
      ensures match DeleteConnection(old(View()), account, rows, named)
              case Err(e) => r == Err(e) && View() == old(View())
              case Ok(d) => r == Ok(d.pending) && View() == d.archive
    {
      hide ReleaseMedia, DropRaws;
      var begun := Archive(captures, media, revisions, raws, accountRaws, snapshots, outbox, nextEvent, tasks);
      var pending, k := 0, 0;
      assert rows[..0] == [];
      while k < |rows|
        invariant 0 <= k <= |rows| && objects == old(objects) && begun == old(View())
        invariant ReleaseAll(old(View()), rows[..k]) == Ok(Deleted(View(), pending))
      {
        assert rows[..k + 1][..k] == rows[..k];
        var more, ok := ReleaseRow(rows[k].0, rows[k].1);
        if !ok {
          ReleaseFailureSpreads(old(View()), rows, k + 1);
          Rollback(begun);
          return Err(ForeignKey);
        }
        pending := pending + more;
        k := k + 1;
      }
      assert rows[..k] == rows;
      accountRaws := set p | p in accountRaws && p.0 != account;
      var more, ok := DropRawRows(named);
      if !ok {
        Rollback(begun);
        return Err(ForeignKey);
      }
      return Ok(pending + more);
    }

    /**
     One undisturbed attempt at a task: the reference count, the removal and the bookkeeping.  It completes
     exactly when the task was complete before, or no row names the object and the store removes or lacks it.
     */
    method ProcessTask(key: TaskKey, storage: Storage) returns (r: TaskOutcome)
      requires key in tasks
      modifies this`tasks, this`objects
      ensures
        var w, task := World(old(View()), old(objects), {}, {}), old(tasks[key]);
        var named := old(Live(View(), tasks[key].blob));
        var failure := DeleteIfMatches(old(objects), task.blob, storage).1;
        && (r.Complete? <==> !task.pending || (!named && failure.None?))
        && (r.Pending? ==> r.failure == if named then StillReferenced else failure.value)
        && World(View(), objects, {}, {}) ==
           if !task.pending then w
           else if named then w.(archive := WithTask(w.archive, key, FailedTask(task, StillReferenced)))
           else Removed(w, key, storage)
      ensures old(AllStored(World(View(), objects, {}, {}))) ==> AllStored(World(View(), objects, {}, {}))
      ensures r.Complete? && old(tasks[key].pending) ==>
                !Live(View(), tasks[key].blob) && tasks[key].blob.ref !in objects
    {
      hide Live, MediaBlob;
      var task := tasks[key];
      if !task.pending { return Complete; }
      ghost var before := World(View(), objects, {}, {});
      var live := CountReferences(task.blob);
      if live > 0 {
        tasks := tasks[key := FailedTask(task, StillReferenced)];
        forall blob ensures Live(View(), blob) == Live(before.archive, blob) { SameLive(before.archive, View(), blob); }
        return Pending(StillReferenced);
      }
      if AllStored(before) { RemovalSafeIff(before, key, storage); }
      var (left, failure) := DeleteIfMatches(objects, task.blob, storage);
      objects := left;
      tasks := tasks[key := if failure.Some? then FailedTask(task, failure.value) else CompleteTask(task)];
      assert World(View(), objects, {}, {}) == Removed(before, key, storage);
      SameLive(before.archive, View(), task.blob);
      return if failure.Some? then Pending(failure.value) else Complete;
    }

    /** The three counts of rows that name the object. */
    method CountReferences(blob: Blob) returns (n: nat)
      ensures n > 0 <==> Live(View(), blob)
    {
      var inMedia := set m | m in media && media[m].blob == Some(blob);
      var inRaws := set w | w in raws && raws[w] == blob;
      var inSnapshots := set s | s in snapshots && snapshots[s] == blob;
      n := |inMedia| + |inRaws| + |inSnapshots|;
      if m :| m in media && media[m].blob == Some(blob) { assert m in inMedia; }
      if w :| w in raws && raws[w] == blob { assert w in inRaws; }
      if s :| s in snapshots && snapshots[s] == blob { assert s in inSnapshots; }
      if n > 0 {
        assert inMedia != {} || inRaws != {} || inSnapshots != {};
      }
    }
  }

  lemma {:induction false} FailureSpreads(a: Archive, list: seq<RawId>, k: nat)
    requires k <= |list| && DropRaws(a, list[..k]).Err?
    ensures DropRaws(a, list) == DropRaws(a, list[..k])
    decreases |list|
  {
    if k == |list| {
      assert list[..k] == list;
    } else {
      assert list[..|list| - 1][..k] == list[..k];
      FailureSpreads(a, list[..|list| - 1], k);
    }
  }

  lemma {:induction false} ReleaseFailureSpreads(a: Archive, rows: seq<(MediaId, seq<RawId>)>, k: nat)
    requires k <= |rows| && ReleaseAll(a, rows[..k]).Err?
    ensures ReleaseAll(a, rows) == ReleaseAll(a, rows[..k])
    decreases |rows|
  {
    if k == |rows| {
      assert rows[..k] == rows;
    } else {
      assert rows[..|rows| - 1][..k] == rows[..k];
      ReleaseFailureSpreads(a, rows[..|rows| - 1], k);
    }
  }

  lemma RemovalKeepsMedia(a: Archive, aggregate: Aggregate)
    ensures RemovalAppended(a, aggregate).media == a.media
  {
  }
}
