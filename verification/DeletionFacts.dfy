/**
 Which outbox facts and media rows a deletion leaves: exactly the unacknowledged removals of what was
 deleted, one new removal each, and everything of everyone else.
 */
module DeletionFacts {
  import opened Prelude
  import opened Deletion

  // ---------------------------------------------------------------- one removal

  /**
   The outbox after the removal of one aggregate: its facts are its earlier unacknowledged removals and the
   new one, and the facts of every other aggregate are unchanged.
   */
  predicate Removed(before: map<EventId, Fact>, after: map<EventId, Fact>, aggregate: Aggregate, event: EventId) {
    && (forall e :: e in after ==> e == event || e in before)
    && event in after && after[event] == Fact(aggregate, true, false)
    && (forall e :: e in before && e != event ==>
          && (e in after <==> before[e].aggregate != aggregate || (before[e].removal && !before[e].acknowledged))
          && (e in after ==> after[e] == before[e]))
  }

  lemma RemovalStores(a: Archive, aggregate: Aggregate)
    ensures
      var out := RemovalAppended(a, aggregate);
      && Removed(a.outbox, out.outbox, aggregate, a.nextEvent) && out.nextEvent == a.nextEvent + 1
      && out == a.(outbox := out.outbox, nextEvent := out.nextEvent)
  {
  }

  /** A task is stored once per reference and digest, pending, for the whole blob; an earlier one stays as it is. */
  lemma TaskIsStored(a: Archive, blob: Blob)
    ensures
      var key := (blob.ref, blob.hash);
      Scheduled(a, blob) == if key in a.tasks then a else a.(tasks := a.tasks[key := Task(blob, true, 0, None)])
  {
  }

  // ---------------------------------------------------------------- a deleted capture

  /** Another capture of the same owner is of the same source. */
  predicate HeldByOwner(a: Archive, id: CaptureId)
    requires id in a.captures
  {
    exists o :: o in a.captures && o != id && a.captures[o].user == a.captures[id].user
                && (a.captures[id].media.Some? ==> a.captures[o].media == a.captures[id].media)
                && (a.captures[id].media.None? ==> a.captures[o].url == a.captures[id].url)
  }

  lemma ErasureKeepsOutbox(a: Archive, m: MediaId, raws: seq<RawId>)
    requires m in a.media && EraseMedia(a, m, raws).Ok?
    ensures
      var b := EraseMedia(a, m, raws).value.archive;
      b.outbox == a.outbox && b.nextEvent == a.nextEvent && b.media == a.media - {m} && b.captures == a.captures
      && b.snapshots == a.snapshots
  {
    hide DropRaws;
    DropRawsRefused(WithoutMedia(a, m).archive, raws);
  }

  /**
   A deleted capture leaves no other fact behind: if the owner holds the source in no other capture, the
   outbox keeps of its facts exactly the unacknowledged removals and one new removal; otherwise the
   outbox is unchanged.
   */
  lemma CaptureFactsAreGone(a: Archive, id: CaptureId, raws: seq<RawId>)
    requires DeleteCapture(a, id, raws).Ok?
    ensures
      var out := DeleteCapture(a, id, raws).value.archive;
      && id in a.captures && out.captures == a.captures - {id}
      && if HeldByOwner(a, id) then out.outbox == a.outbox
         else Removed(a.outbox, out.outbox, OfCapture(id), a.nextEvent)
  {
    hide EraseMedia, RemovalAppended, Removed, IndependentHolding;
    RemovalStores(a, OfCapture(id));
    var c := a.captures[id];
    assert OwnerHoldsSource(a, id) <==> HeldByOwner(a, id) by {
      if o :| o in a.captures && o != id && a.captures[o].user == c.user
              && (if c.media.Some? then a.captures[o].media == c.media else a.captures[o].url == c.url)
      {
        assert HeldByOwner(a, id);
      }
    }
    var marked := if OwnerHoldsSource(a, id) then a else RemovalAppended(a, OfCapture(id));
    var released := marked.(captures := a.captures - {id});
    if c.media.Some? && !IndependentHolding(released, c.media.value) && c.media.value in released.media {
      ErasureKeepsOutbox(released, c.media.value, raws);
    }
  }

  // ---------------------------------------------------------------- a deleted connection

  /** The facts that a deleted connection leaves of what was stored before. */
  ghost predicate OldFacts(a: Archive, b: Archive, rows: seq<(MediaId, seq<RawId>)>) {
    forall e :: e in a.outbox ==>
      var f := a.outbox[e];
      && (e in b.outbox <==>
            !(f.aggregate.OfMedia? && Exclusive(a, rows, f.aggregate.media)) || (f.removal && !f.acknowledged))
      && (e in b.outbox ==> b.outbox[e] == f)
  }

  /** Its new facts: one unacknowledged removal for each exclusive media. */
  ghost predicate NewFacts(a: Archive, b: Archive, rows: seq<(MediaId, seq<RawId>)>) {
    && a.nextEvent <= b.nextEvent && (forall e :: e in b.outbox ==> e < b.nextEvent)
    && (forall e :: e in b.outbox && e !in a.outbox ==>
          && b.outbox[e].removal && !b.outbox[e].acknowledged && b.outbox[e].aggregate.OfMedia?
          && Exclusive(a, rows, b.outbox[e].aggregate.media))
    && (forall e, f ::
          (&& e in b.outbox && f in b.outbox && e !in a.outbox && f !in a.outbox
           && b.outbox[e].aggregate == b.outbox[f].aggregate) ==>
          e == f)
    && (forall m :: Exclusive(a, rows, m) ==> AnnouncedIn(a, b, m))
  }

  ghost predicate AnnouncedIn(a: Archive, b: Archive, m: MediaId) {
    exists e :: e in b.outbox && e !in a.outbox && b.outbox[e] == Fact(OfMedia(m), true, false)
  }

  /** The media rows it leaves: listed ones that a capture holds lose their account, the others go. */
  ghost predicate MediaReleased(a: Archive, b: Archive, rows: seq<(MediaId, seq<RawId>)>) {
    && (forall m :: m in b.media <==> m in a.media && !Exclusive(a, rows, m))
    && (forall m :: m in b.media && m in a.media ==>
          b.media[m] == if InRows(rows, m) then a.media[m].(account := None) else a.media[m])
  }

  predicate InRows(rows: seq<(MediaId, seq<RawId>)>, m: MediaId) {
    exists i :: 0 <= i < |rows| && rows[i].0 == m
  }

  lemma InRowsExtends(rows: seq<(MediaId, seq<RawId>)>, m: MediaId)
    requires rows != []
    ensures InRows(rows, m) <==> InRows(rows[..|rows| - 1], m) || m == rows[|rows| - 1].0
  {
    var front := rows[..|rows| - 1];
    if i :| 0 <= i < |rows| && rows[i].0 == m {
      if i < |front| { assert front[i].0 == m; }
    }
    if i :| 0 <= i < |front| && front[i].0 == m { assert rows[i].0 == m; }
    if m == rows[|rows| - 1].0 { assert rows[|rows| - 1].0 == m; }
  }

  /** What one turn of the loop does to media and outbox. */
  lemma TurnStores(before: Deleted, m: MediaId, raws: seq<RawId>)
    requires m in before.archive.media && ReleaseMedia(before, m, raws).Ok?
    ensures
      var a, b := before.archive, ReleaseMedia(before, m, raws).value.archive;
      && b.captures == a.captures
      && if CaptureHolds(a.captures, m)
         then b == a.(media := a.media[m := a.media[m].(account := None)])
         else && b.media == a.media - {m} && b.nextEvent == a.nextEvent + 1
              && Removed(a.outbox, b.outbox, OfMedia(m), a.nextEvent)
  {
    hide EraseMedia, Removed, RemovalAppended, CaptureHolds;
    var a := before.archive;
    RemovalStores(a, OfMedia(m));
    if !CaptureHolds(a.captures, m) { ErasureKeepsOutbox(RemovalAppended(a, OfMedia(m)), m, raws); }
  }

  lemma MediaTurn(a: Archive, b: Archive, out: Archive, rows: seq<(MediaId, seq<RawId>)>)
    requires rows != [] && b.captures == a.captures && rows[|rows| - 1].0 in a.media
    requires MediaReleased(a, b, rows[..|rows| - 1]) && !InRows(rows[..|rows| - 1], rows[|rows| - 1].0)
    requires
      var m := rows[|rows| - 1].0;
      && m in b.media
      && out.media == if CaptureHolds(a.captures, m) then b.media[m := b.media[m].(account := None)] else b.media - {m}
    ensures MediaReleased(a, out, rows)
  {
    hide CaptureHolds, Exclusive, InRows;
    forall x ensures Exclusive(a, rows, x) <==>
        Exclusive(a, rows[..|rows| - 1], x) || (x == rows[|rows| - 1].0 && !CaptureHolds(a.captures, x))
    {
      ExclusiveExtends(a, rows, x);
    }
    forall x ensures InRows(rows, x) <==> InRows(rows[..|rows| - 1], x) || x == rows[|rows| - 1].0 {
      InRowsExtends(rows, x);
    }
  }

  lemma FactsTurn(a: Archive, b: Archive, out: Archive, rows: seq<(MediaId, seq<RawId>)>)
    requires rows != [] && Sound(a)
    requires
      var front, m := rows[..|rows| - 1], rows[|rows| - 1].0;
      && OldFacts(a, b, front) && NewFacts(a, b, front) && !Exclusive(a, front, m)
      && if CaptureHolds(a.captures, m) then out.outbox == b.outbox && out.nextEvent == b.nextEvent
         else Removed(b.outbox, out.outbox, OfMedia(m), b.nextEvent) && out.nextEvent == b.nextEvent + 1
    ensures OldFacts(a, out, rows) && NewFacts(a, out, rows)
  {
    hide CaptureHolds, Exclusive;
    var front, m := rows[..|rows| - 1], rows[|rows| - 1].0;
    forall x ensures Exclusive(a, rows, x) <==> Exclusive(a, front, x) || (x == m && !CaptureHolds(a.captures, x)) {
      ExclusiveExtends(a, rows, x);
    }
    if !CaptureHolds(a.captures, m) {
      NewFactsTurn(a, b, out, rows);
    }
  }

  lemma NewFactsTurn(a: Archive, b: Archive, out: Archive, rows: seq<(MediaId, seq<RawId>)>)
    requires rows != [] && Sound(a)
    requires
      var front, m := rows[..|rows| - 1], rows[|rows| - 1].0;
      && NewFacts(a, b, front) && !Exclusive(a, front, m) && !CaptureHolds(a.captures, m)
      && Removed(b.outbox, out.outbox, OfMedia(m), b.nextEvent) && out.nextEvent == b.nextEvent + 1
    ensures NewFacts(a, out, rows)
  {
    hide CaptureHolds, Exclusive, Sound;
    var front, m, event := rows[..|rows| - 1], rows[|rows| - 1].0, b.nextEvent;
    assert event !in a.outbox by { EventIsNew(a, event); }
    assert event !in b.outbox;
    forall x ensures Exclusive(a, rows, x) <==> Exclusive(a, front, x) || x == m {
      ExclusiveExtends(a, rows, x);
    }
    forall x | Exclusive(a, rows, x) ensures AnnouncedIn(a, out, x) {
      if x == m {
        assert out.outbox[event] == Fact(OfMedia(m), true, false);
      } else {
        assert AnnouncedIn(a, b, x);
        var e :| e in b.outbox && e !in a.outbox && b.outbox[e] == Fact(OfMedia(x), true, false);
        assert e in out.outbox;
      }
    }
  }

  lemma EventIsNew(a: Archive, event: EventId)
    requires Sound(a) && event >= a.nextEvent
    ensures event !in a.outbox
  {
  }

  lemma {:induction false} ReleaseStores(a: Archive, rows: seq<(MediaId, seq<RawId>)>)
    requires Sound(a) && Listed(a, rows) && ReleaseAll(a, rows).Ok?
    ensures
      var b := ReleaseAll(a, rows).value.archive;
      b.captures == a.captures && MediaReleased(a, b, rows) && OldFacts(a, b, rows) && NewFacts(a, b, rows)
  {
    if rows == [] {
      assert forall m :: !Exclusive(a, rows, m);
    } else {
      hide Sound, Listed, ReleaseMedia, MediaReleased, OldFacts, NewFacts, Exclusive, CaptureHolds, Removed;
      var front, m, raws := rows[..|rows| - 1], rows[|rows| - 1].0, rows[|rows| - 1].1;
      NotYetReleased(a, rows);
      LastIsStored(a, rows);
      LastIsNew(a, rows);
      ReleaseStores(a, front);
      var before := ReleaseAll(a, front).value;
      assert m in before.archive.media by { StillThere(a, before.archive, front, m); }
      TurnStores(before, m, raws);
      var out := ReleaseAll(a, rows).value.archive;
      MediaTurn(a, before.archive, out, rows);
      FactsTurn(a, before.archive, out, rows);
    }
  }

  lemma StillThere(a: Archive, b: Archive, rows: seq<(MediaId, seq<RawId>)>, m: MediaId)
    requires MediaReleased(a, b, rows) && m in a.media && !Exclusive(a, rows, m)
    ensures m in b.media
  {
  }

  lemma LastIsNew(a: Archive, rows: seq<(MediaId, seq<RawId>)>)
    requires rows != [] && Listed(a, rows)
    ensures !InRows(rows[..|rows| - 1], rows[|rows| - 1].0)
  {
  }

  /** How many of the listed media go with an object of their own. */
  function ErasedObjects(a: Archive, rows: seq<(MediaId, seq<RawId>)>): nat {
    if rows == [] then 0
    else
      var m := rows[|rows| - 1].0;
      ErasedObjects(a, rows[..|rows| - 1])
      + if m in a.media && a.media[m].blob.Some? && !CaptureHolds(a.captures, m) then 1 else 0
  }

  lemma {:induction false} ReleaseCounts(a: Archive, rows: seq<(MediaId, seq<RawId>)>)
    requires Sound(a) && Listed(a, rows) && ReleaseAll(a, rows).Ok?
    ensures
      var d := ReleaseAll(a, rows).value;
      d.pending + |d.archive.raws| == |a.raws| + ErasedObjects(a, rows)
  {
    hide Sound, Listed, EraseMedia, CaptureHolds, Exclusive, OldFacts, NewFacts;
    if rows == [] {
    } else {
      var front, m, raws := rows[..|rows| - 1], rows[|rows| - 1].0, rows[|rows| - 1].1;
      NotYetReleased(a, rows);
      LastIsStored(a, rows);
      LastIsNew(a, rows);
      ReleaseCounts(a, front);
      ReleaseStores(a, front);
      var before := ReleaseAll(a, front).value.archive;
      if !CaptureHolds(a.captures, m) {
        var marked := RemovalAppended(before, OfMedia(m));
        RemovalStores(before, OfMedia(m));
        EraseCounts(marked, m, raws);
      }
    }
  }

  /** The pending count of a connection deletion is the number of raw records dropped and of media objects erased. */
  lemma ConnectionPending(a: Archive, account: AccountId, rows: seq<(MediaId, seq<RawId>)>, named: seq<RawId>)
    requires Sound(a) && Listed(a, rows) && DeleteConnection(a, account, rows, named).Ok?
    ensures
      var d := DeleteConnection(a, account, rows, named).value;
      d.pending + |d.archive.raws| == |a.raws| + ErasedObjects(a, rows)
  {
    hide ReleaseAll, DropRaws, Sound, Listed;
    ReleaseCounts(a, rows);
    DropRawsScheduled(Unnamed(ReleaseAll(a, rows).value.archive, account), named);
  }

  /**
   What a deleted connection leaves: its listed media that a capture holds without their account, the others
   gone; of the facts of each media that went exactly the unacknowledged removals and one new removal,
   and every other fact and every capture unchanged.
   */
  lemma ConnectionFactsAreGone(a: Archive, account: AccountId, rows: seq<(MediaId, seq<RawId>)>, named: seq<RawId>)
    requires Sound(a) && Listed(a, rows) && DeleteConnection(a, account, rows, named).Ok?
    ensures
      var b := DeleteConnection(a, account, rows, named).value.archive;
      && b.captures == a.captures && MediaReleased(a, b, rows) && OldFacts(a, b, rows) && NewFacts(a, b, rows)
      && (forall p :: p in b.accountRaws <==> p in a.accountRaws && p.0 != account)
  {
    hide ReleaseAll, DropRaws, Sound, Listed;
    ReleaseStores(a, rows);
    ReleaseRefusedIff(a, rows);
    DropRawsRefused(Unnamed(ReleaseAll(a, rows).value.archive, account), named);
  }
}
