/** What a sync keeps at every point where it can stop. */
module SyncSafety {
  import opened Records
  import opened SecretStore
  import opened SyncService
  import opened DeviceStore
  import opened SyncLaws

  /** No local edit is lost: each row is dirty or on the server at least as new, under the device's owner. */
  ghost predicate Safe(t: Table, rows: Rows, ownerId: string) {
    NothingDropped(t, rows) && OwnIds(t, rows, ownerId)
  }

  /** The pulled items the server still holds at least as new. */
  ghost predicate Backed(t: Table, items: seq<Item>, ownerId: string) {
    forall i :: 0 <= i < |items| ==>
      items[i].id in t && t[items[i].id].ownerId == ownerId && t[items[i].id].item.updatedAt >= items[i].updatedAt
  }

  /** The server's rows after a push by one owner: every id that appeared is that owner's. */
  ghost predicate PushedBy(t: Table, u: Table, ownerId: string) {
    Advances(t, u) && forall x :: x in u && x !in t ==> u[x].ownerId == ownerId
  }

  lemma {:induction false} PushIsBy(t: Table, rows: seq<Secret>, ownerId: string)
    requires forall i :: 0 <= i < |rows| ==> rows[i].ownerId == ownerId
    ensures PushedBy(t, UpsertAll(t, rows), ownerId)
  {
    if rows == [] {
    } else {
      PushIsBy(t, rows[..|rows| - 1], ownerId);
    }
  }

  lemma PushKeepsSafe(t: Table, u: Table, rows: Rows, ownerId: string)
    requires Safe(t, rows, ownerId) && PushedBy(t, u, ownerId)
    ensures Safe(u, rows, ownerId)
  {
  }

  /** A pull is backed when it is taken and stays so through later pushes. */
  lemma PullIsBacked(t: Table, u: Table, items: seq<Item>, ownerId: string, since: Time)
    requires WellKeyed(t) && Advances(t, u)
    requires Lists(items, UpdatedSince(t, ownerId, since))
    ensures Backed(u, items, ownerId)
  {
  }

  lemma BackedPrefix(t: Table, items: seq<Item>, ownerId: string, n: nat)
    requires Backed(t, items, ownerId) && n <= |items|
    ensures Backed(t, items[..n], ownerId)
  {
  }

  lemma {:induction false} ApplyKeepsSafe(t: Table, rows: Rows, items: seq<Item>, ownerId: string)
    requires Safe(t, rows, ownerId) && RowsOk(rows) && Backed(t, items, ownerId)
    ensures Safe(t, ApplyAll(rows, items), ownerId) && RowsOk(ApplyAll(rows, items))
  {
    if items == [] {
    } else {
      var n := |items| - 1;
      ApplyKeepsSafe(t, rows, items[..n], ownerId);
      StoredTwice(items[n]);
      TruncMonotone(items[n].updatedAt, items[n].updatedAt);
    }
  }

  /** Applying pulled rows never makes a row dirty, and leaves a row dirty only if it left it alone. */
  lemma {:induction false} ApplyLeavesDirty(rows: Rows, items: seq<Item>)
    ensures rows.Keys <= ApplyAll(rows, items).Keys
    ensures forall x :: x in ApplyAll(rows, items) && ApplyAll(rows, items)[x].dirty ==>
              x in rows && ApplyAll(rows, items)[x] == rows[x]
  {
    if items == [] {
    } else {
      ApplyLeavesDirty(rows, items[..|items| - 1]);
    }
  }

  /** The server holds every row of a completed push at least as new. */
  lemma {:induction false} PushCovers(t: Table, rows: seq<Secret>, ownerId: string, i: nat)
    requires i < |rows| && (forall j :: 0 <= j < |rows| ==> rows[j].ownerId == ownerId)
    requires rows[i].item.id in t ==> t[rows[i].item.id].ownerId == ownerId
    ensures var u := UpsertAll(t, rows);
            rows[i].item.id in u && u[rows[i].item.id].item.updatedAt >= rows[i].item.updatedAt
  {
    var n := |rows| - 1;
    PushIsBy(t, rows[..n], ownerId);
    if i < n {
      PushCovers(t, rows[..n], ownerId, i);
    }
  }

  /** What a sync read as dirty is on the server once the whole push went through. */
  ghost predicate BatchOnServer(t: Table, batch: seq<Item>) {
    forall i :: 0 <= i < |batch| ==>
      batch[i].id in t && t[batch[i].id].item.updatedAt >= batch[i].updatedAt
  }

  lemma PushedBatchOnServer(t: Table, rows: Rows, ownerId: string, batch: seq<Item>, clock: Clock)
    requires |clock| == |batch|
    requires Lists(batch, DirtyItems(rows))
    requires Safe(UpsertAll(t, FilledAll(ownerId, batch, clock)), rows, ownerId)
    ensures BatchOnServer(UpsertAll(t, FilledAll(ownerId, batch, clock)), batch)
  {
    var pushed := FilledAll(ownerId, batch, clock);
    UpsertAllAdvances(t, pushed);
    forall i | 0 <= i < |batch|
      ensures batch[i].id in UpsertAll(t, pushed)
              && UpsertAll(t, pushed)[batch[i].id].item.updatedAt >= batch[i].updatedAt
    {
      assert batch[i].id in DirtyItems(rows);
      PushCovers(t, pushed, ownerId, i);
    }
  }

  /** Cleaning the pushed ids after the whole push loses nothing, before or after the pull is applied. */
  lemma CleanKeepsSafe(t: Table, before: Rows, rows: Rows, ownerId: string, batch: seq<Item>)
    requires Safe(t, rows, ownerId)
    requires Lists(batch, DirtyItems(before)) && BatchOnServer(t, batch)
    requires forall x :: x in rows && rows[x].dirty ==> x in before && rows[x] == before[x]
    ensures Safe(t, CleanRows(rows, Ids(batch)), ownerId)
    ensures DirtyIds(CleanRows(rows, Ids(batch))) == {}
  {
  }
}
