/** What each hypothesis about runs is for: the exact condition under which its guarantee stands. */
module Hypotheses {
  import opened Records
  import opened SecretStore
  import opened SyncService
  import opened DeviceStore
  import opened SyncLaws
  import opened Protocol
  import opened ProtocolSafety
  import opened ProtocolCoverage
  import opened ProtocolConvergence
  import opened ProtocolNewest

  /** Edits of pushed ids: when the whole batch is on the server and the user edits once more before the
      cleaning, the cleaning loses nothing exactly if the edit is of another id or its second is no later
      than the server's row. */
  lemma CleanExactly(s: State, d: nat, item: Item)
    requires Inv(s) && d < |s.devices| && s.devices[d].phase.Busy?
    requires s.devices[d].phase.pushed == |s.devices[d].phase.batch|
    ensures var e := Next(s, Edit(d, item));
            Enabled(e, Clean(d)) &&
            (NothingDropped(Next(e, Clean(d)).server, Next(e, Clean(d)).devices[d].rows)
             <==> (item.id in Ids(s.devices[d].phase.batch) ==>
                     item.id in s.server && Trunc(item.updatedAt) <= s.server[item.id].item.updatedAt))
  {
    hide MissedAfter, ServerOk;
    var dev, t, batch := s.devices[d], s.server, s.devices[d].phase.batch;
    assert DeviceOk(t, s.owners, dev);
    var rows := UpsertLocal(dev.rows, item, true);
    var e := Next(s, Edit(d, item));
    assert e.devices[d].rows == rows && e.devices[d].phase == dev.phase;
    assert Next(e, Clean(d)).devices[d].rows == CleanRows(rows, Ids(batch)) && Next(e, Clean(d)).server == t;
    CleanRowsExactly(t, s.owners, dev, item);
  }

  lemma CleanRowsExactly(t: Table, owners: map<string, string>, dev: Device, item: Item)
    requires DeviceOk(t, owners, dev) && dev.phase.Busy? && dev.phase.pushed == |dev.phase.batch|
    ensures NothingDropped(t, CleanRows(UpsertLocal(dev.rows, item, true), Ids(dev.phase.batch)))
            <==> (item.id in Ids(dev.phase.batch) ==>
                    item.id in t && Trunc(item.updatedAt) <= t[item.id].item.updatedAt)
  {
    var batch := dev.phase.batch;
    var c := CleanRows(UpsertLocal(dev.rows, item, true), Ids(batch));
    assert c[item.id].item.updatedAt == Trunc(item.updatedAt);
    forall x | x in c && x != item.id ensures c[x].dirty || (x in t && t[x].item.updatedAt >= c[x].item.updatedAt) {
      if dev.rows[x].dirty && x in Ids(batch) {
        var i :| 0 <= i < |batch| && batch[i].id == x;
        assert BatchItemOk(t, dev, batch[i], i < dev.phase.pushed);
      }
    }
  }

  /** Owners: with ids that other owners may hold too, a push and its cleaning lose nothing exactly if no
      dirty row is newer than the row that another owner has under its id. */
  lemma OwnersExactly(t: Table, rows: Rows, ownerId: string, batch: seq<Item>, clock: Clock)
    requires |clock| == |batch| && RowsOk(rows) && Lists(batch, DirtyItems(rows)) && Timed(batch)
    requires NothingDropped(t, rows)
    ensures NothingDropped(UpsertAll(t, FilledAll(ownerId, batch, clock)), CleanRows(rows, Ids(batch)))
            <==> forall x :: x in rows && rows[x].dirty && x in t && t[x].ownerId != ownerId
                             ==> t[x].item.updatedAt >= rows[x].item.updatedAt
  {
    hide UpsertAll, FilledAll, PushedAt, NothingDropped, Lists, Timed;
    var u, c := UpsertAll(t, FilledAll(ownerId, batch, clock)), CleanRows(rows, Ids(batch));
    forall x | x in rows
      ensures KeptAt(u, c, x)
              <==> (rows[x].dirty && x in t && t[x].ownerId != ownerId ==> t[x].item.updatedAt >= rows[x].item.updatedAt)
    {
      PushReaches(t, rows, ownerId, batch, clock, x);
      PushedKept(t, u, rows, c, ownerId, batch, x);
    }
    KeptEverywhere(u, c);
  }

  predicate KeptAt(t: Table, rows: Rows, x: string)
    requires x in rows
  {
    rows[x].dirty || (x in t && t[x].item.updatedAt >= rows[x].item.updatedAt)
  }

  lemma KeptEverywhere(t: Table, rows: Rows)
    ensures NothingDropped(t, rows) <==> forall x :: x in rows ==> KeptAt(t, rows, x)
  {
  }

  /** One id after the push and the cleaning. */
  lemma PushedKept(t: Table, u: Table, rows: Rows, c: Rows, ownerId: string, batch: seq<Item>, x: string)
    requires RowsOk(rows) && Lists(batch, DirtyItems(rows)) && NothingDropped(t, rows) && x in rows
    requires PushedAt(t, u, rows, ownerId, x) && c == CleanRows(rows, Ids(batch))
    ensures KeptAt(u, c, x)
            <==> (rows[x].dirty && x in t && t[x].ownerId != ownerId ==> t[x].item.updatedAt >= rows[x].item.updatedAt)
  {
    if rows[x].dirty {
      var i := DirtyAt(rows, batch, x);
      assert x in Ids(batch);
    } else {
      CleanNowhere(rows, batch, x);
    }
  }

  /** Pulled ids, while the sync writes them: the user edits between the comparison of a pulled item and its
      write. The edit, or one at least as new, lives on exactly if the write is not of its id, or the server
      or another device has the id at least as new already; and the stored time does not go back exactly if
      the write is not of its id or its second is no earlier. */
  lemma PulledEditExactly(s: State, d: nat, item: Item)
    requires |s.missed| == |s.devices| && Enabled(s, Apply(d))
    ensures var p := s.devices[d].phase;
            var next, w := p.pulled.value[p.applied], Stored(item);
            var e := Next(s, Edit(d, item));
            Enabled(e, Apply(d)) &&
            var r := Next(e, Apply(d));
            && (Alive(r, w) <==> (p.wins.value && item.id == next.id ==> OnServer(s.server, w) || WaitsElsewhere(s, d, w)))
            && (r.devices[d].rows[item.id].item.updatedAt >= w.updatedAt
                <==> (p.wins.value && item.id == next.id ==> Trunc(next.updatedAt) >= w.updatedAt))
  {
    hide MissedAfter, Stored;
    StoredFields(item);
    StoredFields(s.devices[d].phase.pulled.value[s.devices[d].phase.applied]);
    var w, e := Stored(item), Next(s, Edit(d, item));
    var r := Next(e, Apply(d));
    if WaitsElsewhere(s, d, w) {
      var f :| 0 <= f < |s.devices| && f != d && Waiting(s.devices[f], w);
      assert r.devices[f] == s.devices[f] && Waiting(r.devices[f], w);
    }
    assert Waiting(r.devices[d], w) ==> Alive(r, w);
    if Alive(r, w) && !OnServer(r.server, w) && !Waiting(r.devices[d], w) {
      var f :| 0 <= f < |r.devices| && Waiting(r.devices[f], w);
      assert r.devices[f] == s.devices[f];
    }
  }

  ghost predicate WaitsElsewhere(s: State, d: nat, w: Item) {
    exists e :: 0 <= e < |s.devices| && e != d && Waiting(s.devices[e], w)
  }

  lemma StoredFields(item: Item)
    ensures Stored(item).id == item.id && Stored(item).updatedAt == Trunc(item.updatedAt)
  {
  }

  /** Clocks and pulled ids: an edit leaves a device covered up to a cursor exactly when the cursor does
      not hide the server's row of that id, or the edit's second is no earlier than that row. With the saved
      cursor this is why the device's clock must not go back; with the cursor about to be saved it is why
      a row just pulled from a device with a faster clock must not be edited before the save. */
  lemma EditExactly(t: Table, rows: Rows, ownerId: string, cursor: Time, item: Item)
    requires WellKeyed(t) && Covered(t, rows, ownerId, cursor)
    ensures Covered(t, UpsertLocal(rows, item, true), ownerId, cursor)
            <==> (Hidden(t, ownerId, cursor, item.id) ==> Trunc(item.updatedAt) >= t[item.id].item.updatedAt)
  {
  }

  /** Timeliness: in every reachable state, whatever the clocks did and however late rows were pushed, one
      more sync of a device makes it agree with the server exactly when its cursor hides no row that it does
      not hold. */
  lemma SyncAgreesExactly(rules: Rules, s: State, steps: seq<Step>, d: nat, batch: seq<Item>, clock: Clock, k: nat, now: Time)
    requires Initial(s) && Runs(rules, s, steps)
    requires rules.oneOwner && rules.noPushedEdit && rules.stamped && rules.tieFree
    requires d < |After(rules, s, steps).devices| && |clock| == |batch| && k <= |batch|
    requires Lists(batch, DirtyItems(After(rules, s, steps).devices[d].rows))
    ensures var r := After(rules, s, steps);
            var dev := r.devices[d];
            var o := ConcurrentSync(r.server, dev.rows, dev.ownerId, dev.cursor, batch, clock, k, now);
            Agrees(o.table, o.rows, dev.ownerId) <==> Covered(r.server, dev.rows, dev.ownerId, dev.cursor)
  {
    hide ConcurrentSync, Agrees, Covered, Stored, Lists, Timed;
    var r := After(rules, s, steps);
    var dev := r.devices[d];
    InitialOrderly(s);
    InvAfter(rules, s, steps);
    StampsAfter(rules, s, steps);
    StampedBatch(r, d, batch);
    InvGives(r, d);
    if Covered(r.server, dev.rows, dev.ownerId, dev.cursor) {
      TimedIsBatch(dev.rows, batch);
      IncrementalRefinesFull(r.server, dev.rows, dev.ownerId, dev.cursor, batch, clock, k, now);
      FullSyncAgrees(rules, s, steps, d, batch, clock, k, now);
    } else {
      TimedIsBatch(dev.rows, batch);
      UncoveredDisagrees(r.server, dev.rows, dev.ownerId, dev.cursor, batch, clock, k, now);
    }
  }

  lemma InvGives(s: State, d: nat)
    requires Inv(s) && d < |s.devices|
    ensures WellKeyed(s.server) && RowsOk(s.devices[d].rows)
  {
    assert DeviceOk(s.server, s.owners, s.devices[d]);
  }

  lemma TimedIsBatch(rows: Rows, batch: seq<Item>)
    requires Lists(batch, DirtyItems(rows)) && Timed(batch)
    ensures IsBatch(batch, rows)
  {
  }

  /** A hidden row the device does not hold is still not held after the sync. */
  lemma UncoveredDisagrees(t: Table, rows: Rows, ownerId: string, since: Time, batch: seq<Item>, clock: Clock, k: nat, now: Time)
    requires WellKeyed(t) && RowsOk(rows) && ServerStamps(t) && |clock| == |batch| && k <= |batch| && IsBatch(batch, rows)
    requires !Covered(t, rows, ownerId, since)
    ensures var o := ConcurrentSync(t, rows, ownerId, since, batch, clock, k, now); !Agrees(o.table, o.rows, ownerId)
  {
    hide UpsertAll, FilledAll, Merged, UpdatedSince, IsBatch, CleanRows, Stored, RowsOk;
    var x :| Hidden(t, ownerId, since, x) && !(x in rows && rows[x].item.updatedAt >= t[x].item.updatedAt);
    StoredStamp(t[x].item);
    PushLeavesNewer(t, rows, ownerId, batch, clock, x);
    SyncRows(t, rows, ownerId, since, batch, clock, k, now);
    StaleMerge(t, rows, ownerId, since, Ids(batch), x);
    var o := ConcurrentSync(t, rows, ownerId, since, batch, clock, k, now);
    assert o.table[x] == t[x] && !Held(o.rows, t[x].item);
    assert x in OwnedItems(o.table, ownerId);
  }
}
