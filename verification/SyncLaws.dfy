/** One complete sync of one device while no other device acts. */
module SyncLaws {
  import opened Records
  import opened SecretStore
  import opened SyncService
  import opened DeviceStore

  datatype Outcome = Outcome(table: Table, rows: Rows, cursor: Time)

  /** The concurrent sync: the pull's snapshot falls after `k` of the pushed upserts; the pulled rows
      are applied before the pushed ids are cleaned. */
  function ConcurrentSync(t: Table, rows: Rows, ownerId: string, since: Time,
                          batch: seq<Item>, clock: Clock, k: nat, now: Time): Outcome
    requires |clock| == |batch|
    requires k <= |batch|
  {
    var pushed := FilledAll(ownerId, batch, clock);
    var snapshot := UpdatedSince(UpsertAll(t, pushed[..k]), ownerId, since);
    Outcome(UpsertAll(t, pushed), CleanRows(Merged(rows, snapshot), Ids(batch)), Trunc(now))
  }

  /** The sequential sync: push, clean, pull, apply. */
  function SequentialSync(t: Table, rows: Rows, ownerId: string, since: Time,
                          batch: seq<Item>, clock: Clock, now: Time): Outcome
    requires |clock| == |batch|
  {
    var u := UpsertAll(t, FilledAll(ownerId, batch, clock));
    Outcome(u, Merged(CleanRows(rows, Ids(batch)), UpdatedSince(u, ownerId, since)), Trunc(now))
  }

  // --- A sync that stops somewhere -----------------------------------------------------------

  /** How far a sync came: what it read as dirty and how much of it the server took, what it pulled and how
      much of that it applied, and whether it cleaned the pushed ids. */
  datatype Progress = Progress(batch: seq<Item>, clock: Clock, stop: nat, items: seq<Item>, done: nat, cleaned: bool)

  /** Nothing is applied or cleaned before the whole batch is pushed. */
  ghost predicate InOrder(p: Progress) {
    && |p.clock| == |p.batch| && p.stop <= |p.batch| && p.done <= |p.items|
    && (p.done > 0 || p.cleaned ==> p.stop == |p.batch|)
  }

  ghost predicate Complete(p: Progress) {
    InOrder(p) && p.stop == |p.batch| && p.done == |p.items| && p.cleaned
  }

  /** The server's table at that point. */
  ghost function TableAt(t: Table, ownerId: string, p: Progress): Table
    requires InOrder(p)
  {
    UpsertAll(t, FilledAll(ownerId, p.batch, p.clock)[..p.stop])
  }

  /** The device's rows at that point of the concurrent sync. */
  ghost function ConcurrentRows(rows: Rows, p: Progress): Rows
    requires InOrder(p)
  {
    var applied := ApplyAll(rows, p.items[..p.done]);
    if p.cleaned then CleanRows(applied, Ids(p.batch)) else applied
  }

  /** The device's rows at that point of the sequential sync. */
  ghost function SequentialRows(rows: Rows, p: Progress): Rows
    requires InOrder(p)
  {
    ApplyAll(if p.cleaned then CleanRows(rows, Ids(p.batch)) else rows, p.items[..p.done])
  }

  ghost predicate PushableUpTo(items: seq<Item>, n: nat)
    requires n <= |items|
  {
    forall i :: 0 <= i < n ==> Pushable(items[i])
  }

  /** How a concurrent sync may stand when it stops: only a pushable prefix got through, what it applies is a
      snapshot after `k` upserts, and it cleans after applying everything. */
  ghost predicate ConcurrentTrace(t: Table, rows: Rows, ownerId: string, since: Time, p: Progress, k: nat) {
    && InOrder(p) && Lists(p.batch, DirtyItems(rows)) && PushableUpTo(p.batch, p.stop) && k <= |p.batch|
    && (p.cleaned ==> p.done == |p.items|)
    && (p.done > 0 || p.cleaned ==>
          Lists(p.items, UpdatedSince(UpsertAll(t, FilledAll(ownerId, p.batch, p.clock)[..k]), ownerId, since)))
  }

  /** How a sequential sync may stand when it stops: it cleans before it pulls. */
  ghost predicate SequentialTrace(t: Table, rows: Rows, ownerId: string, since: Time, p: Progress) {
    && InOrder(p) && Lists(p.batch, DirtyItems(rows)) && PushableUpTo(p.batch, p.stop)
    && (p.done > 0 ==>
          p.cleaned && Lists(p.items, UpdatedSince(UpsertAll(t, FilledAll(ownerId, p.batch, p.clock)), ownerId, since)))
  }

  /** Nothing was even read. */
  const NOTHING := Progress([], [], 0, [], 0, false)

  lemma NothingDone(t: Table, rows: Rows, ownerId: string)
    ensures InOrder(NOTHING) && TableAt(t, ownerId, NOTHING) == t
    ensures ConcurrentRows(rows, NOTHING) == rows && SequentialRows(rows, NOTHING) == rows
  {
  }

  lemma ApplyNone(rows: Rows, items: seq<Item>)
    ensures ApplyAll(rows, items[..0]) == rows
  {
  }

  /** The batch is what `ListDirty` returned, with times of its own. */
  ghost predicate IsBatch(batch: seq<Item>, rows: Rows) {
    Lists(batch, DirtyItems(rows)) && forall i :: 0 <= i < |batch| ==> batch[i].updatedAt != ZERO_TIME
  }

  // --- What a push of distinct ids leaves at one id ------------------------------------------

  lemma {:induction false} PushedElsewhere(t: Table, pushed: seq<Secret>, x: string)
    requires forall i :: 0 <= i < |pushed| ==> pushed[i].item.id != x
    ensures x in UpsertAll(t, pushed) <==> x in t
    ensures x in t ==> UpsertAll(t, pushed)[x] == t[x]
  {
    if pushed == [] {
    } else {
      PushedElsewhere(t, pushed[..|pushed| - 1], x);
    }
  }

  lemma {:induction false} PushedHere(t: Table, pushed: seq<Secret>, i: nat)
    requires i < |pushed|
    requires forall j :: 0 <= j < |pushed| && j != i ==> pushed[j].item.id != pushed[i].item.id
    ensures var x := pushed[i].item.id;
            x in UpsertAll(t, pushed) && UpsertAll(t, pushed)[x] == UpsertRow(t, pushed[i])[x]
  {
    var n := |pushed| - 1;
    var init := pushed[..n];
    if i == n {
      PushedElsewhere(t, init, pushed[i].item.id);
    } else {
      PushedHere(t, init, i);
    }
  }

  // --- Where the snapshot falls does not matter ----------------------------------------------

  /** At `x`, `u` is `t` or has a newer row there that the device holds at least as new. */
  predicate FromRows(t: Table, u: Table, rows: Rows, x: string)
    requires x in u
  {
    || (x in t && u[x] == t[x])
    || (x in rows && u[x].item.updatedAt <= rows[x].item.updatedAt
        && (x in t ==> t[x].item.updatedAt <= rows[x].item.updatedAt))
  }

  ghost predicate PushedFrom(t: Table, u: Table, rows: Rows) {
    t.Keys <= u.Keys && forall x :: x in u ==> FromRows(t, u, rows, x)
  }

  lemma PushIsFromRows(t: Table, rows: Rows, ownerId: string, batch: seq<Item>, clock: Clock, k: nat)
    requires |clock| == |batch|
    requires IsBatch(batch, rows) && k <= |batch|
    ensures PushedFrom(t, UpsertAll(t, FilledAll(ownerId, batch, clock)[..k]), rows)
  {
    var pushed := FilledAll(ownerId, batch, clock)[..k];
    forall i | 0 <= i < k
      ensures pushed[i].item.id in rows && pushed[i].item.updatedAt == rows[pushed[i].item.id].item.updatedAt
    {
      assert batch[i].id in DirtyItems(rows);
    }
    RowsPushedFrom(t, pushed, rows);
  }

  lemma {:induction false} RowsPushedFrom(t: Table, pushed: seq<Secret>, rows: Rows)
    requires forall i :: 0 <= i < |pushed| ==>
               pushed[i].item.id in rows && pushed[i].item.updatedAt == rows[pushed[i].item.id].item.updatedAt
    ensures PushedFrom(t, UpsertAll(t, pushed), rows)
  {
    if pushed == [] {
    } else {
      var n := |pushed| - 1;
      RowsPushedFrom(t, pushed[..n], rows);
      var v, u := UpsertAll(t, pushed[..n]), UpsertAll(t, pushed);
      UpsertAllAdvances(t, pushed[..n]);
      forall x | x in u ensures FromRows(t, u, rows, x) {
        assert x in v ==> FromRows(t, v, rows, x);
      }
    }
  }

  lemma SameMerge(t: Table, u: Table, rows: Rows, ownerId: string, since: Time)
    requires PushedFrom(t, u, rows)
    ensures Merged(rows, UpdatedSince(t, ownerId, since)) == Merged(rows, UpdatedSince(u, ownerId, since))
  {
  }

  /** The device's side of a sync does not depend on its own push. */
  lemma SyncRows(t: Table, rows: Rows, ownerId: string, since: Time, batch: seq<Item>, clock: Clock, k: nat, now: Time)
    requires |clock| == |batch| && IsBatch(batch, rows) && k <= |batch|
    ensures ConcurrentSync(t, rows, ownerId, since, batch, clock, k, now).rows
            == CleanRows(Merged(rows, UpdatedSince(t, ownerId, since)), Ids(batch))
  {
    PushIsFromRows(t, rows, ownerId, batch, clock, k);
    SameMerge(t, UpsertAll(t, FilledAll(ownerId, batch, clock)[..k]), rows, ownerId, since);
  }

  lemma MergeIgnoresDirt(rows: Rows, remote: map<string, Item>, ids: set<string>)
    requires forall x :: x in ids ==> x in rows
    ensures Merged(CleanRows(rows, ids), remote) == CleanRows(Merged(rows, remote), ids)
  {
  }

  /** With no other device acting, the concurrent sync ends in the state of the sequential one, wherever
      its snapshot falls among its own upserts; ties and fractions of a second included. */
  lemma ScheduleIndependence(t: Table, rows: Rows, ownerId: string, since: Time,
                             batch: seq<Item>, clock: Clock, k: nat, now: Time)
    requires |clock| == |batch|
    requires IsBatch(batch, rows) && k <= |batch|
    requires RowsOk(rows)
    ensures ConcurrentSync(t, rows, ownerId, since, batch, clock, k, now)
         == SequentialSync(t, rows, ownerId, since, batch, clock, now)
  {
    var pushed := FilledAll(ownerId, batch, clock);
    var u := UpsertAll(t, pushed);
    PushIsFromRows(t, rows, ownerId, batch, clock, k);
    PushIsFromRows(t, rows, ownerId, batch, clock, |batch|);
    assert pushed[..|batch|] == pushed;
    SameMerge(t, UpsertAll(t, pushed[..k]), rows, ownerId, since);
    SameMerge(t, u, rows, ownerId, since);
    MergeIgnoresDirt(rows, UpdatedSince(u, ownerId, since), Ids(batch));
  }

  /** Every row of the owner that is newer than the time of the last sync is held at least as new, in the
      seconds a device keeps; before the first sync that is every row with a time. */
  ghost predicate HoldsNewer(t: Table, rows: Rows, ownerId: string, saved: Option<Time>) {
    forall x :: x in t && t[x].ownerId == ownerId && t[x].item.updatedAt > (if saved.None? then 0 else saved.value) ==>
      x in rows && rows[x].item.updatedAt >= Trunc(t[x].item.updatedAt)
  }

  lemma SyncHolds(t: Table, rows: Rows, ownerId: string, saved: Option<Time>,
                  batch: seq<Item>, clock: Clock, k: nat, now: Time)
    requires |clock| == |batch| && k <= |batch|
    ensures var since := if saved.None? then 0 else saved.value;
            && HoldsNewer(t, ConcurrentSync(t, rows, ownerId, since, batch, clock, k, now).rows, ownerId, saved)
            && HoldsNewer(t, SequentialSync(t, rows, ownerId, since, batch, clock, now).rows, ownerId, saved)
  {
    hide UpsertAll, FilledAll;
    var since := if saved.None? then 0 else saved.value;
    var pushed := FilledAll(ownerId, batch, clock);
    UpsertAllAdvances(t, pushed[..k]);
    MergeHolds(t, UpsertAll(t, pushed[..k]), rows, ownerId, saved);
    UpsertAllAdvances(t, pushed);
    MergeHolds(t, UpsertAll(t, pushed), CleanRows(rows, Ids(batch)), ownerId, saved);
  }

  lemma MergeHolds(t: Table, u: Table, rows: Rows, ownerId: string, saved: Option<Time>)
    requires Advances(t, u)
    ensures HoldsNewer(t, Merged(rows, UpdatedSince(u, ownerId, if saved.None? then 0 else saved.value)), ownerId, saved)
  {
    forall x | x in t && x in u && t[x].item.updatedAt <= u[x].item.updatedAt
      ensures Trunc(t[x].item.updatedAt) <= Trunc(u[x].item.updatedAt) <= u[x].item.updatedAt
    {
      TruncMonotone(t[x].item.updatedAt, u[x].item.updatedAt);
    }
  }

  // --- The cursor saves work only ------------------------------------------------------------

  /** The rows the cursor hides from a pull that starts at `since`. */
  predicate Hidden(t: Table, ownerId: string, since: Time, x: string) {
    x in t && t[x].ownerId == ownerId && ZERO_TIME < t[x].item.updatedAt <= since
  }

  /** Every row of the owner the cursor hides is held by the device at least as new. */
  ghost predicate Covered(t: Table, rows: Rows, ownerId: string, since: Time) {
    forall x :: Hidden(t, ownerId, since, x) ==>
      x in rows && rows[x].item.updatedAt >= t[x].item.updatedAt
  }

  /** A pull from the cursor does what a pull from the zero time does exactly when applying any one of
      the hidden rows would change nothing. */
  lemma IncrementalExactly(t: Table, rows: Rows, ownerId: string, since: Time)
    requires WellKeyed(t)
    ensures Merged(rows, UpdatedSince(t, ownerId, since)) == Merged(rows, UpdatedSince(t, ownerId, ZERO_TIME))
       <==> forall x :: Hidden(t, ownerId, since, x) ==> ApplyOne(rows, t[x].item) == rows
  {
    hide Merged, UpdatedSince, ApplyOne, WellKeyed;
    var a, b := UpdatedSince(t, ownerId, since), UpdatedSince(t, ownerId, ZERO_TIME);
    forall x
      ensures (x in Merged(rows, a) <==> x in Merged(rows, b)) && (x in Merged(rows, a) ==> Merged(rows, a)[x] == Merged(rows, b)[x])
         <==> (Hidden(t, ownerId, since, x) ==> ApplyOne(rows, t[x].item) == rows)
    {
      IncrementalAt(t, rows, ownerId, since, x);
    }
  }

  lemma IncrementalAt(t: Table, rows: Rows, ownerId: string, since: Time, x: string)
    requires WellKeyed(t)
    ensures var m, n := Merged(rows, UpdatedSince(t, ownerId, since)), Merged(rows, UpdatedSince(t, ownerId, ZERO_TIME));
            ((x in m <==> x in n) && (x in m ==> m[x] == n[x]))
            <==> (Hidden(t, ownerId, since, x) ==> ApplyOne(rows, t[x].item) == rows)
  {
    if Hidden(t, ownerId, since, x) && RemoteWins(rows, t[x].item) && x in rows && rows[x] == LocalRow(Stored(t[x].item), false) {
      assert ApplyOne(rows, t[x].item) == rows;
    }
  }

  /** Under coverage a sync from the saved cursor ends like a sync from the zero time, wherever the
      snapshot falls. */
  lemma IncrementalRefinesFull(t: Table, rows: Rows, ownerId: string, since: Time,
                               batch: seq<Item>, clock: Clock, k: nat, now: Time)
    requires |clock| == |batch|
    requires WellKeyed(t) && RowsOk(rows) && IsBatch(batch, rows) && k <= |batch|
    requires Covered(t, rows, ownerId, since)
    ensures ConcurrentSync(t, rows, ownerId, since, batch, clock, k, now)
         == ConcurrentSync(t, rows, ownerId, ZERO_TIME, batch, clock, k, now)
  {
    PushIsFromRows(t, rows, ownerId, batch, clock, k);
    var u := UpsertAll(t, FilledAll(ownerId, batch, clock)[..k]);
    SameMerge(t, u, rows, ownerId, since);
    SameMerge(t, u, rows, ownerId, ZERO_TIME);
    forall x | Hidden(t, ownerId, since, x) ensures ApplyOne(rows, t[x].item) == rows {}
    IncrementalExactly(t, rows, ownerId, since);
  }

  // --- Agreement after a full sync -----------------------------------------------------------

  /** Each local row waits to be pushed, or the server holds the id at least as new. */
  ghost predicate NothingDropped(t: Table, rows: Rows) {
    forall x :: x in rows ==> rows[x].dirty || (x in t && t[x].item.updatedAt >= rows[x].item.updatedAt)
  }

  /** The device's ids are the owner's on the server. */
  ghost predicate OwnIds(t: Table, rows: Rows, ownerId: string) {
    forall x :: x in rows && x in t ==> t[x].ownerId == ownerId
  }

  /** The two tables hold different contents under the same id and time. */
  predicate TieAt(t: Table, rows: Rows, x: string) {
    x in rows && x in t && t[x].item.updatedAt == rows[x].item.updatedAt && rows[x].item != Stored(t[x].item)
  }

  /** The device holds exactly the owner's rows: ids, contents and tombstones. */
  ghost predicate Agrees(t: Table, rows: Rows, ownerId: string) {
    && (forall x :: x in rows <==> x in OwnedItems(t, ownerId))
    && (forall x :: x in rows && x in t ==> rows[x].item == Stored(t[x].item))
  }

  /** Pushed rows that carry both their times. */
  ghost predicate Timed(items: seq<Item>) {
    forall i :: 0 <= i < |items| ==> items[i].createdAt != ZERO_TIME && items[i].updatedAt != ZERO_TIME
  }

  /** A row with both its times is pushed as it is. */
  lemma TimedRow(rows: Rows, ownerId: string, batch: seq<Item>, clock: Clock, i: nat)
    requires |clock| == |batch|
    requires Lists(batch, DirtyItems(rows)) && Timed(batch) && i < |batch|
    ensures FilledAll(ownerId, batch, clock)[i] == Secret(ownerId, batch[i])
    ensures batch[i].id in rows && rows[batch[i].id].dirty && rows[batch[i].id].item == batch[i]
  {
  }

  /** The server's row of `x` after the dirty rows were pushed. */
  ghost predicate PushedAt(t: Table, u: Table, rows: Rows, ownerId: string, x: string) {
    var v := if x in rows && rows[x].dirty then UpsertRow(t, Secret(ownerId, rows[x].item)) else t;
    (x in u <==> x in v) && (x in v ==> u[x] == v[x])
  }

  lemma PushReaches(t: Table, rows: Rows, ownerId: string, batch: seq<Item>, clock: Clock, x: string)
    requires |clock| == |batch|
    requires RowsOk(rows) && Lists(batch, DirtyItems(rows)) && Timed(batch)
    ensures PushedAt(t, UpsertAll(t, FilledAll(ownerId, batch, clock)), rows, ownerId, x)
  {
    hide UpsertAll, Filled;
    var pushed := FilledAll(ownerId, batch, clock);
    forall j | 0 <= j < |batch| ensures pushed[j] == Secret(ownerId, batch[j]) {
      TimedRow(rows, ownerId, batch, clock, j);
    }
    if x in rows && rows[x].dirty {
      var i := DirtyAt(rows, batch, x);
      PushedHere(t, pushed, i);
    } else {
      CleanNowhere(rows, batch, x);
      PushedElsewhere(t, pushed, x);
    }
  }

  lemma CleanNowhere(rows: Rows, batch: seq<Item>, x: string)
    requires Lists(batch, DirtyItems(rows)) && !(x in rows && rows[x].dirty)
    ensures forall j :: 0 <= j < |batch| ==> batch[j].id != x
  {
  }

  lemma DirtyAt(rows: Rows, batch: seq<Item>, x: string) returns (i: nat)
    requires Lists(batch, DirtyItems(rows)) && x in rows && rows[x].dirty && rows[x].item.id == x
    ensures i < |batch| && batch[i] == rows[x].item
    ensures forall j :: 0 <= j < |batch| && j != i ==> batch[j].id != x
  {
    assert x in DirtyItems(rows);
    i :| 0 <= i < |batch| && batch[i].id == x;
  }

  /** One id after a full sync: it is on the device exactly if it is the owner's on the server, and both
      hold the same contents unless there was a tie. */
  lemma AgreementAt(t: Table, u: Table, rows: Rows, m: Rows, ownerId: string, x: string)
    requires WellKeyed(t) && RowsOk(rows)
    requires NothingDropped(t, rows) && OwnIds(t, rows, ownerId)
    requires x in t && t[x].ownerId == ownerId ==> t[x].item.updatedAt != ZERO_TIME
    requires PushedAt(t, u, rows, ownerId, x)
    requires m == Merged(rows, UpdatedSince(t, ownerId, ZERO_TIME))
    ensures x in m <==> x in u && u[x].ownerId == ownerId
    ensures x in m && x in u ==> (m[x].item == Stored(u[x].item) <==> !TieAt(t, rows, x))
  {
  }

  /** From a state with nothing dropped, one successful sync without a cursor makes the device agree with
      the server exactly when there was no tie between the two tables. */
  lemma AgreementExactly(t: Table, rows: Rows, ownerId: string, batch: seq<Item>, clock: Clock, k: nat, now: Time)
    requires |clock| == |batch|
    requires WellKeyed(t) && RowsOk(rows) && Lists(batch, DirtyItems(rows)) && Timed(batch) && k <= |batch|
    requires NothingDropped(t, rows) && OwnIds(t, rows, ownerId)
    requires forall x :: x in t && t[x].ownerId == ownerId ==> t[x].item.updatedAt != ZERO_TIME
    ensures var o := ConcurrentSync(t, rows, ownerId, ZERO_TIME, batch, clock, k, now);
            Agrees(o.table, o.rows, ownerId) <==> forall x :: !TieAt(t, rows, x)
  {
    hide UpsertAll, FilledAll, UpdatedSince, TieAt, Stored;
    var u := UpsertAll(t, FilledAll(ownerId, batch, clock));
    var m := Merged(rows, UpdatedSince(t, ownerId, ZERO_TIME));
    SyncRows(t, rows, ownerId, ZERO_TIME, batch, clock, k, now);
    forall x
      ensures x in m <==> x in OwnedItems(u, ownerId)
      ensures x in m && x in u ==> (m[x].item == Stored(u[x].item) <==> !TieAt(t, rows, x))
    {
      PushReaches(t, rows, ownerId, batch, clock, x);
      AgreementAt(t, u, rows, m, ownerId, x);
    }
    AgreementUnlessTie(t, rows, u, m, CleanRows(m, Ids(batch)), ownerId);
  }

  lemma AgreementUnlessTie(t: Table, rows: Rows, u: Table, m: Rows, final: Rows, ownerId: string)
    requires final.Keys == m.Keys >= rows.Keys && forall x :: x in m ==> final[x].item == m[x].item
    requires forall x :: x in m <==> x in OwnedItems(u, ownerId)
    requires forall x :: x in m && x in u ==> (m[x].item == Stored(u[x].item) <==> !TieAt(t, rows, x))
    ensures Agrees(u, final, ownerId) <==> forall x :: !TieAt(t, rows, x)
  {
  }
}
