/** The terminal interface: its own sequential sync, and the add that can run beside it. */
module TerminalUi {
  import opened Records
  import opened Text
  import opened Meta
  import opened SecretStore
  import opened SyncService
  import opened DeviceStore
  import opened SyncLaws
  import opened SyncSafety
  import opened ClientService

  class Terminal {
    const client: Service

    constructor (client: Service)
      ensures this.client == client
    {
      this.client := client;
    }

    /** Stores what the form holds; unlike the client's `Add` it checks neither type nor payload. */
    method ShowAddSecret(masterPasswordSet: bool, typ: string, payload: Bytes, meta: string,
                         randomId: Bytes, now: Time, random: Bytes, up: bool)
        returns (r: Result<string, ClientError>)
      requires client.local.Valid()
      modifies client.local
      ensures client.local.Valid()
      ensures r == if !masterPasswordSet then Failure(NoMasterPassword)
                   else if |randomId| < 16 || (client.crypto.Some? && |random| < 12) then Failure(NoRandom)
                   else if up then Success(NewID(randomId).value) else Failure(LocalFailed(Unavailable))
      ensures r.Failure? ==> client.local.rows == old(client.local.rows)
      ensures r.Success? ==> forall x :: x in old(client.local.rows) && x != r.value ==>
                x in client.local.rows && client.local.rows[x] == old(client.local.rows)[x]
      ensures r.Success? ==>
        && masterPasswordSet && NewID(randomId) == Some(r.value)
        && (client.crypto.Some? ==> client.crypto.value.Encrypt(payload, random).Success?)
        && client.local.rows == UpsertLocal(old(client.local.rows),
             Item(r.value, typ, if client.crypto.Some? then client.crypto.value.Encrypt(payload, random).value else payload,
                  Parse(meta), false, now, now), true)
      // the new row blocks every later push unless the form's type is filled in
      ensures r.Success? && old(AllPushable(client.local.rows)) ==>
        (AllPushable(client.local.rows) <==> TrimSpace(typ) != "")
    {
      if !masterPasswordSet {
        return Failure(NoMasterPassword);
      }
      NewIDNotBlank(randomId);
      var id := NewID(randomId);
      if id.None? {
        return Failure(NoRandom);
      }
      var sealed := payload;
      if client.crypto.Some? {
        var enc := client.crypto.value.Encrypt(payload, random);
        if enc.Failure? {
          return Failure(NoRandom);
        }
        sealed := enc.value;
      }
      var meta' := ParseMeta(meta);
      var item := Item(id.value, typ, sealed, meta', false, now, now);
      StoredPushable(item);
      var stored := client.local.Upsert(item, true, up);
      if stored.Failure? {
        return Failure(LocalFailed(stored.error));
      }
      assert client.local.rows[id.value] == LocalRow(Stored(item), true);
      r := Success(id.value);
    }

    /** The first half: push what is dirty, then clean it. */
    method PushAndClean(batch: seq<Item>, clock: Clock, w: Weather)
        returns (error: Option<ClientError>, ghost stop: nat)
      requires client.Valid() && |clock| == |batch| && Lists(batch, DirtyItems(client.local.rows))
      modifies client.local, client.api.store
      ensures client.Valid()
      ensures old(client.NothingLost()) ==> client.NothingLost()
      ensures old(AllPushable(client.local.rows)) ==> AllPushable(client.local.rows)
      ensures error.Some? && error.value.PushRefused? && error.value.push != StoreFailed
              ==> !old(AllPushable(client.local.rows))
      ensures stop <= |batch| && PushableUpTo(batch, stop)
      ensures client.api.store.table == UpsertAll(old(client.api.store.table), FilledAll(client.ownerId, batch, clock)[..stop])
      ensures error.Some? ==> client.local.rows == old(client.local.rows) && !error.value.PullFailed?
      ensures batch != [] && !w.answered ==> error == Some(PushUnanswered)
      ensures StopsAt(batch, w.push, 0, |batch|, stop)
      ensures old(AllPushable(client.local.rows)) && w.push.None? ==> stop == |batch|
      ensures error == if batch == [] then None
                       else if !w.answered then Some(PushUnanswered)
                       else if stop < |batch| then Some(PushRefused(StopError(batch[stop])))
                       else if w.clean then None else Some(LocalFailed(Unavailable))
      ensures error.None? ==>
        && old(AllPushable(client.local.rows)) && stop == |batch|
        && client.local.rows == CleanRows(old(client.local.rows), Ids(batch))
    {
      hide Pushable, Lists, BatchOnServer, Safe, CleanRows, UpsertAll, FilledAll;
      ghost var t, rows := client.api.store.table, client.local.rows;
      BatchPushable(rows, batch);
      var refused;
      refused, stop := client.PushBatch(batch, clock, 0, |batch|, w.push);
      UpsertInTwo(t, FilledAll(client.ownerId, batch, clock), stop);
      if Safe(t, rows, client.ownerId) {
        PushKeepsSafe(t, client.api.store.table, rows, client.ownerId);
      }
      if |batch| > 0 && !w.answered {
        return Some(PushUnanswered), stop;
      }
      if refused.Some? {
        return Some(PushRefused(refused.value)), stop;
      }
      assert FilledAll(client.ownerId, batch, clock)[..stop] == FilledAll(client.ownerId, batch, clock);
      var ids := client.BatchIds(batch);
      var cleaned := client.local.MarkClean(ids, w.clean);
      if cleaned.Failure? {
        return Some(LocalFailed(cleaned.error)), stop;
      }
      CleanKeepsPushable(rows, Ids(batch));
      if Safe(t, rows, client.ownerId) {
        PushedBatchOnServer(t, rows, client.ownerId, batch, clock);
        CleanKeepsSafe(client.api.store.table, rows, rows, client.ownerId, batch);
      }
      error := None;
    }

    /** The second half: pull what is newer than `since`, apply it, save the time. */
    method PullApplySave(since: Time, w: Weather, now: Time)
        returns (r: Result<nat, ClientError>, ghost items: seq<Item>, ghost done: nat)
      requires client.Valid() && Whole(since)
      modifies client.local, client.syncStore
      ensures client.Valid()
      ensures old(client.NothingLost()) ==> client.NothingLost()
      ensures old(AllPushable(client.local.rows)) ==> AllPushable(client.local.rows)
      ensures done <= |items| && client.local.rows == ApplyAll(old(client.local.rows), items[..done])
      ensures w.pull ==> Lists(items, UpdatedSince(client.api.store.table, client.ownerId, since))
      ensures forall item :: item in items ==> item.updatedAt > since
      ensures !w.pull ==> done == 0
      ensures done < |items| ==> !w.canRead(done) || !w.canWrite(done)
      ensures r == if !w.pull then Failure(PullFailed)
                   else if done < |items| then Failure(LocalFailed(Unavailable))
                   else if w.save then Success(|items|) else Failure(CursorFailed(Unavailable))
      ensures client.syncStore.saved == if r.Success? then Some(Trunc(now)) else old(client.syncStore.saved)
    {
      hide Pushable, Lists, Backed, Safe, ApplyAll, UpdatedSince;
      ghost var t, rows := client.api.store.table, client.local.rows;
      items, done := [], 0;
      ApplyNone(rows, items);
      WireSinceWhole(since);
      var pulled := client.api.Pull(client.ownerId, WireSince(since), w.pull);
      if pulled.Failure? {
        return Failure(PullFailed), items, done;
      }
      items := pulled.value;
      PullIsBacked(t, t, items, client.ownerId, since);
      var applied;
      applied, done := client.local.ApplyRemote(pulled.value, w.canRead, w.canWrite);
      ApplyLeavesDirty(rows, items[..done]);
      if Safe(t, rows, client.ownerId) {
        BackedPrefix(t, items, client.ownerId, done);
        ApplyKeepsSafe(t, rows, items[..done], client.ownerId);
      }
      if applied.Failure? {
        return Failure(LocalFailed(applied.error)), items, done;
      }
      var saved := client.syncStore.Save(now, w.save);
      if saved.Failure? {
        return Failure(CursorFailed(saved.error)), items, done;
      }
      r := Success(|pulled.value|);
    }

    /** Push, clean, pull, apply, save: one after the other. `p` says how far it came. */
    method DoSync(w: Weather, now: Time) returns (r: Result<nat, ClientError>, ghost p: Progress)
      requires client.Valid()
      modifies client.local, client.syncStore, client.api.store
      ensures client.Valid()
      // what it leaves, however it ends
      ensures InOrder(p)
      ensures !w.load || !w.list ==>
        p == NOTHING && r == Failure(if !w.load then CursorFailed(Unavailable) else LocalFailed(Unavailable))
      ensures w.load && w.list ==>
        && SequentialTrace(old(client.api.store.table), old(client.local.rows), client.ownerId, old(client.syncStore.Cursor()), p)
        && StopsAt(p.batch, w.push, 0, |p.batch|, p.stop)
      ensures client.api.store.table == TableAt(old(client.api.store.table), client.ownerId, p)
      ensures client.local.rows == SequentialRows(old(client.local.rows), p)
      ensures old(client.NothingLost()) ==> client.NothingLost()
      ensures old(AllPushable(client.local.rows)) ==> AllPushable(client.local.rows)
      // failure
      ensures r.Failure? ==> client.syncStore.saved == old(client.syncStore.saved)
      ensures r.Failure? && (r.error.PushRefused? || r.error.PushUnanswered?) ==> p.done == 0 && !p.cleaned
      ensures r.Failure? && r.error.PullFailed? ==> p.done == 0 && p.cleaned
      ensures old(AllPushable(client.local.rows)) && r.Failure? && r.error.PushRefused? ==> r.error.push == StoreFailed
      ensures r.Failure? && r.error.PushRefused? ==> p.stop < |p.batch| && r.error.push == StopError(p.batch[p.stop])
      ensures r.Failure? && r.error.PushUnanswered? ==> p.batch != [] && !w.answered
      ensures r.Failure? && r.error.PullFailed? ==> !w.pull
      ensures p.done < |p.items| ==> !w.canRead(p.done) || !w.canWrite(p.done)
      // success
      ensures Fair(w) && old(AllPushable(client.local.rows)) ==> r.Success?
      ensures r.Success? ==> (p.batch == [] || (w.answered && w.clean)) && w.pull && w.save
      ensures r.Success? ==> client.syncStore.saved == Some(Trunc(now))
      ensures r.Success? ==> HoldsNewer(old(client.api.store.table), client.local.rows, client.ownerId, old(client.syncStore.saved))
      ensures old(client.syncStore.saved).Some? ==> forall item :: item in p.items ==> item.updatedAt > old(client.syncStore.saved).value
      ensures r.Success? ==>
        && Complete(p) && r.value == |p.items| && OldestFirst(p.batch) && old(AllPushable(client.local.rows))
        && Outcome(client.api.store.table, client.local.rows, client.syncStore.Cursor())
           == SequentialSync(old(client.api.store.table), old(client.local.rows), client.ownerId,
                             old(client.syncStore.Cursor()), p.batch, p.clock, now)
    {
      hide Pushable, Lists, Safe, ApplyAll, CleanRows, UpsertAll, FilledAll, UpdatedSince, Merged, HoldsNewer, StopsAt, StopError, AllPushable;
      ghost var t0, rows0 := client.api.store.table, client.local.rows;
      NothingDone(t0, rows0, client.ownerId);
      p := NOTHING;
      var read := client.ReadForSync(w);
      if read.Failure? {
        return Failure(read.error), p;
      }
      var since, dirty := read.value.0, read.value.1;
      var readings := seq(|dirty|, i requires 0 <= i < |dirty| => w.clock(i));
      ghost var stop;
      var error;
      error, stop := PushAndClean(dirty, readings, w);
      ghost var t, rows := client.api.store.table, client.local.rows;
      p := Progress(dirty, readings, stop, [], 0, error.None?);
      ApplyNone(rows, []);
      assert stop == |dirty| ==> FilledAll(client.ownerId, dirty, readings)[..stop] == FilledAll(client.ownerId, dirty, readings);
      if error.Some? {
        return Failure(error.value), p;
      }
      ghost var items, done;
      r, items, done := PullApplySave(since, w, now);
      p := Progress(dirty, readings, stop, items, done, true);
      if r.Success? {
        assert items[..done] == items;
        ApplyAllMerges(rows, items, UpdatedSince(t, client.ownerId, since));
        SyncHolds(t0, rows0, client.ownerId, old(client.syncStore.saved), dirty, readings, 0, now);
      }
    }
  }

  /** Both syncs of one device, run from the same state with the same clocks, end in the same state:
      server, rows, dirty bits and cursor. */
  lemma BothSyncsAgree(t: Table, rows: Rows, ownerId: string, since: Time, concurrent: seq<Item>, sequential: seq<Item>,
                       clock: Clock, clock': Clock, k: nat, now: Time)
    requires |clock| == |concurrent| && |clock'| == |sequential| && k <= |concurrent| && RowsOk(rows)
    requires IsBatch(concurrent, rows) && Timed(concurrent)
    requires IsBatch(sequential, rows) && Timed(sequential)
    ensures ConcurrentSync(t, rows, ownerId, since, concurrent, clock, k, now)
         == SequentialSync(t, rows, ownerId, since, sequential, clock', now)
  {
    hide UpsertAll, FilledAll, UpdatedSince, Merged, CleanRows, Lists;
    ScheduleIndependence(t, rows, ownerId, since, concurrent, clock, k, now);
    SamePush(t, rows, ownerId, concurrent, sequential, clock, clock');
    SameIds(rows, concurrent, sequential);
  }

  /** The order in which the dirty rows are listed, and the server's clock, make no difference to a push. */
  lemma SamePush(t: Table, rows: Rows, ownerId: string, a: seq<Item>, b: seq<Item>, clock: Clock, clock': Clock)
    requires |clock| == |a| && |clock'| == |b| && RowsOk(rows)
    requires Lists(a, DirtyItems(rows)) && Timed(a) && Lists(b, DirtyItems(rows)) && Timed(b)
    ensures UpsertAll(t, FilledAll(ownerId, a, clock)) == UpsertAll(t, FilledAll(ownerId, b, clock'))
  {
    hide UpsertAll, FilledAll, Lists, Timed, UpsertRow;
    var u, v := UpsertAll(t, FilledAll(ownerId, a, clock)), UpsertAll(t, FilledAll(ownerId, b, clock'));
    forall x ensures x in u <==> x in v ensures x in u ==> u[x] == v[x] {
      PushReaches(t, rows, ownerId, a, clock, x);
      PushReaches(t, rows, ownerId, b, clock', x);
    }
  }

  lemma SameIds(rows: Rows, a: seq<Item>, b: seq<Item>)
    requires Lists(a, DirtyItems(rows)) && Lists(b, DirtyItems(rows))
    ensures Ids(a) == Ids(b)
  {
  }
}
