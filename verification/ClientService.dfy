/** The client: local edits, and the two ways it syncs. */
module ClientService {
  import opened Records
  import opened Text
  import opened Meta
  import opened Crypto
  import opened SecretStore
  import opened SyncService
  import opened DeviceStore
  import opened CursorStore
  import opened SyncLaws
  import opened SyncSafety

  datatype ClientError =
    | MissingInput
    | NoMasterPassword
    | NoRandom
    | LocalFailed(store: StoreError)
    | CursorFailed(cursor: StoreError)
    | PushRefused(push: SyncError)
    | PushUnanswered
    | PullFailed
    | DecryptFailed

  /** The push or the pull failed, rather than the device itself. */
  predicate RequestFailed(e: ClientError) {
    e.PushRefused? || e.PushUnanswered? || e.PullFailed?
  }

  /** What a sync meets: which calls go through and at which item the server's push loop stops, whether the
      push's answer arrives (it may get lost wherever the loop stops, also after the last item), the server's
      clock, after how many of its own upserts the concurrent pull is answered, and which of the two requests
      fails first if both do (the first to fail cancels the other, so the other may fail for that reason alone). */
  datatype Weather = Weather(
    load: bool, list: bool, push: Option<nat>, answered: bool, pull: bool,
    canRead: nat -> bool, canWrite: nat -> bool, clean: bool, save: bool,
    clock: nat -> Reading, pullAfter: nat, pullFailsFirst: bool
  )

  /** Everything goes through. */
  ghost predicate Fair(w: Weather) {
    && w.load && w.list && w.push.None? && w.answered && w.pull && w.clean && w.save
    && forall i :: w.canRead(i) && w.canWrite(i)
  }

  const HEX: string := "0123456789abcdef"

  /** Sixteen random bytes in hexadecimal. */
  function NewID(random: Bytes): Option<string> {
    if |random| < 16 then None else Some(Hex(random[..16]))
  }

  function Hex(b: Bytes): (s: string)
    ensures |s| == 2 * |b|
    ensures forall i :: 0 <= i < |s| ==> s[i] in HEX
  {
    if b == [] then "" else [HEX[b[0] as int / 16], HEX[b[0] as int % 16]] + Hex(b[1..])
  }

  function HexValue(c: char): int {
    if '0' <= c <= '9' then c as int - '0' as int else c as int - 'a' as int + 10
  }

  lemma DigitValue(n: nat)
    requires n < 16
    ensures HexValue(HEX[n]) == n
  {
  }

  /** Two digits for each byte, the higher half first. */
  lemma {:induction false} HexDigits(b: Bytes, i: nat)
    requires i < |b|
    ensures HexValue(Hex(b)[2 * i]) == b[i] as int / 16 && HexValue(Hex(b)[2 * i + 1]) == b[i] as int % 16
  {
    hide HexValue;
    var h, l := HEX[b[0] as int / 16], HEX[b[0] as int % 16];
    assert Hex(b) == [h, l] + Hex(b[1..]);
    if i == 0 {
      DigitValue(b[0] as int / 16);
      DigitValue(b[0] as int % 16);
    } else {
      HexDigits(b[1..], i - 1);
      assert b[1..][i - 1] == b[i];
    }
  }

  /** Two new ids are equal only if the random bytes they are made of are: an add meets an old id, or
      another device's, only by the chance of sixteen random bytes. */
  lemma NewIDsDiffer(a: Bytes, b: Bytes)
    requires |a| >= 16 && |b| >= 16
    ensures NewID(a) == NewID(b) <==> a[..16] == b[..16]
  {
    if NewID(a) == NewID(b) {
      forall i | 0 <= i < 16 ensures a[i] == b[i] {
        HexDigits(a[..16], i);
        HexDigits(b[..16], i);
      }
    }
  }

  /** A new id takes sixteen random bytes and is never blank. */
  lemma NewIDNotBlank(random: Bytes)
    ensures NewID(random).Some? <==> |random| >= 16
    ensures NewID(random).Some? ==> |NewID(random).value| == 32 && TrimSpace(NewID(random).value) != ""
  {
    if |random| >= 16 {
      var id := Hex(random[..16]);
      assert !IsSpace(id[0]);
      TrimSpaceEmpty(id);
    }
  }

  /** The starting time as it reaches the server: no parameter for the zero time. */
  function WireSince(since: Time): Time {
    if since == ZERO_TIME then ZERO_TIME else Trunc(since)
  }

  ghost predicate AllPushable(rows: Rows) {
    forall x :: x in rows && rows[x].dirty ==> Pushable(rows[x].item)
  }

  lemma StoredPushable(item: Item)
    requires TrimSpace(item.id) != ""
    ensures Pushable(Stored(item)) <==> item.deleted || TrimSpace(item.typ) != ""
  {
  }

  /** What the user typed, as an item to store. */
  function Edited(id: string, typ: string, sealed: Bytes, meta: string, createdAt: Time, now: Time): Item {
    Item(id, TrimSpace(typ), sealed, Parse(meta), false, createdAt, now)
  }

  /** What is added or updated reads back: decrypting the stored payload gives what the user typed, under
      the trimmed type and the parsed metadata, alive, at the seconds given, waiting to be pushed; no other
      row changes. */
  lemma EditReadsBack(c: Crypto, rows: Rows, id: string, typ: string, payload: Bytes, meta: string,
                      createdAt: Time, now: Time, random: Bytes)
    requires OpenInvertsSeal(c.aead) && c.Encrypt(payload, random).Success?
    ensures var after := UpsertLocal(rows, Edited(id, typ, c.Encrypt(payload, random).value, meta, createdAt, now), true);
            && after.Keys == rows.Keys + {id} && (forall x :: x in rows && x != id ==> after[x] == rows[x])
            && var row := after[id];
            && row.dirty && row.item.payload != [] && c.Decrypt(row.item.payload) == Success(payload)
            && row.item.id == id && row.item.typ == TrimSpace(typ) && row.item.meta == Parse(meta) && !row.item.deleted
            && Trimmed(row.item.typ) && Normal(row.item.meta)
            && row.item.createdAt == Trunc(createdAt) && row.item.updatedAt == Trunc(now)
  {
    c.DecryptEncrypt(payload, random);
    var _, _ := TrimSpaceSplits(typ);
    ParsePairsNormal(Split(meta, ','));
  }

  class Service {
    const local: LocalStore
    const syncStore: SyncStore
    const api: SyncServiceImpl
    const ownerId: string
    const crypto: Option<Crypto>

    constructor (local: LocalStore, syncStore: SyncStore, api: SyncServiceImpl, ownerId: string, crypto: Option<Crypto>)
      ensures this.local == local && this.syncStore == syncStore && this.api == api
      ensures this.ownerId == ownerId && this.crypto == crypto
    {
      this.local, this.syncStore, this.api, this.ownerId, this.crypto := local, syncStore, api, ownerId, crypto;
    }

    ghost predicate Valid()
      reads local, syncStore, api.store
    {
      local.Valid() && syncStore.Valid() && api.store.Valid()
    }

    /** Stores a new secret under a fresh id. */
    method Add(typ: string, payload: Bytes, meta: string, randomId: Bytes, now: Time, random: Bytes, up: bool)
        returns (r: Result<string, ClientError>)
      requires Valid()
      modifies local
      ensures Valid()
      ensures r == if Blank(typ) || payload == [] then Failure(MissingInput)
                   else if crypto.None? then Failure(NoMasterPassword)
                   else if |randomId| < 16 || |random| < 12 then Failure(NoRandom)
                   else if up then Success(NewID(randomId).value) else Failure(LocalFailed(Unavailable))
      ensures r.Failure? ==> local.rows == old(local.rows)
      ensures r.Success? ==> forall x :: x in old(local.rows) && x != r.value ==> x in local.rows && local.rows[x] == old(local.rows)[x]
      ensures r.Success? ==>
        && TrimSpace(typ) != "" && payload != [] && crypto.Some? && NewID(randomId) == Some(r.value)
        && crypto.value.Encrypt(payload, random).Success?
        && local.rows == UpsertLocal(old(local.rows),
             Edited(r.value, typ, crypto.value.Encrypt(payload, random).value, meta, now, now), true)
      ensures old(AllPushable(local.rows)) ==> AllPushable(local.rows)
    {
      TrimSpaceEmpty(typ);
      var trimmed := TrimSpace(typ);
      if trimmed == "" || payload == [] {
        return Failure(MissingInput);
      }
      if crypto.None? {
        return Failure(NoMasterPassword);
      }
      var id := NewID(randomId);
      if id.None? {
        return Failure(NoRandom);
      }
      var sealed := crypto.value.Encrypt(payload, random);
      if sealed.Failure? {
        return Failure(NoRandom);
      }
      var meta' := ParseMeta(meta);
      var item := Item(id.value, trimmed, sealed.value, meta', false, now, now);
      NewIDNotBlank(randomId);
      StoredPushable(item);
      var stored := local.Upsert(item, true, up);
      if stored.Failure? {
        return Failure(LocalFailed(stored.error));
      }
      r := Success(id.value);
    }

    /** Overwrites a secret, keeping its creation time when it can be read. */
    method Update(id: string, typ: string, payload: Bytes, meta: string,
                  now: Time, later: Time, random: Bytes, readable: bool, up: bool)
        returns (r: Result<string, ClientError>)
      requires Valid()
      modifies local
      ensures Valid()
      ensures r == if Blank(id) || Blank(typ) || payload == [] then Failure(MissingInput)
                   else if crypto.None? then Failure(NoMasterPassword)
                   else if |random| < 12 then Failure(NoRandom)
                   else if up then Success(id) else Failure(LocalFailed(Unavailable))
      ensures r.Failure? ==> local.rows == old(local.rows)
      ensures r.Success? && readable && id in old(local.rows) ==>
        id in local.rows && local.rows[id].item.createdAt == old(local.rows)[id].item.createdAt
      ensures r.Success? ==>
        && r.value == id && TrimSpace(id) != "" && TrimSpace(typ) != "" && payload != []
        && crypto.Some? && crypto.value.Encrypt(payload, random).Success?
        && local.rows == UpsertLocal(old(local.rows),
             Edited(id, typ, crypto.value.Encrypt(payload, random).value, meta,
                    if readable && id in old(local.rows) then old(local.rows)[id].item.createdAt else now, later), true)
      ensures old(AllPushable(local.rows)) ==> AllPushable(local.rows)
    {
      TrimSpaceEmpty(id);
      TrimSpaceEmpty(typ);
      if TrimSpace(id) == "" || TrimSpace(typ) == "" || payload == [] {
        return Failure(MissingInput);
      }
      if crypto.None? {
        return Failure(NoMasterPassword);
      }
      var createdAt := now;
      var existing := local.Get(id, readable);
      if existing.Success? {
        createdAt := existing.value.createdAt;
      }
      var sealed := crypto.value.Encrypt(payload, random);
      if sealed.Failure? {
        return Failure(NoRandom);
      }
      var meta' := ParseMeta(meta);
      var item := Item(id, TrimSpace(typ), sealed.value, meta', false, createdAt, later);
      StoredPushable(item);
      var stored := local.Upsert(item, true, up);
      if stored.Failure? {
        return Failure(LocalFailed(stored.error));
      }
      r := Success(id);
    }

    /** Leaves a tombstone, also for an id the device does not know. */
    method Delete(id: string, now: Time, later: Time, readable: bool, up: bool) returns (r: Result<(), ClientError>)
      requires Valid()
      modifies local
      ensures Valid()
      ensures r == if TrimSpace(id) == "" then Failure(MissingInput)
                   else if up then Success(()) else Failure(LocalFailed(Unavailable))
      ensures r.Failure? ==> local.rows == old(local.rows)
      ensures r.Success? ==> local.rows == UpsertLocal(old(local.rows),
          if readable && id in old(local.rows)
          then old(local.rows)[id].item.(meta := map[], deleted := true, updatedAt := later)
          else Item(id, "deleted", [], map[], true, now, later), true)
      ensures old(AllPushable(local.rows)) ==> AllPushable(local.rows)
    {
      if TrimSpace(id) == "" {
        return Failure(MissingInput);
      }
      var createdAt, typ, payload: Bytes := now, "deleted", [];
      var existing := local.Get(id, readable);
      if existing.Success? {
        createdAt, typ, payload := existing.value.createdAt, existing.value.typ, existing.value.payload;
      }
      var item := Item(id, typ, payload, map[], true, createdAt, later);
      StoredPushable(item);
      var stored := local.Upsert(item, true, up);
      r := if stored.Failure? then Failure(LocalFailed(stored.error)) else Success(());
    }

    /** Reads a secret and decrypts its payload. */
    method Get(id: string, up: bool) returns (r: Result<Item, ClientError>)
      requires Valid()
      ensures r.Success? ==>
        && id in local.rows && crypto.Some?
        && r.value.(payload := local.rows[id].item.payload) == local.rows[id].item
        && (local.rows[id].item.payload == [] ==> r.value.payload == [])
        && (local.rows[id].item.payload != [] ==> crypto.value.Decrypt(local.rows[id].item.payload) == Success(r.value.payload))
      ensures up && TrimSpace(id) != "" && id in local.rows && crypto.Some?
              && (local.rows[id].item.payload == [] || crypto.value.Decrypt(local.rows[id].item.payload).Success?)
              ==> r.Success?
      ensures r.Success? ==> up && !Blank(id)
      ensures r.Failure? ==>
        r.error == if Blank(id) then MissingInput
                   else if !up then LocalFailed(Unavailable)
                   else if id !in local.rows then LocalFailed(NotFound)
                   else if crypto.None? then NoMasterPassword else DecryptFailed
    {
      TrimSpaceEmpty(id);
      if TrimSpace(id) == "" {
        return Failure(MissingInput);
      }
      var secret := local.Get(id, up);
      if secret.Failure? {
        return Failure(LocalFailed(secret.error));
      }
      if crypto.None? {
        return Failure(NoMasterPassword);
      }
      var item := secret.value;
      if |item.payload| > 0 {
        var dec := crypto.value.Decrypt(item.payload);
        if dec.Failure? {
          return Failure(DecryptFailed);
        }
        item := item.(payload := dec.value);
      }
      r := Success(item);
    }

    // --- Synchronisation ---------------------------------------------------------------------

    ghost predicate NothingLost()
      reads local, api.store
    {
      Safe(api.store.table, local.rows, ownerId)
    }

    /** The ids of a batch, as `MarkClean` takes them. */
    method BatchIds(batch: seq<Item>) returns (ids: seq<string>)
      ensures (set x | x in ids) == Ids(batch)
      ensures ids == [] <==> batch == []
    {
      ids := [];
      for i := 0 to |batch|
        invariant |ids| == i && forall j :: 0 <= j < i ==> ids[j] == batch[j].id
      {
        ids := ids + [batch[i].id];
      }
      forall x ensures x in ids <==> x in Ids(batch) {
        if x in Ids(batch) {
          var j :| 0 <= j < |batch| && batch[j].id == x;
          assert ids[j] == x;
        }
      }
    }

    /** Sends the batch; on an error the server keeps the rows it has already taken. */
    method PushBatch(batch: seq<Item>, clock: Clock, lo: nat, hi: nat, fault: Option<nat>)
        returns (error: Option<SyncError>, ghost stop: nat)
      requires api.store.Valid() && lo <= hi <= |batch| == |clock|
      modifies api.store
      ensures api.store.Valid()
      ensures lo <= stop <= hi && (error.None? <==> stop == hi)
      ensures api.store.table == UpsertAll(old(api.store.table), FilledAll(ownerId, batch, clock)[lo..stop])
      ensures PushedBy(old(api.store.table), api.store.table, ownerId)
      ensures forall i :: lo <= i < stop ==> Pushable(batch[i])
      ensures error.Some? && error.value != StoreFailed ==> exists i :: lo <= i < hi && !Pushable(batch[i])
      ensures StopsAt(batch, fault, lo, hi, stop) && (error.Some? ==> error.value == StopError(batch[stop]))
    {
      var n, e := api.PushRange(ownerId, batch, lo, hi, clock, fault);
      PushIsBy(old(api.store.table), FilledAll(ownerId, batch, clock)[lo..n], ownerId);
      error, stop := e, n;
    }

    /** The two requests of the concurrent sync: the push, with the pull answered somewhere within it. */
    method PushAndPull(batch: seq<Item>, clock: Clock, since: Time, w: Weather)
        returns (r: Result<seq<Item>, ClientError>, ghost stop: nat)
      requires api.store.Valid() && |clock| == |batch| && Whole(since)
      modifies api.store
      ensures api.store.Valid()
      ensures stop <= |batch| && PushableUpTo(batch, stop) && (r.Success? ==> stop == |batch|)
      ensures api.store.table == UpsertAll(old(api.store.table), FilledAll(ownerId, batch, clock)[..stop])
      ensures PushedBy(old(api.store.table), api.store.table, ownerId)
      ensures r.Failure? ==> RequestFailed(r.error)
      ensures batch != [] && !w.answered ==> r.Failure? && !r.error.PushRefused?
      ensures !w.pull ==> r.Failure? && (w.pullFailsFirst ==> r.error.PullFailed?)
      ensures r.Failure? && r.error.PushRefused? && r.error.push != StoreFailed
              ==> exists i :: 0 <= i < |batch| && !Pushable(batch[i])
      ensures StopsAt(batch, w.push, 0, |batch|, stop)
      ensures r.Success? ==> forall item :: item in r.value ==> item.updatedAt > since
      ensures r.Success? <==> stop == |batch| && (batch == [] || w.answered) && w.pull
      ensures r.Failure? ==>
        r.error == if (stop == |batch| && (batch == [] || w.answered)) || (!w.pull && w.pullFailsFirst) then PullFailed
                   else if w.answered then PushRefused(StopError(batch[stop])) else PushUnanswered
      ensures r.Success? ==>
        && Lists(r.value, UpdatedSince(
             UpsertAll(old(api.store.table), FilledAll(ownerId, batch, clock)[..PullAt(w, batch)]), ownerId, since))
        && Backed(api.store.table, r.value, ownerId)
    {
      hide Pushable, UpsertAll, FilledAll, UpdatedSince, Lists, Backed, StopsAt, StopError;
      var k := PullAt(w, batch);
      ghost var t := api.store.table;
      var error;
      error, stop := PushBatch(batch, clock, 0, k, w.push);
      ghost var mid, first := api.store.table, stop;
      WireSinceWhole(since);
      var pulled := api.Pull(ownerId, WireSince(since), w.pull);
      UpsertInTwo(t, FilledAll(ownerId, batch, clock), stop);
      if error.None? {
        error, stop := PushBatch(batch, clock, k, |batch|, w.push);
        UpsertPrefix(t, FilledAll(ownerId, batch, clock), k, stop);
      }
      StopsInTwo(batch, w.push, k, first, stop);
      if (error.Some? || (|batch| > 0 && !w.answered)) && !(pulled.Failure? && w.pullFailsFirst) {
        return Failure(if w.answered then PushRefused(error.value) else PushUnanswered), stop;
      }
      if pulled.Failure? {
        return Failure(PullFailed), stop;
      }
      PullIsBacked(mid, api.store.table, pulled.value, ownerId, since);
      r := Success(pulled.value);
    }

    /** The end of the concurrent sync, once push and pull went through: apply, clean, save. `t` is the
        server's table; nothing is lost on the way if it holds the pushed and the pulled rows. */
    method ApplyCleanSave(batch: seq<Item>, items: seq<Item>, w: Weather, now: Time, ghost t: Table)
        returns (error: Option<ClientError>, ghost done: nat, ghost cleaned: bool)
      requires local.Valid() && syncStore.Valid()
      requires Lists(batch, DirtyItems(local.rows))
      requires Safe(t, local.rows, ownerId) ==> BatchOnServer(t, batch)
      requires Backed(t, items, ownerId)
      modifies local, syncStore
      ensures local.Valid() && syncStore.Valid()
      ensures old(Safe(t, local.rows, ownerId)) ==> Safe(t, local.rows, ownerId)
      ensures old(AllPushable(local.rows)) ==> AllPushable(local.rows)
      ensures error.Some? ==> syncStore.saved == old(syncStore.saved) && !RequestFailed(error.value)
      ensures done <= |items| && (cleaned ==> done == |items|)
      ensures local.rows == (if cleaned then CleanRows(ApplyAll(old(local.rows), items[..done]), Ids(batch))
                             else ApplyAll(old(local.rows), items[..done]))
      ensures error.None? ==> cleaned && syncStore.saved == Some(Trunc(now))
      ensures done < |items| ==> !w.canRead(done) || !w.canWrite(done)
      ensures cleaned <==> done == |items| && (batch == [] || w.clean)
      ensures error == if cleaned && w.save then None
                       else if cleaned then Some(CursorFailed(Unavailable)) else Some(LocalFailed(Unavailable))
    {
      hide Pushable, Lists, Backed, BatchOnServer, Safe, ApplyAll, CleanRows, Ids;
      ghost var rows0 := local.rows;
      ghost var safe := Safe(t, rows0, ownerId);
      var applied;
      applied, done := local.ApplyRemote(items, w.canRead, w.canWrite);
      cleaned := false;
      ghost var rows1 := local.rows;
      ApplyLeavesDirty(rows0, items[..done]);
      if safe {
        BackedPrefix(t, items, ownerId, done);
        ApplyKeepsSafe(t, rows0, items[..done], ownerId);
      }
      if applied.Failure? {
        return Some(LocalFailed(applied.error)), done, cleaned;
      }
      assert items[..done] == items;
      if |batch| > 0 {
        var ids := BatchIds(batch);
        var marked := local.MarkClean(ids, w.clean);
        if marked.Failure? {
          return Some(LocalFailed(marked.error)), done, cleaned;
        }
      } else {
        CleanNone(rows1);
        assert batch == [];
      }
      cleaned := true;
      CleanKeepsPushable(rows1, Ids(batch));
      if safe {
        CleanKeepsSafe(t, rows0, rows1, ownerId, batch);
      }
      var saved := syncStore.Save(now, w.save);
      error := if saved.Failure? then Some(CursorFailed(saved.error)) else None;
    }

    /** The start of both syncs: the cursor and the dirty rows. */
    method ReadForSync(w: Weather) returns (r: Result<(Time, seq<Item>), ClientError>)
      requires local.Valid() && syncStore.Valid()
      ensures r.Failure? ==> !RequestFailed(r.error)
      ensures r.Failure? ==> r.error == if !w.load then CursorFailed(Unavailable) else LocalFailed(Unavailable)
      ensures r.Success? <==> w.load && w.list
      ensures r.Success? ==> r.value.0 == if syncStore.saved.Some? then syncStore.saved.value else 0
      ensures r.Success? ==> && r.value.0 == syncStore.Cursor() && Whole(r.value.0)
                             && Lists(r.value.1, DirtyItems(local.rows)) && OldestFirst(r.value.1)
    {
      var loaded := syncStore.Load(w.load);
      if loaded.Failure? && loaded.error != NotFound {
        return Failure(CursorFailed(loaded.error));
      }
      var since := if loaded.Success? then loaded.value else ZERO_TIME;
      var dirty := local.ListDirty(w.list);
      if dirty.Failure? {
        return Failure(LocalFailed(dirty.error));
      }
      r := Success((since, dirty.value));
    }

    /** Pushes what is dirty and pulls what is newer, both at once; then applies the pulled rows, cleans
        the pushed ones and saves the time. `p` says how far it came. */
    method Sync(w: Weather, now: Time) returns (r: Result<seq<Item>, ClientError>, ghost p: Progress)
      requires Valid()
      modifies local, syncStore, api.store
      ensures Valid()
      // what it leaves, however it ends
      ensures InOrder(p)
      ensures !w.load || !w.list ==>
        p == NOTHING && r == Failure(if !w.load then CursorFailed(Unavailable) else LocalFailed(Unavailable))
      ensures w.load && w.list ==>
        && ConcurrentTrace(old(api.store.table), old(local.rows), ownerId, old(syncStore.Cursor()), p, PullAt(w, p.batch))
        && StopsAt(p.batch, w.push, 0, |p.batch|, p.stop)
      ensures api.store.table == TableAt(old(api.store.table), ownerId, p)
      ensures local.rows == ConcurrentRows(old(local.rows), p)
      ensures old(NothingLost()) ==> NothingLost()
      ensures old(AllPushable(local.rows)) ==> AllPushable(local.rows)
      // failure
      ensures r.Failure? ==> syncStore.saved == old(syncStore.saved)
      ensures r.Failure? && RequestFailed(r.error) ==> p.done == 0 && !p.cleaned
      ensures old(AllPushable(local.rows)) && r.Failure? && r.error.PushRefused? ==> r.error.push == StoreFailed
      ensures r.Failure? && r.error.PushRefused? ==> p.stop < |p.batch| && r.error.push == StopError(p.batch[p.stop])
      ensures r.Failure? && r.error.PushUnanswered? ==> p.batch != [] && !w.answered
      ensures r.Failure? && r.error.PullFailed? ==> !w.pull
      ensures p.done < |p.items| ==> !w.canRead(p.done) || !w.canWrite(p.done)
      // success
      ensures Fair(w) && old(AllPushable(local.rows)) ==> r.Success?
      ensures r.Success? ==> (p.batch == [] || (w.answered && w.clean)) && w.pull && w.save
      ensures r.Success? ==> syncStore.saved == Some(Trunc(now))
      ensures r.Success? ==> HoldsNewer(old(api.store.table), local.rows, ownerId, old(syncStore.saved))
      ensures old(syncStore.saved).Some? ==> forall item :: item in p.items ==> item.updatedAt > old(syncStore.saved).value
      ensures r.Success? ==>
        && Complete(p) && r.value == p.items && OldestFirst(p.batch) && old(AllPushable(local.rows))
        && Outcome(api.store.table, local.rows, syncStore.Cursor())
           == ConcurrentSync(old(api.store.table), old(local.rows), ownerId, old(syncStore.Cursor()),
                             p.batch, p.clock, PullAt(w, p.batch), now)
    {
      hide Pushable, Lists, Backed, BatchOnServer, Safe, ApplyAll, CleanRows, UpsertAll, FilledAll, UpdatedSince, Merged, HoldsNewer, StopError;
      ghost var t, rows := api.store.table, local.rows;
      NothingDone(t, rows, ownerId);
      p := NOTHING;
      var read := ReadForSync(w);
      if read.Failure? {
        return Failure(read.error), p;
      }
      var since, dirty := read.value.0, read.value.1;
      var readings := seq(|dirty|, i requires 0 <= i < |dirty| => w.clock(i));
      BatchPushable(rows, dirty);
      ghost var stop;
      var pulled;
      pulled, stop := PushAndPull(dirty, readings, since, w);
      p := Progress(dirty, readings, stop, [], 0, false);
      ApplyNone(rows, []);
      if Safe(t, rows, ownerId) {
        PushKeepsSafe(t, api.store.table, rows, ownerId);
      }
      if pulled.Failure? {
        return Failure(pulled.error), p;
      }
      assert FilledAll(ownerId, dirty, readings)[..stop] == FilledAll(ownerId, dirty, readings);
      if Safe(api.store.table, rows, ownerId) {
        PushedBatchOnServer(t, rows, ownerId, dirty, readings);
      }
      ghost var done, cleaned;
      var error;
      error, done, cleaned := ApplyCleanSave(dirty, pulled.value, w, now, api.store.table);
      p := Progress(dirty, readings, stop, pulled.value, done, cleaned);
      if error.Some? {
        return Failure(error.value), p;
      }
      assert pulled.value[..done] == pulled.value;
      SyncHolds(t, rows, ownerId, old(syncStore.saved), dirty, readings, PullAt(w, dirty), now);
      ApplyAllMerges(rows, pulled.value,
        UpdatedSince(UpsertAll(t, FilledAll(ownerId, dirty, readings)[..PullAt(w, dirty)]), ownerId, since));
      r := Success(pulled.value);
    }
  }

  /** The number of upserts before the pull is answered. */
  function PullAt(w: Weather, batch: seq<Item>): nat {
    if w.pullAfter <= |batch| then w.pullAfter else |batch|
  }

  lemma CleanNone(rows: Rows)
    ensures CleanRows(rows, Ids([])) == rows
  {
  }

  lemma CleanKeepsPushable(rows: Rows, ids: set<string>)
    ensures AllPushable(rows) ==> AllPushable(CleanRows(rows, ids))
  {
  }

  lemma WireSinceWhole(since: Time)
    requires Whole(since)
    ensures WireSince(since) == since
  {
  }

  /** The dirty rows are all pushable exactly when the batch read from them is. */
  lemma BatchPushable(rows: Rows, batch: seq<Item>)
    requires Lists(batch, DirtyItems(rows))
    ensures AllPushable(rows) <==> forall i :: 0 <= i < |batch| ==> Pushable(batch[i])
  {
    forall i | 0 <= i < |batch| ensures batch[i].id in rows && rows[batch[i].id].dirty && rows[batch[i].id].item == batch[i] {
      assert batch[i].id in DirtyItems(rows);
    }
    forall x | x in rows && rows[x].dirty ensures exists i :: 0 <= i < |batch| && batch[i] == rows[x].item {
      assert x in DirtyItems(rows);
      var i :| 0 <= i < |batch| && batch[i].id == x;
    }
  }
}
