/** The server's push: a validating loop of upserts that keeps the prefix it has applied. */
module SyncService {
  import opened Records
  import opened SecretStore
  import opened Text

  datatype SyncError = InvalidID | InvalidType | StoreFailed

  /** The checks a pushed item has to pass. */
  function Check(item: Item): Option<SyncError> {
    if TrimSpace(item.id) == "" then Some(InvalidID)
    else if !item.deleted && TrimSpace(item.typ) == "" then Some(InvalidType)
    else None
  }

  predicate Pushable(item: Item) {
    Check(item).None?
  }

  /** Neither the id nor the type of a live item may be empty or white space. */
  predicate Sendable(item: Item) {
    !Blank(item.id) && (item.deleted || !Blank(item.typ))
  }

  lemma CheckMeans(item: Item)
    ensures Pushable(item) <==> Sendable(item)
    ensures Check(item) == Some(InvalidID) <==> Blank(item.id)
    ensures Check(item) == Some(InvalidType) <==> !Blank(item.id) && !Sendable(item)
    ensures Check(item) != Some(StoreFailed)
  {
    TrimSpaceEmpty(item.id);
    TrimSpaceEmpty(item.typ);
  }

  /** The server's clock, read once for each missing time of item `i`. */
  datatype Reading = Reading(created: Time, updated: Time)

  type Clock = seq<Reading>

  /** The row an item is stored as: owned by the pusher, missing times filled in. */
  function Filled(ownerId: string, item: Item, now: Reading): Secret {
    Secret(ownerId, item.(createdAt := if item.createdAt == ZERO_TIME then now.created else item.createdAt,
                          updatedAt := if item.updatedAt == ZERO_TIME then now.updated else item.updatedAt))
  }

  function FilledAll(ownerId: string, items: seq<Item>, clock: Clock): (rows: seq<Secret>)
    requires |clock| == |items|
    ensures |rows| == |items|
    ensures forall i :: 0 <= i < |items| ==>
              rows[i] == Filled(ownerId, items[i], clock[i])
  {
    if items == [] then []
    else
      var n := |items| - 1;
      FilledAll(ownerId, items[..n], clock[..n]) + [Filled(ownerId, items[n], clock[n])]
  }

  /** The table after a sequence of upserts. */
  function UpsertAll(t: Table, rows: seq<Secret>): Table {
    if rows == [] then t else UpsertRow(UpsertAll(t, rows[..|rows| - 1]), rows[|rows| - 1])
  }

  /** Item `i` gets through: it passes the checks and the store does not fail on it. */
  predicate Passes(item: Item, i: nat, fault: Option<nat>) {
    Pushable(item) && fault != Some(i)
  }

  /** A push of the items from `lo` to `hi` gets past exactly those before the first that does not pass. */
  ghost predicate StopsAt(items: seq<Item>, fault: Option<nat>, lo: nat, hi: nat, stop: nat)
    requires hi <= |items|
  {
    && lo <= stop <= hi
    && (forall j :: lo <= j < stop ==> Passes(items[j], j, fault))
    && (stop < hi ==> !Passes(items[stop], stop, fault))
  }

  /** The stretches of a push in two parts. */
  lemma StopsInTwo(items: seq<Item>, fault: Option<nat>, k: nat, mid: nat, stop: nat)
    requires k <= |items| && StopsAt(items, fault, 0, k, mid)
    requires if mid == k then StopsAt(items, fault, k, |items|, stop) else stop == mid
    ensures StopsAt(items, fault, 0, |items|, stop)
  {
  }

  function StopError(item: Item): SyncError {
    if Check(item).Some? then Check(item).value else StoreFailed
  }

  class SyncServiceImpl {
    const store: PostgresSecretStore

    constructor (store: PostgresSecretStore)
      ensures this.store == store
    {
      this.store := store;
    }

    /** One turn of the push loop; `up` says whether the store takes the row. */
    method PushItem(ownerId: string, item: Item, now: Reading, up: bool)
        returns (error: Option<SyncError>)
      requires store.Valid()
      modifies store
      ensures store.Valid()
      ensures error == if Pushable(item) && up then None else Some(StopError(item))
      ensures error == Some(InvalidID) <==> Blank(item.id)
      ensures error == Some(InvalidType) <==> !Blank(item.id) && !item.deleted && Blank(item.typ)
      ensures error == Some(StoreFailed) <==> Sendable(item) && !up
      ensures store.table == if error.Some? then old(store.table)
                             else UpsertRow(old(store.table), Filled(ownerId, item, now))
      // a new row is the pusher's, with the server's clock where it has no time
      ensures error.None? && item.id !in old(store.table) ==>
        item.id in store.table && store.table[item.id] == Secret(ownerId, item.(
          createdAt := if item.createdAt == 0 then now.created else item.createdAt,
          updatedAt := if item.updatedAt == 0 then now.updated else item.updatedAt))
    {
      CheckMeans(item);
      if TrimSpace(item.id) == "" {
        return Some(InvalidID);
      }
      if !item.deleted && TrimSpace(item.typ) == "" {
        return Some(InvalidType);
      }
      var row := item;
      if row.createdAt == ZERO_TIME {
        row := row.(createdAt := now.created);
      }
      if row.updatedAt == ZERO_TIME {
        row := row.(updatedAt := now.updated);
      }
      var stored := store.Upsert(Secret(ownerId, row), up);
      error := if stored.Failure? then Some(StoreFailed) else None;
    }

    /** The push loop over the items from `lo` to `hi`; `fault` is the item the store fails on. */
    method PushRange(ownerId: string, items: seq<Item>, lo: nat, hi: nat, clock: Clock, fault: Option<nat>)
        returns (stop: nat, error: Option<SyncError>)
      requires store.Valid() && lo <= hi <= |items| == |clock|
      modifies store
      ensures store.Valid()
      ensures StopsAt(items, fault, lo, hi, stop)
      ensures error == if stop == hi then None else Some(StopError(items[stop]))
      ensures store.table == UpsertAll(old(store.table), FilledAll(ownerId, items, clock)[lo..stop])
    {
      hide Pushable, StopError, UpsertRow, Filled;
      ghost var applied: seq<Secret> := [];
      stop, error := lo, None;
      while stop < hi && error.None?
        invariant lo <= stop <= hi && |applied| == stop - lo && store.Valid()
        invariant forall j :: lo <= j < stop ==> Passes(items[j], j, fault)
        invariant forall j :: 0 <= j < |applied| ==> applied[j] == Filled(ownerId, items[lo + j], clock[lo + j])
        invariant error.Some? ==> stop < hi && !Passes(items[stop], stop, fault) && error.value == StopError(items[stop])
        invariant store.table == UpsertAll(old(store.table), applied)
        decreases hi - stop, error.None?
      {
        error := PushItem(ownerId, items[stop], clock[stop], fault != Some(stop));
        if error.None? {
          UpsertAllMore(old(store.table), applied, Filled(ownerId, items[stop], clock[stop]));
          applied := applied + [Filled(ownerId, items[stop], clock[stop])];
          stop := stop + 1;
        }
      }
      assert applied == FilledAll(ownerId, items, clock)[lo..stop];
    }

    /** Stops at the first bad item; the rows already applied stay. */
    method Push(ownerId: string, items: seq<Item>, clock: Clock, fault: Option<nat>)
        returns (r: Result<nat, SyncError>, ghost stop: nat)
      requires store.Valid() && |clock| == |items|
      modifies store
      ensures store.Valid()
      ensures StopsAt(items, fault, 0, |items|, stop)
      ensures store.table == UpsertAll(old(store.table), FilledAll(ownerId, items, clock)[..stop])
      ensures r == if stop == |items| then Success(|items|) else Failure(StopError(items[stop]))
      // which item stops it, and why
      ensures forall j :: 0 <= j < stop ==> Sendable(items[j]) && fault != Some(j)
      ensures stop < |items| ==>
        && (r.error == InvalidID <==> Blank(items[stop].id))
        && (r.error == InvalidType <==> !Blank(items[stop].id) && !items[stop].deleted && Blank(items[stop].typ))
        && (r.error == StoreFailed <==> Sendable(items[stop]) && fault == Some(stop))
    {
      var applied, error := PushRange(ownerId, items, 0, |items|, clock, fault);
      stop := applied;
      r := if error.Some? then Failure(error.value) else Success(applied);
      forall j | 0 <= j < |items| ensures Pushable(items[j]) <==> Sendable(items[j]) {
        CheckMeans(items[j]);
      }
      if stop < |items| {
        CheckMeans(items[stop]);
      }
    }

    method Pull(ownerId: string, since: Time, up: bool) returns (r: Result<seq<Item>, StoreError>)
      requires store.Valid()
      ensures if up then r.Success? else r == Failure(Unavailable)
      ensures up ==> Lists(r.value, UpdatedSince(store.table, ownerId, since)) && OldestFirst(r.value)
      ensures up ==> forall item :: item in r.value <==>
                item.id in store.table && store.table[item.id] == Secret(ownerId, item) && item.updatedAt > since
    {
      r := store.ListUpdatedSince(ownerId, since, up);
    }
  }

  // --- Laws of upsert sequences --------------------------------------------------------------

  lemma UpsertAllMore(t: Table, rows: seq<Secret>, s: Secret)
    ensures UpsertAll(t, rows + [s]) == UpsertRow(UpsertAll(t, rows), s)
  {
    assert (rows + [s])[..|rows|] == rows;
  }

  lemma {:induction false} UpsertAllAppend(t: Table, a: seq<Secret>, b: seq<Secret>)
    ensures UpsertAll(t, a + b) == UpsertAll(UpsertAll(t, a), b)
  {
    if b == [] {
      assert a + b == a;
    } else {
      var b' := b[..|b| - 1];
      assert (a + b)[..|a + b| - 1] == a + b';
      UpsertAllAppend(t, a, b');
    }
  }

  lemma UpsertNone(t: Table, rows: seq<Secret>)
    requires |rows| == 0
    ensures UpsertAll(t, rows) == t
  {
  }

  lemma UpsertPrefix(t: Table, rows: seq<Secret>, k: nat, n: nat)
    requires k <= n <= |rows|
    ensures UpsertAll(UpsertAll(t, rows[..k]), rows[k..n]) == UpsertAll(t, rows[..n])
  {
    assert rows[..n] == rows[..k] + rows[k..n];
    UpsertAllAppend(t, rows[..k], rows[k..n]);
  }

  /** A sequence of upserts may be cut in two. */
  lemma UpsertInTwo(t: Table, rows: seq<Secret>, k: nat)
    requires k <= |rows|
    ensures rows[0..k] == rows[..k]
    ensures UpsertAll(UpsertAll(t, rows[0..k]), rows[k..|rows|]) == UpsertAll(t, rows)
  {
    assert rows[0..k] == rows[..k] && rows[k..|rows|] == rows[k..];
    assert rows == rows[..k] + rows[k..];
    UpsertAllAppend(t, rows[..k], rows[k..]);
  }

  /** Upserts keep every id with its owner and never move a time back. */
  ghost predicate Advances(t: Table, u: Table) {
    forall x :: x in t ==>
      x in u && u[x].ownerId == t[x].ownerId && t[x].item.updatedAt <= u[x].item.updatedAt
  }

  lemma {:induction false} UpsertAllAdvances(t: Table, rows: seq<Secret>)
    ensures Advances(t, UpsertAll(t, rows))
    ensures WellKeyed(t) ==> WellKeyed(UpsertAll(t, rows))
  {
    if rows == [] {
    } else {
      UpsertAllAdvances(t, rows[..|rows| - 1]);
    }
  }

  // --- What a push means ---------------------------------------------------------------------

  /** The rows of `rows` for id `x`, in order. */
  function ForId(rows: seq<Secret>, x: string): (sub: seq<Secret>)
    ensures forall s :: s in sub <==> s in rows && s.item.id == x
  {
    if rows == [] then []
    else
      var last := rows[|rows| - 1];
      ForId(rows[..|rows| - 1], x) + (if last.item.id == x then [last] else [])
  }

  /** The existing row of `x`, if any, followed by the pushed ones. */
  function Candidates(t: Table, rows: seq<Secret>, x: string): seq<Secret> {
    (if x in t then [t[x]] else []) + ForId(rows, x)
  }

  ghost predicate FirstNewest(c: seq<Secret>, s: Secret) {
    exists i ::
      && 0 <= i < |c| && c[i] == s
      && (forall j :: 0 <= j < i ==> c[j].item.updatedAt < s.item.updatedAt)
      && (forall j :: i <= j < |c| ==> c[j].item.updatedAt <= s.item.updatedAt)
  }

  /** What a push may leave as the row of `x`: the first newest of its candidates if the id is the
      pusher's or new, the old row if it is another owner's. */
  ghost predicate Means(t: Table, u: Table, c: seq<Secret>, ownerId: string, x: string) {
    && (x in u <==> c != [])
    && (x in t && t[x].ownerId != ownerId ==> x in u && u[x] == t[x])
    && (x in u && (x in t ==> t[x].ownerId == ownerId) ==> u[x].ownerId == ownerId && FirstNewest(c, u[x]))
  }

  /** Whatever the order and the ties: after rows of one owner, an id of that owner or a new id holds
      the first newest of its existing and pushed rows, and an id of another owner its old row. */
  lemma {:induction false} PushMeaning(t: Table, rows: seq<Secret>, ownerId: string, x: string)
    requires forall i :: 0 <= i < |rows| && rows[i].item.id == x ==> rows[i].ownerId == ownerId
    ensures Means(t, UpsertAll(t, rows), Candidates(t, rows, x), ownerId, x)
  {
    if rows == [] {
      if x in t {
        assert Candidates(t, rows, x)[0] == t[x];
      }
    } else {
      var init, last := rows[..|rows| - 1], rows[|rows| - 1];
      PushMeaning(t, init, ownerId, x);
      if last.item.id == x {
        assert Candidates(t, rows, x) == Candidates(t, init, x) + [last];
        MeansOneMore(t, UpsertAll(t, init), Candidates(t, init, x), last, ownerId);
      } else {
        assert Candidates(t, rows, x) == Candidates(t, init, x);
      }
    }
  }

  lemma MeansOneMore(t: Table, v: Table, c: seq<Secret>, last: Secret, ownerId: string)
    requires Means(t, v, c, ownerId, last.item.id) && last.ownerId == ownerId
    ensures Means(t, UpsertRow(v, last), c + [last], ownerId, last.item.id)
  {
    var x := last.item.id;
    if x in t ==> t[x].ownerId == ownerId {
      NewestAfter(c, last, x in v, if x in v then v[x] else last, UpsertRow(v, last)[x]);
    }
  }

  /** One more candidate replaces the first newest only when it is strictly newer. */
  lemma NewestAfter(c: seq<Secret>, last: Secret, any: bool, before: Secret, after: Secret)
    requires any <==> c != []
    requires any ==> FirstNewest(c, before)
    requires after == if any && last.item.updatedAt <= before.item.updatedAt then before else last
    ensures FirstNewest(c + [last], after)
  {
    var d := c + [last];
    if any && last.item.updatedAt <= before.item.updatedAt {
      var i :| && 0 <= i < |c| && c[i] == before
               && (forall j :: 0 <= j < i ==> c[j].item.updatedAt < before.item.updatedAt)
               && (forall j :: i <= j < |c| ==> c[j].item.updatedAt <= before.item.updatedAt);
      assert d[i] == after;
    } else {
      assert d[|c|] == after;
      assert forall j :: 0 <= j < |c| ==> c[j].item.updatedAt < last.item.updatedAt;
    }
  }
}
