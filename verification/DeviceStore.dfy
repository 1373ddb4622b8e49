/** The device's table of secrets with its dirty bits. */
module DeviceStore {
  import opened Records
  import opened SecretStore

  type Rows = map<string, LocalRow>

  // --- What each statement does to the table -------------------------------------------------

  /** An item as the table keeps it: whole seconds, and a type for an untyped tombstone. */
  function Stored(item: Item): Item {
    item.(typ := if item.deleted && item.typ == "" then "deleted" else item.typ,
          createdAt := Trunc(item.createdAt),
          updatedAt := Trunc(item.updatedAt))
  }

  function UpsertLocal(rows: Rows, item: Item, dirty: bool): Rows {
    rows[item.id := LocalRow(Stored(item), dirty)]
  }

  /** A remote item wins when the id is new or its time is strictly after the stored one. */
  predicate RemoteWins(rows: Rows, item: Item) {
    item.id in rows ==> item.updatedAt > rows[item.id].item.updatedAt
  }

  function ApplyOne(rows: Rows, item: Item): Rows {
    if RemoteWins(rows, item) then UpsertLocal(rows, item, false) else rows
  }

  function ApplyAll(rows: Rows, items: seq<Item>): Rows {
    if items == [] then rows else ApplyOne(ApplyAll(rows, items[..|items| - 1]), items[|items| - 1])
  }

  function CleanRows(rows: Rows, ids: set<string>): Rows {
    map x | x in rows :: if x in ids then rows[x].(dirty := false) else rows[x]
  }

  function DirtyIds(rows: Rows): set<string> {
    set x | x in rows && rows[x].dirty
  }

  function DirtyItems(rows: Rows): map<string, Item> {
    map x | x in rows && rows[x].dirty :: rows[x].item
  }

  function LocalItems(rows: Rows): map<string, Item> {
    map x | x in rows :: rows[x].item
  }

  /** Rows sit under their own ids and are as the table stores them. */
  ghost predicate RowsOk(rows: Rows) {
    forall x :: x in rows ==> rows[x].item.id == x && Stored(rows[x].item) == rows[x].item
  }

  /** `kept` is `item` as a device keeps it: every field as it is, but the times in whole seconds and a type
      for an untyped tombstone. */
  predicate Keeps(kept: Item, item: Item) {
    && kept.id == item.id && kept.payload == item.payload && kept.meta == item.meta && kept.deleted == item.deleted
    && kept.typ == (if item.deleted && item.typ == "" then "deleted" else item.typ)
    && kept.createdAt % 1_000_000_000 == 0 && kept.createdAt <= item.createdAt < kept.createdAt + 1_000_000_000
    && kept.updatedAt % 1_000_000_000 == 0 && kept.updatedAt <= item.updatedAt < kept.updatedAt + 1_000_000_000
  }

  lemma StoredKeeps(item: Item)
    ensures Keeps(Stored(item), item)
  {
  }

  lemma StoredTwice(item: Item)
    ensures Stored(Stored(item)) == Stored(item)
    ensures Whole(Stored(item).createdAt) && Whole(Stored(item).updatedAt)
  {
  }

  /** What an applied item leaves under its id: it wins where the id is new or the stored time is older. */
  predicate AppliedAt(before: Rows, after: Rows, item: Item) {
    && item.id in after
    && (if item.id in before && before[item.id].item.updatedAt >= item.updatedAt then after[item.id] == before[item.id]
        else !after[item.id].dirty && Keeps(after[item.id].item, item))
  }

  /** Every row of another id is as it was. */
  ghost predicate Untouched(before: Rows, after: Rows, items: seq<Item>) {
    && before.Keys <= after.Keys
    && forall x :: x in after && (forall i :: 0 <= i < |items| ==> items[i].id != x) ==> x in before && after[x] == before[x]
  }

  /** What applying items leaves everywhere, as long as their ids are distinct. */
  ghost predicate Applied(before: Rows, after: Rows, items: seq<Item>) {
    && Untouched(before, after, items)
    && (DistinctIds(items) ==> forall i :: 0 <= i < |items| ==> AppliedAt(before, after, items[i]))
  }

  lemma {:induction false} AppliedEverywhere(rows: Rows, items: seq<Item>)
    ensures Applied(rows, ApplyAll(rows, items), items)
  {
    if items == [] {
    } else {
      var n := |items| - 1;
      AppliedEverywhere(rows, items[..n]);
      UntouchedOneMore(rows, ApplyAll(rows, items[..n]), items[..n], items[n]);
      AppliedOneMore(rows, ApplyAll(rows, items[..n]), items[..n], items[n]);
      assert items[..n] + [items[n]] == items;
    }
  }

  lemma UntouchedOneMore(before: Rows, after: Rows, items: seq<Item>, item: Item)
    requires Untouched(before, after, items)
    ensures Untouched(before, ApplyOne(after, item), items + [item])
  {
    var more := items + [item];
    assert more[|items|] == item && forall i :: 0 <= i < |items| ==> more[i] == items[i];
  }

  lemma AppliedOneMore(before: Rows, after: Rows, items: seq<Item>, item: Item)
    requires Applied(before, after, items)
    ensures DistinctIds(items + [item]) ==>
              forall i :: 0 <= i <= |items| ==> AppliedAt(before, ApplyOne(after, item), (items + [item])[i])
  {
    hide Keeps, Stored;
    StoredKeeps(item);
    var more, after' := items + [item], ApplyOne(after, item);
    assert more[|items|] == item && forall i :: 0 <= i < |items| ==> more[i] == items[i];
    if DistinctIds(more) {
      assert forall i :: 0 <= i < |items| ==> items[i].id != item.id;
      assert AppliedAt(before, after', item);
      forall i | 0 <= i < |items| ensures AppliedAt(before, after', more[i]) {
        assert AppliedAt(before, after, items[i]);
      }
    }
  }

  /** The first `n` items can each be read, and written if they win. */
  ghost predicate GoesThrough(rows: Rows, items: seq<Item>, n: nat, canRead: nat -> bool, canWrite: nat -> bool)
    requires n <= |items|
  {
    forall i :: 0 <= i < n ==> canRead(i) && (canWrite(i) || !RemoteWins(ApplyAll(rows, items[..i]), items[i]))
  }

  lemma OneGoesThrough(rows: Rows, items: seq<Item>, n: nat, canRead: nat -> bool, canWrite: nat -> bool)
    requires n <= |items|
    ensures n == 0 ==> GoesThrough(rows, items, n, canRead, canWrite)
    ensures n < |items| && GoesThrough(rows, items, n, canRead, canWrite) && canRead(n)
            && (canWrite(n) || !RemoteWins(ApplyAll(rows, items[..n]), items[n]))
            ==> GoesThrough(rows, items, n + 1, canRead, canWrite)
  {
  }

  // --- The table as the source keeps it ------------------------------------------------------

  /** `up` says whether the database answers; when it does not, nothing changes. */
  class LocalStore {
    var rows: Rows

    ghost predicate Valid()
      reads this
    {
      RowsOk(rows)
    }

    constructor ()
      ensures Valid() && rows == map[]
    {
      rows := map[];
    }

    method Upsert(item: Item, dirty: bool, up: bool) returns (r: Result<(), StoreError>)
      requires Valid()
      modifies this
      ensures Valid()
      ensures rows == if up then UpsertLocal(old(rows), item, dirty) else old(rows)
      ensures r == if up then Success(()) else Failure(Unavailable)
      ensures up ==> rows.Keys == old(rows).Keys + {item.id} && forall x :: x in old(rows) && x != item.id ==> rows[x] == old(rows)[x]
      ensures up ==> rows[item.id].dirty == dirty && Keeps(rows[item.id].item, item)
    {
      var row := item;
      if row.deleted && row.typ == "" {
        row := row.(typ := "deleted");
      }
      if !up {
        return Failure(Unavailable);
      }
      StoredTwice(item);
      StoredKeeps(item);
      row := row.(createdAt := Trunc(row.createdAt), updatedAt := Trunc(row.updatedAt));
      rows := rows[row.id := LocalRow(row, dirty)];
      r := Success(());
    }

    method Get(id: string, up: bool) returns (r: Result<Item, StoreError>)
      requires Valid()
      ensures r == if !up then Failure(Unavailable)
                   else if id in rows then Success(rows[id].item) else Failure(NotFound)
      ensures r.Success? ==> r.value.id == id
    {
      if !up {
        return Failure(Unavailable);
      }
      if id !in rows {
        return Failure(NotFound);
      }
      r := Success(rows[id].item);
    }

    /** Every dirty row once, oldest first. */
    method ListDirty(up: bool) returns (r: Result<seq<Item>, StoreError>)
      requires Valid()
      ensures if up then r.Success? else r == Failure(Unavailable)
      ensures up ==> Lists(r.value, DirtyItems(rows)) && OldestFirst(r.value)
      ensures up ==> forall item :: item in r.value <==> item.id in rows && rows[item.id] == LocalRow(item, true)
    {
      if !up {
        return Failure(Unavailable);
      }
      var items := SelectOldestFirst(DirtyItems(rows));
      ListedItems(items, DirtyItems(rows));
      r := Success(items);
    }

    method MarkClean(ids: seq<string>, up: bool) returns (r: Result<(), StoreError>)
      requires Valid()
      modifies this
      ensures Valid()
      ensures r == if ids == [] || up then Success(()) else Failure(Unavailable)
      ensures rows == if r.Success? then CleanRows(old(rows), set x | x in ids) else old(rows)
      ensures r.Success? ==> rows.Keys == old(rows).Keys && forall x :: x in rows ==>
                rows[x].item == old(rows)[x].item && (rows[x].dirty <==> old(rows)[x].dirty && x !in ids)
    {
      if ids == [] {
        assert CleanRows(rows, set x | x in ids) == rows;
        return Success(());
      }
      if !up {
        return Failure(Unavailable);
      }
      rows := map x | x in rows :: if x in ids then rows[x].(dirty := false) else rows[x];
      r := Success(());
    }

    /** Applies the items in order up to the first on which a statement fails; `canRead` and `canWrite`
        say on which items the database answers. */
    method ApplyRemote(items: seq<Item>, canRead: nat -> bool, canWrite: nat -> bool)
        returns (r: Result<(), StoreError>, ghost done: nat)
      requires Valid()
      modifies this
      ensures Valid()
      ensures done <= |items| && (r.Success? <==> done == |items|)
      ensures rows == ApplyAll(old(rows), items[..done])
      ensures r.Failure? ==> r.error == Unavailable
      ensures r.Failure? ==> !canRead(done) || (!canWrite(done) && RemoteWins(rows, items[done]))
      ensures GoesThrough(old(rows), items, done, canRead, canWrite)
      ensures Applied(old(rows), rows, items[..done])
    {
      hide Applied, UpsertLocal, Keeps, GoesThrough;
      assert GoesThrough(rows, items, 0, canRead, canWrite) by { OneGoesThrough(rows, items, 0, canRead, canWrite); }
      for i := 0 to |items|
        invariant Valid()
        invariant rows == ApplyAll(old(rows), items[..i])
        invariant GoesThrough(old(rows), items, i, canRead, canWrite)
      {
        done := i;
        var item := items[i];
        var local := Get(item.id, canRead(i));
        if local.Failure? && local.error != NotFound {
          AppliedEverywhere(old(rows), items[..i]);
          return Failure(local.error), done;
        }
        if local.Failure? || item.updatedAt > local.value.updatedAt {
          var stored := Upsert(item, false, canWrite(i));
          if stored.Failure? {
            AppliedEverywhere(old(rows), items[..i]);
            return Failure(stored.error), done;
          }
        }
        assert items[..i + 1][..i] == items[..i];
        OneGoesThrough(old(rows), items, i, canRead, canWrite);
      }
      AppliedEverywhere(old(rows), items[..|items|]);
      done := |items|;
      r := Success(());
    }
  }

  // --- Applying a pull is a merge ------------------------------------------------------------

  /** The newer of the local and the remote row, at every id at once. */
  function Merged(rows: Rows, remote: map<string, Item>): Rows {
    map x | x in rows.Keys + remote.Keys ::
      if x in remote && (x in rows ==> remote[x].updatedAt > rows[x].item.updatedAt)
      then LocalRow(Stored(remote[x]), false)
      else rows[x]
  }

  lemma MergedOneMore(rows: Rows, remote: map<string, Item>, item: Item)
    requires item.id !in remote
    ensures Merged(rows, remote[item.id := item]) == ApplyOne(Merged(rows, remote), item)
  {
  }

  lemma MergedNothing(rows: Rows)
    ensures Merged(rows, map[]) == rows
  {
  }

  lemma ListsOneLess(items: seq<Item>, remote: map<string, Item>)
    requires Lists(items, remote) && items != []
    ensures Lists(items[..|items| - 1], remote - {items[|items| - 1].id})
  {
  }

  /** Applying the rows of a pull one by one, in whatever order they come, is that merge. */
  lemma {:induction false} ApplyAllMerges(rows: Rows, items: seq<Item>, remote: map<string, Item>)
    requires Lists(items, remote)
    ensures ApplyAll(rows, items) == Merged(rows, remote)
  {
    hide Merged, ApplyOne;
    if items == [] {
      assert remote == map[];
      MergedNothing(rows);
    } else {
      var n := |items| - 1;
      var less := remote - {items[n].id};
      ListsOneLess(items, remote);
      ApplyAllMerges(rows, items[..n], less);
      MergedOneMore(rows, less, items[n]);
      assert less[items[n].id := items[n]] == remote;
    }
  }

  /** A merge sets no dirty bit, moves no stored time back and keeps every row; a second merge of the
      same rows changes nothing, also when the remote times have fractions of a second. */
  lemma MergeLaws(rows: Rows, remote: map<string, Item>)
    requires RowsOk(rows) && forall x :: x in remote ==> remote[x].id == x
    ensures var m := Merged(rows, remote);
            && RowsOk(m)
            && DirtyIds(m) <= DirtyIds(rows)
            && (forall x :: x in rows ==> x in m && rows[x].item.updatedAt <= m[x].item.updatedAt)
            && Merged(m, remote) == m
  {
    var m := Merged(rows, remote);
    forall x | x in m ensures m[x].item.id == x && Stored(m[x].item) == m[x].item {
      if x in remote { StoredTwice(remote[x]); }
    }
    forall x | x in rows ensures rows[x].item.updatedAt <= m[x].item.updatedAt {
      if m[x] != rows[x] {
        TruncMonotone(rows[x].item.updatedAt, remote[x].updatedAt);
      }
    }
  }
}
