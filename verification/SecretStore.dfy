/** The server's table of secrets: one guarded statement per operation. */
module SecretStore {
  import opened Records

  type Table = map<string, Secret>

  // --- What each statement does to the table -------------------------------------------------

  /** The guard of the upsert: a new id, or the same owner with a strictly newer time. */
  predicate Accepts(t: Table, s: Secret) {
    s.item.id in t ==>
      t[s.item.id].ownerId == s.ownerId && t[s.item.id].item.updatedAt < s.item.updatedAt
  }

  function UpsertRow(t: Table, s: Secret): Table {
    if Accepts(t, s) then t[s.item.id := s] else t
  }

  /** Live rows are the ones the owner can see and change one by one. */
  predicate Live(t: Table, ownerId: string, id: string) {
    id in t && t[id].ownerId == ownerId && !t[id].item.deleted
  }

  /** What an update keeps of the old row: its creation time and its deleted mark. */
  function Updated(row: Secret, s: Secret): Secret {
    Secret(row.ownerId, row.item.(typ := s.item.typ, payload := s.item.payload,
                                  meta := s.item.meta, updatedAt := s.item.updatedAt))
  }

  function Tombstoned(row: Secret, now: Time): Secret {
    Secret(row.ownerId, row.item.(deleted := true, updatedAt := now))
  }

  /** A table whose rows are stored under their own ids. */
  ghost predicate WellKeyed(t: Table) {
    forall x :: x in t ==> t[x].item.id == x
  }

  /** The items a pull of `ownerId` selects, tombstones included. */
  function UpdatedSince(t: Table, ownerId: string, since: Time): map<string, Item> {
    map x | x in t && t[x].ownerId == ownerId && t[x].item.updatedAt > since :: t[x].item
  }

  function OwnedItems(t: Table, ownerId: string): map<string, Item> {
    map x | x in t && t[x].ownerId == ownerId :: t[x].item
  }

  ghost predicate IsOldest(selected: map<string, Item>, keys: set<string>, x: string)
    requires keys <= selected.Keys
  {
    x in keys && forall y :: y in keys ==> selected[x].updatedAt <= selected[y].updatedAt
  }

  lemma OldestExists(selected: map<string, Item>, keys: set<string>)
    requires keys <= selected.Keys && keys != {}
    ensures exists x :: IsOldest(selected, keys, x)
    decreases |keys|
  {
    var k :| k in keys;
    var rest := keys - {k};
    if rest == {} {
      assert forall y :: y in keys && y != k ==> y in rest;
      assert IsOldest(selected, keys, k);
    } else {
      OldestExists(selected, rest);
      var x :| IsOldest(selected, rest, x);
      assert forall y :: y in keys && y != k ==> y in rest;
      assert IsOldest(selected, keys, if selected[k].updatedAt < selected[x].updatedAt then k else x);
    }
  }

  /** Each item selected under a key outside `rest`, once, in some order. */
  ghost predicate ListsAllBut(items: seq<Item>, selected: map<string, Item>, rest: set<string>) {
    && DistinctIds(items)
    && (forall i :: 0 <= i < |items| ==>
          items[i].id in selected && items[i].id !in rest && selected[items[i].id] == items[i])
    && (forall x :: x in selected && x !in rest ==> exists i :: 0 <= i < |items| && items[i].id == x)
  }

  /** A query result: each selected item once, in some order. */
  ghost predicate Lists(items: seq<Item>, selected: map<string, Item>) {
    ListsAllBut(items, selected, {})
  }

  /** Exactly the selected items are listed. */
  lemma ListedItems(items: seq<Item>, selected: map<string, Item>)
    requires Lists(items, selected)
    ensures forall item :: item in items <==> item.id in selected && selected[item.id] == item
  {
    forall item: Item | item.id in selected && selected[item.id] == item ensures item in items {
      var i :| 0 <= i < |items| && items[i].id == item.id;
    }
  }

  lemma ListsOneMore(items: seq<Item>, selected: map<string, Item>, rest: set<string>, k: string)
    requires ListsAllBut(items, selected, rest) && k in rest && k in selected && selected[k].id == k
    ensures ListsAllBut(items + [selected[k]], selected, rest - {k})
  {
    var more := items + [selected[k]];
    assert more[|items|].id == k;
    forall x | x in selected && x !in rest - {k} ensures exists i :: 0 <= i < |more| && more[i].id == x {
      if x != k {
        var i :| 0 <= i < |items| && items[i].id == x;
        assert more[i].id == x;
      }
    }
  }

  /** The items are in order, and none is newer than what is still to come. */
  ghost predicate OldestSoFar(items: seq<Item>, selected: map<string, Item>, rest: set<string>)
    requires rest <= selected.Keys
  {
    OldestFirst(items) && forall i, x :: 0 <= i < |items| && x in rest ==> items[i].updatedAt <= selected[x].updatedAt
  }

  lemma OldestOneMore(items: seq<Item>, selected: map<string, Item>, rest: set<string>, k: string)
    requires rest <= selected.Keys && OldestSoFar(items, selected, rest) && IsOldest(selected, rest, k)
    ensures OldestSoFar(items + [selected[k]], selected, rest - {k})
  {
  }

  /** Reads a selection ordered by time: every selected item once, oldest first. */
  method SelectOldestFirst(selected: map<string, Item>) returns (items: seq<Item>)
    requires forall x :: x in selected ==> selected[x].id == x
    ensures Lists(items, selected) && OldestFirst(items)
  {
    items := [];
    var rest := selected.Keys;
    while rest != {}
      invariant rest <= selected.Keys
      invariant ListsAllBut(items, selected, rest) && OldestSoFar(items, selected, rest)
      decreases |rest|
    {
      OldestExists(selected, rest);
      var k :| k in rest && forall y :: y in rest ==> selected[k].updatedAt <= selected[y].updatedAt;
      ListsOneMore(items, selected, rest, k);
      OldestOneMore(items, selected, rest, k);
      items := items + [selected[k]];
      rest := rest - {k};
    }
  }

  // --- Runs of server operations -------------------------------------------------------------

  /** One statement issued by an owner; a push is a sequence of `Put`s. */
  datatype Operation =
    | Create(secret: Secret)
    | Change(secret: Secret)
    | Remove(ownerId: string, id: string, now: Time)
    | Put(secret: Secret)

  function Actor(op: Operation): string {
    match op
    case Create(s) => s.ownerId
    case Change(s) => s.ownerId
    case Remove(o, _, _) => o
    case Put(s) => s.ownerId
  }

  function Step(t: Table, op: Operation): Table {
    match op
    case Create(s) => if s.item.id in t then t else t[s.item.id := s]
    case Change(s) =>
      if Live(t, s.ownerId, s.item.id) then t[s.item.id := Updated(t[s.item.id], s)] else t
    case Remove(o, x, now) =>
      if Live(t, o, x) then t[x := Tombstoned(t[x], now)] else t
    case Put(s) => UpsertRow(t, s)
  }

  function Run(t: Table, ops: seq<Operation>): Table
    decreases |ops|
  {
    if ops == [] then t else Run(Step(t, ops[0]), ops[1..])
  }

  ghost predicate ActedBy(ops: seq<Operation>, ownerId: string) {
    forall i :: 0 <= i < |ops| ==> Actor(ops[i]) == ownerId
  }

  /** No run of any owners removes an id or hands an existing row to another owner. */
  lemma {:induction false} RunKeepsOwners(t: Table, ops: seq<Operation>)
    ensures forall x :: x in t ==> x in Run(t, ops) && Run(t, ops)[x].ownerId == t[x].ownerId
    decreases |ops|
  {
    if ops == [] {
    } else {
      RunKeepsOwners(Step(t, ops[0]), ops[1..]);
    }
  }

  /** A run of one owner leaves the rows of every other owner exactly as they were, and makes none. */
  lemma {:induction false} RunFrame(t: Table, ops: seq<Operation>, ownerId: string)
    requires ActedBy(ops, ownerId)
    ensures forall x :: x in Run(t, ops) && Run(t, ops)[x].ownerId != ownerId ==> x in t
    ensures forall x :: x in t && t[x].ownerId != ownerId ==> x in Run(t, ops) && Run(t, ops)[x] == t[x]
    decreases |ops|
  {
    if ops == [] {
    } else {
      assert Actor(ops[0]) == ownerId;
      RunFrame(Step(t, ops[0]), ops[1..], ownerId);
      RunKeepsOwners(Step(t, ops[0]), ops[1..]);
    }
  }

  /** A live upsert of `x` that is strictly newer than `after`. */
  predicate Revives(op: Operation, x: string, ownerId: string, after: Time) {
    op.Put? && op.secret.item.id == x && op.secret.ownerId == ownerId
    && !op.secret.item.deleted && op.secret.item.updatedAt > after
  }

  /** A tombstone survives every run that has no strictly newer live upsert by its owner, and its
      time does not go back meanwhile. */
  lemma {:induction false} TombstoneStays(t: Table, ops: seq<Operation>, x: string)
    requires x in t && t[x].item.deleted
    requires forall i :: 0 <= i < |ops| ==> !Revives(ops[i], x, t[x].ownerId, t[x].item.updatedAt)
    ensures x in Run(t, ops) && Run(t, ops)[x].item.deleted
    ensures Run(t, ops)[x].item.updatedAt >= t[x].item.updatedAt
    decreases |ops|
  {
    if ops == [] {
    } else {
      var u := Step(t, ops[0]);
      assert !Revives(ops[0], x, t[x].ownerId, t[x].item.updatedAt);
      assert u[x].item.deleted && u[x].item.updatedAt >= t[x].item.updatedAt && u[x].ownerId == t[x].ownerId;
      forall i | 0 <= i < |ops[1..]| ensures !Revives(ops[1..][i], x, u[x].ownerId, u[x].item.updatedAt) {
        assert ops[1..][i] == ops[i + 1];
      }
      TombstoneStays(u, ops[1..], x);
    }
  }

  // --- The table as the source keeps it ------------------------------------------------------

  /** `up` says whether the database answers; when it does not, nothing changes. */
  class PostgresSecretStore {
    var table: Table

    ghost predicate Valid()
      reads this
    {
      WellKeyed(table)
    }

    constructor ()
      ensures Valid() && table == map[]
    {
      table := map[];
    }

    method Create(secret: Secret, up: bool) returns (r: Result<Secret, StoreError>)
      requires Valid()
      modifies this
      ensures Valid()
      ensures table == if up then Step(old(table), Operation.Create(secret)) else old(table)
      ensures r == if !up then Failure(Unavailable)
                   else if secret.item.id in old(table) then Failure(Conflict) else Success(secret)
      ensures table == if r.Success? then old(table)[secret.item.id := secret] else old(table)
    {
      if !up {
        return Failure(Unavailable);
      }
      if secret.item.id in table {
        return Failure(Conflict);
      }
      table := table[secret.item.id := secret];
      r := Success(secret);
    }

    method GetByID(ownerId: string, id: string, up: bool) returns (r: Result<Secret, StoreError>)
      requires Valid()
      ensures r == if !up then Failure(Unavailable)
                   else if Live(table, ownerId, id) then Success(table[id]) else Failure(NotFound)
      ensures r.Success? <==> up && id in table && table[id].ownerId == ownerId && !table[id].item.deleted
    {
      if !up {
        return Failure(Unavailable);
      }
      if !Live(table, ownerId, id) {
        return Failure(NotFound);
      }
      r := Success(table[id]);
    }

    /** The owner's live rows, newest first. */
    method ListByOwner(ownerId: string, up: bool) returns (r: Result<seq<Item>, StoreError>)
      requires Valid()
      ensures !up ==> r == Failure(Unavailable)
      ensures up ==> r.Success? && Lists(r.value,
                map x | x in table && table[x].ownerId == ownerId && !table[x].item.deleted :: table[x].item)
      ensures up ==> forall i, j :: 0 <= i < j < |r.value| ==> r.value[i].updatedAt >= r.value[j].updatedAt
    {
      if !up {
        return Failure(Unavailable);
      }
      var rows := SelectOldestFirst(map x | x in table && Live(table, ownerId, x) :: table[x].item);
      assert (map x | x in table && Live(table, ownerId, x) :: table[x].item)
          == map x | x in table && table[x].ownerId == ownerId && !table[x].item.deleted :: table[x].item;
      var items: seq<Item> := [];
      var i := |rows|;
      while i > 0
        invariant 0 <= i <= |rows| && |items| == |rows| - i
        invariant forall j :: 0 <= j < |items| ==> items[j] == rows[|rows| - 1 - j]
      {
        i := i - 1;
        items := items + [rows[i]];
      }
      assert forall j :: 0 <= j < |rows| ==> rows[j] == items[|rows| - 1 - j];
      r := Success(items);
    }

    method ListUpdatedSince(ownerId: string, since: Time, up: bool) returns (r: Result<seq<Item>, StoreError>)
      requires Valid()
      ensures !up ==> r == Failure(Unavailable)
      ensures up ==> r.Success? && Lists(r.value, UpdatedSince(table, ownerId, since)) && OldestFirst(r.value)
      ensures up ==> forall item :: item in r.value <==>
                item.id in table && table[item.id] == Secret(ownerId, item) && item.updatedAt > since
    {
      if !up {
        return Failure(Unavailable);
      }
      var items := SelectOldestFirst(UpdatedSince(table, ownerId, since));
      ListedItems(items, UpdatedSince(table, ownerId, since));
      r := Success(items);
    }

    method Update(secret: Secret, up: bool) returns (r: Result<Secret, StoreError>)
      requires Valid()
      modifies this
      ensures Valid()
      ensures table == if up then Step(old(table), Change(secret)) else old(table)
      ensures r == if !up then Failure(Unavailable)
                   else if Live(old(table), secret.ownerId, secret.item.id) then Success(secret)
                   else Failure(NotFound)
      ensures r.Success? <==>
        && up && secret.item.id in old(table) && old(table)[secret.item.id].ownerId == secret.ownerId
        && !old(table)[secret.item.id].item.deleted
      ensures r.Success? ==> table == old(table)[secret.item.id := Secret(secret.ownerId,
                secret.item.(createdAt := old(table)[secret.item.id].item.createdAt, deleted := false))]
    {
      if !up {
        return Failure(Unavailable);
      }
      if !Live(table, secret.ownerId, secret.item.id) {
        return Failure(NotFound);
      }
      table := table[secret.item.id := Updated(table[secret.item.id], secret)];
      r := Success(secret);
    }

    method Delete(ownerId: string, id: string, now: Time, up: bool) returns (r: Result<(), StoreError>)
      requires Valid()
      modifies this
      ensures Valid()
      ensures table == if up then Step(old(table), Remove(ownerId, id, now)) else old(table)
      ensures r == if !up then Failure(Unavailable)
                   else if Live(old(table), ownerId, id) then Success(()) else Failure(NotFound)
      ensures r.Success? <==> up && id in old(table) && old(table)[id].ownerId == ownerId && !old(table)[id].item.deleted
      ensures r.Success? ==>
        table == old(table)[id := Secret(ownerId, old(table)[id].item.(deleted := true, updatedAt := now))]
      // nobody reads the row one by one any more, and every later pull from before `now` brings the tombstone
      ensures r.Success? ==> !Live(table, ownerId, id)
      ensures r.Success? ==> forall since: Time :: since < now ==>
                id in UpdatedSince(table, ownerId, since) && UpdatedSince(table, ownerId, since)[id].deleted
    {
      if !up {
        return Failure(Unavailable);
      }
      if !Live(table, ownerId, id) {
        return Failure(NotFound);
      }
      table := table[id := Tombstoned(table[id], now)];
      r := Success(());
    }

    /** Succeeds also when the guard refuses the row: the caller is not told. */
    method Upsert(secret: Secret, up: bool) returns (r: Result<Secret, StoreError>)
      requires Valid()
      modifies this
      ensures Valid()
      ensures table == if up then UpsertRow(old(table), secret) else old(table)
      ensures table ==
              if up && (secret.item.id in old(table) ==>
                          old(table)[secret.item.id].ownerId == secret.ownerId
                          && old(table)[secret.item.id].item.updatedAt < secret.item.updatedAt)
              then old(table)[secret.item.id := secret] else old(table)
      ensures r == if up then Success(secret) else Failure(Unavailable)
    {
      if !up {
        return Failure(Unavailable);
      }
      if secret.item.id !in table {
        table := table[secret.item.id := secret];
      } else if table[secret.item.id].ownerId == secret.ownerId
                && table[secret.item.id].item.updatedAt < secret.item.updatedAt {
        table := table[secret.item.id := secret];
      }
      r := Success(secret);
    }
  }
}
