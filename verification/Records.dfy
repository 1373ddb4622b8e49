/** Values shared by the client and the server: times, items, stored secrets. */
module Records {

  datatype Option<+T> = None | Some(value: T)

  datatype Result<+T, +E> = Success(value: T) | Failure(error: E)

  /** How a stored table or file can refuse a caller. */
  datatype StoreError = NotFound | Conflict | Unavailable

  /** Nanoseconds since the zero time of the language's clock. */
  type Time = nat

  const SECOND: nat := 1_000_000_000
  const ZERO_TIME: Time := 0

  /** Formatting as a date-time of section 5.6 of RFC 3339 without a fraction, then parsing it back. */
  function Trunc(t: Time): Time {
    t - t % SECOND
  }

  predicate Whole(t: Time) {
    t % SECOND == 0
  }

  lemma TruncMonotone(a: Time, b: Time)
    requires a <= b
    ensures Trunc(a) <= Trunc(b) <= b
  {
  }

  newtype byte = b: int | 0 <= b < 0x100

  type Bytes = seq<byte>

  /** One secret as the client stores it and as it travels in a push or a pull. */
  datatype Item = Item(
    id: string,
    typ: string,
    payload: Bytes,
    meta: map<string, string>,
    deleted: bool,
    createdAt: Time,
    updatedAt: Time
  )

  predicate SameStamp(a: Item, b: Item) {
    a.id == b.id && a.updatedAt == b.updatedAt
  }

  /** A row of the server's table: an item with its owner. */
  datatype Secret = Secret(ownerId: string, item: Item)

  /** A row of the device's table: an item with its dirty bit. */
  datatype LocalRow = LocalRow(item: Item, dirty: bool)

  ghost predicate DistinctIds(items: seq<Item>) {
    forall i, j :: 0 <= i < j < |items| ==> items[i].id != items[j].id
  }

  function Ids(items: seq<Item>): (ids: set<string>)
    ensures forall i :: 0 <= i < |items| ==> items[i].id in ids
    ensures forall x :: x in ids ==> exists i :: 0 <= i < |items| && items[i].id == x
  {
    set i | 0 <= i < |items| :: items[i].id
  }

  ghost predicate OldestFirst(items: seq<Item>) {
    forall i, j :: 0 <= i < j < |items| ==> items[i].updatedAt <= items[j].updatedAt
  }
}
