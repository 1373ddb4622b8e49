/** Retries, batching and order of pushes. */
module PushLaws {
  import opened Records
  import opened SecretStore
  import opened SyncService

  // --- Retry safety --------------------------------------------------------------------------

  /** A refused row stays refused, whatever else is upserted meanwhile. */
  lemma RefusedForGood(t: Table, u: Table, s: Secret)
    requires !Accepts(t, s) && Advances(t, u)
    ensures UpsertRow(u, s) == u
  {
  }

  /** The same rows up to the fields the upsert's guard does not look at. */
  ghost predicate SameStamps(rows: seq<Secret>, again: seq<Secret>) {
    |again| == |rows| && forall i :: 0 <= i < |rows| ==> SameRowStamp(rows[i], again[i])
  }

  predicate SameRowStamp(a: Secret, b: Secret) {
    a.ownerId == b.ownerId && SameStamp(a.item, b.item)
  }

  /** Rows pushed once, or newer ones in their place, make a second push of them change nothing. */
  lemma {:induction false} Absorbed(t: Table, rows: seq<Secret>, again: seq<Secret>, u: Table)
    requires SameStamps(rows, again) && Advances(UpsertAll(t, rows), u)
    ensures UpsertAll(u, again) == u
  {
    if rows == [] {
    } else {
      var n := |rows| - 1;
      assert Advances(UpsertAll(t, rows[..n]), UpsertAll(t, rows));
      Absorbed(t, rows[..n], again[..n], u);
      assert SameRowStamp(rows[n], again[n]);
      assert !Accepts(UpsertAll(t, rows), again[n]);
      RefusedForGood(UpsertAll(t, rows), u, again[n]);
    }
  }

  lemma RetryRows(t: Table, rows: seq<Secret>, again: seq<Secret>, n: nat, others: seq<Secret>)
    requires SameStamps(rows, again) && n <= |rows|
    ensures var u := UpsertAll(UpsertAll(t, rows[..n]), others);
            UpsertAll(u, again) == UpsertAll(u, again[n..])
  {
    var v := UpsertAll(t, rows[..n]);
    var u := UpsertAll(v, others);
    UpsertAllAdvances(v, others);
    Absorbed(t, rows[..n], again[..n], u);
    UpsertAllAppend(u, again[..n], again[n..]);
    assert again == again[..n] + again[n..];
  }

  /** A push cut short after `n` items, then any upserts of anybody, then the whole push again, has
      the effect of pushing only the items that were left. The clocks may differ. */
  lemma RetrySafe(t: Table, ownerId: string, items: seq<Item>, n: nat, first: Clock, second: Clock, others: seq<Secret>)
    requires n <= |items|
    requires |first| == |second| == |items|
    requires forall i :: 0 <= i < |items| ==> items[i].updatedAt != ZERO_TIME
    ensures var u := UpsertAll(UpsertAll(t, FilledAll(ownerId, items, first)[..n]), others);
            UpsertAll(u, FilledAll(ownerId, items, second)) == UpsertAll(u, FilledAll(ownerId, items, second)[n..])
  {
    SameStampsFilled(ownerId, items, first, second);
    RetryRows(t, FilledAll(ownerId, items, first), FilledAll(ownerId, items, second), n, others);
  }

  lemma SameStampsFilled(ownerId: string, items: seq<Item>, first: Clock, second: Clock)
    requires |first| == |second| == |items|
    requires forall i :: 0 <= i < |items| ==> items[i].updatedAt != ZERO_TIME
    ensures SameStamps(FilledAll(ownerId, items, first), FilledAll(ownerId, items, second))
  {
  }

  /** Repeating the push of one item right away is harmless exactly unless the item has no time of its
      own and the clock has moved on under a row of the same owner. */
  lemma RepeatExactly(t: Table, ownerId: string, item: Item, n1: Reading, n2: Reading)
    ensures var v := UpsertRow(t, Filled(ownerId, item, n1));
            UpsertRow(v, Filled(ownerId, item, n2)) == v
            <==> item.updatedAt != ZERO_TIME || v[item.id].ownerId != ownerId || n2.updated <= v[item.id].item.updatedAt
  {
  }

  // --- Order and batching --------------------------------------------------------------------

  function Flatten(batches: seq<seq<Secret>>): seq<Secret> {
    if batches == [] then [] else Flatten(batches[..|batches| - 1]) + batches[|batches| - 1]
  }

  function PushBatches(t: Table, batches: seq<seq<Secret>>): Table {
    if batches == [] then t else UpsertAll(PushBatches(t, batches[..|batches| - 1]), batches[|batches| - 1])
  }

  lemma {:induction false} BatchesAreOnePush(t: Table, batches: seq<seq<Secret>>)
    ensures PushBatches(t, batches) == UpsertAll(t, Flatten(batches))
  {
    if batches == [] {
    } else {
      var n := |batches| - 1;
      BatchesAreOnePush(t, batches[..n]);
      UpsertAllAppend(t, Flatten(batches[..n]), batches[n]);
    }
  }

  ghost predicate OneOwnerPerId(rows: seq<Secret>) {
    forall a, b :: a in rows && b in rows && a.item.id == b.item.id ==> a.ownerId == b.ownerId
  }

  /** An id, its owner and a time determine the row. */
  predicate NoTie(a: Secret, b: Secret) {
    SameRowStamp(a, b) ==> a == b
  }

  /** No ties among the pushed rows, nor with the rows already there. */
  ghost predicate TieFree(t: Table, rows: seq<Secret>) {
    && (forall a, b :: a in rows && b in rows ==> NoTie(a, b))
    && (forall a :: a in rows && a.item.id in t ==> NoTie(t[a.item.id], a))
  }

  /** However the same rows are ordered and cut into pushes, the table ends the same. */
  lemma OrderIndependence(t: Table, p: seq<seq<Secret>>, q: seq<seq<Secret>>)
    requires WellKeyed(t)
    requires multiset(Flatten(p)) == multiset(Flatten(q))
    requires OneOwnerPerId(Flatten(p)) && TieFree(t, Flatten(p))
    ensures PushBatches(t, p) == PushBatches(t, q)
  {
    BatchesAreOnePush(t, p);
    BatchesAreOnePush(t, q);
    SameElements(Flatten(p), Flatten(q));
    SameTable(t, Flatten(p), Flatten(q));
  }

  lemma SameElements(a: seq<Secret>, b: seq<Secret>)
    requires multiset(a) == multiset(b)
    ensures forall s :: s in a <==> s in b
  {
    forall s ensures s in a <==> s in b {
      assert s in a <==> s in multiset(a);
      assert s in b <==> s in multiset(b);
    }
  }

  lemma SameTable(t: Table, a: seq<Secret>, b: seq<Secret>)
    requires WellKeyed(t)
    requires forall s :: s in a <==> s in b
    requires OneOwnerPerId(a) && TieFree(t, a)
    ensures UpsertAll(t, a) == UpsertAll(t, b)
  {
    var u, v := UpsertAll(t, a), UpsertAll(t, b);
    forall x ensures x in u <==> x in v ensures x in u ==> u[x] == v[x] {
      SameRow(t, a, b, x);
    }
  }

  lemma SameRow(t: Table, a: seq<Secret>, b: seq<Secret>, x: string)
    requires WellKeyed(t)
    requires forall s :: s in a <==> s in b
    requires OneOwnerPerId(a) && TieFree(t, a)
    ensures x in UpsertAll(t, a) <==> x in UpsertAll(t, b)
    ensures x in UpsertAll(t, a) ==> UpsertAll(t, a)[x] == UpsertAll(t, b)[x]
  {
    if some :| some in a && some.item.id == x {
      PushMeaning(t, a, some.ownerId, x);
      PushMeaning(t, b, some.ownerId, x);
      assert some in Candidates(t, a, x) && some in Candidates(t, b, x);
      if x !in t || t[x].ownerId == some.ownerId {
        SameNewest(t, a, b, x, UpsertAll(t, a)[x], UpsertAll(t, b)[x]);
      }
    } else {
      NoneForId(t, a, x);
      NoneForId(t, b, x);
    }
  }

  lemma SameNewest(t: Table, a: seq<Secret>, b: seq<Secret>, x: string, r: Secret, s: Secret)
    requires WellKeyed(t) && TieFree(t, a)
    requires forall s :: s in a <==> s in b
    requires FirstNewest(Candidates(t, a, x), r) && FirstNewest(Candidates(t, b, x), s)
    requires r.ownerId == s.ownerId
    ensures r == s
  {
    NewestBounds(Candidates(t, a, x), r);
    NewestBounds(Candidates(t, b, x), s);
    assert r in Candidates(t, b, x) && s in Candidates(t, a, x);
    assert NoTie(r, s) || NoTie(s, r);
  }

  lemma NoneForId(t: Table, rows: seq<Secret>, x: string)
    requires forall s :: s in rows ==> s.item.id != x
    ensures x in UpsertAll(t, rows) <==> x in t
    ensures x in t ==> UpsertAll(t, rows)[x] == t[x]
  {
  }

  lemma NewestBounds(c: seq<Secret>, s: Secret)
    requires FirstNewest(c, s)
    ensures s in c && forall r :: r in c ==> r.item.updatedAt <= s.item.updatedAt
  {
  }

  /** Two rows that compete for one id: the one that comes first wins for good. */
  predicate Clash(t: Table, a: Secret, b: Secret) {
    && a != b && a.item.id == b.item.id
    && (if a.item.id in t then Accepts(t, a) && Accepts(t, b) && a.item.updatedAt == b.item.updatedAt
        else a.ownerId != b.ownerId || a.item.updatedAt == b.item.updatedAt)
  }

  /** The order of two upserts matters exactly when they clash: a tie, or two owners for a new id. */
  lemma SwapExactly(t: Table, a: Secret, b: Secret)
    ensures UpsertRow(UpsertRow(t, a), b) == UpsertRow(UpsertRow(t, b), a) <==> !Clash(t, a, b)
  {
  }

  // --- A push is a run of server operations --------------------------------------------------

  function Puts(rows: seq<Secret>): (ops: seq<Operation>)
    ensures |ops| == |rows|
    ensures forall i :: 0 <= i < |rows| ==> Actor(ops[i]) == rows[i].ownerId
  {
    if rows == [] then [] else [Put(rows[0])] + Puts(rows[1..])
  }

  /** So what holds of every run of server operations holds of pushes. */
  lemma {:induction false} PushIsRun(t: Table, rows: seq<Secret>)
    ensures UpsertAll(t, rows) == Run(t, Puts(rows))
    decreases |rows|
  {
    if rows == [] {
    } else {
      var first, rest := rows[..1], rows[1..];
      assert rows == first + rest;
      UpsertAllAppend(t, first, rest);
      assert first[..0] == [] && UpsertAll(t, first) == UpsertRow(t, rows[0]);
      PushIsRun(UpsertRow(t, rows[0]), rest);
      assert Puts(rows)[1..] == Puts(rest);
    }
  }
}
