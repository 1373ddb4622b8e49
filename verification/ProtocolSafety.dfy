/** What holds in every reachable state: nothing a device stored is lost, and times are whole seconds. */
module ProtocolSafety {
  import opened Records
  import opened SecretStore
  import opened SyncService
  import opened DeviceStore
  import opened SyncLaws
  import opened SyncSafety
  import opened Protocol

  ghost predicate Owned(owners: map<string, string>, ownerId: string, x: string) {
    x in owners && owners[x] == ownerId
  }

  ghost predicate ServerOk(t: Table, owners: map<string, string>) {
    WellKeyed(t) && forall x :: x in t ==> Owned(owners, t[x].ownerId, x)
  }

  /** An item being pushed: sent, still on the device, no older than a dirty row of its id, and on the
      server once it has been taken. */
  ghost predicate BatchItemOk(t: Table, dev: Device, item: Item, taken: bool) {
    && item in dev.sent && item.id in dev.rows
    && (dev.rows[item.id].dirty ==> dev.rows[item.id].item.updatedAt <= item.updatedAt)
    && (taken ==> item.id in t && t[item.id].item.updatedAt >= item.updatedAt)
  }

  ghost predicate PhaseOk(t: Table, dev: Device) {
    dev.phase.Busy? ==>
      && dev.phase.pushed <= |dev.phase.batch|
      && (forall i :: 0 <= i < |dev.phase.batch| ==> BatchItemOk(t, dev, dev.phase.batch[i], i < dev.phase.pushed))
      && (dev.phase.pulled.Some? ==> dev.phase.applied <= |dev.phase.pulled.value| && Backed(t, dev.phase.pulled.value, dev.ownerId))
  }

  ghost predicate DeviceOk(t: Table, owners: map<string, string>, dev: Device) {
    && RowsOk(dev.rows)
    && (forall x :: x in dev.rows ==> Owned(owners, dev.ownerId, x))
    && (forall item :: item in dev.sent ==> Owned(owners, dev.ownerId, item.id))
    && NothingDropped(t, dev.rows)
    && PhaseOk(t, dev)
  }

  ghost predicate Inv(s: State) {
    && |s.missed| == |s.devices|
    && ServerOk(s.server, s.owners)
    && forall d :: 0 <= d < |s.devices| ==> DeviceOk(s.server, s.owners, s.devices[d])
  }

  ghost predicate Grows(o: map<string, string>, o': map<string, string>) {
    forall x :: x in o ==> x in o' && o'[x] == o[x]
  }

  // --- One step keeps it ---------------------------------------------------------------------

  /** A device stays in order while the server moves on under it. */
  lemma DeviceOkLater(t: Table, t': Table, o: map<string, string>, o': map<string, string>, dev: Device)
    requires DeviceOk(t, o, dev) && Advances(t, t') && Grows(o, o')
    ensures DeviceOk(t', o', dev)
  {
  }

  /** A row that arrives belongs to an id of the sender's owner. */
  lemma ArrivingOwned(s: State, a: Step)
    requires Inv(s) && Enabled(s, a) && Arriving(s, a).Some?
    ensures Arriving(s, a).value.ownerId == s.devices[a.d].ownerId
    ensures Owned(s.owners, s.devices[a.d].ownerId, Arriving(s, a).value.item.id)
  {
  }

  lemma WorldMoves(s: State, a: Step)
    requires Inv(s) && Enabled(s, a) && OneOwner(s, a)
    ensures Advances(s.server, Next(s, a).server) && Grows(s.owners, Next(s, a).owners)
    ensures ServerOk(Next(s, a).server, Next(s, a).owners)
  {
  }

  lemma EditOk(t: Table, o: map<string, string>, dev: Device, a: Step)
    requires a.Edit? && DeviceOk(t, o, dev) && Owned(o, dev.ownerId, a.item.id)
    requires dev.phase.Busy? ==> a.item.id !in Ids(dev.phase.batch)
    ensures DeviceOk(t, o, Moved(dev, a))
  {
    StoredTwice(a.item);
    if dev.phase.Busy? {
      forall i | 0 <= i < |dev.phase.batch|
        ensures BatchItemOk(t, Moved(dev, a), dev.phase.batch[i], i < dev.phase.pushed)
      {
        assert BatchItemOk(t, dev, dev.phase.batch[i], i < dev.phase.pushed);
      }
    }
  }

  lemma BeginOk(t: Table, o: map<string, string>, dev: Device, a: Step)
    requires a.Begin? && DeviceOk(t, o, dev) && Lists(a.batch, DirtyItems(dev.rows))
    ensures DeviceOk(t, o, Moved(dev, a))
  {
  }

  lemma PushOk(t: Table, o: map<string, string>, dev: Device, a: Step)
    requires a.Push? && DeviceOk(t, o, dev) && dev.phase.Busy? && dev.phase.pushed < |dev.phase.batch|
    requires var item := dev.phase.batch[dev.phase.pushed]; item.id in t && t[item.id].item.updatedAt >= item.updatedAt
    ensures DeviceOk(t, o, Moved(dev, a))
  {
  }

  lemma CompareOk(t: Table, o: map<string, string>, dev: Device, a: Step)
    requires a.Compare? && DeviceOk(t, o, dev) && dev.phase.Busy? && dev.phase.pulled.Some?
    requires dev.phase.applied < |dev.phase.pulled.value|
    ensures DeviceOk(t, o, Moved(dev, a))
  {
  }

  /** A write is safe even if the row changed since the comparison: what it writes is on the server. */
  lemma ApplyOk(t: Table, o: map<string, string>, dev: Device, a: Step)
    requires ServerOk(t, o)
    requires a.Apply? && DeviceOk(t, o, dev) && dev.phase.Busy? && dev.phase.pulled.Some?
    requires dev.phase.applied < |dev.phase.pulled.value| && dev.phase.wins.Some?
    ensures DeviceOk(t, o, Moved(dev, a))
  {
    var item, dev' := dev.phase.pulled.value[dev.phase.applied], Moved(dev, a);
    assert Owned(o, t[item.id].ownerId, item.id);
    StoredTwice(item);
    forall i | 0 <= i < |dev.phase.batch|
      ensures BatchItemOk(t, dev', dev.phase.batch[i], i < dev.phase.pushed)
    {
      assert BatchItemOk(t, dev, dev.phase.batch[i], i < dev.phase.pushed);
    }
  }

  /** Cleaning is safe because by then every pushed item is on the server. */
  lemma CleanOk(t: Table, o: map<string, string>, dev: Device, a: Step)
    requires a.Clean? && DeviceOk(t, o, dev) && dev.phase.Busy? && dev.phase.pushed == |dev.phase.batch|
    ensures DeviceOk(t, o, Moved(dev, a))
  {
  }

  lemma ActorOk(s: State, a: Step)
    requires Inv(s) && Enabled(s, a) && OneOwner(s, a) && NoPushedEdit(s, a)
    ensures DeviceOk(Next(s, a).server, Next(s, a).owners, Moved(s.devices[a.d], a))
  {
    hide DeviceOk, ServerOk, Filled, Stored, UpsertRow, Lists;
    var dev, t, o := s.devices[a.d], Next(s, a).server, Next(s, a).owners;
    WorldMoves(s, a);
    DeviceOkLater(s.server, t, s.owners, o, dev);
    match a {
      case Edit(_, _) => EditOk(t, o, dev, a);
      case Begin(_, _) => BeginOk(t, o, dev, a);
      case Push(_, now) => PushedIsThere(s, a); PushOk(t, o, dev, a);
      case Pull(_, items) => PullOk(s.server, o, dev, a);
      case Compare(_) => CompareOk(t, o, dev, a);
      case Apply(_) => ApplyOk(t, o, dev, a);
      case Clean(_) => CleanOk(t, o, dev, a);
      case Deliver(_, _, _) =>
      case Save(_, _) => SettleOk(t, o, dev, a);
      case Abort(_) => SettleOk(t, o, dev, a);
    }
  }

  lemma PushedIsThere(s: State, a: Step)
    requires Inv(s) && Enabled(s, a) && a.Push?
    ensures var dev := s.devices[a.d];
            var item := dev.phase.batch[dev.phase.pushed];
            item.id in ServerAfter(s, a) && ServerAfter(s, a)[item.id].item.updatedAt >= item.updatedAt
  {
  }

  lemma PullOk(t: Table, o: map<string, string>, dev: Device, a: Step)
    requires a.Pull? && ServerOk(t, o) && DeviceOk(t, o, dev) && dev.phase.Busy?
    requires Lists(a.items, UpdatedSince(t, dev.ownerId, dev.cursor))
    ensures DeviceOk(t, o, Moved(dev, a))
  {
  }

  lemma SettleOk(t: Table, o: map<string, string>, dev: Device, a: Step)
    requires (a.Save? || a.Abort?) && DeviceOk(t, o, dev)
    ensures DeviceOk(t, o, Moved(dev, a))
  {
  }

  lemma InvNext(s: State, a: Step)
    requires Inv(s) && Enabled(s, a) && OneOwner(s, a) && NoPushedEdit(s, a)
    ensures Inv(Next(s, a))
  {
    hide DeviceOk, ServerOk;
    var s' := Next(s, a);
    WorldMoves(s, a);
    ActorOk(s, a);
    forall d | 0 <= d < |s'.devices| ensures DeviceOk(s'.server, s'.owners, s'.devices[d]) {
      if d != a.d {
        DeviceOkLater(s.server, s'.server, s.owners, s'.owners, s.devices[d]);
      }
    }
  }

  lemma {:induction false} InvAfter(rules: Rules, s: State, steps: seq<Step>)
    requires Inv(s) && Runs(rules, s, steps) && rules.oneOwner && rules.noPushedEdit
    ensures Inv(After(rules, s, steps))
    decreases |steps|
  {
    if steps == [] {
    } else {
      InvNext(s, steps[0]);
      InvAfter(rules, Next(s, steps[0]), steps[1..]);
    }
  }

  // --- No row is dropped ---------------------------------------------------------------------

  /** In every state reachable by any interleaving of edits and syncs of any devices, with any failures and
      late deliveries: each row of each device waits to be pushed, or the server holds its id for the
      device's owner at least as new. */
  lemma EveryRowSafe(rules: Rules, s: State, steps: seq<Step>)
    requires Initial(s) && Runs(rules, s, steps) && rules.oneOwner && rules.noPushedEdit
    ensures var r := After(rules, s, steps);
            forall d :: 0 <= d < |r.devices| ==> Safe(r.server, r.devices[d].rows, r.devices[d].ownerId)
  {
    assert Inv(s) by {
      forall d | 0 <= d < |s.devices| ensures DeviceOk(s.server, s.owners, s.devices[d]) {}
    }
    InvAfter(rules, s, steps);
    InvIsSafe(After(rules, s, steps));
  }

  lemma InvIsSafe(s: State)
    requires Inv(s)
    ensures forall d :: 0 <= d < |s.devices| ==> Safe(s.server, s.devices[d].rows, s.devices[d].ownerId)
  {
  }
}
