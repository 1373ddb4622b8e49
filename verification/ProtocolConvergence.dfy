/** Once an owner stops editing, a push and then a pull of each of the owner's devices make them all agree. */
module ProtocolConvergence {
  import opened Records
  import opened SecretStore
  import opened SyncService
  import opened DeviceStore
  import opened SyncLaws
  import opened Protocol
  import opened ProtocolSafety
  import opened ProtocolCoverage

  // --- Every row was written by an edit ------------------------------------------------------

  ghost predicate TieFreeSet(written: set<Item>) {
    forall a, b :: a in written && b in written && SameStamp(a, b) ==> a == b
  }

  ghost predicate DeviceWritten(dev: Device, written: set<Item>) {
    && (forall x :: x in dev.rows ==> dev.rows[x].item in written)
    && (forall item :: item in dev.sent ==> item in written)
    && (dev.phase.Busy? ==>
          && (forall i :: 0 <= i < |dev.phase.batch| ==> dev.phase.batch[i] in written)
          && (dev.phase.pulled.Some? ==>
                forall i :: 0 <= i < |dev.phase.pulled.value| ==> dev.phase.pulled.value[i] in written))
  }

  ghost predicate ServerWritten(t: Table, written: set<Item>) {
    forall x :: x in t ==> t[x].item in written
  }

  ghost predicate Written(s: State) {
    && TieFreeSet(s.written)
    && ServerWritten(s.server, s.written)
    && forall d :: 0 <= d < |s.devices| ==> DeviceWritten(s.devices[d], s.written)
  }

  lemma MovedWritten(s: State, a: Step)
    requires Enabled(s, a) && |s.missed| == |s.devices| && DeviceStamps(s.devices[a.d])
    requires DeviceWritten(s.devices[a.d], s.written) && ServerWritten(s.server, s.written)
    ensures DeviceWritten(Moved(s.devices[a.d], a), Next(s, a).written)
  {
  }

  lemma WrittenNext(s: State, a: Step)
    requires Stamps(s) && Written(s) && Enabled(s, a) && TieFree(s, a)
    ensures Written(Next(s, a))
  {
    hide Moved, MissedAfter, DeviceStamps, Stored;
    MovedWritten(s, a);
    if Arriving(s, a).Some? {
      ArrivesAsSent(s, a);
      ArrivingWritten(s, a);
    }
    forall d | 0 <= d < |s.devices| ensures DeviceWritten(Next(s, a).devices[d], Next(s, a).written) {
      assert DeviceWritten(s.devices[d], s.written);
    }
  }

  lemma ArrivingWritten(s: State, a: Step)
    requires Stamps(s) && Written(s) && Enabled(s, a) && Arriving(s, a).Some?
    ensures Arriving(s, a).value.item in s.written
  {
  }

  lemma {:induction false} WrittenAfter(rules: Rules, s: State, steps: seq<Step>)
    requires Stamps(s) && Written(s) && Runs(rules, s, steps) && rules.stamped && rules.tieFree
    ensures Written(After(rules, s, steps))
    decreases |steps|
  {
    hide Written, ServerStamps, DeviceStamps, Enabled, Moved, MissedAfter, ServerAfter;
    if steps == [] {
    } else {
      StampsNext(s, steps[0]);
      WrittenNext(s, steps[0]);
      WrittenAfter(rules, Next(s, steps[0]), steps[1..]);
    }
  }

  /** Two rows of one id and time, wherever they are, have the same contents. */
  lemma WrittenNoTie(s: State, d: nat)
    requires Written(s) && Stamps(s) && Inv(s) && d < |s.devices|
    ensures forall x :: !TieAt(s.server, s.devices[d].rows, x)
  {
  }

  /** In every reachable state, without any timeliness and whatever the clocks do: one successful sync that
      ignores the saved cursor, while no other device acts, makes the device hold exactly its owner's rows. */
  lemma FullSyncAgrees(rules: Rules, s: State, steps: seq<Step>, d: nat, batch: seq<Item>, clock: Clock, k: nat, now: Time)
    requires Initial(s) && Runs(rules, s, steps)
    requires rules.oneOwner && rules.noPushedEdit && rules.stamped && rules.tieFree
    requires d < |After(rules, s, steps).devices| && |clock| == |batch| && k <= |batch|
    requires Lists(batch, DirtyItems(After(rules, s, steps).devices[d].rows))
    ensures var r := After(rules, s, steps);
            var o := ConcurrentSync(r.server, r.devices[d].rows, r.devices[d].ownerId, ZERO_TIME, batch, clock, k, now);
            Agrees(o.table, o.rows, r.devices[d].ownerId)
  {
    hide ConcurrentSync, Agrees, TieAt, Stored, Written;
    var r := After(rules, s, steps);
    InitialOrderly(s);
    InvAfter(rules, s, steps);
    StampsAfter(rules, s, steps);
    WrittenAfter(rules, s, steps);
    InvIsSafe(r);
    WrittenNoTie(r, d);
    StampedBatch(r, d, batch);
    assert DeviceOk(r.server, r.owners, r.devices[d]);
    AgreementExactly(r.server, r.devices[d].rows, r.devices[d].ownerId, batch, clock, k, now);
  }

  lemma StampedBatch(s: State, d: nat, batch: seq<Item>)
    requires Stamps(s) && d < |s.devices| && Lists(batch, DirtyItems(s.devices[d].rows))
    ensures Timed(batch)
    ensures forall x :: x in s.server ==> s.server[x].item.updatedAt != ZERO_TIME
  {
  }

  // --- The states of an orderly run ----------------------------------------------------------

  ghost predicate Orderly(s: State) {
    Inv(s) && Steady(s) && Written(s)
  }

  /** The rules under which an owner's rows settle once that owner's edits stop. */
  predicate Settles(rules: Rules) {
    Steadies(rules) && rules.oneOwner && rules.noPushedEdit && rules.tieFree
  }

  /** The rules under which devices converge. */
  predicate Converges(rules: Rules) {
    Settles(rules) && rules.timely
  }

  lemma OrderlyNext(rules: Rules, s: State, a: Step)
    requires Settles(rules) && Orderly(s) && Enabled(s, a) && Obeys(rules, s, a)
    ensures Orderly(Next(s, a))
  {
    hide Written, Inv, Shape, AllDecided, InTime, Next;
    InvNext(s, a);
    SteadyNext(rules, s, a);
    WrittenNext(s, a);
  }

  lemma {:induction false} OrderlyAfter(rules: Rules, s: State, steps: seq<Step>)
    requires Settles(rules) && Orderly(s) && Runs(rules, s, steps)
    ensures Orderly(After(rules, s, steps))
    decreases |steps|
  {
    hide Written, ServerOk, DeviceOk, Steady;
    if steps == [] {
    } else {
      OrderlyNext(rules, s, steps[0]);
      OrderlyAfter(rules, Next(s, steps[0]), steps[1..]);
    }
  }

  lemma InitialOrderly(s: State)
    requires Initial(s)
    ensures Orderly(s)
  {
  }

  /** No device of the owner edits in `steps`; what devices of other owners do is left open. */
  ghost predicate NoEdits(s: State, steps: seq<Step>, ownerId: string) {
    forall i :: 0 <= i < |steps| && steps[i].Edit? && steps[i].d < |s.devices| ==> s.devices[steps[i].d].ownerId != ownerId
  }

  lemma SameOwners(s: State, a: Step)
    requires |s.missed| == |s.devices| && Enabled(s, a)
    ensures forall d :: 0 <= d < |s.devices| ==> Next(s, a).devices[d].ownerId == s.devices[d].ownerId
  {
  }

  lemma NoEditsFirst(s: State, steps: seq<Step>, ownerId: string)
    requires |s.missed| == |s.devices| && steps != [] && Enabled(s, steps[0]) && NoEdits(s, steps, ownerId)
    ensures steps[0].Edit? ==> s.devices[steps[0].d].ownerId != ownerId
    ensures NoEdits(Next(s, steps[0]), steps[1..], ownerId)
    ensures forall d :: 0 <= d < |s.devices| ==> Next(s, steps[0]).devices[d].ownerId == s.devices[d].ownerId
  {
    hide Moved, MissedAfter, ServerAfter;
    SameOwners(s, steps[0]);
  }

  lemma {:induction false} SameOwnersAfter(rules: Rules, s: State, steps: seq<Step>)
    requires |s.missed| == |s.devices| && Runs(rules, s, steps)
    ensures forall d :: 0 <= d < |s.devices| ==> After(rules, s, steps).devices[d].ownerId == s.devices[d].ownerId
    decreases |steps|
  {
    hide Enabled, Next, Obeys;
    if steps == [] {
    } else {
      SameOwners(s, steps[0]);
      SameOwnersAfter(rules, Next(s, steps[0]), steps[1..]);
    }
  }

  // --- First round: everything dirty gets pushed ---------------------------------------------

  /** The sync under way, if any, read all that is dirty. */
  ghost predicate FreshBatch(dev: Device) {
    dev.phase.Busy? ==> DirtyIds(dev.rows) <= Ids(dev.phase.batch)
  }

  ghost predicate AllClean(dev: Device) {
    DirtyIds(dev.rows) == {}
  }

  lemma BatchHasDirty(rows: Rows, batch: seq<Item>)
    requires Lists(batch, DirtyItems(rows))
    ensures DirtyIds(rows) <= Ids(batch)
  {
  }

  lemma MovedFresh(s: State, a: Step)
    requires Enabled(s, a) && !a.Edit?
    ensures AllClean(s.devices[a.d]) ==> AllClean(Moved(s.devices[a.d], a))
    ensures FreshBatch(s.devices[a.d]) || a.Begin? ==> FreshBatch(Moved(s.devices[a.d], a))
    ensures FreshBatch(s.devices[a.d]) && a.Clean? ==> AllClean(Moved(s.devices[a.d], a))
  {
    var dev := s.devices[a.d];
    if a.Begin? {
      BatchHasDirty(dev.rows, a.batch);
    }
    if a.Clean? {
      assert forall x :: x in DirtyIds(Moved(dev, a).rows) ==> x in DirtyIds(dev.rows) && x !in Ids(dev.phase.batch);
    }
    if a.Apply? {
      assert DirtyIds(Moved(dev, a).rows) <= DirtyIds(dev.rows);
    }
  }

  lemma {:induction false} StaysClean(rules: Rules, s: State, steps: seq<Step>, d: nat)
    requires |s.missed| == |s.devices| && Runs(rules, s, steps) && d < |s.devices|
    requires NoEdits(s, steps, s.devices[d].ownerId) && AllClean(s.devices[d])
    ensures AllClean(After(rules, s, steps).devices[d])
    decreases |steps|
  {
    hide AllClean, NoEdits, Enabled, Moved, MissedAfter, ServerAfter, Obeys;
    if steps == [] {
    } else {
      NoEditsFirst(s, steps, s.devices[d].ownerId);
      if steps[0].d == d {
        MovedFresh(s, steps[0]);
      }
      StaysClean(rules, Next(s, steps[0]), steps[1..], d);
    }
  }

  lemma {:induction false} FreshGetsClean(rules: Rules, s: State, steps: seq<Step>, d: nat, j: nat)
    requires |s.missed| == |s.devices| && Runs(rules, s, steps) && d < |s.devices|
    requires NoEdits(s, steps, s.devices[d].ownerId) && FreshBatch(s.devices[d])
    requires j < |steps| && steps[j] == Clean(d)
    ensures AllClean(After(rules, s, steps).devices[d])
    decreases |steps|
  {
    hide AllClean, FreshBatch, NoEdits, Enabled, Moved, MissedAfter, ServerAfter, Obeys;
    NoEditsFirst(s, steps, s.devices[d].ownerId);
    if steps[0].d == d {
      MovedFresh(s, steps[0]);
    }
    if j == 0 {
      StaysClean(rules, Next(s, steps[0]), steps[1..], d);
    } else {
      FreshGetsClean(rules, Next(s, steps[0]), steps[1..], d, j - 1);
    }
  }

  /** In `steps` the device reads what is dirty and later cleans what it pushed. */
  ghost predicate Pushes(steps: seq<Step>, d: nat) {
    exists i, j :: 0 <= i < j < |steps| && steps[i].Begin? && steps[i].d == d && steps[j] == Clean(d)
  }

  lemma {:induction false} PushGetsClean(rules: Rules, s: State, steps: seq<Step>, d: nat, i: nat, j: nat)
    requires |s.missed| == |s.devices| && Runs(rules, s, steps) && d < |s.devices|
    requires NoEdits(s, steps, s.devices[d].ownerId)
    requires i < j < |steps| && steps[i].Begin? && steps[i].d == d && steps[j] == Clean(d)
    ensures AllClean(After(rules, s, steps).devices[d])
    decreases |steps|
  {
    hide AllClean, FreshBatch, NoEdits, Enabled, Moved, MissedAfter, ServerAfter, Obeys;
    NoEditsFirst(s, steps, s.devices[d].ownerId);
    if i == 0 {
      MovedFresh(s, steps[0]);
      FreshGetsClean(rules, Next(s, steps[0]), steps[1..], d, j - 1);
    } else {
      PushGetsClean(rules, Next(s, steps[0]), steps[1..], d, i - 1, j - 1);
    }
  }

  // --- A quiet owner -------------------------------------------------------------------------

  /** No device of the owner has anything to push. */
  ghost predicate Quiet(s: State, ownerId: string) {
    forall d :: 0 <= d < |s.devices| && s.devices[d].ownerId == ownerId ==> AllClean(s.devices[d])
  }

  lemma QuietNext(s: State, a: Step, ownerId: string)
    requires |s.missed| == |s.devices| && Quiet(s, ownerId) && Enabled(s, a)
    requires a.Edit? ==> s.devices[a.d].ownerId != ownerId
    ensures Quiet(Next(s, a), ownerId)
  {
    hide AllClean, MissedAfter, ServerAfter, Moved;
    SameOwners(s, a);
    if !a.Edit? {
      MovedFresh(s, a);
    }
  }

  lemma {:induction false} QuietAfter(rules: Rules, s: State, steps: seq<Step>, ownerId: string)
    requires |s.missed| == |s.devices| && Quiet(s, ownerId) && Runs(rules, s, steps) && NoEdits(s, steps, ownerId)
    ensures Quiet(After(rules, s, steps), ownerId)
    decreases |steps|
  {
    hide Quiet, NoEdits, Moved, MissedAfter, ServerAfter, Enabled, Obeys;
    if steps == [] {
    } else {
      NoEditsFirst(s, steps, ownerId);
      QuietNext(s, steps[0], ownerId);
      QuietAfter(rules, Next(s, steps[0]), steps[1..], ownerId);
    }
  }

  /** The owner's rows are the same in both tables. */
  ghost predicate SameOwned(t: Table, t': Table, ownerId: string) {
    forall x :: && (x in t && t[x].ownerId == ownerId ==> x in t' && t'[x] == t[x])
                && (x in t' && t'[x].ownerId == ownerId ==> x in t && t[x] == t'[x])
  }

  lemma OthersRow(t: Table, row: Secret, ownerId: string)
    requires WellKeyed(t) && row.ownerId != ownerId
    ensures SameOwned(t, UpsertRow(t, row), ownerId)
  {
  }

  /** When nothing of an owner is dirty, whatever still arrives for the owner is refused: the owner's rows no
      longer change on the server, whatever other owners do. */
  lemma QuietFreezes(s: State, a: Step, ownerId: string)
    requires Orderly(s) && Quiet(s, ownerId) && Enabled(s, a)
    ensures SameOwned(s.server, ServerAfter(s, a), ownerId)
  {
    hide Written, Steady, Stored, Lists, SameOwned, OwnTimes, Decided;
    SteadyDevice(s, a.d);
    if Arriving(s, a).None? {
      SameOwnedSelf(s.server, ownerId);
    } else {
      ArrivingOwned(s, a);
      if s.devices[a.d].ownerId != ownerId {
        OthersRow(s.server, Arriving(s, a).value, ownerId);
      } else {
        CleanRefused(s, a);
        SameOwnedSelf(s.server, ownerId);
      }
    }
  }

  lemma SameOwnedSelf(t: Table, ownerId: string)
    ensures SameOwned(t, t, ownerId)
  {
  }

  /** What a device with nothing to push still has under way is on the server already. */
  lemma CleanRefused(s: State, a: Step)
    requires Orderly(s) && Enabled(s, a) && Arriving(s, a).Some? && AllClean(s.devices[a.d])
    ensures ServerAfter(s, a) == s.server
  {
    hide Written, Steady, Stored, Lists;
    var dev := s.devices[a.d];
    SteadyDevice(s, a.d);
    assert DeviceOk(s.server, s.owners, dev);
    ArrivesAsSent(s, a);
    ArrivingOwned(s, a);
    if a.Push? {
      assert BatchItemOk(s.server, dev, dev.phase.batch[dev.phase.pushed], false);
    }
    var item := Arriving(s, a).value.item;
    assert item in dev.sent && Held(dev.rows, item);
    assert item.id !in DirtyIds(dev.rows);
    assert s.server[item.id].item.updatedAt >= item.updatedAt;
  }

  // --- Second round: everything gets pulled --------------------------------------------------

  /** Every row of the device's owner is held. */
  ghost predicate Synced(t: Table, dev: Device) {
    forall x :: x in t && t[x].ownerId == dev.ownerId ==> Held(dev.rows, t[x].item)
  }

  /** An open pull has all that the device does not hold. */
  ghost predicate Draining(t: Table, dev: Device) {
    Pulling(dev) ==> forall x :: x in t && t[x].ownerId == dev.ownerId ==> Held(dev.rows, t[x].item) || Pending(dev, t[x].item)
  }

  /** One row of a pull under way is held once it was pending and has been applied. */
  lemma PendingAfter(s: State, a: Step, item: Item)
    requires Enabled(s, a) && RowsOk(s.devices[a.d].rows) && DeviceStamps(s.devices[a.d]) && Decided(s.devices[a.d])
    requires !a.Edit? && !a.Pull? && Pending(s.devices[a.d], item) && Pulling(Moved(s.devices[a.d], a))
    ensures Held(Moved(s.devices[a.d], a).rows, item) || Pending(Moved(s.devices[a.d], a), item)
  {
    hide Lists, Stored;
    var dev := s.devices[a.d];
    if a.Apply? {
      var p := dev.phase.pulled.value[dev.phase.applied];
      StoredStamp(p);
      DecidedApplies(dev, a);
      assert Held(Moved(dev, a).rows, p);
    }
  }

  lemma SyncedNext(s: State, a: Step, d: nat)
    requires Orderly(s) && Enabled(s, a) && d < |s.devices| && Quiet(s, s.devices[d].ownerId)
    requires a.Edit? ==> s.devices[a.d].ownerId != s.devices[d].ownerId
    requires Synced(s.server, s.devices[d])
    ensures Synced(Next(s, a).server, Next(s, a).devices[d])
  {
    hide Written, Inv, Steady, Quiet, Stored, Moved, MissedAfter, ServerAfter, Enabled, DeviceStamps, Decided, OwnTimes;
    QuietFreezes(s, a, s.devices[d].ownerId);
    SteadyDevice(s, d);
    SameOwners(s, a);
    if a.d == d {
      RowsRise(s, a);
    }
  }

  /** An open pull keeps draining through the device's other steps. */
  lemma DrainingNext(s: State, a: Step, d: nat)
    requires Orderly(s) && Enabled(s, a) && d < |s.devices| && Quiet(s, s.devices[d].ownerId)
    requires a.Edit? ==> s.devices[a.d].ownerId != s.devices[d].ownerId
    requires Draining(s.server, s.devices[d]) && !(a.Pull? && a.d == d)
    ensures Draining(Next(s, a).server, Next(s, a).devices[d])
  {
    hide Written, Inv, Steady, Quiet, Stored, Pending, MissedAfter, ServerAfter, DeviceStamps, Decided, OwnTimes, Lists;
    QuietFreezes(s, a, s.devices[d].ownerId);
    SteadyDevice(s, d);
    var dev, dev' := s.devices[d], Next(s, a).devices[d];
    if a.d == d && Pulling(dev') {
      forall x | x in s.server && s.server[x].ownerId == dev.ownerId
        ensures Held(dev'.rows, s.server[x].item) || Pending(dev', s.server[x].item)
      {
        if Held(dev.rows, s.server[x].item) {
          RowsRise(s, a);
        } else {
          PendingAfter(s, a, s.server[x].item);
        }
      }
    }
  }

  /** A pull of a device whose cursor hides nothing it lacks brings all it lacks. */
  lemma PullDrains(s: State, a: Step)
    requires Steady(s) && Enabled(s, a) && a.Pull?
    requires Covered(s.server, s.devices[a.d].rows, s.devices[a.d].ownerId, s.devices[a.d].cursor)
    ensures Draining(Next(s, a).server, Next(s, a).devices[a.d])
  {
    hide Steady, MissedAfter, Decided, OwnTimes, DeviceStamps;
    SteadyDevice(s, a.d);
    var dev, dev', t := s.devices[a.d], Next(s, a).devices[a.d], s.server;
    forall x | x in t && t[x].ownerId == dev.ownerId ensures Held(dev.rows, t[x].item) || Pending(dev', t[x].item) {
      if !Hidden(t, dev.ownerId, dev.cursor, x) {
        assert x in UpdatedSince(t, dev.ownerId, dev.cursor);
        var i :| 0 <= i < |a.items| && a.items[i].id == x;
        assert dev'.phase.pulled.value[i].id == t[x].item.id;
      }
    }
  }

  lemma SaveSyncs(s: State, a: Step)
    requires Enabled(s, a) && |s.missed| == |s.devices| && a.Save? && Draining(s.server, s.devices[a.d])
    ensures Synced(Next(s, a).server, Next(s, a).devices[a.d])
  {
  }

  lemma {:induction false} StaysSynced(rules: Rules, s: State, steps: seq<Step>, d: nat)
    requires Settles(rules) && Orderly(s) && Runs(rules, s, steps) && d < |s.devices|
    requires Quiet(s, s.devices[d].ownerId) && NoEdits(s, steps, s.devices[d].ownerId)
    requires Synced(s.server, s.devices[d])
    ensures var r := After(rules, s, steps); Synced(r.server, r.devices[d])
    decreases |steps|
  {
    hide Synced, Written, Quiet, NoEdits, Inv, Steady, Moved, MissedAfter, ServerAfter, Enabled;
    OrderlyMissed(s);
    if steps == [] {
    } else {
      NoEditsFirst(s, steps, s.devices[d].ownerId);
      OrderlyNext(rules, s, steps[0]);
      QuietNext(s, steps[0], s.devices[d].ownerId);
      SyncedNext(s, steps[0], d);
      StaysSynced(rules, Next(s, steps[0]), steps[1..], d);
    }
  }

  lemma OrderlyMissed(s: State)
    requires Orderly(s)
    ensures |s.missed| == |s.devices|
  {
  }

  lemma {:induction false} DrainingGetsSynced(rules: Rules, s: State, steps: seq<Step>, d: nat, j: nat)
    requires Settles(rules) && Orderly(s) && Runs(rules, s, steps) && d < |s.devices|
    requires Quiet(s, s.devices[d].ownerId) && NoEdits(s, steps, s.devices[d].ownerId)
    requires Draining(s.server, s.devices[d])
    requires j < |steps| && steps[j].Save? && steps[j].d == d
    requires forall i :: 0 <= i < j ==> !(steps[i].Pull? && steps[i].d == d)
    ensures var r := After(rules, s, steps); Synced(r.server, r.devices[d])
    decreases |steps|
  {
    hide Synced, Draining, Written, Quiet, NoEdits, Inv, Steady, Moved, MissedAfter, ServerAfter, Enabled;
    OrderlyMissed(s);
    NoEditsFirst(s, steps, s.devices[d].ownerId);
    OrderlyNext(rules, s, steps[0]);
    QuietNext(s, steps[0], s.devices[d].ownerId);
    if j == 0 {
      SaveSyncs(s, steps[0]);
      StaysSynced(rules, Next(s, steps[0]), steps[1..], d);
    } else {
      DrainingNext(s, steps[0], d);
      DrainingGetsSynced(rules, Next(s, steps[0]), steps[1..], d, j - 1);
    }
  }

  /** In `steps` the device pulls and later saves the time. */
  ghost predicate Pulls(steps: seq<Step>, d: nat) {
    exists i, j :: 0 <= i < j < |steps| && steps[i].Pull? && steps[i].d == d && steps[j].Save? && steps[j].d == d
  }

  /** The pull that the save at `j` goes with is the last before it. */
  lemma {:induction false} LastPull(steps: seq<Step>, d: nat, i: nat, j: nat) returns (k: nat)
    requires i < j <= |steps| && steps[i].Pull? && steps[i].d == d
    ensures i <= k < j && steps[k].Pull? && steps[k].d == d
    ensures forall m :: k < m < j ==> !(steps[m].Pull? && steps[m].d == d)
    decreases j
  {
    if steps[j - 1].Pull? && steps[j - 1].d == d {
      k := j - 1;
    } else {
      k := LastPull(steps, d, i, j - 1);
    }
  }

  lemma {:induction false} PullGetsSynced(rules: Rules, s: State, steps: seq<Step>, d: nat, i: nat, j: nat)
    requires Converges(rules) && Orderly(s) && Covering(s) && Runs(rules, s, steps) && d < |s.devices|
    requires Quiet(s, s.devices[d].ownerId) && NoEdits(s, steps, s.devices[d].ownerId)
    requires i < j < |steps| && steps[i].Pull? && steps[i].d == d && steps[j].Save? && steps[j].d == d
    requires forall m :: i < m < j ==> !(steps[m].Pull? && steps[m].d == d)
    ensures var r := After(rules, s, steps); Synced(r.server, r.devices[d])
    decreases |steps|
  {
    hide Synced, Draining, Written, Quiet, NoEdits, Inv, Steady, CoverOk, Covered, Obeys, Moved, MissedAfter, ServerAfter, Enabled;
    OrderlyMissed(s);
    NoEditsFirst(s, steps, s.devices[d].ownerId);
    OrderlyNext(rules, s, steps[0]);
    QuietNext(s, steps[0], s.devices[d].ownerId);
    if i == 0 {
      SteadyDevice(s, d);
      CoverOkCovers(s.server, s.devices[d], s.missed[d]);
      PullDrains(s, steps[0]);
      DrainingGetsSynced(rules, Next(s, steps[0]), steps[1..], d, j - 1);
    } else {
      ReliableNext(rules, s, steps[0]);
      PullGetsSynced(rules, Next(s, steps[0]), steps[1..], d, i - 1, j - 1);
    }
  }

  // --- A row the last pull missed ------------------------------------------------------------

  /** A row of the owner that the device does not hold and that its open pull does not bring. */
  ghost predicate Missing(t: Table, dev: Device, x: string) {
    && x in t && t[x].ownerId == dev.ownerId && !Held(dev.rows, t[x].item)
    && (Pulling(dev) ==> x !in Ids(dev.phase.pulled.value))
  }

  lemma PullMisses(s: State, a: Step) returns (x: string)
    requires Steady(s) && Enabled(s, a) && a.Pull?
    requires !Covered(s.server, s.devices[a.d].rows, s.devices[a.d].ownerId, s.devices[a.d].cursor)
    ensures Missing(Next(s, a).server, Next(s, a).devices[a.d], x)
  {
    hide Steady, MissedAfter, Decided, OwnTimes, DeviceStamps;
    SteadyDevice(s, a.d);
    var dev, t := s.devices[a.d], s.server;
    x :| Hidden(t, dev.ownerId, dev.cursor, x) && !(x in dev.rows && dev.rows[x].item.updatedAt >= t[x].item.updatedAt);
    assert x !in UpdatedSince(t, dev.ownerId, dev.cursor);
  }

  /** Only a pull can bring it. */
  lemma MissingNext(s: State, a: Step, d: nat, x: string)
    requires Orderly(s) && Enabled(s, a) && d < |s.devices| && Quiet(s, s.devices[d].ownerId)
    requires a.Edit? ==> s.devices[a.d].ownerId != s.devices[d].ownerId
    requires Missing(s.server, s.devices[d], x) && !(a.Pull? && a.d == d)
    ensures Missing(Next(s, a).server, Next(s, a).devices[d], x)
  {
    hide Written, Inv, Steady, Quiet, MissedAfter, ServerAfter, DeviceStamps, Decided, OwnTimes, Lists;
    QuietFreezes(s, a, s.devices[d].ownerId);
    SteadyDevice(s, d);
    var dev := s.devices[d];
    if a.d == d && a.Apply? {
      assert dev.phase.pulled.value[dev.phase.applied].id in Ids(dev.phase.pulled.value);
    }
  }

  lemma {:induction false} StaysMissing(rules: Rules, s: State, steps: seq<Step>, d: nat, x: string)
    requires Settles(rules) && Orderly(s) && Runs(rules, s, steps) && d < |s.devices|
    requires Quiet(s, s.devices[d].ownerId) && NoEdits(s, steps, s.devices[d].ownerId)
    requires Missing(s.server, s.devices[d], x)
    requires forall i :: 0 <= i < |steps| ==> !(steps[i].Pull? && steps[i].d == d)
    ensures var r := After(rules, s, steps); Missing(r.server, r.devices[d], x)
    decreases |steps|
  {
    hide Missing, Written, Quiet, NoEdits, Inv, Steady, Moved, MissedAfter, ServerAfter, Enabled;
    OrderlyMissed(s);
    if steps == [] {
    } else {
      NoEditsFirst(s, steps, s.devices[d].ownerId);
      OrderlyNext(rules, s, steps[0]);
      QuietNext(s, steps[0], s.devices[d].ownerId);
      MissingNext(s, steps[0], d, x);
      StaysMissing(rules, Next(s, steps[0]), steps[1..], d, x);
    }
  }

  // --- Agreement -----------------------------------------------------------------------------

  /** A clean, synced device holds exactly its owner's rows of the server. */
  lemma SyncedAgrees(s: State, d: nat)
    requires Orderly(s) && d < |s.devices| && AllClean(s.devices[d]) && Synced(s.server, s.devices[d])
    ensures LocalItems(s.devices[d].rows) == OwnedItems(s.server, s.devices[d].ownerId)
  {
    hide Steady, Stored;
    var dev, t := s.devices[d], s.server;
    assert DeviceOk(t, s.owners, dev) && DeviceWritten(dev, s.written);
    forall x | x in dev.rows
      ensures x in t && t[x].ownerId == dev.ownerId && dev.rows[x].item == t[x].item
    {
      assert x !in DirtyIds(dev.rows);
      assert Owned(s.owners, dev.ownerId, x) && Owned(s.owners, t[x].ownerId, x);
      assert Held(dev.rows, t[x].item);
      assert SameStamp(dev.rows[x].item, t[x].item);
    }
  }

  /** All devices of the owner push in `steps`, from a state in order, while none of them edits. */
  lemma RoundPushes(rules: Rules, s: State, steps: seq<Step>, ownerId: string)
    requires Settles(rules) && Orderly(s) && |s.missed| == |s.devices| && Runs(rules, s, steps)
    requires NoEdits(s, steps, ownerId)
    requires forall d :: 0 <= d < |s.devices| && s.devices[d].ownerId == ownerId ==> Pushes(steps, d)
    ensures Orderly(After(rules, s, steps)) && Quiet(After(rules, s, steps), ownerId)
  {
    hide Pushes, Orderly, AllClean, NoEdits;
    OrderlyAfter(rules, s, steps);
    SameOwnersAfter(rules, s, steps);
    var r := After(rules, s, steps);
    forall d | 0 <= d < |r.devices| && r.devices[d].ownerId == ownerId ensures AllClean(r.devices[d]) {
      DevicePushes(rules, s, steps, d);
    }
  }

  lemma DevicePushes(rules: Rules, s: State, steps: seq<Step>, d: nat)
    requires |s.missed| == |s.devices| && Runs(rules, s, steps) && d < |s.devices|
    requires NoEdits(s, steps, s.devices[d].ownerId) && Pushes(steps, d)
    ensures AllClean(After(rules, s, steps).devices[d])
  {
    var i, j :| 0 <= i < j < |steps| && steps[i].Begin? && steps[i].d == d && steps[j] == Clean(d);
    PushGetsClean(rules, s, steps, d, i, j);
  }

  lemma DevicePulls(rules: Rules, s: State, steps: seq<Step>, d: nat)
    requires Converges(rules) && Orderly(s) && Covering(s) && |s.missed| == |s.devices| && Runs(rules, s, steps)
    requires d < |s.devices| && Quiet(s, s.devices[d].ownerId) && NoEdits(s, steps, s.devices[d].ownerId)
    requires Pulls(steps, d)
    ensures var r := After(rules, s, steps); Synced(r.server, r.devices[d])
  {
    hide Orderly, Covering, Quiet, NoEdits, Synced;
    var i, j :| 0 <= i < j < |steps| && steps[i].Pull? && steps[i].d == d && steps[j].Save? && steps[j].d == d;
    var k := LastPull(steps, d, i, j);
    PullGetsSynced(rules, s, steps, d, k, j);
  }

  /** From any reachable state of any number of devices of any owners: let the edits of one owner stop, let
      every device of that owner get one push through and then one pull, interleaved in any way with each
      other, with further, also failing, syncs, and with whatever the devices of other owners do. Then every
      device of the owner holds exactly the owner's rows of the server. */
  lemma Convergence(rules: Rules, s: State, edits: seq<Step>, pushes: seq<Step>, pulls: seq<Step>, ownerId: string)
    requires Converges(rules) && Initial(s) && Runs(rules, s, edits)
    requires Runs(rules, After(rules, s, edits), pushes) && NoEdits(s, pushes, ownerId)
    requires Runs(rules, After(rules, After(rules, s, edits), pushes), pulls) && NoEdits(s, pulls, ownerId)
    requires forall d :: 0 <= d < |s.devices| && s.devices[d].ownerId == ownerId ==> Pushes(pushes, d) && Pulls(pulls, d)
    ensures var r := After(rules, After(rules, After(rules, s, edits), pushes), pulls);
            forall d :: 0 <= d < |r.devices| && r.devices[d].ownerId == ownerId ==>
              LocalItems(r.devices[d].rows) == OwnedItems(r.server, ownerId)
  {
    hide Pushes, Pulls, Orderly, Covering, Steady, Quiet, Synced, LocalItems, OwnedItems;
    var s1 := After(rules, s, edits);
    var s2 := After(rules, s1, pushes);
    var r := After(rules, s2, pulls);
    SameOwnersAfter(rules, s, edits);
    SameOwnersAfter(rules, s1, pushes);
    SameOwnersAfter(rules, s2, pulls);
    InitialOrderly(s);
    OrderlyAfter(rules, s, edits);
    RoundPushes(rules, s1, pushes, ownerId);
    OrderlyAfter(rules, s2, pulls);
    QuietAfter(rules, s2, pulls, ownerId);
    InitialReliable(s);
    ReliableAfter(rules, s, edits);
    ReliableAfter(rules, s1, pushes);
    forall d | 0 <= d < |r.devices| && r.devices[d].ownerId == ownerId
      ensures LocalItems(r.devices[d].rows) == OwnedItems(r.server, ownerId)
    {
      DevicePulls(rules, s2, pulls, d);
      QuietDevice(r, d);
      SyncedAgrees(r, d);
    }
  }

  lemma QuietDevice(s: State, d: nat)
    requires d < |s.devices| && Quiet(s, s.devices[d].ownerId)
    ensures AllClean(s.devices[d])
  {
  }

  /** The same rounds without any timeliness: rows may reach the server as late as they like. A device of
      the quiet owner ends with exactly the owner's rows if and only if, when it last pulled, its cursor
      hid no row that it did not hold. */
  lemma RoundsAgreeExactly(rules: Rules, s: State, edits: seq<Step>, s1: State, pushes: seq<Step>, s2: State,
                           before: seq<Step>, m: State, d: nat, items: seq<Item>, rest: seq<Step>, r: State)
    requires Settles(rules) && Initial(s) && d < |s.devices|
    requires Takes(rules, s, edits, s1) && Takes(rules, s1, pushes, s2) && Takes(rules, s2, before, m)
    requires Takes(rules, m, [Pull(d, items)] + rest, r)
    requires var o := s.devices[d].ownerId; NoEdits(s, pushes, o) && NoEdits(s, before, o) && NoEdits(s, rest, o)
    requires forall e :: 0 <= e < |s.devices| && s.devices[e].ownerId == s.devices[d].ownerId ==> Pushes(pushes, e)
    requires forall i :: 0 <= i < |rest| ==> !(rest[i].Pull? && rest[i].d == d)
    requires exists j :: 0 <= j < |rest| && rest[j].Save? && rest[j].d == d
    ensures |m.devices| == |r.devices| == |s.devices|
    ensures var o := s.devices[d].ownerId;
            LocalItems(r.devices[d].rows) == OwnedItems(r.server, o)
            <==> Covered(m.server, m.devices[d].rows, o, m.devices[d].cursor)
  {
    hide Pushes, Orderly, Quiet, LocalItems, OwnedItems, Covered;
    SameOwnersAfter(rules, s, edits);
    SameOwnersAfter(rules, s1, pushes);
    SameOwnersAfter(rules, s2, before);
    InitialOrderly(s);
    OrderlyAfter(rules, s, edits);
    RoundPushes(rules, s1, pushes, s.devices[d].ownerId);
    OrderlyAfter(rules, s2, before);
    QuietAfter(rules, s2, before, s.devices[d].ownerId);
    LastPullDecides(rules, m, d, items, rest, r);
  }

  lemma LastPullDecides(rules: Rules, m: State, d: nat, items: seq<Item>, rest: seq<Step>, r: State)
    requires Settles(rules) && Orderly(m) && d < |m.devices| && Takes(rules, m, [Pull(d, items)] + rest, r)
    requires Quiet(m, m.devices[d].ownerId) && NoEdits(m, rest, m.devices[d].ownerId)
    requires forall i :: 0 <= i < |rest| ==> !(rest[i].Pull? && rest[i].d == d)
    requires exists j :: 0 <= j < |rest| && rest[j].Save? && rest[j].d == d
    ensures |r.devices| == |m.devices|
    ensures var dev := m.devices[d];
            LocalItems(r.devices[d].rows) == OwnedItems(r.server, dev.ownerId)
            <==> Covered(m.server, dev.rows, dev.ownerId, dev.cursor)
  {
    hide Quiet, Steady, Inv, Written, Enabled, Moved, ServerAfter, MissedAfter, LocalItems, OwnedItems, Covered, Synced, Draining, Missing, AllClean;
    var a, o := Pull(d, items), m.devices[d].ownerId;
    assert ([a] + rest)[0] == a && ([a] + rest)[1..] == rest;
    var n := Next(m, a);
    OrderlyMissed(m);
    SameOwners(m, a);
    OrderlyNext(rules, m, a);
    QuietNext(m, a, o);
    OrderlyAfter(rules, n, rest);
    QuietAfter(rules, n, rest, o);
    SameOwnersAfter(rules, n, rest);
    QuietDevice(r, d);
    if Covered(m.server, m.devices[d].rows, o, m.devices[d].cursor) {
      PullDrains(m, a);
      var j :| 0 <= j < |rest| && rest[j].Save? && rest[j].d == d;
      DrainingGetsSynced(rules, n, rest, d, j);
      SyncedAgrees(r, d);
    } else {
      var x := PullMisses(m, a);
      StaysMissing(rules, n, rest, d, x);
      MissingDisagrees(r, d, x);
    }
  }

  lemma MissingDisagrees(s: State, d: nat, x: string)
    requires Orderly(s) && d < |s.devices| && Missing(s.server, s.devices[d], x)
    ensures LocalItems(s.devices[d].rows) != OwnedItems(s.server, s.devices[d].ownerId)
  {
    hide Written, Steady, Stored;
    var dev, t := s.devices[d], s.server;
    assert x in OwnedItems(t, dev.ownerId) && OwnedItems(t, dev.ownerId)[x] == t[x].item;
    assert x in LocalItems(dev.rows) ==> LocalItems(dev.rows)[x] == dev.rows[x].item;
  }
}
