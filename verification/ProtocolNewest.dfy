/** The newest edit wins: what all devices agree on is the newest edit ever made of each id. */
module ProtocolNewest {
  import opened Records
  import opened SecretStore
  import opened DeviceStore
  import opened Protocol
  import opened ProtocolSafety
  import opened ProtocolCoverage
  import opened ProtocolConvergence

  /** The server holds the id of `w` at least as new. */
  predicate OnServer(t: Table, w: Item) {
    w.id in t && t[w.id].item.updatedAt >= w.updatedAt
  }

  /** The device will push a row of the id of `w` at least as new. */
  predicate Waiting(dev: Device, w: Item) {
    w.id in dev.rows && dev.rows[w.id].dirty && dev.rows[w.id].item.updatedAt >= w.updatedAt
  }

  ghost predicate Alive(s: State, w: Item) {
    OnServer(s.server, w) || exists d :: 0 <= d < |s.devices| && Waiting(s.devices[d], w)
  }

  /** No edit ever made is forgotten in favour of an older one. */
  ghost predicate NewestKept(s: State) {
    && (forall d :: 0 <= d < |s.devices| ==> DirtyInTime(s.devices[d]) && Decided(s.devices[d]))
    && (forall w :: w in s.written ==> w.id in s.owners && Alive(s, w))
  }

  lemma MovedInTime(s: State, a: Step)
    requires Enabled(s, a) && ClockMonotone(s, a) && DirtyInTime(s.devices[a.d])
    ensures DirtyInTime(Moved(s.devices[a.d], a))
  {
    if a.Edit? {
      TruncMonotone(s.devices[a.d].last, a.item.updatedAt);
    }
    if a.Save? {
      TruncMonotone(s.devices[a.d].last, a.time);
    }
  }

  /** A waiting edit gives way only to a later edit of the same device, to a pulled newer row, or to its
      own push: in each case something at least as new stays. */
  lemma StillAlive(s: State, a: Step, w: Item)
    requires Inv(s) && Enabled(s, a) && ClockMonotone(s, a)
    requires DirtyInTime(s.devices[a.d]) && Decided(s.devices[a.d]) && Waiting(s.devices[a.d], w)
    ensures Waiting(Moved(s.devices[a.d], a), w) || OnServer(s.server, w)
  {
    hide Lists, RowsOk, Arriving;
    var dev := s.devices[a.d];
    assert DeviceOk(s.server, s.owners, dev);
    match a {
      case Edit(_, item) => TruncMonotone(dev.last, item.updatedAt);
      case Clean(_) =>
        if w.id in Ids(dev.phase.batch) {
          var i :| 0 <= i < |dev.phase.batch| && dev.phase.batch[i].id == w.id;
          assert BatchItemOk(s.server, dev, dev.phase.batch[i], i < dev.phase.pushed);
        }
      case _ =>
    }
  }

  lemma NewestNext(s: State, a: Step)
    requires Inv(s) && NewestKept(s) && Enabled(s, a)
    requires OneOwner(s, a) && NoPulledEdit(s, a) && ClockMonotone(s, a)
    ensures NewestKept(Next(s, a))
  {
    hide Inv, DirtyInTime, Decided, Waiting, Moved, MissedAfter, ServerAfter;
    InvHasMissed(s);
    var s' := Next(s, a);
    WorldMoves(s, a);
    MovedInTime(s, a);
    MovedDecided(s, a);
    forall w | w in s'.written ensures w.id in s'.owners && Alive(s', w) {
      if w in s.written {
        if !OnServer(s.server, w) {
          var d :| 0 <= d < |s.devices| && Waiting(s.devices[d], w);
          if d == a.d {
            StillAlive(s, a, w);
          }
          assert Waiting(s'.devices[d], w) || OnServer(s.server, w);
        }
      } else {
        EditWaits(s, a);
        assert Waiting(s'.devices[a.d], w);
      }
    }
  }

  lemma InvHasMissed(s: State)
    requires Inv(s)
    ensures |s.missed| == |s.devices|
  {
  }

  lemma EditWaits(s: State, a: Step)
    requires Enabled(s, a)
    ensures a.Edit? ==> Waiting(Moved(s.devices[a.d], a), Stored(a.item))
  {
  }

  lemma {:induction false} NewestAfter(rules: Rules, s: State, steps: seq<Step>)
    requires Inv(s) && NewestKept(s) && Runs(rules, s, steps)
    requires rules.oneOwner && rules.noPushedEdit && rules.noPulledEdit && rules.clockMonotone
    ensures NewestKept(After(rules, s, steps))
    decreases |steps|
  {
    hide NewestKept, ServerOk, DeviceOk, Enabled, Moved, MissedAfter, ServerAfter;
    if steps == [] {
    } else {
      InvNext(s, steps[0]);
      NewestNext(s, steps[0]);
      NewestAfter(rules, Next(s, steps[0]), steps[1..]);
    }
  }

  /** In every reachable state an edit ever made of an id is outlived only by one at least as new: on the
      server, or on a device that has still to push it. */
  lemma NewestNeverForgotten(rules: Rules, s: State, steps: seq<Step>)
    requires Initial(s) && Runs(rules, s, steps)
    requires rules.oneOwner && rules.noPushedEdit && rules.noPulledEdit && rules.clockMonotone
    ensures var r := After(rules, s, steps); forall w :: w in r.written ==> Alive(r, w)
  {
    InitialOrderly(s);
    InitialNewest(s);
    NewestAfter(rules, s, steps);
  }

  /** After the two rounds that follow an owner's last edit, each device of the owner holds, for every id of
      the owner that was ever edited anywhere, an item some device wrote, and no edit of that id is newer. */
  lemma NewestEditWins(rules: Rules, s: State, edits: seq<Step>, pushes: seq<Step>, pulls: seq<Step>, ownerId: string)
    requires Converges(rules) && Initial(s) && Runs(rules, s, edits)
    requires Runs(rules, After(rules, s, edits), pushes) && NoEdits(s, pushes, ownerId)
    requires Runs(rules, After(rules, After(rules, s, edits), pushes), pulls) && NoEdits(s, pulls, ownerId)
    requires forall d :: 0 <= d < |s.devices| && s.devices[d].ownerId == ownerId ==> Pushes(pushes, d) && Pulls(pulls, d)
    ensures var r := After(rules, After(rules, After(rules, s, edits), pushes), pulls);
            forall d, w :: 0 <= d < |r.devices| && r.devices[d].ownerId == ownerId && w in r.written && Owned(r.owners, ownerId, w.id) ==>
              && w.id in r.devices[d].rows
              && r.devices[d].rows[w.id].item in r.written
              && r.devices[d].rows[w.id].item.updatedAt >= w.updatedAt
  {
    hide Pushes, Pulls, Orderly, Quiet, LocalItems, OwnedItems, NewestKept;
    var s1 := After(rules, s, edits);
    var s2 := After(rules, s1, pushes);
    var r := After(rules, s2, pulls);
    Convergence(rules, s, edits, pushes, pulls, ownerId);
    InitialOrderly(s);
    OrderlyAfter(rules, s, edits);
    SameOwnersAfter(rules, s, edits);
    SameOwnersAfter(rules, s1, pushes);
    RoundPushes(rules, s1, pushes, ownerId);
    OrderlyAfter(rules, s2, pulls);
    QuietAfter(rules, s2, pulls, ownerId);
    InitialNewest(s);
    OrderlyInv(s); OrderlyInv(s1); OrderlyInv(s2); OrderlyInv(r);
    NewestAfter(rules, s, edits);
    NewestAfter(rules, s1, pushes);
    NewestAfter(rules, s2, pulls);
    forall d, w | 0 <= d < |r.devices| && r.devices[d].ownerId == ownerId && w in r.written && Owned(r.owners, ownerId, w.id)
      ensures w.id in r.devices[d].rows
      ensures r.devices[d].rows[w.id].item in r.written
      ensures r.devices[d].rows[w.id].item.updatedAt >= w.updatedAt
    {
      NothingWaits(r, w, ownerId);
      AgreedIsNewest(r, d, w);
    }
  }

  /** Only devices of the owner hold a row of an owned id, and none of a quiet owner's waits to be pushed. */
  lemma NothingWaits(s: State, w: Item, ownerId: string)
    requires Inv(s) && Quiet(s, ownerId) && Owned(s.owners, ownerId, w.id)
    ensures forall e :: 0 <= e < |s.devices| ==> !Waiting(s.devices[e], w)
  {
    forall e | 0 <= e < |s.devices| ensures !Waiting(s.devices[e], w) {
      assert DeviceOk(s.server, s.owners, s.devices[e]);
      if s.devices[e].ownerId == ownerId {
        assert AllClean(s.devices[e]) && w.id !in DirtyIds(s.devices[e].rows);
      }
    }
  }

  lemma InitialNewest(s: State)
    requires Initial(s)
    ensures NewestKept(s)
  {
  }

  lemma OrderlyInv(s: State)
    requires Orderly(s)
    ensures Inv(s)
  {
  }

  lemma AgreedIsNewest(s: State, d: nat, w: Item)
    requires Orderly(s) && NewestKept(s) && d < |s.devices|
    requires forall e :: 0 <= e < |s.devices| ==> !Waiting(s.devices[e], w)
    requires LocalItems(s.devices[d].rows) == OwnedItems(s.server, s.devices[d].ownerId)
    requires w in s.written && Owned(s.owners, s.devices[d].ownerId, w.id)
    ensures w.id in s.devices[d].rows
    ensures s.devices[d].rows[w.id].item in s.written
    ensures s.devices[d].rows[w.id].item.updatedAt >= w.updatedAt
  {
    hide Steady, DeviceOk, Waiting;
    assert Alive(s, w) && OnServer(s.server, w);
    assert Owned(s.owners, s.server[w.id].ownerId, w.id);
    assert w.id in OwnedItems(s.server, s.devices[d].ownerId) && w.id in LocalItems(s.devices[d].rows);
    assert LocalItems(s.devices[d].rows)[w.id] == OwnedItems(s.server, s.devices[d].ownerId)[w.id];
  }
}
