/** Adds of new secrets while a sync of the same device is under way. */
module ProtocolAdds {
  import opened Records
  import opened SecretStore
  import opened DeviceStore
  import opened Protocol

  /** The ids device `d` edits in `steps`. */
  ghost function EditedIds(steps: seq<Step>, d: nat): set<string> {
    set i | 0 <= i < |steps| && steps[i].Edit? && steps[i].d == d :: steps[i].item.id
  }

  /** Neither the server nor any device has heard of the id. */
  ghost predicate Unheard(s: State, x: string) {
    x !in s.server && forall e :: 0 <= e < |s.devices| ==> x !in s.devices[e].rows && NotSent(s.devices[e], x)
  }

  /** The id is in nothing the device has sent, is pushing or has pulled. */
  ghost predicate NotSent(dev: Device, x: string) {
    && (forall item :: item in dev.sent ==> item.id != x)
    && (dev.phase.Busy? ==>
          x !in Ids(dev.phase.batch) && (dev.phase.pulled.Some? ==> x !in Ids(dev.phase.pulled.value)))
  }

  /** Only device `d` knows the ids. */
  ghost predicate Private(s: State, d: nat, ids: set<string>) {
    forall x :: x in ids ==>
      x !in s.server && forall e :: 0 <= e < |s.devices| ==>
        NotSent(s.devices[e], x) && (e != d ==> x !in s.devices[e].rows)
  }

  /** In `steps` device `d` edits only ids nobody has heard of at the start, and no other device edits them. */
  ghost predicate FreshAdds(s: State, steps: seq<Step>, d: nat) {
    && (forall x :: x in EditedIds(steps, d) ==> Unheard(s, x))
    && (forall i :: 0 <= i < |steps| && steps[i].Edit? && steps[i].d != d ==> steps[i].item.id !in EditedIds(steps, d))
  }

  /** `steps` go on with one sync of device `d` up to its save. */
  ghost predicate UpToSave(steps: seq<Step>, d: nat) {
    && steps != [] && steps[|steps| - 1].Save? && steps[|steps| - 1].d == d
    && forall i :: 0 <= i < |steps| - 1 && steps[i].d == d ==> !steps[i].Begin? && !steps[i].Save? && !steps[i].Abort?
  }

  /** The sync read everything that is dirty but the ids added since; once it has cleaned, only those are. */
  ghost predicate Tracks(dev: Device, added: set<string>) {
    && dev.phase.Busy?
    && added <= DirtyIds(dev.rows) <= Ids(dev.phase.batch) + added
    && (dev.phase.cleaned ==> DirtyIds(dev.rows) == added)
  }

  lemma ListedIds(items: seq<Item>, selected: map<string, Item>)
    requires Lists(items, selected)
    ensures Ids(items) == selected.Keys
  {
    forall x ensures x in Ids(items) <==> x in selected {}
  }

  /** What a device moves around keeps an id private that it has neither sent nor pulled. */
  lemma MovedNotSent(s: State, a: Step, x: string)
    requires Enabled(s, a) && x !in s.server && NotSent(s.devices[a.d], x)
    requires a.Begin? ==> x !in s.devices[a.d].rows
    ensures NotSent(Moved(s.devices[a.d], a), x)
    ensures x in Moved(s.devices[a.d], a).rows ==> x in s.devices[a.d].rows || (a.Edit? && a.item.id == x)
  {
    var dev := s.devices[a.d];
    if a.Begin? {
      ListedIds(a.batch, DirtyItems(dev.rows));
      forall item | item in a.batch ensures item.id != x {
        assert item.id in Ids(a.batch);
      }
    }
    if a.Pull? {
      ListedIds(a.items, UpdatedSince(s.server, dev.ownerId, dev.cursor));
    }
    if a.Apply? {
      assert dev.phase.pulled.value[dev.phase.applied].id in Ids(dev.phase.pulled.value);
    }
  }

  lemma ServerNotSent(s: State, a: Step, x: string)
    requires Enabled(s, a) && x !in s.server && NotSent(s.devices[a.d], x)
    ensures x !in ServerAfter(s, a)
  {
    if a.Push? {
      assert s.devices[a.d].phase.batch[s.devices[a.d].phase.pushed].id in Ids(s.devices[a.d].phase.batch);
    }
  }

  lemma PrivateNext(s: State, a: Step, d: nat, ids: set<string>)
    requires |s.missed| == |s.devices| && Enabled(s, a) && Private(s, d, ids)
    requires a.Edit? && a.d != d ==> a.item.id !in ids
    requires a.Begin? && a.d == d ==> forall x :: x in ids ==> x !in s.devices[d].rows
    ensures Private(Next(s, a), d, ids)
  {
    hide MissedAfter, NotSent, Moved, ServerAfter;
    forall x | x in ids
      ensures x !in Next(s, a).server && NotSent(Moved(s.devices[a.d], a), x) && (a.d != d ==> x !in Moved(s.devices[a.d], a).rows)
    {
      ServerNotSent(s, a, x);
      MovedNotSent(s, a, x);
    }
  }

  /** One step of the syncing device: an edit adds its id, nothing else makes a row dirty, and the cleaning
      leaves exactly the added ids. */
  lemma TracksNext(s: State, a: Step, d: nat, ids: set<string>, added: set<string>)
    requires Enabled(s, a) && a.d == d && !a.Begin? && !a.Save? && !a.Abort?
    requires Private(s, d, ids) && added <= ids && Tracks(s.devices[d], added)
    requires a.Edit? ==> a.item.id in ids
    ensures Tracks(Moved(s.devices[d], a), added + EditedIds([a], d))
  {
    var dev := s.devices[d];
    assert forall x :: x in ids ==> NotSent(dev, x);
    match a {
      case Edit(_, item) =>
        assert [a][0] == a && item.id in EditedIds([a], d);
        assert DirtyIds(Moved(dev, a).rows) == DirtyIds(dev.rows) + {item.id};
      case Apply(_) =>
        assert dev.phase.pulled.value[dev.phase.applied].id in Ids(dev.phase.pulled.value);
        assert DirtyIds(Moved(dev, a).rows) <= DirtyIds(dev.rows);
      case Clean(_) =>
        assert DirtyIds(Moved(dev, a).rows) == DirtyIds(dev.rows) - Ids(dev.phase.batch);
      case _ =>
    }
  }

  lemma {:induction false} TracksUpToSave(rules: Rules, s: State, steps: seq<Step>, d: nat, ids: set<string>, added: set<string>)
    requires |s.missed| == |s.devices| && Runs(rules, s, steps) && d < |s.devices| && UpToSave(steps, d)
    requires Private(s, d, ids) && added <= ids && Tracks(s.devices[d], added)
    requires EditedIds(steps, d) <= ids
    requires forall i :: 0 <= i < |steps| && steps[i].Edit? && steps[i].d != d ==> steps[i].item.id !in ids
    ensures DirtyIds(After(rules, s, steps).devices[d].rows) == added + EditedIds(steps, d)
    decreases |steps|
  {
    hide Private, Tracks, MissedAfter, ServerAfter, DirtyIds, EditedIds;
    var a, rest := steps[0], steps[1..];
    EditedIdsFirst(steps, d);
    if rest == [] {
      SaveTracks(s, a, added);
      assert After(rules, Next(s, a), rest) == Next(s, a);
      NothingEdited(d);
    } else {
      PrivateNext(s, a, d, ids);
      if a.d == d {
        TracksNext(s, a, d, ids, added);
      } else {
        assert added + EditedIds([a], d) == added;
      }
      TracksUpToSave(rules, Next(s, a), rest, d, ids, added + EditedIds([a], d));
    }
  }

  lemma NothingEdited(d: nat)
    ensures EditedIds([], d) == {}
  {
  }

  lemma EditedIdsFirst(steps: seq<Step>, d: nat)
    requires steps != []
    ensures EditedIds(steps, d) == EditedIds([steps[0]], d) + EditedIds(steps[1..], d)
    ensures steps[0].Edit? && steps[0].d == d ==> steps[0].item.id in EditedIds(steps, d)
    ensures !steps[0].Edit? || steps[0].d != d ==> EditedIds([steps[0]], d) == {}
  {
    assert steps == [steps[0]] + steps[1..];
    EditedIdsOfBoth([steps[0]], steps[1..], d);
  }

  lemma EditedIdsOfBoth(a: seq<Step>, b: seq<Step>, d: nat)
    ensures EditedIds(a + b, d) == EditedIds(a, d) + EditedIds(b, d)
  {
    forall x | x in EditedIds(b, d) ensures x in EditedIds(a + b, d) {
      var i :| 0 <= i < |b| && b[i].Edit? && b[i].d == d && b[i].item.id == x;
      assert (a + b)[|a| + i] == b[i];
    }
    forall x | x in EditedIds(a, d) ensures x in EditedIds(a + b, d) {
      var i :| 0 <= i < |a| && a[i].Edit? && a[i].d == d && a[i].item.id == x;
      assert (a + b)[i] == a[i];
    }
  }

  lemma SaveTracks(s: State, a: Step, added: set<string>)
    requires Enabled(s, a) && a.Save? && Tracks(s.devices[a.d], added)
    ensures DirtyIds(Moved(s.devices[a.d], a).rows) == added
    ensures EditedIds([a], a.d) == {}
  {
  }

  /** A sync from its begin to its save, with adds of fresh ids on the device and anything on the other
      devices in between: in the end exactly the added ids are dirty. */
  lemma SyncCleansWhatItRead(rules: Rules, s: State, steps: seq<Step>, d: nat)
    requires |s.missed| == |s.devices| && Runs(rules, s, steps) && d < |s.devices|
    requires |steps| > 1 && steps[0].Begin? && steps[0].d == d && UpToSave(steps[1..], d)
    requires FreshAdds(s, steps, d)
    ensures DirtyIds(After(rules, s, steps).devices[d].rows) == EditedIds(steps, d)
  {
    hide MissedAfter, ServerAfter, EditedIds;
    var a, rest := steps[0], steps[1..];
    var ids := EditedIds(steps, d);
    EditedIdsFirst(steps, d);
    assert Private(s, d, ids) by {
      assert forall x :: x in ids ==> Unheard(s, x);
    }
    PrivateNext(s, a, d, ids);
    ListedIds(a.batch, DirtyItems(s.devices[d].rows));
    TracksUpToSave(rules, Next(s, a), rest, d, ids, {});
  }
}
