/** Times in a run, and why a pull from the saved cursor misses nothing. */
module ProtocolCoverage {
  import opened Records
  import opened SecretStore
  import opened SyncService
  import opened DeviceStore
  import opened SyncLaws
  import opened Protocol

  // --- Whole seconds -------------------------------------------------------------------------

  /** An item as a device stores it, with both its times. */
  predicate Stamp(item: Item) {
    Stored(item) == item && item.createdAt != ZERO_TIME && item.updatedAt != ZERO_TIME
  }

  ghost predicate AllStamps(items: seq<Item>) {
    forall i :: 0 <= i < |items| ==> Stamp(items[i])
  }

  ghost predicate DeviceStamps(dev: Device) {
    && (forall x :: x in dev.rows ==> Stamp(dev.rows[x].item))
    && (forall item :: item in dev.sent ==> Stamp(item))
    && (dev.phase.Busy? ==> AllStamps(dev.phase.batch) && (dev.phase.pulled.Some? ==> AllStamps(dev.phase.pulled.value)))
  }

  ghost predicate ServerStamps(t: Table) {
    forall x :: x in t ==> Stamp(t[x].item)
  }

  ghost predicate Stamps(s: State) {
    && |s.missed| == |s.devices|
    && ServerStamps(s.server)
    && forall d :: 0 <= d < |s.devices| ==> DeviceStamps(s.devices[d])
  }

  /** A stamped item arrives at the server as it is: there is nothing to fill in. */
  lemma ArrivesAsSent(s: State, a: Step)
    requires Enabled(s, a) && DeviceStamps(s.devices[a.d]) && Arriving(s, a).Some?
    ensures Stamp(Arriving(s, a).value.item)
    ensures Arriving(s, a).value
         == Secret(s.devices[a.d].ownerId, if a.Push? then s.devices[a.d].phase.batch[s.devices[a.d].phase.pushed] else a.item)
  {
  }

  lemma ListedStamps(items: seq<Item>, selected: map<string, Item>)
    requires Lists(items, selected) && forall x :: x in selected ==> Stamp(selected[x])
    ensures AllStamps(items)
  {
  }

  lemma MovedStamps(s: State, a: Step)
    requires Enabled(s, a) && Stamped(s, a) && ServerStamps(s.server) && DeviceStamps(s.devices[a.d])
    ensures DeviceStamps(Moved(s.devices[a.d], a))
  {
    hide Lists, Stamp, Stored;
    var dev := s.devices[a.d];
    match a {
      case Edit(_, item) => EditStamp(item);
      case Begin(_, batch) => ListedStamps(batch, DirtyItems(dev.rows));
      case Pull(_, items) => ListedStamps(items, UpdatedSince(s.server, dev.ownerId, dev.cursor));
      case Apply(_) => StoredStamp(dev.phase.pulled.value[dev.phase.applied]);
      case _ =>
    }
  }

  lemma EditStamp(item: Item)
    ensures Trunc(item.createdAt) != ZERO_TIME && Trunc(item.updatedAt) != ZERO_TIME ==> Stamp(Stored(item))
  {
  }

  lemma StoredStamp(item: Item)
    requires Stamp(item)
    ensures Stored(item) == item && Whole(item.updatedAt)
  {
  }

  lemma StampsNext(s: State, a: Step)
    requires Stamps(s) && Enabled(s, a) && Stamped(s, a)
    ensures Stamps(Next(s, a))
  {
    hide DeviceStamps, Stamp, Moved, MissedAfter;
    MovedStamps(s, a);
    if Arriving(s, a).Some? {
      ArrivesAsSent(s, a);
    }
  }

  lemma {:induction false} StampsAfter(rules: Rules, s: State, steps: seq<Step>)
    requires Stamps(s) && Runs(rules, s, steps) && rules.stamped
    ensures Stamps(After(rules, s, steps))
    decreases |steps|
  {
    if steps == [] {
    } else {
      StampsNext(s, steps[0]);
      StampsAfter(rules, Next(s, steps[0]), steps[1..]);
    }
  }

  /** In every run whose edits carry times, every time in every table is a whole second other than zero,
      so the server's `<` and the device's `After` compare the same numbers; and if nobody edits a pulled row
      before its sync has ended, a device replaces a row by a pulled one only when the stored time rises. */
  lemma WholeSeconds(rules: Rules, s: State, steps: seq<Step>)
    requires Initial(s) && Runs(rules, s, steps) && rules.stamped
    ensures var r := After(rules, s, steps);
            && (forall x :: x in r.server ==> Whole(r.server[x].item.updatedAt) && r.server[x].item.updatedAt != ZERO_TIME)
            && (forall d, x :: 0 <= d < |r.devices| && x in r.devices[d].rows ==>
                  Whole(r.devices[d].rows[x].item.updatedAt) && r.devices[d].rows[x].item.updatedAt != ZERO_TIME)
            && (forall d, x :: rules.noPulledEdit && 0 <= d < |r.devices| && Enabled(r, Apply(d)) && x in r.devices[d].rows ==>
                  var rows := Next(r, Apply(d)).devices[d].rows;
                  x in rows && (rows[x] == r.devices[d].rows[x] || rows[x].item.updatedAt > r.devices[d].rows[x].item.updatedAt))
  {
    StampsAfter(rules, s, steps);
    var r := After(rules, s, steps);
    StampsWhole(r);
    if rules.noPulledEdit {
      DecidedAfter(rules, s, steps);
    }
    forall d, x | rules.noPulledEdit && 0 <= d < |r.devices| && Enabled(r, Apply(d)) && x in r.devices[d].rows
      ensures var rows := Next(r, Apply(d)).devices[d].rows;
              x in rows && (rows[x] == r.devices[d].rows[x] || rows[x].item.updatedAt > r.devices[d].rows[x].item.updatedAt)
    {
      AppliedRises(r, d, x);
    }
  }

  lemma StampsWhole(s: State)
    requires Stamps(s)
    ensures forall x :: x in s.server ==> Whole(s.server[x].item.updatedAt) && s.server[x].item.updatedAt != ZERO_TIME
    ensures forall d, x :: 0 <= d < |s.devices| && x in s.devices[d].rows ==>
              Whole(s.devices[d].rows[x].item.updatedAt) && s.devices[d].rows[x].item.updatedAt != ZERO_TIME
  {
    forall x | x in s.server ensures Whole(s.server[x].item.updatedAt) {
      StoredStamp(s.server[x].item);
    }
    forall d, x | 0 <= d < |s.devices| && x in s.devices[d].rows ensures Whole(s.devices[d].rows[x].item.updatedAt) {
      assert DeviceStamps(s.devices[d]);
      StoredStamp(s.devices[d].rows[x].item);
    }
  }

  lemma AppliedRises(s: State, d: nat, x: string)
    requires Stamps(s) && AllDecided(s) && d < |s.devices| && Enabled(s, Apply(d)) && x in s.devices[d].rows
    ensures var rows := Next(s, Apply(d)).devices[d].rows;
            x in rows && (rows[x] == s.devices[d].rows[x] || rows[x].item.updatedAt > s.devices[d].rows[x].item.updatedAt)
  {
    var dev := s.devices[d];
    assert DeviceStamps(dev) && Decided(dev);
    DecidedApplies(dev, Apply(d));
    StoredStamp(dev.phase.pulled.value[dev.phase.applied]);
  }

  // --- Shape ---------------------------------------------------------------------------------

  ghost predicate DeviceShape(dev: Device) {
    && RowsOk(dev.rows)
    && (dev.phase.Busy? ==> forall i :: 0 <= i < |dev.phase.batch| ==> dev.phase.batch[i] in dev.sent)
  }

  /** What holds in every run without any hypothesis: rows sit under their ids and what is pushed was sent. */
  ghost predicate Shape(s: State) {
    && |s.missed| == |s.devices|
    && WellKeyed(s.server)
    && forall d :: 0 <= d < |s.devices| ==> DeviceShape(s.devices[d])
  }

  lemma MovedShape(s: State, a: Step)
    requires Enabled(s, a) && DeviceShape(s.devices[a.d])
    ensures DeviceShape(Moved(s.devices[a.d], a))
  {
    if a.Edit? {
      StoredTwice(a.item);
    }
    if a.Apply? {
      StoredTwice(s.devices[a.d].phase.pulled.value[s.devices[a.d].phase.applied]);
    }
  }

  lemma ShapeNext(s: State, a: Step)
    requires Shape(s) && Enabled(s, a)
    ensures Shape(Next(s, a))
  {
    hide DeviceShape, Moved, MissedAfter, Filled;
    MovedShape(s, a);
  }

  // --- A device's clock and its own edits ----------------------------------------------------

  /** The device holds the id of `item` at least as new. */
  predicate Held(rows: Rows, item: Item) {
    item.id in rows && rows[item.id].item.updatedAt >= item.updatedAt
  }

  /** A device's own unpushed edits are no newer than its clock. */
  ghost predicate DirtyInTime(dev: Device) {
    forall x :: x in dev.rows && dev.rows[x].dirty ==> dev.rows[x].item.updatedAt <= Trunc(dev.last)
  }

  ghost predicate OwnTimes(dev: Device) {
    && dev.cursor <= Trunc(dev.last)
    && (forall item :: item in dev.sent ==> item.updatedAt <= Trunc(dev.last) && Held(dev.rows, item))
    && DirtyInTime(dev)
  }

  ghost predicate InTime(s: State) {
    forall d :: 0 <= d < |s.devices| ==> OwnTimes(s.devices[d])
  }

  /** Without edits the rows of a device only get newer. */
  lemma RowsRise(s: State, a: Step)
    requires Enabled(s, a) && !a.Edit? && DeviceStamps(s.devices[a.d]) && Decided(s.devices[a.d]) && RowsOk(s.devices[a.d].rows)
    ensures var rows, rows' := s.devices[a.d].rows, Moved(s.devices[a.d], a).rows;
            forall x :: x in rows ==> x in rows' && rows[x].item.updatedAt <= rows'[x].item.updatedAt
                                      && (rows'[x].dirty ==> rows'[x] == rows[x])
    ensures forall x :: x in Moved(s.devices[a.d], a).rows && x !in s.devices[a.d].rows ==> !Moved(s.devices[a.d], a).rows[x].dirty
  {
    var dev := s.devices[a.d];
    if a.Apply? {
      DecidedApplies(dev, a);
      StoredStamp(dev.phase.pulled.value[dev.phase.applied]);
    }
  }

  lemma MovedOwnTimes(s: State, a: Step)
    requires Enabled(s, a) && ClockMonotone(s, a) && OwnTimes(s.devices[a.d])
    requires DeviceShape(s.devices[a.d]) && DeviceStamps(s.devices[a.d]) && Decided(s.devices[a.d])
    ensures OwnTimes(Moved(s.devices[a.d], a))
  {
    hide DeviceStamps, Decided, Stamp;
    var dev := s.devices[a.d];
    match a {
      case Edit(_, item) => TruncMonotone(dev.last, item.updatedAt);
      case Save(_, time) => TruncMonotone(dev.last, time);
      case _ => RowsRise(s, a);
    }
  }

  lemma InTimeNext(s: State, a: Step)
    requires |s.missed| == |s.devices| && Shape(s) && AllDecided(s) && Stamps(s) && InTime(s)
    requires Enabled(s, a) && ClockMonotone(s, a)
    ensures InTime(Next(s, a))
  {
    hide OwnTimes, Moved, MissedAfter, ServerAfter, DeviceStamps, DeviceShape, Decided;
    MovedOwnTimes(s, a);
  }

  /** What holds in every run whose edits are stamped, whose clocks do not go back and whose syncs find the
      pulled rows as they compared them. */
  ghost predicate Steady(s: State) {
    |s.missed| == |s.devices| && Shape(s) && AllDecided(s) && Stamps(s) && InTime(s)
  }

  predicate Steadies(rules: Rules) {
    rules.noPulledEdit && rules.clockMonotone && rules.stamped
  }

  lemma SteadyNext(rules: Rules, s: State, a: Step)
    requires Steadies(rules) && Steady(s) && Enabled(s, a) && Obeys(rules, s, a)
    ensures Steady(Next(s, a))
  {
    hide Shape, AllDecided, Stamps, InTime, Next;
    ShapeNext(s, a);
    DecidedNext(s, a);
    StampsNext(s, a);
    InTimeNext(s, a);
  }

  lemma SteadyDevice(s: State, d: nat)
    requires Steady(s) && d < |s.devices|
    ensures DeviceShape(s.devices[d]) && Decided(s.devices[d]) && DeviceStamps(s.devices[d]) && OwnTimes(s.devices[d])
    ensures WellKeyed(s.server) && ServerStamps(s.server) && |s.missed| == |s.devices|
  {
  }

  // --- The coverage invariant ----------------------------------------------------------------

  predicate Pulling(dev: Device) {
    dev.phase.Busy? && dev.phase.pulled.Some?
  }

  /** A pulled row not yet applied will bring the device up to `item`. */
  ghost predicate Pending(dev: Device, item: Item) {
    Pulling(dev) && exists i :: dev.phase.applied <= i < |dev.phase.pulled.value|
                                && dev.phase.pulled.value[i].id == item.id
                                && dev.phase.pulled.value[i].updatedAt >= item.updatedAt
  }

  /** A row of the owner is held, or the next pull will see it, or the one under way has it or knows it
      came too late. */
  ghost predicate RowCovered(dev: Device, missed: set<Time>, item: Item) {
    || Held(dev.rows, item)
    || (item.updatedAt > dev.cursor && (Pulling(dev) ==> Pending(dev, item) || item.updatedAt in missed))
  }

  /** During a pull a row is no newer than the device's clock, or among the pulled ones, or too late. */
  ghost predicate RowKnown(dev: Device, missed: set<Time>, item: Item) {
    Pulling(dev) ==>
      item.updatedAt <= Trunc(dev.last) || item.id in Ids(dev.phase.pulled.value) || item.updatedAt in missed
  }

  ghost predicate CoverOk(t: Table, dev: Device, missed: set<Time>) {
    forall x :: x in t && t[x].ownerId == dev.ownerId ==>
      RowCovered(dev, missed, t[x].item) && RowKnown(dev, missed, t[x].item)
  }

  ghost predicate Covering(s: State) {
    && |s.missed| == |s.devices|
    && forall d :: 0 <= d < |s.devices| ==> CoverOk(s.server, s.devices[d], s.missed[d])
  }

  /** A step of another device: a timely row is beyond the cursor, and noted if it came too late. */
  lemma CoverOther(s: State, a: Step, d: nat)
    requires Covering(s) && Enabled(s, a) && Timely(s, a) && d < |s.devices| && d != a.d
    ensures CoverOk(Next(s, a).server, s.devices[d], Next(s, a).missed[d])
  {
  }

  /** A row the device sent itself: it holds that row already. */
  lemma CoverOwnRow(t: Table, dev: Device, missed: set<Time>, item: Item)
    requires CoverOk(t, dev, missed) && OwnTimes(dev) && item in dev.sent
    ensures CoverOk(UpsertRow(t, Secret(dev.ownerId, item)), dev, missed)
  {
  }

  lemma CoverEdit(t: Table, dev: Device, missed: set<Time>, a: Step)
    requires WellKeyed(t) && CoverOk(t, dev, missed) && OwnTimes(dev) && a.Edit? && a.item.updatedAt >= dev.last
    requires Pulling(dev) ==> a.item.id !in Ids(dev.phase.pulled.value)
    ensures CoverOk(t, Moved(dev, a), missed)
  {
    var dev' := Moved(dev, a);
    TruncMonotone(dev.last, a.item.updatedAt);
    forall x | x in t && t[x].ownerId == dev.ownerId
      ensures RowCovered(dev', missed, t[x].item) && RowKnown(dev', missed, t[x].item)
    {
      assert RowCovered(dev, missed, t[x].item) && RowKnown(dev, missed, t[x].item);
      if Pending(dev, t[x].item) {
        assert Pending(dev', t[x].item);
      }
    }
  }

  lemma CoverBegin(t: Table, dev: Device, missed: set<Time>, a: Step)
    requires CoverOk(t, dev, missed) && RowsOk(dev.rows) && a.Begin?
    requires dev.phase.Idle? && Lists(a.batch, DirtyItems(dev.rows))
    ensures CoverOk(t, Moved(dev, a), missed)
  {
  }

  /** Changes of the phase that leave an open pull as it is, or close it, cover what was covered. */
  lemma CoverFrame(t: Table, dev: Device, dev': Device, missed: set<Time>)
    requires CoverOk(t, dev, missed)
    requires dev'.ownerId == dev.ownerId && dev'.cursor == dev.cursor && dev'.last == dev.last
    requires dev.rows.Keys <= dev'.rows.Keys
    requires forall x :: x in dev.rows ==> dev.rows[x].item.updatedAt <= dev'.rows[x].item.updatedAt
    requires Pulling(dev') ==> Pulling(dev) && dev'.phase.pulled == dev.phase.pulled && dev'.phase.applied == dev.phase.applied
    ensures CoverOk(t, dev', missed)
  {
  }

  lemma CoverPull(t: Table, dev: Device, missed: set<Time>, a: Step)
    requires WellKeyed(t) && CoverOk(t, dev, missed) && OwnTimes(dev) && a.Pull? && dev.phase.Busy? && dev.phase.pulled.None?
    requires Lists(a.items, UpdatedSince(t, dev.ownerId, dev.cursor))
    ensures CoverOk(t, Moved(dev, a), {})
  {
    var dev' := Moved(dev, a);
    forall x | x in t && t[x].ownerId == dev.ownerId
      ensures RowCovered(dev', {}, t[x].item) && RowKnown(dev', {}, t[x].item)
    {
      assert RowCovered(dev, missed, t[x].item);
      if t[x].item.updatedAt > dev.cursor {
        assert x in UpdatedSince(t, dev.ownerId, dev.cursor);
        var i :| 0 <= i < |a.items| && a.items[i].id == x;
        assert dev'.phase.pulled.value[i].id == t[x].item.id;
      }
    }
  }

  lemma CoverApply(t: Table, dev: Device, missed: set<Time>, a: Step)
    requires CoverOk(t, dev, missed) && RowsOk(dev.rows) && DeviceStamps(dev) && Decided(dev)
    requires a.Apply? && Pulling(dev) && dev.phase.applied < |dev.phase.pulled.value| && dev.phase.wins.Some?
    ensures CoverOk(t, Moved(dev, a), missed)
  {
    var dev', p := Moved(dev, a), dev.phase.pulled.value[dev.phase.applied];
    StoredStamp(p);
    DecidedApplies(dev, a);
    assert Held(dev'.rows, p);
    forall x | x in t && t[x].ownerId == dev.ownerId
      ensures RowCovered(dev', missed, t[x].item) && RowKnown(dev', missed, t[x].item)
    {
      assert RowCovered(dev, missed, t[x].item) && RowKnown(dev, missed, t[x].item);
      if Pending(dev, t[x].item) && !Held(dev'.rows, t[x].item) {
        var i :| dev.phase.applied <= i < |dev.phase.pulled.value|
                 && dev.phase.pulled.value[i].id == t[x].item.id
                 && dev.phase.pulled.value[i].updatedAt >= t[x].item.updatedAt;
        assert i != dev.phase.applied;
        assert dev'.phase.pulled.value[i].id == t[x].item.id;
      }
    }
  }

  /** Saving the time: what the pull did not bring came too late, and is beyond the new cursor. */
  lemma CoverSave(t: Table, dev: Device, missed: set<Time>, a: Step)
    requires CoverOk(t, dev, missed) && a.Save? && Pulling(dev) && dev.phase.applied == |dev.phase.pulled.value|
    requires a.time >= dev.last && forall m :: m in missed ==> m > Trunc(a.time)
    ensures CoverOk(t, Moved(dev, a), missed)
  {
    TruncMonotone(dev.last, a.time);
    forall x | x in t && t[x].ownerId == dev.ownerId
      ensures RowCovered(Moved(dev, a), missed, t[x].item)
    {
      assert RowCovered(dev, missed, t[x].item);
    }
  }

  lemma CoverActor(s: State, a: Step)
    requires Steady(s) && Covering(s) && Enabled(s, a)
    requires NoPulledEdit(s, a) && ClockMonotone(s, a) && Timely(s, a)
    ensures CoverOk(Next(s, a).server, Moved(s.devices[a.d], a), Next(s, a).missed[a.d])
  {
    hide Steady, CoverOk, DeviceStamps, Decided, OwnTimes, Stored, Lists, UpsertRow, WellKeyed;
    var dev, t, m := s.devices[a.d], s.server, s.missed[a.d];
    SteadyDevice(s, a.d);
    match a {
      case Edit(_, _) => CoverEdit(t, dev, m, a);
      case Begin(_, _) => CoverBegin(t, dev, m, a);
      case Push(_, _) => CoverArrival(s, a); CoverPhase(Next(s, a).server, dev, m, a);
      case Deliver(_, _, _) => CoverArrival(s, a);
      case Pull(_, _) => CoverPull(t, dev, m, a);
      case Compare(_) => CoverPhase(t, dev, m, a);
      case Apply(_) => CoverApply(t, dev, m, a);
      case Clean(_) => CoverPhase(t, dev, m, a);
      case Save(_, _) => CoverSave(t, dev, m, a);
      case Abort(_) => CoverPhase(t, dev, m, a);
    }
  }

  lemma CoverArrival(s: State, a: Step)
    requires Steady(s) && Covering(s) && Enabled(s, a) && (a.Push? || a.Deliver?)
    ensures CoverOk(Next(s, a).server, s.devices[a.d], s.missed[a.d])
  {
    hide Steady, CoverOk, OwnTimes, Stamp;
    var dev := s.devices[a.d];
    SteadyDevice(s, a.d);
    ArrivesAsSent(s, a);
    CoverOwnRow(s.server, dev, s.missed[a.d], Arriving(s, a).value.item);
  }

  lemma CoverPhase(t: Table, dev: Device, missed: set<Time>, a: Step)
    requires CoverOk(t, dev, missed) && (a.Push? || a.Compare? || a.Clean? || a.Abort?) && dev.phase.Busy?
    requires a.Compare? ==> dev.phase.pulled.Some? && dev.phase.applied < |dev.phase.pulled.value|
    ensures CoverOk(t, Moved(dev, a), missed)
  {
    CoverFrame(t, dev, Moved(dev, a), missed);
  }

  lemma CoveringNext(s: State, a: Step)
    requires Steady(s) && Covering(s) && Enabled(s, a)
    requires NoPulledEdit(s, a) && ClockMonotone(s, a) && Timely(s, a)
    ensures Covering(Next(s, a))
  {
    hide Steady, CoverOk, Moved, ServerAfter, MissedAfter;
    CoverActor(s, a);
    forall d | 0 <= d < |s.devices| ensures CoverOk(Next(s, a).server, Next(s, a).devices[d], Next(s, a).missed[d]) {
      if d != a.d {
        CoverOther(s, a, d);
      }
    }
  }

  /** The rules under which cursors can be trusted. */
  predicate Covers(rules: Rules) {
    Steadies(rules) && rules.timely
  }

  ghost predicate Reliable(s: State) {
    Steady(s) && Covering(s)
  }

  lemma ReliableNext(rules: Rules, s: State, a: Step)
    requires Covers(rules) && Reliable(s) && Enabled(s, a) && Obeys(rules, s, a)
    ensures Reliable(Next(s, a))
  {
    hide Steady, Covering, Next;
    SteadyNext(rules, s, a);
    CoveringNext(s, a);
  }

  lemma {:induction false} ReliableAfter(rules: Rules, s: State, steps: seq<Step>)
    requires Covers(rules) && Reliable(s) && Runs(rules, s, steps)
    ensures Reliable(After(rules, s, steps))
    decreases |steps|
  {
    hide Steady, CoverOk;
    if steps == [] {
    } else {
      ReliableNext(rules, s, steps[0]);
      ReliableAfter(rules, Next(s, steps[0]), steps[1..]);
    }
  }

  lemma InitialReliable(s: State)
    requires Initial(s)
    ensures Reliable(s)
  {
  }

  lemma CoverOkCovers(t: Table, dev: Device, missed: set<Time>)
    requires WellKeyed(t) && CoverOk(t, dev, missed)
    ensures Covered(t, dev.rows, dev.ownerId, dev.cursor)
  {
  }

  /** In every reachable state each device holds, at least as new, every row of its owner that its cursor
      hides from its next pull: through edits, partial applies, failed syncs and cursor saves. */
  lemma CoverageInEveryRun(rules: Rules, s: State, steps: seq<Step>)
    requires Initial(s) && Runs(rules, s, steps) && Covers(rules)
    ensures var r := After(rules, s, steps);
            forall d :: 0 <= d < |r.devices| ==>
              Covered(r.server, r.devices[d].rows, r.devices[d].ownerId, r.devices[d].cursor)
  {
    InitialReliable(s);
    ReliableAfter(rules, s, steps);
    var r := After(rules, s, steps);
    forall d | 0 <= d < |r.devices|
      ensures Covered(r.server, r.devices[d].rows, r.devices[d].ownerId, r.devices[d].cursor)
    {
      assert CoverOk(r.server, r.devices[d], r.missed[d]);
      CoverOkCovers(r.server, r.devices[d], r.missed[d]);
    }
  }

  /** So in every reachable state a sync from the saved cursor ends like a sync from the zero time. */
  lemma IncrementalInEveryRun(rules: Rules, s: State, steps: seq<Step>, d: nat,
                              batch: seq<Item>, clock: Clock, k: nat, now: Time)
    requires Initial(s) && Runs(rules, s, steps) && Covers(rules)
    requires d < |After(rules, s, steps).devices| && |clock| == |batch| && k <= |batch|
    requires Lists(batch, DirtyItems(After(rules, s, steps).devices[d].rows))
    ensures var r := After(rules, s, steps);
            ConcurrentSync(r.server, r.devices[d].rows, r.devices[d].ownerId, r.devices[d].cursor, batch, clock, k, now)
            == ConcurrentSync(r.server, r.devices[d].rows, r.devices[d].ownerId, ZERO_TIME, batch, clock, k, now)
  {
    hide ConcurrentSync, Covered, Stored;
    CoverageInEveryRun(rules, s, steps);
    InitialReliable(s);
    ReliableAfter(rules, s, steps);
    var r := After(rules, s, steps);
    assert DeviceStamps(r.devices[d]) && DeviceShape(r.devices[d]);
    forall i | 0 <= i < |batch| ensures batch[i].updatedAt != ZERO_TIME {
      assert batch[i].id in DirtyItems(r.devices[d].rows);
    }
    IncrementalRefinesFull(r.server, r.devices[d].rows, r.devices[d].ownerId, r.devices[d].cursor, batch, clock, k, now);
  }

  // --- Why pushes have to be timely ----------------------------------------------------------

  /** A row accepted from elsewhere leaves a device covered exactly if its time is after the device's
      cursor or the device holds the id at least as new already. */
  lemma TimelyExactly(t: Table, rows: Rows, ownerId: string, since: Time, row: Secret)
    requires Covered(t, rows, ownerId, since) && Accepts(t, row)
    requires row.ownerId == ownerId && row.item.updatedAt != ZERO_TIME
    ensures Covered(UpsertRow(t, row), rows, ownerId, since) <==> row.item.updatedAt > since || Held(rows, row.item)
  {
  }

  /** A row the cursor hides and the device does not hold. */
  ghost predicate Stale(o: Outcome, ownerId: string, x: string) {
    Hidden(o.table, ownerId, o.cursor, x) && !Held(o.rows, o.table[x].item)
  }

  /** One successful sync after another by one device, its clock not behind its cursor. */
  ghost predicate SyncsOf(ownerId: string, states: seq<Outcome>) {
    forall i :: 0 < i < |states| ==> IsSync(ownerId, states[i - 1], states[i])
  }

  ghost predicate IsSync(ownerId: string, o: Outcome, o': Outcome) {
    exists batch: seq<Item>, clock: Clock, k: nat, now: Time ::
      && |clock| == |batch| && k <= |batch| && IsBatch(batch, o.rows) && Trunc(now) >= o.cursor
      && o' == ConcurrentSync(o.table, o.rows, ownerId, o.cursor, batch, clock, k, now)
  }

  /** Such a row stays unknown to the device however often it syncs. */
  lemma {:induction false} StaleForGood(ownerId: string, states: seq<Outcome>, x: string)
    requires states != [] && SyncsOf(ownerId, states)
    requires RowsOk(states[0].rows) && WellKeyed(states[0].table)
    requires Stale(states[0], ownerId, x)
    ensures var last := states[|states| - 1];
            Stale(last, ownerId, x) && last.table[x] == states[0].table[x]
            && RowsOk(last.rows) && WellKeyed(last.table)
  {
    hide Stale, RowsOk, WellKeyed;
    var n := |states| - 1;
    if n == 0 {
    } else {
      assert SyncsOf(ownerId, states[..n]);
      StaleForGood(ownerId, states[..n], x);
      assert IsSync(ownerId, states[n - 1], states[n]);
      StaleOnce(ownerId, states[n - 1], states[n], x);
    }
  }

  lemma StaleOnce(ownerId: string, o: Outcome, o': Outcome, x: string)
    requires IsSync(ownerId, o, o') && RowsOk(o.rows) && WellKeyed(o.table) && Stale(o, ownerId, x)
    ensures Stale(o', ownerId, x) && o'.table[x] == o.table[x] && RowsOk(o'.rows) && WellKeyed(o'.table)
  {
    var batch: seq<Item>, clock: Clock, k: nat, now: Time :|
      && |clock| == |batch| && k <= |batch| && IsBatch(batch, o.rows) && Trunc(now) >= o.cursor
      && o' == ConcurrentSync(o.table, o.rows, ownerId, o.cursor, batch, clock, k, now);
    StaleSync(o, ownerId, batch, clock, k, now, x);
  }

  lemma StaleSync(o: Outcome, ownerId: string, batch: seq<Item>, clock: Clock, k: nat, now: Time, x: string)
    requires |clock| == |batch| && k <= |batch| && IsBatch(batch, o.rows) && Trunc(now) >= o.cursor
    requires RowsOk(o.rows) && WellKeyed(o.table) && Stale(o, ownerId, x)
    ensures var o' := ConcurrentSync(o.table, o.rows, ownerId, o.cursor, batch, clock, k, now);
            Stale(o', ownerId, x) && o'.table[x] == o.table[x] && RowsOk(o'.rows) && WellKeyed(o'.table)
  {
    hide UpsertAll, FilledAll, Merged, UpdatedSince, IsBatch, CleanRows, RowsOk, Stored;
    PushLeavesNewer(o.table, o.rows, ownerId, batch, clock, x);
    UpsertAllAdvances(o.table, FilledAll(ownerId, batch, clock));
    SyncRows(o.table, o.rows, ownerId, o.cursor, batch, clock, k, now);
    StaleMerge(o.table, o.rows, ownerId, o.cursor, Ids(batch), x);
  }

  lemma StaleMerge(t: Table, rows: Rows, ownerId: string, since: Time, ids: set<string>, x: string)
    requires RowsOk(rows) && WellKeyed(t) && Hidden(t, ownerId, since, x) && !Held(rows, t[x].item)
    ensures var m := CleanRows(Merged(rows, UpdatedSince(t, ownerId, since)), ids);
            RowsOk(m) && !Held(m, t[x].item)
  {
    MergeLaws(rows, UpdatedSince(t, ownerId, since));
  }

  /** A push leaves alone a row that the device holds older or not at all. */
  lemma PushLeavesNewer(t: Table, rows: Rows, ownerId: string, batch: seq<Item>, clock: Clock, x: string)
    requires |clock| == |batch| && IsBatch(batch, rows) && x in t
    requires x in rows ==> rows[x].item.updatedAt < t[x].item.updatedAt
    ensures var u := UpsertAll(t, FilledAll(ownerId, batch, clock)); x in u && u[x] == t[x]
  {
    var pushed := FilledAll(ownerId, batch, clock);
    PushIsFromRows(t, rows, ownerId, batch, clock, |batch|);
    assert pushed[..|batch|] == pushed;
    UpsertAllAdvances(t, pushed);
    assert FromRows(t, UpsertAll(t, pushed), rows, x);
  }
}
