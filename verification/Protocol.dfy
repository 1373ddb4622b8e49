/** Several devices and the server as one state machine: every interleaving of edits and syncs. */
module Protocol {
  import opened Records
  import opened SecretStore
  import opened SyncService
  import opened DeviceStore

  /** A sync under way: what it read as dirty, how much of that the server has taken, what it pulled, how
      much of that it has applied, whether the next pulled item won when it was compared with the stored row,
      and whether the pushed ids are cleaned. A device has one sync at a time. */
  datatype Phase =
    | Idle
    | Busy(batch: seq<Item>, pushed: nat, pulled: Option<seq<Item>>, applied: nat, wins: Option<bool>, cleaned: bool)

  /** A device of one owner. `last` is its clock's last reading; `sent` is every item of every push it has
      started, which the network may still deliver late or twice. */
  datatype Device = Device(ownerId: string, rows: Rows, cursor: Time, last: Time, sent: set<Item>, phase: Phase)

  /** `owners`, `written` and `missed` record history: who first edited an id, every item as a device stored
      it on an edit, and per device the times of rows that others of its owner got accepted since it
      last pulled. */
  datatype State = State(
    server: Table,
    devices: seq<Device>,
    owners: map<string, string>,
    written: set<Item>,
    missed: seq<set<Time>>
  )

  datatype Step =
    | Edit(d: nat, item: Item)
    | Begin(d: nat, batch: seq<Item>)
    | Push(d: nat, now: Reading)
    | Deliver(d: nat, item: Item, now: Reading)
    | Pull(d: nat, items: seq<Item>)
    | Compare(d: nat)
    | Apply(d: nat)
    | Clean(d: nat)
    | Save(d: nat, time: Time)
    | Abort(d: nat)

  /** What the code itself demands before a step. The concurrent sync pulls at any point and cleans after
      applying; the sequential one cleans before pulling: both are covered. A pulled item is compared with the
      stored row by one statement and written by another: anything may happen in between. */
  ghost predicate Enabled(s: State, a: Step) {
    a.d < |s.devices| &&
    var dev := s.devices[a.d];
    match a
    case Edit(_, _) => true
    case Begin(_, batch) => dev.phase.Idle? && Lists(batch, DirtyItems(dev.rows))
    case Push(_, _) => dev.phase.Busy? && dev.phase.pushed < |dev.phase.batch| && Pushable(dev.phase.batch[dev.phase.pushed])
    case Deliver(_, item, _) => item in dev.sent && Pushable(item)
    case Pull(_, items) => dev.phase.Busy? && dev.phase.pulled.None?
                           && Lists(items, UpdatedSince(s.server, dev.ownerId, dev.cursor))
    case Compare(_) => dev.phase.Busy? && dev.phase.pushed == |dev.phase.batch| && dev.phase.pulled.Some?
                       && dev.phase.applied < |dev.phase.pulled.value| && dev.phase.wins.None?
    case Apply(_) => dev.phase.Busy? && dev.phase.pushed == |dev.phase.batch| && dev.phase.pulled.Some?
                     && dev.phase.applied < |dev.phase.pulled.value| && dev.phase.wins.Some?
    case Clean(_) => dev.phase.Busy? && dev.phase.pushed == |dev.phase.batch|
    case Save(_, _) => dev.phase.Busy? && dev.phase.cleaned && dev.phase.pulled.Some?
                       && dev.phase.applied == |dev.phase.pulled.value|
    case Abort(_) => dev.phase.Busy?
  }

  /** The acting device after a step. */
  ghost function Moved(dev: Device, a: Step): Device
    requires a.Push? || a.Pull? || a.Compare? || a.Apply? || a.Clean? ==> dev.phase.Busy?
    requires a.Compare? || a.Apply? ==> dev.phase.pulled.Some? && dev.phase.applied < |dev.phase.pulled.value|
    requires a.Apply? ==> dev.phase.wins.Some?
  {
    match a
    case Edit(_, item) => dev.(rows := UpsertLocal(dev.rows, item, true), last := item.updatedAt)
    case Begin(_, batch) => dev.(phase := Busy(batch, 0, None, 0, None, false), sent := dev.sent + set item | item in batch)
    case Push(_, _) => dev.(phase := dev.phase.(pushed := dev.phase.pushed + 1))
    case Deliver(_, _, _) => dev
    case Pull(_, items) => dev.(phase := dev.phase.(pulled := Some(items), applied := 0, wins := None))
    case Compare(_) => dev.(phase := dev.phase.(wins := Some(RemoteWins(dev.rows, dev.phase.pulled.value[dev.phase.applied]))))
    case Apply(_) => dev.(rows := if dev.phase.wins.value
                                  then UpsertLocal(dev.rows, dev.phase.pulled.value[dev.phase.applied], false)
                                  else dev.rows,
                          phase := dev.phase.(applied := dev.phase.applied + 1, wins := None))
    case Clean(_) => dev.(rows := CleanRows(dev.rows, Ids(dev.phase.batch)), phase := dev.phase.(cleaned := true))
    case Save(_, time) => dev.(cursor := Trunc(time), last := time, phase := Idle)
    case Abort(_) => dev.(phase := Idle)
  }

  /** The row a step brings to the server, if any. */
  ghost function Arriving(s: State, a: Step): Option<Secret>
    requires Enabled(s, a)
  {
    var dev := s.devices[a.d];
    match a
    case Push(_, now) => Some(Filled(dev.ownerId, dev.phase.batch[dev.phase.pushed], now))
    case Deliver(_, item, now) => Some(Filled(dev.ownerId, item, now))
    case _ => None
  }

  ghost function ServerAfter(s: State, a: Step): Table
    requires Enabled(s, a)
  {
    var row := Arriving(s, a);
    if row.Some? then UpsertRow(s.server, row.value) else s.server
  }

  ghost predicate Accepted(s: State, a: Step)
    requires Enabled(s, a)
  {
    Arriving(s, a).Some? && Accepts(s.server, Arriving(s, a).value)
  }

  ghost function MissedAfter(s: State, a: Step): (m: seq<set<Time>>)
    requires Enabled(s, a) && |s.missed| == |s.devices|
    ensures |m| == |s.missed|
  {
    seq(|s.missed|, e requires 0 <= e < |s.missed| =>
      if a.Pull? && e == a.d then {}
      else if Accepted(s, a) && e != a.d && s.devices[e].ownerId == s.devices[a.d].ownerId
      then s.missed[e] + {Arriving(s, a).value.item.updatedAt}
      else s.missed[e])
  }

  ghost function Next(s: State, a: Step): (r: State)
    requires Enabled(s, a) && |s.missed| == |s.devices|
    ensures |r.missed| == |r.devices| == |s.devices|
  {
    State(
      ServerAfter(s, a),
      s.devices[a.d := Moved(s.devices[a.d], a)],
      if a.Edit? && a.item.id !in s.owners then s.owners[a.item.id := s.devices[a.d].ownerId] else s.owners,
      if a.Edit? then s.written + {Stored(a.item)} else s.written,
      MissedAfter(s, a))
  }

  // --- The hypotheses a run may be asked to obey ---------------------------------------------

  /** Nobody edits an id that another owner edited before. */
  ghost predicate OneOwner(s: State, a: Step)
    requires Enabled(s, a)
  {
    a.Edit? && a.item.id in s.owners ==> s.owners[a.item.id] == s.devices[a.d].ownerId
  }

  /** While a device syncs, the user does not edit an id the sync is pushing. */
  ghost predicate NoPushedEdit(s: State, a: Step)
    requires Enabled(s, a)
  {
    a.Edit? && s.devices[a.d].phase.Busy? ==> a.item.id !in Ids(s.devices[a.d].phase.batch)
  }

  /** While a device syncs, the user does not edit an id the sync has pulled. */
  ghost predicate NoPulledEdit(s: State, a: Step)
    requires Enabled(s, a)
  {
    a.Edit? && s.devices[a.d].phase.Busy? && s.devices[a.d].phase.pulled.Some?
    ==> a.item.id !in Ids(s.devices[a.d].phase.pulled.value)
  }

  /** A device's own clock does not go back. */
  ghost predicate ClockMonotone(s: State, a: Step)
    requires Enabled(s, a)
  {
    && (a.Edit? ==> a.item.updatedAt >= s.devices[a.d].last)
    && (a.Save? ==> a.time >= s.devices[a.d].last)
  }

  /** Edits carry times that do not truncate to the zero time. */
  ghost predicate Stamped(s: State, a: Step)
    requires Enabled(s, a)
  {
    a.Edit? ==> Trunc(a.item.createdAt) != ZERO_TIME && Trunc(a.item.updatedAt) != ZERO_TIME
  }

  /** A row reaches the server with a time after the cursor of every other device of its owner, and after
      the cursor that such a device saves from a pull the row was too late for. */
  ghost predicate Timely(s: State, a: Step)
    requires Enabled(s, a) && |s.missed| == |s.devices|
  {
    && (Accepted(s, a) ==> forall e :: 0 <= e < |s.devices| && e != a.d && s.devices[e].ownerId == s.devices[a.d].ownerId
                             ==> Arriving(s, a).value.item.updatedAt > s.devices[e].cursor)
    && (a.Save? ==> forall t :: t in s.missed[a.d] ==> t > Trunc(a.time))
  }

  /** Two edits of one id within the same second store the same item. */
  ghost predicate TieFree(s: State, a: Step)
    requires Enabled(s, a)
  {
    a.Edit? ==> forall w :: w in s.written && SameStamp(w, Stored(a.item)) ==> w == Stored(a.item)
  }

  /** Which of the hypotheses a run obeys. */
  datatype Rules = Rules(oneOwner: bool, noPushedEdit: bool, noPulledEdit: bool, clockMonotone: bool,
                         stamped: bool, timely: bool, tieFree: bool)

  ghost predicate Obeys(rules: Rules, s: State, a: Step)
    requires Enabled(s, a) && |s.missed| == |s.devices|
  {
    && (rules.oneOwner ==> OneOwner(s, a))
    && (rules.noPushedEdit ==> NoPushedEdit(s, a))
    && (rules.noPulledEdit ==> NoPulledEdit(s, a))
    && (rules.clockMonotone ==> ClockMonotone(s, a))
    && (rules.stamped ==> Stamped(s, a))
    && (rules.timely ==> Timely(s, a))
    && (rules.tieFree ==> TieFree(s, a))
  }

  // --- Runs ----------------------------------------------------------------------------------

  /** Nothing has happened: the server and every device are empty. */
  ghost predicate Initial(s: State) {
    && s.server == map[] && s.owners == map[] && s.written == {}
    && |s.missed| == |s.devices|
    && forall d :: 0 <= d < |s.devices| ==>
         && s.devices[d].rows == map[] && s.devices[d].cursor == ZERO_TIME
         && s.devices[d].sent == {} && s.devices[d].phase.Idle? && s.missed[d] == {}
  }

  /** `steps` can be taken one after the other from `s`, each obeying the rules. */
  ghost predicate Runs(rules: Rules, s: State, steps: seq<Step>)
    requires |s.missed| == |s.devices|
    decreases |steps|
  {
    steps != [] ==>
      Enabled(s, steps[0]) && Obeys(rules, s, steps[0]) && Runs(rules, Next(s, steps[0]), steps[1..])
  }

  ghost function After(rules: Rules, s: State, steps: seq<Step>): (r: State)
    requires |s.missed| == |s.devices| && Runs(rules, s, steps)
    ensures |r.missed| == |r.devices| == |s.devices|
    decreases |steps|
  {
    if steps == [] then s else After(rules, Next(s, steps[0]), steps[1..])
  }

  /** `steps`, each obeying the rules, take `s` to `r`. */
  ghost predicate Takes(rules: Rules, s: State, steps: seq<Step>, r: State) {
    |s.missed| == |s.devices| && Runs(rules, s, steps) && After(rules, s, steps) == r
  }

  lemma TakesNone(rules: Rules, s: State)
    requires |s.missed| == |s.devices|
    ensures Takes(rules, s, [], s)
  {
  }

  lemma {:induction false} TakesBoth(rules: Rules, s: State, a: seq<Step>, m: State, b: seq<Step>, r: State)
    requires Takes(rules, s, a, m) && Takes(rules, m, b, r)
    ensures Takes(rules, s, a + b, r)
    decreases |a|
  {
    hide Enabled, Next, Obeys;
    if a == [] {
      assert a + b == b;
    } else {
      assert (a + b)[0] == a[0] && (a + b)[1..] == a[1..] + b;
      TakesBoth(rules, Next(s, a[0]), a[1..], m, b, r);
    }
  }

  lemma TakesOneMore(rules: Rules, s: State, steps: seq<Step>, m: State, a: Step)
    requires Takes(rules, s, steps, m) && |m.missed| == |m.devices| && Enabled(m, a) && Obeys(rules, m, a)
    ensures Takes(rules, s, steps + [a], Next(m, a))
  {
    hide Enabled, Next, Obeys;
    TakesNone(rules, Next(m, a));
    assert [a][1..] == [];
    assert Takes(rules, m, [a], Next(m, a));
    TakesBoth(rules, s, steps, m, [a], Next(m, a));
  }

  // --- Between the comparison and the write --------------------------------------------------

  /** What a sync found when it compared the next pulled item with the stored row is still so. */
  ghost predicate Decided(dev: Device) {
    dev.phase.Busy? && dev.phase.wins.Some? ==>
      && dev.phase.pulled.Some? && dev.phase.applied < |dev.phase.pulled.value|
      && (dev.phase.wins.value <==> RemoteWins(dev.rows, dev.phase.pulled.value[dev.phase.applied]))
  }

  ghost predicate AllDecided(s: State) {
    forall d :: 0 <= d < |s.devices| ==> Decided(s.devices[d])
  }

  /** Then the comparison and the write are as good as one step. */
  lemma DecidedApplies(dev: Device, a: Step)
    requires a.Apply? && dev.phase.Busy? && dev.phase.wins.Some? && Decided(dev)
    ensures Moved(dev, a).rows == ApplyOne(dev.rows, dev.phase.pulled.value[dev.phase.applied])
  {
  }

  lemma MovedDecided(s: State, a: Step)
    requires Enabled(s, a) && NoPulledEdit(s, a) && Decided(s.devices[a.d])
    ensures Decided(Moved(s.devices[a.d], a))
  {
    var dev := s.devices[a.d];
    if a.Edit? && dev.phase.Busy? && dev.phase.wins.Some? {
      assert dev.phase.pulled.value[dev.phase.applied].id in Ids(dev.phase.pulled.value);
    }
  }

  lemma DecidedNext(s: State, a: Step)
    requires |s.missed| == |s.devices| && AllDecided(s) && Enabled(s, a) && NoPulledEdit(s, a)
    ensures AllDecided(Next(s, a))
  {
    hide Decided, Moved, MissedAfter, ServerAfter;
    MovedDecided(s, a);
  }

  lemma {:induction false} DecidedAfter(rules: Rules, s: State, steps: seq<Step>)
    requires |s.missed| == |s.devices| && AllDecided(s) && Runs(rules, s, steps) && rules.noPulledEdit
    ensures AllDecided(After(rules, s, steps))
    decreases |steps|
  {
    hide AllDecided, Moved, MissedAfter, ServerAfter;
    if steps == [] {
    } else {
      DecidedNext(s, steps[0]);
      DecidedAfter(rules, Next(s, steps[0]), steps[1..]);
    }
  }
}
