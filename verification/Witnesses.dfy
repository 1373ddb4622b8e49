/** Concrete runs: one that meets every hypothesis, and for each hypothesis one that breaks only it and loses the
    guarantee. Two devices; times in whole seconds. */
module Witnesses {
  import opened Records
  import opened Text
  import opened SecretStore
  import opened SyncService
  import opened DeviceStore
  import opened SyncLaws
  import opened Protocol
  import opened ProtocolCoverage
  import opened ProtocolConvergence
  import opened ProtocolNewest

  const ALL_RULES := Rules(true, true, true, true, true, true, true)

  /** The one secret of the stories, as edited at second `n`. */
  function Secret1(n: nat, payload: Bytes): Item {
    Item("x", "text", payload, map[], false, n * SECOND, n * SECOND)
  }

  lemma Secret1Fits(n: nat, payload: Bytes)
    ensures Stored(Secret1(n, payload)) == Secret1(n, payload) && Pushable(Secret1(n, payload))
    ensures Trunc(n * SECOND) == n * SECOND && Secret1(n, payload).id == "x"
    ensures Secret1(n, payload).createdAt == Secret1(n, payload).updatedAt == n * SECOND
    ensures forall o, now :: n > 0 ==> Filled(o, Secret1(n, payload), now) == Secret(o, Secret1(n, payload))
  {
    assert (n * SECOND) % SECOND == 0;
    TrimSpaceFixes("x");
    TrimSpaceFixes("text");
  }

  function Fresh(ownerId: string): Device {
    Device(ownerId, map[], 0, 0, {}, Idle)
  }

  ghost function Start(o0: string, o1: string): State {
    State(map[], [Fresh(o0), Fresh(o1)], map[], {}, [{}, {}])
  }

  // --- Steps of a walk: `steps` take the start to `m`, one step more takes it to `r` ---------

  ghost predicate Walked(rules: Rules, s: State, steps: seq<Step>, m: State) {
    Takes(rules, s, steps, m) && |m.missed| == |m.devices|
  }

  lemma Walk(rules: Rules, s: State, steps: seq<Step>, m: State, a: Step)
    requires Walked(rules, s, steps, m) && Enabled(m, a) && Obeys(rules, m, a)
    ensures Walked(rules, s, steps + [a], Next(m, a))
  {
    hide Takes, Next, Enabled, Obeys;
    TakesOneMore(rules, s, steps, m, a);
  }

  lemma SameMissed(m: State, a: Step)
    requires |m.missed| == |m.devices| && Enabled(m, a) && !a.Pull? && !Accepted(m, a)
    ensures MissedAfter(m, a) == m.missed
  {
  }

  lemma WalkEdit(rules: Rules, s: State, steps: seq<Step>, m: State, d: nat, item: Item) returns (more: seq<Step>, r: State)
    requires Walked(rules, s, steps, m) && d < |m.devices| && Stored(item) == item
    requires rules.oneOwner && item.id in m.owners ==> m.owners[item.id] == m.devices[d].ownerId
    requires rules.noPushedEdit && m.devices[d].phase.Busy? ==> item.id !in Ids(m.devices[d].phase.batch)
    requires rules.noPulledEdit && m.devices[d].phase.Busy? && m.devices[d].phase.pulled.Some?
             ==> item.id !in Ids(m.devices[d].phase.pulled.value)
    requires rules.clockMonotone ==> item.updatedAt >= m.devices[d].last
    requires rules.stamped ==> item.createdAt != ZERO_TIME && item.updatedAt != ZERO_TIME
    requires rules.tieFree ==> forall w :: w in m.written && SameStamp(w, item) ==> w == item
    ensures Walked(rules, s, more, r) && |r.missed| == |r.devices|
    ensures r == m.(devices := m.devices[d := m.devices[d].(rows := m.devices[d].rows[item.id := LocalRow(item, true)],
                                                            last := item.updatedAt)],
                    owners := if item.id in m.owners then m.owners else m.owners[item.id := m.devices[d].ownerId],
                    written := m.written + {item})
    ensures more == steps + [Edit(d, item)]
  {
    var a := Edit(d, item);
    more, r := steps + [a], Next(m, a);
    SameMissed(m, a);
    Walk(rules, s, steps, m, a);
  }

  lemma WalkBegin(rules: Rules, s: State, steps: seq<Step>, m: State, d: nat, batch: seq<Item>) returns (more: seq<Step>, r: State)
    requires Walked(rules, s, steps, m) && d < |m.devices| && m.devices[d].phase.Idle?
    requires Lists(batch, DirtyItems(m.devices[d].rows))
    ensures Walked(rules, s, more, r) && |r.missed| == |r.devices|
    ensures r == m.(devices := m.devices[d := m.devices[d].(phase := Busy(batch, 0, None, 0, None, false),
                                                            sent := m.devices[d].sent + set item | item in batch)])
    ensures more == steps + [Begin(d, batch)]
  {
    var a := Begin(d, batch);
    more, r := steps + [a], Next(m, a);
    SameMissed(m, a);
    Walk(rules, s, steps, m, a);
  }

  /** The one item of the batch reaches the server. */
  lemma WalkPush(rules: Rules, s: State, steps: seq<Step>, m: State, d: nat, item: Item, now: Reading, row: Secret)
      returns (more: seq<Step>, r: State)
    requires Walked(rules, s, steps, m) && d < |m.devices|
    requires var p := m.devices[d].phase; p.Busy? && p.batch == [item] && p.pushed == 0
    requires Pushable(item) && row == Filled(m.devices[d].ownerId, item, now)
    requires rules.timely && Accepts(m.server, row) ==>
               forall e :: 0 <= e < |m.devices| && e != d && m.devices[e].ownerId == m.devices[d].ownerId
                           ==> row.item.updatedAt > m.devices[e].cursor
    ensures Walked(rules, s, more, r) && |r.missed| == |r.devices|
    ensures r.devices == m.devices[d := m.devices[d].(phase := m.devices[d].phase.(pushed := 1))]
    ensures r.server == UpsertRow(m.server, row) && r.owners == m.owners && r.written == m.written
    ensures r.missed[d] == m.missed[d]
    ensures more == steps + [Push(d, now)]
  {
    hide Pushable, Filled;
    var a := Push(d, now);
    more, r := steps + [a], Next(m, a);
    Walk(rules, s, steps, m, a);
  }

  lemma WalkClean(rules: Rules, s: State, steps: seq<Step>, m: State, d: nat) returns (more: seq<Step>, r: State)
    requires Walked(rules, s, steps, m) && d < |m.devices|
    requires m.devices[d].phase.Busy? && m.devices[d].phase.pushed == |m.devices[d].phase.batch|
    ensures Walked(rules, s, more, r) && |r.missed| == |r.devices|
    ensures r == m.(devices := m.devices[d := m.devices[d].(rows := CleanRows(m.devices[d].rows, Ids(m.devices[d].phase.batch)),
                                                            phase := m.devices[d].phase.(cleaned := true))])
    ensures more == steps + [Clean(d)]
  {
    more, r := steps + [Clean(d)], Next(m, Clean(d));
    SameMissed(m, Clean(d));
    Walk(rules, s, steps, m, Clean(d));
  }

  lemma WalkPull(rules: Rules, s: State, steps: seq<Step>, m: State, d: nat, items: seq<Item>) returns (more: seq<Step>, r: State)
    requires Walked(rules, s, steps, m) && d < |m.devices|
    requires m.devices[d].phase.Busy? && m.devices[d].phase.pulled.None?
    requires Lists(items, UpdatedSince(m.server, m.devices[d].ownerId, m.devices[d].cursor))
    ensures Walked(rules, s, more, r) && |r.missed| == |r.devices|
    ensures r == m.(devices := m.devices[d := m.devices[d].(phase := m.devices[d].phase.(pulled := Some(items), applied := 0, wins := None))],
                    missed := m.missed[d := {}])
    ensures more == steps + [Pull(d, items)]
  {
    var a := Pull(d, items);
    more, r := steps + [a], Next(m, a);
    Walk(rules, s, steps, m, a);
  }

  lemma WalkCompare(rules: Rules, s: State, steps: seq<Step>, m: State, d: nat) returns (more: seq<Step>, r: State)
    requires Walked(rules, s, steps, m) && d < |m.devices|
    requires var p := m.devices[d].phase;
             p.Busy? && p.pushed == |p.batch| && p.pulled.Some? && p.applied < |p.pulled.value| && p.wins.None?
    ensures Walked(rules, s, more, r) && |r.missed| == |r.devices|
    ensures var p := m.devices[d].phase;
            r == m.(devices := m.devices[d := m.devices[d].(
                   phase := p.(wins := Some(RemoteWins(m.devices[d].rows, p.pulled.value[p.applied]))))])
    ensures more == steps + [Compare(d)]
  {
    more, r := steps + [Compare(d)], Next(m, Compare(d));
    SameMissed(m, Compare(d));
    Walk(rules, s, steps, m, Compare(d));
  }

  lemma WalkApply(rules: Rules, s: State, steps: seq<Step>, m: State, d: nat) returns (more: seq<Step>, r: State)
    requires Walked(rules, s, steps, m) && d < |m.devices| && Enabled(m, Apply(d))
    ensures Walked(rules, s, more, r) && |r.missed| == |r.devices|
    ensures var p := m.devices[d].phase;
            r == m.(devices := m.devices[d := m.devices[d].(
                   rows := if p.wins.value then UpsertLocal(m.devices[d].rows, p.pulled.value[p.applied], false) else m.devices[d].rows,
                   phase := p.(applied := p.applied + 1, wins := None))])
    ensures more == steps + [Apply(d)]
  {
    more, r := steps + [Apply(d)], Next(m, Apply(d));
    SameMissed(m, Apply(d));
    Walk(rules, s, steps, m, Apply(d));
  }

  lemma WalkSave(rules: Rules, s: State, steps: seq<Step>, m: State, d: nat, time: Time) returns (more: seq<Step>, r: State)
    requires Walked(rules, s, steps, m) && d < |m.devices|
    requires var p := m.devices[d].phase; p.Busy? && p.cleaned && p.pulled.Some? && p.applied == |p.pulled.value|
    requires rules.clockMonotone ==> time >= m.devices[d].last
    requires rules.timely ==> forall t :: t in m.missed[d] ==> t > Trunc(time)
    ensures Walked(rules, s, more, r) && |r.missed| == |r.devices|
    ensures r == m.(devices := m.devices[d := m.devices[d].(cursor := Trunc(time), last := time, phase := Idle)])
    ensures more == steps + [Save(d, time)]
  {
    var a := Save(d, time);
    more, r := steps + [a], Next(m, a);
    SameMissed(m, a);
    Walk(rules, s, steps, m, a);
  }

  lemma WalkStart(rules: Rules, m: State)
    requires |m.missed| == |m.devices|
    ensures Walked(rules, m, [], m)
  {
    TakesNone(rules, m);
  }

  lemma WalkedTakes(rules: Rules, s: State, steps: seq<Step>, m: State)
    requires Walked(rules, s, steps, m)
    ensures Takes(rules, s, steps, m) && |m.missed| == |m.devices|
  {
  }

  // --- Scenes --------------------------------------------------------------------------------

  /** A device that has made its first edit. */
  function Edited(ownerId: string, n: nat, payload: Bytes): Device {
    Fresh(ownerId).(rows := map["x" := LocalRow(Secret1(n, payload), true)], last := n * SECOND)
  }

  /** It has pushed that edit and cleaned it. */
  function Sent(ownerId: string, n: nat, payload: Bytes): Device {
    Fresh(ownerId).(rows := map["x" := LocalRow(Secret1(n, payload), false)], last := n * SECOND,
                    sent := {Secret1(n, payload)}, phase := Busy([Secret1(n, payload)], 1, None, 0, None, true))
  }

  /** A device with nothing to push is past its push. */
  function Passed(dev: Device): Device {
    dev.(phase := Busy([], 0, None, 0, None, true))
  }

  lemma EditFirst(rules: Rules, s: State, steps: seq<Step>, m: State, d: nat, n: nat, payload: Bytes)
      returns (more: seq<Step>, r: State)
    requires Walked(rules, s, steps, m) && d < |m.devices| && m.devices[d] == Fresh(m.devices[d].ownerId)
    requires n > 0 && (rules.oneOwner && "x" in m.owners ==> m.owners["x"] == m.devices[d].ownerId)
    requires rules.tieFree ==> forall w :: w in m.written && SameStamp(w, Secret1(n, payload)) ==> w == Secret1(n, payload)
    ensures Walked(rules, s, more, r) && |r.missed| == |r.devices|
    ensures r == m.(devices := m.devices[d := Edited(m.devices[d].ownerId, n, payload)],
                    owners := if "x" in m.owners then m.owners else m.owners["x" := m.devices[d].ownerId],
                    written := m.written + {Secret1(n, payload)})
    ensures more == steps + [Edit(d, Secret1(n, payload))]
  {
    hide Walked, Stored;
    Secret1Fits(n, payload);
    more, r := WalkEdit(rules, s, steps, m, d, Secret1(n, payload));
  }

  /** The device reads its one dirty row, pushes it and cleans it. */
  lemma PushOne(rules: Rules, s: State, steps: seq<Step>, m: State, d: nat, ownerId: string, n: nat, payload: Bytes)
      returns (more: seq<Step>, r: State)
    requires Walked(rules, s, steps, m) && d < |m.devices| && m.devices[d] == Edited(ownerId, n, payload) && n > 0
    requires forall e :: 0 <= e < |m.devices| ==> m.devices[e].cursor < n * SECOND
    ensures Walked(rules, s, more, r) && |r.missed| == |r.devices|
    ensures r.devices == m.devices[d := Sent(ownerId, n, payload)]
    ensures r.server == UpsertRow(m.server, Secret(ownerId, Secret1(n, payload)))
    ensures r.owners == m.owners && r.written == m.written && r.missed[d] == m.missed[d]
    ensures more == steps + [Begin(d, [Secret1(n, payload)])] + [Push(d, Reading(0, 0))] + [Clean(d)]
  {
    hide Walked, Pushable, Filled, Stored, UpsertRow, Secret1;
    var it := Secret1(n, payload);
    Secret1Fits(n, payload);
    OneDirty(m.devices[d].rows, it);
    more, r := WalkBegin(rules, s, steps, m, d, [it]);
    assert m.devices[d].sent + (set item | item in [it]) == {it};
    more, r := WalkPush(rules, s, more, r, d, it, Reading(0, 0), Secret(ownerId, it));
    more, r := WalkClean(rules, s, more, r, d);
    CleanedOne(m.devices[d].rows, it);
  }

  lemma CleanedOne(rows: Rows, it: Item)
    requires rows == map[it.id := LocalRow(it, true)]
    ensures CleanRows(rows, Ids([it])) == map[it.id := LocalRow(it, false)]
  {
    assert [it][0].id == it.id;
  }

  lemma OneDirty(rows: Rows, it: Item)
    requires rows == map[it.id := LocalRow(it, true)]
    ensures Lists([it], DirtyItems(rows))
  {
    assert DirtyItems(rows) == map[it.id := it];
    assert [it][0].id == it.id;
  }

  lemma NoneDirty(rows: Rows)
    requires DirtyIds(rows) == {}
    ensures Lists([], DirtyItems(rows)) && CleanRows(rows, Ids([])) == rows
  {
    assert DirtyItems(rows).Keys == DirtyIds(rows);
  }

  /** Device `d` has nothing to push. */
  lemma PushNone(rules: Rules, s: State, steps: seq<Step>, m: State, d: nat) returns (more: seq<Step>, r: State)
    requires Walked(rules, s, steps, m) && d < |m.devices| && m.devices[d].phase.Idle?
    requires DirtyIds(m.devices[d].rows) == {}
    ensures Walked(rules, s, more, r) && |r.missed| == |r.devices|
    ensures r == m.(devices := m.devices[d := Passed(m.devices[d])])
    ensures more == steps + [Begin(d, [])] + [Clean(d)]
  {
    hide Walked, CleanRows;
    NoneDirty(m.devices[d].rows);
    more, r := WalkBegin(rules, s, steps, m, d, []);
    var none: seq<Item> := [];
    assert m.devices[d].sent + (set item | item in none) == m.devices[d].sent;
    more, r := WalkClean(rules, s, more, r, d);
  }

  /** Between pushing and pulling. */
  ghost predicate Pushed(dev: Device) {
    dev.phase.Busy? && dev.phase.pushed == |dev.phase.batch| && dev.phase.pulled.None? && dev.phase.cleaned
  }

  /** Device `d` pulls one row, applies it and saves the time. */
  lemma PullOne(rules: Rules, s: State, steps: seq<Step>, m: State, d: nat, it: Item, time: Time)
      returns (more: seq<Step>, r: State)
    requires Walked(rules, s, steps, m) && d < |m.devices| && Pushed(m.devices[d]) && time >= m.devices[d].last
    requires Lists([it], UpdatedSince(m.server, m.devices[d].ownerId, m.devices[d].cursor))
    ensures Walked(rules, s, more, r) && |r.missed| == |r.devices|
    ensures r == m.(devices := m.devices[d := m.devices[d].(rows := ApplyOne(m.devices[d].rows, it),
                                                            cursor := Trunc(time), last := time, phase := Idle)],
                    missed := m.missed[d := {}])
    ensures more == steps + [Pull(d, [it])] + [Compare(d)] + [Apply(d)] + [Save(d, time)]
  {
    hide Walked, Lists, UpsertLocal, RemoteWins;
    WalkedTakes(rules, s, steps, m);
    more, r := WalkPull(rules, s, steps, m, d, [it]);
    more, r := WalkCompare(rules, s, more, r, d);
    more, r := WalkApply(rules, s, more, r, d);
    more, r := WalkSave(rules, s, more, r, d, time);
  }

  /** Device `d` finds nothing to pull and saves the time. */
  lemma PullNone(rules: Rules, s: State, steps: seq<Step>, m: State, d: nat, time: Time) returns (more: seq<Step>, r: State)
    requires Walked(rules, s, steps, m) && d < |m.devices| && Pushed(m.devices[d]) && time >= m.devices[d].last
    requires Lists([], UpdatedSince(m.server, m.devices[d].ownerId, m.devices[d].cursor))
    ensures Walked(rules, s, more, r) && |r.missed| == |r.devices|
    ensures r == m.(devices := m.devices[d := m.devices[d].(cursor := Trunc(time), last := time, phase := Idle)],
                    missed := m.missed[d := {}])
    ensures more == steps + [Pull(d, [])] + [Save(d, time)]
  {
    hide Walked, Lists;
    WalkedTakes(rules, s, steps, m);
    more, r := WalkPull(rules, s, steps, m, d, []);
    more, r := WalkSave(rules, s, more, r, d, time);
  }

  /** The server holds the one secret, and a pull from before it brings it. */
  lemma OnePulled(t: Table, ownerId: string, n: nat, payload: Bytes, since: Time)
    requires t == map["x" := Secret(ownerId, Secret1(n, payload))] && since < n * SECOND
    ensures Lists([Secret1(n, payload)], UpdatedSince(t, ownerId, since))
  {
    assert [Secret1(n, payload)][0].id == "x";
  }

  // --- One hypothesis dropped at a time ------------------------------------------------------

  /** The cursor hides a row of the server that is newer than the device's. */
  lemma NotCovered(t: Table, rows: Rows, n: nat, cursor: Time)
    requires t == map["x" := Secret("o", Secret1(n, []))] && 0 < n * SECOND <= cursor
    requires "x" in rows ==> rows["x"].item.updatedAt < n * SECOND
    ensures !Covered(t, rows, "o", cursor) && Stale(Outcome(t, rows, cursor), "o", "x")
  {
    assert Hidden(t, "o", cursor, "x");
  }

  /** A device syncs past an edit of another device that is pushed later. By `StaleForGood` it never learns
      of the row. */
  lemma TimelyNeeded() returns (steps: seq<Step>, r: State)
    ensures Initial(Start("o", "o")) && Takes(ALL_RULES.(timely := false), Start("o", "o"), steps, r)
    ensures |r.devices| == 2 && !Covered(r.server, r.devices[1].rows, "o", r.devices[1].cursor)
    ensures Stale(Outcome(r.server, r.devices[1].rows, r.devices[1].cursor), "o", "x") && r.devices[1].phase.Idle?
  {
    hide Walked, Pushable, Filled, Stored, Secret1, Covered, Stale;
    var rules, s, it := ALL_RULES.(timely := false), Start("o", "o"), Secret1(5, []);
    Secret1Fits(5, []);
    WalkStart(rules, s);
    steps, r := EditFirst(rules, s, [], s, 0, 5, []);
    steps, r := PushNone(rules, s, steps, r, 1);
    steps, r := PullNone(rules, s, steps, r, 1, 10 * SECOND);
    OneDirty(r.devices[0].rows, it);
    steps, r := WalkBegin(rules, s, steps, r, 0, [it]);
    steps, r := WalkPush(rules, s, steps, r, 0, it, Reading(0, 0), Secret("o", it));
    NotCovered(r.server, r.devices[1].rows, 5, r.devices[1].cursor);
    WalkedTakes(rules, s, steps, r);
  }

  /** Device 1 edits at second `n` and pushes; device 0 gets past its empty push. */
  lemma RowOnServer(rules: Rules, n: nat) returns (steps: seq<Step>, r: State)
    requires n > 0
    ensures Walked(rules, Start("o", "o"), steps, r) && |r.missed| == 2
    ensures r.devices == [Passed(Fresh("o")), Sent("o", n, [])] && r.server == map["x" := Secret("o", Secret1(n, []))]
    ensures r.owners == map["x" := "o"] && r.written == {Secret1(n, [])}
  {
    hide Walked, Stored, Edited, Sent;
    var s := Start("o", "o");
    WalkStart(rules, s);
    Secret1Fits(n, []);
    steps, r := EditFirst(rules, s, [], s, 1, n, []);
    EditedCursor("o", n, []);
    steps, r := PushOne(rules, s, steps, r, 1, "o", n, []);
    steps, r := PushNone(rules, s, steps, r, 0);
  }

  lemma EditedCursor(ownerId: string, n: nat, payload: Bytes)
    ensures Edited(ownerId, n, payload).cursor == Sent(ownerId, n, payload).cursor == 0
    ensures Edited(ownerId, n, payload).ownerId == Sent(ownerId, n, payload).ownerId == ownerId
  {
  }

  /** Device 0 has pulled that row and found that it does not hold it. */
  lemma RowCompared(rules: Rules, n: nat) returns (steps: seq<Step>, r: State)
    requires n > 0
    ensures Walked(rules, Start("o", "o"), steps, r) && |r.missed| == |r.devices| == 2
    ensures r.devices[0] == Fresh("o").(phase := Busy([], 0, Some([Secret1(n, [])]), 0, Some(true), true))
    ensures r.devices[1] == Sent("o", n, [])
    ensures r.server == map["x" := Secret("o", Secret1(n, []))] && r.owners == map["x" := "o"]
    ensures r.written == {Secret1(n, [])} && r.missed[0] == {}
  {
    hide Walked, Sent, Lists, UpdatedSince, Secret1;
    var s := Start("o", "o");
    steps, r := RowOnServer(rules, n);
    OnePulled(r.server, "o", n, [], 0);
    steps, r := WalkPull(rules, s, steps, r, 0, [Secret1(n, [])]);
    steps, r := WalkCompare(rules, s, steps, r, 0);
  }

  /** It has applied the row and not yet saved the time. */
  lemma RowApplied(rules: Rules, n: nat) returns (steps: seq<Step>, r: State)
    requires n > 0
    ensures Walked(rules, Start("o", "o"), steps, r) && |r.missed| == |r.devices| == 2
    ensures r.devices[0] == Fresh("o").(rows := UpsertLocal(map[], Secret1(n, []), false),
                                        phase := Busy([], 0, Some([Secret1(n, [])]), 1, None, true))
    ensures r.server == map["x" := Secret("o", Secret1(n, []))] && r.owners == map["x" := "o"]
    ensures r.written == {Secret1(n, [])} && r.missed[0] == {}
  {
    hide Walked, Sent, UpsertLocal, Secret1;
    steps, r := RowCompared(rules, n);
    steps, r := WalkApply(rules, Start("o", "o"), steps, r, 0);
  }

  /** Device 0 overwrites the secret of second `k` at second `n`. */
  lemma EditOver(rules: Rules, s: State, steps: seq<Step>, m: State, k: nat, n: nat) returns (more: seq<Step>, r: State)
    requires Walked(rules, s, steps, m) && |m.devices| == 2 && m.devices[0].ownerId == "o" && 0 < n != k
    requires m.owners == map["x" := "o"] && m.written == {Secret1(k, [])}
    requires m.devices[0].phase.Busy? ==> m.devices[0].phase.batch == [] && !rules.noPulledEdit
    requires rules.clockMonotone ==> n * SECOND >= m.devices[0].last
    ensures Walked(rules, s, more, r) && |r.missed| == |r.devices| == 2
    ensures r.server == m.server && r.missed == m.missed && r.devices[1] == m.devices[1]
    ensures r.written == m.written + {Secret1(n, [])}
    ensures r.devices[0] == m.devices[0].(rows := m.devices[0].rows["x" := LocalRow(Secret1(n, []), true)],
                                          last := n * SECOND)
  {
    hide Walked, Stored, Secret1;
    Secret1Fits(n, []);
    Secret1Fits(k, []);
    more, r := WalkEdit(rules, s, steps, m, 0, Secret1(n, []));
  }

  lemma Starts(o0: string, o1: string)
    ensures Initial(Start(o0, o1))
  {
  }

  /** The clock goes back after a sync: the edit hides the newer row it overwrites. */
  lemma ClockMonotoneNeeded() returns (steps: seq<Step>, r: State)
    ensures Initial(Start("o", "o")) && Takes(ALL_RULES.(clockMonotone := false), Start("o", "o"), steps, r)
    ensures |r.devices| == 2 && !Covered(r.server, r.devices[0].rows, "o", r.devices[0].cursor)
  {
    hide Walked, Covered, UpsertLocal, Initial, Start;
    var rules, s := ALL_RULES.(clockMonotone := false), Start("o", "o");
    Starts("o", "o");
    steps, r := RowApplied(rules, 50);
    steps, r := WalkSave(rules, s, steps, r, 0, 100 * SECOND);
    steps, r := EditOver(rules, s, steps, r, 50, 10);
    NotCovered(r.server, r.devices[0].rows, 50, r.devices[0].cursor);
    WalkedTakes(rules, s, steps, r);
  }

  /** A row pulled from a device with a faster clock is edited before the time is saved. */
  lemma NoPulledEditNeeded() returns (steps: seq<Step>, r: State)
    ensures Initial(Start("o", "o")) && Takes(ALL_RULES.(noPulledEdit := false), Start("o", "o"), steps, r)
    ensures |r.devices| == 2 && !Covered(r.server, r.devices[0].rows, "o", r.devices[0].cursor)
  {
    hide Walked, Covered, UpsertLocal, Initial, Start;
    var rules, s := ALL_RULES.(noPulledEdit := false), Start("o", "o");
    Starts("o", "o");
    steps, r := RowApplied(rules, 100);
    steps, r := EditOver(rules, s, steps, r, 100, 51);
    steps, r := WalkSave(rules, s, steps, r, 0, 120 * SECOND);
    NotCovered(r.server, r.devices[0].rows, 100, r.devices[0].cursor);
    WalkedTakes(rules, s, steps, r);
  }

  /** The edit comes between the comparison of the pulled row and its write: the write covers the newer
      edit, and nobody has it any more. */
  lemma PulledEditLost() returns (steps: seq<Step>, m: State, r: State)
    ensures Initial(Start("o", "o")) && Takes(ALL_RULES.(noPulledEdit := false), Start("o", "o"), steps, m)
    ensures |m.missed| == |m.devices| == 2 && Enabled(m, Apply(0)) && Takes(ALL_RULES.(noPulledEdit := false), m, [Apply(0)], r)
    ensures var w := Secret1(10, []);
            && w in m.written && Alive(m, w) && !Alive(r, w)
            && "x" in m.devices[0].rows && m.devices[0].rows["x"] == LocalRow(w, true)
            && "x" in r.devices[0].rows && r.devices[0].rows["x"] == LocalRow(Secret1(7, []), false)
  {
    hide Walked, Initial, Start, Secret1, Alive, Waiting, OnServer, Sent, Enabled;
    var rules, s := ALL_RULES.(noPulledEdit := false), Start("o", "o");
    var n;
    Starts("o", "o");
    steps, n := RowCompared(rules, 7);
    steps, m := EditOver(rules, s, steps, n, 7, 10);
    WalkedTakes(rules, s, steps, m);
    r := OldRowWritten(rules, m, 7, 10);
  }

  /** The pulled row of second `n` won before the edit of second `k` was made. */
  lemma OldRowWritten(rules: Rules, m: State, n: nat, k: nat) returns (r: State)
    requires |m.missed| == |m.devices| == 2 && n < k
    requires m.devices[0] == Fresh("o").(rows := map["x" := LocalRow(Secret1(k, []), true)], last := k * SECOND,
                                         phase := Busy([], 0, Some([Secret1(n, [])]), 0, Some(true), true))
    requires m.devices[1] == Sent("o", n, []) && m.server == map["x" := Secret("o", Secret1(n, []))]
    ensures Enabled(m, Apply(0)) && Takes(rules, m, [Apply(0)], r)
    ensures r.devices[0].rows == map["x" := LocalRow(Secret1(n, []), false)]
    ensures Alive(m, Secret1(k, [])) && !Alive(r, Secret1(k, []))
  {
    hide Walked, Secret1, Alive;
    var w;
    Secret1Fits(n, []);
    Secret1Fits(k, []);
    WalkStart(rules, m);
    w, r := WalkApply(rules, m, [], m, 0);
    WalkedTakes(rules, m, w, r);
    assert w == [Apply(0)];
    WaitsThere(m, Secret1(k, []), 0);
    NobodyHas(r, Secret1(k, []));
  }

  lemma WaitsThere(s: State, w: Item, d: nat)
    requires d < |s.devices| && Waiting(s.devices[d], w)
    ensures Alive(s, w)
  {
  }

  lemma NobodyHas(s: State, w: Item)
    requires |s.devices| == 2 && !Waiting(s.devices[0], w) && !Waiting(s.devices[1], w) && !OnServer(s.server, w)
    ensures !Alive(s, w)
  {
  }

  /** A row is edited while it is being pushed: the cleaning covers an edit nobody has. */
  lemma NoPushedEditNeeded() returns (steps: seq<Step>, r: State)
    ensures Initial(Start("o", "o")) && Takes(ALL_RULES.(noPushedEdit := false), Start("o", "o"), steps, r)
    ensures |r.devices| == 2 && !NothingDropped(r.server, r.devices[0].rows)
  {
    hide Walked, Pushable, Filled, Stored;
    var rules, s := ALL_RULES.(noPushedEdit := false), Start("o", "o");
    var it, edit := Secret1(5, []), Secret1(6, []);
    Secret1Fits(5, []);
    Secret1Fits(6, []);
    WalkStart(rules, s);
    steps, r := EditFirst(rules, s, [], s, 0, 5, []);
    OneDirty(r.devices[0].rows, it);
    steps, r := WalkBegin(rules, s, steps, r, 0, [it]);
    steps, r := WalkPush(rules, s, steps, r, 0, it, Reading(0, 0), Secret("o", it));
    steps, r := WalkEdit(rules, s, steps, r, 0, edit);
    steps, r := WalkClean(rules, s, steps, r, 0);
    assert "x" in Ids([it]) by { assert [it][0].id == "x"; }
    assert r.devices[0].rows["x"] == LocalRow(edit, false);
    WalkedTakes(rules, s, steps, r);
  }

  /** Two owners edit one id: the second's edit is refused and yet marked clean. */
  lemma OneOwnerNeeded() returns (steps: seq<Step>, r: State)
    ensures Initial(Start("o", "p")) && Takes(ALL_RULES.(oneOwner := false), Start("o", "p"), steps, r)
    ensures |r.devices| == 2 && !NothingDropped(r.server, r.devices[1].rows)
  {
    hide Walked, Stored, Edited, Sent;
    var rules, s := ALL_RULES.(oneOwner := false), Start("o", "p");
    WalkStart(rules, s);
    steps, r := EditFirst(rules, s, [], s, 0, 5, []);
    EditedCursor("o", 5, []);
    steps, r := PushOne(rules, s, steps, r, 0, "o", 5, []);
    steps, r := EditFirst(rules, s, steps, r, 1, 6, []);
    EditedCursor("p", 6, []);
    steps, r := PushOne(rules, s, steps, r, 1, "p", 6, []);
    assert r.server == map["x" := Secret("o", Secret1(5, []))];
    SentClean(r.server, 6);
    WalkedTakes(rules, s, steps, r);
  }

  lemma SentClean(t: Table, n: nat)
    requires "x" in t && t["x"].item.updatedAt < n * SECOND
    ensures !NothingDropped(t, Sent("p", n, []).rows)
  {
    assert "x" in Sent("p", n, []).rows;
  }

  /** An edit at the zero time is pushed under the server's clock: the device never pulls its own row back. */
  lemma StampedNeeded() returns (steps: seq<Step>, r: State)
    ensures Initial(Start("o", "o")) && Takes(ALL_RULES.(stamped := false), Start("o", "o"), steps, r)
    ensures |r.devices| == 2 && !Covered(r.server, r.devices[0].rows, "o", r.devices[0].cursor)
  {
    hide Walked, Pushable, Stored;
    var rules, s, it := ALL_RULES.(stamped := false), Start("o", "o"), Secret1(0, []);
    var now := Reading(7 * SECOND, 7 * SECOND);
    Secret1Fits(0, []);
    WalkStart(rules, s);
    steps, r := WalkEdit(rules, s, [], s, 0, it);
    OneDirty(r.devices[0].rows, it);
    steps, r := WalkBegin(rules, s, steps, r, 0, [it]);
    steps, r := WalkPull(rules, s, steps, r, 0, []);
    steps, r := WalkPush(rules, s, steps, r, 0, it, now, Secret("o", Secret1(7, [])));
    steps, r := WalkClean(rules, s, steps, r, 0);
    steps, r := WalkSave(rules, s, steps, r, 0, 10 * SECOND);
    assert r.devices[0].cursor == Trunc(10 * SECOND) == 10 * SECOND;
    NotCovered(r.server, r.devices[0].rows, 7, r.devices[0].cursor);
    WalkedTakes(rules, s, steps, r);
  }

  // --- Two full rounds -----------------------------------------------------------------------

  /** The three stretches of a converging run: edits, then a push by each device, then a pull by each. */
  ghost predicate TwoRounds(rules: Rules, edits: seq<Step>, s1: State, pushes: seq<Step>, s2: State, pulls: seq<Step>, r: State) {
    && Initial(Start("o", "o"))
    && Takes(rules, Start("o", "o"), edits, s1) && Takes(rules, s1, pushes, s2) && Takes(rules, s2, pulls, r)
    && NoEdits(Start("o", "o"), pushes, "o") && NoEdits(Start("o", "o"), pulls, "o")
    && forall d :: 0 <= d < 2 ==> Pushes(pushes, d) && Pulls(pulls, d)
  }

  /** The steps of the two rounds when device 0 pushes `it` and both pull it. */
  lemma RoundsOfOne(pushes: seq<Step>, pulls: seq<Step>, it: Item, batch: seq<Item>, more: seq<Step>)
    requires pushes == [Begin(0, [it]), Push(0, Reading(0, 0)), Clean(0), Begin(1, batch)] + more + [Clean(1)]
    requires forall i :: 0 <= i < |more| ==> more[i].Push?
    requires pulls == [Pull(0, [it]), Compare(0), Apply(0), Save(0, 10 * SECOND)]
                       + [Pull(1, [it]), Compare(1), Apply(1), Save(1, 10 * SECOND)]
    ensures NoEdits(Start("o", "o"), pushes, "o") && NoEdits(Start("o", "o"), pulls, "o")
    ensures forall d :: 0 <= d < 2 ==> Pushes(pushes, d) && Pulls(pulls, d)
  {
    assert pushes[0].Begin? && pushes[2] == Clean(0) && pushes[3].Begin? && pushes[4 + |more|] == Clean(1);
    assert pulls[0].Pull? && pulls[3].Save? && pulls[4].Pull? && pulls[7].Save?;
    assert Pushes(pushes, 0) && Pushes(pushes, 1) && Pulls(pulls, 0) && Pulls(pulls, 1);
  }

  /** Both devices pull the one row of the server and save the time. */
  lemma PullBoth(rules: Rules, m: State, it: Item) returns (steps: seq<Step>, r: State)
    requires |m.missed| == |m.devices| == 2
    requires forall d :: 0 <= d < 2 ==> CanPull(m, d, it)
    ensures Walked(rules, m, steps, r) && r.server == m.server && |r.devices| == 2
    ensures forall d :: 0 <= d < 2 ==> r.devices[d].rows == ApplyOne(m.devices[d].rows, it)
    ensures steps == [Pull(0, [it]), Compare(0), Apply(0), Save(0, 10 * SECOND)]
                       + [Pull(1, [it]), Compare(1), Apply(1), Save(1, 10 * SECOND)]
  {
    hide Walked, Lists, ApplyOne, UpdatedSince;
    WalkStart(rules, m);
    assert CanPull(m, 0, it) && CanPull(m, 1, it);
    steps, r := PullOne(rules, m, [], m, 0, it, 10 * SECOND);
    steps, r := PullOne(rules, m, steps, r, 1, it, 10 * SECOND);
  }

  ghost predicate CanPull(m: State, d: nat, it: Item)
    requires d < |m.devices|
  {
    && Pushed(m.devices[d]) && m.devices[d].ownerId == "o" && m.devices[d].last <= 10 * SECOND
    && Lists([it], UpdatedSince(m.server, "o", m.devices[d].cursor))
  }

  /** The first two stretches when device 0 alone has something to push. */
  lemma OnePushes(rules: Rules) returns (edits: seq<Step>, s1: State, pushes: seq<Step>, s2: State)
    ensures Takes(rules, Start("o", "o"), edits, s1) && Takes(rules, s1, pushes, s2) && |s2.missed| == 2
    ensures pushes == [Begin(0, [Secret1(5, [])]), Push(0, Reading(0, 0)), Clean(0), Begin(1, [])] + [] + [Clean(1)]
    ensures s2.devices == [Sent("o", 5, []), Passed(Fresh("o"))]
    ensures s2.server == map["x" := Secret("o", Secret1(5, []))]
  {
    hide Walked, Edited, Sent;
    var s := Start("o", "o");
    WalkStart(rules, s);
    edits, s1 := EditFirst(rules, s, [], s, 0, 5, []);
    WalkedTakes(rules, s, edits, s1);
    WalkStart(rules, s1);
    EditedCursor("o", 5, []);
    pushes, s2 := PushOne(rules, s1, [], s1, 0, "o", 5, []);
    pushes, s2 := PushNone(rules, s1, pushes, s2, 1);
    WalkedTakes(rules, s1, pushes, s2);
  }

  /** The first two stretches when both devices edited the secret at the same second. */
  lemma BothPush(rules: Rules) returns (edits: seq<Step>, s1: State, pushes: seq<Step>, s2: State)
    requires !rules.tieFree
    ensures Takes(rules, Start("o", "o"), edits, s1) && Takes(rules, s1, pushes, s2) && |s2.missed| == 2
    ensures pushes == [Begin(0, [Secret1(5, [])]), Push(0, Reading(0, 0)), Clean(0), Begin(1, [Secret1(5, [1])])]
                      + [Push(1, Reading(0, 0))] + [Clean(1)]
    ensures s2.devices == [Sent("o", 5, []), Sent("o", 5, [1])]
    ensures s2.server == map["x" := Secret("o", Secret1(5, []))]
  {
    hide Walked, Edited, Sent;
    var s := Start("o", "o");
    WalkStart(rules, s);
    edits, s1 := EditFirst(rules, s, [], s, 0, 5, []);
    edits, s1 := EditFirst(rules, s, edits, s1, 1, 5, [1]);
    WalkedTakes(rules, s, edits, s1);
    WalkStart(rules, s1);
    EditedCursor("o", 5, []);
    EditedCursor("o", 5, [1]);
    pushes, s2 := PushOne(rules, s1, [], s1, 0, "o", 5, []);
    pushes, s2 := PushOne(rules, s1, pushes, s2, 1, "o", 5, [1]);
    WalkedTakes(rules, s1, pushes, s2);
  }

  lemma PullOfRow(t: Table, rows: Rows, n: nat, payload: Bytes)
    requires t == map["x" := Secret("o", Secret1(n, payload))]
    ensures OwnedItems(t, "o") == map["x" := Secret1(n, payload)]
    ensures rows == map[] ==> LocalItems(ApplyOne(rows, Secret1(n, payload))) == OwnedItems(t, "o")
    ensures "x" in rows && rows["x"].item.updatedAt == n * SECOND ==> ApplyOne(rows, Secret1(n, payload)) == rows
  {
    Secret1Fits(n, payload);
  }

  /** A run that meets every hypothesis: both devices end with the row device 0 wrote. */
  lemma ConvergenceHappens() returns (edits: seq<Step>, s1: State, pushes: seq<Step>, s2: State, pulls: seq<Step>, r: State)
    ensures TwoRounds(ALL_RULES, edits, s1, pushes, s2, pulls, r)
    ensures |r.devices| == 2 && OwnedItems(r.server, "o") == map["x" := Secret1(5, [])]
    ensures LocalItems(r.devices[0].rows) == LocalItems(r.devices[1].rows) == OwnedItems(r.server, "o")
  {
    hide Walked, Takes, NoEdits, Pushes, Pulls, ApplyOne, Lists, UpdatedSince;
    edits, s1, pushes, s2 := OnePushes(ALL_RULES);
    OnePulled(s2.server, "o", 5, [], 0);
    assert CanPull(s2, 0, Secret1(5, [])) && CanPull(s2, 1, Secret1(5, []));
    pulls, r := PullBoth(ALL_RULES, s2, Secret1(5, []));
    WalkedTakes(ALL_RULES, s2, pulls, r);
    RoundsOfOne(pushes, pulls, Secret1(5, []), [], []);
    PullOfRow(r.server, s2.devices[0].rows, 5, []);
    PullOfRow(r.server, s2.devices[1].rows, 5, []);
  }

  /** Two devices edit one id within the same second: after both rounds they still differ. */
  lemma TieFreeNeeded() returns (edits: seq<Step>, s1: State, pushes: seq<Step>, s2: State, pulls: seq<Step>, r: State)
    ensures TwoRounds(ALL_RULES.(tieFree := false), edits, s1, pushes, s2, pulls, r)
    ensures |r.devices| == 2 && LocalItems(r.devices[1].rows) != OwnedItems(r.server, "o")
  {
    hide Walked, Takes, NoEdits, Pushes, Pulls, ApplyOne, Lists, UpdatedSince;
    var rules := ALL_RULES.(tieFree := false);
    edits, s1, pushes, s2 := BothPush(rules);
    OnePulled(s2.server, "o", 5, [], 0);
    assert CanPull(s2, 0, Secret1(5, [])) && CanPull(s2, 1, Secret1(5, []));
    pulls, r := PullBoth(rules, s2, Secret1(5, []));
    WalkedTakes(rules, s2, pulls, r);
    RoundsOfOne(pushes, pulls, Secret1(5, []), [Secret1(5, [1])], [Push(1, Reading(0, 0))]);
    PullOfRow(r.server, s2.devices[1].rows, 5, []);
    assert LocalItems(r.devices[1].rows)["x"] == Secret1(5, [1]) && OwnedItems(r.server, "o")["x"] == Secret1(5, []);
  }
}
