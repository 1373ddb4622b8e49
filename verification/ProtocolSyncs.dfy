/** The two syncs of the client, however they end, as runs of the state machine. */
module ProtocolSyncs {
  import opened Records
  import opened SecretStore
  import opened SyncService
  import opened DeviceStore
  import opened SyncLaws
  import opened Protocol

  const NO_RULES := Rules(false, false, false, false, false, false, false)

  // --- The stretches of a sync ---------------------------------------------------------------

  lemma One(s: State, steps: seq<Step>, m: State, a: Step) returns (more: seq<Step>, r: State)
    requires Takes(NO_RULES, s, steps, m) && |m.missed| == |m.devices| && Enabled(m, a)
    ensures r == Next(m, a) && more == steps + [a] && Takes(NO_RULES, s, more, r)
  {
    r, more := Next(m, a), steps + [a];
    TakesOneMore(NO_RULES, s, steps, m, a);
  }

  /** The server takes the items of the batch from the current one up to `hi`. */
  lemma {:induction false} PushSteps(s: State, d: nat, clock: Clock, hi: nat) returns (steps: seq<Step>, r: State)
    requires |s.missed| == |s.devices| && d < |s.devices| && s.devices[d].phase.Busy?
    requires var p := s.devices[d].phase;
             p.pushed <= hi <= |p.batch| == |clock| && PushableUpTo(p.batch, hi)
    ensures Takes(NO_RULES, s, steps, r) && |r.missed| == |r.devices|
    ensures var p := s.devices[d].phase;
            && r.devices == s.devices[d := s.devices[d].(phase := p.(pushed := hi))]
            && r.server == UpsertAll(s.server, FilledAll(s.devices[d].ownerId, p.batch, clock)[p.pushed..hi])
    decreases hi
  {
    hide Takes, Pushable, UpsertAll, UpsertRow, FilledAll, Filled, MissedAfter;
    var dev, p := s.devices[d], s.devices[d].phase;
    var rows := FilledAll(dev.ownerId, p.batch, clock);
    if hi == p.pushed {
      steps, r := [], s;
      TakesNone(NO_RULES, s);
      assert s.devices[d := dev.(phase := p.(pushed := hi))] == s.devices;
      UpsertNone(s.server, rows[hi..hi]);
    } else {
      var init, m := PushSteps(s, d, clock, hi - 1);
      steps, r := One(s, init, m, Push(d, clock[hi - 1]));
      assert rows[p.pushed..hi] == rows[p.pushed..hi - 1] + [rows[hi - 1]];
      UpsertAllMore(s.server, rows[p.pushed..hi - 1], rows[hi - 1]);
    }
  }

  /** The device compares and writes the first `hi` of the pulled items. */
  lemma {:induction false} ApplySteps(s: State, d: nat, hi: nat) returns (steps: seq<Step>, r: State)
    requires |s.missed| == |s.devices| && d < |s.devices| && s.devices[d].phase.Busy?
    requires var p := s.devices[d].phase;
             p.pushed == |p.batch| && p.pulled.Some? && p.applied == 0 && p.wins.None? && hi <= |p.pulled.value|
    ensures Takes(NO_RULES, s, steps, r) && |r.missed| == |r.devices|
    ensures var p := s.devices[d].phase;
            && r.devices == s.devices[d := s.devices[d].(phase := p.(applied := hi),
                                                         rows := ApplyAll(s.devices[d].rows, p.pulled.value[..hi]))]
            && r.server == s.server
    decreases hi
  {
    hide Takes, UpsertLocal, RemoteWins, MissedAfter;
    var dev, p := s.devices[d], s.devices[d].phase;
    if hi == 0 {
      steps, r := [], s;
      TakesNone(NO_RULES, s);
      assert p.pulled.value[..0] == [];
      assert s.devices[d := dev.(phase := p.(applied := hi), rows := dev.rows)] == s.devices;
    } else {
      var init, m := ApplySteps(s, d, hi - 1);
      var half, h := One(s, init, m, Compare(d));
      steps, r := One(s, half, h, Apply(d));
      assert p.pulled.value[..hi][..hi - 1] == p.pulled.value[..hi - 1];
    }
  }

  /** The device can begin a sync of `batch`, of which the server would take the first `n` items. */
  ghost predicate CanBegin(s: State, d: nat, batch: seq<Item>, clock: Clock, n: nat) {
    && |s.missed| == |s.devices| && d < |s.devices| && s.devices[d].phase.Idle?
    && Lists(batch, DirtyItems(s.devices[d].rows)) && |clock| == |batch|
    && n <= |batch| && PushableUpTo(batch, n)
  }

  /** Begin, push the first `n` items. */
  lemma BeginAndPush(s: State, d: nat, batch: seq<Item>, clock: Clock, n: nat) returns (steps: seq<Step>, r: State)
    requires CanBegin(s, d, batch, clock, n)
    ensures Takes(NO_RULES, s, steps, r) && |r.missed| == |r.devices| == |s.devices|
    ensures r.server == UpsertAll(s.server, FilledAll(s.devices[d].ownerId, batch, clock)[..n])
    ensures r.devices[d].phase == Busy(batch, n, None, 0, None, false)
    ensures var dev := s.devices[d];
            r.devices[d].ownerId == dev.ownerId && r.devices[d].rows == dev.rows && r.devices[d].cursor == dev.cursor
    ensures OthersKept(s, r, d)
  {
    hide Takes, UpsertAll, FilledAll, Lists, MissedAfter, Pushable;
    TakesNone(NO_RULES, s);
    var b1, s1 := One(s, [], s, Begin(d, batch));
    var b2, s2 := PushSteps(s1, d, clock, n);
    TakesBoth(NO_RULES, s, b1, s1, b2, s2);
    steps, r := b1 + b2, s2;
    var rows := FilledAll(s.devices[d].ownerId, batch, clock);
    assert rows[0..n] == rows[..n];
  }

  ghost predicate OthersKept(s: State, r: State, d: nat) {
    |r.devices| == |s.devices| && forall e :: 0 <= e < |s.devices| && e != d ==> r.devices[e] == s.devices[e]
  }

  /** Begin, push everything with the pull answered after `k` upserts, apply the first `done` items. */
  lemma PushPullApply(s: State, d: nat, batch: seq<Item>, clock: Clock, k: nat, items: seq<Item>, done: nat)
      returns (steps: seq<Step>, r: State)
    requires CanBegin(s, d, batch, clock, |batch|) && k <= |batch| && done <= |items|
    requires Lists(items, UpdatedSince(
               UpsertAll(s.server, FilledAll(s.devices[d].ownerId, batch, clock)[..k]),
               s.devices[d].ownerId, s.devices[d].cursor))
    ensures Takes(NO_RULES, s, steps, r) && |r.missed| == |r.devices| == |s.devices|
    ensures r.server == UpsertAll(s.server, FilledAll(s.devices[d].ownerId, batch, clock))
    ensures r.devices[d].phase == Busy(batch, |batch|, Some(items), done, None, false)
    ensures r.devices[d].rows == ApplyAll(s.devices[d].rows, items[..done]) && r.devices[d].cursor == s.devices[d].cursor
    ensures OthersKept(s, r, d)
  {
    hide Lists, UpdatedSince, UpsertAll, FilledAll, ApplyAll, Takes, MissedAfter, Pushable;
    var rows := FilledAll(s.devices[d].ownerId, batch, clock);
    var b2, s2 := BeginAndPush(s, d, batch, clock, k);
    var b3, s3 := One(s, b2, s2, Pull(d, items));
    var b4, s4 := PushSteps(s3, d, clock, |batch|);
    TakesBoth(NO_RULES, s, b3, s3, b4, s4);
    var b5, s5 := ApplySteps(s4, d, done);
    TakesBoth(NO_RULES, s, b3 + b4, s4, b5, s5);
    steps, r := b3 + b4 + b5, s5;
    UpsertInTwo(s.server, rows, k);
    assert rows[0..k] == rows[..k];
  }

  /** Begin, push everything, clean, pull, apply the first `done` items. */
  lemma PushCleanPullApply(s: State, d: nat, batch: seq<Item>, clock: Clock, items: seq<Item>, done: nat)
      returns (steps: seq<Step>, r: State)
    requires CanBegin(s, d, batch, clock, |batch|) && done <= |items|
    requires Lists(items, UpdatedSince(
               UpsertAll(s.server, FilledAll(s.devices[d].ownerId, batch, clock)),
               s.devices[d].ownerId, s.devices[d].cursor))
    ensures Takes(NO_RULES, s, steps, r) && |r.missed| == |r.devices| == |s.devices|
    ensures r.server == UpsertAll(s.server, FilledAll(s.devices[d].ownerId, batch, clock))
    ensures r.devices[d].phase == Busy(batch, |batch|, Some(items), done, None, true)
    ensures r.devices[d].rows == ApplyAll(CleanRows(s.devices[d].rows, Ids(batch)), items[..done])
    ensures r.devices[d].cursor == s.devices[d].cursor && OthersKept(s, r, d)
  {
    hide Lists, UpdatedSince, UpsertAll, FilledAll, ApplyAll, CleanRows, Takes, MissedAfter, Pushable;
    var rows := FilledAll(s.devices[d].ownerId, batch, clock);
    assert rows[..|batch|] == rows;
    var b2, s2 := BeginAndPush(s, d, batch, clock, |batch|);
    var b3, s3 := One(s, b2, s2, Clean(d));
    var b4, s4 := One(s, b3, s3, Pull(d, items));
    var b5, s5 := ApplySteps(s4, d, done);
    TakesBoth(NO_RULES, s, b4, s4, b5, s5);
    steps, r := b4 + b5, s5;
  }

  // --- Syncs that succeed --------------------------------------------------------------------

  /** The concurrent sync, its pull answered after `k` upserts, is a run of the machine and leaves the
      server, the device's rows and its cursor as `ConcurrentSync` says; other devices are not touched. */
  lemma ConcurrentSyncRuns(s: State, d: nat, batch: seq<Item>, clock: Clock, k: nat, items: seq<Item>, now: Time)
      returns (steps: seq<Step>, r: State)
    requires CanBegin(s, d, batch, clock, |batch|) && k <= |batch|
    requires Lists(items, UpdatedSince(
               UpsertAll(s.server, FilledAll(s.devices[d].ownerId, batch, clock)[..k]),
               s.devices[d].ownerId, s.devices[d].cursor))
    ensures Takes(NO_RULES, s, steps, r)
    ensures OthersKept(s, r, d) && r.devices[d].phase.Idle?
    ensures var dev := s.devices[d];
            Outcome(r.server, r.devices[d].rows, r.devices[d].cursor)
            == ConcurrentSync(s.server, dev.rows, dev.ownerId, dev.cursor, batch, clock, k, now)
  {
    hide Lists, UpdatedSince, UpsertAll, FilledAll, Merged, CleanRows, ApplyAll, Takes, MissedAfter, Pushable;
    var dev := s.devices[d];
    var b5, s5 := PushPullApply(s, d, batch, clock, k, items, |items|);
    var b6, s6 := One(s, b5, s5, Clean(d));
    steps, r := One(s, b6, s6, Save(d, now));
    assert items[..|items|] == items;
    ApplyAllMerges(dev.rows, items, UpdatedSince(
      UpsertAll(s.server, FilledAll(dev.ownerId, batch, clock)[..k]), dev.ownerId, dev.cursor));
  }

  /** The sequential sync is a run of the machine too. */
  lemma SequentialSyncRuns(s: State, d: nat, batch: seq<Item>, clock: Clock, items: seq<Item>, now: Time)
      returns (steps: seq<Step>, r: State)
    requires CanBegin(s, d, batch, clock, |batch|)
    requires Lists(items, UpdatedSince(
               UpsertAll(s.server, FilledAll(s.devices[d].ownerId, batch, clock)),
               s.devices[d].ownerId, s.devices[d].cursor))
    ensures Takes(NO_RULES, s, steps, r)
    ensures OthersKept(s, r, d) && r.devices[d].phase.Idle?
    ensures var dev := s.devices[d];
            Outcome(r.server, r.devices[d].rows, r.devices[d].cursor)
            == SequentialSync(s.server, dev.rows, dev.ownerId, dev.cursor, batch, clock, now)
  {
    hide Lists, UpdatedSince, UpsertAll, FilledAll, Merged, CleanRows, ApplyAll, Takes, MissedAfter, Pushable;
    var dev := s.devices[d];
    var b5, s5 := PushCleanPullApply(s, d, batch, clock, items, |items|);
    steps, r := One(s, b5, s5, Save(d, now));
    assert items[..|items|] == items;
    ApplyAllMerges(CleanRows(dev.rows, Ids(batch)), items,
      UpdatedSince(UpsertAll(s.server, FilledAll(dev.ownerId, batch, clock)), dev.ownerId, dev.cursor));
  }

  // --- Syncs that fail -----------------------------------------------------------------------

  /** Wherever the concurrent sync stops, what it leaves is what a given-up run of the machine leaves: the
      prefix pushed, the prefix applied, perhaps the cleaning, and the old cursor. */
  lemma ConcurrentStopRuns(s: State, d: nat, p: Progress, k: nat) returns (steps: seq<Step>, r: State)
    requires |s.missed| == |s.devices| && d < |s.devices| && s.devices[d].phase.Idle?
    requires ConcurrentTrace(s.server, s.devices[d].rows, s.devices[d].ownerId, s.devices[d].cursor, p, k)
    ensures Takes(NO_RULES, s, steps, r)
    ensures OthersKept(s, r, d) && r.devices[d].phase.Idle? && r.devices[d].cursor == s.devices[d].cursor
    ensures r.server == TableAt(s.server, s.devices[d].ownerId, p)
    ensures r.devices[d].rows == ConcurrentRows(s.devices[d].rows, p)
  {
    hide Lists, UpdatedSince, UpsertAll, FilledAll, CleanRows, ApplyAll, Takes, MissedAfter, Pushable;
    var b, m;
    if p.done == 0 && !p.cleaned {
      b, m := BeginAndPush(s, d, p.batch, p.clock, p.stop);
      ApplyNone(s.devices[d].rows, p.items);
    } else {
      var rows := FilledAll(s.devices[d].ownerId, p.batch, p.clock);
      assert rows[..p.stop] == rows;
      b, m := PushPullApply(s, d, p.batch, p.clock, k, p.items, p.done);
      if p.cleaned {
        b, m := One(s, b, m, Clean(d));
      }
    }
    steps, r := One(s, b, m, Abort(d));
  }

  /** And wherever the sequential sync stops. */
  lemma SequentialStopRuns(s: State, d: nat, p: Progress) returns (steps: seq<Step>, r: State)
    requires |s.missed| == |s.devices| && d < |s.devices| && s.devices[d].phase.Idle?
    requires SequentialTrace(s.server, s.devices[d].rows, s.devices[d].ownerId, s.devices[d].cursor, p)
    ensures Takes(NO_RULES, s, steps, r)
    ensures OthersKept(s, r, d) && r.devices[d].phase.Idle? && r.devices[d].cursor == s.devices[d].cursor
    ensures r.server == TableAt(s.server, s.devices[d].ownerId, p)
    ensures r.devices[d].rows == SequentialRows(s.devices[d].rows, p)
  {
    hide Lists, UpdatedSince, UpsertAll, FilledAll, CleanRows, ApplyAll, Takes, MissedAfter, Pushable;
    var b, m;
    if p.done == 0 {
      b, m := BeginAndPush(s, d, p.batch, p.clock, p.stop);
      if p.cleaned {
        b, m := One(s, b, m, Clean(d));
      }
      ApplyNone(m.devices[d].rows, p.items);
    } else {
      var rows := FilledAll(s.devices[d].ownerId, p.batch, p.clock);
      assert rows[..p.stop] == rows;
      b, m := PushCleanPullApply(s, d, p.batch, p.clock, p.items, p.done);
    }
    steps, r := One(s, b, m, Abort(d));
  }

  // --- What may happen besides -----------------------------------------------------------------

  /** At any time a user may edit any id on any device, a sync under way may be given up, and an item that a
      device has sent may reach the server, once more or for the first time. */
  lemma AlwaysPossible(s: State, d: nat, item: Item, now: Reading)
    requires |s.missed| == |s.devices| && d < |s.devices|
    ensures Enabled(s, Edit(d, item))
    ensures var r := Next(s, Edit(d, item));
            r.server == s.server && r.devices[d].rows == UpsertLocal(s.devices[d].rows, item, true) && OthersKept(s, r, d)
    ensures s.devices[d].phase.Busy? ==> Enabled(s, Abort(d)) && Next(s, Abort(d)).devices[d] == s.devices[d].(phase := Idle)
    ensures item in s.devices[d].sent && Pushable(item) ==>
              Enabled(s, Deliver(d, item, now)) && Next(s, Deliver(d, item, now)).devices == s.devices
              && Next(s, Deliver(d, item, now)).server == UpsertRow(s.server, Filled(s.devices[d].ownerId, item, now))
  {
    hide UpsertLocal, UpsertRow, Filled, Pushable, MissedAfter;
    if item in s.devices[d].sent && Pushable(item) {
      assert s.devices[d := s.devices[d]] == s.devices;
    }
  }

  /** All that a sync read as dirty counts as sent from its begin on, and what was sent stays so. */
  lemma SentStays(s: State, a: Step)
    requires |s.missed| == |s.devices| && Enabled(s, a)
    ensures s.devices[a.d].sent <= Next(s, a).devices[a.d].sent
    ensures a.Begin? ==> forall item :: item in a.batch ==> item in Next(s, a).devices[a.d].sent
  {
  }
}
