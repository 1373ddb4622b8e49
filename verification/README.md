# GophKeeper synchronisation, verified

GophKeeper keeps a user's secrets on several devices. Each device has its own table and works offline; a
server table is the meeting point. A device pushes the rows it has changed and pulls the rows that are newer
than its saved cursor, and on both sides the newer time wins. This project models that protocol in Dafny and
proves what it guarantees, over every input of one operation and over every run of several devices.

`dafny verify dfyconfig.toml` checks everything.

## How the model is laid out

| file | what it holds |
|---|---|
| Records.dfy | items, rows, times as nanoseconds since the zero time, truncation to seconds |
| Text.dfy, Meta.dfy | trimming and splitting; the `k=v` metadata parser |
| Crypto.dfy, Payloads.dfy | the nonce-prefix framing over an abstract cipher; the in-place payload loops |
| SecretStore.dfy | the server's table: class `PostgresSecretStore`, runs of its operations |
| SyncService.dfy, PushLaws.dfy | the push loop; what a push means, retries, order and batching |
| DeviceStore.dfy, CursorStore.dfy | the device's table with its dirty bits; the cursor file |
| SyncLaws.dfy, SyncSafety.dfy | one complete sync of one device; what a sync keeps wherever it stops |
| ClientService.dfy, TerminalUi.dfy | the client's edits and its concurrent sync; the terminal's sequential sync and its add |
| Protocol.dfy | N devices and the server as one state machine, with edits, failures and late deliveries |
| ProtocolSyncs.dfy, ProtocolAdds.dfy | both syncs of the client, however they end, are runs of that machine; adds during a sync |
| ProtocolSafety.dfy, ProtocolCoverage.dfy, ProtocolConvergence.dfy, ProtocolNewest.dfy | what holds in every run |
| Hypotheses.dfy, Witnesses.dfy | the exact conditions behind the hypotheses on runs; for each hypothesis a run from the start that breaks it alone |

Classes follow the source: their methods change the tables in place and are proved against functions on the
tables, and the laws are lemmas about those functions. Outside influences are parameters: clock readings,
random bytes, which database calls, requests or answers fail and which of two failing requests does so first,
and after how many of its own upserts the concurrent pull is answered.

The state machine splits a sync into reading the dirty rows, one upsert per pushed item, one atomic pull, two
steps per pulled item (comparing it with the stored row, then writing it if it won), cleaning and saving; a
sync can be given up at any point, and edits may fall between any two steps. It allows slightly more than
the code: a pull at any point, cleaning before or after applying (so that both syncs are covered), and the
delivery, at any later time and any number of times, of an item of a push the device has started.

## Hypotheses on runs

A run is any sequence of enabled steps. A theorem about runs names the hypotheses it needs (`Rules`):

- `oneOwner`: nobody edits an id another owner edited before. Ids are random; the server ignores a stranger's row.
- `noPushedEdit`, `noPulledEdit`: while a device syncs, its user does not edit an id that the sync is pushing
  or has pulled. Adds under new ids, which the terminal allows during a sync, are always fine.
- `clockMonotone`: a device's own clock does not go back. Clocks of different devices may differ freely.
- `stamped`: the times of an edit do not truncate to the zero time.
- `tieFree`: two edits of one id within one second store the same item.
- `timely`: a row the server accepts is after the cursor of every other device of its owner, and after the
  cursor such a device saves from a pull the row came too late for.

That every row is dirty or on the server needs `oneOwner` and `noPushedEdit`; that no edit is forgotten needs
`noPulledEdit` and `clockMonotone` too. Coverage of the cursor needs `noPulledEdit`, `clockMonotone`, `stamped`
and `timely`. Convergence needs all seven, but asks only one owner to stop editing. They can be met together: in
`Witnesses.ConvergenceHappens` two devices end with a secret that one of them wrote. And each is needed: every
other story of Witnesses.dfy is a concrete run that obeys all rules but one and loses the guarantee that the
rule is for.

## What the code does not guarantee

- A row pushed after another device has synced past its time is never pulled by that device: the pull asks for
  strictly newer rows and the cursor is the time of the sync (`Witnesses.TimelyNeeded` reaches such a state,
  `ProtocolCoverage.StaleForGood` says that it lasts). A late row is safe exactly when it is after the other
  cursor or already held (`ProtocolCoverage.TimelyExactly`). In every reachable state, late rows or not, one more
  sync brings a device to agree exactly when its cursor hides nothing it lacks (`Hypotheses.SyncAgreesExactly`),
  and after the two rounds of convergence a device agrees exactly when that was so at its last pull
  (`ProtocolConvergence.RoundsAgreeExactly`).
- Two edits of one id within a second are a tie that nothing resolves (`Witnesses.TieFreeNeeded`; exactly when,
  `SyncLaws.AgreementExactly` and `PushLaws.SwapExactly`).
- Applying a pulled row is a read and then an unconditional write. An edit of that id between the two is
  overwritten by the older pulled row, marked clean, and no table has it any more (`Witnesses.PulledEditLost`;
  exactly when, `Hypotheses.PulledEditExactly`).
- An edit made after the write, of a row pulled from a device with a faster clock, can hide that row for good,
  and so can an edit after a device's own clock went back (`Witnesses.NoPulledEditNeeded`,
  `Witnesses.ClockMonotoneNeeded`; exactly when, `Hypotheses.EditExactly`).
- An edit of a row being pushed is marked clean unsent (`Witnesses.NoPushedEditNeeded`; exactly when,
  `Hypotheses.CleanExactly`).
- An id that two owners use stays with the first; the second device marks its row clean all the same
  (`Witnesses.OneOwnerNeeded`; exactly when an edit gets lost, `Hypotheses.OwnersExactly`).
- The terminal's add does not check the type. A blank type makes every later push of that device fail
  (`TerminalUi.Terminal.ShowAddSecret`, `ClientService.Service.Sync`).
- Repeating a push is harmless exactly unless an item carries no time and the server's clock fills it in anew
  (`PushLaws.RepeatExactly`).

## Model

| member | source | states |
|---|---|---|
| ProtocolConvergence.Convergence | internal/client/service/service.go:188-236 | From any reachable state of any number of devices of any owners: once one owner's edits stop, one push round and then one pull round of that owner's devices, interleaved in any way, with failing syncs among them and with anything the other owners do, leave every device of the owner with exactly the owner's rows of the server |
| ProtocolConvergence.RoundsAgreeExactly | internal/client/service/service.go:188-236 | After the same two rounds, with rows reaching the server as late as they like, a device holds exactly its owner's rows if and only if its cursor hid nothing it lacked when it last pulled |
| ProtocolNewest.NewestEditWins | internal/client/service/service.go:188-236 | What all devices of a quiet owner then hold for an id of the owner is an item some device wrote, and no edit ever made of that id on any device is newer |
| ProtocolNewest.NewestNeverForgotten | internal/client/store/local_store.go:296-310 | In every reachable state each edit ever made lives on, or one at least as new does, on the server or on a device that has still to push it, if no id is edited that its device is pushing or has pulled |
| ProtocolConvergence.FullSyncAgrees | internal/client/service/service.go:188-229 | In every reachable state, with no assumption on clocks or timeliness, one successful sync that ignores the cursor makes the device agree with the server in ids, contents and tombstones |
| ProtocolConvergence.QuietFreezes | internal/repository/postgres_secret_store.go:243-253 | When no device of an owner has dirty rows, whatever is still delivered for the owner is refused and the owner's rows on the server no longer change, whatever other owners do |
| ProtocolConvergence.SyncedAgrees | internal/client/store/local_store.go:296-310 | A clean device that holds every row of its owner at least as new holds exactly those rows |
| ProtocolCoverage.CoverageInEveryRun | internal/client/service/service.go:188-236 | In every reachable state each server row a device's cursor hides is held by that device at least as new, also when users edit ids being pushed or two owners edit one id |
| ProtocolCoverage.IncrementalInEveryRun | internal/client/api/client.go:218-222 | So in every reachable state a sync from the saved cursor ends like a sync from the zero time |
| ProtocolCoverage.WholeSeconds | internal/client/store/local_store.go:71-72 | In every run of stamped edits all times everywhere are non-zero whole seconds; if no pulled id is edited during its sync, writing a pulled row only ever raises the stored time |
| ProtocolCoverage.CoverOther | internal/repository/postgres_secret_store.go:125-131 | Another device's accepted row leaves a device covered: it is beyond the cursor, and too late only for a pull that will not hide it |
| ProtocolCoverage.CoverSave | internal/client/service/service.go:231-233 | Saving the time hides no row that the pull did not bring |
| ProtocolCoverage.TimelyExactly | internal/repository/postgres_secret_store.go:125-131 | An accepted row leaves a device covered exactly if it is after the device's cursor or already held |
| ProtocolCoverage.StaleForGood | internal/client/service/service.go:188-236 | A row hidden by the cursor and not held stays unknown to the device through any number of its syncs |
| ProtocolSafety.EveryRowSafe | internal/client/service/service.go:213-229 | In every reachable state each local row is dirty or on the server at least as new under the right owner, whatever the interleaving and wherever syncs stop, also between the read and the write of a pulled row |
| ProtocolSafety.InvNext | internal/client/service/service.go:188-236 | Every step of every device keeps the safety invariant of all devices and the server |
| ProtocolSyncs.ConcurrentSyncRuns | internal/client/service/service.go:188-236 | The concurrent sync, for every point of its pull, is a run of the state machine with the outcome the sync method promises |
| ProtocolSyncs.SequentialSyncRuns | internal/client/ui/ui.go:238-288 | The terminal's sequential sync is a run of the state machine with the outcome its method promises |
| ProtocolSyncs.ConcurrentStopRuns | internal/client/service/service.go:188-236 | Wherever the concurrent sync fails, what its method says it leaves is what a run of the state machine with a given-up sync leaves |
| ProtocolSyncs.SequentialStopRuns | internal/client/ui/ui.go:238-288 | The same for the terminal's sequential sync |
| ProtocolSyncs.AlwaysPossible | internal/client/ui/ui.go:141-193 | In every state the user may edit any id, a sync may be given up, and an item a device has sent may reach the server, with the stated effects and no others |
| ProtocolSyncs.SentStays | internal/client/service/service.go:201-208 | All that a sync read as dirty counts as sent, and what was sent may arrive ever after |
| Hypotheses.CleanExactly | internal/client/store/local_store.go:277-293 | From any state that satisfies the safety invariant: an edit just before the cleaning of a pushed batch survives the cleaning exactly when it is of another id or its second is no later than the server's row |
| Hypotheses.EditExactly | internal/client/store/local_store.go:50-95 | A local edit keeps a device covered exactly when the cursor does not hide the server's row of that id or the edit's second is no earlier than it |
| Hypotheses.PulledEditExactly | internal/client/store/local_store.go:296-310 | An edit between the read and the write of a pulled row lives on exactly when the write is not of its id, or the server or another device has the id at least as new; the stored time does not go back exactly when the write is not of its id or its second is no earlier |
| Hypotheses.OwnersExactly | internal/repository/postgres_secret_store.go:243-253 | With ids shared by owners, a push and its cleaning lose nothing exactly when no dirty row is newer than the row another owner has under its id |
| Hypotheses.SyncAgreesExactly | internal/client/service/service.go:188-236 | From any reachable state, with no assumption on clocks or timeliness and with any dirty rows: one sync from the saved cursor brings agreement exactly when the cursor hides no row the device lacks |
| Witnesses.ConvergenceHappens | internal/client/service/service.go:188-236 | A run that meets every hypothesis of convergence and ends with a secret on two devices and the server |
| Witnesses.TimelyNeeded | internal/repository/postgres_secret_store.go:125-131 | A run that breaks only `timely`, after which a device's cursor hides a row it does not hold, for good |
| Witnesses.TieFreeNeeded | internal/repository/postgres_secret_store.go:243-253 | A run that breaks only `tieFree`: after both rounds a device differs from the server |
| Witnesses.NoPushedEditNeeded | internal/client/service/service.go:221-229 | A run that breaks only `noPushedEdit`: an edit the server lacks is marked clean |
| Witnesses.NoPulledEditNeeded | internal/client/service/service.go:217-233 | A run that breaks only `noPulledEdit`: an edit between the write and the save hides the newer row it overwrote |
| Witnesses.PulledEditLost | internal/client/store/local_store.go:296-310 | Another such run: an edit between the read and the write of a pulled row is overwritten by it and gone from every table |
| Witnesses.ClockMonotoneNeeded | internal/client/service/service.go:231-233 | A run that breaks only `clockMonotone`: an edit after the clock went back hides the newer row it overwrote |
| Witnesses.StampedNeeded | internal/service/sync.go:53-61 | A run that breaks only `stamped`: the time the server fills in is one the device never learns |
| Witnesses.OneOwnerNeeded | internal/repository/postgres_secret_store.go:243-253 | A run that breaks only `oneOwner`: the second owner's row is refused and yet marked clean |
| SyncLaws.ScheduleIndependence | internal/client/service/service.go:194-229 | Wherever the pull falls among the sync's own upserts, the concurrent sync ends like push, clean, pull, apply: same server, rows, dirty bits and cursor, ties and fractions of a second included |
| TerminalUi.BothSyncsAgree | internal/client/ui/ui.go:249-286 | The client's and the terminal's sync end in the same state, whatever the order of the dirty list and the server's clock |
| SyncLaws.IncrementalExactly | internal/client/api/client.go:218-222 | A pull from the cursor does what a pull from the zero time does exactly when applying any one hidden row would change nothing |
| SyncLaws.IncrementalRefinesFull | internal/client/service/service.go:188-236 | Under coverage a whole sync from the cursor ends like one from the zero time |
| SyncLaws.AgreementExactly | internal/client/service/service.go:188-229 | With nothing dropped, one full sync makes device and server agree exactly when the two tables had no tie |
| SyncSafety.ApplyKeepsSafe | internal/client/store/local_store.go:296-310 | Applying any prefix of a pull drops no local edit |
| SyncSafety.CleanKeepsSafe | internal/client/service/service.go:221-229 | Cleaning the pushed ids after the push drops no local edit and leaves nothing dirty |
| SyncService.PushMeaning | internal/service/sync.go:44-67 | After a push an owned or new id holds the first newest of its old row and the pushed rows in order; another owner's id keeps its row |
| SyncService.UpsertAllAdvances | internal/repository/postgres_secret_store.go:243-253 | Upserts keep every id with its owner and move no time back |
| SyncService.SyncServiceImpl.PushItem | internal/service/sync.go:46-64 | One turn of the push loop: a blank id, a live item with a blank type and a store failure each stop it with their own error; a new row is the pusher's with missing times filled in; an accepted row is upserted |
| SyncService.SyncServiceImpl.PushRange | internal/service/sync.go:45-66 | The loop stops at the first item that is refused or that the store fails on, with the prefix applied |
| SyncService.SyncServiceImpl.Push | internal/service/sync.go:44-67 | A successful push applies all items and returns their number; a failed one keeps exactly the prefix of good items and says what was wrong with the next |
| SyncService.SyncServiceImpl.Pull | internal/service/sync.go:40-42 | The owner's rows strictly newer than the time, tombstones included, each once, oldest first |
| PushLaws.RetrySafe | internal/service/sync.go:46-63 | A push cut short anywhere, then any upserts of anybody, then the whole push again, equals pushing only what was left |
| PushLaws.RepeatExactly | internal/service/sync.go:53-61 | Repeating the push of an item is harmless exactly unless it has no time of its own and the clock moved on under an own row |
| PushLaws.OrderIndependence | internal/repository/postgres_secret_store.go:243-253 | Without ties and with one owner per id, the same rows in any order and any batches give the same table |
| PushLaws.SwapExactly | internal/repository/postgres_secret_store.go:243-253 | The order of two upserts matters exactly for a tie or for two owners of a new id |
| PushLaws.PushIsRun | internal/service/sync.go:44-67 | A push is a run of server operations, so the laws of runs apply to it |
| SecretStore.RunKeepsOwners | internal/repository/postgres_secret_store.go:26-253 | No run of create, update, delete and upsert removes an id or changes its owner |
| SecretStore.RunFrame | internal/repository/postgres_secret_store.go:187-253 | A run of one owner leaves every other owner's rows exactly as they were and makes none |
| SecretStore.TombstoneStays | internal/repository/postgres_secret_store.go:213-253 | A tombstone survives every run without a strictly newer live upsert by its owner, its time never going back |
| SecretStore.SelectOldestFirst | internal/repository/postgres_secret_store.go:125-173 | A query result lists every selected row once, oldest first |
| SecretStore.PostgresSecretStore.Create | internal/repository/postgres_secret_store.go:26-47 | Inserts a new id; an existing id is an error and nothing changes |
| SecretStore.PostgresSecretStore.GetByID | internal/repository/postgres_secret_store.go:49-74 | Finds exactly the owner's live rows |
| SecretStore.PostgresSecretStore.ListByOwner | internal/repository/postgres_secret_store.go:76-123 | The owner's live rows, each once, newest first |
| SecretStore.PostgresSecretStore.ListUpdatedSince | internal/repository/postgres_secret_store.go:125-173 | The owner's rows strictly newer than the time, tombstones included, each once, oldest first |
| SecretStore.PostgresSecretStore.Update | internal/repository/postgres_secret_store.go:175-206 | Changes type, payload, meta and time of a live own row, keeping its creation time; otherwise not found |
| SecretStore.PostgresSecretStore.Delete | internal/repository/postgres_secret_store.go:208-231 | Turns a live own row into a tombstone at the given time, all else kept: nobody reads it one by one any more and every pull from an earlier time brings it; otherwise not found |
| SecretStore.PostgresSecretStore.Upsert | internal/repository/postgres_secret_store.go:233-266 | Inserts, or replaces an own strictly older row; a refused row is reported as success |
| DeviceStore.ApplyAllMerges | internal/client/store/local_store.go:296-310 | Applying the rows of a pull one by one, in any order, is the pointwise newer-wins merge |
| DeviceStore.MergeLaws | internal/client/store/local_store.go:296-310 | The merge sets no dirty bit, lowers no stored time, keeps all rows and is idempotent, also for times with fractions |
| ProtocolAdds.SyncCleansWhatItRead | internal/client/ui/ui.go:249-280 | In a run of the state machine from the begin of a sync to its save, with adds of new ids on that device and anything on the others in between, exactly the added ids are dirty in the end |
| DeviceStore.LocalStore.Upsert | internal/client/store/local_store.go:50-95 | Stores every field of the item under its id, the times in whole seconds and a type for an untyped tombstone, with the given dirty bit, whatever was there; no other row changes |
| DeviceStore.LocalStore.Get | internal/client/store/local_store.go:98-135 | The stored item of an id, or not found |
| DeviceStore.LocalStore.ListDirty | internal/client/store/local_store.go:209-274 | Every dirty row once, oldest first |
| DeviceStore.LocalStore.MarkClean | internal/client/store/local_store.go:277-293 | Clears the dirty bit of exactly the given ids |
| DeviceStore.LocalStore.ApplyRemote | internal/client/store/local_store.go:296-310 | Applies the items in order up to the first whose read or needed write fails; of distinct ids each item wins exactly where the id is new or the stored time is older, and nothing else changes |
| CursorStore.SyncStore.Save | internal/client/store/sync_store.go:25-30 | Keeps the second the time falls in |
| CursorStore.SyncStore.Load | internal/client/store/sync_store.go:33-50 | The kept time, or not found before the first sync |
| ClientService.Service.Sync | internal/client/service/service.go:188-236 | Success is the concurrent outcome over all dirty rows and leaves the device with every row of its owner newer than the last sync, from the zero time on the first; it is assured when every call goes through and all dirty rows are pushable; at every failure the server table, the rows and the cursor are exactly those of the point it stopped at, and no row is lost; each error names its cause |
| ClientService.Service.PushAndPull | internal/client/service/service.go:199-215 | The two concurrent requests: all upserts applied and a snapshot after some of them, or a prefix, possibly all of it when only the answer got lost, and the error of whichever failed first |
| ClientService.Service.ApplyCleanSave | internal/client/service/service.go:217-233 | Apply, clean, save: which of them fails and the rows at every stop; stopping anywhere loses no edit and saves no cursor |
| ClientService.Service.Add | internal/client/service/service.go:61-96 | Stores the encrypted secret dirty under a new random id and changes no other row; refuses missing input, a missing key and too little randomness, each with its error; keeps all dirty rows pushable |
| ClientService.Service.Update | internal/client/service/service.go:126-159 | Overwrites with the trimmed type and the old creation time; keeps all dirty rows pushable |
| ClientService.Service.Delete | internal/client/service/service.go:162-185 | Leaves a dirty tombstone with the old type and payload, also for an unknown id; keeps all dirty rows pushable |
| ClientService.Service.Get | internal/client/service/service.go:104-123 | The stored item with its payload decrypted |
| ClientService.EditReadsBack | internal/client/service/service.go:61-159 | What was added or updated reads back in every field: payload, trimmed type, parsed metadata, both times, alive and dirty; no other row changes |
| ClientService.NewIDNotBlank | internal/client/service/service.go:239-245 | A new id takes sixteen random bytes, has 32 characters and is never blank |
| ClientService.NewIDsDiffer | internal/client/service/service.go:239-245 | Two new ids are equal exactly when their sixteen random bytes are |
| ClientService.HexDigits | internal/client/service/service.go:244 | The digits of an id give back the bytes it was made of |
| ClientService.BatchPushable | internal/service/sync.go:47-52 | A batch passes the server's checks exactly when all dirty rows do |
| TerminalUi.Terminal.DoSync | internal/client/ui/ui.go:238-288 | Success is the sequential outcome and leaves the device with every row of its owner newer than the last sync, from the zero time on the first; it is assured when every call goes through and all dirty rows are pushable; at every failure the server table, the rows and the cursor are exactly those of the point it stopped at, and no edit is lost |
| TerminalUi.Terminal.PushAndClean | internal/client/ui/ui.go:254-267 | Push, then clean, or neither when nothing is dirty: on any error, a lost answer included, the rows are as before |
| TerminalUi.Terminal.PullApplySave | internal/client/ui/ui.go:269-285 | Pull from the cursor, apply, save: which of them fails and the rows at every stop |
| TerminalUi.Terminal.ShowAddSecret | internal/client/ui/ui.go:141-193 | Stores the form's secret under a new random id and changes no other row; all dirty rows stay pushable exactly if the type is not blank |
| Meta.ParseMeta | internal/client/store/meta.go:6-31 | The parser's loop computes `Parse`, and its result is normal |
| Meta.ParseJoin | internal/client/store/meta.go:12-27 | Parsing two inputs joined by a comma overrides the first's map by the second's |
| Meta.ParseTyped | internal/client/store/meta.go:13-27 | A pair parses to its key and value whatever blanks stand around key and value; a key alone to an empty value |
| Meta.ParseNoKey | internal/client/store/meta.go:14-22 | Blanks, and a value without a key, parse to nothing; with the two rows above this settles every input |
| Meta.ParseImage | internal/client/store/meta.go:13-27 | The maps a parse can return are exactly those with non-empty trimmed keys free of `=` and `,` and trimmed values free of `,` |
| Text.TrimExample | internal/client/store/meta.go:18 | Trimming takes every white-space character of Unicode off both ends and nothing inside |
| Meta.RenderRoundTrip | internal/client/store/meta.go:6-31 | Printing a map in any order of its keys and parsing gives it back exactly when it is such a map |
| Crypto.Crypto.DecryptEncrypt | internal/client/crypto/crypto.go:51-97 | Decryption undoes encryption for every nonce; the ciphertext starts with the random nonce |
| Crypto.Crypto.DecryptExactly | internal/client/crypto/crypto.go:76-97 | Decrypted is exactly what the cipher opens under the nonce in front; what is too short for a nonce is refused |
| Payloads.EncryptItems | internal/client/api/client.go:252-264 | Encrypts in place up to the first failure, changing the payload alone and leaving tombstones and empty payloads as they are |
| Payloads.DecryptItems | internal/client/api/client.go:227-238 | Decrypts in place up to the first failure, changing the payload alone and leaving tombstones and empty payloads as they are |
| Payloads.OpenAllSealAll | internal/client/api/client.go:227-264 | The pull loop run on what the push loop left gives every item back, in order |

## Left out

- HTTP handlers, router, JSON, tokens and size limits: a push and a pull are direct calls that may fail.
- The copies between the local, wire and server item types (`ToSyncItems`, `FromSyncItems`, the handlers' loops): all have the same fields, so one type `Item` stands for them and `Secret` adds the owner.
- SQL construction, row scanning, NULL handling, migrations and retries: each statement is one atomic step on a map; a database failure happens before the statement has an effect.
- Nil and empty payloads, and nil and empty metadata, are the same value in the model.
- Times before the zero time or after the year 9999, and PostgreSQL's rounding to microseconds; formatting and parsing a date-time of section 5.6 of RFC 3339 is truncation to the second.
- AES-GCM and scrypt internals and the salt file: the cipher is a pair of functions of which only "open inverts seal" is assumed, and only where named.
- Registration, login, tokens, the in-memory user store, configuration and the command line.
- The terminal's widgets and its list and get dialogs; `List` of the local store, which only reads.
- The encrypting variants `SyncPush` and `SyncPull` as a whole: neither sync uses them; their payload loops are in Payloads.dfy.
- Two syncs of one device at once: the state machine gives a device one sync at a time, while the terminal starts a goroutine per click (internal/client/ui/ui.go:49, 238-240) and two processes can share a data directory.
- Server-side `Update` and `Delete` as steps of the state machine: the client never calls them during a sync, and they set times by the server's clock; SecretStore.dfy covers their runs.
- Strings are sequences of Unicode scalar values; invalid UTF-8 is not modelled.
- ClientService.Service.Sync: says what the server holds when it returns; what a server goes on applying of a push the client has given up is left to the state machine's late deliveries.
- ClientService.Service.PushAndPull: the same.
- TerminalUi.Terminal.DoSync: the same.
- TerminalUi.Terminal.PushAndClean: the same.
- Edits during one call of a client's method: the methods run alone on their tables; the state machine has the edits in between.
- ProtocolConvergence.Convergence: says what holds once both rounds have happened, not that a device with a broken network ever completes them.
