# Compact Phone: the stack-neutral core, modelled and proved

Compact Phone is a SIP softphone whose core is a set of state machines driven by queued events.
This project models that core in Dafny and proves what its design relies on. Where the source
updates objects in place, the model has a class with the same fields, and each of its methods is
proved to move the state exactly as a specification function does; the theorems are about runs of
those functions. Where the source is text processing with loops, the loops are kept and proved
against a reference that is defined without them.

| directory | what it models |
|---|---|
| `calls/` | `CallManager`, `TransferTracker` and the in-memory backend `FakeSipBackend` as one transition system: user commands, the remote side, FIFO delivery, three kinds of timers |
| `accounts/` | `AccountsManager`: table rows, entries, keychain, password cache, backend bindings and registration states, with arbitrary failures |
| `adapter/` | `EventDispatch`, `PjsipBackend::stop` against worker callbacks, `setMuted` against media callbacks, in small steps |
| `views/` | `CallsModel::refresh` and the snapshot it is fed with |
| `sessions/` | `CallSessionTracker` and the part of `CallsController` that feeds it, alone and together with the call layer |
| `versions/` | `UpdateChecker`: version order, feed, announcement |
| `text/` | log redaction, CSV rows, vCard lines, dial targets |

`dafny verify dfyconfig.toml` checks everything.

## How to read it

* In each directory the `...Spec` file holds the functions and the steps, the class file the
  objects, and the `...Invariant`, `...Proofs` and `...Theorems` files what holds of them.
* The call layer keeps its own records while delivery lags behind the backend. The invariant
  (`CallViews.Inv`) says, for one call id at a time, what the backend, the record, the linger timer,
  the queue, the published states and the release log may look like together. Every step is shown to
  keep it, and the theorems are read off it.
* Files named `...Laws`, `...Outcomes`, `...Content`, `...Fields` and `...Text` say what the operations
  do without their own words: on the fields before and after a step, over runs, or against texts as
  they are written.
* The first rows of the table below are the main results; the methods that tie the objects and the
  loops to their specifications follow.
* Runs are sequences of steps, each enabled when it is taken. "After every run" means after every
  finite run from the initial state, of any length, with any arguments.

## Assumptions

* **Call layer.** The backend is running and its listener is wired and stays so. Call ids are minted
  upwards without wrapping around. A slot that issues a command while a signal is emitted becomes a
  command that follows. Timers fire in any order. Which held call takes over depends on the order of
  a hash map, so any may (`pick`). The backend posts "confirmed" and the media notification that goes
  with it in one closure; the call layer ignores media notifications, so one event stands for both.
  What the account layer answers is arbitrary and may change at any step.
* **Accounts.** Every storage, keychain and backend call may fail; the outcomes are arguments. A
  statement succeeds or leaves the table alone; a COMMIT ends its transaction (the case that it does
  not is `OpenTransactionExact`). New keychain references and row ids are fresh, row ids are
  positive. Backend ids are minted upwards.
* **Adapter.** The source contradicts itself about destruction: `EventDispatch.h:21-27` says that the
  destructors serialize against callbacks in flight, `PjsipBackend.cpp:1348-1357` that the destructor
  of a call does not synchronize with the tail of its callback, which is what the grace window is
  for. The model follows the latter: destroying an account or a buddy waits until no callback of that
  very object is in flight, destroying a call only until no callback of it can still post. What the
  stronger reading would give is `CleanStopUnderContract`. The PJSUA lock is held for the whole of a media
  callback and taken by every transmit call (`PjsipBackend.cpp:1058-1067`). Worker threads are
  arbitrary in number and may be interrupted between any two steps shown. Creating, removing and
  watching are main-thread steps; the watches of an account are removed one by one before it.
* **Sessions.** The controller notes its dials and the incoming calls on the spot, and handles call
  events in the order in which they are published, any time later. What it notes of a call is what
  the snapshot says then; `CallHistory` runs it together with the call layer. Theorems about times
  take timestamps to be positive.
* **Text.** Strings are sequences of characters, digits are ASCII digits, `isspace` and `tolower` are
  those of the C locale.

## Findings

* `setDefault` returns after a failing COMMIT without a ROLLBACK. If the database keeps the
  transaction open, the table this connection reads has already changed while memory has not:
  `OpenTransactionExact` says exactly when that shows, `OpenTransactionWitness` is a run into it.
* `setListener` drops the grace timers of calls that are already parked, so those calls live on until
  the next `stop()`: `GraceTimerExact`, and the run of `ListenerChangeStrandsParkedCall`.
* The grace window makes it unlikely, not impossible, that a call is destroyed under the tail of its
  own callback, and `stop()` has no such window: `LeftBehindExact` says exactly when,
  `TimerCanLeaveCallback` and `StopCanLeaveCallback` are runs.
* The deferred branch of `setMuted` and the roll-back after a failing transmit can leave the capture
  link different from the flag: `DeferExact` and `RollBackExact` give the conditions, `DeferCanFail`
  and `RollBackCanFail` a run each.
* `normalizeSipTarget` is not idempotent on every target. It is not exactly if, after trimming, a
  blank stands before what is dropped at the end of the target (`sip:a ?x`), or the domain is
  appended to a parameter without a value (`a;user`) or is not clean itself: `NormalizeExact`,
  `BlankBeforeHeaders`, `DomainInParameterName`.
* `redactCredentials` keeps a value word for word exactly if the text in front of it stops inside a
  response value, or, for a cnonce, inside a cnonce value of what the first pass leaves of that text:
  a key inside such a value is taken for part of it. `response="cnonce="abc"` and
  `response="response="abc"` both end in `"abc"`. A cnonce that is masked can still change what
  becomes of the text behind it if it ends like `response=`: `ResponseExact`, `CnonceExact`,
  `CnonceInResponse`, `ResponseInResponse`.


## Model

| member | source | states |
|---|---|---|
| `CallTheorems.LifecycleConservation` | src/core/CallManager.cpp:46-139 | after every run: the backend has a call exactly if it has a record or awaits its announcement (never both); a lingering call has neither; every minted call the backend no longer has was released exactly once, every other never; each lingering call has exactly one linger timer |
| `CallTheorems.PhasesMoveForward` | src/core/CallManager.cpp:58-139 | announced, live, lingering, gone: whatever else happens, no call ever moves back |
| `CallTheorems.FlagAgreement` | src/core/CallManager.cpp:174-252 | after every run, for each record: mute and recording flags are the backend's; the held flag is the backend's until its call ends, although flags are set without looking at the result and unholds fail; nothing is held before it is confirmed; the active id is -1 or a live record |
| `CallTheorems.PromotionOnDisconnect` | src/core/CallManager.cpp:121-131 | when the active call ends, a held confirmed call takes over and is no longer marked held; without one nothing is active; when another call ends, the active one stays |
| `CallTheorems.MonotoneObservation` | src/core/CallManager.cpp:79-104 | observers of a call see at most one Calling, then at most one Confirmed, then at most one Disconnected; once its record is gone the history is complete |
| `CallTheorems.InternalDecreases` | src/core/CallManager.cpp:106-139 | every delivery and every timer strictly lowers a weighted measure, although a NOTIFY spawns hangups and a disconnect an unhold chain and a linger timer |
| `CallTheorems.Quiescence` | src/core/CallManager.cpp:219-252 | a run of deliveries and timers alone is never longer than the measure of the reachable state it starts from |
| `CallTheorems.SettledMeansNoStep` | src/core/CallManager.cpp:288-311 | the event loop has something to do exactly if an event is queued or a timer armed: it is never stuck |
| `CallTheorems.SettlesFrom` | src/core/CallManager.cpp:106-139 | from every reachable state the event loop can work off everything that is pending |
| `CallTheorems.SettledAgreement` | src/core/CallManager.cpp:46-139 | in a settled state nothing leaks and nothing lags: no call lingers, the records are the backend's calls, with the backend's states and flags |
| `CallTheorems.TransferOutcome` | src/core/CallManager.cpp:401-430 | a transfer NOTIFY ends exactly the recorded legs of the pending entry, only when it is final and 2xx; a final one consumes the entry, a provisional one changes nothing |
| `CallTheorems.PendingOnlyByRefer` | src/core/CallManager.cpp:367-393 | a transfer becomes pending only when the backend accepts a REFER |
| `CallTheorems.TransfersConsumedAtMostOnce` | src/core/TransferTracker.h:27-53 | over any run, final NOTIFYs consume no more transfers of a call than REFERs were accepted for it |
| `CallTheorems.PendingTransfersAreLive` | src/core/TransferTracker.h:19-53 | pending transfers are keyed by live records and list their own call first |
| `CallInvariant.NextKeeps` | src/core/CallManager.cpp:37-452 | every command, remote step, delivery and timer keeps the coupling between manager, backend, queue and timers, and moves every call forward only |
| `StepLaws.AutoHold` | src/core/CallManager.cpp:174-199 | whatever makes another call the active one, the call that was talking and still has a record is held, in the record and, while it is up, in the backend |
| `StepLaws.HeldExact` | src/core/CallManager.cpp:174-252 | a held mark rises exactly for the talking call that stops being active, or by hold on this very confirmed call; it falls exactly for the call that becomes active, or when resuming it was asked for |
| `StepLaws.ActiveExact` | src/core/CallManager.cpp:121-131 | a call is active after being dialled, accepted or resumed; when the active call ends, a held confirmed call takes over if there is one; otherwise nothing changes |
| `StepLaws.CallExact` | src/core/CallManager.cpp:145-172 | a backend call becomes confirmed exactly by accepting it while it rings or by the remote answer, disconnected exactly by hangup, decline, forward, remote hangup or a successful transfer that lists it; mute and recording follow exactly their commands; account, address and direction never change |
| `StepLaws.PresenceExact` | src/core/CallManager.cpp:37-83 | calls and records come and go by exactly these steps, and a new one has the account, address, name and direction it was made with |
| `CallCells.StepOnCell` | src/core/CallManager.cpp:37-452 | the whole transition system projected to one call and to the active id, as a transition of that call alone |
| `CommandOutcomes.HangupEndsCall` | src/core/CallManager.cpp:436-440 | whatever follows, a call that is hung up is over, and when nothing is left to do there is no trace of it |
| `CommandOutcomes.AcceptConfirmsCall` | src/core/CallManager.cpp:145-151 | a ringing call that is accepted is active and up at once; whatever follows, it stays up or ends, and when nothing is left to do a record it still has says confirmed |
| `CommandOutcomes.FlagsAreTheLast` | src/core/CallManager.cpp:317-332 | after every run the mute and recording flags of a call, in record and backend, are those of the last command it took |
| `MergeLaws.MergeEndsInBridge` | src/core/CallManager.cpp:264-311 | two confirmed calls that are merged are bridged with each other, or will be tried again, or one is over, whatever happens in between; with no timer left, bridged or over |
| `MergeLaws.BridgesWereMerged` | src/core/CallManager.cpp:264-311 | over any run no two calls are bridged, or about to be, that were not merged |
| `MergeLaws.MergeStarts` | src/core/CallManager.cpp:264-286 | two confirmed records are bridged at once if the second is not held and both are up, and tried later otherwise |
| `TransferLaws.PendingExact` | src/core/TransferTracker.h:19-53 | an accepted REFER makes pending exactly its own calls: the call, and in an attended transfer the call it goes to; every other step keeps the entry or, under exact conditions, removes it |
| `TransferLaws.PendingIsLastRefer` | src/core/TransferTracker.h:19-53 | after every run what is pending for a call are the calls of its last accepted REFER |
| `TransferLaws.SuccessEndsTheLegs` | src/core/CallManager.cpp:401-430 | over runs: when success is delivered while the transfer is pending, each call of its last accepted REFER that still has a record is disconnected in the backend, and all others are as they were |
| `PostLaws.CommandExact` | src/core/sipbackend/fake/FakeSipBackend.cpp:221-403 | each command sends exactly one command line and brings exactly one event with the right code, or is refused and changes neither |
| `PostLaws.TimersExact` | src/core/CallManager.cpp:219-311 | after every step the running timers are those before, less the fired one, plus exactly the stated retries with their budgets and the linger timer of an ended call |
| `PostLaws.MediaIsTalk` | src/core/sipbackend/fake/FakeSipBackend.cpp:221-325 | after every run media flows in exactly the calls that are up and not on hold |
| `AccountsTheorems.NoStaleBinding` | src/core/AccountsManager.cpp:64-70 | after every run with arbitrary failures: an entry is marked registered exactly if it is bound, and the backend works with its present fields and its present keychain password |
| `AccountsTheorems.BindingsAreExact` | src/core/AccountsManager.cpp:465-560 | only known accounts are bound, no two to one backend account; the backend has no account nobody is bound to; the password cache is part of the keychain |
| `AccountsTheorems.RegistrationIsFold` | src/core/AccountsManager.cpp:566-591 | registration state and last error are the event map folded over exactly the events delivered to the present binding; unbound reads "unregistered" without error |
| `AccountsTheorems.FoldMeaning` | src/core/AccountsManager.cpp:32-58 | registered means no error; failed means a code that is neither 0 nor 2xx; an error shown is that of the last failure since the last success |
| `AccountsTheorems.StatusMeaning` | src/core/AccountsManager.cpp:684-694 | the same for what stateOf and lastRegErrorOf answer after any run |
| `AccountsTheorems.StaleEventsChangeNothing` | src/core/AccountsManager.cpp:570-576 | a queued event of a binding that is gone only leaves the queue |
| `AccountsTheorems.ReregisterRenews` | src/core/AccountsManager.cpp:657-678 | re-registering gives the listed accounts new backend accounts, if any, and leaves all other bindings alone |
| `AccountsTheorems.ReregisterMakesStale` | src/core/AccountsManager.cpp:657-678 | after re-registering the replaced backend account is gone, so events still queued for it are stale |
| `AccountsTheorems.StorageAgrees` | src/core/AccountsManager.cpp:163-252 | table and memory hold the same accounts, up to the label fallback, with at most one default |
| `AccountsTheorems.ReloadReturnsAccounts` | src/core/AccountsManager.cpp:106-161 | a restart brings back every account the process had in memory |
| `AccountsTheorems.OpenTransactionExact` | src/core/AccountsManager.cpp:393 | a COMMIT that fails and leaves the transaction open keeps table and memory in agreement exactly if the chosen account already was the only default |
| `AccountsTheorems.OpenTransactionWitness` | src/core/AccountsManager.cpp:367-399 | a run into it: any account that is not the default is added to an empty table, and the COMMIT that should make it the default fails |
| `AccountsLaws.BoundExact` | src/core/AccountsManager.cpp:465-560 | after every operation under every combination of failures: exactly these accounts are bound, said for each operation by running, enabled, password, refusal and previous binding; a binding keeps its backend account unless it is renewed, a new one gets the next |
| `AccountsLaws.RegisterExact` | src/core/AccountsManager.cpp:465-532 | registering binds an unbound account exactly if it is known, its password is cached or readable, the backend runs and does not refuse it; it gets the next backend account and no other binding changes |
| `AccountsContent.SettingsAreTheAccount` | src/core/AccountsManager.cpp:493-522 | after every run the backend has, field by field, the present account and its keychain password; STUN is used exactly if a server is set |
| `AccountsContent.LastAnswerDecides` | src/core/AccountsManager.cpp:32-58 | registered exactly after an active 2xx, registering exactly after code 0, unregistered exactly after an inactive 2xx, failed exactly after anything else |
| `AccountsContent.ErrorExact` | src/core/AccountsManager.cpp:32-58 | an error is shown exactly if it is that of the last failure and no success came after it |
| `AccountsContent.AnswerShows` | src/core/AccountsManager.cpp:566-591 | over runs: what a delivered answer makes of the state and error of its owner, and that it changes nobody else |
| `AccountsContent.AccountExact` | src/core/AccountsManager.cpp:163-450 | after every operation find answers exactly this for every account: the new account, the new fields with default mark and reference kept, the new default, or what it answered before |
| `AccountsContent.KeychainExact` | src/core/AccountsManager.cpp:163-450 | after every operation the keychain has exactly this: a new or changed password under the own reference, nothing of a removed account if erasing works, everything else as it was |
| `AccountsInvariant.NextKeeps` | src/core/AccountsManager.cpp:163-591 | every operation keeps all copies consistent, whatever storage, keychain and backend refuse |
| `StopProofs.CleanStop` | src/core/sipbackend/pjsip/PjsipBackend.cpp:354-388 | for every interleaving: when stop() returns no call, parked call, account or watch is left, no callback can post any more (what still runs is the tail of a call callback at most), and everything queued is stale |
| `CallbackTails.LeftBehindExact` | src/core/sipbackend/pjsip/PjsipBackend.cpp:1348-1362 | over every run: a callback runs on a destroyed object exactly if, since it was entered, the object was a call and its dial failed, its grace timer fired or stop() destroyed it; and then only its tail is left |
| `CallbackTails.ParkingIsSafe` | src/core/sipbackend/pjsip/PjsipBackend.cpp:1348-1358 | releasing and parking a call leaves no callback behind |
| `CallbackTails.CleanStopUnderContract` | src/core/sipbackend/EventDispatch.h:21-27 | if destruction does wait for whole callbacks, no callback ever runs on a destroyed object, and none is in flight when stop() returns |
| `CallbackTails.TimerCanLeaveCallback` | src/core/sipbackend/pjsip/PjsipBackend.cpp:1359-1361 | a run in which the grace timer fires before the callback has returned |
| `CallbackTails.StopCanLeaveCallback` | src/core/sipbackend/pjsip/PjsipBackend.cpp:354-388 | a run in which stop() destroys a call whose callback has not returned |
| `StopProofs.NothingQueuedOutlivesStop` | src/core/sipbackend/pjsip/PjsipBackend.cpp:385-388 | however the adapter is used afterwards, a closure that runs later was posted later |
| `StopProofs.DeliveredUnderOneEpoch` | src/core/sipbackend/EventDispatch.cpp:22-59 | a closure that ran was posted with no invalidation between reading the epoch and its delivery; one that was dropped had one |
| `StopProofs.OneOwnerEach` | src/core/sipbackend/pjsip/PjsipBackend.cpp:591-630 | a wrapped call has at most one owner: the map, the local of stop(), the parking place, the main thread or one worker |
| `StopProofs.GraceTimerExact` | src/core/sipbackend/pjsip/PjsipBackend.cpp:1333-1362 | between stops a released call has a timer that will destroy it exactly if nothing was invalidated since it was parked |
| `StopProofs.Keeps` | src/core/sipbackend/pjsip/PjsipBackend.cpp:354-388 | every step of either thread keeps the invariant behind these |
| `StopWitness.StragglerExists` | src/core/sipbackend/pjsip/PjsipBackend.cpp:378-384 | a run in which the second sweep finds a call: without it a call would outlive stop() |
| `StopWitness.ListenerChangeStrandsParkedCall` | src/core/sipbackend/pjsip/PjsipBackend.cpp:337-344 | a run in which a change of listener drops the grace timer of a parked call: the timer fires and the call stays parked |
| `DispatchSpec.EpochGrows` | src/core/sipbackend/EventDispatch.h:62-65 | two readings of the epoch differ exactly if an invalidation lies between them |
| `DispatchSpec.InvalidateKeeps` | src/core/sipbackend/EventDispatch.h:62-65 | an invalidation makes everything queued or delayed stale |
| `MuteRace.QuietAgreement` | src/core/sipbackend/pjsip/PjsipBackend.cpp:1058-1084 | for every interleaving of setMuted on active audio with media callbacks: when neither is under way and media is active, the capture link is up exactly if the call is not muted |
| `MuteRace.InvIsNecessary` | src/core/sipbackend/pjsip/PjsipBackend.cpp:221-271 | the invariant is exactly what makes the call agree once the callback under way is through |
| `MuteRace.DeferExact` | src/core/sipbackend/pjsip/PjsipBackend.cpp:1049-1056 | the deferred branch keeps the agreement exactly if it changes nothing, no media is active by then, or a callback is still to read the flag |
| `MuteRace.DeferCanFail` | src/core/sipbackend/pjsip/PjsipBackend.cpp:1049-1056 | a run from a fresh call in which it does not |
| `MuteRace.RollBackCanFail` | src/core/sipbackend/pjsip/PjsipBackend.cpp:1078-1082 | a run from a fresh call in which a roll-back, and no deferred branch, leaves link and flag apart |
| `MuteRace.RollBackExact` | src/core/sipbackend/pjsip/PjsipBackend.cpp:1078-1082 | a roll-back keeps the agreement exactly if it changes nothing, no media is active, or no callback has acted on the flag since it was recorded |
| `MuteRace.RecordingLateFails` | src/core/sipbackend/pjsip/PjsipBackend.cpp:1058-1068 | transmitting first and recording afterwards would lose the race whenever the value changes |
| `CallsModelProofs.ViewStaysInStep` | src/models/CallsModel.cpp:58-106 | for any old rows and any snapshot: a view that only follows the signals takes each at a valid row and holds after each what the model holds at that moment |
| `CallsModelProofs.RefreshIsReset` | src/models/CallsModel.cpp:58-106 | the rows end as exactly the entries of the snapshot, each once; survivors keep their order, newcomers follow in the order of the snapshot |
| `CallsModelProofs.RefreshIsQuietWhenCurrent` | src/models/CallsModel.cpp:79-105 | a refresh that changes nothing says nothing |
| `CallsModelProofs.RereadChanged` | src/models/CallsModel.cpp:90-103 | re-reading a set of roles gives the new entry exactly if the set has every announced role; nothing is announced exactly if nothing changed |
| `CallsModelProofs.ChangedRolesExact` | src/models/CallsModel.cpp:21-41 | the announced roles are exactly those whose data differ, each once |
| `CallSnapshots.RecordsApartFromLingering` | src/core/CallManager.cpp:522-558 | after every run no call has a record and lingers |
| `CallSnapshots.SnapshotShows` | src/core/CallManager.cpp:522-558 | a snapshot has exactly one entry for each record and each lingering call |
| `CallSnapshots.ModelShowsTheCalls` | src/models/CallsModel.cpp:58-106 | after every run of the call layer a refreshed model shows exactly the live and lingering calls, each once |
| `SnapshotFields.EntriesAreTheCalls` | src/core/CallManager.cpp:522-558 | after every run, field by field, each entry of any snapshot: flags, address, name, account and direction of the record, as the backend has them, and the state last published; an entry of a lingering call says disconnected |
| `SnapshotFields.EntryForEach` | src/core/CallManager.cpp:522-558 | a snapshot has an entry for exactly the recorded and the lingering calls |
| `SnapshotFields.RowsAreTheCalls` | src/models/CallsModel.cpp:21-41 | what a refreshed model answers for each role of a recorded call is what the backend has and what was last published |
| `SnapshotFields.EndKeepsRecord` | src/core/CallManager.cpp:106-119 | a call that ends lingers as it was, but for its state and its status code |
| `CallHistory.OneCallPerTarget` | src/core/CallsController.cpp:267-293 | however dials, calls, commands and the two queues interleave: two records that we dialled never have the same non-empty target |
| `CallHistory.SessionsAreTheLiveCalls` | src/core/CallsController.cpp:182-198 | a call has a session exactly from its beginning until its end is handled, and the session has the call's own account, address, name and direction |
| `CallHistory.OneRowPerCall` | src/core/CallsController.cpp:182-198 | exactly one history row for every call whose end has been handled and whose account and address are known, none for any other; the row names the call's own account, address, name and direction |
| `CallHistory.GuardSeesCalls` | src/core/CallsController.cpp:267-278 | a dial is refused exactly if a call that we dialled to this non-empty target is live |
| `CallHistory.ToldInOrder` | src/core/CallsController.cpp:182-198 | what the controller has been told about a call is a beginning of what was published about it |
| `CallHistory.SnapshotFinds` | src/core/CallManager.cpp:522-558 | what a search of any snapshot finds is the record, or else the lingering copy |
| `CallIdentity.StepFollows` | src/core/CallManager.cpp:37-139 | records come about only by a dial or an adoption and go only with the publication of their end; every signal is one of these or the progress of a recorded call; account, address, name and direction of a record never change, into its lingering copy |
| `CallIdentity.BornUnheardOf` | src/core/CallManager.cpp:58-83 | nothing has ever been published about a call that begins |
| `SessionTheorems.SessionsAreExact` | src/core/CallSessionTracker.cpp:7-101 | a call has a session exactly if something was noted about it since it last ended, and the session says what those notes say: dialled target, first time seen, first time confirmed, latest known details |
| `SessionTheorems.HistoryIsExact` | src/core/CallSessionTracker.cpp:38-75 | the history is exactly one row per ended call whose account and address were known: from its first confirmation, else from when it was first seen, lasting until its end or 0 |
| `SessionTheorems.GuardIsExact` | src/core/CallSessionTracker.h:26-31 | the guard sees a live call to a target exactly if some call that has not ended was last dialled to it |
| `SessionTheorems.NoDuplicateDials` | src/core/CallsController.cpp:267-278 | two live sessions never have the same non-empty target, however often it is dialled |
| `SessionTheorems.OneRowIfLegal` | src/core/CallSessionTracker.cpp:38-75 | at most one row for a call whose noted states are a beginning of what the call layer published |
| `VersionOrder.OrderFlips` | src/core/UpdateChecker.cpp:153-169 | the order is antisymmetric in sign, and versions are equal exactly if their keys are |
| `VersionOrder.OrderTransitive` | src/core/UpdateChecker.cpp:153-169 | the order is transitive, also strictly |
| `VersionOrder.DifferenceDecides` | src/core/UpdateChecker.cpp:157-162 | the first difference after zero padding decides like the comparison without trailing zeros |
| `VersionOrder.NoDifferenceMeansEqual` | src/core/UpdateChecker.cpp:157-162 | without a difference the releases are the same up to trailing zeros |
| `VersionText.VersionRoundTrip` | src/core/UpdateChecker.cpp:128-150 | reading gives back every version as written: release numbers in decimal joined by dots, pre-release behind a dash, build metadata behind a plus; a number above 2147483647 reads as 0 |
| `VersionText.FittingIsExact` | src/core/UpdateChecker.cpp:144-148 | no release number is lost exactly if each is at most 2147483647 |
| `VersionText.NumbersDecide` | src/core/UpdateChecker.cpp:153-162 | of two written versions the first differing release number decides, a missing one being 0, whatever stands behind dash and plus |
| `VersionText.PrereleaseComesFirst` | src/core/UpdateChecker.cpp:163-167 | with the same numbers a pre-release comes before its release |
| `VersionText.RunsDecide` | src/core/UpdateChecker.cpp:99-121 | two pre-releases that differ in one digit run only, leading zeros or not, come in the order of its values below 2^64 |
| `VersionText.CharsDecide` | src/core/UpdateChecker.cpp:99-121 | two that differ in one other character come in the order of that character |
| `VersionText.LongerComesLater` | src/core/UpdateChecker.cpp:99-121 | a pre-release comes before any continuation of it that does not lengthen its last digit run |
| `VersionText.LaterReleaseIsNews` | src/core/UpdateChecker.cpp:200-231 | a feed with an accepted entry of a later written release has news |
| `VersionText.BlanksDoNotCount` | src/core/UpdateChecker.cpp:144-148 | blanks around a release number do not count |
| `VersionText.OtherTextIsZero` | src/core/UpdateChecker.cpp:144-148 | a release number with any other character counts as 0 |
| `VersionText.NewestIsTrusted` | src/core/UpdateChecker.cpp:171-198 | what is announced is the version and address of a trusted entry, the short version before the long one |
| `VersionText.NothingIsNewer` | src/core/UpdateChecker.cpp:171-198 | no trusted entry with a version is newer than the one that is announced |
| `SipLogTheorems.RedactionIsComplete` | src/core/sipbackend/pjsip/SipLog.cpp:19-34 | in the redacted line every `response="` and `cnonce="` with a later quote is followed by the mask and a quote |
| `SipLogTheorems.PassKeepsClosed` | src/core/sipbackend/pjsip/SipLog.cpp:21-32 | the pass for one key does not undo the pass for the other, even where their texts overlap |
| `SipLogTheorems.RedactionIsIdempotent` | src/core/sipbackend/pjsip/SipLog.cpp:19-34 | redacting twice is redacting once |
| `SipLogTheorems.HarmlessLinesUnchanged` | src/core/sipbackend/pjsip/SipLog.cpp:19-34 | a line without the keys is left alone |
| `SipLogSecrets.ResponseExact` | src/core/sipbackend/pjsip/SipLog.cpp:19-34 | for every head, tail and two different response values: the redacted lines are equal exactly if the head does not stop inside a response value |
| `SipLogSecrets.CnonceExact` | src/core/sipbackend/pjsip/SipLog.cpp:19-34 | the same for two cnonce values: equal exactly if the head stops neither inside a response value nor, as the first pass leaves it, inside a cnonce value, and both values end like a response key or neither does (or nothing behind depends on it) |
| `SipLogSecrets.SecretExact` | src/core/sipbackend/pjsip/SipLog.cpp:19-34 | for either key, with values that do not end like a response key: equal exactly if the value is not exposed |
| `SipLogSecrets.ExposedValueShows` | src/core/sipbackend/pjsip/SipLog.cpp:19-34 | an exposed value stands word for word in the redacted line, behind a front that does not depend on it |
| `SipLogSecrets.HiddenValueGone` | src/core/sipbackend/pjsip/SipLog.cpp:19-34 | of any other value the redacted line shows the mask; a hidden response leaves no trace, a hidden cnonce at most what it makes of the text behind |
| `SipLogSecrets.CnonceInResponse` | src/core/sipbackend/pjsip/SipLog.cpp:19-34 | `response="cnonce="abc"` is redacted to `response="<redacted>"abc"` |
| `SipLogSecrets.ResponseInResponse` | src/core/sipbackend/pjsip/SipLog.cpp:19-34 | `response="response="abc"` is redacted to `response="<redacted>"abc"` |
| `SipLogSecrets.PassOwnKey` | src/core/sipbackend/pjsip/SipLog.cpp:23-31 | one pass over a value of its own key outside any such value: the head is passed, the value masked, the tail passed |
| `SipLogSecrets.PassOtherKey` | src/core/sipbackend/pjsip/SipLog.cpp:23-31 | one pass over a value of the other key: head and tail are passed on their own, unless the value ends like the key |
| `ContactImporter.RowRoundTrip` | src/core/ContactImporter.cpp:116-147 | reading gives back every row written after section 2 of RFC 4180 on one line, however the writer chose between bare and quoted cells |
| `ContactImporter.BareCellExact` | src/core/ContactImporter.cpp:116-147 | an unquoted cell comes back as itself exactly if it has no comma and does not start with a quote |
| `ContactImporter.UnfoldRoundTrip` | src/core/ContactImporter.cpp:10-25 | unfolding undoes any folding after section 3.2 of RFC 6350: any cut points, any blanks, any mix of line breaks that stay apart |
| `ContactImporter.RenderRoundTripExact` | src/core/ContactImporter.cpp:13 | lines written with mixed breaks are read back exactly if no CR meets an LF across an empty line |
| `ContactImporter.UniformBreaks` | src/core/ContactImporter.cpp:13 | breaks of one kind never clash |
| `SipUriTheorems.SanitizedIsWellFormed` | src/core/SipUri.cpp:54-83 | no control characters, no question mark, only non-empty transport and user parameters |
| `SipUriTheorems.SanitizeFixpoints` | src/core/SipUri.cpp:54-83 | exactly the targets of that form are left alone |
| `SipUriTheorems.SanitizeIsIdempotent` | src/core/SipUri.cpp:54-83 | sanitising twice is sanitising once |
| `SipUriTheorems.NormalizeIsIdempotent` | src/core/SipUri.cpp:87-102 | normalising is idempotent on blank-free targets that carry a scheme |
| `SipUriStability.NormalizeExact` | src/core/SipUri.cpp:87-102 | for every target, domain and transport: normalising twice is normalising once exactly if target and domain are not unstable together; that is read off the trimmed target: a blank before what is dropped at the end, or, where the domain is appended, a last kept parameter without a value or a domain that is not clean |
| `SipUriStability.NormalizeSchemeExact` | src/core/SipUri.cpp:91-93 | for a target that carries a scheme: exactly if no blank stands before what is dropped |
| `SipUriStability.CleanMeans` | src/core/SipUri.cpp:54-83 | whether the sanitised target is empty, ends in a blank, ends in a parameter without a value, names a host or carries a scheme is read off the target |
| `SipUriStability.BlankBeforeHeaders` | src/core/SipUri.cpp:87-102 | `sip:a ?x` becomes `sip:a ` and then `sip:a` |
| `SipUriStability.DomainSwallowed` | src/core/SipUri.cpp:94-101 | a parameter without a value takes the domain into its name, and the second reading drops both |
| `SipUriStability.DomainInParameterName` | src/core/SipUri.cpp:94-101 | `a;user` in the domain `d` becomes `sip:a;user@d` and then `sip:a` |
| `SipUriLaws.SanitizeKeepsExactly` | src/core/SipUri.cpp:54-83 | of any address, parameters and headers as written: the address stays, the parameters named transport or user in any case stay in order, everything else goes |
| `SipUriLaws.AllowedExact` | src/core/SipUri.cpp:72-79 | a parameter is kept exactly if its name, up to the first equals sign, spells transport or user in any case |
| `SipUriLaws.ControlsDoNotCount` | src/core/SipUri.cpp:56-58 | a control character anywhere makes no difference |
| `SipUriLaws.WhatIsAdded` | src/core/SipUri.cpp:87-102 | what carries a scheme is left alone; anything else gets the scheme of the transport, and the domain exactly if it names no host and there is one |
| `SipUriLaws.BlanksAround` | src/core/SipUri.cpp:87-91 | blanks around a target make no difference |
| `SipUriLaws.SchemeExact` | src/core/SipUri.cpp:91-93 | a scheme is sip or sips with its colon at the start, in any case |
| `CallSnapshots.Snapshot` | src/core/CallManager.cpp:522-558 | the records in some order, then the lingering calls in some order |
| `UpdateChecking.NaturalCompare` | src/core/UpdateChecker.cpp:99-121 | the two index loops compare the suffixes lexicographically, digit runs as one number each |
| `UpdateChecking.SkipDigits` | src/core/UpdateChecker.cpp:104-106 | the end of the digit run |
| `UpdateChecking.ParseVersion` | src/core/UpdateChecker.cpp:128-150 | build metadata dropped, pre-release split off, what is no number counts as 0 |
| `UpdateChecking.CompareReleases` | src/core/UpdateChecker.cpp:157-162 | as comparing without trailing zeros |
| `UpdateChecking.CompareVersions` | src/core/UpdateChecker.cpp:153-169 | exactly the reference order on keys |
| `UpdateChecking.ParseAppcast` | src/core/UpdateChecker.cpp:171-198 | the first of the newest accepted entries, nothing exactly if no entry is accepted |
| `UpdateChecking.UpdateChecker.OnReplyFinished` | src/core/UpdateChecker.cpp:200-231 | an update is announced exactly if some accepted entry is strictly newer than the running version, and then it is a newest one |
| `SipLog.RedactKey` | src/core/sipbackend/pjsip/SipLog.cpp:23-31 | the loop over the growing buffer ends and computes the reference |
| `SipLog.FindKey` | src/core/sipbackend/pjsip/SipLog.cpp:25 | the first occurrence at or behind a position |
| `SipLog.RedactCredentials` | src/core/sipbackend/pjsip/SipLog.cpp:19-34 | both passes in order |
| `ContactImporter.SplitCsvRow` | src/core/ContactImporter.cpp:116-147 | the loop computes the cells of the reference reader |
| `ContactImporter.SplitText` | src/core/ContactImporter.cpp:13 | the lines between the breaks, CR LF being one break |
| `ContactImporter.UnfoldLines` | src/core/ContactImporter.cpp:10-25 | the loop computes the reference unfolding |
| `SipUri.SanitizeTarget` | src/core/SipUri.cpp:54-83 | the loop computes the reference |
| `SipUri.RemoveControls` | src/core/SipUri.cpp:56-58 | exactly the control characters go |
| `SipUri.KeepAllowed` | src/core/SipUri.cpp:65-81 | the allowed parameters follow the address, in order |
| `SipUri.NormalizeSipTarget` | src/core/SipUri.cpp:87-102 | computes the reference |
| `CallManagement.TransferTracker.Record` | src/core/TransferTracker.h:19-22 | the entry replaces an older one, others stay |
| `CallManagement.TransferTracker.Take` | src/core/TransferTracker.h:27-34 | returns what was recorded and forgets it; nothing for an unknown call |
| `CallManagement.TransferTracker.TakeLegsToHangup` | src/core/TransferTracker.h:44-51 | the recorded legs for a final 2xx and nothing otherwise; a final NOTIFY consumes the entry |
| `CallManagement.TransferTracker.Drop` | src/core/TransferTracker.h:53 | the entry is gone, others stay |
| `CallManagement.CallManager.constructor` | src/core/CallManager.cpp:18-25 | starts as the initial system |
| `CallManagement.CallManager.NotifyStateChange` | src/core/CallManager.cpp:564-570 | publishes one state |
| `CallManagement.CallManager.HoldPrevious` | src/core/CallManager.cpp:181-190 | moves the whole system as the auto-hold of the specification: only a confirmed call in talking state is held |
| `CallManagement.CallManager.SetActiveCall` | src/core/CallManager.cpp:174-199 | whole new state: previous call auto-held, new one unheld |
| `CallManagement.CallManager.RequestUnhold` | src/core/CallManager.cpp:219-252 | whole new state and answer of one unhold attempt: accepted, deferred with one retry less, or refused |
| `CallManagement.CallManager.WireBridge` | src/core/CallManager.cpp:288-311 | whole new state and answer of one bridge attempt with its retry |
| `CallManagement.CallManager.FindPromotable` | src/core/CallManager.cpp:124-130 | finds a held confirmed call exactly if there is one |
| `CallManagement.CallManager.HandleDisconnected` | src/core/CallManager.cpp:106-134 | whole new state after a disconnect, with any held call promoted |
| `CallManagement.CallManager.EraseLingering` | src/core/CallManager.cpp:136-139 | forgets exactly this lingering call |
| `CallManagement.CallManager.OnCallState` | src/core/CallManager.cpp:85-104 | whole new state; an unknown call changes nothing |
| `CallManagement.CallManager.OnIncomingCall` | src/core/CallManager.cpp:58-83 | whole new state; for an unknown account the call is declined with 480 and released |
| `CallManagement.CallManager.HangupTransferLegs` | src/core/CallManager.cpp:421-430 | hangs up the legs that still have a record, in order |
| `CallManagement.CallManager.OnTransferStatus` | src/core/CallManager.cpp:401-419 | whole new state after a transfer NOTIFY |
| `CallManagement.CallManager.OnUnholdRetry` | src/core/CallManager.cpp:229-231 | a fired unhold retry is the next attempt with the remaining budget |
| `CallManagement.CallManager.OnBridgeRetry` | src/core/CallManager.cpp:306-309 | a fired bridge retry is the next attempt with the remaining budget |
| `CallManagement.CallManager.OnLingerExpiry` | src/core/CallManager.cpp:133 | a fired linger timer forgets its call |
| `CallManagement.CallManager.MakeCall` | src/core/CallManager.cpp:37-56 | whole new state; an id exactly if the account is registered and the backend accepts |
| `CallManagement.CallManager.Accept` | src/core/CallManager.cpp:145-151 | whole new state: active first, then answered; true exactly if the call has a record and was ringing |
| `CallManagement.CallManager.Decline` | src/core/CallManager.cpp:153-163 | answers whether a ringing call was declined |
| `CallManagement.CallManager.ForwardCall` | src/core/CallManager.cpp:165-172 | answers whether a ringing call was redirected; an empty target never is |
| `CallManagement.CallManager.Hold` | src/core/CallManager.cpp:205-212 | marked held exactly if the backend holds it |
| `CallManagement.CallManager.Unhold` | src/core/CallManager.cpp:214-217 | accepted exactly if the call has a record |
| `CallManagement.CallManager.MergeCalls` | src/core/CallManager.cpp:264-286 | whole new state: a held leg is resumed first and bridged later; true exactly if both calls have confirmed records |
| `CallManagement.CallManager.BlindTransfer` | src/core/CallManager.cpp:367-377 | pending exactly if the backend accepts |
| `CallManagement.CallManager.AttendedTransfer` | src/core/CallManager.cpp:379-393 | pending with both legs exactly if the backend accepts; never to itself |
| `CallManagement.CallManager.Hangup` | src/core/CallManager.cpp:436-440 | reaches the backend only for a recorded call |
| `CallManagement.CallManager.SetMuted` | src/core/CallManager.cpp:442-452 | the flag follows an accepted command only |
| `CallManagement.CallManager.StartRecording` | src/core/CallManager.cpp:317-324 | the flag follows an accepted command only |
| `CallManagement.CallManager.StopRecording` | src/core/CallManager.cpp:326-332 | the flag follows an accepted command only |
| `CallManagement.CallManager.DeliverNext` | src/core/sipbackend/fake/FakeSipBackend.cpp:40-46 | the oldest queued event is taken off and handled; a held call is promoted where one must be |
| `AccountsManagement.AccountsManager.FindIndex` | src/core/AccountsManager.cpp:241-243 | the first entry of the account |
| `AccountsManagement.AccountsManager.RegisterAccount` | src/core/AccountsManager.cpp:465-532 | whole new state; true exactly if the backend runs and the account ends up registered |
| `AccountsManagement.AccountsManager.UnregisterAccount` | src/core/AccountsManager.cpp:534-560 | whole new state |
| `AccountsManagement.AccountsManager.RegisterStartupAccounts` | src/core/AccountsManager.cpp:456-463 | whole new state over all entries in order |
| `AccountsManagement.AccountsManager.ReregisterAllEnabled` | src/core/AccountsManager.cpp:657-678 | whole new state over the accounts collected before the first change |
| `AccountsManagement.AccountsManager.StartupTargets` | src/core/AccountsManager.cpp:665-671 | the enabled accounts that register on startup, in order |
| `AccountsManagement.AccountsManager.Add` | src/core/AccountsManager.cpp:163-183 | whole new state on every failure path; the stray keychain entry is erased if erasing works |
| `AccountsManagement.AccountsManager.Remove` | src/core/AccountsManager.cpp:239-252 | whole new state; a failed delete leaves an entry without password |
| `AccountsManagement.AccountsManager.Update` | src/core/AccountsManager.cpp:268-338 | whole new state; default mark and keychain reference survive |
| `AccountsManagement.AccountsManager.SetDefault` | src/core/AccountsManager.cpp:367-399 | whole new state for a committed, a rolled back and an open transaction |
| `AccountsManagement.AccountsManager.SetEnabled` | src/core/AccountsManager.cpp:401-426 | whole new state |
| `AccountsManagement.AccountsManager.SetPassword` | src/core/AccountsManager.cpp:428-450 | whole new state; a live account is bound anew |
| `AccountsManagement.AccountsManager.AccountIdForBackend` | src/core/AccountsManager.cpp:707-714 | an owner exactly if there is one |
| `AccountsManagement.AccountsManager.DeliverRegState` | src/core/AccountsManager.cpp:566-591 | the oldest event is handled for its owner, if any |
| `AccountsManagement.AccountsTable.Insert` | src/persistence/Database.cpp:53 | a second default row is refused whatever the statement says |
| `AccountsManagement.AccountsTable.Delete` | src/core/AccountsManager.cpp:254-266 | the row is gone exactly if the statement succeeds |
| `AccountsManagement.AccountsTable.Update` | src/core/AccountsManager.cpp:274-319 | all fields but the default mark and the keychain reference |
| `AccountsManagement.AccountsTable.UpdateEnabled` | src/core/AccountsManager.cpp:409-417 | the enabled mark of one row |
| `AccountsManagement.AccountsTable.MoveDefault` | src/core/AccountsManager.cpp:378-393 | one default row, the old table, or the new table with a failure reported |
| `AccountsManagement.AccountBackend.AddAccount` | src/core/sipbackend/fake/FakeSipBackend.cpp:93-102 | a new id for exactly these settings, or a refusal |
| `AccountsManagement.AccountBackend.RemoveAccount` | src/core/sipbackend/fake/FakeSipBackend.cpp:104-110 | the backend account is gone, others stay |
| `EventDispatching.EventDispatch.Post` | src/core/sipbackend/EventDispatch.cpp:22-49 | queued behind everything else under the present epoch |
| `EventDispatching.EventDispatch.PostDelayed` | src/core/sipbackend/EventDispatch.cpp:51-59 | armed under the present epoch |
| `EventDispatching.EventDispatch.InvalidateAll` | src/core/sipbackend/EventDispatch.h:65 | the epoch moves on, the queue stays |
| `EventDispatching.EventDispatch.DeliverNext` | src/core/sipbackend/EventDispatch.cpp:35-48 | taken off the queue, and run exactly if its epoch is the present one |
| `EventDispatching.EventDispatch.FireDelayed` | src/core/sipbackend/EventDispatch.cpp:54-58 | the same for a timer, in any order |
| `CallsModels.CallsModel.Refresh` | src/models/CallsModel.cpp:58-106 | rows, emitted signals and their effect on a following view, as above |
| `CallsModels.CallsModel.RemoveMissing` | src/models/CallsModel.cpp:65-75 | the backward pass and its signals |
| `CallsModels.CallsModel.UpsertRow` | src/models/CallsModel.cpp:79-105 | one entry updated in place or appended, with at most one signal |
| `CallsModels.CallsModel.AnyOf` | src/models/CallsModel.cpp:67-69 | whether the snapshot has the call |
| `CallsModels.CallsModel.FindRow` | src/models/CallsModel.cpp:80-82 | the first row of the call |
| `CallsModels.CallsModel.Compare` | src/models/CallsModel.cpp:90-98 | the comparison field by field finds exactly the roles for which data() answers something else, each once |
| `CallSessions.CallSessionTracker.NoteOutbound` | src/core/CallSessionTracker.cpp:7-19 | whole new map |
| `CallSessions.CallSessionTracker.HasLiveOutboundTo` | src/core/CallSessionTracker.cpp:21-29 | true exactly if the target is not empty and a live session was dialled to it |
| `CallSessions.CallSessionTracker.NoteIncoming` | src/core/CallSessionTracker.cpp:31-36 | whole new map |
| `CallSessions.CallSessionTracker.NoteState` | src/core/CallSessionTracker.cpp:38-75 | whole new map and the history row, if any |
| `CallSessions.CallSessionTracker.UpsertFromEntry` | src/core/CallSessionTracker.cpp:82-101 | known fields replace those of the session |
| `CallSessions.CallsController.Dial` | src/core/CallsController.cpp:247-293 | a call is placed and noted exactly if the guard lets the request through |
| `CallSessions.CallsController.OnIncomingCall` | src/core/CallsController.cpp:110-123 | noted if the snapshot has the call |
| `CallSessions.CallsController.OnCallEvent` | src/core/CallsController.cpp:182-207 | noted, and the row it yields appended; current and incoming ids forget a call that ended |
| `FakeSipBackendModel.FakeSipBackend.MakeCall` | src/core/sipbackend/fake/FakeSipBackend.cpp:185-200 | a new id, a Calling event and a log line, or nothing if the account is unknown |
| `FakeSipBackendModel.FakeSipBackend.SimulateIncomingCall` | src/core/sipbackend/fake/FakeSipBackend.cpp:202-219 | a new ringing call and its announcement |
| `FakeSipBackendModel.FakeSipBackend.Answer` | src/core/sipbackend/fake/FakeSipBackend.cpp:221-234 | accepted only while ringing; confirms the call and announces it |
| `FakeSipBackendModel.FakeSipBackend.SimulateRemoteAnswer` | src/core/sipbackend/fake/FakeSipBackend.cpp:236-247 | confirms only an outbound call that is being set up |
| `FakeSipBackendModel.FakeSipBackend.Decline` | src/core/sipbackend/fake/FakeSipBackend.cpp:249-260 | accepted only while ringing; ends the call |
| `FakeSipBackendModel.FakeSipBackend.Redirect` | src/core/sipbackend/fake/FakeSipBackend.cpp:262-273 | accepted only while ringing; ends the call |
| `FakeSipBackendModel.FakeSipBackend.Hangup` | src/core/sipbackend/fake/FakeSipBackend.cpp:275-289 | ends a call at most once |
| `FakeSipBackendModel.FakeSipBackend.SimulateRemoteHangup` | src/core/sipbackend/fake/FakeSipBackend.cpp:291-301 | ends a call at most once |
| `FakeSipBackendModel.FakeSipBackend.Hold` | src/core/sipbackend/fake/FakeSipBackend.cpp:303-313 | accepted only for a confirmed call not yet held |
| `FakeSipBackendModel.FakeSipBackend.Unhold` | src/core/sipbackend/fake/FakeSipBackend.cpp:315-325 | accepted only for a confirmed held call |
| `FakeSipBackendModel.FakeSipBackend.SetMuted` | src/core/sipbackend/fake/FakeSipBackend.cpp:327-335 | accepted only for a confirmed call |
| `FakeSipBackendModel.FakeSipBackend.BlindTransfer` | src/core/sipbackend/fake/FakeSipBackend.cpp:349-356 | accepted only for a confirmed call |
| `FakeSipBackendModel.FakeSipBackend.AttendedTransfer` | src/core/sipbackend/fake/FakeSipBackend.cpp:358-370 | accepted only between two confirmed calls |
| `FakeSipBackendModel.FakeSipBackend.Bridge` | src/core/sipbackend/fake/FakeSipBackend.cpp:372-382 | accepted only between two confirmed calls |
| `FakeSipBackendModel.FakeSipBackend.StartRecording` | src/core/sipbackend/fake/FakeSipBackend.cpp:384-393 | whole new state and answer |
| `FakeSipBackendModel.FakeSipBackend.StopRecording` | src/core/sipbackend/fake/FakeSipBackend.cpp:395-403 | whole new state and answer |
| `FakeSipBackendModel.FakeSipBackend.ReleaseCall` | src/core/sipbackend/fake/FakeSipBackend.cpp:453-457 | logged only when there was a call to release |
| `FakeSipBackendModel.FakeSipBackend.SimulateTransferStatus` | src/core/sipbackend/fake/FakeSipBackend.cpp:459-468 | posts the NOTIFY of a known call |

## Left out

- CallTheorems.FlagAgreement: does not claim that at most one confirmed call is un-held, because two outbound calls placed back to back are both un-held.
- MuteRace.QuietAgreement: does not cover the deferred branch and the roll-back, because there the agreement can fail; their exact conditions are separate lemmas.
- StopProofs.CleanStop: does not show that stop() returns, only what holds when it does; it waits for callbacks that may keep coming. It leaves the tails of call callbacks running, as destroying a call does not wait for them. The recorders, players and the ringtone it clears first, the epoch's 64-bit wrap-around and the engine it stops last are not modelled.
- SipLogSecrets.SecretExact: leaves out values that end like `response=`; ResponseExact and CnonceExact cover them.
- AccountsTheorems.StorageAgrees: does not run past a COMMIT that leaves its transaction open, because the agreement can end there.
- PostLaws.CommandExact: is about commands that act on the call they name; of dialling, accepting and resuming, which may hold another call on the way, the other laws say what they do to each call.
- CallManagement.CallManager.MakeCall: assumes that the backend never mints -1, the id that stands for failure.
- AccountsManagement.AccountsManager.AccountIdForBackend: assumes that -1, the id that stands for no account, is not bound; row ids are positive.
- AccountsManagement.AccountsManager.DeliverRegState: the same; the history of delivered events is a specification variable; message-waiting and message events are not modelled.
- CallHistory.OneRowPerCall: of the row's times it says nothing, SessionTheorems.HistoryIsExact does; the handlers' other effects are display or commands of their own.
- SessionTheorems.HistoryIsExact: does not cover timestamps of zero, which the tracker uses for "not set".
- CallSessions.CallsController.Dial: assumes that an account manager is wired; the trimming of an empty number and the choice of the account happen before it.
- CallSessions.CallsController.OnIncomingCall: do-not-disturb, forwarding and auto-answer are left out; they only issue commands the call layer already has.
- UpdateChecking.NaturalCompare: ASCII digits only; `QChar::isDigit` accepts others, and the order then need not be transitive. Digit runs of 2^64 and more read as 0, as in the source. Characters compare by code point, which differs from UTF-16 units outside the basic plane.
- ContactImporter.UnfoldLines: property parsing, column matching and phone clean-up of the importer are not modelled.
- Version order and section 11 of Semantic Versioning 2.0.0: the code compares pre-releases as one natural-order string, not identifier by identifier; the model follows the code.
- LinesModel::refresh: the same algorithm as CallsModel::refresh over other fields; it would only repeat the proofs.
- 32-bit wrap-around of call, account and row ids: ids are unbounded here.
- DTMF, file playback, stream statistics, messages, message waiting and presence: they pass through without touching the states above.
- The callsChanged, registrationStateChanged and ringing signals, and aggregateCallState: display only.
- start, stop and setListener of the in-memory backend: the conservation claims are about one wiring; the epoch they bump is modelled with the adapter.
- SQL text and binding, the key store's cryptography, PJSIP, TLS, STUN, codecs, devices, Qt's event loop and XML reading: foreign code; the model starts from its results.
- Log sinks, settings, provisioning, crash reporting and the user interface: wiring.
