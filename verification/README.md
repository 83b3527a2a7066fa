# Verification of the client network layer, the token budget and the guards

This project models six parts of the repository in Dafny and proves what they promise
over whole runs.

* **Token budget** (`BudgetLedger.dfy`, `BudgetProxy.dfy`, `BudgetRequests.dfy`). The
  SQLite ledger is a class whose methods are atomic transactions; a request of the proxy
  is a thread of atomic steps that may die between any two. A system state joins the ledger, any number of
  threads, a second process that closes the gate, crashes, restarts with recovery, and
  the provider's bills as ghost truth. Safety is proved for every run of that system,
  and how each request ends for every answer of the world.
* **Client network runtime** (`FastLane.dfy`, `Runtime.dfy`, `RuntimeRuns.dfy`,
  `FastLaneRates.dfy`, `FastLaneProgress.dfy`, `Reentry.dfy`, `StaleFilters.dfy`,
  `ClientRuntimeObject.dfy`, `NetworkThread.dfy`, `SessionRuns.dfy`, `SessionTraffic.dfy`).
  The runtime is a step function over commands, timers, server messages and socket
  failures, the object that performs it, the glue that applies its outcomes to sockets
  which answer as they please, and the proof that a session is a run of it. Time is a number of milliseconds.
* **Area-of-interest window** (`Window.dfy`, `Standing.dfy`, `Subscription.dfy`,
  `ChunkStore.dfy`, `Freshness.dfy`). The chunk a player stands in, tile arithmetic, the
  21 x 21 x 21 enumeration and its differences over all integers, the incremental
  subscription with the requests for single chunks, exactly when it leaves the server
  with the current window, and exactly when the chunk store stays inside it.
* **Bytes on the wire** (`Bytes.dfy`, `Framing.dfy`, `Transport.dfy`, `Payload.dfy`,
  `ClientEncoder.dfy`, `ServerPayload.dfy`, `WireFormat.dfy`). Frames through partial
  writes, arbitrary reads and the tick that ends a session, payload layouts that read
  back, and the documented format byte by byte.
* **Reconnecting and replay history** (`Reconnect.dfy`, `History.dfy`).
* **Two history-sensitive programs** (`MemoryGuard.dfy`, `Evidence.dfy`,
  `DialogueTurns.dfy`). The memory guard's small state against the whole sample history,
  and the dialogue evidence checker against its specification.

A class is proved against a pure step or result function (its methods' `ensures` equate
the new state with that function of the old one); the run-level theorems are lemmas about
that function. Clocks, sockets, HTTP replies and SQLite failures are inputs of the steps.

Where the code falls short of what it or its comments suggest, the model follows the code,
shows an input, and proves exactly when the code does meet the property:

* The session loop drains frames once per tick and returns without draining when a read of
  that tick ends the session, so frames that arrived whole with the end of the connection
  are lost (`Framing.ClosingTickLosesFrame`; `Framing.DeliveredIff`).
* A chunk whose delta does not fit, or that was invalidated, is subscribed on its own. A
  delta still in flight for a chunk left behind thereby subscribes it again outside the
  window (`Subscription.LateDeltaStrays`), and nothing unsubscribes it until a later window
  has held it; an invalidation while a snapshot is in flight asks for nothing, so a window
  chunk stays unsubscribed up to the next keepalive
  (`Subscription.GatedInvalidationLeavesHole`; `Subscription.SubscriptionExactIff`).
* The store of chunks does not always stay inside the current neighbourhood. A snapshot
  that arrives after its chunk was left behind, and a scene entered elsewhere than the
  chunks in store, leave chunks that no eviction removes (`ChunkStore.LateArrivalExample`,
  `ChunkStore.EntryElsewhereExample`; `ChunkStore.AlwaysStockedIffOrderly`).
* A history buffer of capacity 0 evicts nothing and grows without bound, although both
  types are documented as bounded (`History.BoundedIff`).
* Joining a scene again forgets a running fast-lane cooldown
  (`Reentry.TwoJoinsBreakTheSpacing`); cooldowns stay apart exactly without such joins
  (`FastLaneRates.SpacingIffNoEarlyJoin`).
* The length prefixes of frames and strings are truncating casts, so round trips hold
  exactly below 2^32 and 2^16 bytes.

## Model

| member | source | states |
|---|---|---|
| `BudgetProxy.EveryRunSpendsWithinCap` | scripts/npc_life/budget_proxy.py:83-128 | Over every interleaving of requests, thread deaths, gate closings from this and another process, crashes and restarts, with a provider that bills the counted input and at most the output limit: what a request really cost never exceeds its row's charge, and baseline plus everything really spent is at most the cap |
| `BudgetProxy.EveryRunStaysCovered` | scripts/npc_life/budget_proxy.py:83-120 | With no assumption on the provider: baseline plus the reservation-covered part of every charge is at most the cap at every moment; charges split exactly into actual, in flight and unknown; the committed total passes the cap only with the gate closed and a row that broke its reservation |
| `BudgetProxy.EveryRunEvolves` | scripts/npc_life/budget_proxy.py:67-128 | Between any two moments of a run the gate never reopens, a closed gate admits no row, its reason is only overwritten by a broken reservation, each row leaves reserved at most once, and an uncertain charge never changes |
| `BudgetProxy.EveryRunDrainsAfterHalt` | scripts/npc_life/budget_proxy.py:47-58 | After a halt no row is ever added by any process and the tokens in flight never grow |
| `BudgetProxy.BrokenContractOverspends` | scripts/npc_life/budget_proxy.py:113-120 | The provider assumption is needed: a concrete run in which usage above the output limit drives the committed total past the cap |
| `BudgetProxy.ExecEvolves` | scripts/npc_life/budget_proxy.py:159-190 | The system invariant (sound ledger; every thread past its reservation owns a distinct row that is still reserved; no thread ends on a missing or already settled row) is kept by every run from any state that has it |
| `BudgetProxy.ClientStepEffect` | scripts/npc_life/budget_proxy.py:159-190 | One step of one request thread rewrites no row but the one it owns, owns afterwards that row or the one it just added, and keeps the ledger sound |
| `BudgetProxy.ActKeepsOwnership` | scripts/npc_life/budget_proxy.py:177-186 | After a step of one thread every thread still owns a reserved row of its own, no two the same |
| `BudgetProxy.ExecHonest` | scripts/npc_life/budget_proxy.py:171-186 | With a provider that keeps its contract, over every run no row ever breaks its reservation and every settled row is charged exactly what was billed |
| `BudgetProxy.Proxy.Request` | scripts/npc_life/budget_proxy.py:148-157 | The public entry run to its end is the request thread run alone; a storage error closes the gate, in memory even when that write fails too |
| `BudgetProxy.Proxy.Attempt` | scripts/npc_life/budget_proxy.py:159-190 | The whole request body performs exactly the atomic steps of the thread model, in order, with every early exit |
| `BudgetProxy.Proxy.Count` | scripts/npc_life/budget_proxy.py:161-176 | Performs the thread model's admission, with its refusals before any reservation: stateful or streaming body, bad output limit, unusable input count; otherwise the granted limit is the smaller of asked and configured |
| `BudgetProxy.Proxy.Deliver` | scripts/npc_life/budget_proxy.py:178-190 | After reserving, performs the thread model's accounting for every way the call can end: raised, no object, no usage, bad usage, settled, settled but not completed |
| `BudgetProxy.Proxy.HaltAndRaise` | scripts/npc_life/budget_proxy.py:161-168 | Closing the gate and raising: the reason, or the storage error when the write fails |
| `BudgetRequests.RequestOutcome` | scripts/npc_life/budget_proxy.py:148-190 | How every request ends that meets an open gate: a body that cannot be accounted for, or no usable count, leaves no row; otherwise one row is added exactly when the reservation fits under the cap; the request succeeds exactly when the provider completed the response within it, else the row is charged what was used, or in full if that is unknown; a failure closes the gate for the reason the caller is given |
| `BudgetRequests.ClosedRequestOutcome` | scripts/npc_life/budget_proxy.py:60-65 | At a closed gate, or when it cannot be read, a request fails and adds no row, and the gate stays or becomes closed |
| `BudgetRequests.HoldingEnds` | scripts/npc_life/budget_proxy.py:177-190 | From its reservation on a request ends with its row accounted for, for every answer of the provider, and succeeds exactly when it was served within the reservation |
| `BudgetRequests.EveryRowIsRequested` | scripts/npc_life/budget_proxy.py:159-176 | Over every run each row belongs to an acceptable request that arrived, under its scope, for an input the provider counted, and reserves an output limit within both the configured one and the one asked for, and equal to one of them |
| `BudgetRequests.EveryLimitIsConfigured` | scripts/npc_life/budget_proxy.py:168-168 | Over every run no row reserves more output than the configured limit |
| `BudgetRequests.AdmissionGrants` | scripts/npc_life/budget_proxy.py:161-176 | An admitted request is counted exactly when its body is acceptable and the count usable; it is granted at most the configured limit, at most a positive integer asked for, and one of the two |
| `BudgetRequests.ClosedGateStops` | scripts/npc_life/budget_proxy.py:60-71 | Once the gate is closed, in the file or only in memory because the write failed, no request is let in until the process ends, and no row is added but for requests that had already passed their last check |
| `BudgetRequests.RefusedWriteLatches` | scripts/npc_life/budget_proxy.py:148-157 | A refused write ends its request with ledger_write_failed and closes the gate in memory |
| `BudgetRequests.RestartSettles` | scripts/npc_life/budget_proxy.py:73-81 | A restart leaves no earlier row pending, ever after, and closes the gate if one was |
| `BudgetRequests.SettleOutcome` | scripts/npc_life/budget_proxy.py:103-120 | Settling succeeds exactly for the counted input and an output within the limit; either way that row alone changes and is charged what was used; a broken reservation closes the gate with that reason, whatever closed it before |
| `BudgetRequests.UncertainOutcome` | scripts/npc_life/budget_proxy.py:122-128 | Marking closes the gate, the first reason staying; a pending row keeps its charge and takes the reason, every other row stays |
| `BudgetRequests.RecoverOutcome` | scripts/npc_life/budget_proxy.py:73-81 | Recovery marks exactly the pending rows, and closes the gate exactly when there are any |
| `BudgetRequests.HaltCloses` | scripts/npc_life/budget_proxy.py:67-71 | Halting closes the gate and changes no row |
| `BudgetLedger.ReserveSound` | scripts/npc_life/budget_proxy.py:83-101 | A reservation is granted exactly when the gate is open and baseline plus all charges plus input plus limit fit the cap; otherwise no row is added and the gate ends closed |
| `BudgetLedger.SettleSound` | scripts/npc_life/budget_proxy.py:103-120 | Settling with any valid usage keeps the ledger sound, including the usage that exceeds its reservation |
| `BudgetLedger.UncertainSound` | scripts/npc_life/budget_proxy.py:122-128 | Marking a request uncertain, reserved or not, existing or not, keeps the ledger sound |
| `BudgetLedger.RecoverSound` | scripts/npc_life/budget_proxy.py:73-81 | Recovery leaves no row reserved and keeps the ledger sound |
| `BudgetLedger.OverspendIsHaltedViolation` | scripts/npc_life/budget_proxy.py:113-120 | In a sound ledger the committed total passes the cap only through a settled row charged above its reservation, and then the gate is closed |
| `BudgetLedger.CommittedSplits` | scripts/npc_life/budget_proxy.py:47-58 | Charges are exactly actual plus in-flight plus unknown tokens |
| `BudgetLedger.EvolvesTransitive` | scripts/npc_life/budget_proxy.py:67-128 | The history order between ledgers composes |
| `BudgetLedger.HaltEvolves` | scripts/npc_life/budget_proxy.py:67-71 | Halting moves the ledger forward in the history order |
| `BudgetLedger.RecoverEvolves` | scripts/npc_life/budget_proxy.py:73-81 | Recovery moves the ledger forward in the history order |
| `BudgetLedger.ReserveEvolves` | scripts/npc_life/budget_proxy.py:83-101 | A granted or refused reservation moves the ledger forward in the history order |
| `BudgetLedger.SettleEvolves` | scripts/npc_life/budget_proxy.py:103-120 | Settling moves the ledger forward in the history order |
| `BudgetLedger.UncertainEvolves` | scripts/npc_life/budget_proxy.py:122-128 | Marking uncertain moves the ledger forward in the history order |
| `BudgetLedger.HaltedInFlightShrinks` | scripts/npc_life/budget_proxy.py:73-128 | From a closed gate, in-flight tokens only go down |
| `BudgetLedger.Ledger.Open` | scripts/npc_life/budget_proxy.py:20-35 | Creates the budget once from explicit integers with 0 <= baseline < cap; on an existing budget accepts only matching arguments and changes nothing |
| `BudgetLedger.Ledger.StatusReport` | scripts/npc_life/budget_proxy.py:47-58 | The reported sums are the ledger's; committed plus remaining is the cap, and committed is actual plus in flight plus unknown on a sound ledger |
| `BudgetLedger.Ledger.CheckOpen` | scripts/npc_life/budget_proxy.py:60-65 | Closed by the in-memory latch first, then by the stored halt |
| `BudgetLedger.Ledger.Halt` | scripts/npc_life/budget_proxy.py:67-71 | The latch closes even when the write fails; the first stored reason is kept |
| `BudgetLedger.Ledger.RecoverPending` | scripts/npc_life/budget_proxy.py:73-81 | All pending rows become uncertain and the gate closes, or nothing happens when none is pending |
| `BudgetLedger.Ledger.Reserve` | scripts/npc_life/budget_proxy.py:83-101 | Gate, then argument types, then the reservation transaction; any refusal before it changes nothing |
| `BudgetLedger.Ledger.Settle` | scripts/npc_life/budget_proxy.py:103-120 | Unusable usage marks the row uncertain; usable usage performs the settle transaction, whose outcome distinguishes done, violation, already settled and missing |
| `BudgetLedger.Ledger.MarkUncertain` | scripts/npc_life/budget_proxy.py:122-128 | Only a reserved row changes; the gate closes either way |
| `FastLane.FailStaysCoherent` | clients/bevy_client/src/net/runtime.rs:439-488 | A failure keeps: at most one of bootstrap pending, attach pending, attached, retry scheduled, cooldown; ticket exactly while attaching; endpoint exactly while attaching or attached; at most 3 attempts, and a cooldown only after 3 |
| `FastLane.PollStaysCoherent` | clients/bevy_client/src/net/runtime.rs:490-532 | The retry timer keeps the same |
| `FastLane.ResetStaysCoherent` | clients/bevy_client/src/net/fastlane.rs:68-77 | Starting a bootstrap keeps the same |
| `FastLane.PrepareStaysCoherent` | clients/bevy_client/src/net/fastlane.rs:79-93 | A ticket keeps the same |
| `FastLane.AttachedStaysCoherent` | clients/bevy_client/src/net/fastlane.rs:95-103 | A successful attach keeps the same |
| `FastLane.FailStartsCooldownIff` | clients/bevy_client/src/net/runtime.rs:439-488 | A failure starts a fresh 15 s cooldown exactly when retries are allowed, in scene, used up, and no cooldown is still running |
| `FastLane.FastLaneState.Reset` | clients/bevy_client/src/net/fastlane.rs:68-77 | Sets the bootstrap id and clears everything but the attempt count |
| `FastLane.FastLaneState.Prepare` | clients/bevy_client/src/net/fastlane.rs:79-93 | Sets attach id, endpoint and ticket and clears the rest but the attempt count |
| `FastLane.FastLaneState.Attached` | clients/bevy_client/src/net/fastlane.rs:95-103 | Attached: attempts and timers cleared, endpoint kept |
| `FastLane.FastLaneState.Failed` | clients/bevy_client/src/net/fastlane.rs:105-114 | Failed: everything cleared but the attempt count, the reason remembered |
| `Runtime.RunKeepsInv` | clients/bevy_client/src/net/runtime.rs:138-1000 | Every run from a state with coherent lane and pairwise distinct, already issued pending ids stays in such states |
| `Runtime.StepKeepsInv` | clients/bevy_client/src/net/runtime.rs:534-1000 | Each command, timer, server message and socket failure keeps that invariant |
| `RuntimeRuns.LaneAlwaysCoherent` | clients/bevy_client/src/net/runtime.rs:439-532 | From a new runtime, in every reachable state, the lane invariant holds and the backoff array index is in range |
| `RuntimeRuns.IdsNeverReused` | clients/bevy_client/src/net/runtime.rs:124-128 | Request ids issued over a run are strictly increasing |
| `RuntimeRuns.StepIssuesNext` | clients/bevy_client/src/net/runtime.rs:124-128 | A step sends at most one message, and it carries the next id or none |
| `RuntimeRuns.ReplyMatchesOneSlot` | clients/bevy_client/src/net/runtime.rs:543-1000 | In every reachable state a reply id matches at most one of auth, enter-scene, bootstrap, attach and pending time sync, and none when it was never issued |
| `RuntimeRuns.EditNumbersIncrease` | clients/bevy_client/src/net/runtime.rs:321-382 | Edit intents of a session carry strictly increasing sequence numbers |
| `RuntimeRuns.SyncKeepsNewest` | clients/bevy_client/src/net/runtime.rs:395-429 | Whatever choice of oldest overflow entries is dropped, a time sync leaves at most 33 pending, none older than 30000 ms, and trims one only if 32 others stay, none of them older |
| `RuntimeRuns.PendingSyncsBounded` | clients/bevy_client/src/net/runtime.rs:395-429 | In every reachable state at most 33 time syncs are pending |
| `RuntimeRuns.PendingWasSent` | clients/bevy_client/src/net/runtime.rs:395-410 | In every reachable state each pending time sync was sent, with its id and the time it is pending since |
| `RuntimeRuns.SyncStep` | clients/bevy_client/src/net/runtime.rs:395-429 | A tick of the sync timer sends one request with the next id and the current time, leaves it pending, and prunes as described |
| `FastLaneRates.SpacingIffNoEarlyJoin` | clients/bevy_client/src/net/runtime.rs:439-532 | Over every run in time order: the cooldowns stay at least 15000 ms apart wherever the UDP socket may fail, exactly when no scene entry comes less than 15000 ms after the last cooldown started |
| `FastLaneRates.CooldownsStartApart` | clients/bevy_client/src/net/runtime.rs:455-484 | Without such an early join, between any two moments of a run n cooldowns started move the last start on by at least n times 15000 ms, however many scenes are entered |
| `FastLaneRates.FastLaneRateBound` | clients/bevy_client/src/net/runtime.rs:439-532 | With time that never goes back and no early join: retry-timer bootstrap requests by time T are at most 3 + 3 per attach + 4 per cooldown, and cooldowns at most 1 + T/15000, however failures, late rejections, polls and joins interleave |
| `FastLaneRates.SendsBetween` | clients/bevy_client/src/net/runtime.rs:490-532 | Between any two moments of any run the retry timer sends at most what the lane allowed at the first (3 after joining, 4 in a cooldown) plus 3 per attach and 4 per cooldown in between |
| `FastLaneRates.StepKeepsSpacing` | clients/bevy_client/src/net/runtime.rs:439-629 | Every input but an early join keeps the lane held back for 15000 ms from the start of a cooldown, and starts no other before |
| `FastLaneRates.EarlyJoinBreaks` | clients/bevy_client/src/net/runtime.rs:575-629 | After the first early join of a run, a socket failure at that moment starts a cooldown too soon |
| `FastLaneRates.OneJoinIsNotEarly` | clients/bevy_client/src/net/runtime.rs:575-629 | A session that enters a scene at most once has no early join |
| `FastLaneRates.StepStartsCooldownIff` | clients/bevy_client/src/net/runtime.rs:439-488 | Over all inputs, a step starts a cooldown exactly when it is a socket failure, a UDP rejection or a refused attach, in scene, with the retries used up and no cooldown still running; it lasts 15 s from then |
| `FastLaneProgress.CooldownEnds` | clients/bevy_client/src/net/runtime.rs:502-519 | The first poll at or after the end of a cooldown restores all attempts; a poll sends the bootstrap request, with the next id, exactly from 250 ms after that one; before its end a cooldown stays |
| `FastLaneProgress.RetryComesAfterDelay` | clients/bevy_client/src/net/runtime.rs:439-532 | A failure with attempts left and no cooldown running is followed by the next bootstrap request exactly from 250, 1000 or 3000 ms later; with none left by a cooldown of 15 s and no request |
| `FastLaneProgress.LaneEngagedIff` | clients/bevy_client/src/net/runtime.rs:439-532 | Over every run: a live session in scene waits for a bootstrap or attach answer, is attached, or waits for a retry or the end of a cooldown, exactly unless a refused bootstrap came after the last failure and scene entry |
| `FastLaneProgress.StepParksIff` | clients/bevy_client/src/net/runtime.rs:439-835 | One input leaves the lane with nothing under way exactly if it refuses the awaited bootstrap, or nothing was and it is no failure and no entry |
| `FastLaneProgress.PollSendsIff` | clients/bevy_client/src/net/runtime.rs:490-532 | A poll sends exactly for a retry that is due, and then one bootstrap request with the next id, whose answer the lane waits for |
| `FastLaneProgress.FailureEffect` | clients/bevy_client/src/net/runtime.rs:439-488 | Every failure that allows a retry leaves nothing in use, sends nothing and keeps its reason to show |
| `FastLaneProgress.OutsideNothingScheduled` | clients/bevy_client/src/net/runtime.rs:449-455 | Outside a scene a failure schedules neither a retry nor a cooldown |
| `FastLaneProgress.TicketIsPresented` | clients/bevy_client/src/net/runtime.rs:782-817 | An attach is opened only for the ticket and port that the awaited reply grants, under a fresh id that the lane then waits for |
| `FastLaneProgress.DropsIff` | clients/bevy_client/src/net/runtime.rs:543-817 | A handler drops the session exactly for a refused login over TCP, a refused or incomplete scene entry, or an incomplete ticket, each only under the awaited id |
| `FastLaneProgress.SyncMatchedOnce` | clients/bevy_client/src/net/runtime.rs:971-982 | Over every run a time-sync request is matched with at most one reply |
| `FastLaneProgress.MatchedIff` | clients/bevy_client/src/net/runtime.rs:971-982 | A reply is matched exactly if its request is pending, which it then no longer is |
| `Reentry.TwoJoinsBreakTheSpacing` | clients/bevy_client/src/net/runtime.rs:575-629 | Early joins happen: a run from a new runtime, in time order and with two joins, starts two cooldowns 750 ms apart |
| `Reentry.FirstCooldown` | clients/bevy_client/src/net/runtime.rs:439-532 | The run up to its first cooldown: one join and four failed attaches, at 0, 250, 1250 and 4250 ms |
| `SessionRuns.SessionIsRun` | clients/bevy_client/src/net/thread.rs:312-492 | Whatever the sockets and the server do, the runtime of a session is at every loop boundary that of a run of the runtime, but for the flag that a failed send dropped the session: what holds over runs holds over sessions |
| `SessionRuns.WireIdsIncrease` | clients/bevy_client/src/net/thread.rs:495-589 | Over a session the ids of the messages that sockets accepted are strictly increasing |
| `SessionRuns.WireRateBound` | clients/bevy_client/src/net/thread.rs:495-589 | In a session without early joins, the bootstrap requests on the wire by time T are at most one per scene entry + 3 + 3 per attach + 4 (1 + T/15000), however the sockets fail |
| `StaleFilters.WatermarkIsMax` | clients/bevy_client/src/net/runtime.rs:640-653 | Within a scene session the final ack watermark is the lexicographic maximum of the initial one and every delivered (ack_seq, auth_tick) |
| `StaleFilters.WatermarkIgnoresOrder` | clients/bevy_client/src/net/runtime.rs:640-653 | It does not depend on order, duplication, transport or other traffic |
| `StaleFilters.AppliedAcksIncrease` | clients/bevy_client/src/net/runtime.rs:640-653 | Acks that are applied are strictly lexicographically increasing |
| `StaleFilters.ForwardedIffRecord` | clients/bevy_client/src/net/runtime.rs:836-890 | A remote move is forwarded exactly when its tick is positive and exceeds every tick of that actor since it last entered or left or the scene was joined |
| `StaleFilters.TickIsEpochMax` | clients/bevy_client/src/net/runtime.rs:836-890 | The stored tick is 0 or the largest tick of the actor's current epoch |
| `StaleFilters.StepAck` | clients/bevy_client/src/net/runtime.rs:640-653 | One input moves the watermark exactly when it is a live, lexicographically newer ack |
| `StaleFilters.JoiningForgets` | clients/bevy_client/src/net/runtime.rs:590-600 | Joining forgets every watermark, even when the reply lacks what it should carry |
| `ClientRuntimeObject.ClientRuntime.constructor` | clients/bevy_client/src/net/runtime.rs:94-110 | A new runtime awaits auth, with id 2 next and everything else empty |
| `ClientRuntimeObject.ClientRuntime.NextRequestId` | clients/bevy_client/src/net/runtime.rs:124-128 | Returns the next id and advances it |
| `ClientRuntimeObject.ClientRuntime.HandleAppCommand` | clients/bevy_client/src/net/runtime.rs:138-387 | Commands act only in scene; movement goes to UDP exactly when attached; an empty unsubscribe sends nothing |
| `ClientRuntimeObject.ClientRuntime.TimeSyncMessage` | clients/bevy_client/src/net/runtime.rs:395-410 | Unless awaiting auth: prunes, sends and records one time sync with the next id; afterwards at most 33 are pending, none older than 30000 ms, and none trimmed that is newer than one kept |
| `ClientRuntimeObject.ClientRuntime.PrunePending` | clients/bevy_client/src/net/runtime.rs:412-429 | Expired entries go; what is left is sorted by age and exactly the overflow trimmed from the front, which no kept entry is older than |
| `ClientRuntimeObject.ClientRuntime.Trim` | clients/bevy_client/src/net/runtime.rs:424-427 | Removes exactly the first entries of the list |
| `ClientRuntimeObject.SortedByAge` | clients/bevy_client/src/net/runtime.rs:417-422 | Collecting and sorting lists every entry once, oldest first |
| `ClientRuntimeObject.FirstAreVictims` | clients/bevy_client/src/net/runtime.rs:422-427 | The front of such a list is as many entries as overflow, none newer than one left |
| `ClientRuntimeObject.ClientRuntime.MarkFastLaneFailedAt` | clients/bevy_client/src/net/runtime.rs:439-488 | Performs the failure transition and sends nothing |
| `ClientRuntimeObject.ClientRuntime.PollFastLaneRetry` | clients/bevy_client/src/net/runtime.rs:490-532 | Performs the retry-timer transition |
| `ClientRuntimeObject.ClientRuntime.HandleServerMessage` | clients/bevy_client/src/net/runtime.rs:534-1000 | Performs the handler of the message, or fails the session |
| `ClientRuntimeObject.ClientRuntime.HandleResult` | clients/bevy_client/src/net/runtime.rs:543-574 | UDP rejection, auth failure, auth success, or an unrelated result |
| `ClientRuntimeObject.ClientRuntime.HandleEnterScene` | clients/bevy_client/src/net/runtime.rs:575-629 | Joining resets every watermark before the missing-field checks can fail the session |
| `ClientRuntimeObject.ClientRuntime.HandleTicket` | clients/bevy_client/src/net/runtime.rs:782-817 | Only the awaited bootstrap id is heard; a ticket opens the attach |
| `NetworkThread.MovementsSentOnce` | clients/bevy_client/src/net/thread.rs:495-589 | When an outcome is applied without error its movement inputs have been sent exactly once each, in order, over UDP or the TCP fallback |
| `SessionTraffic.OutcomeCarried` | clients/bevy_client/src/net/thread.rs:495-589 | An outcome applied without error has put every TCP message on TCP, every movement input on one channel or the other and every attach, with its id and ticket, on an open UDP socket, each exactly once and in order; an error comes of a TCP refusal, after everything before it was sent |
| `SessionTraffic.TcpSentOnce` | clients/bevy_client/src/net/thread.rs:503-512 | What an outcome applied without error adds to TCP besides movement is exactly its TCP messages, once and in order |
| `SessionTraffic.UdpFailureDetaches` | clients/bevy_client/src/net/thread.rs:513-581 | When UDP fails the socket is closed, the lane is out of use and, in scene, waits for a retry or a cooldown; nothing else touches the runtime or closes the socket |
| `SessionTraffic.CommandsReachTheWire` | clients/bevy_client/src/net/runtime.rs:138-387 | Over every session the application commands on the wire are those given in scene, once each, unchanged and in order: all while the session lives, all but possibly the one it was dropped on |
| `SessionTraffic.HandshakeAttaches` | clients/bevy_client/src/net/runtime.rs:782-835 | With working sockets a granted ticket is presented once, the answer to that id attaches the lane to the granted port, and movement then goes over UDP |
| `NetworkThread.SocketAlwaysBacksLane` | clients/bevy_client/src/net/thread.rs:436-589 | At every loop boundary, attached or attach-pending implies an open UDP socket, and the runtime invariant holds |
| `NetworkThread.StepLinks` | clients/bevy_client/src/net/runtime.rs:782-835 | A handler leaves a new pending attach only together with the action that opens its socket |
| `NetworkThread.FailedStepIsSilent` | clients/bevy_client/src/net/thread.rs:442-462 | A handler that fails the session sends nothing and leaves the lane alone |
| `NetworkThread.Session.ApplyRuntimeOutcome` | clients/bevy_client/src/net/thread.rs:495-589 | The loop applies the actions in order and stops at the first TCP failure; its recursion terminates |
| `NetworkThread.Session.ApplyAction` | clients/bevy_client/src/net/thread.rs:503-581 | Each action, each socket answer, each fallback |
| `NetworkThread.Session.FallBack` | clients/bevy_client/src/net/thread.rs:513-521 | Closing UDP and telling the runtime produces no further outbound actions |
| `NetworkThread.Session.TrySendTcp` | clients/bevy_client/src/net/thread.rs:505-508 | An accepted TCP message is logged once |
| `Window.WindowIsTileNeighbourhood` | clients/bevy_client/src/net/plugin.rs:236-260 | Over all integers: a chunk is in the window around a tile's centre exactly when its tile is within 1 on every axis, and the centre chunk belongs to its tile |
| `Window.WindowFitsI32` | clients/bevy_client/src/net/plugin.rs:244-260 | The exact range of chunk coordinates on which the window arithmetic stays within i32 |
| `Window.WindowSeqExact` | clients/bevy_client/src/net/plugin.rs:262-274 | The enumeration lists every window chunk, only those, none twice, 9261 in all |
| `Window.NearWindowChunks` | clients/bevy_client/src/net/plugin.rs:262-274 | The three nested loops produce that enumeration |
| `Window.FallingOutExact` | clients/bevy_client/src/net/plugin.rs:276-282 | What falls out is exactly the set difference of the windows, each once, numbering 9261 minus the product of max(0, 21 - |delta|) over the axes |
| `Window.EnteredEqualsExited` | clients/bevy_client/src/net/plugin.rs:355-363 | As many chunks enter as leave, and the difference is empty only for equal centres |
| `Window.ChunksFallingOut` | clients/bevy_client/src/net/plugin.rs:276-282 | The filter loop computes it |
| `Window.BoxExact` | clients/bevy_client/src/net/plugin.rs:205-207 | A box of chunks has as many members as the product of its edges |
| `Window.SharedExact` | clients/bevy_client/src/net/plugin.rs:254-282 | Two windows share exactly the box between their facing edges |
| `Window.WindowKeysBounded` | clients/bevy_client/src/net/plugin.rs:299-313 | A store keyed by chunk holds at most 9261 chunks of one window |
| `Window.KnownExact` | clients/bevy_client/src/net/plugin.rs:299-313 | The known versions sent are all stored chunks of the window with their stored versions: the truncation never drops any |
| `Window.KnownSorted` | clients/bevy_client/src/net/plugin.rs:310-310 | They are in lexicographic chunk order |
| `Window.KnownVersions` | clients/bevy_client/src/net/plugin.rs:300-313 | Filter, sort and truncate compute them |
| `Window.SortKeys` | clients/bevy_client/src/net/plugin.rs:310-310 | Sorting the keys |
| `Standing.ChunkOfExact` | clients/bevy_client/src/net/plugin.rs:225-231 | Within the i32 range the chunk of a location is the one chunk whose 1600-unit cube, on the axes (x, z, y), contains it; outside, the nearest one on each axis |
| `Standing.SurroundingsHeld` | clients/bevy_client/src/net/plugin.rs:211-274 | After any run whose subscription covers the window the server holds every chunk that contains a place within 11200 units of the player on every axis, the player's own included |
| `Subscription.SubscriptionExactIff` | clients/bevy_client/src/net/plugin.rs:90-188 | Over any sequence of scene entries, position updates, retries, keepalives, snapshots, deltas, invalidations and drops by the server: the server holds exactly the player's window after every event exactly when no snapshot was asked for a chunk it did not hold and it dropped none that it held |
| `Subscription.WindowIsNeighbourhood` | clients/bevy_client/src/net/plugin.rs:236-274 | That window is the chunks of the 27 tiles around the player's tile |
| `Subscription.AlwaysPlaced` | clients/bevy_client/src/net/plugin.rs:431-497 | In every reachable state the client's centre and tile are the player's, and the retry counter is at most 40 |
| `Subscription.NextExactIff` | clients/bevy_client/src/voxel/authority_plugin.rs:328-350 | One event leaves an exact subscription exact precisely under that condition |
| `Subscription.SubscribeAroundServes` | clients/bevy_client/src/net/plugin.rs:333-380 | From whatever the server holds, subscribe-then-unsubscribe adds the new window and removes exactly what only the old one had |
| `Subscription.EntryRestoresExactness` | clients/bevy_client/src/net/plugin.rs:449-463 | A scene entry makes the subscription exact whatever came before |
| `Subscription.StraySubscriptionStays` | clients/bevy_client/src/net/plugin.rs:352-363 | A chunk the server holds outside the window stays held through every event but a new session or a drop by the server, until a window has held it again |
| `Subscription.NextCoveredIff` | clients/bevy_client/src/net/plugin.rs:333-380 | One event leaves the whole window held exactly when it is not the server dropping a chunk of it |
| `Subscription.InvalidationHealsIff` | clients/bevy_client/src/voxel/authority_plugin.rs:255-266 | After such a drop its invalidation makes the client subscribe the chunk again exactly when no snapshot of it was in flight |
| `Subscription.RenewalRestoresCoverage` | clients/bevy_client/src/net/plugin.rs:115-136 | Failing that, the next keepalive in the same tile restores the whole window |
| `Subscription.OneResyncPerFork` | clients/bevy_client/src/voxel/authority_plugin.rs:242-254 | Over every run, between two requests for the same chunk a snapshot or delta of it was applied, however many forked deltas and invalidations come |
| `Subscription.LateDeltaStrays` | clients/bevy_client/src/voxel/authority_plugin.rs:237-249 | A failing case: a concrete run in which a delta arrives for a chunk the player has left, and the server ends with the window and that chunk |
| `Subscription.GatedInvalidationLeavesHole` | clients/bevy_client/src/voxel/authority_plugin.rs:263-266 | Another: a concrete run in which an invalidation is not answered because a snapshot is in flight, and the server ends with the window less that chunk |
| `Subscription.InboxIsItsMessages` | clients/bevy_client/src/voxel/authority_plugin.rs:277-287 | Draining a whole inbox and asking once at the end, sorted and without repetition, leaves client and server where the messages one by one would |
| `Subscription.FlightEnds` | clients/bevy_client/src/voxel/authority_plugin.rs:245-266 | A chunk is in flight after an event exactly when the event asks for it, or it was and no snapshot or delta of it was applied |
| `Freshness.SubscriptionsHonest` | clients/bevy_client/src/net/plugin.rs:299-330 | Every window subscribed is the player's, and claims all that is stored of it, at its versions, and nothing else; re-centring evicts nothing that was claimed |
| `Freshness.StoreIsLastHeard` | clients/bevy_client/src/voxel/authority.rs:251-306 | Over every run a stored chunk is at the version of the last message of it that applied, or the cache's |
| `Freshness.DeltasChain` | clients/bevy_client/src/voxel/authority.rs:268-277 | A delta is applied only to the version it was made from |
| `Freshness.NewsIsTaken` | clients/bevy_client/src/voxel/authority.rs:251-299 | Every well-formed snapshot, and delta of the version in store, is applied and ends the flight of its chunk |
| `Freshness.KeepaliveRestores` | clients/bevy_client/src/net/plugin.rs:65-136 | While the player stays in its tile, every keepalive after the first joined frame leaves the server with the whole window, whatever it had dropped |
| `Freshness.FreshWindowWaits` | clients/bevy_client/src/net/plugin.rs:65-75 | After a scene entry or a new tile the first frame renews nothing |
| `Freshness.FrameRestoresIff` | clients/bevy_client/src/net/plugin.rs:90-188 | A frame brings back what the server had dropped exactly when joined and a keepalive is due in an unchanged tile, or a retry is due, nothing is in store and fewer than 40 were sent |
| `Freshness.RetriesGiveUp` | clients/bevy_client/src/net/plugin.rs:140-188 | While no terrain comes the window is subscribed again on every retry until 40 were sent, and then no more |
| `Freshness.TerrainRestoresRetries` | clients/bevy_client/src/net/plugin.rs:141-150 | Terrain in store restores all retries on the next due one |
| `ChunkStore.EvictionKeepsStoreInside` | clients/bevy_client/src/net/plugin.rs:343-354 | Re-centring cuts the store to the new window and leaves every retained version alone |
| `ChunkStore.EnterEvictsNothing` | clients/bevy_client/src/net/plugin.rs:449-463 | A scene entry leaves the store as it is |
| `ChunkStore.AlwaysStockedIffOrderly` | clients/bevy_client/src/net/plugin.rs:333-380 | From any cache on disk, once the player has a place the store stays inside the player's window throughout a run exactly when every snapshot applied is of the window and every window is opened with nothing in store that it lacks |
| `ChunkStore.NextStockedIff` | clients/bevy_client/src/net/plugin.rs:431-497 | One event leaves an inside store inside exactly under that condition |
| `ChunkStore.StockedIsBounded` | clients/bevy_client/src/net/plugin.rs:205-207 | A store inside the window holds at most 9261 chunks |
| `ChunkStore.ForeignChunkStays` | clients/bevy_client/src/net/plugin.rs:343-354 | A stored chunk outside the window is removed by nothing but its invalidation until a window has held it again |
| `ChunkStore.LateArrivalStrays` | clients/bevy_client/src/net/plugin.rs:343-354 | The first failing case: after any run, a snapshot that arrives for a chunk the player has just left behind stays in store outside the window |
| `ChunkStore.LateArrivalExample` | clients/bevy_client/src/net/plugin.rs:343-354 | A concrete such run: subscribed, left behind, then arrived |
| `ChunkStore.EntryElsewhereStrays` | clients/bevy_client/src/net/plugin.rs:449-463 | The second: after any run, a scene entered elsewhere keeps a stored chunk that its window lacks |
| `ChunkStore.EntryElsewhereExample` | clients/bevy_client/src/voxel/persistence.rs:63-82 | A concrete such run: a chunk of home in the cache on disk, and the first scene entered away from it |
| `Subscription.VoxelWindow.SendWindowSubscription` | clients/bevy_client/src/net/plugin.rs:316-330 | One subscription with the known versions of the window |
| `Subscription.VoxelWindow.Recenter` | clients/bevy_client/src/net/plugin.rs:333-380 | Subscribe, evict, unsubscribe, record |
| `Subscription.VoxelWindow.DropOutside` | clients/bevy_client/src/net/plugin.rs:343-365 | Evicts and unsubscribes what falls out, and nothing for an unchanged centre |
| `Subscription.VoxelWindow.Evict` | clients/bevy_client/src/net/plugin.rs:348-350 | Removes exactly the dropped chunks |
| `Subscription.VoxelWindow.Enter` | clients/bevy_client/src/net/plugin.rs:449-463 | The scene-entry arm |
| `Subscription.VoxelWindow.Move` | clients/bevy_client/src/net/plugin.rs:486-497 | The position arm: nothing inside the same tile |
| `Subscription.VoxelWindow.TickKeepalive` | clients/bevy_client/src/net/plugin.rs:65-75 | Due only when the tile is unchanged and the timer fired; a new tile restarts it |
| `Subscription.VoxelWindow.RetryFrame` | clients/bevy_client/src/net/plugin.rs:90-188 | The retry system: keepalive, reset on terrain, bounded retries |
| `Subscription.VoxelWindow.constructor` | clients/bevy_client/src/voxel/persistence.rs:63-82 | Nothing subscribed or in flight, and the store of the cache on disk |
| `Subscription.VoxelWindow.IngestOne` | clients/bevy_client/src/voxel/authority.rs:251-306 | Applies a snapshot, applies a delta whose base is the stored version, or drops an invalidated chunk; a chunk to be fetched again is reported once while in flight |
| `Subscription.VoxelWindow.IngestAll` | clients/bevy_client/src/voxel/authority_plugin.rs:328-350 | Drains the inbox, then subscribes with radius 0 each chunk to be fetched again, in order and once |
| `Framing.TakeFrameInverts` | clients/bevy_client/src/protocol.rs:211-218 | A frame is taken back whole exactly when its payload length fits the u32 prefix |
| `Framing.ProperPrefixWaits` | clients/bevy_client/src/protocol.rs:415-429 | A proper prefix of a frame is never taken |
| `Framing.DrainAppend` | clients/bevy_client/src/net/thread.rs:380-394 | Draining early changes nothing: later bytes complete what was left over |
| `Framing.EndToEnd` | clients/bevy_client/src/protocol.rs:416-429 | Draining any first part of a stream of frames yields exactly the frames that are whole in it, in order, and leaves a proper prefix of the next |
| `Framing.DeliveredIff` | clients/bevy_client/src/net/thread.rs:380-434 | Over every session of ticks the frames handed to the decoder are, in order, a first part of the whole frames received, and all of them exactly when no tick ends the session with frames to lose: a read that ends it while some wait, or a frame that drops it with others behind |
| `Framing.TickEffect` | clients/bevy_client/src/net/thread.rs:380-434 | One tick of a session that delivered everything so far: what it loses, and when |
| `Framing.TickReads` | clients/bevy_client/src/net/thread.rs:380-434 | A tick reads the data before the first answer that would block, failed or closed the connection, among its first 256, in order; it ends the session exactly when that answer failed or closed, or when it drains a frame that drops it |
| `Framing.OrdinarySessionLives` | clients/bevy_client/src/net/thread.rs:380-396 | A session whose ticks meet no failure, close or fatal frame lives through reads that would block and has handed out every whole frame it received |
| `Framing.GatherExact` | clients/bevy_client/src/net/thread.rs:380-392 | For any limit on the reads: what they bring and whether they end the session |
| `Framing.SessionEndToEnd` | clients/bevy_client/src/net/thread.rs:380-434 | A session that receives part of a stream of frames, in any reads and ticks, delivers a first part of its payloads, all that arrived whole exactly under that condition; while live it buffers a proper prefix of the next frame |
| `Framing.ClosingTickLosesFrame` | clients/bevy_client/src/net/thread.rs:380-392 | The failing case: a frame and the end of the connection read in one tick; the frame arrived whole and is never delivered |
| `Framing.FrameReader.ReadAvailable` | clients/bevy_client/src/net/thread.rs:380-392 | Appends what at most 256 reads bring, up to one that blocks or ends the session |
| `Framing.FrameReader.Take` | clients/bevy_client/src/protocol.rs:416-429 | Takes the first complete frame off the buffer, or nothing |
| `Framing.FrameReader.DrainBuffer` | clients/bevy_client/src/net/thread.rs:394-434 | Hands out frames until none is complete or one drops the session |
| `Framing.FrameReader.RunTick` | clients/bevy_client/src/net/thread.rs:380-434 | Reads, then drains once; a read that ends the session returns before draining |
| `Framing.RunSession` | clients/bevy_client/src/net/thread.rs:312-434 | The ticks of a session, one after the other |
| `Transport.TcpStream.SendTcpBytes` | clients/bevy_client/src/net/transport.rs:55-95 | For every schedule of short writes, WouldBlock and Interrupted: the wire gets a prefix of the bytes, all of them exactly when some first part of the schedule takes them all before an answer that ends the send; it stops at the first such answer (closed, broken, or blocked after 21 sleeps) and fails for it; sleeps and writes are those of the answers |
| `Transport.TcpStream.HandleAnswer` | clients/bevy_client/src/net/transport.rs:60-93 | One write call: progress resets the wait, WouldBlock sleeps or gives up, Interrupted repeats |
| `Transport.TcpStream.SendMessages` | clients/bevy_client/src/net/transport.rs:34-37 | Messages are sent one after the other up to the first whose schedule cannot take it; the wire carries the frames of those and at most a proper part of that one |
| `Transport.WireDrainsToSent` | clients/bevy_client/src/net/transport.rs:55-95 | What drains off such a wire is exactly the payloads sent whole |
| `Transport.SentIsDelivered` | clients/bevy_client/src/net/thread.rs:380-434 | A session that reads from such a wire delivers a first part of what was sent whole and, once it has read it all, everything exactly when no tick ended it with frames to lose |
| `Transport.Exchange` | clients/bevy_client/src/net/transport.rs:34-37 | Sender and receiver run together, over every schedule of writes and every split into reads and ticks |
| `Transport.WaitBudget` | clients/bevy_client/src/net/transport.rs:44-53 | The wait budget is used up after exactly 21 waits, 1023 ms in all |
| `Transport.WaitedClosedForm` | clients/bevy_client/src/net/transport.rs:74-89 | From the seventh wait on the backoff is 64 ms, and the total has a closed form |
| `Transport.PauseBetweenBytesBounded` | clients/bevy_client/src/net/transport.rs:60-93 | Between two bytes of progress the sender sleeps at most 21 times and 1023 ms in total |
| `Payload.ClientInvertsIff` | clients/bevy_client/src/protocol.rs:431-525 | Every non-voxel client message reads back from its encoding exactly when its strings are shorter than 65536 bytes |
| `Payload.ClientEncodingInjective` | clients/bevy_client/src/protocol.rs:431-525 | Different messages with such strings never share an encoding |
| `Payload.ReadWritten` | clients/bevy_client/src/protocol.rs:609-619 | A string written anywhere reads back exactly when its length fits the u16 prefix |
| `Payload.ReadPacked` | clients/bevy_client/src/protocol.rs:560-607 | Every packed big-endian field reads back at its offset, whatever follows |
| `Payload.FieldsLaidOut` | clients/bevy_client/src/protocol.rs:434-516 | The offsets of each client layout are the running sums of its field widths |
| `ClientEncoder.EncodeClientPayload` | clients/bevy_client/src/protocol.rs:432-525 | The appending encoder produces the layout |
| `ClientEncoder.EncodeClientFrame` | clients/bevy_client/src/protocol.rs:212-218 | Length prefix, then payload |
| `ClientEncoder.PayloadWriter.Extend` | clients/bevy_client/src/protocol.rs:439-440 | Appending a big-endian field extends the layout by it |
| `ClientEncoder.PayloadWriter.WriteText` | clients/bevy_client/src/protocol.rs:539-543 | Appending a string with its u16 length extends the layout by it |
| `ClientEncoder.SendableFitsFrame` | clients/bevy_client/src/protocol.rs:215-215 | A message with such strings always fits the frame length prefix |
| `ClientEncoder.MessagesEndToEnd` | clients/bevy_client/src/net/thread.rs:394-396 | From messages to messages: encoded, framed, sent over any schedule of writes, read in any reads and ticks, drained and decoded, they come back in order; all that were sent whole exactly when the receiving session loses no frame at its end |
| `Bytes.ValueOfBE` | clients/bevy_client/src/protocol.rs:580-585 | Reading the low n bytes of v yields v modulo 256^n: the truncating cast |
| `Bytes.BEOfValue` | clients/bevy_client/src/protocol.rs:580-585 | Every n bytes are the encoding of their value |
| `ServerPayload.ServerInverts` | clients/bevy_client/src/protocol.rs:220-413 | Every non-voxel server message, a successful fast-lane result without ticket included, reads back from its documented big-endian layout exactly when its strings are shorter than 65536 bytes |
| `ServerPayload.ExpressibleIff` | clients/bevy_client/src/protocol.rs:220-413 | The messages that some payload decodes to are exactly those with values in range, the pairings the format can express and short strings |
| `ServerPayload.DecodedFits` | clients/bevy_client/src/protocol.rs:220-413 | Whatever a payload decodes to has values in range and such pairings |
| `ServerPayload.FixedLayoutAcceptedIff` | clients/bevy_client/src/protocol.rs:229-403 | A fixed-layout body decodes exactly when it has the stated least length: no read after the check can fail |
| `ServerPayload.TrailingBytesIgnored` | clients/bevy_client/src/protocol.rs:229-403 | Bytes after a complete fixed-layout body change nothing |
| `ServerPayload.ServerFieldsLaidOut` | clients/bevy_client/src/protocol.rs:229-403 | The offsets the decoder reads are the running sums of the field widths |
| `WireFormat.DecodedIff` | clients/bevy_client/src/protocol.rs:220-413 | A payload decodes to a message exactly when its first byte is that message's opcode and its body has the fields, big-endian, at their documented places |
| `WireFormat.EncodedAsDocumented` | clients/bevy_client/src/protocol.rs:432-525 | Every non-voxel client message is encoded as documented, field by field, to the last byte |
| `WireFormat.BigEndian` | clients/bevy_client/src/protocol.rs:439-440 | Byte k of n is the value divided by 256^(n-1-k), modulo 256 |
| `Reconnect.EventsFollowProtocol` | clients/bevy_client/src/net/thread.rs:96-163 | For every sequence of session outcomes: Reconnecting numbers between Disconnected events are 1, 2, ..., at most 30, and ReconnectFailed comes last, right after Reconnecting(30) |
| `Reconnect.GivesUpIff` | clients/bevy_client/src/net/thread.rs:112-126 | Unless stopped by the application, the driver gives up exactly when 31 sessions in a row go by of which none but the first joined; so it ends once joins stop |
| `Reconnect.FailingRunSleeps` | clients/bevy_client/src/net/thread.rs:122-130 | A run that never joins sleeps 132904 ms in all before giving up |
| `Reconnect.AttemptCounts` | clients/bevy_client/src/net/thread.rs:112-123 | The attempt number is the number of sessions since the last one that joined, that one included |
| `Reconnect.GoesOnIff` | clients/bevy_client/src/net/thread.rs:96-163 | The driver goes on exactly as long as the application has not stopped it and 31 rounds in a row without a join after the first have not gone by |
| `Reconnect.QuittingEnds` | clients/bevy_client/src/net/thread.rs:96-163 | A shutdown, in a session or in the wait after it, ends the driver: no event and no sleep comes of it or after it but for the end of the session and giving up |
| `Reconnect.BackoffMonotone` | clients/bevy_client/src/session/reconnect.rs:26-34 | The schedule starts at 500 ms, never shrinks, and is 5 s exactly from the sixth attempt on |
| `Reconnect.TotalBackoffClosedForm` | clients/bevy_client/src/session/reconnect.rs:26-34 | Total backoff in closed form |
| `Reconnect.NetworkLoop` | clients/bevy_client/src/net/thread.rs:73-163 | The loop computes the driver's events, attempts and sleeps; a blank token fails at once |
| `Reconnect.DrainCommands` | clients/bevy_client/src/net/thread.rs:174-181 | Stops on a Shutdown among the waiting commands or a closed channel |
| `Reconnect.SleepWithShutdown` | clients/bevy_client/src/net/thread.rs:171-188 | Sleeps the full time or stops at the first poll with a reason to, within total/100 + 2 polls at most 100 ms apart but for the scheduler's overshoot |
| `History.HistoryIsRange` | clients/bevy_client/src/sim/history.rs:26-68 | With capacity at least 1 and acks that do not run ahead: after any mix of pushes and acks the buffer is exactly the range (max(largest ack, newest - capacity), newest], and every pushed frame is buffered, acked away or counted as dropped |
| `History.PrefixPopIsFilterIff` | clients/bevy_client/src/sim/history.rs:52-68 | Popping a prefix equals filtering exactly when no kept element precedes a dropped one |
| `History.SuffixPopIsFilterIff` | clients/bevy_client/src/sim/history.rs:168-180 | Popping a suffix equals filtering exactly when no kept element follows a dropped one |
| `History.SortedPopsAreFilters` | clients/bevy_client/src/sim/history.rs:64-68 | In nondecreasing seq order both pops are filters by seq |
| `History.PushAllKeepsNewest` | clients/bevy_client/src/sim/history.rs:26-33 | With capacity at least 1, pushing keeps the newest elements; with capacity 0 it keeps everything |
| `History.BoundedIff` | clients/bevy_client/src/sim/history.rs:26-33 | The buffer is bounded by its capacity exactly when the capacity is not 0 |
| `History.EvictionIsUnacked` | clients/bevy_client/src/sim/history.rs:42-45 | Overflow only ever loses inputs that were not acknowledged |
| `History.InputHistory.PushFrame` | clients/bevy_client/src/sim/history.rs:27-33 | Evicts the oldest when full and counts it, saturating |
| `History.InputHistory.DropThroughSeq` | clients/bevy_client/src/sim/history.rs:64-68 | Pops acknowledged frames off the front |
| `History.InputHistory.DropThroughTick` | clients/bevy_client/src/sim/history.rs:52-56 | The same by tick |
| `History.InputHistory.RetainRecent` | clients/bevy_client/src/sim/history.rs:92-96 | Keeps exactly the newest frames |
| `History.PredictedHistory.PushState` | clients/bevy_client/src/sim/history.rs:133-139 | Evicts the oldest when full and counts it, saturating |
| `History.PredictedHistory.TruncateAfterSeq` | clients/bevy_client/src/sim/history.rs:176-180 | Pops newer states off the back |
| `History.PredictedHistory.TruncateAfter` | clients/bevy_client/src/sim/history.rs:169-173 | The same by tick |
| `MemoryGuard.RestartsStayApart` | deploy/qinglan-memory-guard.py:176-216 | Any two executed restarts are at least 3600 s apart through every crash point, raised exception, failing handler and backward clock |
| `MemoryGuard.RunOnceKeepsAttempt` | deploy/qinglan-memory-guard.py:197-202 | The attempt is on disk before the command runs and is never moved back |
| `MemoryGuard.HighSinceMeansRun` | deploy/qinglan-memory-guard.py:74-83 | The persisted high_since is the time of the first sample of the maximal run of same-epoch samples above 3900 MiB with gaps in [0, 90] that ends the history and crosses no restart or failure |
| `MemoryGuard.RestartDecidedIff` | deploy/qinglan-memory-guard.py:84-87 | A restart for memory is decided exactly when that run, this sample included, has lasted 180 s, no daily restart is due and the cooldown is over |
| `MemoryGuard.DecisionIff` | deploy/qinglan-memory-guard.py:84-87 | A daily restart is due exactly in its minute and not yet noted for that day; a restart of either kind is decided exactly when there is a reason and 3600 s have passed since the last attempt |
| `MemoryGuard.RestartExecutedIff` | deploy/qinglan-memory-guard.py:197-203 | The restart command runs exactly when a restart is decided and the run gets as far |
| `MemoryGuard.DailyOncePerDay` | deploy/qinglan-memory-guard.py:176-216 | Once a daily restart was decided and saved, no later run of that day decides another, through crashes, failures and cooldowns |
| `MemoryGuard.CorruptStaysPut` | deploy/qinglan-memory-guard.py:163-216 | A state file that does not parse is never overwritten, and nothing is restarted on it |
| `MemoryGuard.StateAgrees` | deploy/qinglan-memory-guard.py:176-216 | After any sequence of runs, completed or cut short, the state on disk agrees with the history of persisted samples |
| `MemoryGuard.StartIsUnique` | deploy/qinglan-memory-guard.py:76-83 | A history ends with at most one maximal high run |
| `MemoryGuard.Guard.GuardOnce` | deploy/qinglan-memory-guard.py:163-216 | One run leaves on disk, and executes, exactly what its crash point allows, whichever alerts add saves of their own |
| `MemoryGuard.Guard.Alert` | deploy/qinglan-memory-guard.py:96-102 | A due alert saves the state it is given; otherwise it leaves the file alone |
| `MemoryGuard.Guard.Save` | deploy/qinglan-memory-guard.py:90-93 | The state file is replaced as a whole |
| `MemoryGuard.Guard.Handle` | deploy/qinglan-memory-guard.py:208-216 | A failure breaks the high run and keeps the cooldown; a file that did not parse is never overwritten |
| `MemoryGuard.RotateLogs` | deploy/qinglan-memory-guard.py:48-53 | Rotation keeps exactly the longest suffix of the log files younger than 14 days and at most 16 MiB in all |
| `Evidence.AuthorityEvents` | scripts/npc_dialogue/verify.py:12-31 | Accepts exactly the sound evidence (accepted keys are the spoken keys, one acceptance each, rows of a key agree, receivers distinct and as many as declared), and returns the events it describes, in the order of their first speech and with their receivers in order |
| `Evidence.CollectSpeechRow` | scripts/npc_dialogue/verify.py:16-23 | A speech row is refused exactly when it contradicts the rows before it |
| `Evidence.CollectResultRow` | scripts/npc_dialogue/verify.py:24-27 | Another row is refused exactly when it accepts a key twice |
| `Evidence.Compare` | scripts/npc_dialogue/verify.py:28-31 | The final comparison of the dictionaries is completeness of the evidence |
| `Evidence.Indexed` | scripts/npc_dialogue/verify.py:38-44 | A dictionary by key exactly when no key repeats |
| `Evidence.CheckActor` | scripts/npc_dialogue/verify.py:52-58 | An actor passes exactly when it heard the events that list it, each once, unchanged, and nothing else |
| `Evidence.Delivery` | scripts/npc_dialogue/verify.py:47-68 | Accepts exactly when every actor passes and the two distinct NPCs spoke both ways in one conversation |
| `Evidence.HeldConversation` | scripts/npc_dialogue/verify.py:61-66 | The intersection of the two conversation sets is nonempty exactly when a two-way conversation exists |
| `Evidence.AuthorityIgnoresOrder` | scripts/npc_dialogue/verify.py:12-31 | Permuting the rows does not change the authority verdict |
| `Evidence.DeliveryIgnoresOrder` | scripts/npc_dialogue/verify.py:47-68 | Permuting the authority rows and what each actor received does not change the delivery verdict, accepting or not |
| `DialogueTurns.UtteranceKeepsSound` | scripts/npc_dialogue/verify.py:12-31 | Sound evidence stays sound with one more utterance in any turn of any conversation that has none yet, heard by one receiver and accepted with one recipient |
| `DialogueTurns.UnacceptedIsUnsound` | scripts/npc_dialogue/verify.py:28-31 | And with one that no result accepts, or that is accepted but not heard, it is not sound |
| `DialogueTurns.IgnoredRowsDoNotMatter` | scripts/npc_dialogue/verify.py:24-27 | Other rows, refused results and acceptances with no recipients do not change the verdict |

## Left out

- Budget rows: start and finish times are not modelled, and row ids are insertion positions (rows are never deleted).
- Budget integers are unbounded; a number SQLite cannot bind ends the thread without a write, which is the thread-death step.
- BudgetProxy.Honest is an assumption, not a result: each request is billed at most once, for its counted input and at most its limit, and a usable usage figure in a reply is that bill; `BudgetProxy.BrokenContractOverspends` shows it is needed.
- HTTP handler: request parsing, status codes and bodies are left out; its two ways of closing the gate are the step CloseHere.
- Runtime ids and edit numbers are unbounded naturals; the overflow of the u64 and u32 counters is not modelled.
- Local prediction and reconciliation (`sim/reconcile.rs`, `movement_core`) are not part of this model; log, status and transport events are one Notice.
- Chat, skill and subscribe commands are one command that takes an id and sends one TCP message, as they do not differ in state.
- ClientRuntimeObject.SortedByAge: the library sort is modelled as repeatedly taking an oldest entry, with entries of one age in any order.
- FastLaneRates.FastLaneRateBound: speaks of runs without early joins, because the enter-scene id stays valid after its reply and a second reply forgets the cooldown; `FastLaneRates.SendsBetween` has no such condition.
- StaleFilters.WatermarkIgnoresOrder: speaks of one scene session; joining resets the watermarks.
- Heartbeats, which carry no state, and the emission of events to the application.
- The resend loop for the first authentication frame in `run_session`: it resends a whole frame after a possibly partial write, so framing is stated for the frames after it.
- Framing.DeliveredIff: a frame counts as delivered when it is handed to the decoder; one that fails to decode is only logged, and a frame whose handling drops the session is an input of the tick.
- Window coordinates are integers; `Window.WindowFitsI32` gives the exact range on which the code's i32 arithmetic agrees.
- Positions are reals: floating-point rounding before the floor is not modelled, and the saturating cast to i32 is.
- Bevy timers are booleans saying what is due; the retry interval ramp is left out.
- Subscription.SubscriptionExactIff: commands reach the server the moment an event is handled. In the code they pass through a channel, are discarded between sessions (`net/thread.rs:204-215`) and are ignored outside a scene (`net/runtime.rs:282-287`), so a position event left over from an earlier session, handled after the new session joined and before its scene-entry event, leaves an extra window on the server.
- Whether and when the server ends a subscription by itself is an input of the subscription model (ServerDropped).
- The debug commands that subscribe or unsubscribe by hand (`stdio/plugin.rs`) and the headless runner, which drive the same bridge.
- Voxel bodies are opaque bytes handed to a codec (`voxel/wire.rs`) that is not part of this model; of the chunk store (`voxel/authority.rs`) the versions are modelled, the cells, objects, fields and the saving of the cache are not.
- UTF-8 validity is an uninterpreted predicate, floating-point numbers are their bit patterns.
- Transport.TcpStream.SendTcpBytes: the schedule of socket answers is finite, and a send that outlives it is reported as Unfinished.
- Reconnect: credentials rotation and its log lines are left out; 1.6^k is an exact rational, truncated to whole milliseconds.
- `proactive_refresh_due`, the predicted-state lookups, `is_at_high_water` and `clear` are single expressions.
- Memory guard: the mail itself, the cooldown map of alerts (whether one is due is an input), readiness polling, docker and the warning level are left out; times are real numbers.
- MemoryGuard.HighSinceMeansRun: starts from no state file; a file that does not parse is kept untouched by every run.
- Evidence: `npc_ready`, `player_request` and the listing of NPC-to-NPC keys are left out; a role without received evidence is a refusal.
- User interface, camera, effects, login, observers, experiment drivers and service wiring.
