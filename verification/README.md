# Verification of the trading account service

This project models the parts of the trading account service where money and orders can go wrong, and proves what they keep
over every run. An order arrives through a shared-memory ring, is booked, passes risk rules, reserves cash, and is routed
downstream or sliced into child orders by an execution session; a gateway hands it to a broker adapter; broker responses
settle it; and after a restart the book is rebuilt from the shared pool.

`dafny verify dfyconfig.toml` checks everything.

## How it is built

Components that the service updates in place are classes here, with the same fields and loops. Each of their methods is proved
against a function on values (the `*Model` modules), and the results about whole runs are lemmas about those functions. Runs
are sequences of events whose content is arbitrary: fills of any size, cancels, rejections, late responses, what the router,
the active strategy, the market, the adapter and the clock answer. Shared-memory protocols are step systems: a program counter
per thread, multi-word copies split into one step per word, and any interleaving.

| file | what it models |
|---|---|
| `Integers.dfy`, `Sums.dfy`, `OrderTypes.dfy` | machine integers, sums over ledgers, the order vocabulary |
| `TwapPlan.dfy` | the slice plan of a TWAP order |
| `ExecutionModel.dfy`, `ExecutionConservation.dfy`, `ExecutionFigures.dfy`, `ExecutionPacing.dfy`, `ExecutionDecisions.dfy`, `ExecutionSessions.dfy` | execution sessions: what callbacks do, that volume is conserved, that reports are counted, how children are released, when a tick sends what at which price, the session objects |
| `SessionActions.dfy`, `ExecutionEngine.dfy` | what a session does to the order book all share, and the engine that starts, ticks and drops the session objects |
| `SpscQueue.dfy`, `OrderSlot.dfy`, `SlotAllocator.dfy` | the ring, the sequence-locked order slot, the lock-free counters |
| `SecurityIdentity.dfy` | internal security keys |
| `OrderBookModel.dfy`, `OrderEffects.dfy`, `OrderFamilies.dfy`, `OrderBooks.dfy` | the order book as a value, what it shows of an order after each operation and over whole runs, its parents and children over whole runs, and the book as slots with indexes |
| `OrderRouter.dfy` | routing of internal orders and the cancel fan-out |
| `FundRow.dfy`, `CashNeutral.dfy`, `EventLoopModel.dfy`, `CashFlows.dfy`, `Archiving.dfy`, `EventLoop.dfy` | the fund row, the book operations that move no cash, the event loop's handling of cash, how much each request and report moves, and the archiving of ended orders |
| `OrderRecovery.dfy` | restart recovery |
| `GatewayModel.dfy`, `Gateway.dfy` | the gateway's retry queue |
| `RateLimiter.dfy` | the order rate limit |
| `ExecutionExceptions.dfy`, `CashExceptions.dfy` | runs from the start in which a natural expectation fails |

## What the code does not promise

Where a natural expectation fails, the code is kept as it is, a lemma gives an input that shows it, and another one the exact
condition.

- A child's traded volume is added without overflow check (`src/execution/execution_engine.cpp:318-319`). A fill that overflows
  64 bits moves it backwards and can open a fully traded child again. Conservation survives this; two children of a FixedSize
  session can then work at once (`ExecutionExceptions.TwoChildrenCanWork`), and a TWAP child under a slice that has not been
  started (`ExecutionExceptions.SlicesCanOverlap`). The two run theorems, `ExecutionPacing.OneChildAtATime` and
  `ExecutionPacing.SlicesNeverOverlap`, hold exactly for the runs without such a reopening.
- The rounding term of the TWAP plan can wrap (`src/execution/execution_engine.cpp:184-185`), and then the plan has a single
  slice of the whole volume (`TwapPlan.HugeVolumeIsOneSlice`). Slices exceed the maximum child volume exactly when the child
  count was cut off.
- A session whose active submission is refused goes on to a passive one and may send a child after it has failed
  (`src/execution/execution_engine.cpp:796-799`, `ExecutionExceptions.FailedSessionCanSend`).
- An archived child stays listed under its parent (`src/order/order_book.cpp:372-423`). If its id is booked again under that
  parent, the id is listed twice and the parent's figures count it twice (`OrderFamilies.ReusedIdIsCountedTwice`). An
  addition keeps the lists free of repetitions, second parents and parents listed under themselves exactly if the listed id was
  no child's before and is not its own parent's (`OrderFamilies.AddKeepsListsExactly`).
- A buy fill that costs more than is left of its order's reservation takes the rest from the cash reserved for other orders
  (`src/core/event_loop.cpp:152-171`), which then cannot be released (`CashExceptions.OverdraftTakesFromOthers`); the difference
  is given exactly.
- A cancel sent by a user is booked under its own id before it is routed, and the router then refuses that id as a duplicate
  (`src/core/event_loop.cpp:350`, `src/order/order_router.cpp:108`, `src/order/order_router.cpp:168`). For an order without
  children it never goes downstream (`EventLoopModel.UserCancelNeverGoesDown`); for a parent every live child but the first gets
  its cancel, and the parent is marked as failed (`EventLoopModel.UserCancelMissesTheFirstChild`). A session with one live
  child does not notice such a cancel and goes on (`ExecutionEngine.UserCancelIsSeenExactly`).
- A sale booked above the market value leaves total assets below what the row is worth (`FundRow.UncoveredSaleUnderstates`).
- The rate limit lets up to twice the limit minus one orders through within one second; the bound is reached for every limit
  (`RateLimiter.BoundIsReached`). Its 32-bit counter wraps: a window the rule opens lets no more than the limit through exactly
  if it gets fewer than 2^32 checks (`RateLimiter.WindowBoundExactly`, `RateLimiter.WrapLetsMoreThrough`).
- Recovered orders come back without their reservations (`src/order/order_recovery.cpp:109-118`,
  `CashExceptions.RestartLosesReservation`): cash that was frozen when the service stopped is given back by no covered run, one
  whose fills stay within their orders' reservations.
- The 32-bit id counter wraps after the last id (`src/order/order_book.cpp:483`): ids are unique and above every completed floor
  exactly until that id is issued; zero comes next (`SlotAllocator.LastIdIsFollowedByZero`).

## Model

| member | source | states |
|---|---|---|
| TwapPlan.BuildSlicePlan | src/execution/execution_engine.cpp:173-207 | a plan exists unless the volume or the child limit is zero; its slices are positive, differ by at most one, add up to the volume, and stay within a clip exactly if the count was not cut off |
| TwapPlan.FillSlices | src/execution/execution_engine.cpp:194-205 | the filling loop deals the volume out evenly, the longer slices first |
| TwapPlan.PlannedCountIsCeiling | src/execution/execution_engine.cpp:184-188 | the number of slices is min(ceil(volume / clip), limit) exactly when the rounding term does not wrap, or one slice is called for anyway |
| TwapPlan.WrappedCountIsOne | src/execution/execution_engine.cpp:184-188 | once the rounding term wraps there is a single slice |
| TwapPlan.HugeVolumeIsOneSlice | src/execution/execution_engine.cpp:184-188 | 2^64 - 1 in clips of 2 with up to 100 children is planned as one slice, although far more are called for |
| TwapPlan.SlicesWithinClip | src/execution/execution_engine.cpp:194-205 | as many slices as clips means no slice above a clip |
| TwapPlan.CutOffExceedsClip | src/execution/execution_engine.cpp:187-205 | fewer slices than clips means a first slice above a clip |
| TwapPlan.ClipIsConfigured | src/execution/execution_engine.cpp:96-101 | a clip is the configured maximum if that is not zero, else the minimum if that is not zero, else one |
| ExecutionConservation.EveryReachableSessionIsBalanced | src/execution/execution_engine.cpp:303-338 | in every state any FixedSize, Iceberg or TWAP session reaches, and in every view it publishes, traded + working + schedulable is exactly the target and no volume total saturates |
| ExecutionConservation.ConservingIsBalanced | src/execution/execution_engine.cpp:477-533 | when children hold at most the target, the saturating totals are exact and the three volumes add up to the target |
| ExecutionConservation.FillKeepsHeld | src/execution/execution_engine.cpp:317-322 | a fill of any reported size leaves an open child holding its entrusted volume |
| ExecutionConservation.FillNeverGoesBackExactly | src/execution/execution_engine.cpp:318-319 | a fill lowers a child's traded volume exactly when the addition overflows |
| ExecutionConservation.EndingReleases | src/execution/execution_engine.cpp:331-333 | finishing or failing a child releases everything it has not traded, and no more is cancelled than was left |
| ExecutionConservation.RespondKeepsHeld | src/execution/execution_engine.cpp:303-338 | any response leaves a ledger consistent and holding no more than before |
| ExecutionConservation.ResponseConserves | src/execution/execution_engine.cpp:303-338 | a response, late or not, keeps the session's children within its target |
| ExecutionConservation.RefreshConserves | src/execution/execution_engine.cpp:437-460 | sensing cancels touches no volume |
| ExecutionConservation.SubmitConserves | src/execution/execution_engine.cpp:576-614 | a child within the schedulable volume never overcommits the parent, routed or not |
| ExecutionConservation.ActiveAttemptConserves | src/execution/execution_engine.cpp:617-637 | an active submission is positive, within the budget, and leaves the ledgers alone when nothing is sent |
| ExecutionConservation.SequentialTickConserves | src/execution/execution_engine.cpp:754-801 | a FixedSize or Iceberg tick keeps children within the target, whatever the surroundings answer |
| ExecutionConservation.TwapTickConserves | src/execution/execution_engine.cpp:849-909 | a TWAP tick keeps children within the target |
| ExecutionConservation.SequentialRunConserves | src/execution/execution_engine.cpp:739-805 | conservation over any run of a sequential session |
| ExecutionConservation.TwapRunConserves | src/execution/execution_engine.cpp:830-948 | conservation over any run of a TWAP session |
| ExecutionConservation.TargetIsFixed | src/execution/execution_engine.cpp:830-948 | target, price, plan and start time never change |
| ExecutionFigures.ResponseIsCounted | src/execution/execution_engine.cpp:303-338 | a response to an open child adds the reported volume up to the entrusted one, and value and fee up to 64 bits, to that child alone; the child stays open with the rest, unless it is reported finished or failed, and then the rest, or what was reported of it, is cancelled |
| ExecutionFigures.EveryReportIsCounted | src/execution/execution_engine.cpp:303-338 | over every run of any session from its start each child shows exactly the sums of what was reported on it while it was open, as long as no report overflows its volume |
| ExecutionPacing.ResponseKeepsOneWorkingExactly | src/execution/execution_engine.cpp:303-338 | a response leaves at most one child working exactly if it does not reopen a traded child while another works |
| ExecutionPacing.SequentialTickKeepsOneWorking | src/execution/execution_engine.cpp:754-801 | a tick never puts a second child to work |
| ExecutionPacing.SequentialRunKeepsOneWorking | src/execution/execution_engine.cpp:739-805 | from any conserving state with one child working at most, every state of a run has at most one working child exactly if no response reopens a traded child while another works |
| ExecutionPacing.OneChildAtATime | src/execution/execution_engine.cpp:739-805 | the same for every run of a FixedSize or Iceberg session from its start |
| ExecutionExceptions.TwoChildrenCanWork | src/execution/execution_engine.cpp:318-319 | a run of four events from the start after which two children work |
| ExecutionPacing.SequentialTickMakesProgress | src/execution/execution_engine.cpp:754-801 | an idle, routable tick with a valid market price, or with falling back allowed and a parent price, sends a positive volume of at most min(clip, target - traded), exactly that when passive, or ends because the target is traded |
| ExecutionPacing.RoutableReleaseSends | src/execution/execution_engine.cpp:796-799 | with a route for the passive child something within the budget is sent, all of it when passive |
| ExecutionPacing.StoppedSequentialSendsNothing | src/execution/execution_engine.cpp:754-778 | once the parent is gone, the session failed or a cancel is booked, a tick sends nothing, and it ends the session unless a child is still working after a cancel |
| ExecutionPacing.FinishedMeansFilled | src/execution/execution_engine.cpp:705-720 | a sequential session that ends without failure or cancel has traded its target and has nothing working |
| ExecutionDecisions.SequentialTickDecides | src/execution/execution_engine.cpp:754-801 | exactly when a FixedSize or Iceberg tick sends, which child, with which volume, price and ledger; exactly when it fails or ends the session; and that the published view is current |
| ExecutionDecisions.TwapTickDecides | src/execution/execution_engine.cpp:849-938 | exactly when a TWAP tick sends, which child of the next slice, with which volume, price and ledger, and exactly when it fails the session |
| ExecutionDecisions.EveryChildIsPriced | src/execution/execution_engine.cpp:406-435 | over every run of any session a child carries the valid market price if there is one at its tick; otherwise falling back is allowed and it carries the parent's nonzero price; so with falling back off and no valid price none is sent |
| ExecutionDecisions.AttemptDecides | src/execution/execution_engine.cpp:617-637 | the active strategy sends exactly what it decides on a fresh prediction it has not seen, within the budget, and has then seen it |
| ExecutionDecisions.CancelsAreMarked | src/execution/execution_engine.cpp:446-458 | exactly the children that booked cancels aim at become marked |
| ExecutionDecisions.PublishedIsCurrent | src/execution/execution_engine.cpp:463-474 | a published view shows the session's state and the capped sums of its children's volumes, values and fees |
| ExecutionDecisions.SummedUp | src/execution/execution_engine.cpp:477-514 | what is summed up are the children's own volumes, values and fees, and what an open child still has to trade |
| ExecutionPacing.FailedSessionSendsExactly | src/execution/execution_engine.cpp:796-799 | a session that just failed still sends a child exactly if its active child was refused and the passive one accepted |
| ExecutionExceptions.FailedSessionCanSend | src/execution/execution_engine.cpp:796-799 | one tick from the start that fails the session and sends a child |
| ExecutionPacing.NextSliceIsSchedulable | src/execution/execution_engine.cpp:920-925 | the clamp of a slice to the schedulable volume never binds |
| ExecutionPacing.TwapTickFollowsPlan | src/execution/execution_engine.cpp:849-909 | a tick keeps one child per slice started; what it sends is the child of the next slice |
| ExecutionPacing.ResponseKeepsPace | src/execution/execution_engine.cpp:913-916 | a response, and the slice step it may cause, keeps the session on its plan |
| ExecutionPacing.AdvanceKeepsPace | src/execution/execution_engine.cpp:928-938 | stepping to the next slice keeps the count of children and the deadline in line with the slice index |
| ExecutionPacing.RunFollowsPlan | src/execution/execution_engine.cpp:830-948 | from any state on its plan, the children a run sends are those of the slices from there on |
| ExecutionPacing.TwapRunFollowsPlan | src/execution/execution_engine.cpp:849-938 | over any run with fresh child ids the i-th child belongs to slice i; a passive one is that slice, sent no earlier than its deadline, which is i intervals after the start unless that exceeds 64 bits; an active one is within it; all stay within the target |
| ExecutionPacing.DeadlineIsExact | src/execution/execution_engine.cpp:937 | deadlines are whole intervals after the start while the clock does not wrap |
| ExecutionPacing.DueSliceIsSent | src/execution/execution_engine.cpp:880-899 | past its deadline an idle, routable tick with a valid market price, or with falling back allowed and a parent price, sends the next slice |
| ExecutionPacing.StoppedTwapSendsNothing | src/execution/execution_engine.cpp:849-878 | the same for TWAP |
| ExecutionPacing.EndedMeansAllSlicesSent | src/execution/execution_engine.cpp:861-909 | a TWAP session that ends without failure or cancel has started every slice and has nothing working |
| ExecutionPacing.ResponseKeepsIdleExactly | src/execution/execution_engine.cpp:303-338 | a response lets a child work under an unconsumed slice exactly when it reopens a traded child |
| ExecutionPacing.TickKeepsIdle | src/execution/execution_engine.cpp:849-909 | a tick never lets a child work under an unconsumed slice |
| ExecutionPacing.SlicesNeverOverlap | src/execution/execution_engine.cpp:830-948 | over every run of a TWAP session from its start no child works while its next slice is not started, exactly if no response reopens a traded child then |
| ExecutionExceptions.SlicesCanOverlap | src/execution/execution_engine.cpp:318-319 | a run of four events from the start after which a child works under a slice that has not been started |
| ExecutionSessions.ExecutionSession.OnTradeResponse | src/execution/execution_engine.cpp:303-338 | the response handler does what the model says, and tells whether the child ended |
| ExecutionSessions.ExecutionSession.RefreshParentState | src/execution/execution_engine.cpp:437-460 | the loops over booked cancels mark exactly the aimed-at ledgers |
| ExecutionSessions.ExecutionSession.SyncParentView | src/execution/execution_engine.cpp:463-474 | the published view is that of the ledgers, and nothing is published once the parent has left the book |
| ExecutionSessions.ExecutionSession.GetTraded | src/execution/execution_engine.cpp:477-484 | the saturating loop over an unordered map is the capped sum |
| ExecutionSessions.ExecutionSession.GetWorking | src/execution/execution_engine.cpp:507-514 | likewise for the unresolved volumes |
| ExecutionSessions.ExecutionSession.GetSchedulable | src/execution/execution_engine.cpp:526-533 | what is left of the target after trades and work |
| ExecutionSessions.ExecutionSession.SubmitChild | src/execution/execution_engine.cpp:576-614 | routing and ledger entry as in the model |
| ExecutionSessions.ExecutionSession.TryActiveSubmit | src/execution/execution_engine.cpp:617-637 | the active attempt as in the model |
| ExecutionSessions.ExecutionSession.FinalizeParentIfIdle | src/execution/execution_engine.cpp:705-720 | when a session ends |
| ExecutionSessions.SequentialClipSession.Tick | src/execution/execution_engine.cpp:754-801 | the tick of FixedSize and Iceberg as in the model |
| ExecutionSessions.TwapSession.AdvanceSliceIfReady | src/execution/execution_engine.cpp:928-938 | the slice step as in the model |
| ExecutionSessions.TwapSession.OnTradeResponse | src/execution/execution_engine.cpp:913-916 | a response, and the slice step it may cause, as in the model |
| ExecutionSessions.TwapSession.Tick | src/execution/execution_engine.cpp:849-909 | the tick of TWAP as in the model |
| Sums.SaturatingTotal | src/execution/execution_engine.cpp:477-514 | whatever order a map is walked in, saturating addition ends at the capped exact sum |
| ExecutionEngine.Sessions.Tick | src/execution/execution_engine.cpp:1071-1090 | the loop over the session objects, in any order and over one shared book that every session changes as it goes, ends as the round in which each session ticks with what the book held at the start, unless its parent came into the book on the way; exactly the ended sessions are dropped |
| ExecutionEngine.Sessions.TickNext | src/execution/execution_engine.cpp:1075-1084 | the turn of one session object changes no other session |
| ExecutionEngine.Sessions.StartSession | src/execution/execution_engine.cpp:998-1066 | a session is refused for exactly the reasons given, in their order, and then nothing changes; otherwise the parent is marked, and a fresh session with the configured clip or plan is added and has its first tick |
| ExecutionEngine.CreatableExactly | src/execution/execution_engine.cpp:1001-1046 | a session can be created exactly for a new FixedSize, Iceberg or TWAP order without a session, with a market or leave to do without, and a plan that can be made |
| ExecutionEngine.Sessions.OnTradeResponse | src/execution/execution_engine.cpp:1093-1105 | a response changes exactly the session of the parent that the book names for its order, if there is one |
| ExecutionEngine.OneMoreSaw | src/execution/execution_engine.cpp:1075-1084 | one more turn over the shared book leaves what the sessions still to come will read as it was at the start |
| SessionActions.ActAllIsQuiet | src/execution/execution_engine.cpp:463-614 | whatever a session does for its parent, orders keep their kind and target, only New orders come, and only its own list of children grows |
| SessionActions.ChildIsBooked | src/execution/execution_engine.cpp:576-614 | a submitted child is booked under the next id as a New order of its parent without cash, listed under it both ways, and queued or marked as failed |
| SessionActions.QuietKeepsSight | src/execution/execution_engine.cpp:437-460 | so the cancels that any other session reads stay the same, and its parent stays booked |
| ExecutionEngine.EverySessionIsBalanced | src/execution/execution_engine.cpp:998-1105 | over every run of session starts, rounds and responses, the volumes of every session the engine holds add up to its target, and no total saturates |
| ExecutionEngine.CancelStopsItsSession | src/execution/execution_engine.cpp:437-460 | once a parent with live children is cancelled under fresh ids its session reads a cancel for each of them, sends nothing more, and ends as soon as nothing works |
| ExecutionEngine.UserCancelIsSeenExactly | src/core/event_loop.cpp:350-431 | after a cancel under a booked id the session reads cancels for all live children but the first, and it reads the same as before exactly if there is no other one that was not being cancelled |
| ExecutionEngine.ReportFindsItsSession | src/execution/execution_engine.cpp:1093-1105 | a report on a submitted child goes to the session that submitted it, also after the child was archived |
| SpscQueue.EveryInterleavingIsFifo | src/shm/spsc_queue.hpp:55-103 | under every interleaving, popped items followed by those in memory are the pushed ones; the size formula counts them; they are at most capacity minus one |
| SpscQueue.FinishedReadIsTheFront | src/shm/spsc_queue.hpp:70-96 | what a pop or peek returns is the oldest item, never a torn one |
| SpscQueue.RefusalsAreExact | src/shm/spsc_queue.hpp:56-78 | a push is refused exactly on a full ring, a pop exactly on an empty one |
| SpscQueue.SplitSizeIsExactIffNotOvertaken | src/shm/spsc_queue.hpp:98-103 | a size read in two loads is exact exactly when the consumer has not passed the head that was read |
| SpscQueue.RunKeepsValid | src/shm/spsc_queue.hpp:55-96 | every interleaving keeps the cells in flight, the two indices and both local copies consistent |
| SpscQueue.Ring.PublishHead | src/shm/spsc_queue.hpp:65-67 | the publishing store of a push as a step on the array |
| SpscQueue.Ring.CopyIn | src/shm/spsc_queue.hpp:65 | copying one word into the cell as a step |
| SpscQueue.Ring.CopyOut | src/shm/spsc_queue.hpp:80 | copying one word out of the cell as a step |
| SpscQueue.Ring.PublishTail | src/shm/spsc_queue.hpp:80-82 | the releasing store of a pop as a step; it returns the oldest item |
| OrderSlot.EveryReadIsAPublication | src/shm/orders_shm.hpp:111-132 | with one writer at a time, which may die mid-write and be replaced, each even number is published once, every snapshot is one publication's content, and reads never go back |
| OrderSlot.ReadsFollowPublicationOrder | src/shm/orders_shm.hpp:168-195 | successive reads follow the order of publication |
| OrderSlot.SuccessorSkipsTheDeadNumber | src/shm/orders_shm.hpp:119-129 | after a writer died mid-write, the next one publishes under a new number |
| OrderSlot.WriterStepKeepsValid | src/shm/orders_shm.hpp:118-130 | no store of a writer invalidates what a reader relies on |
| OrderSlot.ReaderStepKeepsValid | src/shm/orders_shm.hpp:173-192 | every step of the bounded read loop keeps the reader consistent, and a snapshot it returns is the last publication |
| OrderSlot.SharedSlot.StorePublish | src/shm/orders_shm.hpp:129 | publishing as a step on the slot |
| OrderSlot.SharedSlot.LoadForWrite | src/shm/orders_shm.hpp:118-122 | loading and repairing the sequence number as a step |
| OrderSlot.SharedSlot.CheckAndReturn | src/shm/orders_shm.hpp:186-190 | the second look at the sequence number; what is returned was published |
| SlotAllocator.EverySlotIsIssuedOnce | src/shm/orders_shm.hpp:82-108 | under any interleaving, spurious failures and crashes, slots are issued in order without repeats, the rejections counted are the calls that failed, and a call fails only on a used-up pool |
| SlotAllocator.PoolHeader.TryAllocate | src/shm/orders_shm.hpp:82-108 | one call running alone: despite spurious failures the retry loop issues the next slot, or counts a rejection exactly on a full pool |
| SlotAllocator.IdStepKeepsValidExactly | src/order/order_book.cpp:483-493 | ids stay unique and above every completed floor exactly while the last 32-bit id is not issued |
| SlotAllocator.IssuedAboveFloor | src/order/order_book.cpp:483-493 | the next id is above every earlier one and not below the floor |
| SlotAllocator.RunKeepsIdsValidExactly | src/order/order_book.cpp:483-493 | over every interleaving of issues and raises this lasts exactly as long as the last 32-bit id is not among those issued |
| SlotAllocator.LastIdIsFollowedByZero | src/order/order_book.cpp:483 | two ids from the counter at its last value: the last one, then zero |
| SlotAllocator.EveryIdIsNew | src/order/order_book.cpp:483-493 | from a fresh counter, over every such run, no two calls get the same id, and none issued after a raise completed is below its floor |
| SecurityIdentity.ParseBuild | src/common/security_identity.hpp:83-128 | a built key is not truncated and parses back to its market and code |
| SecurityIdentity.BuildIsInjective | src/common/security_identity.hpp:95-118 | different markets or codes give different keys |
| SecurityIdentity.KeysOfTheMarkets | src/common/security_identity.hpp:12-128 | the keys of the four markets, built and normalized from their legacy form |
| SecurityIdentity.OtherMarketsHaveNoKeys | src/common/security_identity.hpp:12-25 | no key is built for any other market |
| SecurityIdentity.NormalizeIsIdempotent | src/common/security_identity.hpp:121-128 | normalizing twice is normalizing once |
| SecurityIdentity.ParseLegacyExactly | src/common/security_identity.hpp:83-93 | a legacy key is read as one exactly if its code has no underscore before its last character |
| SecurityIdentity.LegacyAgreesWithMic | src/common/security_identity.hpp:121-128 | a legacy and a canonical key normalize alike exactly if they name the same market and code |
| SecurityIdentity.BuildInPlace | src/common/security_identity.hpp:95-118 | the buffer-filling loops build the canonical key |
| OrderBookModel.EveryRunKeepsOk | src/order/order_book.cpp:89-643 | over all sequences of operations each id keeps its own entry, capacity holds, managed and latched parents are booked, and every child is listed under its parent |
| OrderBookModel.AddKeepsOk | src/order/order_book.cpp:89-169 | adding keeps this, refused or not |
| OrderBookModel.ChangeKeepsOk | src/order/order_book.cpp:191-289 | so do changes of state and trades, with the refresh they cause |
| OrderBookModel.ArchiveKeepsOk | src/order/order_book.cpp:372-423 | so does archiving |
| OrderBookModel.SyncKeepsOk | src/order/order_book.cpp:309-370 | so does writing a managed parent's mirror |
| OrderBookModel.RefreshOnlyProgress | src/order/order_book.cpp:542-643 | a refresh changes the parent only, and none of its identity or reservation |
| OrderBookModel.FoldedIsCappedSum | src/order/order_book.cpp:572-588 | a saturating fold over a list of children is the capped exact sum over the set |
| OrderBookModel.AggregateIsCappedSum | src/order/order_book.cpp:572-600 | hence all four figures of the aggregation loop, in any order of the children |
| OrderBookModel.TradeKeepsWholeExactly | src/order/order_book.cpp:244-254 | a trade keeps traded + remaining equal to the entrusted volume exactly if there is one, or nothing was traded |
| OrderEffects.FillIsCounted | src/order/order_book.cpp:230-281 | a fill adds the reported volume to what was traded and takes it from what remains, down to nothing, adds value and fee up to 64 bits, sets the average price to the quotient or the reported price, and finishes the order exactly if nothing remains and it had not ended |
| OrderEffects.EveryFillIsCounted | src/order/order_book.cpp:89-515 | over every run of operations on a book, an order that stays in it and is nobody's parent shows exactly the sums of what was reported on it, up to its entrusted volume and 64 bits |
| OrderEffects.StateIsShown | src/order/order_book.cpp:191-227 | a reported state is shown at its time and changes nothing else; a trader's error on an aggregated parent is latched |
| OrderEffects.AddedIsShown | src/order/order_book.cpp:89-169 | a booked order shows what it was added with, its remaining volume and times filled in, and the id counter is past it |
| OrderEffects.MirrorIsShown | src/order/order_book.cpp:309-370 | a managed parent shows the engine's figures, the target as entrusted and the rest as remaining |
| OrderEffects.RefreshedState | src/order/order_book.cpp:590-640 | a refreshed parent shows a latched error, else that it is finished once all its New children ended, else the state of the child that ranks furthest |
| OrderEffects.RefreshedAverage | src/order/order_book.cpp:582-618 | it shows the average price over its children and the time of the latest |
| OrderTypes.StatesPartition | src/order/order_book.cpp:22-56 | every state but NotSet is terminal or ranks, and the failures are the terminal states other than a risk rejection and the regular end |
| OrderTypes.RanksDiffer | src/order/order_book.cpp:37-56 | the ranks follow the life of an order and differ |
| OrderFamilies.AddKeepsListsExactly | src/order/order_book.cpp:152-158 | adding an order keeps the lists of children free of repetitions, of the parent itself and of second parents exactly if the order is not listed, or its id was never a child and is not its parent |
| OrderFamilies.ProperRunKeepsLists | src/order/order_book.cpp:89-515 | over all sequences of operations with such additions the lists stay so, archiving and clearing included |
| OrderFamilies.EveryTouchedParentMirrors | src/order/order_book.cpp:542-643 | from an empty book, over all such runs, adding a New child of a booked unmanaged parent, or changing its state or trades, leaves the parent showing the capped exact sums over its booked New children |
| OrderFamilies.WholeRunKeepsWhole | src/order/order_book.cpp:89-515 | over all runs in which children come whole, have no children of their own and are not mirrored, every New child keeps traded + remaining at its entrusted volume |
| OrderFamilies.EveryTouchedParentHoldsItsChildren | src/order/order_book.cpp:612-623 | and then the parent holds, traded and remaining together, what its booked New children were entrusted with, while that fits |
| OrderFamilies.ReusedIdIsCountedTwice | src/order/order_book.cpp:372-423 | five operations from an empty book after which a parent whose only booked child traded 5 shows 10 |
| OrderBooks.OrderBook.AddOrder | src/order/order_book.cpp:89-169 | adding refines the model and keeps all indexes; it fails exactly on id zero, a duplicate or a full book |
| OrderBooks.OrderBook.UpdateState | src/order/order_book.cpp:191-227 | changing a state refines the model and keeps all indexes |
| OrderBooks.OrderBook.UpdateTrade | src/order/order_book.cpp:229-289 | recording a trade refines the model and keeps all indexes |
| OrderBooks.OrderBook.Recorded | src/order/order_book.cpp:244-274 | the field updates of a trade, one after the other, are the model's |
| OrderBooks.OrderBook.MarkManagedParent | src/order/order_book.cpp:292-306 | marking a parent refines the model |
| OrderBooks.OrderBook.SyncManagedParentView | src/order/order_book.cpp:309-370 | writing a mirror refines the model and keeps all indexes |
| OrderBooks.OrderBook.ArchiveOrder | src/order/order_book.cpp:372-423 | archiving refines the model, frees the slot and leaves no index entry behind |
| OrderBooks.OrderBook.Clear | src/order/order_book.cpp:495-515 | clearing refines the model; all slots are free |
| OrderBooks.OrderBook.CollectTotals | src/order/order_book.cpp:572-600 | the aggregation loop computes the model's totals |
| OrderBooks.OrderBook.RefreshParent | src/order/order_book.cpp:542-643 | refreshing a parent refines the model |
| OrderBooks.ManagedStays | src/order/order_book.cpp:542-545 | a managed parent is never refreshed from its children |
| OrderBooks.OrderBook.SlotsArePartitioned | src/order/order_book.cpp:82-140 | every slot is on the free stack or owned by a booked order, never both |
| OrderBooks.OrderBook.TakeSlot | src/order/order_book.cpp:120-137 | popping a free slot for an order |
| OrderBooks.OrderBook.ReleaseSlot | src/order/order_book.cpp:412-416 | blanking a slot and pushing it back |
| OrderBooks.OrderBook.GetOrdersBySecurity | src/order/order_book.cpp:442-455 | the list holds exactly the booked orders of the normalized key, each once |
| OrderBooks.OrderBook.FindByBrokerId | src/order/order_book.cpp:181-189 | a broker id leads to a booked order that carries it, or to none where the index has none |
| OrderBooks.ForgettingKeepsOthersFoundExactly | src/order/order_book.cpp:388-393 | archiving keeps all other orders findable exactly if the index does not lead to the archived one, or no other carries its broker id |
| OrderBooks.OrderBook.EnsureNextOrderIdAtLeast | src/order/order_book.cpp:485-493 | the id counter is raised to a floor and never lowered |
| OrderBooks.UnfileOrder | src/order/order_book.cpp:398-410 | taking an order out of the security index leaves exactly the others, and no empty list |
| OrderBooks.FileNewOrder | src/order/order_book.cpp:144-150 | filing a new order keeps the security index exact |
| OrderRouter.CancelReachesEveryLiveChild | src/order/order_router.cpp:59-141 | with the given id and the next ids of the shared counter fresh, and willing surroundings, a fan-out books exactly one cancel per live New child, in order, under exactly these ids, linked both ways, and changes no other order |
| OrderRouter.CancelChildAddsOne | src/order/order_router.cpp:69-134 | one round of the loop adds one such cancel |
| OrderRouter.SkipsDead | src/order/order_router.cpp:70-73 | children that are gone, terminal or not New orders get none |
| OrderRouter.LiveAmongExactly | src/order/order_router.cpp:70-73 | the children addressed are the booked, non-terminal New ones |
| OrderRouter.DispatchSucceedsExactly | src/order/order_router.cpp:210-244 | an internal order goes out exactly if it gets a slot, can be booked and the queue has room |
| OrderRouter.SubmittedIsBooked | src/order/order_router.cpp:195-244 | a submitted order takes its own id or the next of the counter, and is booked as handed over, stamped, marked and queued, exactly with a slot, room and a push that works |
| OrderRouter.SingleCancelIsBooked | src/order/order_router.cpp:143-192 | a cancel of an order without children under a fresh id is booked aimed at it and queued |
| OrderRouter.DuplicateCancelIsRefused | src/order/order_router.cpp:143-176 | a cancel whose id is booked already changes nothing and fails, if the order has no children |
| OrderRouter.TakenIdMissesTheFirstChild | src/order/order_router.cpp:59-141 | under a cancel id that is booked already, otherwise fresh ids and willing surroundings, a fan-out books exactly one cancel for each live child but the first, under the next counter ids, none for the first, marks the parent as failed, and reports success exactly if more than one child was live |
| OrderRouter.Router.RouteCancel | src/order/order_router.cpp:59-192 | the fan-out over a snapshot of the children, and the single cancel, as in the model |
| OrderRouter.Router.CancelChildOrders | src/order/order_router.cpp:69-134 | the loop with its flags is the model's fold |
| OrderRouter.Router.SubmitInternalOrder | src/order/order_router.cpp:195-244 | stamping, booking and pushing an internal order as in the model; the id it succeeds under was not booked before |
| OrderRouter.Router.DispatchOrder | src/order/order_router.cpp:221-244 | booking, pushing and marking an order as in the model |
| OrderRouter.Router.RouteNew | src/order/order_router.cpp:14-47 | routing an order that is booked already as in the model |
| FundRow.ConsistentExactlyIfCovered | src/portfolio/position_manager.cpp:254-438 | an operation keeps total = available + frozen + market value exactly if it fails or is no uncovered sale |
| FundRow.UncoveredSaleUnderstates | src/portfolio/position_manager.cpp:402-438 | a sale of ten without market value leaves total assets ten below the worth |
| FundRow.TotalNeverClamps | src/portfolio/position_manager.cpp:304-438 | while that holds, total assets lose exactly the fee and never clamp to zero |
| FundRow.DepositGoesToCash | src/portfolio/position_manager.cpp:339-364 | a deposit goes to available cash and total assets and to nothing else |
| FundRow.ReservationMoves | src/portfolio/position_manager.cpp:254-277 | a reservation moves its amount from available to frozen cash and nothing else, exactly if it is there |
| FundRow.PurchaseMoves | src/portfolio/position_manager.cpp:304-400 | a purchase turns frozen cash, or available cash where nothing was reserved, into market value, less the fee |
| FundRow.SaleMoves | src/portfolio/position_manager.cpp:402-438 | a sale turns market value into available cash, less the fee |
| FundRow.TotalNeverExceedsWorth | src/portfolio/position_manager.cpp:254-438 | over all sequences of operations total assets never exceed the three components |
| FundRow.CoveredRunStaysConsistent | src/portfolio/position_manager.cpp:254-438 | over covered sequences they stay equal |
| FundRow.FailureChangesNothing | src/portfolio/position_manager.cpp:254-438 | a failing operation leaves the row as it was |
| FundRow.UnfreezeUndoesFreeze | src/portfolio/position_manager.cpp:254-302 | releasing what was just reserved restores the row |
| FundRow.PositionManager.FreezeFund | src/portfolio/position_manager.cpp:254-277 | wrapping additions and their checks amount to exact arithmetic with refusal on overflow |
| FundRow.PositionManager.UnfreezeFund | src/portfolio/position_manager.cpp:279-302 | likewise for releasing |
| FundRow.PositionManager.DeductFund | src/portfolio/position_manager.cpp:304-337 | likewise for paying from the reservation |
| FundRow.PositionManager.AddFund | src/portfolio/position_manager.cpp:339-364 | likewise for a deposit |
| FundRow.PositionManager.ApplyBuyTradeFund | src/portfolio/position_manager.cpp:366-400 | likewise for paying from available cash |
| FundRow.PositionManager.ApplySellTradeFund | src/portfolio/position_manager.cpp:402-438 | likewise for a sale |
| EventLoopModel.EveryRunKeepsReserved | src/core/event_loop.cpp:314-611 | over every covered run of requests, plain and managed, of responses, archive sweeps and actions of sessions, frozen cash is what was frozen elsewhere plus the reservations of the booked orders, none of them a parent or managed |
| EventLoopModel.ReservationsAreAccountedFor | src/core/event_loop.cpp:117-171 | from an empty book on, no release can fail, and orders that ended, parents and managed orders hold nothing |
| EventLoopModel.ResponseMovesByOverdraft | src/core/event_loop.cpp:465-580 | one response shifts that balance by exactly the overdraft of its fill |
| EventLoopModel.ResponseKeepsReservedExactly | src/core/event_loop.cpp:465-580 | so it keeps it exactly if the fill does not overdraw |
| CashExceptions.OverdraftTakesFromOthers | src/core/event_loop.cpp:152-171 | three events from the start after which an order holds ten, only five are frozen, and its release fails |
| EventLoopModel.RequestKeepsReserved | src/core/event_loop.cpp:314-432 | so does a request, on every path: rejected, handed to the execution engine, not reservable, refused by the queue, fanned out, or sent |
| EventLoopModel.ActionKeepsReserved | src/execution/execution_engine.cpp:463-614 | so does whatever a session does for a parent it manages: mirrors and submitted children move no cash |
| EventLoopModel.ManagedOrderHoldsNothing | src/core/event_loop.cpp:385-413 | an order handed to the engine holds no cash and is not sent itself; it is managed exactly if its session started, and has ended otherwise |
| CashNeutral.RoutedCancelIsNeutral | src/order/order_router.cpp:59-192 | a cancel, fanned out or not, keeps every reservation and adds only orders that hold nothing |
| CashNeutral.ActIsNeutral | src/execution/execution_engine.cpp:463-614 | so does a session acting for its parent |
| CashNeutral.ChangeIsNeutral | src/order/order_book.cpp:191-289 | so does a change of state or trades, with the refresh of the parent it causes |
| EventLoopModel.ArchivesKeepReserved | src/core/event_loop.cpp:582-611 | so does an archive sweep, which loses no cash |
| EventLoopModel.SettleMoves | src/core/event_loop.cpp:152-171 | how far a fill moves frozen cash and the order's reservation apart |
| EventLoopModel.ReleaseNeverFails | src/core/event_loop.cpp:138-149 | a booked order that holds cash rightly can always be released in full |
| EventLoopModel.ReserveMoves | src/core/event_loop.cpp:117-135 | reserving moves cash and the order's reservation together, by its whole cost |
| EventLoopModel.BuyIsSentWithItsWholeCost | src/core/event_loop.cpp:382-431 | after a buy request the risk rules pass, either the order is on the queue with volume times price plus its fee frozen, or it ended, holds nothing, and the fund row is as before |
| CashFlows.BuyFreezesVolumeTimesPrice | src/core/event_loop.cpp:117-135 | for an order that is accepted: if volume times price plus fee fits 64 bits and the available cash, exactly that is frozen, and given back if the order is not taken; otherwise it is rejected and costs nothing |
| CashFlows.BuyRequestFreezesItsCost | src/core/event_loop.cpp:314-431 | the same from the request on, with the fee that is given or estimated |
| CashFlows.RequestIsPrepared | src/core/event_loop.cpp:100-112 | how a request becomes an order: its id, its key, and the fee that is estimated exactly if none is given and volume times price is a positive 64-bit value |
| CashFlows.FillPaysFromReservation | src/core/event_loop.cpp:465-548 | a fill within the reservation is counted and paid from it: a partial one leaves the order open with the rest reserved, one that ends the order gives the rest back |
| CashFlows.FillPaysFromCash | src/core/event_loop.cpp:152-155 | a buy fill on an order that holds nothing is paid from available cash |
| CashFlows.SaleBringsCash | src/core/event_loop.cpp:492-500 | a sale fill on an order that holds nothing brings its value less the fee as available cash |
| CashFlows.EndGivesBack | src/core/event_loop.cpp:551-553 | a report that ends a buy order without a fill gives back all it holds |
| CashFlows.EndedCancelGivesBack | src/core/event_loop.cpp:554-560 | a report that ends a cancel gives back all that the order it aimed at holds |
| EventLoopModel.ReleaseUndoesReserve | src/core/event_loop.cpp:117-149 | releasing what was just reserved restores order and fund row |
| EventLoopModel.RejectedOrderStaysOut | src/core/event_loop.cpp:361-374 | an order the risk rules reject ends rejected, holds no cash and is not sent |
| Archiving.EndedOrderIsArchivedInTime | src/core/event_loop.cpp:562-611 | a terminal report on an order without children takes it out at once; or the order stays terminal through every run of events that are not about it and the first sweep from its deadline on takes it out; or, without archiving, it stays |
| Archiving.EventKeepsWaiting | src/core/event_loop.cpp:314-611 | no request, cancel, fan-out, session or report on another order revives a waiting order or moves its deadline; a due sweep takes it out |
| Archiving.RoutedCancelIsSteady | src/order/order_router.cpp:59-192 | a cancel changes the state of no order without children, not even of the one it aims at |
| EventLoopModel.StaysTerminal | src/core/event_loop.cpp:474-483 | a terminal report leaves the order terminal, whatever its fill does |
| EventLoopModel.AssetsAreNeverOverstated | src/core/event_loop.cpp:314-611 | over every run, covered or not, total assets never exceed cash, reservations and market value |
| EventLoopModel.UserCancelNeverGoesDown | src/core/event_loop.cpp:350-431 | a user's cancel of an order without children ends in an error and reaches neither the queue nor the order |
| EventLoopModel.UserCancelMissesTheFirstChild | src/core/event_loop.cpp:350-431 | a user's cancel of a parent, booked under its own id, cancels every live child but the first, and marks the parent as failed |
| EventLoop.Service.HandleOrderRequest | src/core/event_loop.cpp:314-432 | the request handler refines the model, the managed branch included |
| EventLoop.Service.HandleTradeResponse | src/core/event_loop.cpp:465-580 | the response handler refines the model |
| EventLoop.Service.ProcessPendingArchives | src/core/event_loop.cpp:582-611 | the sweep refines the model; the order of the ids does not matter |
| EventLoop.Service.ActForSession | src/execution/execution_engine.cpp:463-614 | a mirror write or a submission of a session, on the same book and router, refines the model |
| EventLoop.Service.Freeze | src/core/event_loop.cpp:117-135 | the reservation of a buy order as in the model |
| EventLoop.Service.Unfreeze | src/core/event_loop.cpp:138-149 | the release as in the model |
| EventLoop.Service.PayForFill | src/core/event_loop.cpp:152-171 | the settlement of a buy fill as in the model |
| EventLoop.ArchiveOneMore | src/core/event_loop.cpp:595-610 | archiving due orders one by one is archiving them together |
| OrderRecovery.Recover | src/order/order_recovery.cpp:38-142 | recovery restores each order from its latest eligible slot; the counters add up; the id counter ends above every restored id short of saturation; into an empty book as large as the pool nothing fails |
| OrderRecovery.Scan | src/order/order_recovery.cpp:64-99 | the scan keeps, for each order, the eligible slot written last, and counts the others as dropped |
| OrderRecovery.Enter | src/order/order_recovery.cpp:86-98 | one slot enters as a new candidate, replaces one, or is dropped |
| OrderRecovery.LatestIsUnique | src/order/order_recovery.cpp:92-98 | an order has one latest slot |
| OrderRecovery.UnderwayIsCandidate | src/order/order_recovery.cpp:64-99 | an order is restored exactly if a readable slot shows it queued downstream or already taken, with an id and not ended; and from the slot written last, among equals from the last |
| OrderRecovery.RecoveredAsShown | src/order/order_recovery.cpp:102-122 | each restored order is booked as that slot shows it, on its own, without cash, at the time of the slot |
| OrderRecovery.Restore | src/order/order_recovery.cpp:102-129 | the restoring loop adds each candidate once or counts a failure |
| OrderRecovery.RaiseCounter | src/order/order_recovery.cpp:131-142 | the id counter ends at the maximum of its value, the upstream counter and the greatest restored id plus one |
| OrderRecovery.RecoveryForgetsReservations | src/order/order_recovery.cpp:109-118 | after recovery no order holds any of the frozen cash |
| OrderRecovery.OldReservationsStayFrozen | src/order/order_recovery.cpp:109-118 | no covered run after recovery gives it back |
| CashExceptions.RestartLosesReservation | src/order/order_recovery.cpp:109-118 | an order that reserved ten and ends without a fill gives them back without a restart, and not after one |
| GatewayModel.EveryRequestHasOneFate | gateway/src/gateway_loop.cpp:81-148 | over every run each received order is submitted, failed or waiting, exactly one of them; the counters add up; none reaches the adapter more than the retry limit and once more |
| GatewayModel.RetryPassMapsTheQueue | gateway/src/gateway_loop.cpp:81-106 | a pass maps the old queue in order to keep, reschedule or drop, and calls the adapter once per due item of the old queue only |
| GatewayModel.RetryPassKeepsAccounted | gateway/src/gateway_loop.cpp:81-106 | a pass keeps every order in exactly one place and the tallies of calls right |
| GatewayModel.ReceiveKeepsAccounted | gateway/src/gateway_loop.cpp:108-148 | so does receiving an order, readable or not, mappable or not |
| GatewayModel.HandedOverExactly | gateway/src/gateway_loop.cpp:129-144 | a readable order is handed to the adapter exactly if it is a cancel with an id, or a new order with id, volume, price, side, market and code; what becomes of it then; and that any other one fails with its error sent back if it has an id |
| GatewayModel.AdapterSeesTheComplete | gateway/src/order_mapper.cpp:91-134 | over every run the adapter is called for exactly these orders, and all others fail |
| GatewayModel.SubmitItems | gateway/src/gateway_loop.cpp:189-220 | a submission leaves every waiting item with as many calls as attempts |
| GatewayModel.GivingUpIsReported | gateway/src/gateway_loop.cpp:189-220 | the gateway gives up exactly on a final refusal or a spent last attempt, and exactly then sends an error back |
| Gateways.GatewayLoop.ProcessRetryQueue | gateway/src/gateway_loop.cpp:81-106 | the rotating loop over the queue is the model's pass |
| Gateways.GatewayLoop.Rotate | gateway/src/gateway_loop.cpp:91-103 | popping at the front and pushing at the back keeps the order of what stays |
| Gateways.GatewayLoop.ProcessOrders | gateway/src/gateway_loop.cpp:108-148 | at most the batch limit is handled, as in the model |
| Gateways.GatewayLoop.SubmitRequest | gateway/src/gateway_loop.cpp:189-220 | submitting, rescheduling or failing with its counters as in the model |
| Gateways.GatewayLoop.CountersAddUp | gateway/src/gateway_loop.cpp:81-148 | at every loop boundary received = submitted + failed + waiting |
| RateLimiter.FewerThanTwiceTheLimit | src/risk/risk_checker.cpp:176-197 | for every monotone timing with no window of 2^32 checks, at most twice the limit minus one checks pass in any second |
| RateLimiter.CounterCountsWindow | src/risk/risk_checker.cpp:181-195 | for every monotone timing the counter shows the checks of the current window modulo 2^32, and its start is that of the window |
| RateLimiter.WindowBoundExactly | src/risk/risk_checker.cpp:188-195 | a window lets at most the limit through exactly if it gets fewer than 2^32 checks |
| RateLimiter.WrapLetsMoreThrough | src/risk/risk_checker.cpp:188-195 | of 2^32 checks at one time, one more than the limit passes |
| RateLimiter.BoundIsReached | src/risk/risk_checker.cpp:181-195 | for every limit there are timings without such windows that reach the bound |
| RateLimiter.RateLimitRule.CheckOrder | src/risk/risk_checker.cpp:176-197 | the rule with its counters in place, and the cases it does not count |

## Left out

- C++ memory orderings: all step systems assume sequential consistency.
- Two live writers of one order slot: gateway and service can both write a slot (`gateway/src/gateway_loop.cpp:134`,
  `src/order/order_router.cpp:277`); the slot protocol is proved for one live writer at a time.
- OrderSlot.EveryReadIsAPublication: covers runs of fewer than 2^62 steps, after which the 64-bit sequence number could wrap.
- ExecutionPacing.TwapRunFollowsPlan: assumes that the router never hands a session an id it already uses; `OrderRouter` and
  `SlotAllocator` say when that is so.
- EventLoopModel.EveryRunKeepsReserved: covers runs whose fills cost at most what their orders have reserved, whose sale proceeds
  fit 64 bits, whose requests come under ids that are no parents', and in which sessions act for booked parents only while these
  are managed. The actions of a session are arbitrary mirrors and submissions; that they are those of its tick is not stated here.
- EventLoop.Service.HandleTradeResponse: leaves out the position rows, and the call into the execution engine, which is
  `ExecutionEngine.Sessions.OnTradeResponse`.
- ExecutionFigures.EveryReportIsCounted: covers children whose 64-bit volume no report overflows;
  `ExecutionConservation.FillNeverGoesBackExactly` says what an overflow does.
- OrderEffects.EveryFillIsCounted: covers orders of a positive volume whose traded and remaining volumes add up to it, and that
  stay booked; parents are covered by `OrderFamilies.EveryTouchedParentMirrors`.
- OrderRouter.CancelReachesEveryLiveChild: assumes that the given id and as many ids of the shared counter as there are live
  children are fresh, that there is room in the book and that pushes succeed; that children are listed once is what
  `OrderFamilies.ProperRunKeepsLists` gives.
- ExecutionEngine.Sessions.Tick: what a session does to the book in its turn is an arbitrary sequence of mirrors and submissions
  for its parent, and the answers of market, active strategy and router are inputs for each session.
- The state that a managed parent shows in the book (`derive_parent_state`): an arbitrary state.
- The choice of a best price from a market snapshot: an arbitrary optional price. Fee estimates: an arbitrary amount.
- Position rows, the duplicate-order and price-limit rules, and the pure fund and volume checks of the risk checker.
- Stages of pool slots, change callbacks, event records, logs, and the pushing of error responses back by the gateway.
- Counters that the service keeps in 64 bits (statistics, attempts by arrival) are unbounded numbers here, and the capacity
  mask of the ring is a remainder, which it equals for powers of two.
- Time: each handler reads the clock once; how often the service reads it within a handler is not modelled.
- Reading a slot during recovery: the outcome of up to five attempts is an input.
- Shared-memory setup, configuration, loaders, command lines, observers and monitors.
