# LivePass: a verified model

LivePass sells tickets for live shows. This project models the parts of it where correctness spans
several operations, and proves what they promise for every input, every history and every
interleaving. `dafny verify dfyconfig.toml` checks all of it.

| files | what they model |
|---|---|
| `LogicSlot`, `OrderNumber`, `RouteMap`, `OrderStore` | order sharding: SplitMix64 genes, order numbers, route map, and the sharded repository as a refinement of one table |
| `ExpiredScan`, `GuardWalk` | the paged loops over shards, with tables that change between pages |
| `RunSpec`, `RunProofs`, `RunSteps`, `RunTheorems`, `RunEffects`, `RunExecution` | agent runs: `RunSpec` is the state machine, `RunEffects` a table of what each step does to its run, `RunExecution` the executor and projector as an object whose methods are exactly the steps, the rest is proof |
| `EventStream` | replay of a run's event log while it grows and clients reconnect |
| `HumanApproval`, `ResumeBridge` | write tools behind human approval, and the way of a decision from the API to the tool |
| `Outbox`, `Dispatcher`, `OutboxRaces`, `Preheat` | the delay-task outbox, one dispatcher run, dispatchers and workers interleaved, and the preheat handler |
| `Pagination`, `Conversations`, `Cursor` | cursor pagination of messages and threads, in memory and as SQL, and the cursor text |
| `FreezeToken` | seat freeze tokens |
| `Ordering` | filter, sort and limit, as SQL does them |

Databases are sequences or maps of rows, clocks are parameters, and failing calls are arguments that
say which call fails. A step of a concurrent machine is the stretch of code between two points at
which something else can run.

## Where the code does less than one might expect

Each of these is proved, together with the exact condition under which the promise does hold.

- `start` does not look at the status of its run. On a run that was cancelled before its background
  start it brings the run back to life beside a second active run of the thread
  (`CancelledBeforeStart`); it keeps the guarantees exactly on queued runs (`StartIsSafeIffQueued`).
- A second interrupt inside a resumed stream, a decision that is not allowed, and an ApiError out of a
  resumed stream leave the run `running` with nothing carrying it: a run is stranded by exactly these
  steps (`StrandedIff`, with a history in `StrandingHistory`), and only a cancel gets it out
  (`OnlyCancelFreesStranded`).
- Cancelled is not final. A cancelled run becomes completed or failed exactly if its task was still in
  flight and its stream ends, or fails other than by an ApiError in a resume, before another chunk
  arrives (`FinishedStatusChangesIff`, with a history in `CompletedAfterCancellation`). A client whose
  stream closed at the cancellation then misses events (`MissedEvents`), exactly while that task is in
  flight (`ClosedAtCancellation`); after a completion or a failure it has everything
  (`ClosedStreamIsWhole`).
- A run update sent by the graph makes the log say something else than the stored status unless its text
  is empty or "running" (`GraphRunUpdateBreaksLog`, with a history in `GraphUpdateHistory`).
- An order number whose fields are all zero can be built (`ZeroIsBuilt`) and never parses; no other
  number is like that (`ZeroOrderNumber`).
- The write tool runs right after a fresh preview, which need not be the preview the approved interrupt
  described (`ApprovedPreviewMayBeStale`); it is the same exactly if the preview tool answers the replayed
  call as it did before (`PreviewIsCurrentIff`). The values are always the approved ones.
- Three kinds of step move an outbox row along no declared edge: a worker processes it while it is still
  pending, a worker reports a failure when it is processed, and the task is enqueued again after it has
  left pending, which also brings retired rows back. Exactly these do (`StepLeavesLifecycleIff`,
  `FollowsLifecycleIff`, `RetiredStep`); a history from an empty outbox shows the first and the last
  (`ReopenedHistory`). So processed is not final (`ProcessedStep`, `ProcessedStays`).
- A preheat task is closed as processed even when its program is no longer due and nothing was
  preheated (`ClosedWithoutPreheat`, at an input in `RescheduledMeanwhile`).
- A preheat status can come back without a handler, when a whole program row read earlier is written back
  (`StaleStatusComesBack`); it was then set by a handler before (`PreheatedByPriming`).
- With limit 0 the in-memory message listing returns everything and the SQL one nothing
  (`MessageFormsAgreeIff`).

## Model

| member | source | states |
|---|---|---|
| `LogicSlot.UnmixAfterMix` | services/order-rpc/sharding/logic_slot.go:31-36 | `Unmix64`, built from modular inverses and unfolded shifts, undoes SplitMix64 on every 64-bit word |
| `LogicSlot.MixAfterUnmix` | services/order-rpc/sharding/logic_slot.go:31-36 | SplitMix64 undoes `Unmix64`: every word is a mixed word |
| `LogicSlot.SplitMixBijective` | services/order-rpc/sharding/logic_slot.go:31-36 | SplitMix64 is injective and onto on 64-bit words |
| `LogicSlot.SlotInRange` | services/order-rpc/sharding/logic_slot.go:21-29 | the slot of every user id is in 0..1023 |
| `LogicSlot.SlotsAreEven` | services/order-rpc/sharding/logic_slot.go:21-29 | rank and user-at-rank are inverse bijections between user ids and (slot, 54-bit rank): every slot is the image of exactly 2^54 user ids |
| `LogicSlot.UserIsAtItsRank` | services/order-rpc/sharding/logic_slot.go:21-29 | a user id is recovered from its slot and its rank, and the rank fits 54 bits |
| `LogicSlot.RankOfUserAt` | services/order-rpc/sharding/logic_slot.go:21-29 | the user at a rank of a slot has that slot and that rank, for every slot and every 54-bit rank |
| `OrderNumber.PackUnpack` | services/order-rpc/sharding/order_number_codec.go:45-49 | every non-negative int64 is the packing of the fields read from it, all of them within their widths |
| `OrderNumber.UnpackPack` | services/order-rpc/sharding/order_number_codec.go:45-49 | fields within their widths are read back from their packing, which fits 63 bits |
| `OrderNumber.BuildSpec` | services/order-rpc/sharding/order_number_codec.go:32-50 | a build succeeds exactly when time, worker and sequence are in range, its number fits 63 bits and its fields are those of the user and the call; otherwise it panics |
| `OrderNumber.BuildParseRoundTrip` | services/order-rpc/sharding/order_number_codec.go:32-69 | a built number parses, and then to all five fields, exactly if it is not zero and its time part is in the reader's window |
| `OrderNumber.ZeroOrderNumber` | services/order-rpc/sharding/order_number_codec.go:52-55 | the built number is zero exactly if every field is zero, and exactly then it is refused at every clock |
| `OrderNumber.ZeroIsBuilt` | services/order-rpc/sharding/order_number_codec.go:32-50 | a user for whom worker 0 with sequence 0 builds zero at the epoch |
| `OrderNumber.AlwaysRefusedIff` | services/order-rpc/sharding/order_number_codec.go:52-58 | an int64 is refused at every clock exactly if it is not positive |
| `OrderNumber.ParseRepack` | services/order-rpc/sharding/order_number_codec.go:52-69 | an int64 is accepted exactly if it is positive and its time part is within the window, and then repacks to itself from fields in range |
| `OrderNumber.OrderIsLexicographic` | services/order-rpc/sharding/order_number_codec.go:45-49 | numeric order of packed numbers is the lexicographic order of time, genes, worker and sequence; equal numbers have equal fields |
| `OrderNumber.BuildInjective` | services/order-rpc/sharding/order_number_codec.go:32-50 | two successful builds give the same number exactly if time part, slot, worker and sequence agree |
| `OrderNumber.AcceptanceMonotone` | services/order-rpc/sharding/order_number_codec.go:80-89 | a number accepted at one clock is accepted with the same fields at every later clock |
| `OrderNumber.NumberSlotIsUserSlot` | services/order-rpc/sharding/order_number_codec.go:71-78 | wherever a built number is accepted, its logic slot is that of the user it was built for |
| `RouteMap.NewRouteMap` | services/order-rpc/sharding/route_map.go:49-76 | succeeds exactly if the version is named, every entry is valid, no (version, slot) repeats and the current version has an entry; every lookup is then a linear search of the list; says which error otherwise |
| `RouteMap.LookupIsSearch` | services/order-rpc/sharding/route_map.go:78-103 | a nested map that holds a well-formed list answers every version and slot, listed or not, as a linear search of the list does |
| `RouteMap.SearchFinds` | services/order-rpc/sharding/route_map.go:82-103 | a linear search of a list without repeats finds the route of any listed entry |
| `RouteMap.HoldsMore` | services/order-rpc/sharding/route_map.go:58-69 | adding a checked entry to the nested map keeps it equal to the list read so far |
| `RouteMap.WellFormedMore` | services/order-rpc/sharding/route_map.go:58-69 | the longer list is well formed exactly if the new entry passes the entry check and the duplicate check |
| `OrderStore.RepositoryActsAsOneTable` | services/order-rpc/repository/order_repository_sharded.go:51-102 | from empty tables, after any well-routed sequence of transactions by user or by number, with commits and rollbacks, every answer and both finds are those of one unsharded table; for every coherent reading of slots, which the static router's is |
| `OrderStore.LivePassActsAsOneTable` | services/order-rpc/repository/order_repository_sharded.go:51-102 | the same for the deployed system: static router, a loaded route map that serves every slot, and requests on orders whose numbers were built for their users |
| `OrderStore.GenuineIsWellRouted` | services/order-rpc/repository/order_repository_sharded.go:51-65 | a transaction by user on orders built for that user, or by number on that order, stays in the slot it is routed by |
| `OrderStore.StaticSlotsAreCoherent` | services/order-rpc/sharding/router.go:16-27 | by the static router's reading every user and every accepted number has one of the 1024 slots |
| `OrderStore.StaticSlotsAreStatic` | services/order-rpc/sharding/router.go:16-27 | the static router reads slots as the user-id and order-number codecs do: the slot of the user, and the slot written in a number exactly where the codec accepts it |
| `OrderStore.RepositoryRefinesSingleTable` | services/order-rpc/repository/order_repository_sharded.go:51-65 | any sequence of transactions: the answers are the single table's, and the tables remain its rows split by slot in the same order |
| `OrderStore.HandleRefines` | services/order-rpc/repository/order_repository_sharded.go:51-65 | one transaction by user or by number: same error or commit as on one table, and the refinement is kept |
| `OrderStore.TransactionRefines` | services/order-rpc/repository/order_repository_sharded.go:294-312 | all statements or none: a transaction on the home table does to the split what it does to the one table |
| `OrderStore.ExecuteRefines` | services/order-rpc/repository/order_repository_sharded.go:294-312 | one statement on the home table equals the statement on the one table, and leaves every other table's share alone |
| `OrderStore.FindsRefine` | services/order-rpc/repository/order_repository_sharded.go:67-102 | find by number and the page by user, with its total, give the one table's answer on any refining tables, errors included |
| `OrderStore.FindByNumberRefines` | services/order-rpc/repository/order_repository_sharded.go:67-77 | the row found by number is the row one table would give, or the same error |
| `OrderStore.FindPageRefines` | services/order-rpc/repository/order_repository_sharded.go:91-102 | page and total for a user are those of one table |
| `OrderStore.EmptyStoreRefines` | services/order-rpc/repository/order_repository_sharded.go:324-339 | empty deployed tables refine the empty table |
| `OrderStore.DeployedIff` | services/order-rpc/sharding/route_map.go:49-76 | a repository on a loaded route map has a table for every slot exactly if the list it was loaded from has, for every slot, an entry of the current version on a configured database and an existing table |
| `OrderStore.RoutesMeet` | services/order-rpc/sharding/router.go:16-27 | for a built number, at every clock that accepts it, the route by number and the route by its owner lead to the same table or the same error |
| `OrderStore.BuiltOrdersAreOwned` | services/order-rpc/sharding/order_number_codec.go:32-50 | an order whose number was built for its user carries that user's slot |
| `ExpiredScan.FindExpiredUnpaidBySlot` | services/order-rpc/repository/order_repository_sharded.go:104-183 | terminates however the tables go on changing; result strictly ascending in (expire time, id), within the limit, of rows seen; a matching row there at every page is missing only if the limit was reached before its key; routing and query errors as in the code |
| `ExpiredScan.KeepMatching` | services/order-rpc/repository/order_repository_sharded.go:160-170 | the inner loop keeps exactly the rows of the slot among those looked at, and stops at the limit with the last row kept |
| `ExpiredScan.StableScan` | services/order-rpc/repository/order_repository_sharded.go:104-183 | if nothing changes between pages, the paged scan is: sort by (expire time, id), filter by slot, take the limit |
| `ExpiredScan.Collect` | services/order-rpc/repository/order_repository_sharded.go:160-175 | one more page keeps the answer strictly ascending and complete up to the new cursor |
| `ExpiredScan.Exhausted` | services/order-rpc/repository/order_repository_sharded.go:156-179 | a short or empty page is the last: nothing that was visible throughout is missing |
| `ExpiredScan.QuerySpec` | services/order-rpc/repository/order_repository_sharded.go:135-155 | one keyset page is ascending, past the cursor, and gapless up to its last row, or everything if it is short |
| `ExpiredScan.CursorAdvances` | services/order-rpc/repository/order_repository_sharded.go:172-175 | each full page moves the cursor strictly up in a bounded space of keys |
| `ExpiredScan.SlotsDisjoint` | services/order-rpc/repository/order_repository_sharded.go:368-379 | scans of different slots of one table have no order in common |
| `ExpiredScan.ScansPartitionStore` | services/order-rpc/repository/order_repository_sharded.go:104-183 | over a store refining one table, the unlimited scan of a slot returns exactly the eligible orders of the one table whose accepted number carries the slot; so the scans cover and do not overlap |
| `GuardWalk.WalkActiveGuards` | services/order-rpc/repository/order_repository_sharded.go:211-242 | over tables that change between pages: databases in key order; guards strictly ascending in (db key, id), so none twice, each active when found; a completed walk misses none that was active throughout, a stopped one none up to the last handed over; no query twice; batch sizes, callback and query failures as in the code; terminates |
| `GuardWalk.WalkDatabase` | services/order-rpc/repository/order_repository_sharded.go:219-239 | the same of one database, by id |
| `GuardWalk.NextPage` | services/order-rpc/repository/order_repository_sharded.go:223-237 | one page extends the guards handed over, complete up to its last id, or altogether if it is short |
| `GuardWalk.OneMore` | services/order-rpc/repository/order_repository_sharded.go:219-239 | a database walked after others extends the whole, to its end or not |
| `GuardWalk.StableWalk` | services/order-rpc/repository/order_repository_sharded.go:211-242 | if no table changes, a guard is handed over exactly if it is an active guard of the show time with positive id in some database (up to the last one, if the walk stopped) |
| `Ordering.SortedKeys` | services/order-rpc/repository/order_repository_sharded.go:285-292 | the keys of a map, in whatever order it yields them, are returned sorted and without repeats |
| `RunTheorems.ReachableStates` | agents/app/runs/execution/runtime.py:130-164 | in every state reachable by any interleaving: the log folds to the stored status; the output message has the matching status; one active run per thread; one waiting call per run, exactly one when action is required; a task in flight is on a running or cancelled run |
| `RunTheorems.HistoryKeepsInv` | agents/app/runs/execution/executor.py:41-161 | every admissible history keeps the invariant and revives no finished run |
| `RunTheorems.StepKeepsInv` | agents/app/runs/execution/executor.py:41-161 | every admissible step does |
| `RunTheorems.OverStaysOver` | agents/app/runs/execution/executor.py:41-161 | a run that is over at one point of a history is over at every later point |
| `RunTheorems.StepIsLocal` | agents/app/runs/execution/projector.py:42-61 | a step changes nothing about any run but its own: status, message, calls, tasks, log |
| `RunTheorems.StartIsSafeIffQueued` | agents/app/runs/execution/executor.py:41-60 | starting a run keeps the guarantees if and only if the run is queued |
| `RunTheorems.CancelledBeforeStart` | agents/app/runs/execution/executor.py:41-60 | a concrete history: created, cancelled, a second run created, and then started; two active runs on one thread |
| `RunTheorems.GraphRunUpdateBreaksLog` | agents/app/runs/execution/runtime.py:203-210 | after a graph run update the log says running if and only if the text was empty or "running", which the code drops |
| `RunTheorems.SecondInterruptStrands` | agents/app/runs/execution/executor.py:118-127 | an interrupt in a resumed stream changes nothing but ends the task: the run is running, its call waits, nothing carries it |
| `RunTheorems.OnlyCancelFreesStranded` | agents/app/runs/execution/executor.py:68-161 | every admissible step but its own cancel leaves a stranded run stranded, and a resume is answered RunNotActive |
| `RunEffects.StepHasEffect` | agents/app/runs/execution/executor.py:41-161 | every admissible step does to every run exactly what a table says: new status, exactly which events are added to its log, and whether a task still carries it |
| `RunEffects.LeavingIsRight` | agents/app/runs/execution/executor.py:118-125 | how a task leaves its stream: call completed, run completed with the buffered text unless stopped, these events and no others, no task left |
| `RunEffects.RaisingIsRight` | agents/app/runs/execution/executor.py:126-134 | how a task leaves on an exception: a start fails the run; a resume fails call and run, or on an ApiError changes nothing; no task left |
| `RunEffects.ChunkIsRight` | agents/app/runs/execution/runtime.py:171-242 | what each kind of chunk does to a running run, the interrupt being refused exactly in a resumed stream |
| `RunEffects.StrandedIff` | agents/app/runs/execution/executor.py:90-134 | a run is stranded by a step if and only if the step is a decision that is not allowed, an interrupt in a resumed stream, or an ApiError out of one |
| `RunEffects.StrandingHistory` | agents/app/runs/execution/executor.py:68-127 | a concrete history from nothing that strands a run: created, started, interrupted, resumed with an edit, interrupted |
| `RunEffects.RefusedDecision` | agents/app/runs/execution/interrupt_bridge.py:49-60 | a resume whose decision is not allowed is answered so and leaves the run stranded, its call waiting, the invariant kept |
| `RunEffects.FinishedStatusChangesIff` | agents/app/runs/execution/projector.py:373-400 | the status of a finished run changes if and only if it was cancelled with its task in flight and that stream ends, or fails other than by an ApiError in a resume; to completed or failed respectively |
| `RunEffects.CompletedAfterCancellation` | agents/app/runs/execution/projector.py:373-400 | a concrete history: created, started, cancelled, stream ends; the run is completed and two events follow the cancellation |
| `RunEffects.GraphUpdateHistory` | agents/app/runs/execution/runtime.py:203-210 | a concrete history in which the graph reports completion: the log says completed, the run is running |
| `RunEffects.FinishedLogGrowsIff` | agents/app/runs/execution/projector.py:254-283 | a step adds to the log of a finished run if and only if it is one of these, or a chunk that stops a resumed task |
| `RunEffects.MoreCanBeLoggedIff` | agents/app/runs/execution/projector.py:373-400 | more can be logged of a finished run if and only if its task is in flight, which is only after a cancellation |
| `RunEffects.FinalLogStays` | agents/app/runs/execution/projector.py:373-434 | no history changes a completed or failed run or adds to its log |
| `RunEffects.HistoryKeepsFinalLast` | agents/app/runs/execution/projector.py:395-434 | over every history a completion or failure is the last event of its log |
| `RunTheorems.ChunkKeepsInv` | agents/app/runs/execution/runtime.py:153-164 | every chunk of the stream keeps the invariant and revives nothing, on a running and on a cancelled run |
| `RunTheorems.ProjectKeepsInv` | agents/app/runs/execution/runtime.py:171-242 | every chunk that is projected does |
| `RunTheorems.InterruptChunkKeepsInv` | agents/app/runs/execution/projector.py:146-252 | an interrupt keeps the invariant whether it is accepted or finds another call waiting |
| `RunSteps.NewRunKeepsInv` | agents/app/runs/repository.py:107-125 | creating a run in a thread without active runs keeps the invariant |
| `RunSteps.StartKeepsInv` | agents/app/runs/execution/executor.py:41-57 | starting a queued run keeps the invariant and leaves it running with its task |
| `RunSteps.ResumeKeepsInv` | agents/app/runs/execution/executor.py:90-117 | resuming the waiting call keeps the invariant |
| `RunSteps.CancelKeepsInv` | agents/app/runs/execution/projector.py:436-470 | cancelling keeps the invariant; the waiting call goes with the run |
| `RunSteps.InterruptKeepsInv` | agents/app/runs/execution/projector.py:146-252 | an interrupt seen by a started task keeps the invariant and leaves the run requiring exactly this call |
| `RunSteps.StreamEndKeepsInv` | agents/app/runs/execution/projector.py:373-400 | the end of a stream keeps the invariant, although finalizing looks at no status |
| `RunSteps.StopKeepsInv` | agents/app/runs/execution/runtime.py:159-161 | a task that stops because its run was cancelled keeps the invariant and the cancellation |
| `RunSteps.StreamFailureKeepsInv` | agents/app/runs/execution/executor.py:126-134 | a failing stream keeps the invariant: `start` fails the run, `resume` fails call and run, an ApiError in `resume` leaves both as they are |
| `RunSteps.LoggedKeepsInv` | agents/app/runs/execution/projector.py:107-144 | an event that is not a status event keeps the invariant, and the buffer stays the text logged since the task began |
| `RunSteps.FinalizedAgrees` | agents/app/runs/execution/projector.py:373-400 | after finalizing, log and read model agree: completed, reply stored, reply and completion are the last two events |
| `RunSteps.FailedAgrees` | agents/app/runs/execution/projector.py:402-434 | after failing, log and read model agree on failed |
| `RunSteps.CancelledAgrees` | agents/app/runs/execution/projector.py:436-470 | after cancelling, log and read model agree on cancelled, and exactly the cancellation events were added |
| `RunProofs.TouchedRunKeepsInv` | agents/app/runs/execution/projector.py:42-61 | a change confined to one run keeps the invariant of all if it keeps that of the one |
| `RunExecution.RunSystem.constructor` | agents/app/runs/repository.py:77-79 | a new system is the empty state |
| `RunExecution.RunSystem.NewRun` | agents/app/runs/repository.py:85-125 | the new state and the reply are those of the machine's create step: refused while the thread has an active run |
| `RunExecution.RunSystem.StartRun` | agents/app/runs/execution/executor.py:41-57 | is the start step: logs creation and start, sets running, whatever the status was |
| `RunExecution.RunSystem.ResumeRun` | agents/app/runs/execution/executor.py:68-117 | is the resume step, with all refusals and the repeated request that is answered without effect |
| `RunExecution.RunSystem.CancelRequested` | agents/app/runs/execution/executor.py:136-161 | is the cancel step, with all refusals |
| `RunExecution.RunSystem.ChunkArrived` | agents/app/runs/execution/runtime.py:153-164 | is the chunk step: stops on a cancelled run, projects otherwise |
| `RunExecution.RunSystem.ProjectChunk` | agents/app/runs/execution/runtime.py:171-242 | status, added events and remaining task as in the table of effects; an admissible chunk keeps the invariant |
| `RunExecution.RunSystem.StreamEnded` | agents/app/runs/execution/executor.py:58-60 | is the stream-end step |
| `RunExecution.RunSystem.StreamFailed` | agents/app/runs/execution/executor.py:61-66 | is the stream-failure step |
| `RunExecution.RunSystem.Leave` | agents/app/runs/execution/executor.py:118-125 | the task is gone; status and added events as in the table of effects; the invariant is kept if the stream ended or the run was cancelled |
| `RunExecution.RunSystem.Raise` | agents/app/runs/execution/executor.py:126-134 | the task is gone; status and added events as in the table of effects; the invariant is kept |
| `RunExecution.RunSystem.FinalizeRun` | agents/app/runs/execution/projector.py:373-400 | whatever the status was: run completed, message done with the reply, the two events added to this log, nothing else changed, and log, run and message agree |
| `RunExecution.RunSystem.FailRun` | agents/app/runs/execution/projector.py:402-434 | run failed, message in error with the reason, the two events added to this log, nothing else changed, and log, run and message agree |
| `RunExecution.RunSystem.CancelRun` | agents/app/runs/execution/projector.py:436-470 | withdraws the waiting call if there is one, then cancels run and message |
| `RunExecution.RunSystem.OnInterrupt` | agents/app/runs/execution/projector.py:146-252 | the call waits, the run requires action and its log says so, nothing else changed; if no call of the run waited, exactly this one does |
| `RunExecution.RunSystem.OnToolCallCompleted` | agents/app/runs/execution/projector.py:254-283 | of all waiting calls exactly this one no longer waits, it records the action, and the log, with its completion added, says of the run what it said before |
| `RunExecution.RunSystem.OnToolCallFailed` | agents/app/runs/execution/projector.py:326-354 | of all waiting calls exactly this one no longer waits, and the log, with its failure added, says of the run what it said before |
| `RunExecution.RunSystem.AppendEvent` | agents/app/runs/event_store.py:36-65 | appends to the run's own log and returns the next number |
| `RunExecution.RunSystem.FindActiveByThread` | agents/app/runs/repository.py:150-159 | finds an active run of the thread if and only if there is one |
| `RunExecution.RunSystem.FindWaitingByRun` | agents/app/runs/tool_call_repository.py:41-45 | finds a waiting call of the run if and only if there is one |
| `EventStream.StreamEvents` | agents/app/runs/execution/stream.py:49-70 | whatever is appended at each suspension, the client gets after+1, after+2, ... of the log with no gap or repeat, stops at the first closing event handed over, and waits only when it has everything |
| `EventStream.HandOver` | agents/app/runs/execution/stream.py:56-60 | handing over a listed batch while others append keeps the stretch gapless and stops at a closing event |
| `EventStream.ListAfter` | agents/app/runs/event_store.py:67-69 | on a numbered log, the listing after a number is the suffix from there |
| `EventStream.StoresAgree` | agents/app/runs/event_store.py:80-140 | max+1 and length+1 number the same on a numbered log, which stays numbered |
| `EventStream.MaxNoIs` | agents/app/runs/event_store.py:96-105 | the largest number of a numbered stretch is its last |
| `EventStream.ReconnectingIsGapless` | agents/app/runs/execution/stream.py:49-70 | any chain of connections, each asking from the last number received, has received one stretch of the log |
| `EventStream.ClosedByRunMeansOver` | agents/app/runs/execution/stream.py:72-75 | if the last event logged so far closes the run, the run is over |
| `EventStream.ClosedStreamIsWhole` | agents/app/runs/execution/stream.py:56-60 | a client whose stream closed at a completion or failure has the log to its end, and no later history adds to it |
| `EventStream.ClosedAtCancellation` | agents/app/runs/execution/stream.py:56-60 | after a cancellation at the end of the log more can be logged if and only if the task of the run is still in flight |
| `EventStream.MissedEvents` | agents/app/runs/execution/stream.py:56-60 | a client that received the whole log up to the cancellation, at which its stream closed, and the two events that history adds afterwards |
| `HumanApproval.WritesAtMostOnce` | agents/app/agents/tools/hitl_wrapper.py:34-56 | over all attempts of a tool call, with any edits, replays and changing previews: at most one write, as the very last act, exactly when the last attempt ended written |
| `HumanApproval.WritesOnlyWhatWasApproved` | agents/app/agents/tools/hitl_wrapper.py:34-47 | the values written are those in the interrupt the attempt before stopped at, and the last decision approves them |
| `HumanApproval.RunWritesProperly` | agents/app/agents/tools/hitl_wrapper.py:34-56 | one attempt: a write only at the end, on the payload just asked about, in preview mode right after a preview of it that did not refuse |
| `HumanApproval.SuspendedAsksEdited` | agents/app/agents/tools/hitl_wrapper.py:41-46 | a suspended attempt asks about the payload its edits lead to, whatever the previews answered |
| `HumanApproval.WrittenIsApproved` | agents/app/agents/tools/hitl_wrapper.py:42-46 | if all decisions but the last are edits, a write is on the payload they lead to and the last decision approves it |
| `HumanApproval.ApprovesOriginal` | agents/app/agents/tools/hitl_wrapper.py:82-113 | a decision normalises to an approval of the payload asked about or to no approval at all |
| `HumanApproval.PreviewIsCurrentIff` | agents/app/agents/tools/hitl_wrapper.py:34-47 | for every approval that ends in a write: the preview shown in the approved interrupt is the one the write follows if and only if the preview tool answers the replayed call as it answered the call the human saw |
| `HumanApproval.PureToolIsCurrent` | agents/app/agents/tools/hitl_wrapper.py:37-44 | a preview tool that answers as a function of the payload is never stale |
| `HumanApproval.SuspendedShows` | agents/app/agents/tools/hitl_wrapper.py:37-41 | a suspended attempt shows the answer to its last preview, which was of the payload asked about |
| `HumanApproval.WriteFollows` | agents/app/agents/tools/hitl_wrapper.py:37-44 | a write follows a preview of the written payload made in its own execution |
| `HumanApproval.ApprovedPreviewMayBeStale` | agents/app/agents/tools/hitl_wrapper.py:37-44 | a concrete approval in which the previewed amount changes between the interrupt and the write |
| `ResumeBridge.BridgePreservesDecision` | agents/app/runs/execution/interrupt_bridge.py:41-79 | from a wrapper's interrupt to the wrapper's verdict: the command is built exactly for the advertised actions and means approve(p), edit(p overlaid by the new values) or reject(reason) |
| `ResumeBridge.CommandMeansDecision` | agents/app/runs/execution/interrupt_bridge.py:41-79 | the same for any stored call holding the payload |
| `ResumeBridge.WrapperCall` | agents/app/runs/interrupt_models.py:18-48 | a wrapper's interrupt is accepted and its call keeps payload, tool and actions |
| `ResumeBridge.NormalizeAllowedActions` | agents/app/runs/tool_call_contract.py:10-21 | the loop computes the specified list of actions |
| `ResumeBridge.AllowedActionsSpec` | agents/app/runs/tool_call_contract.py:10-21 | never empty, no repeats, known actions only; exactly the listed known ones, or all three if none is listed |
| `ResumeBridge.AllowedActionsIdempotent` | agents/app/runs/tool_call_contract.py:24-30 | normalising the normalised list changes nothing |
| `Outbox.LifecycleShape` | pkg/delaytask/outbox_lifecycle.go:10-41 | no edge leaves the terminal status; a row to republish can be published and processed; edges stay within the declared statuses |
| `Outbox.DispatcherIsSafe` | jobs/rush-inventory-preheat/internal/outbox/store.go:118-148 | a dispatcher statement leaves processed and retired rows alone, moves a status along a declared edge or not at all, and counts each hit once |
| `Outbox.FollowsLifecycleIff` | jobs/rush-inventory-preheat/internal/svc/worker_service_context.go:160-202 | any statement that hits a row follows the declared edges exactly unless it processes a pending row, fails a processed one, or enqueues again one that has left pending |
| `Outbox.LeavesProcessedIff` | jobs/rush-inventory-preheat/internal/svc/worker_service_context.go:182-202 | a row leaves processed exactly by a consume failure reported for it or by being enqueued again |
| `Outbox.ListDispatchable` | jobs/rush-inventory-preheat/internal/outbox/store.go:65-116 | fails exactly if some database fails; otherwise every live unprocessed row of the type of every database, once, by (id, database), and nothing else |
| `Outbox.FetchedSpec` | jobs/rush-inventory-preheat/internal/outbox/store.go:78-106 | the tasks made from one database are exactly its dispatchable rows of the type, in ascending id order |
| `Outbox.GatherOne` | jobs/rush-inventory-preheat/internal/outbox/store.go:77-107 | each database adds exactly its own tasks |
| `Dispatcher.Store.RunOnce` | jobs/rush-inventory-preheat/internal/dispatch/run_once_logic.go:30-89 | fails exactly if the listing or a mark fails; the rows are those of marking the tasks before that, or all, in listing order by their own publications, and the counts are right |
| `Dispatcher.Store.Mark` | jobs/rush-inventory-preheat/internal/outbox/store.go:118-148 | the statement on the database of the reference and on no other, or none if it cannot be carried out |
| `Dispatcher.RunMarksEachRowOnce` | jobs/rush-inventory-preheat/internal/dispatch/run_once_logic.go:45-85 | after a run through the first tasks or all of them, the rows of those tasks have one more attempt and the status of their own publication, and every other row is as it was; the tasks are exactly the live unprocessed rows of the type |
| `Dispatcher.MarkAllStep` | jobs/rush-inventory-preheat/internal/dispatch/run_once_logic.go:45-85 | marking one task more is its one statement on top of the marks before |
| `Dispatcher.MarkedRow` | jobs/rush-inventory-preheat/internal/dispatch/run_once_logic.go:56-74 | the row of a listed task is marked exactly once, by its own outcome |
| `Dispatcher.UntouchedRow` | jobs/rush-inventory-preheat/internal/dispatch/run_once_logic.go:45-85 | a row no remaining task refers to is not changed |
| `OutboxRaces.HistoryKeepsInv` | jobs/rush-inventory-preheat/internal/dispatch/run_once_logic.go:38-85 | over every interleaving of dispatchers, workers, new, repeated and retired tasks: ids and keys unique, declared statuses only, published and processed rows were accepted by the queue, held tasks still name their rows |
| `OutboxRaces.StepKeepsInv` | jobs/rush-inventory-preheat/internal/dispatch/run_once_logic.go:38-85 | every step keeps this |
| `OutboxRaces.LateMarksAreSafe` | jobs/rush-inventory-preheat/internal/outbox/store.go:118-148 | however late a dispatcher marks what it listed, processed and retired rows stay as they are and any other status moves along a declared edge or not at all |
| `OutboxRaces.StepLeavesLifecycleIff` | services/program-rpc/internal/svc/rush_inventory_preheat_client.go:53-81 | a step moves a row along no declared edge if and only if a worker processes it while pending, a worker reports a failure when it is processed, or its key is enqueued again after it has left pending |
| `OutboxRaces.ProcessedStep` | services/program-rpc/internal/svc/rush_inventory_preheat_client.go:53-81 | a step takes a row out of processed if and only if it reports a consume failure for it while it is live or enqueues its key again |
| `OutboxRaces.RetiredStep` | services/program-rpc/internal/svc/rush_inventory_preheat_client.go:60-71 | a retired row is live again if and only if its key is enqueued again |
| `OutboxRaces.ReopenedHistory` | services/program-rpc/internal/svc/rush_inventory_preheat_client.go:53-81 | a concrete history from an empty outbox: added, listed, published, processed from pending, added again and pending again |
| `OutboxRaces.EnqueuedUnique` | services/program-rpc/internal/svc/rush_inventory_preheat_client.go:53-81 | the upsert keeps ids and keys unique |
| `OutboxRaces.ProcessedStays` | jobs/rush-inventory-preheat/internal/svc/worker_service_context.go:160-202 | over every history a processed row stays processed unless a worker reports a failure for that very task or the task is enqueued again |
| `OutboxRaces.NothingIsForgotten` | jobs/rush-inventory-preheat/internal/outbox/store.go:79-92 | at any point of any history a query of its database and type gives a live row exactly if it is not processed, and a row published or processed was accepted by the queue |
| `OutboxRaces.ListingMissesNothing` | jobs/rush-inventory-preheat/internal/outbox/store.go:77-115 | databases are queried one after the other while everything goes on: a row to be dispatched from the beginning of a listing to its end is among the tasks the dispatcher then works through |
| `OutboxRaces.ListingCatches` | jobs/rush-inventory-preheat/internal/outbox/store.go:77-107 | at every point of a listing such a row has been found or its database is still to be queried |
| `OutboxRaces.ConsumedBeforeMarked` | jobs/rush-inventory-preheat/internal/svc/worker_service_context.go:160-180 | if the queue delivers before the mark, the worker takes a pending row to processed, which no edge allows, and the mark then changes nothing |
| `Preheat.Handle` | jobs/rush-inventory-preheat/internal/worker/rush_inventory_preheat_task_logic.go:28-95 | outcome, calls in order and final tables of every path: skipped, listing failed, closed without priming, priming stopped at the first failing call, primed and committed; the preheat transaction comes exactly after the rush runtime and every opening show time in order |
| `Preheat.Collect` | jobs/rush-inventory-preheat/internal/worker/rush_inventory_preheat_task_logic.go:50-59 | succeeds exactly if every listed open time is the task's, with exactly the show times that have one |
| `Preheat.PrimeLedgers` | jobs/rush-inventory-preheat/internal/worker/rush_inventory_preheat_task_logic.go:69-75 | primes in order, all of them exactly if none fails, otherwise up to and including the first that fails |
| `Preheat.PreheatedByPriming` | jobs/rush-inventory-preheat/internal/worker/rush_inventory_preheat_task_logic.go:42-84 | in every history of overlapping handlers and changes by others, stale whole-row writes included, a program that came to be preheated was primed completely by a handler whose expected open time was still the stored one when it committed |
| `Preheat.OnlyPriming` | jobs/rush-inventory-preheat/internal/worker/rush_inventory_preheat_task_logic.go:77-84 | a step at which a program becomes preheated is the commit of such a handler, or puts back a preheat status that was there before |
| `Preheat.StaleStatusComesBack` | services/program-rpc/internal/logic/invalid_program_logic.go:37-47 | a concrete history: preheated, rescheduled, and preheated again by a stale row write |
| `Preheat.RescheduledMeanwhile` | jobs/rush-inventory-preheat/internal/worker/rush_inventory_preheat_task_logic.go:42-94 | a concrete run: due when listed, rescheduled before the commit; everything is primed, the task is processed and nothing is preheated |
| `Preheat.PrimedBeforeCommit` | jobs/rush-inventory-preheat/internal/worker/rush_inventory_preheat_task_logic.go:64-75 | before its commit a full priming called the rush runtime and then the ledger of exactly the listed show times with an open time |
| `Preheat.PreheatOnlyIfStillDue` | jobs/rush-inventory-preheat/internal/svc/worker_service_context.go:112-145 | the transaction sets a preheat status to 2 exactly for the task's program if at that moment it is live and its open time is still the task's, and changes nothing else about any program |
| `Preheat.ClosedWithoutPreheat` | jobs/rush-inventory-preheat/internal/svc/worker_service_context.go:140-148 | the transaction closes the task in any case; the programs stay as they were exactly if the program was not due or was preheated already |
| `Preheat.LedgerCallsAt` | jobs/rush-inventory-preheat/internal/worker/rush_inventory_preheat_task_logic.go:69-75 | a full priming calls the ledger of the k-th opening show time as its k-th call |
| `Preheat.OpeningMembers` | jobs/rush-inventory-preheat/internal/worker/rush_inventory_preheat_task_logic.go:51-58 | an id is to be primed exactly if a listed show time with an open time has it |
| `Pagination.PageSpec` | agents/app/conversations/threads/repository.py:219-231 | a page without naming sorting: descending, of qualifying rows, complete down to its cursor, or complete altogether without one |
| `Pagination.WalkSpec` | agents/app/conversations/threads/repository.py:190-231 | following cursors over changing rows: strictly descending, only rows that were there, every qualifying row that stays throughout, and exactly one row for every key that qualifying rows have throughout, whatever else of them changes |
| `Pagination.WalkIsTheWhole` | agents/app/conversations/threads/repository.py:190-231 | if nothing changes below the first cursor, following cursors gives exactly the sorted rows of the first view |
| `Pagination.LeftAfter` | agents/app/conversations/threads/repository.py:228-230 | page and remainder after its cursor make up what was left, and the page is full |
| `Conversations.MessageFormsAgreeIff` | agents/app/conversations/messages/repository.py:53-73 | the in-memory page and cursor are those of the SQL form if and only if the limit is positive or nothing qualifies |
| `Conversations.ZeroLimitDiffers` | agents/app/conversations/messages/repository.py:70-72 | for one message and limit 0 the in-memory form returns it with a cursor and the SQL form nothing |
| `Conversations.MessageBeforeIsBelow` | agents/app/conversations/messages/repository.py:173-177 | the two-way SQL condition is the order of the (created at, id) keys |
| `Conversations.MessagePage` | agents/app/conversations/messages/repository.py:177-187 | limit+1, truncate and reverse is the page of the greatest keys below the cursor, reversed |
| `Conversations.MessageWalkSpec` | agents/app/conversations/messages/repository.py:157-189 | following message cursors while rows change: key order, no message twice, none missing that was there throughout, even if its status or content changed meanwhile |
| `Conversations.WholeThreadIsRead` | agents/app/conversations/messages/repository.py:157-189 | while messages only arrive above the first cursor, the client gets exactly the thread as it was at the first page, in order |
| `Conversations.MessageWalkEnds` | agents/app/conversations/messages/repository.py:157-189 | on unchanged rows following cursors ends for any limit of at least 1, and every page but the last is full |
| `Conversations.ThreadFormsAgree` | agents/app/conversations/threads/repository.py:62-94 | for threads the in-memory page and cursor are those of the SQL form, for every limit and cursor, with and without empty threads |
| `Conversations.ThreadBeforeIsBelow` | agents/app/conversations/threads/repository.py:209-218 | the three-way SQL condition is the order of the (sort time, created at, id) keys |
| `Conversations.ThreadWalkSpec` | agents/app/conversations/threads/repository.py:190-231 | following thread cursors while threads move: descending, and every thread that keeps its place is listed once, even if its title changed meanwhile |
| `Conversations.ThreadWalkEnds` | agents/app/conversations/threads/repository.py:190-231 | on unchanged rows following cursors ends and has listed exactly the user's threads, latest first |
| `Cursor.CursorRoundTrip` | agents/app/shared/cursor.py:7-14 | every byte string comes back from its unpadded base64url text |
| `Cursor.StrippedShape` | agents/app/shared/cursor.py:9-13 | the stripped text has ceil(4n/3) characters, all of the URL alphabet, and the padding computed from its length is the padding that was stripped |
| `Cursor.DecodeEncodePadded` | agents/app/shared/cursor.py:9-14 | padded base64url decodes back |
| `Cursor.CursorsAreDistinct` | agents/app/shared/cursor.py:7-9 | different bytes have different cursors |
| `FreezeToken.ParseIsExactInverse` | pkg/seatfreeze/freeze_token.go:13-32 | a string parses to a token if and only if it is the print of that token and all three numbers are positive int64s |
| `FreezeToken.FormatInjective` | pkg/seatfreeze/freeze_token.go:13-20 | different proper tokens print differently |
| `FreezeToken.ScanFormatted` | pkg/seatfreeze/freeze_token.go:22-26 | scanning the print of a proper token gives the token |

## Left out

- Clients of MySQL, Redis, asynq, Kafka and gRPC, and everything generated: they are tables, a queue and arguments that say what fails.
- LangGraph, models, prompts and specialists: the runtime is an arbitrary stream of chunks.
- RunSpec: a stream ends at its interrupt. The code reads on until the graph stops; what a graph would send after its own interrupt is not modelled.
- RunSpec: thread and user ownership checks, timestamps, metadata, titles and error details are not part of the state; neither is the cancellation of tasks when the process shuts down.
- RunSpec: `FindActive` and `FindWaiting` return some match; the code's choice among several is immaterial because there is at most one.
- The legacy runtime path without `astream`, and the `human_input` tool.
- OrderStore: tickets, guards and delay tasks written in the same transaction, and the row identity of a primary key across tables. The statements of a transaction are assumed to stay with the slot it was routed by, as the callers of the repository do.
- GuardWalk: user and viewer guards are walked by the same loop and modelled once.
- The order-close dispatcher and outbox store, which are copies of the modelled ones.
- OutboxRaces: a dispatcher may query the databases in any order, which includes the code's sorted order.
- Outbox: the logged counters and the attempt count read before a worker's update, which only go to the log.
- Preheat: others never set a preheat status to 2 of their own accord, as program creation and scheduling do not; this is an assumption on the rest of the system, in `Happens`. They may put back one that was there, and change everything else at any time.
- Preheat: times are whole seconds, so the local-time formatting of an hour repeated at the end of daylight saving is not modelled; parsing of the task payload is an input.
- FreezeToken: Sscanf's treatment of newlines in its input.
- Json: the text of floats and the text inside containers is abbreviated; no decision is made on it.
- Conversations: negative limits, which the API refuses, messages without a creation time, and collations of MySQL other than by code point.
- Conversations: rows are values; the in-place updates of a message or thread appear as a different view at the next page.
- Cursor: the JSON, UTF-8 and ISO time inside a cursor, and what the lenient decoder does with characters outside the alphabet.
- Nil receivers and nil elements of Go slices.
- Gateway, authentication, checkpoint saver, tool registry, configuration.
