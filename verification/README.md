# wlcs, modelled and proved in Dafny

wlcs is a conformance test suite for Wayland compositors. This project models the parts of it
that are state machines or protocols and proves what they promise for every run. Each file
holds one module, named after the component; `dafny verify dfyconfig.toml` checks them all.

- **Wire**, **ThreadProxy**: calls from any thread are marshalled into one message each, run
  on the event loop and answered. The specification is `NullProxy`, under which a thunk simply
  is its handler. A step system over callers, mutex, two channels, handler table and loop is
  proved to refine it, to keep one call in flight, and to be free of deadlock.
- **Executor**: the work queue with its semaphore eventfd; no wakeup and no work is lost.
- **Pointer**, **Touch**: the client's frame-batched input state. A gtest `FAIL()` records and
  returns, so the theorems range over arbitrary event streams.
- **Notifiers**, **PointerNotifiers**: the lists of callbacks that stay while they return true,
  and what the pointer's state machine tells them.
- **FrameCallbacks**: ownership of frame closures, also when a surface is destroyed from
  inside its own callback.
- **Subsurface**: the commit loop of `create_visible`, against the cached-state rule of
  interface wl_subsurface of the Wayland core protocol.
- **Dispatch**: `dispatch_until`, its clock, its poll and its read intents.
- **Registry**, **Outputs**: the maps behind `bind_if_supported`, and double-buffered outputs.
- **Rectangles**, **LayerLayout**: half-open rectangles and the placement oracle over them.
- **TestListener**: what counts as failed, what as skipped, and the exit status.

State that the original updates in place is a class whose methods are tied to a step function
on values; loops are loops with invariants; the theorems are lemmas about the step functions
and about whole runs of them. **Common** holds what all modules share.

## What the code does not do

Some properties one would expect turn out to hold only under a condition. Each has a lemma with
an input that breaks it, named first, and one that says exactly when it holds.

- A touch that comes down and lifts within one frame stays down, since the up is refused:
  `Touch.TapStaysDown`, `Touch.BatchingShowsIff`. One that moves and lifts within one frame stays
  down too, since moves are applied after lifts: `Touch.MovedAndLiftedStays`,
  `Touch.FrameIsReplay`.
- A pointer that only passes over a surface within one frame stays on it, since the leave is
  refused: `Pointer.PassingOverIsLost`, `Pointer.FramesAgreeIff` for correct compositors and
  `Pointer.BatchingShowsIff` for all. A motion after a leave in one frame puts the pointer back
  on the surface it left: `Pointer.MotionAfterLeaveReenters`, `Pointer.FramesCommitReplay`.
- `on_release` forgets the right notifiers only if at most one of them has finished:
  `Notifiers.TwoExpiriesGoWrong`, `Notifiers.ReleaseKeepsWantedIff`.
- A timeout above 4294967 seconds can be reported at once, since the milliseconds are narrowed
  to an int for poll: `Dispatch.LongWaitTimesOutEarly`, `Dispatch.PunctualIff`.
- A call of `dispatch_until` that finds the deadline passed leaves a read intent open:
  `Dispatch.LateCallLeavesIntentOpen`, `Dispatch.IntentOpenIff`.
- A handler whose index is 2^32 or more is sent under another opcode:
  `Wire.FirstTruncatedOpcode`, `Wire.OpcodeNamesItsIndex`.
- A suite tear-down that fails after a skipping test hides a failure of the next test:
  `TestListener.TearDownFailureHidesNextTest`, `TestListener.JudgedRightIff`. A set-up that fails
  before the first test of an iteration is charged to the last test of the iteration before:
  `TestListener.SetUpFailureIsCharged`, `TestListener.ListedRightIff`.
- If the margins of a doubly anchored layer surface leave no room at all, the default size is
  used, and the surface sticks out and is not placed symmetrically:
  `LayerLayout.NoRoomSticksOut`, `LayerLayout.AxisInsideIffFits`, `LayerLayout.AxisMirrors`.
- `overlaps` may hold without a common point if a size is negative:
  `Rectangles.NegativeSizeMayOverlap`, `Rectangles.OverlapsWrongIff`.
- Removing one global hides the others of its interface: `Registry.RemovalHidesOtherGlobal`,
  `Registry.KnownIff`.
- An id announced again for another interface leaves a stale entry for the first one:
  `Registry.ReusedIdMakesStaleEntry`, `Registry.GlobalsAreLiveIff`.

## Model

| member | source | states |
|---|---|---|
| `Wire.FlattenSize` | src/thread_proxy.h:137-146 | the bytes of a packed argument list number the sum of the argument sizes |
| `Wire.UnpackPacked` | src/thread_proxy.h:98-163 | unpacking what was packed gives back the same values, whatever bytes follow in the buffer |
| `Wire.PackUnpacked` | src/thread_proxy.h:109-119 | unpacking any buffer loses nothing of the bytes it covers: packing the result gives them back, so unpacking is injective |
| `Wire.NumberRoundTrip` | src/thread_proxy.h:218 | a number written in w bytes reads back as itself if it is below 256^w |
| `Wire.OpcodeRoundTrip` | src/thread_proxy.h:443 | every opcode reads back as itself from the head of the receive buffer |
| `Wire.MessageRoundTrip` | src/thread_proxy.h:213-219 | a message is 4 bytes plus its arguments, and the receive buffer determines opcode and arguments whatever its tail holds |
| `Wire.OpcodeNamesItsIndex` | src/thread_proxy.h:365-368 | a thunk's message reaches the table index it was made for if and only if that index is below 2^32 |
| `Wire.FirstTruncatedOpcode` | src/thread_proxy.h:395-398 | index 2^32 is sent as opcode 0, that of the destructor |
| `Wire.PackBuffer` | src/thread_proxy.h:148-163 | packing in place writes exactly the concatenated arguments and leaves every other byte of the buffer as it was |
| `Wire.BuildMessage` | src/thread_proxy.h:213-219 | under the static_assert on the arguments no write passes the end of the buffer, and the message built is the specified one |
| `ThreadProxy.RunHandlerFrame` | src/thread_proxy.h:436-447 | the loop's reaction to a message touches only the server, the history of runs and its end of the socket |
| `ThreadProxy.RunPacked` | src/thread_proxy.h:291-338 | what the loop does on receiving a packed call is that call: its own handler on its own arguments, never undefined |
| `ThreadProxy.RunDestructor` | src/thread_proxy.h:413-426 | the destructor's message stops the event source and runs no other handler |
| `ThreadProxy.ReplyRoundTrip` | src/thread_proxy.h:239-260 | the caller reads back the handler's value, and a void call its dummy byte of length one, never a short reply |
| `ThreadProxy.DirectIgnoresLaterOps` | src/thread_proxy.h:365-368 | registering another operation changes no earlier direct call |
| `ThreadProxy.DirectCallsItsHandler` | src/in_process_server.cpp:446-454 | one more direct call is the handler itself, applied to the server as the calls before left it and to the arguments given |
| `ThreadProxy.RegisterBindsNewThunk` | src/thread_proxy.h:365-368 | register_op gives out a new thunk bound to the handler registered, and no other thunk changes |
| `ThreadProxy.TableIsAppendOnly` | src/thread_proxy.h:340-399 | in every run the handler table of an earlier state is a prefix of that of a later one |
| `ThreadProxy.StepKeepsTyped` | src/thread_proxy.h:340-399 | every step keeps all calls well typed and on live thunks, and a destroyed proxy without thunks or owner |
| `ThreadProxy.StepKeepsSerial` | src/thread_proxy.h:262-288 | every step keeps the lock exclusive, the n-th message that of the n-th lock holder, and the socket in the state its holder's phase implies |
| `ThreadProxy.StepKeepsFaithful` | src/thread_proxy.h:262-338 | every step keeps the handler runs equal to the direct calls in lock order and each caller's result that of its own run |
| `ThreadProxy.ExecuteStep` | src/thread_proxy.h:436-447 | the message the loop has just read is the call that took the lock last, or the destructor's if nobody holds it |
| `ThreadProxy.ExecutionInv` | src/thread_proxy.h:206-447 | all three invariants hold in every state of every run |
| `ThreadProxy.RunsAreDirectCalls` | src/in_process_server.cpp:446-454 | the values of the handler runs are those of the direct calls in lock order, and so is the server's state once all have run |
| `ThreadProxy.ProxyRefinesDirectCalls` | src/thread_proxy.h:262-399 | for any number of threads and any interleaving, handlers run one at a time in lock order, and every returned call got exactly the value that its own handler yields on its own arguments when the handlers are called directly in that order; so does the server end in the state that they leave; nothing undefined happens |
| `ThreadProxy.OneInFlight` | src/thread_proxy.h:262-288 | at most one request, running handler or reply exists, and until destruction exactly while one caller, the lock holder, waits |
| `ThreadProxy.DestructorMessageIsLast` | src/thread_proxy.h:401-433 | a message carries opcode 0 if and only if it is the last one of a destroyed proxy, and nothing is sent afterwards |
| `ThreadProxy.NothingSentAfterDestroy` | src/thread_proxy.h:428-433 | once destroyed a proxy stays so and its history of messages never changes |
| `ThreadProxy.InternalStepDecreases` | src/thread_proxy.h:262-288 | every step that carries a call on decreases one measure |
| `ThreadProxy.NeverStuck` | src/thread_proxy.h:262-288 | while any thread is inside a thunk some step that carries a call on is enabled |
| `ThreadProxy.CallsComplete` | src/thread_proxy.h:213-288 | from every state with the invariants all started calls can be carried to their return |
| `ThreadProxy.InternalRunsAreBounded` | src/thread_proxy.h:213-288 | no schedule without new calls is longer than the measure, so no call waits for ever |
| `Executor.NoLostWakeup` | example/mir_integration.cpp:301-403 | in every reachable state the queue is covered by the counter, the spawns yet to write and the handler if it is running; taken followed by queued work is the spawn order |
| `Executor.QuiescentIsDrained` | example/mir_integration.cpp:301-403 | where no step but a spawn is possible, the queue is empty and all work was taken in order |
| `Executor.AllWorkIsTaken` | example/mir_integration.cpp:301-403 | after the last spawn every schedule is bounded and, where it ends, all work was taken once, in order |
| `Executor.DrainConserves` | example/mir_integration.cpp:385-400 | a drain keeps the order, spawns exactly what the work it takes spawns, and stops at the first empty function or when nothing is left |
| `Executor.DrainIsARun` | example/mir_integration.cpp:385-400 | the drain loop with all the spawns inside it is a run of the step system |
| `Executor.OnNotifyIsARun` | example/mir_integration.cpp:370-403 | a whole notification is a run of the step system, also while other threads have pushed work and not yet written |
| `Executor.SpawningIsARun` | example/mir_integration.cpp:301-311 | spawning from inside a work item, under the recursive mutex, is a run of the step system |
| `Executor.WaylandExecutor.Spawn` | example/mir_integration.cpp:301-311 | appends the work and adds one wakeup |
| `Executor.WaylandExecutor.GetWork` | example/mir_integration.cpp:357-368 | takes the front of the queue, or gives an empty function |
| `Executor.WaylandExecutor.RunItem` | example/mir_integration.cpp:386-391 | work spawned by a work item is queued in order with one wakeup each |
| `Executor.WaylandExecutor.TakeAndRun` | example/mir_integration.cpp:386-400 | one round of the loop leaves the end of the drain what it was and makes the remaining work smaller |
| `Executor.WaylandExecutor.OnNotify` | example/mir_integration.cpp:370-403 | ends in the state of a complete drain, with one wakeup consumed |
| `Pointer.RunInv` | src/in_process_server.cpp:1382-1496 | for every stream a leave is pending only while on a surface, and a pending location without a leave is on the current surface |
| `Pointer.FrameIsAlwaysAccepted` | src/in_process_server.cpp:1461-1464 | the failure in pointer_frame is unreachable |
| `Pointer.NoticesFollowTheProtocol` | src/in_process_server.cpp:1457-1489 | for every stream the notifications form enter(s) motion* leave(s) repeated, and what a listener concludes of surface and coordinates is always the client's current location |
| `Pointer.FrameTellsOnce` | src/in_process_server.cpp:1457-1496 | a frame tells one leave if one was accepted since the last, then one enter or motion if one was accepted after it, then the buttons, and nothing else |
| `Pointer.AcceptedIff` | src/in_process_server.cpp:1382-1441 | which events are accepted, by what the listeners have been told and what came since the last frame |
| `Pointer.SerialIsLast` | src/in_process_server.cpp:1391-1452 | the serial is that of the last event that has one, accepted or not |
| `Pointer.EffectiveIsReplayIff` | src/in_process_server.cpp:1382-1441 | of the events that the client accepts, pending over current state is their immediate handling unless a motion followed a leave, in which case only the client has a location |
| `Pointer.FramesCommitReplay` | src/in_process_server.cpp:1382-1489 | a frame makes current exactly what the events that the client accepted lead to if and only if no motion followed the last leave in its frame; events that the client refuses are not replayed here |
| `Pointer.MotionAfterLeaveReenters` | src/in_process_server.cpp:1426-1441 | leave, motion, frame puts the pointer back on the surface that it left, from any state on a surface |
| `Pointer.BatchingShowsIff` | src/in_process_server.cpp:1382-1489 | for every stream: wherever the frame events come, a frame makes current what a client without frames, with its own acceptance, has, if and only if no event divides the two |
| `Pointer.DividesIff` | src/in_process_server.cpp:1382-1441 | one event divides them exactly if it is a second enter of the frame to another place, a leave that only one accepts after an enter in the frame, or a motion after a leave |
| `Pointer.FramesAgreeIff` | src/in_process_server.cpp:1382-1489 | for every stream of a correct compositor the client is right at every frame if and only if no frame ends with a leave that the client refused |
| `Pointer.PassingOverIsLost` | src/in_process_server.cpp:1413-1414 | enter and leave of one surface in one frame leave the client on it |
| `Pointer.ButtonsAreLastPresses` | src/in_process_server.cpp:1443-1455 | the pending buttons hold for each button the state last sent since the last frame |
| `Pointer.PressesAt` | src/in_process_server.cpp:1542-1557 | the reports of a frame are one for each pending button, ascending |
| `Pointer.FrameReportsLastPresses` | src/in_process_server.cpp:1443-1496 | a frame reports a button with a state if and only if that state was the last sent since the last frame; each once, ascending |
| `Pointer.PointerTracker.OnEnter` | src/in_process_server.cpp:1382-1402 | takes the step of an enter event and records a failure exactly if it is not accepted |
| `Pointer.PointerTracker.OnLeave` | src/in_process_server.cpp:1404-1424 | takes the step of a leave event; no empty optional is read |
| `Pointer.PointerTracker.OnMotion` | src/in_process_server.cpp:1426-1441 | takes the step of a motion event; no empty optional is read |
| `Pointer.PointerTracker.OnButton` | src/in_process_server.cpp:1443-1455 | takes the step of a button event and never fails |
| `Pointer.PointerTracker.OnFrame` | src/in_process_server.cpp:1457-1496 | takes the step of a frame and gives the notifications in the order of the calls: leave, enter or motion, buttons |
| `Touch.RunInv` | src/in_process_server.cpp:1586-1648 | in every run lifted ids are down, and an id that is pending and down has the same surface in both |
| `Touch.SurfaceIsFixed` | src/in_process_server.cpp:1586-1648 | a touch keeps its surface from the frame it appears with until a frame after which it is absent |
| `Touch.WithinFrame` | src/in_process_server.cpp:1573-1631 | what the pending sets hold and what the events accepted so far lead to, for each id at each point of a frame |
| `Touch.FrameAgreesAt` | src/in_process_server.cpp:1633-1649 | a frame and the replay of the events that the client accepted in it agree on an id if and only if it did not both move and lift; one that did is down after the frame and gone in the replay |
| `Touch.FrameIsReplay` | src/in_process_server.cpp:1573-1649 | the touches after a frame are those that the events accepted in it lead to if and only if no id both moved and lifted; events that the client refuses are not replayed here |
| `Touch.MovedAndLiftedStays` | src/in_process_server.cpp:1637-1645 | a touch that moves and lifts in one frame stays, at the place it moved to |
| `Touch.BatchingShowsIff` | src/in_process_server.cpp:1573-1649 | for every stream: wherever the frame events come, a frame makes current what a client without frames, with its own acceptance, has, if and only if no event divides the two |
| `Touch.DividesIff` | src/in_process_server.cpp:1573-1631 | one event divides them exactly if it is an up of a touch that came down or moved in the frame, or a down or motion of one that was lifted in the frame or came down in it at another place |
| `Touch.TapStaysDown` | src/in_process_server.cpp:1606-1608 | down and up of one touch in one frame leave it down |
| `Touch.Erase` | src/in_process_server.cpp:1637-1640 | the first loop removes exactly the lifted ids |
| `Touch.Assign` | src/in_process_server.cpp:1642-1645 | the second loop overrides with exactly the pending touches |
| `Touch.TouchTracker.OnDown` | src/in_process_server.cpp:1573-1594 | takes the step of a down event, records a failure exactly if the id is down and keeps the serial in either case |
| `Touch.TouchTracker.OnUp` | src/in_process_server.cpp:1596-1611 | takes the step of an up event, records a failure exactly if the id is not down and keeps the serial in either case |
| `Touch.TouchTracker.OnMotion` | src/in_process_server.cpp:1613-1631 | takes the step of a motion event and records a failure exactly if the id is not down |
| `Touch.TouchTracker.OnFrame` | src/in_process_server.cpp:1633-1649 | takes the step of a frame, erasures first |
| `Notifiers.ListIsThoseStaying` | src/in_process_server.cpp:1498-1557 | over every run a list is exactly the notifiers that answered true to every event since they registered, in the order of registration |
| `Notifiers.RunIsStaying` | src/in_process_server.cpp:1498-1557 | the same from any list: the members that stay, then the registrations that stay |
| `Notifiers.OneRound` | src/in_process_server.cpp:1498-1540 | one round of calls gives each notifier that is due an event the next one, and nobody else |
| `Notifiers.EachHearsUntilFalse` | src/in_process_server.cpp:1498-1557 | over every run each notifier is called, in order, with every event since its registration up to and including its first false answer, and nothing later |
| `Notifiers.NotifierList.Add` | src/in_process_server.cpp:1081-1096 | registers at the end |
| `Notifiers.NotifierList.Notify` | src/in_process_server.cpp:1498-1540 | remove_if in place calls everyone once, in order, and keeps those that answered true, in order |
| `Notifiers.NotifierList.NotifyEach` | src/in_process_server.cpp:1542-1557 | the run of one such round for each button, with the calls of that run |
| `Notifiers.NotifierList.Collect` | src/in_process_server.cpp:2347-2355 | calls everyone and gathers the places of those that answered false |
| `Notifiers.NotifierList.OnRelease` | src/in_process_server.cpp:2343-2358 | erases at the gathered places one after the other, each taken as it was before the first erasure |
| `Notifiers.ReleaseKeepsWantedIff` | src/in_process_server.cpp:2347-2357 | what remains is exactly the notifiers that answered true if and only if at most one answered false |
| `Notifiers.ReleaseRefinesFilter` | src/in_process_server.cpp:2343-2358 | collect-then-erase is the filter of the other lists if and only if at most one notifier expires |
| `Notifiers.TwoExpiriesGoWrong` | src/in_process_server.cpp:2347-2357 | with two that answered false an erasure is beyond the end, or one that answered true goes in place of one that answered false |
| `PointerNotifiers.HearsItsNotices` | src/in_process_server.cpp:1457-1557 | over every interleaving of pointer events and registrations each notifier hears exactly the notices of its kind since its registration, up to its first false answer |
| `PointerNotifiers.EventsOfOps` | src/in_process_server.cpp:1457-1557 | the rounds that the list of a kind goes through are the notices of that kind that the frames emit, in order |
| `PointerNotifiers.KindsHold` | src/in_process_server.cpp:1498-1557 | enter notifiers get the enters, and so on, one call each |
| `PointerNotifiers.OfKindConcat` | src/in_process_server.cpp:1498-1557 | the notices of a kind are all of them, in order |
| `FrameCallbacks.EachFreedOnce` | src/in_process_server.cpp:2022-2116 | over every interleaving the list is the unfired callbacks of live surfaces in order of adding, and each closure and each wl_callback is pending, running or freed, once in all |
| `FrameCallbacks.NothingLeaks` | src/in_process_server.cpp:2022-2116 | once no surface lives and no closure runs, every closure and every wl_callback has been freed exactly once |
| `FrameCallbacks.FiringFindsItsEntry` | src/in_process_server.cpp:2101-2108 | a callback that may fire is in the list, so erase never gets the end iterator |
| `FrameCallbacks.DestroyInsideOwnCallback` | src/in_process_server.cpp:2022-2116 | destroying a surface from inside its own callback frees neither the running closure nor its wl_callback; they are freed after it returns, the wl_callback first |
| `FrameCallbacks.StepKeepsConserved` | src/in_process_server.cpp:2022-2116 | every step keeps each closure and each wl_callback in one place |
| `FrameCallbacks.StepKeepsListed` | src/in_process_server.cpp:2022-2116 | every step keeps the list equal to the unfired callbacks of live surfaces |
| `FrameCallbacks.Find` | src/in_process_server.cpp:2101-2108 | the search finds the callback, and erasing there removes exactly its first entry |
| `FrameCallbacks.Registry.AddFrameCallback` | src/in_process_server.cpp:2058-2068 | appends one entry |
| `FrameCallbacks.Registry.DestroySurface` | src/in_process_server.cpp:2022-2038 | the erasing loop removes exactly the surface's entries, keeps the order of the others and frees closure and then wl_callback of each removed one |
| `FrameCallbacks.ClosureGoesFirst` | src/in_process_server.cpp:2028-2032 | the destructor frees each closure before its wl_callback |
| `FrameCallbacks.Registry.BeginFrame` | src/in_process_server.cpp:2099-2108 | removes exactly the entry of the callback before its closure runs |
| `FrameCallbacks.Registry.EndFrame` | src/in_process_server.cpp:2114-2115 | frees the wl_callback and then the closure and leaves the list alone |
| `Subsurface.MergeAssociates` | tests/wl_subsurface.cpp:768-791 | cached updates accumulate in order, with the empty update as the unit |
| `Subsurface.SynchronizedIff` | tests/wl_subsurface.cpp:793-816 | a surface behaves as synchronized if and only if it or an ancestor below the root is in sync mode |
| `Subsurface.CascadeAt` | tests/wl_subsurface.cpp:688-740 | applying a surface applies the caches of exactly those below it whose nearest unsynchronized ancestor is not below it |
| `Subsurface.CommitAt` | tests/wl_subsurface.cpp:636-816 | what the commit of one surface does to every other, whatever the depth and modes |
| `Subsurface.SettledIffShown` | tests/wl_subsurface.cpp:742-791 | a surface with pending state is settled by a sequence of commits if and only if that commits it and then its source |
| `Subsurface.CommitOrderTheorem` | src/in_process_server.cpp:2249-2257 | for every chain, mix of modes and order of commits: state is neither lost nor invented, and becomes current exactly if its surface and then its source are committed; then the surface has the latest buffer and child position requested and all frame callbacks in order |
| `Subsurface.LeafFirstShowsAll` | src/in_process_server.cpp:2249-2257 | the order leaf to root makes every surface's state current |
| `Subsurface.RootFirstShowsDesyncOnly` | tests/wl_subsurface.cpp:742-766 | the order root to leaf does so exactly for the surfaces that do not behave as synchronized |
| `Subsurface.MultilevelCases` | tests/wl_subsurface.cpp:636-791 | the six cases of the three-level tests, and a desync child, which follows its parent's mode |
| `Subsurface.CreateVisible` | src/in_process_server.cpp:2239-2261 | the loop ends, commits each surface of the path once, leaf to root, and leaves on each the latest buffer and child position requested and all frame callbacks current, the new buffer and position included |
| `Dispatch.WaitIsExact` | src/in_process_server.cpp:1175-1182 | poll is asked for more than the time left and at most 1 ms more, if and as long as the milliseconds fit an int |
| `Dispatch.WaitWraps` | src/in_process_server.cpp:1182 | with 2^31 ms to wait poll is given a negative number |
| `Dispatch.WaitIsNeverShort` | src/in_process_server.cpp:1175-1182 | below 2^32 ms the wait is for ever or past the deadline, never too short |
| `Dispatch.TimeoutMeansPastDeadline` | src/in_process_server.cpp:1151-1196 | for the whole call: Timeout means that the clock is strictly past the deadline, for timeouts up to 4294967 seconds |
| `Dispatch.PunctualIff` | src/in_process_server.cpp:1175-1196 | every Timeout of every call is past the deadline if and only if the timeout is at most 4294967 seconds |
| `Dispatch.ReturnsAtFirstTrue` | src/in_process_server.cpp:1151-1207 | the call stops at the first turn that has an exit, before it the predicate was false each time, and it returns normally if and only if the predicate holds there |
| `Dispatch.DispatchUntil` | src/in_process_server.cpp:1145-1208 | the outcome is that of the first turn with an exit, and the calls into libwayland and poll are those of each turn, in order |
| `Dispatch.Prepare` | src/in_process_server.cpp:1153-1157 | the inner loop dispatches until the read is prepared or a dispatch fails |
| `Dispatch.WaitAndRead` | src/in_process_server.cpp:1158-1206 | the rest of a turn: its exit, and its calls with each cancel and read at its own place |
| `Dispatch.Turn` | src/in_process_server.cpp:1151-1207 | one turn of the outer loop: its exit and its calls |
| `Dispatch.TurnClosesUnlessOverdue` | src/in_process_server.cpp:1151-1207 | a turn keeps the rule of libwayland and leaves its intent open exactly if it finds the deadline passed |
| `Dispatch.IntentOpenIff` | src/in_process_server.cpp:1151-1207 | every call keeps the rule, one intent at a time and poll only within it and after a flush, and leaves it open if and only if its last turn finds the deadline passed with the predicate false and the queue dispatched |
| `Dispatch.PreparedIsSettled` | src/in_process_server.cpp:1151-1207 | successful prepare_reads number the reads plus the cancels, plus one if and only if the call ends so |
| `Dispatch.GoesOnIff` | src/in_process_server.cpp:1151-1207 | the loop goes past a turn if and only if in that and all turns before it the predicate is false, the deadline is not passed, poll is positive and no answer is negative |
| `Dispatch.OutcomeIff` | src/in_process_server.cpp:1151-1207 | each outcome of a call if and only if its last turn had the answers for it |
| `Dispatch.ReadsOrCancels` | src/in_process_server.cpp:1182-1206 | a turn reads if and only if poll found something and cancels if and only if it did not; what was read is dispatched last |
| `Dispatch.SpinsAreDispatched` | src/in_process_server.cpp:1153-1157 | each failed prepare_read is followed by a dispatch, up to the one that fails |
| `Dispatch.LateCallLeavesIntentOpen` | src/in_process_server.cpp:1160-1164 | a call that looks at the clock a nanosecond late leaves one open |
| `Dispatch.PollsForTimeLeft` | src/in_process_server.cpp:1160-1182 | a turn polls if and only if the predicate is false, the queue is dispatched and the deadline is not passed, and for the time left by the clock just read |
| `Dispatch.LongWaitTimesOutEarly` | src/in_process_server.cpp:1175-1196 | with any longer timeout some call times out before the deadline |
| `Registry.SelectIsGreatestBindable` | src/version_specifier.cpp:29-102 | select_version gives the greatest version that satisfies the specifier and that both sides have, nothing exactly if there is none, and throws exactly if WLCS itself has none that satisfies it |
| `Registry.NamesAreLive` | src/in_process_server.cpp:1714-1773 | global_type_names holds exactly the live ids with their interfaces |
| `Registry.GlobalsAreLatest` | src/in_process_server.cpp:1714-1773 | globals holds the last announcement of each interface unless one of that interface was removed since |
| `Registry.GlobalsAreLive` | src/in_process_server.cpp:1714-1773 | with ids fresh while live every entry names a live global of that interface and version |
| `Registry.GlobalsAreLiveIff` | src/in_process_server.cpp:1714-1773 | for every sequence, ids fresh or not, an entry names a live global of that interface and version if and only if its id was not announced for another interface since |
| `Registry.FreshIsNotHijacked` | src/in_process_server.cpp:1714-1773 | ids fresh while live are never announced so |
| `Registry.ReannouncedIdIsLive` | src/in_process_server.cpp:1714-1716 | an id announced again for the same interface leaves no stale entry |
| `Registry.KnownIff` | src/in_process_server.cpp:1764-1773 | an interface with a live global is known if and only if none of its globals was removed since its last announcement |
| `Registry.RemovalHidesOtherGlobal` | src/in_process_server.cpp:1764-1773 | after the removal of one of two outputs the other is not known |
| `Registry.ReusedIdMakesStaleEntry` | src/in_process_server.cpp:1764-1773 | an id announced again for another interface leaves a stale entry |
| `Registry.BindingIsSound` | src/in_process_server.cpp:1098-1126 | a normal return binds the greatest version that satisfies the specifier and exceeds neither side's, of a live global of the interface asked for if and only if its id was not announced for another one |
| `Registry.Client.OnGlobal` | src/in_process_server.cpp:1714-1716 | takes the step of an announcement |
| `Registry.Client.OnGlobalRemoved` | src/in_process_server.cpp:1764-1773 | takes the step of a removal; unknown ids change nothing |
| `Registry.Client.BindIfSupported` | src/in_process_server.cpp:1098-1143 | which of the four outcomes there is, each with its exact condition on globals, the listed extensions and the versions that satisfy the specifier; and that the greatest bindable version is bound |
| `Outputs.PendingOnCurrentIsLastSent` | src/in_process_server.cpp:1247-1296 | pending over current state is the last value sent of each property |
| `Outputs.VisibleIsLastBeforeDone` | src/in_process_server.cpp:1247-1296 | each visible field is the last value sent before the last done |
| `Outputs.DirtyIffUnfinished` | src/xdg_output_v1.cpp:77-144 | the state is refused if and only if some property event has no later done of the kind that the version uses |
| `Outputs.XdgIsLastSent` | src/xdg_output_v1.cpp:77-113 | each property of the xdg_output is the last value sent of it |
| `Outputs.DoneByVersion` | src/xdg_output_v1.cpp:92-97 | zxdg done below version 3, wl_output done from 3 on |
| `Outputs.XdgOutput.OnProperty` | src/xdg_output_v1.cpp:78-114 | sets the one property at once and marks the state unfinished |
| `Outputs.XdgOutput.OnDone` | src/xdg_output_v1.cpp:92-97 | finishes the state below version 3 only |
| `Outputs.XdgOutput.State` | src/xdg_output_v1.cpp:135-144 | gives the state exactly if it is finished |
| `Outputs.XdgOutput.Release` | src/xdg_output_v1.cpp:115-128 | a destroyed xdg_output is no longer reached by its notifier |
| `Outputs.Output.Watch` | src/xdg_output_v1.cpp:115-128 | registers for the done event of wl_output from version 3 on only |
| `Outputs.Output.OnGeometry` | src/in_process_server.cpp:1247-1261 | the position becomes pending and nothing visible changes |
| `Outputs.Output.OnMode` | src/in_process_server.cpp:1263-1273 | the size becomes pending and nothing visible changes |
| `Outputs.Output.OnScale` | src/in_process_server.cpp:1292-1296 | the scale becomes pending and nothing visible changes |
| `Outputs.Output.OnDone` | src/in_process_server.cpp:1275-1290 | applies what is pending, clears it and finishes every watcher that is still alive, leaving the others |
| `Rectangles.PointsDetermine` | include/geometry/rectangle.h:62-70 | two rectangles with the same points, one of positive size, are equal |
| `Rectangles.EdgesAreHalfOpen` | include/geometry/rectangle.h:62-70 | the near edges belong to the rectangle and the far ones do not |
| `Rectangles.IntersectionIsUnique` | include/geometry/rectangle.h:108-122 | the intersection is the only rectangle, empty by default or of positive size, that has exactly the common points |
| `Rectangles.IntersectionContains` | include/geometry/rectangle.h:108-122 | the intersection has a point if and only if both have it |
| `Rectangles.IntersectionAssociates` | include/geometry/rectangle.h:108-122 | the intersection is associative as a value |
| `Rectangles.ContainmentIsAnOrder` | include/geometry/rectangle.h:72-84 | containment is a partial order on all rectangles, empty ones included |
| `Rectangles.IntersectionLaws` | include/geometry/rectangle.h:78-122 | it is commutative, the default rectangle absorbs, and for a positive size containment is intersection with the rectangle giving it back |
| `Rectangles.OverlapsIffIntersects` | include/geometry/rectangle.h:86-122 | sharing a point and a positive intersection are the same, and overlaps says so for sizes that are not negative |
| `Rectangles.OverlapsWrongIff` | include/geometry/rectangle.h:86-97 | for all sizes overlaps and sharing a point differ if and only if on one axis one rectangle goes backwards inside the other, and on the other axis they do so too or properly meet |
| `Rectangles.NegativeSizeMayOverlap` | include/geometry/rectangle.h:86-97 | a negative size makes them differ |
| `Rectangles.NothingOverflows` | include/geometry/rectangle.h:47-122 | if both rectangles' edges fit 32 bits no intermediate value of contains, overlaps or intersection_of wraps |
| `Rectangles.EdgesAreExactIff` | include/geometry/rectangle.h:47-50 | the far edges are right in 32 bits if and only if they fit |
| `Rectangles.IntersectionFits` | include/geometry/rectangle.h:108-122 | the intersection of rectangles whose edges fit has edges and a size that fit |
| `LayerLayout.AxisInsideIffFits` | tests/wlr_layer_shell_v1.cpp:154-176 | on one axis the placement has a size and is inside the output if and only if margins and default size fit |
| `LayerLayout.AxisPlacement` | tests/wlr_layer_shell_v1.cpp:154-190 | doubly anchored it spans the output less the margins, at one anchor it sits at that margin, centred its gaps differ by at most one |
| `LayerLayout.AxisMirrors` | tests/wlr_layer_shell_v1.cpp:154-176 | mirroring mirrors the placement to within one pixel unless the margins of a doubly anchored axis leave no room; off by one exactly for an odd centred gap |
| `LayerLayout.PlacementInsideOutput` | tests/wlr_layer_shell_v1.cpp:151-190 | for all anchors, margins that are not negative and outputs, placement_rect is a proper rectangle inside the output if and only if it fits on both axes |
| `LayerLayout.RequestAndConfigureAgree` | tests/wlr_layer_shell_v1.cpp:178-190 | the placement has the length requested or configured on each axis if and only if no doubly anchored axis is left without room |
| `LayerLayout.AxisRequestAgreesIff` | tests/wlr_layer_shell_v1.cpp:178-190 | on one axis zero is requested exactly if a length is to be configured, unless a doubly anchored axis has no room |
| `LayerLayout.NoRoomSticksOut` | tests/wlr_layer_shell_v1.cpp:154-176 | an axis whose margins leave no room is placed outside the output and not where mirroring puts it |
| `TestListener.Listener.OnTestIterationStart` | src/xfail_supporting_test_listener.cpp:34-39 | forgets the names of the iteration before, but no skip reasons |
| `TestListener.Listener.OnTestStart` | src/xfail_supporting_test_listener.cpp:56-61 | makes the test current and passes the event on |
| `TestListener.Listener.OnTestPartResult` | src/xfail_supporting_test_listener.cpp:63-89 | the search loop gathers all skip reasons; a failing part is then counted as skipped and withheld, or counted as failed and passed on; it is undefined exactly for a failing part before the first test |
| `TestListener.Listener.OnTestEnd` | src/xfail_supporting_test_listener.cpp:91-116 | prints the reasons or passes the event on, and forgets the reasons |
| `TestListener.Listener.OnTestIterationEnd` | src/xfail_supporting_test_listener.cpp:145-202 | raises the flag if some name failed and never lowers it |
| `TestListener.OneTest` | src/xfail_supporting_test_listener.cpp:56-116 | for any test in any state: whether its name is added to the failed and to the skipped names, whether it leaves reasons for the next test, and exactly what is passed on |
| `TestListener.FullNamesDiffer` | src/xfail_supporting_test_listener.cpp:80-86 | tests that differ have different full names, where suites have no dot in their names |
| `TestListener.DottedNamesMayClash` | src/xfail_supporting_test_listener.cpp:80-86 | with a dot they may not |
| `TestListener.SkipValuesOf` | src/xfail_supporting_test_listener.cpp:68-78 | the reasons are the values of the skip properties |
| `TestListener.SkipValuesConcat` | src/xfail_supporting_test_listener.cpp:68-78 | in the order of the properties |
| `TestListener.FailureToldIffCounted` | src/xfail_supporting_test_listener.cpp:63-89 | a failing part reaches the wrapped listener if and only if the test counts as failed |
| `TestListener.IterationIsExact` | src/xfail_supporting_test_listener.cpp:34-202 | after an iteration the failed names are exactly those of the tests counted as failed in it, and of the test that failures before the first one are charged to |
| `TestListener.SkippedIsExact` | src/xfail_supporting_test_listener.cpp:34-90 | after an iteration the skipped names are exactly those of the tests with a failing part that does not count, and of the test charged for hidden failures before the first |
| `TestListener.IterationTold` | src/xfail_supporting_test_listener.cpp:34-116 | exactly what is passed on in a whole iteration |
| `TestListener.IterationTellsIff` | src/xfail_supporting_test_listener.cpp:63-89 | a failing part is passed on in an iteration if and only if something counts as failed in it |
| `TestListener.BeforeTests` | src/xfail_supporting_test_listener.cpp:63-89 | parts before the first test of an iteration: what they add to the names and what is passed on, in any state |
| `TestListener.FailedIffSomeTestFailed` | src/xfail_supporting_test_listener.cpp:181-212 | over any number of iterations failed() holds if and only if some test, or a part before the first one, counts as failed in some iteration |
| `TestListener.MiscountedIff` | src/xfail_supporting_test_listener.cpp:63-116 | a test is counted otherwise than its failing parts say exactly if skip reasons were left for it, it fails before any skip property of its own, and no failure after it counts |
| `TestListener.ListedRightIff` | src/xfail_supporting_test_listener.cpp:34-202 | for every iteration a name is listed if and only if some test of it should fail and is not hidden, or failures before the first test are charged to it; and exactly when that is as expected |
| `TestListener.SetUpFailureIsCharged` | src/xfail_supporting_test_listener.cpp:63-89 | a set-up that fails lists the last test of the iteration before, though nothing of it fails |
| `TestListener.JudgedRightIff` | src/xfail_supporting_test_listener.cpp:34-212 | for every program that does not fail before there was any test, failed() holds if and only if some test or part before the first test should fail and is not hidden, and so is right if and only if nothing should fail or something that should shows |
| `TestListener.OrderlyTestsAreListedRight` | src/xfail_supporting_test_listener.cpp:34-116 | corollary: with no failure before the first test or between a skipping test and the next, a test is listed if and only if a failing part of it comes before any skip property |
| `TestListener.OrderlyProgramsAreJudgedRight` | src/xfail_supporting_test_listener.cpp:34-212 | corollary: with no failure between a skipping test and the next, failed() holds if and only if something should fail in some iteration |
| `TestListener.TearDownFailureHidesNextTest` | src/xfail_supporting_test_listener.cpp:63-116 | a failing tear-down after a skipping test makes a program with a failing test pass |

## Left out

- Failing system calls of the proxy: send and recv succeed, and handlers return without calling thunks; the short-reply check is modelled.
- What follows the destructor's message: closing both sockets and freeing the proxy while the loop may still read; the model leaves the socket open.
- Data races on the handler table between `register_op` and the loop; a registration is one step.
- `Touch::Impl::down_at`, `move_to` and `up` (src/in_process_server.cpp:271-284): they call the device itself and not their thunks, so the refinement says nothing about them.
- ThreadProxy.ProxyRefinesDirectCalls: for handler tables of at most 2^32 entries, since beyond that an opcode does not name its handler (Wire.OpcodeNamesItsIndex).
- The C++ templates of src/thread_proxy.h: an argument list is a sequence of byte strings of given sizes.
- Executor.WaylandExecutor.OnNotify: a work item spawns a finite tree of further work, since otherwise the drain need not end; the step system has no such bound. What an item does besides spawning, and an exception it throws, which is only logged, is not modelled.
- Overflow of the eventfd counter, and destruction of the event loop under the executor.
- The rest of example/mir_integration.cpp: it depends on code of Mir.
- Fixed-point coordinates are integers, since the handlers only copy them.
- Notifiers that re-enter dispatch or register others while a list is filtered.
- Notifiers.NotifierList.OnRelease: vector iterators are positions; C++ leaves the use of one behind an erased element undefined.
- Destruction callbacks of a surface and the wl_surface itself.
- Subsurface.CreateVisible: the final wait for the frame callback, and siblings off the path from the new subsurface to the root.
- Dispatch.DispatchUntil: libwayland and the clock are inputs, and a call that never ends is observed for a finite number of turns.
- Dispatch.PunctualIff: the deadline is not bounded; the original counts it in 64 bits of nanoseconds, which overflow for timeouts of about 9.2e9 seconds.
- Dispatch.LongWaitTimesOutEarly: likewise for timeouts whose deadline overflows.
- Registry.Client.OnGlobal: the bindings that it makes for the core interfaces; and a failing `wl_registry_bind`.
- `Client::output_state` and `add_output_done_notifier` with an index, whose guard admits index == count (src/in_process_server.cpp:1903, 1911).
- Rectangles with other coordinate types than 32-bit integers.
- What the listener prints beyond the skip reasons. Programs in which a part fails before there was any test read an uninitialised pointer, and nothing is said about their outcome.
- Protocol wrapper classes, mocks, test bodies, shared libraries and helpers: forwarding or foreign code.
