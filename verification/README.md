# A verified model of the sylar coroutine framework

This project models the core of the sylar C++ framework in Dafny and proves properties of it: the
coroutine runtime (scheduler, fibers, epoll event table, timers, hooked I/O), `ByteArray` with its
codecs and stream callers, HTTP request framing, the connection pool and the IPv6 printer.
`dafny verify dfyconfig.toml` checks everything.

## How it is laid out

- `Runtime*.dfy`: the runtime as one step system. The state holds the shared list of tasks, every fiber's
  state, the program counter and kept callback fiber of every worker thread, the event slots, the
  timers, the active and pending counters, and what user code holds. A step is one critical section
  or one access to shared data outside the locks, so a wake-up can be queued while its fiber is still
  on its way into `YieldToHold`. `RuntimeInvariant` states the invariant (a ghost map gives each unit
  of work the one place its wake-up is in), `RuntimeSteps` and `RuntimeTheorems` show that each of
  the 30 steps keeps it, `RuntimeSafety` and `RuntimeStop` state what follows for reachable states.
  `RuntimeFrames` and `RuntimeMoves` say what a step changes and leaves alone, `RuntimeProgress` what
  can always be done, `RuntimeOrder` and `RuntimePins` follow the list through a run, and `RuntimeExit`
  and `RuntimeStranding` follow a run from its last stop check to the end.
- `DoIo.dfy`: any number of hooked calls waiting for one event of one descriptor, with their timers and
  the callbacks of these, each callback in three steps.
- `EventTable.dfy`, `Timers.dfy`: the data structures behind the slots and the timers, as classes.
  `TimerRuns.dfy` has the timer operations on a plain list of records, which the ordered set refines,
  and follows whole sequences of them.
- `ByteArray.dfy`: the block list on the heap. Module `Blocks` has the arithmetic of blocks, module
  `ByteArrays` the class; its ghost field `bytes` is the storage as one sequence.
- `Codec.dfy`, `TypedArray.dfy`: the encodings on flat sequences, and the methods that produce them
  on a `ByteArray`. `Wire.dfy` says which digit of a number is which byte.
- `Streams.dfy`, `HttpSession.dfy`: the loops over a socket whose every call moves an arbitrary part
  of what it is asked to move. `Received` says in closed form what `recvRequest` returns for any split.
- `ConnectionPool.dfy`, `Ipv6.dfy`, `Wrappers.dfy`.

The kernel, the clock, memory addresses, `epoll_ctl` results, socket results and the generated HTTP
automaton are parameters. Integer widths are written out where they matter (`% WORD`, `Int32`, `Wrap`);
a bitwise or of disjoint bit ranges is addition, a shift is a multiplication by a power of two.

## Where the code does not do what it seems meant to do

Each is kept as it is in the code; the member named states exactly when it goes wrong.

- Between the decrement at `sylar/scheduler.cc:221` and the re-queueing at 225 a `READY` fiber is
  neither counted nor queued, and so are expired callbacks between `sylar/iomanager.cc:358` and 362.
  A stop check in between succeeds with work outstanding (`StopCheckIsExact`). If the last one is made
  while a `READY` fiber is in that state, and only then, the threads can leave with work behind
  (`LastStopIsSafe`), as they do in the run of `ParkedFiberCanBeStranded`. The guard at 218 is always true; it is not needed (`SwapInIsSafe`).
- `sylar/hook.cc:148-162`: a timer that fires between being set and the event being added marks the
  record and finds nothing to cancel; the call then waits without a timeout (`TimeoutGuard`,
  `GuardLost`, `TimeoutCanBeLost`). A callback past its look at the record may end the wait of a later
  call (`LateCancel`), which then tries again (`TimesOutByItself`). A second call on the event of a
  waiting one fails an assertion (`AbortNeedsTwo`, `SecondCallAborts`).
- `sylar/iomanager.cc:412-421` triggers every reported event; one that has been taken meanwhile fails
  the assertion at 43 (`Deliver`, `CancelledMeanwhile`). `cancelAll` ignores a failing `epoll_ctl`
  (`CancelAll`). `addEvent` does not look at the table size again under the write lock and may cut the
  table (`Grow`, `GrownMeanwhile`).
- `sylar/iomanager.cc:347` waits for three seconds whatever the next deadline is, so nothing is said
  about how promptly timers run.
- `Timer::refresh` gives no notice when it moves a timer to the front. As long as the clock does not go
  back and no deadline overflows, the new deadline cannot be before the time a sleeper knows of, and no
  wake-up is missed (`Refresh`, `NoMissedWakeUp`); otherwise it is missed exactly if `StepWatched` says
  so, for instance in the run of `RefreshCanBeMissed`.
  `listExpiredCb` looks at the first timer of a set that may have become empty (`ListExpired`,
  `ExpiryCanBeUndefined`).
  `detectClockRollover` reports any step back while the clock is below an hour (`DetectRollover`).
- A read of zero bytes at the end of the storage dereferences a null cursor, so a trailing empty
  string cannot be read back from an array whose last block is full (`Read`, `RoundTrip`). A length
  of 65536 or more does not fit `writeStringF16` (`DatumRoundTrip`).
- `writeToFile` loses its place when it starts inside a block and less than a block is unread
  (`WriteToFile`).
- `SocketStream::write(ByteArray)` takes write buffers, so it sends storage behind the contents when
  asked for more than is unread (`WriteArrayFixSize`). `Stream::writeFixSize` from a buffer never
  gets less to do (`WriteFixSize`). `readFixSize` returns its size as an `int`, so a body whose rest
  is not a positive `int` counts as failed (`RecvBody`).
- `recvRequest` drops what the buffer holds behind the body (`RecvRequest`). The comment at
  `sylar/http/http_session.cc:17` says that a head longer than the buffer is refused; the automaton
  takes all it is given until it stops, so the buffer is never full and heads of any length are read
  (`RecvHead`, `SplitDoesNotMatter`).
- The pool compares ages the wrong way round, and `m_createTime` is never assigned, so what it compares
  is the limit with the clock itself. It never looks at its maximum size (`GetConnection`, `Release`).
- The comment at `sylar/address.cc:556` says that the longest run of zeros is left out; it is the
  first (`PrintParses`).

## Model

| member | source | states |
|---|---|---|
| `Runtime.SelectTask` | sylar/scheduler.cc:186-211 | the scan loop removes exactly the earliest entry the thread may run, or nothing if there is none; it asks for a tickle exactly if it passed an entry pinned elsewhere or left entries behind |
| `RuntimeTheorems.StepKeeps` | sylar/scheduler.cc:180-284 | every enabled step of every thread keeps the runtime invariant |
| `RuntimeTheorems.RunKeeps` | sylar/scheduler.cc:180-284 | the invariant holds at every moment of every run, for any number of threads |
| `RuntimeSteps.TakeFiberKeeps` | sylar/scheduler.cc:204-208 | taking a fiber's entry uses up its one wake-up; the fiber is then in this worker's hands, counted active |
| `RuntimeSteps.SwappedInKeeps` | sylar/fiber.cc:137-148 | switching to a fiber marks it EXEC and keeps it in one worker's hands |
| `RuntimeSteps.CallbackLoadedKeeps` | sylar/scheduler.cc:234-245 | a callback goes into the kept fiber, or a new one, and its own wake-up stays unique |
| `RuntimeSteps.DecrementedKeeps` | sylar/scheduler.cc:221-246 | the active count comes down exactly once per removal |
| `RuntimeSteps.RequeuedKeeps` | sylar/scheduler.cc:223-226 | a READY fiber gets its one wake-up back, without its pin |
| `RuntimeSteps.LetGoKeeps` | sylar/scheduler.cc:227-231 | a parked fiber is marked HOLD only when nobody holds it any more; a finished one is let go |
| `RuntimeSteps.KeptSpareKeeps` | sylar/scheduler.cc:252-256 | a finished callback fiber is reset and kept, with no wake-up |
| `RuntimeSteps.YieldedKeeps` | sylar/fiber.cc:203-218 | YieldToHold leaves EXEC, so a wake-up that is already queued stays skipped |
| `RuntimeSteps.WakePerformedKeeps` | sylar/hook.cc:195-216 | the callback of a sleep timer hands over the sleeping fiber's one wake-up |
| `RuntimeSteps.HandedInKeeps` | sylar/scheduler.h:43-55 | scheduling a fiber moves the caller's one reference into the list |
| `RuntimeSteps.ExpiredPostedKeeps` | sylar/iomanager.cc:357-364 | an expired callback moves from the idle fiber's batch into the list |
| `RuntimeSteps.ParkedOnEventKeeps` | sylar/iomanager.cc:154-167 | registering for an event while still EXEC gives the fiber its one token |
| `RuntimeSteps.TriggeredKeeps` | sylar/iomanager.cc:38-56 | triggering moves the waiter from its slot to the list, unpinned (`RuntimePins.WokenForAnyone`); the pending count comes down later |
| `RuntimeSafety.SingleToken` | sylar/scheduler.cc:186-262 | in every reachable state a fiber or callback has at most one wake-up among list, slots, timers, expired batches, callbacks being run and user hands |
| `RuntimeSafety.SwapInIsSafe` | sylar/scheduler.cc:217-220 | a fiber about to be switched to is not EXEC, not TERM or EXCEPT, in no other worker's hands and has no wake-up left |
| `RuntimeSafety.CallbackFiberIsFree` | sylar/scheduler.cc:236-245 | the kept callback fiber is INIT, held by nobody and has no wake-up, so reset and swapIn are legal |
| `RuntimeSafety.EarlyWakeIsSkipped` | sylar/scheduler.cc:197-202 | a wake-up queued before its fiber has finished parking is skipped by every worker and stays queued |
| `RuntimeSafety.CountersAreExact` | sylar/scheduler.cc:206-246 | the active count is the number of workers between removal and decrement; the pending count is the number of filled slots plus the triggers not yet counted down |
| `RuntimeSafety.FiberConservation` | sylar/scheduler.cc:186-268 | every fiber has exactly one status: waiting at one place, held by one worker, finished, kept for reuse, or dropped by delEvent |
| `RuntimeSafety.CallConservation` | sylar/scheduler.cc:234-262 | a callback waits at exactly one place, or has been entered or cancelled and waits nowhere; each run of a recurring timer's callback is a call of its own |
| `RuntimeOrder.OrderIsKept` | sylar/scheduler.cc:188-209 | between any two moments of a run: the later list is a subsequence of the earlier one followed by everything added since, in the order of adding, and shorter by exactly one entry for each step that took one; nobody overtakes |
| `RuntimeOrder.PinnedLeavesByOwner` | sylar/scheduler.cc:190-209 | whenever an entry pinned to a thread has left the list, that thread took it, as the first one it may run |
| `RuntimePins.PinComesFromCaller` | sylar/scheduler.h:43-73 | in every run, an entry tied to a thread was scheduled for that thread by a caller: what an event or a timer wakes, what yields and what a sleep hands back may run anywhere |
| `RuntimePins.TakenByItsThread` | sylar/scheduler.cc:190-209 | work that a caller schedules for a thread is taken by that thread and no other |
| `RuntimePins.PlainRunEndsEmpty` | sylar/scheduler.h:43-73 | in every run in which no caller chooses a thread nothing is ever tied to one, and the list is empty once all workers have left |
| `RuntimePins.WokenForAnyone` | sylar/iomanager.cc:38-56 | a waiter woken by its event is the last entry of the list, and every worker may take it exactly once its fiber has finished parking |
| `RuntimeMoves.FiberTurns` | sylar/fiber.cc:114-218 | in every run every fiber turns from state to state as Fiber allows: to EXEC from INIT, HOLD or READY, from EXEC to HOLD, READY, TERM or EXCEPT, and from TERM or EXCEPT only to INIT by a reset |
| `RuntimeMoves.YieldIs` | sylar/fiber.cc:203-258 | a fiber that gives up the thread is READY exactly if it asked for that, TERM if it ran to its end and EXCEPT if it threw |
| `RuntimeMoves.ConcludeIs` | sylar/scheduler.cc:223-262 | what the worker makes of a fiber that is back: queued again, unpinned, if READY; HOLD if it waits; kept and reset if it is a finished callback fiber |
| `RuntimeMoves.WorkerWalks` | sylar/scheduler.cc:180-284 | every step of a worker takes it from its place in the loop to one of the places that follow it, and never leaves it where it was |
| `RuntimeMoves.BatchInOrder` | sylar/iomanager.cc:357-364 | expired callbacks go into the list in the order in which they expired |
| `RuntimeMoves.TimersStep` | sylar/timer.cc:47-224 | which of the 30 steps set or take out a timer, and that no other touches the timers |
| `RuntimeMoves.SlotsStep` | sylar/iomanager.cc:115-242 | which of the 30 steps fill or empty an event slot, and that no other touches the slots |
| `RuntimeMoves.HandsStep` | sylar/iomanager.cc:173-207 | which of the 30 steps give a fiber to user code or take it, that delEvent drops the waiting fiber for good, and that no other does |
| `RuntimeProgress.WorkerCanMove` | sylar/scheduler.cc:180-284 | nobody is stuck: in every reachable state every worker that has not left can take a step |
| `RuntimeProgress.ActorsCan` | sylar/scheduler.h:43-73 | in every reachable state the code of a running fiber, and until the stop code outside, can schedule what it has, post callbacks, add and cancel timers, and add, trigger and delete events |
| `RuntimeProgress.BodyCan` | sylar/fiber.cc:203-258 | a running fiber can wait for any free event or timer, keep itself, yield, finish or throw |
| `RuntimeProgress.IdleCan` | sylar/iomanager.cc:316-431 | an idle worker can deliver every event and run every timer, and stops if the stop check lets it |
| `RuntimeProgress.AnyoneCan` | sylar/scheduler.cc:95-122 | fibers can be made and the stop can be asked for at any time |
| `RuntimeProgress.OwedCanBeSettled` | sylar/iomanager.cc:412-421 | the count of a triggered event can always be taken down |
| `RuntimeStop.ExitLeavesOnlyPinned` | sylar/scheduler.cc:180-284 | once every worker has left run, only pinned entries can be left; `RuntimePins.PlainRunEndsEmpty` says that there are none if no caller chose a thread |
| `RuntimeStop.StopCheckIsExact` | sylar/iomanager.cc:303-307 | when the stop check succeeds, work is outstanding if and only if a worker is re-queueing a READY fiber or queueing expired callbacks |
| `RuntimeStop.StopCheckMissesReadyFiber` | sylar/scheduler.cc:221-225 | a run in which the stop check succeeds with a READY fiber about to be queued |
| `RuntimeStop.ParkedFiberCanBeStranded` | sylar/scheduler.cc:221-225 | a run in which all workers leave while a fiber is parked on an event: the condition of `LastStopIsSafe` is met |
| `RuntimeStop.ExitAccounting` | sylar/scheduler.cc:270-274 | after all workers have left, the work left can only be in slots, timers, user hands or pinned entries; `LastStopIsSafe` says when there is any beyond user hands |
| `RuntimeStranding.LastStopIsSafe` | sylar/scheduler.cc:270-274 | from the last stop check on, all workers can leave with work behind if and only if at that check a worker has counted a READY fiber out and not queued it again |
| `RuntimeStranding.WindowCanStrand` | sylar/scheduler.cc:221-225 | from every last stop check made inside a window there is a continuation in which all workers leave and a fiber is parked on an event |
| `RuntimeExit.NothingLeftBehind` | sylar/iomanager.cc:303-307 | after a last stop check made outside every window, at every later moment of every run the only wake-ups are in user hands |
| `RuntimeExit.StrandedMeansWindow` | sylar/scheduler.cc:270-274 | in every run that ends with all workers gone and work behind, the last stop check was made with a worker in a window |
| `DoIo.RunKeeps` | sylar/hook.cc:126-186 | the invariant holds in every run of any number of calls on one event, their timers and the callbacks of these |
| `DoIo.OneWakePerPark` | sylar/hook.cc:155-183 | every parked call has exactly one wake-up, outstanding as the event or already queued; a call that is not parked has none |
| `DoIo.ReturnIsClean` | sylar/hook.cc:126-186 | on every return no event bit, no armed timer and no wake-up of the call remains, and a timeout is reported only after a timer of this very call expired; `CallGoes` says when it is reported |
| `DoIo.CallGoes` | sylar/hook.cc:126-186 | in every run a call goes from place to place as the code has it: awake with its record marked it returns a timeout, awake with it not marked it tries again, and a result is final; its timer is set only if it has a timeout, and expires at most once |
| `DoIo.TimeoutIsReturned` | sylar/hook.cc:142-183 | from every reachable wait the call can still return a timeout by timers alone if and only if it has one and its record is not marked yet or somebody is left to cancel the event |
| `DoIo.CallCanMove` | sylar/hook.cc:126-186 | nobody is stuck: in every reachable state a call that has not returned can go on, or its event can come |
| `DoIo.CheckGoesOn` | sylar/hook.cc:148-153 | a callback goes on behind its look exactly if the record is not marked and the call or another callback past its look still holds it |
| `DoIo.AnythingCanHappen` | sylar/hook.cc:126-186 | a call can be made with or without a timeout, get a value or not, have its event taken or refused, its timer can expire, and every callback can go on |
| `DoIo.TimeoutGuard` | sylar/hook.cc:142-162 | timers can still end a wait if and only if some call on the event, this or another, has a callback past its look at the record, or an unmarked record with a timer or a callback |
| `DoIo.GuardedEnds` | sylar/hook.cc:142-155 | a waiting call with a timeout can be ended by timers as long as its record is not marked or a callback is past its look at it |
| `DoIo.GuardLost` | sylar/hook.cc:148-162 | of all steps of all calls the only one that loses the timeout of a call is adding its event with its record marked and no such callback |
| `DoIo.TimeoutCanBeLost` | sylar/hook.cc:148-176 | a run in which that happens, and then no timer ends the wait |
| `DoIo.NoCancel` | sylar/hook.cc:148-155 | if no call has a timer or callback that will cancel, no number of timer steps ends the wait |
| `DoIo.TimesOutByItself` | sylar/hook.cc:148-183 | in every run, a record found marked was marked by a callback of its own call: the callbacks of other calls can wake a call but not make it time out |
| `DoIo.LateCancel` | sylar/hook.cc:148-155 | a run in which the callback of a call that has returned ends the wait of another call, which has no timeout |
| `DoIo.AbortNeedsTwo` | sylar/iomanager.cc:133-140 | the assertion fails only when a call adds the event another one waits for |
| `DoIo.SecondCallAborts` | sylar/iomanager.cc:133-140 | a run in which that happens |
| `EventTables.BitsUpdate` | sylar/iomanager.cc:153-156 | changing one context changes the number of event bits by exactly that context's change |
| `EventTables.ResizedBits` | sylar/iomanager.cc:101-112 | resizing the table forgets exactly the bits of the contexts cut off |
| `EventTables.SyncedUpdate` | sylar/iomanager.cc:138-155 | a context and epoll's registration changed together stay in agreement |
| `EventTables.NoBits` | sylar/iomanager.cc:303-307 | the count is zero exactly if no event is waited for |
| `EventTables.IOManager.constructor` | sylar/iomanager.cc:58-81 | 32 empty contexts, nothing pending, nothing registered |
| `EventTables.IOManager.Grow` | sylar/iomanager.cc:120-131 | the table gets 3/2 of the descriptor; the count stays exact if and only if no context with events is cut off |
| `EventTables.IOManager.AddEvent` | sylar/iomanager.cc:115-171 | the assertion fails exactly if the event is waited for already; otherwise it succeeds exactly if epoll_ctl does, and then the waiter is in the slot, the count goes up by one, every other event of every descriptor keeps its bit and its waiter, epoll agrees and the operation asked of it is legal |
| `EventTables.IOManager.DelEvent` | sylar/iomanager.cc:173-207 | exactly an event waited for is forgotten, with its waiter; every other event keeps its bit and its waiter; nothing is scheduled |
| `EventTables.IOManager.CancelEvent` | sylar/iomanager.cc:209-242 | exactly an event waited for is forgotten, and its waiter is scheduled once; every other event keeps its bit and its waiter |
| `EventTables.IOManager.Trigger` | sylar/iomanager.cc:38-56 | the waiter is appended to the queue, bit and slot are cleared, the count comes down |
| `EventTables.IOManager.CancelAll` | sylar/iomanager.cc:244-285 | both waiters are scheduled, the reader first, and the context is empty; epoll agrees exactly if epoll_ctl succeeded |
| `EventTables.IOManager.TriggerAll` | sylar/iomanager.cc:412-421 | the reported events are triggered, READ first, and the assertion fails exactly if one of them is not waited for |
| `EventTables.IOManager.Deliver` | sylar/iomanager.cc:377-421 | which of ignored, rejected, delivered or assertion failure happens, each exactly when; a delivery schedules exactly the ready waiters, with an error all of them, and keeps everything else |
| `EventTables.CancelledMeanwhile` | sylar/iomanager.cc:412-421 | in every state with both events of a descriptor waited for: if both are reported and either is cancelled before the entry is handled, the assertion fails |
| `EventTables.BothWaiting` | sylar/iomanager.cc:115-171 | such a state comes about, for every descriptor |
| `EventTables.GrownMeanwhile` | sylar/iomanager.cc:120-131 | in every state: if the table is found too small and another thread adds an event of a descriptor of 3/2 of that or more before the resize, that event is cut off and stays counted, and nothing else changes |
| `Timers.LowerBound` | sylar/timer.cc:7-34 | the first timer not less than the key in the order by deadline and address |
| `Timers.SetOrder` | sylar/timer.cc:7-34 | the set is ordered by deadline, and timers of the same deadline by address |
| `Timers.DeadlineWraps` | sylar/timer.cc:36-41 | a deadline beyond the word wraps round |
| `Timers.Find` | sylar/timer.cc:53 | the lookup finds a timer exactly if it is in the set, despite comparing keys only |
| `Timers.Insert` | sylar/timer.cc:232-234 | the set stays ordered and gains exactly the timer |
| `Timers.ErasedSorted` | sylar/timer.cc:53-54 | erasing keeps the order and removes exactly one timer |
| `Timers.TimerManager.constructor` | sylar/timer.cc:116-119 | an empty set, watched |
| `Timers.TimerManager.AddTimer` | sylar/timer.cc:124-145 | a new timer with deadline now + ms is in the set, and no wake-up is missed |
| `Timers.TimerManager.Put` | sylar/timer.cc:232-246 | a notice is given exactly if the timer is first and none was given since getNextTimer, so at most one between two looks |
| `Timers.TimerManager.Cancel` | sylar/timer.cc:47-58 | succeeds exactly while the callback is set; the lookup never fails; nothing else leaves the set |
| `Timers.TimerManager.Refresh` | sylar/timer.cc:60-78 | the timer's deadline becomes now + ms; no wake-up is missed if the clock has not gone back and nothing overflows; in general a sleeper can miss it if and only if that deadline is before the one it knows and no notice is out |
| `TimerRuns.RefreshCanBeMissed` | sylar/timer.cc:60-78 | a run with a clock that goes back: a deadline before the one the sleeper knows, and no notice |
| `Timers.TimerManager.Reset` | sylar/timer.cc:81-114 | new period from now or from the old start, in unsigned words; no wake-up is missed |
| `Timers.TimerManager.GetNextTimer` | sylar/timer.cc:162-180 | the time to the earliest deadline of all timers; notices are due again |
| `Timers.TimerManager.Expired` | sylar/timer.cc:196-206 | the timers handed out are exactly those with deadline not after now, wherever the probe timer lives; all of them after a rollover |
| `Timers.TimerManager.ServeOne` | sylar/timer.cc:211-223 | a recurring timer goes back with deadline now + ms, the callback of any other is cleared |
| `Timers.TimerManager.ListExpired` | sylar/timer.cc:183-224 | exactly the callbacks due, once each, in order; who stays in the set with which fields; undefined exactly if the set became empty without a rollover; no wake-up missed without rollover or overflow |
| `TimerRuns.ExpiryCanBeUndefined` | sylar/timer.cc:188-197 | a run in which the set is emptied between the two locks: the first timer of an empty set is looked at |
| `TimerRuns.Drive` | sylar/timer.cc:124-258 | any sequence of operations at any times does to the ordered set what it does to a plain list of records: fields, membership, notices, the deadline last seen, and which expiry is undefined |
| `TimerRuns.Perform` | sylar/timer.cc:47-258 | each operation does to the ordered set what it does to the plain list |
| `TimerRuns.StepWatched` | sylar/timer.cc:60-224 | every operation keeps the watch, but a refresh or the re-insertion of a recurring timer; these lose it if and only if no notice is out and the new deadline is before the one a sleeper knows |
| `TimerRuns.NoMissedWakeUp` | sylar/timer.cc:124-258 | no missed wake-up, at every moment of every run in which the clock does not go back for a refresh nor roll over for an expiry and no deadline is beyond the word; times read before the lock may be out of order |
| `TimerRuns.OneNoticePerLook` | sylar/timer.cc:232-246 | in every run there is exactly one notice since the last look if one is out, and none otherwise |
| `TimerRuns.WatchedIs` | sylar/timer.cc:162-180 | the watch of the plain list is that of the ordered set |
| `Timers.TimerManager.DetectRollover` | sylar/timer.cc:248-258 | true exactly if the clock went back by more than 3600000 ms, or at all from below that |
| `Blocks.OverwriteIs` | sylar/bytearray.cc:440-446 | storing byte by byte is a splice |
| `Blocks.TiledStore` | sylar/bytearray.cc:436-453 | storing inside one block is storing in the flat sequence, and no other block changes |
| `Blocks.BlocksFor` | sylar/bytearray.cc:621-622 | the number of blocks n bytes need, rounded up |
| `ByteArrays.CursorBlock` | sylar/bytearray.cc:550-557 | the cursor is null exactly at the end of the storage and otherwise block position / base |
| `ByteArrays.WrittenIs` | sylar/bytearray.cc:421-462 | the flat write keeps everything outside [p, p + n) and lengthens only as needed |
| `ByteArrays.ByteArray.constructor` | sylar/bytearray.cc:35-41 | one empty block, position 0, big endian |
| `ByteArrays.ByteArray.AddCapacity` | sylar/bytearray.cc:609-645 | room for n bytes with no more blocks than that takes; contents and earlier blocks stay |
| `ByteArrays.ByteArray.Write` | sylar/bytearray.cc:421-462 | for every block size, the flat write at the position; the invariant (blocks tile the bytes, position <= size <= capacity, cursor) holds again |
| `ByteArrays.ByteArray.Read` | sylar/bytearray.cc:464-498 | for every block size, the flat read; out_of_range exactly if too much is asked for, a null cursor exactly at the end of the storage |
| `ByteArrays.ByteArray.SetPosition` | sylar/bytearray.cc:537-558 | fails exactly beyond the capacity; cursor, size and contents afterwards |
| `ByteArrays.ByteArray.Clear` | sylar/bytearray.cc:406-419 | one empty block again |
| `ByteArrays.ByteArray.ToString` | sylar/bytearray.cc:647-657 | exactly the unread bytes, with no change |
| `ByteArrays.ByteArray.GetReadBuffers` | sylar/bytearray.cc:677-712 | the regions, one after the other, hold exactly the next unread bytes, with no change |
| `ByteArrays.ByteArray.GetWriteBuffers` | sylar/bytearray.cc:757-791 | the regions, in order, are the storage behind the position; nothing readable changes |
| `ByteArrays.GatheredIs` | sylar/bytearray.cc:677-712 | regions that cover the storage from p on hold that slice of it |
| `ByteArrays.ByteArray.Receive` | sylar/streams/socket_stream.cc:39-42 | filling regions in order is one flat overwrite |
| `ByteArrays.ByteArray.Deliver` | sylar/streams/socket_stream.cc:39-46 | filling the first k bytes of write buffers and moving the position by k equals write of those k bytes |
| `ByteArrays.ByteArray.WriteToFile` | sylar/bytearray.cc:571-583 | emits a prefix of the unread bytes, and all of them if and only if nothing is unread, the position is block-aligned or at least a block is unread |
| `ByteArrays.ByteArray.ReadFromFile` | sylar/bytearray.cc:588-607 | chunk by chunk, the flat write of the whole file |
| `ByteArrays.FileRoundTrip` | sylar/bytearray.cc:560-607 | saved by one array and loaded by another of any block size, the bytes are the same exactly under that condition |
| `Wire.FixedBytes` | sylar/bytearray.cc:82-134 | on every host, byte i holds digit i of the number in base 256 in little endian, and digit w - 1 - i in big endian |
| `Wire.FixedRead` | sylar/bytearray.cc:262-304 | on every host, the number read is the one with these digits, in the array's byte order |
| `Wire.VintBytes` | sylar/bytearray.cc:175-204 | byte i holds digit i in base 128, plus 128 in all bytes but the last, and there are no more bytes than digits |
| `Wire.GroupsRead` | sylar/bytearray.cc:311-352 | the number read is the one with these digits in base 128; the bytes run out exactly if all there are go on, and they are too few |
| `Wire.EncodedFixed` | sylar/bytearray.cc:73-134 | each fixed-width writer puts the digits of the number modulo the word, in the array's byte order |
| `Wire.EncodedVarint` | sylar/bytearray.cc:169-204 | each base-128 writer puts the digits of n, and of 2n or -2n - 1 if signed |
| `Wire.EncodedText` | sylar/bytearray.cc:220-247 | each string writer puts the length modulo its word as its integer writer does, and then the bytes |
| `Wire.DecodedFixed` | sylar/bytearray.cc:249-304 | each fixed-width reader returns the number of its type whose digits these bytes are, and throws exactly if they are not all there |
| `Wire.DecodedVarint` | sylar/bytearray.cc:306-352 | each base-128 reader returns the number the groups make up modulo the word, and of a signed one half of it, or -1 minus that if it is odd; it throws exactly if the groups run out |
| `Wire.DecodedText` | sylar/bytearray.cc:366-404 | each string reader takes the integer in front and that many bytes behind it, and throws or crashes exactly when these cannot be read |
| `Codec.FixedRoundTrip` | sylar/bytearray.cc:262-304 | an integer written on one host is read on any other |
| `Codec.ZigZagRoundTrip` | sylar/bytearray.cc:136-168 | decoding undoes encoding for every signed word, and small magnitudes get small codes |
| `Codec.UnZigZagRoundTrip` | sylar/bytearray.cc:136-168 | encoding undoes decoding for every unsigned word |
| `Codec.VintIsMinimal` | sylar/bytearray.cc:175-204 | the encoding has the least number of seven-bit groups |
| `Codec.VintFits` | sylar/bytearray.cc:177-195 | at most five bytes for 32 bits, ten for 64 |
| `Codec.VintRoundTrip` | sylar/bytearray.cc:311-352 | the reader takes exactly the bytes written and gets the number, whatever follows |
| `Codec.DatumRoundTrip` | sylar/bytearray.cc:220-404 | any value of any type comes back if and only if its length fits its prefix and it is not an empty string ending at the end of the storage |
| `Codec.AllRoundTrip` | sylar/bytearray.cc:73-404 | the same for any list of mixed values |
| `TypedArrays.VintBytes` | sylar/bytearray.cc:175-204 | the loop produces the encoding and never leaves its buffer |
| `TypedArrays.GetVint` | sylar/bytearray.cc:311-352 | the loop computes the value of the groups modulo the word, or throws exactly if the bytes run out |
| `TypedArrays.Put` | sylar/bytearray.cc:73-247 | each typed writer is the flat write of the value's encoding, which `Wire` spells out byte by byte |
| `TypedArrays.Get` | sylar/bytearray.cc:249-404 | each typed reader returns, throws or crashes as the flat decoder says, and moves the position accordingly |
| `TypedArrays.RoundTrip` | sylar/bytearray.cc:73-404 | any list of values written to a fresh array of any block size is read back with nothing left, if and only if all lengths fit and it does not end with an empty string that fills the last block |
| `Streams.Socket.ReadFixSize` | sylar/stream.cc:6-23 | the number of bytes read is the least of the length, what is there and what the calls supply before the first failing one, however they split it; these are the next bytes in order, nothing else in the buffer changes, and the length is returned as an int exactly if all came |
| `Streams.Socket.ReadArray` | sylar/streams/socket_stream.cc:32-48 | what arrived is written at the array's position, and nothing else changes |
| `Streams.Socket.ReadArrayFixSize` | sylar/stream.cc:25-40 | the same number of bytes, the next in order, are written at the array's position |
| `Streams.Socket.WriteArray` | sylar/streams/socket_stream.cc:59-75 | what is sent is the storage at the position, and the size grows exactly as far as that goes past it |
| `Streams.Socket.WriteArrayFixSize` | sylar/stream.cc:62-75 | the number of bytes sent is the least of the length and what the calls supply before the first failing one; these are the array's next bytes in order, and its contents stay the same if and only if no more is sent than was unread |
| `Streams.Socket.WriteFixSize` | sylar/stream.cc:42-60 | success is reported for the empty buffer only; bytes behind the buffer are asked for if and only if the first send goes through, otherwise its result is returned; what has been sent |
| `Streams.NeverFailing` | sylar/stream.cc:10-20 | with calls that never fail, all bytes there are get through, for every split |
| `Streams.AnythingMayHappen` | sylar/streams/socket_stream.cc:24-75 | a call of the modelled socket may move any part of what it is asked for and is there, or fail in any way |
| `HttpSessions.RecvHead` | sylar/http/http_session.cc:28-60 | ends with a head, a parse error or a failing read exactly as the first verdict of the automaton within reach of the reads says; what the parser took, what the buffer holds and what is to arrive, each exactly; never with a full buffer |
| `HttpSessions.RecvBody` | sylar/http/http_session.cc:63-91 | the body is the next length bytes; it comes if and only if nothing is left to read, or the rest is a positive int and the calls supply it all |
| `HttpSessions.RecvRequest` | sylar/http/http_session.cc:13-94 | what comes back for every split, every automaton and every buffer size, in closed form (`Received`): the bytes right behind the first place the automaton stops, or which failure; what is dropped and where the connection goes on |
| `HttpSessions.SplitDoesNotMatter` | sylar/http/http_session.cc:28-94 | for every split into reads that do not fail and every buffer size, a head of h bytes gives the request whose body is the next length bytes |
| `HttpSessions.HttpParser.Execute` | sylar/http/http_parser.cc:190-195 | the automaton takes the bytes up to where it stops and the rest moves to the front of the buffer |
| `ConnectionPools.HttpConnectionPool.GetConnection` | sylar/http/http_connection.cc:364-420 | the first usable idle connection, or a new one exactly if there is none; every counted connection is idle or lent, in one place, with creation time 0; none is lent more often than max(1, maxRequest) |
| `ConnectionPools.HttpConnectionPool.Release` | sylar/http/http_connection.cc:422-436 | the connection goes back exactly if it is connected, the clock is past the age limit and it may serve another request; otherwise it is gone and not counted |
| `Ipv6.Print` | sylar/address.cc:558-584 | the loop with its flag writes the text of the address (`Text`), and that text, read as section 2.2 of RFC 4291 has it, is the address |
| `Ipv6.PrintIsText` | sylar/address.cc:563-582 | groups in hexadecimal with colons between them, and one double colon for the whole of the first run of zeros |
| `Ipv6.HexIsShort` | sylar/address.cc:579 | a group is written without leading zeros |
| `Ipv6.PrintParses` | sylar/address.cc:558-584 | read as section 2.2 of RFC 4291 has it, the text of every address is that address, with one double colon that begins at the first zero group |
| `Ipv6.PrintIsInjective` | sylar/address.cc:558-584 | no two addresses have the same text |

## Left out

- Context switching, stacks, pthread wrappers and weak memory: steps are atomic and interleaved.
- `IOManager::stopping` reads its three conditions one after the other; they are one step here.
- The scan of the list of tasks is one step, though it reads each fiber's `m_state` separately and
  `sylar/scheduler.cc:230` writes HOLD outside `m_mutex`; an entry already passed may become eligible
  before a later one is taken.
- Promptness of timers, tickle delivery and fairness between threads: safety is proved, and that nobody is ever stuck, but not that everybody gets a turn.
- The thread that calls `Scheduler` with `use_caller`: it is one more worker here.
- Freeing of blocks in `ByteArray::clear` and the destructors: unlinked blocks are forgotten.
- `read` and `getReadBuffers` with a position argument, except as `toString` uses it: they start at the cursor or at the root for any position.
- Sizes of 2^63 and more in the stream loops, where `int64_t left` would be negative.
- `writeFixSize` callers such as `sendResponse` beyond what `WriteFixSize` says.
- The generated HTTP and URI automata: a verdict on every sequence of bytes stands for them. The header fields they find depend on how the bytes are cut, because the marks are reset in every call; so the content length and the objections of callbacks are parameters of a run.
- `recvResponse`, chunked decoding and compression.
- Reads and writes of float and double beyond their bit patterns; `toHexString`; opening of files.
- The paths of `do_io` that call the original function directly: hook off, descriptor unknown, closed or made non-blocking by the user.
- `connect_with_timeout` apart from what it shares with `do_io` (record, timer, event, wake-up); the socket error read afterwards is not modelled.
- `DoIo` follows the calls on one event of one descriptor, with their shared records. `Runtime` has all descriptors and threads, but no such records: there the callback of an I/O timer is one that may trigger the event.
- `ConnectionPools.HttpConnectionPool.GetConnection`: the counter is unbounded, because overflow of its 32 bits is out of reach.
- Prefix masks of addresses, other address types, DNS lookup, logging, configuration, daemon, servlets, TcpServer: they would only add easy members.
